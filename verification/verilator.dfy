/** The Verilator backend (`Verilator`): Verilog only; always translates
    the sources to C++ with `verilator`, builds the model with `make`, and
    runs the built executable unless only compiling. */
module Verilator {
  import opened Common
  import opened Paths
  import opened Host
  import opened Job
  import opened Flags

  /** A `Verilator` object after its constructor. */
  datatype Sim = Sim(job: Job, makeArgs: seq<string>)

  /** `Verilator.__init__`: `make_args` defaults to the empty list and VHDL
      sources are refused. */
  function Init(j: Job, makeArgs: Option<seq<string>>): (r: Result<Sim>)
    ensures r.Success? <==> !Truthy(j.vhdlSources)
    ensures r.Failure? ==> r.error == ValueError("This simulator does not support VHDL")
    ensures r.Success? ==> r.value.job == j && r.value.makeArgs == makeArgs.GetOr([])
  {
    if Truthy(j.vhdlSources) then Failure(ValueError("This simulator does not support VHDL"))
    else Success(Sim(j, makeArgs.GetOr([])))
  }

  function IncludeCommands(includes: seq<string>): seq<string>
  {
    Prefixed("-I", includes)
  }

  function DefineCommands(defines: seq<string>): seq<string>
  {
    Prefixed("-D", defines)
  }

  /** `-G<name>=<value>` per parameter. */
  function ParameterCommands(params: Dict<string>): seq<string>
  {
    Assignments("-G", "=", "", params)
  }

  const NotFound := ValueError("Verilator executable not found.")

  /** The C++ main file shipped with cocotb. */
  function MainFile(h: Host): string
  {
    PathJoin(PathJoin(PathJoin(PathJoin(h.cocotbDir, "share"), "lib"), "verilator"), "verilator.cpp")
  }

  /** The linker flags that find cocotb's VPI library at build and at run
      time. */
  function LinkerFlags(libDir: string): string
  {
    "-Wl,-rpath," + libDir + " -L" + libDir + " -lcocotbvpi_verilator"
  }

  /** The compile arguments, with tracing for waveforms and the timescale
      when one is set, in that order. */
  function CompileArgs(j: Job): (r: seq<string>)
    ensures |r| == |j.compileArgs| + |j.verilogCompileArgs| + (if j.waves then 2 else 0) + (if TimescaleSet(j.timescale) then 2 else 0)
    ensures r[..|j.compileArgs| + |j.verilogCompileArgs|] == j.compileArgs + j.verilogCompileArgs
    ensures j.waves ==> r[|j.compileArgs| + |j.verilogCompileArgs|..][..2] == ["--trace-fst", "--trace-structs"]
    ensures TimescaleSet(j.timescale) ==> r[|r| - 2..] == ["--timescale", j.timescale.value]
  {
    var base := j.compileArgs + j.verilogCompileArgs;
    var trace := if j.waves then ["--trace-fst", "--trace-structs"] else [];
    var ts := if TimescaleSet(j.timescale) then ["--timescale", j.timescale.value] else [];
    var r := base + trace + ts;
    assert r[..|base|] == base;
    assert r[|base|..] == trace + ts;
    r
  }

  /** The fixed head of the `verilator` command. */
  function TranslateHead(s: Sim, h: Host, exe: string, m: string): (r: seq<string>)
    ensures |r| == 17
  {
    ["perl", exe, "-cc", "--exe", "-Mdir", s.job.simDir, "-DCOCOTB_SIM=1", "--top-module", m,
     "--vpi", "--public-flat-rw", "--prefix", "Vtop", "-o", m, "-LDFLAGS", LinkerFlags(h.libDir)]
  }

  /** The `verilator` command: the compile arguments follow the fixed head,
      then the defines, the include directories and the parameters, and the
      main file and the sources come last. */
  function TranslateCommand(s: Sim, h: Host, exe: string, m: string, flat: seq<string>): (r: Cmd)
    ensures |r| >= 18 + |CompileArgs(s.job)| + |flat|
    ensures r[..17] == TranslateHead(s, h, exe, m)
    ensures r[17..17 + |CompileArgs(s.job)|] == CompileArgs(s.job)
    ensures r[17 + |CompileArgs(s.job)|..|r| - |flat| - 1] ==
      Prefixed("-D", s.job.defines) + Prefixed("-I", Names(s.job.includes)) + ParameterCommands(s.job.parameters)
    ensures r[|r| - |flat| - 1..] == [MainFile(h)] + flat
  {
    var j := s.job;
    var mid := DefineCommands(j.defines) + IncludeCommands(Names(j.includes)) + ParameterCommands(j.parameters);
    Concat4(TranslateHead(s, h, exe, m), CompileArgs(j), mid, [MainFile(h)] + flat)
  }

  /** The `make` command that builds the translated model. */
  function MakeCommand(s: Sim): (r: Cmd)
    ensures |r| == 5 + |s.makeArgs|
    ensures r[..5] == ["make", "-C", s.job.simDir, "-f", "Vtop.mk"] && r[5..] == s.makeArgs
  {
    ["make", "-C", s.job.simDir, "-f", "Vtop.mk"] + s.makeArgs
  }

  /** The run of the built executable with the plusargs. */
  function RunCommand(s: Sim, m: string): (r: Cmd)
    ensures |r| == 1 + |s.job.plusArgs| && r[1..] == s.job.plusArgs
  {
    [PathJoin(s.job.simDir, m)] + s.job.plusArgs
  }

  /** `build_command`: the toplevel is needed first, then the executable,
      then flat sources. */
  function Build(s: Sim, h: Host): (r: Result<seq<Cmd>>)
    ensures |s.job.toplevel| == 0 ==> r == Failure(IndexError)
    ensures |s.job.toplevel| > 0 && h.which("verilator").None? ==> r == Failure(NotFound)
    ensures |s.job.toplevel| > 0 && h.which("verilator").Some? ==>
      (r.Success? <==> SourcesFlat(s.job.verilogSources).Success?)
    ensures r.Failure? ==> r.error in {IndexError, NotFound} || r == Failure(SourcesFlat(s.job.verilogSources).error)
    ensures r.Success? ==> |r.value| == if s.job.compileOnly then 2 else 3
    ensures r.Success? ==> (r.value[0] ==
      TranslateCommand(s, h, h.which("verilator").value, ModuleName(s.job.toplevel[0]), SourcesFlat(s.job.verilogSources).value))
    ensures r.Success? ==> r.value[1] == MakeCommand(s)
    ensures r.Success? && !s.job.compileOnly ==>
      r.value[2] == RunCommand(s, ModuleName(s.job.toplevel[0]))
  {
    var j := s.job;
    var m :- FirstModule(j.toplevel);
    var exe := h.which("verilator");
    if exe.None? then Failure(NotFound)
    else
      var flat :- SourcesFlat(j.verilogSources);
      var run := if j.compileOnly then [] else [RunCommand(s, m)];
      Success([TranslateCommand(s, h, exe.value, m, flat), MakeCommand(s)] + run)
  }

  /** Where the translation writes and what it names its executable. */
  lemma TranslateTargets(s: Sim, h: Host, exe: string, m: string, flat: seq<string>)
    ensures var c := TranslateCommand(s, h, exe, m, flat);
      && c[4] == "-Mdir" && c[5] == s.job.simDir && c[13] == "-o" && c[14] == m
  {
    var c := TranslateCommand(s, h, exe, m, flat);
    assert c[..17][4] == c[4] && c[..17][5] == c[5] && c[..17][13] == c[13] && c[..17][14] == c[14];
  }

  /** The three steps fit together: `make` runs in the directory the
      translation writes to, and the run starts the executable that
      translation names with `-o`, inside that directory. */
  lemma StepsAgree(s: Sim, h: Host, exe: string, m: string, flat: seq<string>)
    ensures var c := TranslateCommand(s, h, exe, m, flat);
      var mk := MakeCommand(s);
      var run := RunCommand(s, m);
      && c[4] == "-Mdir" && mk[1] == "-C" && mk[2] == c[5]
      && c[13] == "-o" && run[0] == PathJoin(c[5], c[14])
  {
    TranslateTargets(s, h, exe, m, flat);
    var mk := MakeCommand(s);
    assert mk[..5][1] == mk[1] && mk[..5][2] == mk[2];
  }

  /** Waveforms add FST tracing right after the user's compile arguments. */
  lemma WavesTrace(s: Sim, h: Host, exe: string, m: string, flat: seq<string>)
    requires s.job.waves
    ensures var c := TranslateCommand(s, h, exe, m, flat);
      var k := 17 + |s.job.compileArgs| + |s.job.verilogCompileArgs|;
      |c| > k + 1 && c[k] == "--trace-fst" && c[k + 1] == "--trace-structs"
  {
    var c := TranslateCommand(s, h, exe, m, flat);
    var a := CompileArgs(s.job);
    var n := |s.job.compileArgs| + |s.job.verilogCompileArgs|;
    assert c[17..17 + |a|][n] == c[17 + n];
    assert c[17..17 + |a|][n + 1] == c[17 + n + 1];
    assert a[n..][..2][0] == a[n] && a[n..][..2][1] == a[n + 1];
  }
}
