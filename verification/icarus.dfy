/** The Icarus Verilog backend (`Icarus`): a Verilog-only simulator that
    compiles with `iverilog` into `<toplevel>.vvp` when the sources are newer
    (or compilation is forced) and runs the result with `vvp`. */
module Icarus {
  import opened Common
  import opened Paths
  import opened Host
  import opened Job
  import opened Rebuild
  import opened Flags

  function IncludeCommands(includes: seq<string>): seq<string>
  {
    Prefixed("-I", includes)
  }

  function DefineCommands(defines: seq<string>): seq<string>
  {
    Prefixed("-D", defines)
  }

  /** `-P<toplevel module>.<name>=<value>`; the module is looked up once
      per parameter, so only a non-empty dictionary needs a toplevel. */
  function ParameterCommands(tops: seq<string>, params: Dict<string>): (r: Result<seq<string>>)
    ensures r.Failure? <==> |params| > 0 && |tops| == 0
    ensures r.Success? ==> r.value == Assignments("-P" + (if |tops| > 0 then ModuleName(tops[0]) else "") + ".", "=", "", params)
  {
    if |params| == 0 then Success([])
    else
      var m :- FirstModule(tops);
      Success(Assignments("-P" + m + ".", "=", "", params))
  }

  /** An `Icarus` object after its constructor. */
  datatype Sim = Sim(job: Job, simFile: string)

  /** `Icarus.__init__`: VHDL sources are refused, and the compiled file is
      named after the first toplevel module. */
  function Init(j: Job): (r: Result<Sim>)
    ensures Truthy(j.vhdlSources) ==> r == Failure(ValueError("This simulator does not support VHDL"))
    ensures !Truthy(j.vhdlSources) ==> (r.Success? <==> |j.toplevel| > 0)
    ensures r.Success? ==> r.value.job == j && r.value.simFile == PathJoin(j.simDir, ModuleName(j.toplevel[0]) + ".vvp")
  {
    if Truthy(j.vhdlSources) then Failure(ValueError("This simulator does not support VHDL"))
    else
      var m :- FirstModule(j.toplevel);
      Success(Sim(j, PathJoin(j.simDir, m + ".vvp")))
  }

  /** The dump module `build_command` adds for waveforms. */
  function DumpModuleFile(j: Job): string
  {
    PathJoin(j.simDir, "iverilog_dump.v")
  }

  /** `next(iter(self.verilog_sources.items()))[1]`. */
  function FirstLibrary(s: Sources): (r: Result<seq<string>>)
    ensures r.Success? <==> s.Libs? && |s.libs| > 0
    ensures s.Flat? ==> r == Failure(AttributeError)
    ensures s.Libs? && |s.libs| == 0 ==> r == Failure(StopIteration)
  {
    match s
    case Flat(_) => Failure(AttributeError)
    case Libs(libs) => if |libs| == 0 then Failure(StopIteration) else Success(libs[0].1)
  }

  /** What the waveform and timescale options add before compiling: the
      compile arguments, the plus arguments and the compiled sources. */
  datatype Extras = Extras(compileArgs: seq<string>, plusArgs: seq<string>, sources: seq<string>)

  function AddOptions(j: Job, flat: seq<string>): (r: Result<Extras>)
    ensures !j.waves ==> r.Success? && r.value.sources == flat && r.value.plusArgs == j.plusArgs
    ensures r.Success? && j.waves ==> r.value.sources == flat + [DumpModuleFile(j)] && r.value.plusArgs == j.plusArgs + ["-fst"]
    ensures r.Success? ==> j.compileArgs <= r.value.compileArgs
    ensures r.Success? && TimescaleSet(j.timescale) ==>
      |r.value.compileArgs| >= 2 &&
      r.value.compileArgs[|r.value.compileArgs| - 2..] == ["-f", PathJoin(j.simDir, "timescale.f")]
  {
    var e :-
      if j.waves then
        var _ :- FirstLibrary(j.verilogSources);
        Success(Extras(j.compileArgs + ["-s", "iverilog_dump"], j.plusArgs + ["-fst"], flat + [DumpModuleFile(j)]))
      else Success(Extras(j.compileArgs, j.plusArgs, flat));
    if TimescaleSet(j.timescale) then
      Success(e.(compileArgs := e.compileArgs + ["-f", PathJoin(j.simDir, "timescale.f")]))
    else Success(e)
  }

  /** The `iverilog` line around already rendered parameters: the output
      file and the simulation define first, one `-s` per toplevel module,
      then the `-D` defines, the `-I` include directories, the parameters
      and the compile arguments, and the sources last. */
  function CompileLine(s: Sim, e: Extras, params: seq<string>): (r: Cmd)
    ensures |r| >= 6 + 2 * |s.job.toplevel| + |e.sources|
    ensures r[..6] == ["iverilog", "-o", s.simFile, "-D", "COCOTB_SIM=1", "-g2012"]
    ensures r[6..6 + 2 * |s.job.toplevel|] == Paired("-s", ModuleList(s.job.toplevel))
    ensures r[6 + 2 * |s.job.toplevel|..|r| - |e.sources|] ==
      Prefixed("-D", s.job.defines) + Prefixed("-I", Names(s.job.includes)) + params
      + e.compileArgs + s.job.verilogCompileArgs
    ensures r[|r| - |e.sources|..] == e.sources
  {
    var j := s.job;
    var head := ["iverilog", "-o", s.simFile, "-D", "COCOTB_SIM=1", "-g2012"];
    var tops := Paired("-s", ModuleList(j.toplevel));
    var mid := DefineCommands(j.defines) + IncludeCommands(Names(j.includes)) + params
      + e.compileArgs + j.verilogCompileArgs;
    Concat4(head, tops, mid, e.sources)
  }

  /** `compile_command`: fails only for parameters without a toplevel. */
  function CompileCommand(s: Sim, e: Extras): (r: Result<Cmd>)
    ensures r.Success? <==> |s.job.parameters| == 0 || |s.job.toplevel| > 0
    ensures r.Failure? ==> r.error == IndexError
    ensures r.Success? ==> r.value == CompileLine(s, e, ParameterCommands(s.job.toplevel, s.job.parameters).value)
  {
    var params :- ParameterCommands(s.job.toplevel, s.job.parameters);
    Success(CompileLine(s, e, params))
  }

  /** `run_command`: `vvp` loading cocotb's VPI library, the simulation
      arguments, the compiled file and the plus arguments. */
  function RunCommand(s: Sim, h: Host, e: Extras): (r: Cmd)
    ensures |r| >= 6 + |e.plusArgs|
    ensures r[..5] == ["vvp", "-M", h.libDir, "-m", h.libName("vpi", "icarus")]
    ensures r[5..|r| - |e.plusArgs| - 1] == s.job.simulationArgs
    ensures r[|r| - |e.plusArgs| - 1..] == [s.simFile] + e.plusArgs
  {
    ["vvp", "-M", h.libDir, "-m", h.libName("vpi", "icarus")] + s.job.simulationArgs + [s.simFile] + e.plusArgs
  }

  /** Whether `build_command` compiles: the flat sources are out of date
      against the compiled file, or compilation is forced. */
  function NeedsCompile(s: Sim, h: Host): Result<bool>
  {
    var flat :- SourcesFlat(s.job.verilogSources);
    var outdated :- Outdated(h, s.simFile, Flat(flat));
    Success(outdated || s.job.forceCompile)
  }

  /** `build_command`: the compile command exactly when `NeedsCompile`
      holds, then the run command unless only compiling. */
  function Build(s: Sim, h: Host): (r: Result<seq<Cmd>>)
    ensures r.Success? ==> NeedsCompile(s, h).Success?
    ensures r.Success? ==> |r.value| == (if NeedsCompile(s, h).value then 1 else 0) + (if s.job.compileOnly then 0 else 1)
    ensures NeedsCompile(s, h).Failure? ==> r.Failure?
  {
    var j := s.job;
    var flat :- SourcesFlat(j.verilogSources);
    var e :- AddOptions(j, flat);
    var outdated :- Outdated(h, s.simFile, Flat(flat));
    var compile :- if outdated || j.forceCompile then
        var c :- CompileCommand(s, e);
        Success([c])
      else Success([]);
    var run := if j.compileOnly then [] else [RunCommand(s, h, e)];
    Success(compile + run)
  }

  /** A successful build is the compile command when it is needed and the
      run command unless only compiling, both over the added options. */
  lemma BuildParts(s: Sim, h: Host)
    requires Build(s, h).Success?
    ensures var flat := SourcesFlat(s.job.verilogSources);
      var e := AddOptions(s.job, flat.value);
      && flat.Success? && e.Success? && NeedsCompile(s, h).Success?
      && (NeedsCompile(s, h).value ==> CompileCommand(s, e.value).Success?)
      && Build(s, h).value
        == (if NeedsCompile(s, h).value then [CompileCommand(s, e.value).value] else [])
         + (if s.job.compileOnly then [] else [RunCommand(s, h, e.value)])
  {
  }

  /** At most two commands: `iverilog` exactly when a compile is needed,
      then `vvp` exactly when not only compiling. */
  lemma BuildPrograms(s: Sim, h: Host)
    requires Build(s, h).Success?
    ensures Programs(Build(s, h).value)
      == (if NeedsCompile(s, h).value then ["iverilog"] else []) + (if s.job.compileOnly then [] else ["vvp"])
  {
    BuildParts(s, h);
    var e := AddOptions(s.job, SourcesFlat(s.job.verilogSources).value).value;
    if NeedsCompile(s, h).value {
      assert CompileCommand(s, e).value[..6][0] == "iverilog";
    }
    assert RunCommand(s, h, e)[..5][0] == "vvp";
  }

  /** With waveforms on, the dump module is the last file compiled. */
  lemma BuildCompilesDumpModule(s: Sim, h: Host)
    requires s.job.waves && Build(s, h).Success? && NeedsCompile(s, h).value
    ensures var c := Build(s, h).value[0]; c != [] && c[|c| - 1] == DumpModuleFile(s.job)
  {
    BuildParts(s, h);
    var e := AddOptions(s.job, SourcesFlat(s.job.verilogSources).value).value;
    var c := CompileCommand(s, e).value;
    assert c[|c| - |e.sources|..] == e.sources;
    assert c[|c| - 1] == c[|c| - |e.sources|..][|e.sources| - 1];
  }

  /** With waveforms on, the run ends with `-fst`. */
  lemma BuildRunsFst(s: Sim, h: Host)
    requires s.job.waves && Build(s, h).Success? && !s.job.compileOnly
    ensures var cmds := Build(s, h).value;
      cmds != [] && cmds[|cmds| - 1] != [] && cmds[|cmds| - 1][|cmds[|cmds| - 1]| - 1] == "-fst"
  {
    BuildParts(s, h);
    var e := AddOptions(s.job, SourcesFlat(s.job.verilogSources).value).value;
    var run := RunCommand(s, h, e);
    assert run[|run| - |e.plusArgs| - 1..] == [s.simFile] + e.plusArgs;
    assert run[|run| - 1] == run[|run| - |e.plusArgs| - 1..][|e.plusArgs|];
  }
}
