/** The Synopsys VCS backend (`Vcs`): always compiles the Verilog sources
    into an executable named after the test module, then runs that
    executable unless only compiling. */
module Vcs {
  import opened Common
  import opened Paths
  import opened Host
  import opened Job
  import opened Flags

  function IncludeCommands(includes: seq<string>): seq<string>
  {
    Prefixed("+incdir+", includes)
  }

  function DefineCommands(defines: seq<string>): seq<string>
  {
    Prefixed("+define+", defines)
  }

  /** `-pvalue+<module>/<name>=<value>` per parameter. */
  function ParameterCommands(m: string, params: Dict<string>): seq<string>
  {
    Assignments("-pvalue+" + m + "/", "=", "", params)
  }

  /** Parameters with `=`-free names are read back from their tokens. */
  lemma ParameterRoundTrip(m: string, params: Dict<string>)
    requires forall i | 0 <= i < |params| :: '=' !in params[i].0
    ensures |ParameterCommands(m, params)| == |params|
    ensures ParseAssignments("-pvalue+" + m + "/", "=", "", ParameterCommands(m, params)) == Some(params)
  {
    AssignmentsRoundTrip("-pvalue+" + m + "/", "=", "", params);
  }

  /** The compiled executable. */
  function SimvPath(j: Job): string
  {
    PathJoin(j.simDir, j.testModule)
  }

  /** Full debug access, with the dump functions, only for waveforms. */
  function DebugAccess(waves: bool): (r: string)
    ensures "-debug_access" <= r
    ensures waves <==> |r| > 13
    ensures waves ==> r[13..] == "+all+dmptf"
  {
    if waves then "-debug_access" + "+all+dmptf" else "-debug_access"
  }

  /** The timescale passed to `vcs`, `1ns/1ps` when none is set. */
  function TimescaleArg(ts: Option<string>): (r: string)
    ensures "-timescale=" <= r
    ensures TimescaleSet(ts) ==> r[11..] == ts.value
    ensures !TimescaleSet(ts) ==> r[11..] == "1ns/1ps"
  {
    var v := if TimescaleSet(ts) then ts.value else "1ns/1ps";
    assert ("-timescale=" + v)[11..] == v;
    "-timescale=" + v
  }

  /** The compile arguments, with the debug database options for waveforms. */
  function CompileArgs(j: Job): (r: seq<string>)
    ensures j.compileArgs + j.verilogCompileArgs <= r
    ensures !j.waves ==> r == j.compileArgs + j.verilogCompileArgs
    ensures j.waves ==> |r| == |j.compileArgs + j.verilogCompileArgs| + 2
    ensures j.waves ==> r[|r| - 2..] == ["-kdb", "-debug_region+cell"]
  {
    var base := j.compileArgs + j.verilogCompileArgs;
    if j.waves then
      var r := base + ["-kdb", "-debug_region+cell"];
      assert r[..|base|] == base;
      r
    else base
  }

  /** The fixed head of the compile command. */
  function CompileHead(j: Job, h: Host, m: string): (r: seq<string>)
    ensures |r| == 11 && r[3] == DebugAccess(j.waves) && r[9..] == ["-top", m]
  {
    ["vcs", "-full64", "-sverilog", DebugAccess(j.waves), "-P", "pli.tab", "+define+COCOTB_SIM=1",
     "-load", h.libNamePath("vpi", "vcs"), "-top", m]
  }

  /** The `vcs` command: it names the toplevel module after `-top`, then
      passes the defines, the include directories, the parameters and the
      compile arguments, and it ends with the sources, the output
      executable and the timescale. */
  function CompileCommand(j: Job, h: Host, m: string, flat: seq<string>): (r: Cmd)
    ensures |r| >= 14 + |flat|
    ensures r[..11] == CompileHead(j, h, m)
    ensures r[11..|r| - 3 - |flat|] ==
      Prefixed("+define+", j.defines) + Prefixed("+incdir+", Names(j.includes))
      + ParameterCommands(m, j.parameters) + CompileArgs(j)
    ensures r[|r| - 3 - |flat|..] == flat + ["-o", SimvPath(j), TimescaleArg(j.timescale)]
  {
    var head := CompileHead(j, h, m);
    var mid := DefineCommands(j.defines) + IncludeCommands(Names(j.includes))
      + ParameterCommands(m, j.parameters) + CompileArgs(j);
    var tail := flat + ["-o", SimvPath(j), TimescaleArg(j.timescale)];
    Concat4(head, [], mid, tail)
  }

  /** The UCLI script that dumps every signal below the toplevel. */
  function UcliScript(j: Job, m: string): string
  {
    "fsdbDumpfile " + SimvPath(j) + ".fsdb; fsdbDumpvars 0 " + m + "; run; quit;"
  }

  function UcliFile(j: Job): string
  {
    PathJoin(j.simDir, j.testModule + "_ucli.do")
  }

  /** The run command: the compiled executable, then the simulation
      arguments, the UCLI options for waveforms and `-gui` last. */
  function RunCommand(j: Job): (r: Cmd)
    ensures |r| == 2 + |j.simulationArgs| + (if j.waves then 4 else 0) + (if j.gui then 1 else 0)
    ensures r[..2] == [SimvPath(j), "+define+COCOTB_SIM=1"]
    ensures r[2..2 + |j.simulationArgs|] == j.simulationArgs
    ensures j.waves ==> r[2 + |j.simulationArgs|..6 + |j.simulationArgs|] == ["+fsdb+all=on", "-ucli", "-do", UcliFile(j)]
    ensures j.gui ==> r[|r| - 1] == "-gui"
  {
    var waves := if j.waves then ["+fsdb+all=on", "-ucli", "-do", UcliFile(j)] else [];
    var front := [SimvPath(j), "+define+COCOTB_SIM=1"] + j.simulationArgs;
    var r := front + waves + (if j.gui then ["-gui"] else []);
    assert r[..|front|] == front;
    assert r[..2] == front[..2];
    assert r[2..2 + |j.simulationArgs|] == front[2..];
    assert r[|front|..|front| + |waves|] == waves;
    r
  }

  /** `build_command`: the compile step always, the run unless only
      compiling; the toplevel is needed first, then flat sources. */
  function Build(j: Job, h: Host): (r: Result<seq<Cmd>>)
    ensures r.Success? <==> |j.toplevel| > 0 && SourcesFlat(j.verilogSources).Success?
    ensures |j.toplevel| == 0 ==> r == Failure(IndexError)
    ensures |j.toplevel| > 0 && SourcesFlat(j.verilogSources).Failure? ==> r == Failure(SourcesFlat(j.verilogSources).error)
    ensures r.Success? ==> |r.value| == if j.compileOnly then 1 else 2
    ensures r.Success? ==> r.value[0] == CompileCommand(j, h, ModuleName(j.toplevel[0]), SourcesFlat(j.verilogSources).value)
    ensures r.Success? && !j.compileOnly ==> r.value[1] == RunCommand(j)
  {
    var m :- FirstModule(j.toplevel);
    var flat :- SourcesFlat(j.verilogSources);
    Success([CompileCommand(j, h, m, flat)] + (if j.compileOnly then [] else [RunCommand(j)]))
  }

  /** The run executes exactly the file the compile step writes with `-o`. */
  lemma RunsCompiledExecutable(j: Job, h: Host)
    requires Build(j, h).Success? && !j.compileOnly
    ensures var cmds := Build(j, h).value;
      |cmds[0]| >= 3 && cmds[0][|cmds[0]| - 3] == "-o" && cmds[1][0] == cmds[0][|cmds[0]| - 2]
  {
    var cmds := Build(j, h).value;
    var flat := SourcesFlat(j.verilogSources).value;
    var c := cmds[0];
    assert c[|c| - 3 - |flat|..][|flat|] == c[|c| - 3];
    assert c[|c| - 3 - |flat|..][|flat| + 1] == c[|c| - 2];
    assert cmds[1][..2][0] == cmds[1][0];
  }

  /** The fourth compile argument is the debug access option, extended
      with `+all+dmptf` exactly when waveforms are on. */
  lemma CompileWaves(j: Job, h: Host)
    requires Build(j, h).Success?
    ensures var c := Build(j, h).value[0];
      && |c| > 3 && "-debug_access" <= c[3]
      && (j.waves <==> |c[3]| > 13)
      && (j.waves ==> c[3][13..] == "+all+dmptf")
  {
    var m := ModuleName(j.toplevel[0]);
    var c := CompileCommand(j, h, m, SourcesFlat(j.verilogSources).value);
    assert c == Build(j, h).value[0];
    assert c[3] == c[..11][3];
  }

  /** Waveforms make the run load the UCLI dump script. */
  lemma RunWaves(j: Job, h: Host)
    requires Build(j, h).Success? && j.waves && !j.compileOnly
    ensures var run := Build(j, h).value[1];
      exists k | 0 <= k < |run| - 1 :: run[k] == "-do" && run[k + 1] == UcliFile(j)
  {
    var run := RunCommand(j);
    assert Build(j, h).value[1] == run;
    var k := 2 + |j.simulationArgs|;
    assert run[k + 2] == "-do" && run[k + 3] == UcliFile(j) by {
      assert run[k..k + 4][2] == run[k + 2] && run[k..k + 4][3] == run[k + 3];
    }
    assert 0 <= k + 2 < |run| - 1;
  }
}
