/** The Cadence backends, `Ius` (`irun`) and `Xcelium` (`xrun`): one
    elaboration step over all sources at once, re-run when the sources are
    newer than `INCA_libs/history` or compilation is forced, then a run
    step. The two differ only in the tool names and in the `-timescale`
    option, which only `Xcelium` passes. */
module Cadence {
  import opened Common
  import opened Paths
  import opened Host
  import opened Job
  import opened Rebuild
  import opened Flags

  datatype Tool = Ius | Xcelium

  /** The command-line program. */
  function Program(t: Tool): string
  {
    match t
    case Ius => "irun"
    case Xcelium => "xrun"
  }

  /** The name cocotb's library lookup knows the simulator by. */
  function LibSimulator(t: Tool): string
  {
    match t
    case Ius => "ius"
    case Xcelium => "xcelium"
  }

  /** The class name quoted in the assertion message. */
  function ClassName(t: Tool): string
  {
    match t
    case Ius => "Ius"
    case Xcelium => "Xcelium"
  }

  function IncludeCommands(includes: seq<string>): seq<string>
  {
    Paired("-incdir", includes)
  }

  function DefineCommands(defines: seq<string>): seq<string>
  {
    Paired("-define", defines)
  }

  /** `-generic "<module>.<name>=><value>"` for a VHDL toplevel,
      `-defparam "<module>.<name>=<value>"` otherwise. */
  function ParameterFlag(lang: string): string
  {
    if lang == "vhdl" then "-generic" else "-defparam"
  }

  function ParameterSeparator(lang: string): string
  {
    if lang == "vhdl" then "=>" else "="
  }

  /** `get_parameter_commands`: the toplevel module is read once per
      parameter, so only a non-empty dictionary needs a toplevel. */
  function ParameterCommands(j: Job): (r: Result<seq<string>>)
    ensures r.Failure? <==> |j.parameters| > 0 && |j.toplevel| == 0
    ensures r.Failure? ==> r.error == IndexError
    ensures r.Success? ==> |r.value| == 2 * |j.parameters|
  {
    if |j.parameters| == 0 then Success([])
    else
      var m :- FirstModule(j.toplevel);
      Success(Paired(ParameterFlag(j.toplevelLang),
        Assignments("\"" + m + ".", ParameterSeparator(j.toplevelLang), "\"", j.parameters)))
  }

  /** Reading the parameter tokens back: every other token is the flag for
      the toplevel's language, and the quoted assignments between them give
      back the dictionary, provided no parameter name holds `=`. */
  lemma ParameterRoundTrip(j: Job)
    requires |j.toplevel| > 0
    requires forall i | 0 <= i < |j.parameters| :: '=' !in j.parameters[i].0
    ensures var pre := "\"" + ModuleName(j.toplevel[0]) + ".";
      && ParameterCommands(j).Success?
      && var toks := Unpaired(ParameterFlag(j.toplevelLang), ParameterCommands(j).value);
      && toks.Some?
      && ParseAssignments(pre, ParameterSeparator(j.toplevelLang), "\"", toks.value) == Some(j.parameters)
  {
    var pre := "\"" + ModuleName(j.toplevel[0]) + ".";
    var sep := ParameterSeparator(j.toplevelLang);
    var flag := ParameterFlag(j.toplevelLang);
    assert ParameterCommands(j).value == Paired(flag, Assignments(pre, sep, "\"", j.parameters));
    PairedAssignmentsRoundTrip(flag, pre, sep, "\"", j.parameters);
  }

  /** `os.path.join(self.sim_dir, "INCA_libs", "history")`. */
  function HistoryFile(j: Job): string
  {
    PathJoin(PathJoin(j.simDir, "INCA_libs"), "history")
  }

  /** The refusal of language-specific compile arguments. */
  function HdlArgsError(t: Tool): Error
  {
    AssertionError("'" + ClassName(t) + "' simulator does not allow HDL specific compile arguments.")
  }

  /** All sources, the Verilog ones first; each collection must be flat. */
  function AllSources(j: Job): Result<seq<string>>
  {
    var v :- SourcesFlat(j.verilogSources);
    var h :- SourcesFlat(j.vhdlSources);
    Success(v + h)
  }

  /** Whether `build_command` elaborates: the sources are out of date
      against the history file, or compilation is forced. */
  function NeedsElaborate(j: Job, h: Host): Result<bool>
  {
    var srcs :- AllSources(j);
    var outdated :- Outdated(h, HistoryFile(j), Flat(srcs));
    Success(outdated || j.forceCompile)
  }

  /** The fixed head of the elaboration command. */
  function ElabHead(t: Tool, h: Host, m: string): (r: seq<string>)
    ensures |r| == 12 && r[0] == Program(t) && r[10..] == ["-top", m]
  {
    [Program(t), "-64", "-elaborate", "-define", "COCOTB_SIM=1",
     "-loadvpi", h.libNamePath("vpi", LibSimulator(t)) + ":vlog_startup_routines_bootstrap",
     "-plinowarn", "-access", "+rwc", "-top", m]
  }

  /** The timescale option, which only `Xcelium` passes. */
  function TimescaleArgs(t: Tool, j: Job): seq<string>
  {
    if t == Xcelium && TimescaleSet(j.timescale) then ["-timescale", j.timescale.value] else []
  }

  /** The elaboration command: it names the first toplevel module after
      `-top`, then passes the defines, the include directories, the
      parameters and the compile arguments, and its last arguments are the
      sources followed by the timescale option. */
  function ElabCommand(t: Tool, j: Job, h: Host, srcs: seq<string>): (r: Result<Cmd>)
    ensures r.Success? <==> |j.toplevel| > 0
    ensures r.Failure? ==> r.error == IndexError
    ensures r.Success? ==> |r.value| >= 12 + |srcs| + |TimescaleArgs(t, j)|
    ensures r.Success? ==> r.value[..12] == ElabHead(t, h, ModuleName(j.toplevel[0]))
    ensures r.Success? ==>
      r.value[12..|r.value| - |srcs| - |TimescaleArgs(t, j)|] ==
        Paired("-define", j.defines) + Paired("-incdir", Names(j.includes)) + ParameterCommands(j).value + j.compileArgs
    ensures r.Success? ==> r.value[|r.value| - |srcs| - |TimescaleArgs(t, j)|..] == srcs + TimescaleArgs(t, j)
  {
    var m :- FirstModule(j.toplevel);
    var params := ParameterCommands(j).value;
    var head := ElabHead(t, h, m);
    var mid := DefineCommands(j.defines) + IncludeCommands(Names(j.includes)) + params + j.compileArgs;
    var tail := srcs + TimescaleArgs(t, j);
    Success(Concat4(head, [], mid, tail))
  }

  /** The run command: `-gui` or an empty argument in fourth place, then
      the simulation arguments, the rendered parameters and the plus
      arguments. */
  function RunCommand(t: Tool, j: Job, params: seq<string>): (r: Cmd)
    ensures |r| == 4 + |j.simulationArgs| + |params| + |j.plusArgs|
    ensures r[..3] == [Program(t), "-64", "-R"]
    ensures r[3] == "-gui" <==> j.gui
    ensures !j.gui ==> r[3] == ""
    ensures r[4..|r| - |j.plusArgs|] == j.simulationArgs + params
    ensures r[|r| - |j.plusArgs|..] == j.plusArgs
  {
    var head := [Program(t), "-64", "-R", if j.gui then "-gui" else ""];
    var r := Concat4(head, j.simulationArgs, params, j.plusArgs);
    assert r[3] == r[..4][3] == head[3];
    assert r[4..|r| - |j.plusArgs|] == r[4..4 + |j.simulationArgs|] + r[4 + |j.simulationArgs|..|r| - |j.plusArgs|];
    r
  }

  /** The elaboration step of `build_command`, present exactly when
      `NeedsElaborate` holds. */
  function ElabStep(t: Tool, j: Job, h: Host): (r: Result<seq<Cmd>>)
    ensures NeedsElaborate(j, h).Failure? ==> r == Failure(NeedsElaborate(j, h).error)
    ensures r.Success? ==> NeedsElaborate(j, h).Success?
    ensures r.Success? ==> |r.value| == if NeedsElaborate(j, h).value then 1 else 0
    ensures r.Success? ==> Programs(r.value) == if NeedsElaborate(j, h).value then [Program(t)] else []
    ensures r.Failure? && NeedsElaborate(j, h).Success? ==> r.error == IndexError && |j.toplevel| == 0
    ensures r.Success? && NeedsElaborate(j, h).value ==>
      ElabCommand(t, j, h, AllSources(j).value).Success? && r.value == [ElabCommand(t, j, h, AllSources(j).value).value]
  {
    var need :- NeedsElaborate(j, h);
    if need then
      var c :- ElabCommand(t, j, h, AllSources(j).value);
      assert Programs([c]) == [Program(t)] by {
        assert c[..12][0] == Program(t);
        ProgramsOne(c);
      }
      Success([c])
    else Success([])
  }

  /** The run step of `build_command`, present unless only compiling. */
  function RunStep(t: Tool, j: Job): (r: Result<seq<Cmd>>)
    ensures r.Success? <==> j.compileOnly || ParameterCommands(j).Success?
    ensures r.Failure? ==> r.error == IndexError && |j.toplevel| == 0
    ensures r.Success? ==> r.value == if j.compileOnly then [] else [RunCommand(t, j, ParameterCommands(j).value)]
    ensures r.Success? ==> Programs(r.value) == if j.compileOnly then [] else [Program(t)]
  {
    if j.compileOnly then Success([])
    else
      var params :- ParameterCommands(j);
      var c := RunCommand(t, j, params);
      assert Programs([c]) == [Program(t)] by {
        assert c[..3][0] == Program(t);
        ProgramsOne(c);
      }
      Success([c])
  }

  /** `build_command`: the refusal of language-specific arguments first,
      then the elaboration step, then the run step. */
  function Build(t: Tool, j: Job, h: Host): (r: Result<seq<Cmd>>)
    ensures |j.verilogCompileArgs| > 0 || |j.vhdlCompileArgs| > 0 ==> r == Failure(HdlArgsError(t))
    ensures r.Success? ==> NeedsElaborate(j, h).Success?
    ensures r.Success? ==>
      |r.value| == (if NeedsElaborate(j, h).value then 1 else 0) + (if j.compileOnly then 0 else 1)
    ensures |j.verilogCompileArgs| == 0 && |j.vhdlCompileArgs| == 0 && NeedsElaborate(j, h).Failure? ==>
      r == Failure(NeedsElaborate(j, h).error)
    ensures r.Failure? && r.error != HdlArgsError(t) && NeedsElaborate(j, h).Success? ==>
      r.error == IndexError && |j.toplevel| == 0
    ensures r.Success? ==> ElabStep(t, j, h).Success? && RunStep(t, j).Success? && r.value == ElabStep(t, j, h).value + RunStep(t, j).value
  {
    if |j.verilogCompileArgs| > 0 || |j.vhdlCompileArgs| > 0 then Failure(HdlArgsError(t))
    else
      var elab :- ElabStep(t, j, h);
      var run :- RunStep(t, j);
      Success(elab + run)
  }

  /** The same program elaborates and runs. */
  lemma BuildPrograms(t: Tool, j: Job, h: Host)
    requires Build(t, j, h).Success?
    ensures Programs(Build(t, j, h).value)
      == (if NeedsElaborate(j, h).value then [Program(t)] else []) + (if j.compileOnly then [] else [Program(t)])
  {
    ProgramsAppend(ElabStep(t, j, h).value, RunStep(t, j).value);
  }
}
