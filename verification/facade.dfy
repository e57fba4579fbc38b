/** The entry point `run()` and what `Simulator.run` does around a
    backend's commands: choosing the backend by name, executing the
    commands until one fails, and reading the failure count from the
    results document. */
module Facade {
  import opened Common
  import opened Xml

  datatype Backend =
    | IcarusSim | QuestaSim | ModelsimSim | IusSim | XceliumSim
    | VcsSim | GhdlSim | RivieraSim | ActivehdlSim | VerilatorSim

  /** The name `SIM` or the `simulator` argument gives for a backend. */
  function Name(b: Backend): string
  {
    match b
    case IcarusSim => "icarus"
    case QuestaSim => "questa"
    case ModelsimSim => "modelsim"
    case IusSim => "ius"
    case XceliumSim => "xcelium"
    case VcsSim => "vcs"
    case GhdlSim => "ghdl"
    case RivieraSim => "riviera"
    case ActivehdlSim => "activehdl"
    case VerilatorSim => "verilator"
  }

  /** The supported names, in the order the error message lists them. */
  const Supported: seq<string> :=
    ["icarus", "questa", "modelsim", "ius", "xcelium", "vcs", "ghdl", "riviera", "activehdl", "verilator"]

  const Unsupported := NotImplemented("Set SIM variable. Supported: " + JoinWith(", ", Supported))

  /** The backend a supported name stands for. */
  function FromName(s: string): (r: Option<Backend>)
    ensures r.Some? <==> s in Supported
    ensures r.Some? ==> Name(r.value) == s
  {
    if s == "icarus" then Some(IcarusSim)
    else if s == "questa" then Some(QuestaSim)
    else if s == "modelsim" then Some(ModelsimSim)
    else if s == "ius" then Some(IusSim)
    else if s == "xcelium" then Some(XceliumSim)
    else if s == "vcs" then Some(VcsSim)
    else if s == "ghdl" then Some(GhdlSim)
    else if s == "riviera" then Some(RivieraSim)
    else if s == "activehdl" then Some(ActivehdlSim)
    else if s == "verilator" then Some(VerilatorSim)
    else None
  }

  /** Every backend has a supported name of its own. */
  lemma NameRoundTrip(b: Backend)
    ensures Name(b) in Supported
    ensures FromName(Name(b)) == Some(b)
  {
  }

  /** The name `run()` settles on: the `SIM` variable when set, otherwise
      the `simulator` argument when given, otherwise `icarus`. */
  function ChosenName(env: Option<string>, kwarg: Option<string>): string
  {
    match env
    case Some(s) => s
    case None => kwarg.GetOr("icarus")
  }

  /** The precedence between the two sources of the name. */
  lemma Precedence(env: Option<string>, kwarg: Option<string>)
    ensures env.Some? ==> ChosenName(env, kwarg) == env.value
    ensures env.None? && kwarg.Some? ==> ChosenName(env, kwarg) == kwarg.value
    ensures env.None? && kwarg.None? ==> ChosenName(env, kwarg) == "icarus"
    ensures ChosenName(env, kwarg) == ChosenName(env, None) || env.None?
  {
  }

  /** The selection in `run()`: an unknown name is refused before any
      backend is constructed. */
  function Select(env: Option<string>, kwarg: Option<string>): (r: Result<Backend>)
    ensures r.Success? <==> ChosenName(env, kwarg) in Supported
    ensures r.Success? ==> Name(r.value) == ChosenName(env, kwarg)
    ensures r.Failure? ==> r.error == Unsupported
  {
    match FromName(ChosenName(env, kwarg))
    case Some(b) => Success(b)
    case None => Failure(Unsupported)
  }

  /** A set `SIM` overrides even a valid `simulator` argument, and a bad
      `simulator` argument is refused when `SIM` is unset. */
  lemma EnvTakesPriority(env: string)
    ensures Select(Some(env), Some("bad_sim_name")) == Select(Some(env), None)
    ensures Select(None, Some("bad_sim_name")) == Failure(Unsupported)
    ensures Select(None, None) == Success(IcarusSim)
  {
    assert "bad_sim_name" !in Supported;
  }

  /** The error `execute` raises for a command that exits with `code`. */
  function ProcessError(program: string, code: int): Error
  {
    SystemExit("Process " + program + " terminated with error " + IntToString(code))
  }

  /** `execute` as a reference definition: the commands run in order, the
      `i`-th exiting with `code(i)`; the first command that is empty or
      exits non-zero stops the rest. */
  function ExecuteFrom(cmds: seq<Cmd>, code: nat -> int, i: nat): Result<nat>
    requires i <= |cmds|
    decreases |cmds| - i
  {
    if i == |cmds| then Success(i)
    else if |cmds[i]| == 0 then Failure(TypeError)
    else if code(i) != 0 then Failure(ProcessError(cmds[i][0], code(i)))
    else ExecuteFrom(cmds, code, i + 1)
  }

  /** A command that could not start, or that exited non-zero. */
  predicate Fails(cmds: seq<Cmd>, code: nat -> int, i: nat)
    requires i < |cmds|
  {
    |cmds[i]| == 0 || code(i) != 0
  }

  /** The reference definition succeeds exactly when no command fails. */
  lemma {:induction false} ExecuteFromSucceeds(cmds: seq<Cmd>, code: nat -> int, i: nat)
    requires i <= |cmds|
    ensures ExecuteFrom(cmds, code, i).Success? <==> forall k | i <= k < |cmds| :: !Fails(cmds, code, k)
    ensures ExecuteFrom(cmds, code, i).Success? ==> ExecuteFrom(cmds, code, i).value == |cmds|
    decreases |cmds| - i
  {
    if i < |cmds| && !Fails(cmds, code, i) {
      ExecuteFromSucceeds(cmds, code, i + 1);
    }
  }

  /** When the `k`-th command is the first to fail, that command's error
      is reported. */
  lemma {:induction false} ExecuteFromFirstFailure(cmds: seq<Cmd>, code: nat -> int, i: nat, k: nat)
    requires i <= k < |cmds| && Fails(cmds, code, k)
    requires forall l | i <= l < k :: !Fails(cmds, code, l)
    ensures ExecuteFrom(cmds, code, i) == Failure(if |cmds[k]| == 0 then TypeError else ProcessError(cmds[k][0], code(k)))
    decreases k - i
  {
    if i < k {
      assert !Fails(cmds, code, i);
      ExecuteFromFirstFailure(cmds, code, i + 1, k);
    }
  }

  /** `execute`: the loop over the commands, returning how many ran. */
  method Execute(cmds: seq<Cmd>, code: nat -> int) returns (r: Result<nat>)
    ensures r == ExecuteFrom(cmds, code, 0)
    ensures r.Success? ==> r.value == |cmds|
  {
    var i := 0;
    while i < |cmds|
      invariant 0 <= i <= |cmds|
      invariant ExecuteFrom(cmds, code, i) == ExecuteFrom(cmds, code, 0)
    {
      if |cmds[i]| == 0 {
        return Failure(TypeError);
      }
      if code(i) != 0 {
        return Failure(ProcessError(cmds[i][0], code(i)));
      }
      i := i + 1;
    }
    return Success(|cmds|);
  }

  /** The failures of the test cases of one test suite. */
  function CaseFailures(cases: seq<Element>): nat
  {
    if cases == [] then 0 else |Iter(cases[0], "failure")| + CaseFailures(cases[1..])
  }

  /** The failures counted over all test suites. */
  function SuiteFailures(suites: seq<Element>): nat
  {
    if suites == [] then 0 else CaseFailures(Iter(suites[0], "testcase")) + SuiteFailures(suites[1..])
  }

  /** The count `Simulator.run` makes: each `failure` under each
      `testcase` under each `testsuite` of the document. */
  function Failures(doc: Element): nat
  {
    SuiteFailures(Iter(doc, "testsuite"))
  }

  /** No test case holds a failure. */
  predicate CasesPass(cases: seq<Element>)
  {
    forall j | 0 <= j < |cases| :: Iter(cases[j], "failure") == []
  }

  predicate SuitesPass(suites: seq<Element>)
  {
    forall i | 0 <= i < |suites| :: CasesPass(Iter(suites[i], "testcase"))
  }

  lemma {:induction false} CaseFailuresZero(cases: seq<Element>)
    ensures CaseFailures(cases) == 0 <==> CasesPass(cases)
  {
    if cases != [] {
      CaseFailuresZero(cases[1..]);
      assert forall j | 1 <= j < |cases| :: cases[j] == cases[1..][j - 1];
    }
  }

  lemma {:induction false} SuiteFailuresZero(suites: seq<Element>)
    ensures SuiteFailures(suites) == 0 <==> SuitesPass(suites)
  {
    if suites != [] {
      CaseFailuresZero(Iter(suites[0], "testcase"));
      SuiteFailuresZero(suites[1..]);
      assert forall i | 1 <= i < |suites| :: suites[i] == suites[1..][i - 1];
    }
  }

  /** The count is zero exactly when no test case of any test suite holds
      a failure element. */
  lemma FailuresZero(doc: Element)
    ensures Failures(doc) == 0 <==> SuitesPass(Iter(doc, "testsuite"))
  {
    SuiteFailuresZero(Iter(doc, "testsuite"));
  }

  const ResultsMissing := SystemExit("ERROR: Simulation terminated abnormally. Cocotb results file not found.")

  /** The results file: `COCOTB_RESULTS_FILE` when set and non-empty,
      otherwise a fresh temporary file in the simulation directory. */
  function ResultsFile(env: Option<string>, tmp: string): string
  {
    if env.Some? && env.value != "" then env.value else tmp
  }

  /** The end of `Simulator.run` after the commands: unless only compiling,
      the results document must exist and hold no failure. */
  function Outcome(compileOnly: bool, file: string, doc: Option<Element>): (r: Result<string>)
    ensures compileOnly ==> r == Success(file)
    ensures !compileOnly && doc.None? ==> r == Failure(ResultsMissing)
    ensures !compileOnly && doc.Some? ==> (r.Success? <==> SuitesPass(Iter(doc.value, "testsuite")))
    ensures !compileOnly && doc.Some? && r.Failure? ==>
      r.error == SystemExit("FAILED " + NatToString(Failures(doc.value)) + " tests.")
    ensures r.Success? ==> r.value == file
  {
    if compileOnly then Success(file)
    else if doc.None? then Failure(ResultsMissing)
    else
      FailuresZero(doc.value);
      var failed := Failures(doc.value);
      if failed > 0 then Failure(SystemExit("FAILED " + NatToString(failed) + " tests."))
      else Success(file)
  }

  /** `Simulator.run` once the backend's commands are built: execute them,
      then read the results document the simulation left in the file. */
  method SimulatorRun(cmds: Result<seq<Cmd>>, code: nat -> int, compileOnly: bool,
                      env: Option<string>, tmp: string, read: string -> Option<Element>)
    returns (r: Result<string>)
    ensures r.Success? ==> r.value == ResultsFile(env, tmp)
    ensures r.Success? <==>
      && cmds.Success?
      && (forall k | 0 <= k < |cmds.value| :: !Fails(cmds.value, code, k))
      && (compileOnly || (read(ResultsFile(env, tmp)).Some? && SuitesPass(Iter(read(ResultsFile(env, tmp)).value, "testsuite"))))
    ensures cmds.Failure? ==> r == Failure(cmds.error)
  {
    var file := ResultsFile(env, tmp);
    if cmds.Failure? {
      return Failure(cmds.error);
    }
    var ran := Execute(cmds.value, code);
    ExecuteFromSucceeds(cmds.value, code, 0);
    if ran.Failure? {
      return Failure(ran.error);
    }
    r := Outcome(compileOnly, file, read(file));
  }
}
