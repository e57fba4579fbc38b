/** The GHDL backend (`Ghdl`): a VHDL-only simulator. When the output is
    out of date (or compilation is forced) every library is analysed with
    `ghdl -i` and the toplevel elaborated with `ghdl -m`; the run is
    `ghdl -r` unless only compiling. */
module Ghdl {
  import opened Common
  import opened Paths
  import opened Host
  import opened Job
  import opened Rebuild
  import opened Flags

  /** `-g<name>=<value>` per parameter. */
  function ParameterCommands(params: Dict<string>): seq<string>
  {
    Assignments("-g", "=", "", params)
  }

  const NotFound := ValueError("GHDL executable not found.")

  /** The arguments every `ghdl` step shares. */
  function CompileArgs(j: Job): seq<string>
  {
    j.compileArgs + j.vhdlCompileArgs
  }

  /** `--work=<library>`. */
  function Work(lib: string): string
  {
    "--work=" + lib
  }

  /** One `ghdl -i` per library, in dictionary order. */
  function Analyses(args: seq<string>, libs: Dict<seq<string>>): (r: seq<Cmd>)
    ensures |r| == |libs|
    ensures forall i | 0 <= i < |libs| ::
      && |r[i]| == 3 + |args| + |libs[i].1|
      && r[i][..2] == ["ghdl", "-i"]
      && r[i][2..2 + |args|] == args
      && r[i][2 + |args|] == Work(libs[i].0)
      && r[i][3 + |args|..] == libs[i].1
  {
    seq(|libs|, i requires 0 <= i < |libs| =>
      Concat4(["ghdl", "-i"], args, [Work(libs[i].0)], libs[i].1))
  }

  /** The elaboration of the toplevel module in its library. */
  function Elaboration(args: seq<string>, lib: string, m: string): (r: Cmd)
    ensures |r| == 4 + |args|
    ensures r[..3] == ["ghdl", "-m", Work(lib)] && r[|r| - 1] == m
    ensures r[3..|r| - 1] == args
  {
    ["ghdl", "-m", Work(lib)] + args + [m]
  }

  /** The simulation arguments, with the waveform file added for waves. */
  function SimulationArgs(j: Job, m: string): (r: seq<string>)
    ensures |r| == |j.simulationArgs| + (if j.waves then 1 else 0)
    ensures r[..|j.simulationArgs|] == j.simulationArgs
    ensures j.waves ==> r[|j.simulationArgs|] == "--wave=" + m + ".ghw"
  {
    j.simulationArgs + (if j.waves then ["--wave=" + m + ".ghw"] else [])
  }

  /** The run of the elaborated toplevel through the VPI library: the
      compile arguments before the module, the simulation arguments and
      the parameters after the VPI option. */
  function RunCommand(j: Job, h: Host, lib: string, m: string): (r: Cmd)
    ensures |r| == 5 + |CompileArgs(j)| + |SimulationArgs(j, m)| + |j.parameters|
    ensures r[..3] == ["ghdl", "-r", Work(lib)]
    ensures r[3..3 + |CompileArgs(j)|] == CompileArgs(j)
    ensures r[3 + |CompileArgs(j)|] == m
    ensures r[4 + |CompileArgs(j)|] == "--vpi=" + h.libNamePath("vpi", "ghdl")
    ensures r[5 + |CompileArgs(j)|..5 + |CompileArgs(j)| + |SimulationArgs(j, m)|] == SimulationArgs(j, m)
    ensures r[5 + |CompileArgs(j)| + |SimulationArgs(j, m)|..] == ParameterCommands(j.parameters)
    ensures j.waves ==> r[5 + |CompileArgs(j)| + |j.simulationArgs|] == "--wave=" + m + ".ghw"
  {
    var args := CompileArgs(j);
    var opts := args + [m, "--vpi=" + h.libNamePath("vpi", "ghdl")];
    var sa := SimulationArgs(j, m);
    var r := Concat4(["ghdl", "-r", Work(lib)], opts, sa, ParameterCommands(j.parameters));
    assert r[3..3 + |args|] == args && r[3 + |args|] == m && r[4 + |args|] == opts[|args| + 1] by {
      assert r[3..3 + |args|] == r[3..3 + |opts|][..|args|];
      assert r[3 + |args|] == r[3..3 + |opts|][|args|];
      assert r[4 + |args|] == r[3..3 + |opts|][|args| + 1];
    }
    assert j.waves ==> r[5 + |args| + |j.simulationArgs|] == sa[|j.simulationArgs|] by {
      assert j.waves ==> r[5 + |args| + |j.simulationArgs|] == r[5 + |args|..5 + |args| + |sa|][|j.simulationArgs|];
    }
    r
  }

  /** Whether `build_command` compiles: the toplevel's output is out of
      date against the VHDL sources, or compilation is forced. */
  function NeedsCompile(j: Job, h: Host, m: string): Result<bool>
  {
    var outdated :- Outdated(h, PathJoin(j.simDir, m), j.vhdlSources);
    Success(outdated || j.forceCompile)
  }

  /** The analysis and elaboration commands, when needed. */
  function CompileStep(j: Job, h: Host, m: string): (r: Result<seq<Cmd>>)
    ensures NeedsCompile(j, h, m).Failure? ==> r == Failure(NeedsCompile(j, h, m).error)
    ensures NeedsCompile(j, h, m) == Success(false) ==> r == Success([])
    ensures NeedsCompile(j, h, m) == Success(true) ==>
      (r.Success? <==> j.vhdlSources.Libs? && FirstLibrary(j.toplevel).Success?)
    ensures NeedsCompile(j, h, m) == Success(true) && j.vhdlSources.Flat? ==> r == Failure(AttributeError)
    ensures NeedsCompile(j, h, m) == Success(true) && r.Success? ==>
      r.value == Analyses(CompileArgs(j), j.vhdlSources.libs) + [Elaboration(CompileArgs(j), FirstLibrary(j.toplevel).value, m)]
  {
    var need :- NeedsCompile(j, h, m);
    if need then
      var libs :- Items(j.vhdlSources);
      var lib :- FirstLibrary(j.toplevel);
      Success(Analyses(CompileArgs(j), libs) + [Elaboration(CompileArgs(j), lib, m)])
    else Success([])
  }

  /** `build_command`. */
  function Build(j: Job, h: Host): (r: Result<seq<Cmd>>)
    ensures h.which("ghdl").None? ==> r == Failure(NotFound)
    ensures h.which("ghdl").Some? && |j.toplevel| == 0 ==> r == Failure(IndexError)
    ensures r.Success? ==> |j.toplevel| > 0 && FirstLibrary(j.toplevel).Success?
    ensures r.Success? ==>
      var m := ModuleName(j.toplevel[0]);
      && CompileStep(j, h, m).Success?
      && r.value == CompileStep(j, h, m).value
        + (if j.compileOnly then [] else [RunCommand(j, h, FirstLibrary(j.toplevel).value, m)])
  {
    if h.which("ghdl").None? then Failure(NotFound)
    else
      var m :- FirstModule(j.toplevel);
      var compile :- CompileStep(j, h, m);
      var lib :- FirstLibrary(j.toplevel);
      Success(compile + (if j.compileOnly then [] else [RunCommand(j, h, lib, m)]))
  }

  /** The mode argument of each command. */
  function Modes(cmds: seq<Cmd>): (r: seq<string>)
    ensures |r| == |cmds|
    ensures forall i | 0 <= i < |cmds| && |cmds[i]| > 1 :: r[i] == cmds[i][1]
  {
    seq(|cmds|, i requires 0 <= i < |cmds| => if |cmds[i]| > 1 then cmds[i][1] else "")
  }

  lemma ModesAppend(a: seq<Cmd>, b: seq<Cmd>)
    ensures Modes(a + b) == Modes(a) + Modes(b)
  {
    assert forall i | 0 <= i < |b| :: (a + b)[|a| + i] == b[i];
  }

  function Repeat(x: string, n: nat): (r: seq<string>)
    ensures |r| == n
    ensures forall i | 0 <= i < n :: r[i] == x
  {
    seq(n, i => x)
  }

  /** A compile step analyses every library, then elaborates. */
  lemma CompileModes(j: Job, h: Host, m: string)
    requires CompileStep(j, h, m).Success? && NeedsCompile(j, h, m) == Success(true)
    ensures j.vhdlSources.Libs?
    ensures Modes(CompileStep(j, h, m).value) == Repeat("-i", |j.vhdlSources.libs|) + ["-m"]
  {
    var an := Analyses(CompileArgs(j), j.vhdlSources.libs);
    var el := Elaboration(CompileArgs(j), FirstLibrary(j.toplevel).value, m);
    ModesAppend(an, [el]);
    forall i | 0 <= i < |an| ensures Modes(an)[i] == "-i" {
      assert an[i][..2][1] == an[i][1];
    }
    assert el[..3][1] == el[1];
  }

  /** A compiling build analyses every library, elaborates, then runs
      unless only compiling; a build that does not compile only runs. */
  lemma BuildModes(j: Job, h: Host)
    requires Build(j, h).Success?
    ensures var m := ModuleName(j.toplevel[0]);
      && NeedsCompile(j, h, m).Success?
      && (NeedsCompile(j, h, m).value ==> j.vhdlSources.Libs?)
      && Modes(Build(j, h).value)
        == (if NeedsCompile(j, h, m).value then Repeat("-i", |j.vhdlSources.libs|) + ["-m"] else [])
         + (if j.compileOnly then [] else ["-r"])
  {
    var m := ModuleName(j.toplevel[0]);
    var lib := FirstLibrary(j.toplevel).value;
    var compile := CompileStep(j, h, m).value;
    var run := if j.compileOnly then [] else [RunCommand(j, h, lib, m)];
    assert Build(j, h).value == compile + run;
    CompileStepModes(j, h, m);
    RunModes(j, h, lib, m);
    ModesAppend(compile, run);
  }

  /** The modes of a successful compile step. */
  lemma CompileStepModes(j: Job, h: Host, m: string)
    requires CompileStep(j, h, m).Success?
    ensures NeedsCompile(j, h, m).Success?
    ensures NeedsCompile(j, h, m).value ==> j.vhdlSources.Libs?
    ensures Modes(CompileStep(j, h, m).value)
      == if NeedsCompile(j, h, m).value then Repeat("-i", |j.vhdlSources.libs|) + ["-m"] else []
  {
    if NeedsCompile(j, h, m).value {
      CompileModes(j, h, m);
    }
  }

  /** The run command's mode is `-r`. */
  lemma RunModes(j: Job, h: Host, lib: string, m: string)
    ensures Modes([RunCommand(j, h, lib, m)]) == ["-r"]
  {
    var run := RunCommand(j, h, lib, m);
    assert run[..3][1] == run[1];
  }

  /** Elaboration and run both work in the first toplevel's library. */
  lemma SameWorkLibrary(j: Job, h: Host)
    requires Build(j, h).Success? && !j.compileOnly
    requires NeedsCompile(j, h, ModuleName(j.toplevel[0])) == Success(true)
    ensures var cmds := Build(j, h).value;
      && |cmds| >= 2 && |cmds[|cmds| - 2]| > 2 && |cmds[|cmds| - 1]| > 2
      && cmds[|cmds| - 2][2] == cmds[|cmds| - 1][2] == Work(FirstLibrary(j.toplevel).value)
  {
    var m := ModuleName(j.toplevel[0]);
    var lib := FirstLibrary(j.toplevel).value;
    var an := Analyses(CompileArgs(j), j.vhdlSources.libs);
    var el := Elaboration(CompileArgs(j), lib, m);
    var run := RunCommand(j, h, lib, m);
    var cmds := Build(j, h).value;
    assert cmds == an + [el] + [run];
    assert cmds[|cmds| - 2] == el && cmds[|cmds| - 1] == run;
    WorkAt(j, h, lib, m);
  }

  /** Elaboration and run name the library in third place. */
  lemma WorkAt(j: Job, h: Host, lib: string, m: string)
    ensures var el := Elaboration(CompileArgs(j), lib, m);
      |el| > 2 && el[2] == Work(lib)
    ensures var run := RunCommand(j, h, lib, m);
      |run| > 2 && run[2] == Work(lib)
  {
    var el := Elaboration(CompileArgs(j), lib, m);
    var run := RunCommand(j, h, lib, m);
    assert el[..3][2] == el[2];
    assert run[..3][2] == run[2];
  }
}
