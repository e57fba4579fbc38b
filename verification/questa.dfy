/** The Questa backend (`Questa`, and `Modelsim`, which is the same): one
    `vlib` and one `vcom` per VHDL library, one `vlib` and one `vlog` per
    Verilog library, then `vsim` unless only compiling. Every library name,
    source file, include and define is passed through `as_tcl_value`. */
module Questa {
  import opened Common
  import opened Tcl
  import opened Paths
  import opened Host
  import opened Job
  import opened Flags

  function IncludeCommands(includes: seq<string>): Result<seq<string>>
  {
    TclPrefixed("+incdir+", includes)
  }

  function DefineCommands(defines: seq<string>): Result<seq<string>>
  {
    TclPrefixed("+define+", defines)
  }

  function ParameterCommands(params: Dict<string>): seq<string>
  {
    Assignments("-g", "=", "", params)
  }

  /** `do_script`: log every signal when dumping waves, and run to the
      end and quit unless a GUI is wanted. */
  function DoScript(j: Job): (r: string)
    ensures r == "" <==> !j.waves && j.gui
    ensures j.waves <==> "log -recursive /*;" <= r
    ensures !j.gui <==> |r| >= 14 && r[|r| - 14..] == "run -all; quit"
    ensures j.waves ==> |r| >= 18 && r[..18] == "log -recursive /*;"
    ensures r[if j.waves then 18 else 0..] == if j.gui then "" else "run -all; quit"
  {
    var log := if j.waves then "log -recursive /*;" else "";
    var r := log + if j.gui then "" else "run -all; quit";
    assert !j.gui ==> r[|r| - 14..] == "run -all; quit";
    assert !j.waves ==> |r| <= 14;
    assert j.waves ==> r[..18] == "log -recursive /*;";
    assert j.gui && j.waves ==> r[4] == '-';
    r
  }

  /** Each word substitutes back to the item at its position. */
  predicate WordsFor(ws: seq<string>, xs: seq<string>)
  {
    |ws| == |xs| && forall i | 0 <= i < |xs| :: BackslashSubst(ws[i]) == Some(xs[i])
  }

  /** The pair of commands for one library: `vlib <lib>` and the compiler
      `head`, then `-work <lib>`, the `middle` arguments and the sources,
      with the library and every source given as Tcl words. */
  predicate CompilesLibrary(pair: (Cmd, Cmd), head: Cmd, middle: seq<string>, lib: (string, seq<string>))
  {
    var (vlib, comp) := pair;
    var n := |head| + 2 + |middle|;
    && |vlib| == 2 && vlib[0] == "vlib" && BackslashSubst(vlib[1]) == Some(lib.0)
    && |comp| >= n && comp[..n] == head + ["-work", vlib[1]] + middle
    && WordsFor(comp[n..], lib.1)
  }

  /** A library name or source is refused by `as_tcl_value` when empty. */
  predicate Escapable(lib: (string, seq<string>))
  {
    |lib.0| > 0 && forall k | 0 <= k < |lib.1| :: |lib.1[k]| > 0
  }

  function LibraryPair(head: Cmd, middle: Result<seq<string>>, lib: (string, seq<string>)): (r: Result<(Cmd, Cmd)>)
    ensures r.Success? <==> Escapable(lib) && middle.Success?
    ensures r.Failure? ==> r.error == IndexError || (middle.Failure? && r.error == middle.error)
    ensures r.Success? ==> CompilesLibrary(r.value, head, middle.value, lib)
  {
    var name :- AsTclValue(lib.0);
    var mid :- middle;
    var srcs :- AsTclValues(lib.1);
    var comp := head + ["-work", name] + mid + srcs;
    assert comp[|head| + 2 + |mid|..] == srcs;
    Success((["vlib", name], comp))
  }

  /** `for lib, src in sources.items()`: the library pairs in the
      dictionary's order; the middle arguments are computed, and can fail,
      only once there is a library to compile. */
  function LibraryPairs(head: Cmd, middle: Result<seq<string>>, libs: Dict<seq<string>>): (r: Result<seq<(Cmd, Cmd)>>)
    ensures r.Success? <==> (forall i | 0 <= i < |libs| :: Escapable(libs[i])) && (|libs| > 0 ==> middle.Success?)
    ensures r.Failure? ==> r.error == IndexError || (middle.Failure? && r.error == middle.error)
    ensures r.Success? ==> |r.value| == |libs|
    ensures r.Success? ==> forall i | 0 <= i < |libs| :: LibraryPair(head, middle, libs[i]) == Success(r.value[i])
  {
    if |libs| == 0 then Success([])
    else
      var pair :- LibraryPair(head, middle, libs[0]);
      var rest :- LibraryPairs(head, middle, libs[1..]);
      assert forall i | 1 <= i < |libs| :: libs[i] == libs[1..][i - 1];
      Success([pair] + rest)
  }

  /** `cmd.append` of both commands of every pair, in order. */
  function Flatten(ps: seq<(Cmd, Cmd)>): (r: seq<Cmd>)
    ensures |r| == 2 * |ps|
    ensures forall i | 0 <= i < |ps| :: r[2 * i] == ps[i].0 && r[2 * i + 1] == ps[i].1
  {
    if |ps| == 0 then []
    else
      var rest := Flatten(ps[1..]);
      var r := [ps[0].0, ps[0].1] + rest;
      assert forall i | 1 <= i < |ps| :: ps[i] == ps[1..][i - 1];
      assert forall i | 1 <= i < |ps| :: r[2 * i] == rest[2 * (i - 1)] && r[2 * i + 1] == rest[2 * (i - 1) + 1];
      r
  }

  /** One source argument's libraries, or nothing when it is empty; a
      non-empty list has no `items`. */
  function Compiles(s: Sources, head: Cmd, middle: Result<seq<string>>): (r: Result<seq<(Cmd, Cmd)>>)
    ensures !Truthy(s) ==> r == Success([])
    ensures Truthy(s) && s.Flat? ==> r == Failure(AttributeError)
    ensures Truthy(s) && s.Libs? ==> r == LibraryPairs(head, middle, s.libs)
  {
    if !Truthy(s) then Success([])
    else
      var libs :- Items(s);
      LibraryPairs(head, middle, libs)
  }

  /** `vlib` and the compiler alternate, one pair per library. */
  function Alternating(a: string, b: string, n: nat): (r: seq<string>)
    ensures |r| == 2 * n
    ensures forall k | 0 <= k < |r| :: r[k] == if k % 2 == 0 then a else b
  {
    if n == 0 then [] else [a, b] + Alternating(a, b, n - 1)
  }

  /** Flattened library pairs alternate `vlib` and the compiler. */
  lemma {:induction false} FlattenPrograms(ps: seq<(Cmd, Cmd)>, head: Cmd, middle: seq<string>, libs: Dict<seq<string>>)
    requires |head| > 0 && |ps| == |libs|
    requires forall i | 0 <= i < |ps| :: CompilesLibrary(ps[i], head, middle, libs[i])
    ensures Programs(Flatten(ps)) == Alternating("vlib", head[0], |ps|)
  {
    if |ps| > 0 {
      assert CompilesLibrary(ps[0], head, middle, libs[0]);
      var n := |head| + 2 + |middle|;
      assert ps[0].1[..n][0] == head[0];
      assert Programs([ps[0].0, ps[0].1]) == ["vlib", head[0]];
      assert forall i | 0 <= i < |ps[1..]| :: ps[1..][i] == ps[i + 1] && libs[1..][i] == libs[i + 1];
      FlattenPrograms(ps[1..], head, middle, libs[1..]);
      ProgramsAppend([ps[0].0, ps[0].1], Flatten(ps[1..]));
      assert Flatten(ps) == [ps[0].0, ps[0].1] + Flatten(ps[1..]);
    }
  }

  /** Every flattened command is a `vlib` or starts with `head` and
      `-work`. */
  lemma {:induction false} FlattenMembers(ps: seq<(Cmd, Cmd)>, head: Cmd, middle: seq<string>, libs: Dict<seq<string>>)
    requires |ps| == |libs|
    requires forall i | 0 <= i < |ps| :: CompilesLibrary(ps[i], head, middle, libs[i])
    ensures forall c | c in Flatten(ps) :: (c != [] && c[0] == "vlib") || head + ["-work"] <= c
  {
    if |ps| > 0 {
      assert CompilesLibrary(ps[0], head, middle, libs[0]);
      var n := |head| + 2 + |middle|;
      assert ps[0].1[..n][..|head| + 1] == head + ["-work"];
      assert forall i | 0 <= i < |ps[1..]| :: ps[1..][i] == ps[i + 1] && libs[1..][i] == libs[i + 1];
      FlattenMembers(ps[1..], head, middle, libs[1..]);
      var rest := Flatten(ps[1..]);
      assert Flatten(ps) == [ps[0].0, ps[0].1] + rest;
      assert forall c | c in Flatten(ps) :: c == ps[0].0 || c == ps[0].1 || c in rest;
    }
  }

  /** The number of libraries a source argument compiles. */
  function LibCount(s: Sources): nat
  {
    if s.Libs? then |s.libs| else 0
  }

  /** The commands for one source argument: `vlib` and the compiler
      alternate, one pair per library, and every compiler command starts
      with `head` and `-work`. */
  function Section(s: Sources, head: Cmd, middle: Result<seq<string>>): (r: Result<seq<Cmd>>)
    requires |head| > 0
    ensures r.Success? <==> !Truthy(s) || (s.Libs? && (forall i | 0 <= i < |s.libs| :: Escapable(s.libs[i])) && middle.Success?)
    ensures r.Failure? ==> r.error in {IndexError, AttributeError} || (middle.Failure? && r.error == middle.error)
    ensures r.Success? ==> |r.value| == 2 * LibCount(s)
    ensures r.Success? ==> Programs(r.value) == Alternating("vlib", head[0], LibCount(s))
    ensures r.Success? ==> forall c | c in r.value :: (c != [] && c[0] == "vlib") || head + ["-work"] <= c
    ensures r.Success? && Truthy(s) ==> r.value == Flatten(LibraryPairs(head, middle, s.libs).value)
    ensures r.Success? && Truthy(s) ==> forall i | 0 <= i < |s.libs| :: CompilesLibrary((r.value[2 * i], r.value[2 * i + 1]), head, middle.value, s.libs[i])
  {
    var ps :- Compiles(s, head, middle);
    if Truthy(s) then
      FlattenPrograms(ps, head, middle.value, s.libs);
      FlattenMembers(ps, head, middle.value, s.libs);
      Success(Flatten(ps))
    else Success(Flatten(ps))
  }

  function VcomHead(): Cmd { ["vcom", "-mixedsvvh"] }

  function VlogHead(j: Job): Cmd { ["vlog", "-mixedsvvh"] + (if j.forceCompile then [] else ["-incr"]) }

  /** The Verilog compile arguments, with the timescale when one is set. */
  function VlogArgs(j: Job): seq<string>
  {
    j.compileArgs + j.verilogCompileArgs + (if TimescaleSet(j.timescale) then ["-timescale", j.timescale.value] else [])
  }

  /** What `vlog` takes between the library and the sources. */
  function VlogMiddle(j: Job): Result<seq<string>>
  {
    var defines :- DefineCommands(j.defines);
    var includes :- IncludeCommands(Names(j.includes));
    Success(["+define+COCOTB_SIM", "-sv"] + defines + includes + VlogArgs(j))
  }

  /** The simulation command around its library options `load` and its
      trailing `extra` arguments. */
  function VsimWith(j: Job, load: seq<string>, params: seq<string>, extra: seq<string>): (r: Cmd)
    requires |load| == 2
    ensures |r| == 8 + |j.simulationArgs| + |params| + |j.toplevel| + |extra|
    ensures r[..4] == ["vsim", if j.gui then "-gui" else "-c", "-onfinish", if j.gui then "stop" else "exit"]
    ensures r[4..6] == load
    ensures r[6..6 + |j.simulationArgs|] == j.simulationArgs
    ensures r[6 + |j.simulationArgs|..|r| - 2] == params + j.toplevel + extra
    ensures r[|r| - 2..] == ["-do", DoScript(j)]
  {
    var head := ["vsim", if j.gui then "-gui" else "-c", "-onfinish", if j.gui then "stop" else "exit"];
    var tail := ["-do", DoScript(j)];
    var mid := params + j.toplevel + extra;
    var r := Concat4(head + load, j.simulationArgs, mid, tail);
    assert r[..4] == r[..6][..4] == (head + load)[..4] == head;
    assert r[4..6] == r[..6][4..] == (head + load)[4..] == load;
    r
  }

  /** The simulation command: the VHDL toplevel loads the FLI library
      through `-foreign`, any other the VPI library through `-pli`; only
      the latter passes the plus arguments. */
  function VsimCommand(j: Job, h: Host): (r: Result<Cmd>)
    ensures j.toplevelLang == "vhdl" ==> (r.Success? <==> |h.libNamePath("fli", "questa")| > 0)
    ensures j.toplevelLang != "vhdl" ==>
      (r.Success? <==> |h.libNamePath("vpi", "questa")| > 0 && forall i | 0 <= i < |j.plusArgs| :: |j.plusArgs[i]| > 0)
    ensures r.Failure? ==> r.error == IndexError
    ensures r.Success? ==> r.value != [] && r.value[0] == "vsim"
  {
    // The parameter tokens are never empty, so escaping them cannot fail.
    var params := EscapeAll(ParameterCommands(j.parameters));
    if j.toplevelLang == "vhdl" then
      var lib :- AsTclValue(h.libNamePath("fli", "questa"));
      Success(VsimWith(j, ["-foreign", "cocotb_init " + lib], params, []))
    else
      var lib :- AsTclValue(h.libNamePath("vpi", "questa"));
      var plus :- AsTclValues(j.plusArgs);
      Success(VsimWith(j, ["-pli", lib], params, plus))
  }

  /** The simulation command selects the GUI or batch mode, loads the
      library the toplevel language needs as a Tcl word that substitutes
      back to the library's path, passes the simulation arguments as they
      are and ends with the do-script. */
  lemma VsimCommandShape(j: Job, h: Host)
    requires VsimCommand(j, h).Success?
    ensures var r := VsimCommand(j, h).value;
      && |r| >= 8 + |j.simulationArgs|
      && r[..4] == ["vsim", if j.gui then "-gui" else "-c", "-onfinish", if j.gui then "stop" else "exit"]
      && r[|r| - 2..] == ["-do", DoScript(j)]
      && r[6..6 + |j.simulationArgs|] == j.simulationArgs
      && r[6 + |j.simulationArgs|..|r| - 2] == EscapeAll(ParameterCommands(j.parameters)) + j.toplevel
           + (if j.toplevelLang == "vhdl" then [] else AsTclValues(j.plusArgs).value)
      && (j.toplevelLang == "vhdl" ==>
        r[4] == "-foreign" && "cocotb_init " <= r[5] && BackslashSubst(r[5][12..]) == Some(h.libNamePath("fli", "questa")))
      && (j.toplevelLang != "vhdl" ==>
        r[4] == "-pli" && BackslashSubst(r[5]) == Some(h.libNamePath("vpi", "questa")))
  {
    var r := VsimCommand(j, h).value;
    assert r[4..6][1] == r[5] && r[4..6][0] == r[4];
    if j.toplevelLang == "vhdl" {
      var lib := AsTclValue(h.libNamePath("fli", "questa")).value;
      assert r[5] == "cocotb_init " + lib;
      assert ("cocotb_init " + lib)[12..] == lib;
    }
  }

  /** The simulation step, present unless only compiling. */
  function Simulation(j: Job, h: Host): (r: Result<seq<Cmd>>)
    ensures r.Success? <==> j.compileOnly || VsimCommand(j, h).Success?
    ensures r.Failure? ==> r.error == IndexError
    ensures r.Success? ==> r.value == if j.compileOnly then [] else [VsimCommand(j, h).value]
    ensures r.Success? ==> Programs(r.value) == if j.compileOnly then [] else ["vsim"]
    ensures r.Success? ==> forall i | 0 <= i < |r.value| :: r.value[i] != [] && r.value[i][0] == "vsim"
  {
    if j.compileOnly then Success([])
    else
      var c :- VsimCommand(j, h);
      OneVsim(c);
      Success([c])
  }

  /** A list holding one `vsim` command runs `vsim`. */
  lemma OneVsim(c: Cmd)
    requires c != [] && c[0] == "vsim"
    ensures Programs([c]) == ["vsim"]
    ensures forall i | 0 <= i < |[c]| :: [c][i] != [] && [c][i][0] == "vsim"
  {
    assert Programs([c])[0] == "vsim";
  }

  /** A `vlog` command is incremental exactly when compilation is not
      forced: `-incr` follows `-mixedsvvh`. */
  predicate VlogIncremental(j: Job, c: Cmd)
  {
    c != [] && c[0] == "vlog" ==> |c| > 2 && (c[2] == "-incr" <==> !j.forceCompile)
  }

  /** A `vcom` command is never incremental: `-work` follows `-mixedsvvh`. */
  predicate VcomComplete(c: Cmd)
  {
    c != [] && c[0] == "vcom" ==> |c| > 2 && c[2] == "-work"
  }

  /** Every command of `cs` keeps both rules above. */
  predicate IncrementalRules(j: Job, cs: seq<Cmd>)
  {
    forall c | c in cs :: VlogIncremental(j, c) && VcomComplete(c)
  }

  lemma IncrementalRulesAppend(j: Job, a: seq<Cmd>, b: seq<Cmd>)
    requires IncrementalRules(j, a) && IncrementalRules(j, b)
    ensures IncrementalRules(j, a + b)
  {
  }

  lemma VcomSectionFacts(j: Job, cs: seq<Cmd>)
    requires forall c | c in cs :: (c != [] && c[0] == "vlib") || VcomHead() + ["-work"] <= c
    ensures IncrementalRules(j, cs)
  {
    forall c | c in cs ensures VlogIncremental(j, c) && VcomComplete(c) {
      if !(c != [] && c[0] == "vlib") {
        assert c[..3] == VcomHead() + ["-work"];
      }
    }
  }

  lemma VlogSectionFacts(j: Job, cs: seq<Cmd>)
    requires forall c | c in cs :: (c != [] && c[0] == "vlib") || VlogHead(j) + ["-work"] <= c
    ensures IncrementalRules(j, cs)
  {
    forall c | c in cs ensures VlogIncremental(j, c) && VcomComplete(c) {
      if !(c != [] && c[0] == "vlib") {
        var n := |VlogHead(j)| + 1;
        assert c[..n] == VlogHead(j) + ["-work"];
        assert c[2] == c[..n][2];
      }
    }
  }

  lemma SimulationFacts(j: Job, cs: seq<Cmd>)
    requires forall c | c in cs :: c != [] && c[0] == "vsim"
    ensures IncrementalRules(j, cs)
  {
  }

  /** The incremental-compile rules hold for the three parts together. */
  lemma BuildRules(j: Job, vhdl: seq<Cmd>, vlog: seq<Cmd>, sim: seq<Cmd>)
    requires forall c | c in vhdl :: (c != [] && c[0] == "vlib") || VcomHead() + ["-work"] <= c
    requires forall c | c in vlog :: (c != [] && c[0] == "vlib") || VlogHead(j) + ["-work"] <= c
    requires forall i | 0 <= i < |sim| :: sim[i] != [] && sim[i][0] == "vsim"
    ensures IncrementalRules(j, vhdl + vlog + sim)
  {
    VcomSectionFacts(j, vhdl);
    VlogSectionFacts(j, vlog);
    assert forall c | c in sim :: c != [] && c[0] == "vsim";
    SimulationFacts(j, sim);
    IncrementalRulesAppend(j, vhdl, vlog);
    IncrementalRulesAppend(j, vhdl + vlog, sim);
  }

  /** `build_command`: the VHDL libraries, the Verilog libraries, then the
      simulation unless only compiling; errors in that order. */
  function Build(j: Job, h: Host): (r: Result<seq<Cmd>>)
    ensures r.Failure? ==> r.error == IndexError || r.error == AttributeError
    ensures Truthy(j.vhdlSources) && j.vhdlSources.Flat? ==> r == Failure(AttributeError)
    ensures r.Success? ==> |r.value| == 2 * LibCount(j.vhdlSources) + 2 * LibCount(j.verilogSources) + (if j.compileOnly then 0 else 1)
    ensures r.Success? && !j.compileOnly ==> VsimCommand(j, h).Success? && r.value[|r.value| - 1] == VsimCommand(j, h).value
    ensures r.Success? ==> IncrementalRules(j, r.value)
    ensures r.Success? ==>
      (var vhdl := Section(j.vhdlSources, VcomHead(), Success(j.compileArgs + j.vhdlCompileArgs));
       var vlog := Section(j.verilogSources, VlogHead(j), VlogMiddle(j));
       vhdl.Success? && vlog.Success? && Simulation(j, h).Success? && r.value == vhdl.value + vlog.value + Simulation(j, h).value)
  {
    var vhdl :- Section(j.vhdlSources, VcomHead(), Success(j.compileArgs + j.vhdlCompileArgs));
    var vlog :- Section(j.verilogSources, VlogHead(j), VlogMiddle(j));
    var sim :- Simulation(j, h);
    BuildRules(j, vhdl, vlog, sim);
    Success(vhdl + vlog + sim)
  }

  /** A successful build runs one `vlib` and `vcom` pair per VHDL library,
      one `vlib` and `vlog` pair per Verilog library, then `vsim` unless
      only compiling. */
  lemma BuildPrograms(j: Job, h: Host)
    requires Build(j, h).Success?
    ensures Programs(Build(j, h).value) == Alternating("vlib", "vcom", LibCount(j.vhdlSources))
      + Alternating("vlib", "vlog", LibCount(j.verilogSources)) + (if j.compileOnly then [] else ["vsim"])
  {
    var vhdl := Section(j.vhdlSources, VcomHead(), Success(j.compileArgs + j.vhdlCompileArgs)).value;
    var vlog := Section(j.verilogSources, VlogHead(j), VlogMiddle(j)).value;
    var sim := Simulation(j, h).value;
    assert Build(j, h).value == vhdl + vlog + sim;
    ProgramsAppend(vhdl, vlog);
    ProgramsAppend(vhdl + vlog, sim);
  }
}
