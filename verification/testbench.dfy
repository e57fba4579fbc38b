/** The `Testbench` helper: template parameters with defaults, a command
    line with one option per template parameter, and the resolution of the
    parameter values handed to the simulator, each value evaluated as a
    Python expression over the parameters resolved before it. A value is
    modelled by its `str()` text, the only form the helper uses. */
module Testbench {
  import opened Common

  datatype Testbench = Testbench(
    /** `template_parameter_list`: every name ever added, repeats included. */
    templateList: seq<string>,
    /** `template_parameters`: name to default value, in first-added order. */
    templates: Dict<string>,
    simulator: Option<string>,
    waves: Option<bool>)

  /** A fresh `Testbench()`. */
  function New(): (r: Testbench)
    ensures r.templateList == [] && r.templates == []
  {
    Testbench([], [], None, None)
  }

  /** `add_template_parameter`: the name is appended to the list even when
      already present, and the dictionary entry is set to the new value. */
  function AddTemplateParameter(tb: Testbench, name: string, val: string): (r: Testbench)
    ensures r.templateList == tb.templateList + [name]
    ensures Lookup(r.templates, name) == Some(val)
    ensures forall k | k != name :: Lookup(r.templates, k) == Lookup(tb.templates, k)
    ensures Keys(r.templates) == if name in Keys(tb.templates) then Keys(tb.templates) else Keys(tb.templates) + [name]
    ensures r.simulator == tb.simulator && r.waves == tb.waves
  {
    StoreKeys(tb.templates, name, val);
    forall k ensures Lookup(Store(tb.templates, name, val), k) == if k == name then Some(val) else Lookup(tb.templates, k) {
      StoreLookup(tb.templates, name, val, k);
    }
    tb.(templateList := tb.templateList + [name], templates := Store(tb.templates, name, val))
  }

  /** A sequence of `add_template_parameter` calls. */
  function AddAll(tb: Testbench, adds: seq<(string, string)>): Testbench
    decreases |adds|
  {
    if adds == [] then tb
    else AddTemplateParameter(AddAll(tb, adds[..|adds| - 1]), adds[|adds| - 1].0, adds[|adds| - 1].1)
  }

  /** The value last added under a name, if any. */
  function LastValue(adds: seq<(string, string)>, name: string): Option<string>
    decreases |adds|
  {
    if adds == [] then None
    else if adds[|adds| - 1].0 == name then Some(adds[|adds| - 1].1)
    else LastValue(adds[..|adds| - 1], name)
  }

  /** Keys that are pairwise distinct, as a dictionary's are. */
  predicate DistinctNames(ks: seq<string>)
  {
    forall i, j | 0 <= i < j < |ks| :: ks[i] != ks[j]
  }

  /** From a fresh testbench, the list holds every added name, in call
      order, repeats included. */
  lemma {:induction false} AddAllList(adds: seq<(string, string)>)
    ensures var tb := AddAll(New(), adds);
      && |tb.templateList| == |adds|
      && forall i | 0 <= i < |adds| :: tb.templateList[i] == adds[i].0
    decreases |adds|
  {
    if adds != [] {
      var front, last := adds[..|adds| - 1], adds[|adds| - 1];
      var l0 := AddAll(New(), front).templateList;
      var l := AddAll(New(), adds).templateList;
      assert l == l0 + [last.0] by {
        AddAllLast(adds);
      }
      assert adds == front + [last];
      AddAllList(front);
      NamesSnoc(l0, front, last);
    }
  }

  /** The last call appends its name to the list the earlier calls built. */
  lemma AddAllLast(adds: seq<(string, string)>)
    requires adds != []
    ensures AddAll(New(), adds).templateList
         == AddAll(New(), adds[..|adds| - 1]).templateList + [adds[|adds| - 1].0]
  {
  }

  lemma NamesSnoc(l: seq<string>, front: seq<(string, string)>, last: (string, string))
    requires |l| == |front| && forall i | 0 <= i < |front| :: l[i] == front[i].0
    ensures |l + [last.0]| == |front + [last]|
    ensures forall i | 0 <= i < |front| + 1 :: (l + [last.0])[i] == (front + [last])[i].0
  {
  }

  /** From a fresh testbench, the dictionary holds each name once, exactly
      the names of the list. */
  lemma {:induction false} AddAllKeys(adds: seq<(string, string)>)
    ensures var tb := AddAll(New(), adds);
      && DistinctNames(Keys(tb.templates))
      && forall k :: k in Keys(tb.templates) <==> k in tb.templateList
    decreases |adds|
  {
    if adds != [] {
      var front := adds[..|adds| - 1];
      var n := adds[|adds| - 1].0;
      AddAllKeys(front);
      var prev := AddAll(New(), front);
      var tb := AddAll(New(), adds);
      assert tb.templateList == prev.templateList + [n];
      if n !in Keys(prev.templates) {
        DistinctAppend(Keys(prev.templates), n);
      }
    }
  }

  lemma DistinctAppend(ks: seq<string>, n: string)
    requires DistinctNames(ks) && n !in ks
    ensures DistinctNames(ks + [n])
  {
  }

  /** From a fresh testbench, each name maps to the value added last. */
  lemma {:induction false} AddAllLookup(adds: seq<(string, string)>, k: string)
    ensures Lookup(AddAll(New(), adds).templates, k) == LastValue(adds, k)
    decreases |adds|
  {
    if adds != [] {
      AddAllLookup(adds[..|adds| - 1], k);
    }
  }

  /** `name in parameters` raises `TypeError` on the default `None`; a
      parameter given by the caller wins over the template's default. */
  function Choose(parameters: Option<Dict<string>>, name: string, default: string): (r: Result<string>)
    ensures parameters.None? ==> r == Failure(TypeError)
    ensures parameters.Some? && Lookup(parameters.value, name).Some? ==> r == Success(Lookup(parameters.value, name).value)
    ensures parameters.Some? && Lookup(parameters.value, name).None? ==> r == Success(default)
  {
    match parameters
    case None => Failure(TypeError)
    case Some(p) => Success(Lookup(p, name).GetOr(default))
  }

  /** The loop of `Testbench.run` from the parameters `acc` resolved so
      far: `eval` stands for Python's `eval` of a value text with the
      resolved parameters as its only names. */
  function ResolveFrom<V>(ts: Dict<string>, parameters: Option<Dict<string>>, eval: (string, Dict<V>) -> Result<V>, acc: Dict<V>): Result<Dict<V>>
    decreases |ts|
  {
    if ts == [] then Success(acc)
    else
      var text :- Choose(parameters, ts[0].0, ts[0].1);
      var v :- eval(text, acc);
      ResolveFrom(ts[1..], parameters, eval, Store(acc, ts[0].0, v))
  }

  /** `Testbench.run`'s parameter resolution. */
  function Resolve<V>(templates: Dict<string>, parameters: Option<Dict<string>>, eval: (string, Dict<V>) -> Result<V>): Result<Dict<V>>
  {
    ResolveFrom(templates, parameters, eval, [])
  }

  /** `out` resolves `ts` after `acc`: one entry per template name, in
      order, each the evaluation of the chosen text with exactly the
      parameters before it in scope. */
  ghost predicate ResolvedFrom<V>(ts: Dict<string>, parameters: Option<Dict<string>>, eval: (string, Dict<V>) -> Result<V>, acc: Dict<V>, out: Dict<V>)
  {
    && |out| == |ts|
    && forall i | 0 <= i < |ts| ::
      && out[i].0 == ts[i].0
      && Choose(parameters, ts[i].0, ts[i].1).Success?
      && eval(Choose(parameters, ts[i].0, ts[i].1).value, acc + out[..i]) == Success(out[i].1)
  }

  /** Names that are new to `acc`. */
  predicate Fresh<V>(ts: Dict<string>, acc: Dict<V>)
  {
    forall i | 0 <= i < |ts| :: ts[i].0 !in Keys(acc)
  }

  lemma FreshStep<V>(ts: Dict<string>, acc: Dict<V>, v: V)
    requires |ts| > 0 && DistinctKeys(ts) && Fresh(ts, acc)
    ensures DistinctKeys(ts[1..]) && Fresh(ts[1..], acc + [(ts[0].0, v)])
  {
    StoreKeys(acc, ts[0].0, v);
    StoreNew(acc, ts[0].0, v);
    forall i | 0 <= i < |ts[1..]| ensures ts[1..][i].0 !in Keys(acc + [(ts[0].0, v)]) {
      assert ts[1..][i] == ts[i + 1];
    }
  }

  /** A successful resolution extends what was resolved before by one
      entry per template. */
  lemma {:induction false} ResolveFromShape<V>(ts: Dict<string>, parameters: Option<Dict<string>>, eval: (string, Dict<V>) -> Result<V>, acc: Dict<V>)
    requires DistinctKeys(ts) && Fresh(ts, acc)
    ensures ResolveFrom(ts, parameters, eval, acc).Success? ==>
      var r := ResolveFrom(ts, parameters, eval, acc).value;
      |r| == |acc| + |ts| && r[..|acc|] == acc
    decreases |ts|
  {
    if ts != [] && ResolveFrom(ts, parameters, eval, acc).Success? {
      var text := Choose(parameters, ts[0].0, ts[0].1).value;
      var v := eval(text, acc).value;
      StoreNew(acc, ts[0].0, v);
      FreshStep(ts, acc, v);
      ResolveFromShape(ts[1..], parameters, eval, acc + [(ts[0].0, v)]);
    }
  }

  /** `ResolvedFrom` unfolded once: the first entry is the evaluation with
      `acc` in scope, and the rest resolves after it. */
  lemma ResolvedFromCons<V>(ts: Dict<string>, parameters: Option<Dict<string>>, eval: (string, Dict<V>) -> Result<V>, acc: Dict<V>, out: Dict<V>)
    requires |ts| > 0 && |out| == |ts|
    ensures ResolvedFrom(ts, parameters, eval, acc, out) <==>
      && out[0].0 == ts[0].0
      && Choose(parameters, ts[0].0, ts[0].1).Success?
      && eval(Choose(parameters, ts[0].0, ts[0].1).value, acc) == Success(out[0].1)
      && ResolvedFrom(ts[1..], parameters, eval, acc + [out[0]], out[1..])
  {
    assert acc + out[..0] == acc;
    forall i | 0 <= i < |ts| - 1 ensures (acc + [out[0]]) + out[1..][..i] == acc + out[..i + 1] {
      assert out[..i + 1] == [out[0]] + out[1..][..i];
    }
    if ResolvedFrom(ts[1..], parameters, eval, acc + [out[0]], out[1..]) && out[0].0 == ts[0].0 {
      forall i | 1 <= i < |ts|
        ensures out[i].0 == ts[i].0
        ensures Choose(parameters, ts[i].0, ts[i].1).Success?
        ensures eval(Choose(parameters, ts[i].0, ts[i].1).value, acc + out[..i]) == Success(out[i].1)
      {
        assert ts[1..][i - 1] == ts[i] && out[1..][i - 1] == out[i];
      }
    }
    if ResolvedFrom(ts, parameters, eval, acc, out) {
      forall i | 0 <= i < |ts| - 1
        ensures out[1..][i].0 == ts[1..][i].0
        ensures Choose(parameters, ts[1..][i].0, ts[1..][i].1).Success?
        ensures eval(Choose(parameters, ts[1..][i].0, ts[1..][i].1).value, (acc + [out[0]]) + out[1..][..i]) == Success(out[1..][i].1)
      {
        assert ts[1..][i] == ts[i + 1] && out[1..][i] == out[i + 1];
      }
    }
  }

  /** `ResolvedFrom` one entry at a time. */
  ghost predicate Resolves<V>(ts: Dict<string>, parameters: Option<Dict<string>>, eval: (string, Dict<V>) -> Result<V>, acc: Dict<V>, out: Dict<V>)
    decreases |ts|
  {
    if ts == [] then out == []
    else
      && |out| > 0 && out[0].0 == ts[0].0
      && Choose(parameters, ts[0].0, ts[0].1).Success?
      && eval(Choose(parameters, ts[0].0, ts[0].1).value, acc) == Success(out[0].1)
      && Resolves(ts[1..], parameters, eval, acc + [out[0]], out[1..])
  }

  lemma {:induction false} ResolvesIndexed<V>(ts: Dict<string>, parameters: Option<Dict<string>>, eval: (string, Dict<V>) -> Result<V>, acc: Dict<V>, out: Dict<V>)
    ensures Resolves(ts, parameters, eval, acc, out) <==> ResolvedFrom(ts, parameters, eval, acc, out)
    decreases |ts|
  {
    if ts != [] && |out| > 0 {
      ResolvesIndexed(ts[1..], parameters, eval, acc + [out[0]], out[1..]);
      if |out| == |ts| {
        ResolvedFromCons(ts, parameters, eval, acc, out);
      }
    }
  }

  /** What the loop returns resolves the templates after `acc`. */
  lemma {:induction false} ResolveFromSound<V>(ts: Dict<string>, parameters: Option<Dict<string>>, eval: (string, Dict<V>) -> Result<V>, acc: Dict<V>)
    requires DistinctKeys(ts) && Fresh(ts, acc)
    ensures ResolveFrom(ts, parameters, eval, acc).Success? ==>
      var r := ResolveFrom(ts, parameters, eval, acc).value;
      |acc| <= |r| && r == acc + r[|acc|..] && Resolves(ts, parameters, eval, acc, r[|acc|..])
    decreases |ts|
  {
    ResolveFromShape(ts, parameters, eval, acc);
    if ResolveFrom(ts, parameters, eval, acc).Success? {
      var r := ResolveFrom(ts, parameters, eval, acc).value;
      assert r == r[..|acc|] + r[|acc|..];
      if ts != [] {
        var c := Choose(parameters, ts[0].0, ts[0].1).value;
        var v := eval(c, acc).value;
        var acc' := acc + [(ts[0].0, v)];
        StoreNew(acc, ts[0].0, v);
        FreshStep(ts, acc, v);
        ResolveFromShape(ts[1..], parameters, eval, acc');
        ResolveFromSound(ts[1..], parameters, eval, acc');
        var out := r[|acc|..];
        assert out[0] == r[..|acc'|][|acc|] == (ts[0].0, v);
        assert out[1..] == r[|acc'|..];
      }
    }
  }

  /** One turn of the loop. */
  lemma ResolveFromStep<V>(ts: Dict<string>, parameters: Option<Dict<string>>, eval: (string, Dict<V>) -> Result<V>, acc: Dict<V>, v: V)
    requires ts != [] && Choose(parameters, ts[0].0, ts[0].1).Success?
    requires eval(Choose(parameters, ts[0].0, ts[0].1).value, acc) == Success(v)
    ensures ResolveFrom(ts, parameters, eval, acc) == ResolveFrom(ts[1..], parameters, eval, Store(acc, ts[0].0, v))
  {
  }

  /** Anything that resolves the templates after `acc` is what the loop
      returns. */
  lemma {:induction false} ResolveFromComplete<V>(ts: Dict<string>, parameters: Option<Dict<string>>, eval: (string, Dict<V>) -> Result<V>, acc: Dict<V>, out: Dict<V>)
    requires DistinctKeys(ts) && Fresh(ts, acc)
    requires Resolves(ts, parameters, eval, acc, out)
    ensures ResolveFrom(ts, parameters, eval, acc) == Success(acc + out)
    decreases |ts|
  {
    if ts == [] {
      assert acc + out == acc;
    } else {
      var acc' := acc + [out[0]];
      StoreNew(acc, ts[0].0, out[0].1);
      FreshStep(ts, acc, out[0].1);
      assert (ts[0].0, out[0].1) == out[0];
      ResolveFromStep(ts, parameters, eval, acc, out[0].1);
      ResolveFromComplete(ts[1..], parameters, eval, acc', out[1..]);
      assert acc' + out[1..] == acc + out;
    }
  }

  /** The loop produces `acc + out` exactly when `out` resolves the
      templates after `acc`. */
  lemma ResolveFromIff<V>(ts: Dict<string>, parameters: Option<Dict<string>>, eval: (string, Dict<V>) -> Result<V>, acc: Dict<V>, out: Dict<V>)
    requires DistinctKeys(ts) && Fresh(ts, acc)
    ensures ResolveFrom(ts, parameters, eval, acc) == Success(acc + out) <==> ResolvedFrom(ts, parameters, eval, acc, out)
  {
    ResolvesIndexed(ts, parameters, eval, acc, out);
    ResolveFromSound(ts, parameters, eval, acc);
    if ResolveFrom(ts, parameters, eval, acc) == Success(acc + out) {
      assert (acc + out)[|acc|..] == out;
    }
    if ResolvedFrom(ts, parameters, eval, acc, out) {
      ResolveFromComplete(ts, parameters, eval, acc, out);
    }
  }

  /** `Testbench.run` resolves exactly the template names, in order, each
      from the caller's value when given and its default otherwise, and
      evaluates each with only the earlier parameters in scope; no other
      result is possible. */
  lemma ResolveSpec<V>(templates: Dict<string>, parameters: Option<Dict<string>>, eval: (string, Dict<V>) -> Result<V>, out: Dict<V>)
    requires DistinctKeys(templates)
    ensures Resolve(templates, parameters, eval) == Success(out) <==> ResolvedFrom(templates, parameters, eval, [], out)
  {
    assert [] + out == out;
    ResolveFromIff(templates, parameters, eval, [], out);
  }

  /** A caller's parameter that is not a template parameter is ignored. */
  lemma {:induction false} ExtraParametersIgnored<V>(ts: Dict<string>, p: Dict<string>, q: Dict<string>, eval: (string, Dict<V>) -> Result<V>, acc: Dict<V>)
    requires forall i | 0 <= i < |ts| :: Lookup(p, ts[i].0) == Lookup(q, ts[i].0)
    ensures ResolveFrom(ts, Some(p), eval, acc) == ResolveFrom(ts, Some(q), eval, acc)
    decreases |ts|
  {
    if ts != [] {
      assert Lookup(p, ts[0].0) == Lookup(q, ts[0].0);
      var text := Choose(Some(p), ts[0].0, ts[0].1).value;
      if eval(text, acc).Success? {
        forall i | 0 <= i < |ts[1..]| ensures Lookup(p, ts[1..][i].0) == Lookup(q, ts[1..][i].0) {
          assert ts[1..][i] == ts[i + 1];
        }
        ExtraParametersIgnored(ts[1..], p, q, eval, Store(acc, ts[0].0, eval(text, acc).value));
      }
    }
  }

  /** Without a parameter dictionary, a testbench with templates fails on
      its first template. */
  lemma NoParametersFails<V>(templates: Dict<string>, eval: (string, Dict<V>) -> Result<V>)
    requires |templates| > 0
    ensures Resolve(templates, None, eval) == Failure(TypeError)
  {
  }

  /** The command-line option of a template parameter. */
  function OptionFor(name: string): string
  {
    "--param_" + Lower(name)
  }

  /** The attribute `main` reads a template's value from. `argparse`
      stores the option's value under the option name with every `-`
      turned into `_`, so the two agree exactly for names without `-`. */
  function Dest(name: string): string
  {
    "param_" + Lower(name)
  }

  /** A name holding `-`, whose value `argparse` stores under another
      attribute than the one `main` reads, so that `getattr` raises. */
  predicate Dashed(name: string)
  {
    '-' in name
  }

  /** `argparse`'s attribute for an option: the name without the leading
      `--`, with `-` turned into `_`. */
  function ArgparseDest(option: string): string
  {
    ReplaceChar(if |option| >= 2 then option[2..] else option, '-', '_')
  }

  /** For a name without `-` the attribute `argparse` stores the option in
      is the one `main` reads, and for a name with `-` it is not. */
  lemma DestMatchesArgparse(name: string)
    ensures !Dashed(name) <==> ArgparseDest(OptionFor(name)) == Dest(name)
  {
    var opt := OptionFor(name);
    assert opt[2..] == Dest(name);
    if Dashed(name) {
      var i :| 0 <= i < |name| && name[i] == '-';
      assert Dest(name)[6 + i] == Lower(name)[i] == '-';
      assert ArgparseDest(opt)[6 + i] != '-';
    } else {
      forall i | 0 <= i < |Dest(name)| ensures Dest(name)[i] != '-' {
        if i >= 6 {
          assert Dest(name)[i] == Lower(name)[i - 6];
        }
      }
    }
  }

  /** Whether the `j`-th name's option was already added by an earlier name. */
  predicate Clashes(names: seq<string>, j: nat)
    requires j < |names|
  {
    exists i | 0 <= i < j :: Lower(names[i]) == Lower(names[j])
  }

  /** The first name, from `j` on, whose option is already taken. */
  function FirstClash(names: seq<string>, j: nat): (r: Option<nat>)
    requires j <= |names|
    ensures r.None? <==> forall k | j <= k < |names| :: !Clashes(names, k)
    ensures r.Some? ==> j <= r.value < |names| && Clashes(names, r.value)
    ensures r.Some? ==> forall k | j <= k < r.value :: !Clashes(names, k)
    decreases |names| - j
  {
    if j == |names| then None
    else if Clashes(names, j) then Some(j)
    else FirstClash(names, j + 1)
  }

  /** The error `add_argument` raises for an option already added. */
  function Conflict(option: string): Error
  {
    ArgumentError("argument " + option + ": conflicting option string: " + option)
  }

  /** What `parse_args` returns for the parameter options: the value typed
      for the option, or the default `str(val)`. */
  function ArgValue(given: Dict<string>, t: (string, string)): string
  {
    Lookup(given, Dest(t.0)).GetOr(t.1)
  }

  /** The loop of `main` filling `parameters`; a value is never `None`. */
  function Forward(ts: Dict<string>, given: Dict<string>, acc: Dict<string>): Dict<string>
    decreases |ts|
  {
    if ts == [] then acc
    else Forward(ts[1..], given, Store(acc, ts[0].0, ArgValue(given, ts[0])))
  }

  /** Over distinct template names, `main` forwards one entry per template,
      in order, holding the typed value or the default. */
  lemma {:induction false} ForwardShape(ts: Dict<string>, given: Dict<string>, acc: Dict<string>)
    requires DistinctKeys(ts) && Fresh(ts, acc)
    ensures var r := Forward(ts, given, acc);
      && |r| == |acc| + |ts| && r[..|acc|] == acc
      && forall i | 0 <= i < |ts| :: r[|acc| + i] == (ts[i].0, ArgValue(given, ts[i]))
    decreases |ts|
  {
    if ts != [] {
      var v := ArgValue(given, ts[0]);
      StoreNew(acc, ts[0].0, v);
      FreshStep(ts, acc, v);
      ForwardShape(ts[1..], given, acc + [(ts[0].0, v)]);
      var r := Forward(ts, given, acc);
      assert r[..|acc| + 1][..|acc|] == acc;
      forall i | 1 <= i < |ts| ensures r[|acc| + i] == (ts[i].0, ArgValue(given, ts[i])) {
        assert ts[1..][i - 1] == ts[i];
      }
    }
  }

  /** The command line `main` parses: the simulator, the waves flag, and
      the values typed for the parameter options by attribute name. */
  datatype CommandLine = CommandLine(simulator: Option<string>, waves: bool, given: Dict<string>)

  /** `Testbench.main` up to its call of `run`: the testbench with the
      simulator and waves taken from the command line, and the parameters
      passed to `run`. Two names with the same lower-case form make
      `add_argument` raise; a name holding `-` makes `getattr` raise. */
  function Drive(tb: Testbench, cl: CommandLine): (r: Result<(Testbench, Dict<string>)>)
    ensures FirstClash(Keys(tb.templates), 0).Some? ==>
      r == Failure(Conflict(OptionFor(Keys(tb.templates)[FirstClash(Keys(tb.templates), 0).value])))
    ensures FirstClash(Keys(tb.templates), 0).None? ==>
      (r.Success? <==> forall i | 0 <= i < |tb.templates| :: !Dashed(tb.templates[i].0))
    ensures FirstClash(Keys(tb.templates), 0).None? && r.Failure? ==> r.error == AttributeError
    ensures r.Success? ==> r.value.0.templates == tb.templates && r.value.0.templateList == tb.templateList
    ensures r.Success? ==> r.value.0.simulator == if cl.simulator.Some? && cl.simulator.value != "" then cl.simulator else tb.simulator
    ensures r.Success? ==> r.value.0.waves == if cl.waves then Some(true) else tb.waves
  {
    var ks := Keys(tb.templates);
    match FirstClash(ks, 0)
    case Some(j) => Failure(Conflict(OptionFor(ks[j])))
    case None =>
      if exists i | 0 <= i < |tb.templates| :: Dashed(tb.templates[i].0) then Failure(AttributeError)
      else
        var sim := if cl.simulator.Some? && cl.simulator.value != "" then cl.simulator else tb.simulator;
        var waves := if cl.waves then Some(true) else tb.waves;
        Success((tb.(simulator := sim, waves := waves), Forward(tb.templates, cl.given, [])))
  }

  /** `main`'s loop from an empty dictionary: one entry per template, in
      order, so the keys are the template names and stay distinct. */
  lemma ForwardFromEmpty(ts: Dict<string>, given: Dict<string>)
    requires DistinctKeys(ts)
    ensures var r := Forward(ts, given, []);
      && |r| == |ts| && DistinctKeys(r) && Keys(r) == Keys(ts)
      && forall i | 0 <= i < |ts| :: r[i] == (ts[i].0, ArgValue(given, ts[i]))
  {
    var empty: Dict<string> := [];
    assert Fresh(ts, empty);
    ForwardShape(ts, given, []);
    var r := Forward(ts, given, []);
    assert forall i | 0 <= i < |ts| :: r[i] == r[0 + i];
    assert |r| == |ts|;
    assert forall i | 0 <= i < |ts| :: r[i].0 == ts[i].0;
    assert DistinctKeys(r);
    assert forall i | 0 <= i < |ts| :: Keys(r)[i] == Keys(ts)[i];
  }

  /** `main` then `run`: every template parameter is resolved from the
      value typed on the command line, or from its default when none was
      typed, so no template default is lost and nothing else is passed. */
  lemma DriveThenRun(tb: Testbench, cl: CommandLine)
    requires DistinctKeys(tb.templates)
    requires Drive(tb, cl).Success?
    ensures var params := Drive(tb, cl).value.1;
      && Keys(params) == Keys(tb.templates)
      && forall i | 0 <= i < |tb.templates| ::
        Choose(Some(params), tb.templates[i].0, tb.templates[i].1) == Success(ArgValue(cl.given, tb.templates[i]))
  {
    var ts := tb.templates;
    var params := Forward(ts, cl.given, []);
    ForwardFromEmpty(ts, cl.given);
    forall i | 0 <= i < |ts| ensures Lookup(params, ts[i].0) == Some(ArgValue(cl.given, ts[i])) {
      LookupDistinct(params, i);
    }
  }

  /** In a dictionary with distinct keys, each key finds its own entry. */
  lemma {:induction false} LookupDistinct<V>(d: Dict<V>, i: nat)
    requires DistinctKeys(d) && i < |d|
    ensures Lookup(d, d[i].0) == Some(d[i].1)
  {
    if i > 0 {
      assert d[1..][i - 1] == d[i];
      LookupDistinct(d[1..], i - 1);
    }
  }
}
