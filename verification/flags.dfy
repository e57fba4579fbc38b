/** The shapes the backends' `get_include_commands`,
    `get_define_commands` and `get_parameter_commands` render their items
    in: one prefixed token per item, a flag and the item as two tokens, and
    `<prefix><name><separator><value><suffix>` assignments. Each shape comes
    with its reading-back partner and a round-trip lemma. */
module Flags {
  import opened Common
  import opened Tcl

  /** `[p + x for x in xs]`. */
  function Prefixed(p: string, xs: seq<string>): (r: seq<string>)
    ensures |r| == |xs|
    ensures forall i | 0 <= i < |xs| :: r[i] == p + xs[i]
  {
    seq(|xs|, i requires 0 <= i < |xs| => p + xs[i])
  }

  function StripPrefix(p: string, s: string): Option<string>
  {
    if p <= s then Some(s[|p|..]) else None
  }

  /** Reads tokens back into items; `None` when a token lacks the prefix. */
  function Unprefixed(p: string, rs: seq<string>): Option<seq<string>>
  {
    if |rs| == 0 then Some([])
    else
      var x :- StripPrefix(p, rs[0]);
      var xs :- Unprefixed(p, rs[1..]);
      Some([x] + xs)
  }

  lemma {:induction false} PrefixedRoundTrip(p: string, xs: seq<string>)
    ensures Unprefixed(p, Prefixed(p, xs)) == Some(xs)
  {
    if |xs| > 0 {
      var rs := Prefixed(p, xs);
      assert rs[0] == p + xs[0] && (p + xs[0])[|p|..] == xs[0];
      assert rs[1..] == Prefixed(p, xs[1..]);
      PrefixedRoundTrip(p, xs[1..]);
      assert xs == [xs[0]] + xs[1..];
    }
  }

  /** `for x in xs: cmd += [flag, x]`: the flag before every item. */
  function Paired(flag: string, xs: seq<string>): (r: seq<string>)
    ensures |r| == 2 * |xs|
    ensures forall j | 0 <= j < |r| :: r[j] == if j % 2 == 0 then flag else xs[j / 2]
  {
    if |xs| == 0 then []
    else [flag, xs[0]] + Paired(flag, xs[1..])
  }

  /** Reads flag-item pairs back; `None` when a pair does not start with
      the flag or an item is missing. */
  function Unpaired(flag: string, rs: seq<string>): Option<seq<string>>
  {
    if |rs| == 0 then Some([])
    else if |rs| >= 2 && rs[0] == flag then
      var xs :- Unpaired(flag, rs[2..]);
      Some([rs[1]] + xs)
    else None
  }

  lemma {:induction false} PairedRoundTrip(flag: string, xs: seq<string>)
    ensures Unpaired(flag, Paired(flag, xs)) == Some(xs)
  {
    if |xs| > 0 {
      assert Paired(flag, xs)[2..] == Paired(flag, xs[1..]);
      PairedRoundTrip(flag, xs[1..]);
      assert xs == [xs[0]] + xs[1..];
    }
  }

  /** One parameter as `<pre><name><sep><value><post>`. */
  function Assign(pre: string, sep: string, post: string, p: (string, string)): string
  {
    pre + p.0 + sep + p.1 + post
  }

  /** `[... for name, value in parameters.items()]`. */
  function Assignments(pre: string, sep: string, post: string, params: Dict<string>): (r: seq<string>)
    ensures |r| == |params|
    ensures forall i | 0 <= i < |params| :: r[i] == Assign(pre, sep, post, params[i])
  {
    seq(|params|, i requires 0 <= i < |params| => Assign(pre, sep, post, params[i]))
  }

  /** Reads one assignment back: the name runs up to the first `=`. */
  function ParseAssign(pre: string, sep: string, post: string, s: string): Option<(string, string)>
  {
    if |s| >= |pre| + |post| && s[..|pre|] == pre && s[|s| - |post|..] == post then
      var body := s[|pre|..|s| - |post|];
      var name := BeforeFirst(body, '=');
      var rest := body[|name|..];
      if sep <= rest then Some((name, rest[|sep|..])) else None
    else None
  }

  /** A parameter whose name has no `=` is read back exactly, whatever its
      value holds. */
  lemma AssignRoundTrip(pre: string, sep: string, post: string, p: (string, string))
    requires '=' !in p.0 && |sep| > 0 && sep[0] == '='
    ensures ParseAssign(pre, sep, post, Assign(pre, sep, post, p)) == Some(p)
  {
    var (n, v) := p;
    var body := n + sep + v;
    assert Assign(pre, sep, post, p) == pre + body + post;
    Framed(pre, body, post);
    SplitAtSeparator(n, sep, v);
  }

  /** The middle of a framed text is recovered by cutting the frame off. */
  lemma Framed(pre: string, m: string, post: string)
    ensures var s := pre + m + post;
      && |s| >= |pre| + |post| && s[..|pre|] == pre && s[|s| - |post|..] == post
      && s[|pre|..|s| - |post|] == m
  {
  }

  /** A name without `=` runs up to the separator, which starts with `=`. */
  lemma SplitAtSeparator(n: string, sep: string, v: string)
    requires '=' !in n && |sep| > 0 && sep[0] == '='
    ensures BeforeFirst(n + sep + v, '=') == n
    ensures (n + sep + v)[|n|..] == sep + v
  {
    assert n + sep + v == n + ['='] + (sep[1..] + v);
    BeforeFirstBeforeSeparator(n, '=', sep[1..] + v);
  }

  function ParseAssignments(pre: string, sep: string, post: string, rs: seq<string>): Option<Dict<string>>
  {
    if |rs| == 0 then Some([])
    else
      var p :- ParseAssign(pre, sep, post, rs[0]);
      var ps :- ParseAssignments(pre, sep, post, rs[1..]);
      Some([p] + ps)
  }

  /** Parameters with `=`-free names are read back in order. */
  lemma {:induction false} AssignmentsRoundTrip(pre: string, sep: string, post: string, params: Dict<string>)
    requires forall i | 0 <= i < |params| :: '=' !in params[i].0
    requires |sep| > 0 && sep[0] == '='
    ensures ParseAssignments(pre, sep, post, Assignments(pre, sep, post, params)) == Some(params)
  {
    if |params| > 0 {
      AssignRoundTrip(pre, sep, post, params[0]);
      assert Assignments(pre, sep, post, params)[1..] == Assignments(pre, sep, post, params[1..]);
      assert forall i | 0 <= i < |params[1..]| :: params[1..][i] == params[i + 1];
      AssignmentsRoundTrip(pre, sep, post, params[1..]);
      assert params == [params[0]] + params[1..];
    }
  }

  /** Assignments each behind a flag read back: unpairing, then parsing. */
  lemma PairedAssignmentsRoundTrip(flag: string, pre: string, sep: string, post: string, params: Dict<string>)
    requires forall i | 0 <= i < |params| :: '=' !in params[i].0
    requires |sep| > 0 && sep[0] == '='
    ensures Unpaired(flag, Paired(flag, Assignments(pre, sep, post, params))) == Some(Assignments(pre, sep, post, params))
    ensures ParseAssignments(pre, sep, post, Assignments(pre, sep, post, params)) == Some(params)
  {
    PairedRoundTrip(flag, Assignments(pre, sep, post, params));
    AssignmentsRoundTrip(pre, sep, post, params);
  }

  /** `[p + as_tcl_value(x) for x in xs]`: every token is the prefix and a
      Tcl word that substitutes back to its item. */
  function TclPrefixed(p: string, xs: seq<string>): (r: Result<seq<string>>)
    ensures r.Success? <==> forall i | 0 <= i < |xs| :: |xs[i]| > 0
    ensures r.Failure? ==> r.error == IndexError
    ensures r.Success? ==> |r.value| == |xs|
    ensures r.Success? ==> forall i | 0 <= i < |xs| ::
      p <= r.value[i] && BackslashSubst(r.value[i][|p|..]) == Some(xs[i])
  {
    var es :- AsTclValues(xs);
    var r := Prefixed(p, es);
    assert forall i | 0 <= i < |xs| :: r[i][|p|..] == es[i];
    Success(r)
  }
}
