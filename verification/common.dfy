/** Shared vocabulary of the simulator driver model: the failure-compatible
    `Result` type standing for Python exceptions, the error kinds the driver
    raises, command vectors, POSIX path joining, insertion-ordered
    dictionaries, and a few string helpers. */
module Common {

  /** The exceptions the driver raises (or lets escape), by Python class. */
  datatype Error =
    | ValueError(msg: string)
    | AssertionError(msg: string)
    | IndexError
    | AttributeError
    | StopIteration
    | TypeError
    | FileNotFound(path: string)
    | NotImplemented(msg: string)
    | SystemExit(msg: string)
    | ArgumentError(msg: string)

  datatype Option<+T> = None | Some(value: T) {
    predicate IsFailure() {
      None?
    }

    function PropagateFailure<U>(): Option<U>
      requires None?
    {
      None
    }

    function Extract(): T
      requires Some?
    {
      value
    }

    function GetOr(default: T): T {
      match this
      case Some(v) => v
      case None => default
    }
  }

  /** A computation that either returns a value or raises an `Error`. */
  datatype Result<+T> = Success(value: T) | Failure(error: Error) {
    predicate IsFailure() {
      Failure?
    }

    function PropagateFailure<U>(): Result<U>
      requires Failure?
    {
      Failure(error)
    }

    function Extract(): T
      requires Success?
    {
      value
    }
  }

  /** One subprocess argument vector. */
  type Cmd = seq<string>

  /** The program name of every command, in order. */
  function Programs(cmds: seq<Cmd>): (r: seq<string>)
    ensures |r| == |cmds|
    ensures forall i | 0 <= i < |cmds| && |cmds[i]| > 0 :: r[i] == cmds[i][0]
  {
    seq(|cmds|, i requires 0 <= i < |cmds| => if |cmds[i]| > 0 then cmds[i][0] else "")
  }

  /** The concatenation of four parts, each recoverable by slicing. */
  function Concat4<T>(a: seq<T>, b: seq<T>, c: seq<T>, d: seq<T>): (s: seq<T>)
    ensures |s| == |a| + |b| + |c| + |d|
    ensures s[..|a|] == a && s[|a|..|a| + |b|] == b
    ensures s[|a| + |b|..|s| - |d|] == c && s[|s| - |d|..] == d
  {
    var s := a + b + c + d;
    assert s[..|a|] == a;
    assert s[|a|..|a| + |b|] == b;
    assert s[|a| + |b|..|s| - |d|] == c;
    assert s[|s| - |d|..] == d;
    s
  }

  /** The program of a single command is its first word. */
  lemma ProgramsOne(c: Cmd)
    requires |c| > 0
    ensures Programs([c]) == [c[0]]
  {
    assert Programs([c])[0] == c[0];
  }

  lemma ProgramsAppend(a: seq<Cmd>, b: seq<Cmd>)
    ensures Programs(a + b) == Programs(a) + Programs(b)
  {
    assert forall i | 0 <= i < |b| :: (a + b)[|a| + i] == b[i];
  }

  /** Python's `sep.join(xs)`. */
  function JoinWith(sep: string, xs: seq<string>): string
  {
    if |xs| == 0 then ""
    else if |xs| == 1 then xs[0]
    else xs[0] + sep + JoinWith(sep, xs[1..])
  }

  /** `posixpath.join(a, b)`: an absolute `b` replaces `a`; otherwise a single
      `/` is inserted unless `a` is empty or already ends with one. */
  function PathJoin(a: string, b: string): string
  {
    if |b| > 0 && b[0] == '/' then b
    else if a == "" || a[|a| - 1] == '/' then a + b
    else a + "/" + b
  }

  /** `posixpath.isabs`. */
  predicate IsAbs(p: string)
  {
    |p| > 0 && p[0] == '/'
  }

  /** Python's `s.rsplit(c, 1)[-1]`: the part after the last `c`, or all of `s`. */
  function AfterLast(s: string, c: char): (r: string)
    ensures c !in r
    ensures |r| <= |s| && r == s[|s| - |r|..]
    ensures c !in s ==> r == s
    ensures c in s ==> |r| < |s| && s[|s| - |r| - 1] == c
    decreases |s|
  {
    if |s| == 0 then s
    else if s[|s| - 1] == c then ""
    else AfterLast(s[..|s| - 1], c) + [s[|s| - 1]]
  }

  /** Python's `s.split(c, 1)[0]`: the part before the first `c`, or all of `s`. */
  function BeforeFirst(s: string, c: char): (r: string)
    ensures c !in r
    ensures r <= s
    ensures c !in s ==> r == s
    ensures c in s ==> |r| < |s| && s[|r|] == c
  {
    if |s| == 0 then s
    else if s[0] == c then ""
    else [s[0]] + BeforeFirst(s[1..], c)
  }

  /** Python's `s.replace(a, b)` for single characters. */
  function ReplaceChar(s: string, a: char, b: char): (r: string)
    ensures |r| == |s|
    ensures forall i | 0 <= i < |s| :: r[i] == (if s[i] == a then b else s[i])
  {
    seq(|s|, i requires 0 <= i < |s| => if s[i] == a then b else s[i])
  }

  /** An insertion-ordered Python dict with string keys, as an association list. */
  type Dict<V> = seq<(string, V)>

  function Keys<V>(d: Dict<V>): (r: seq<string>)
    ensures |r| == |d|
    ensures forall i | 0 <= i < |d| :: r[i] == d[i].0
  {
    if |d| == 0 then [] else [d[0].0] + Keys(d[1..])
  }

  predicate DistinctKeys<V>(d: Dict<V>)
  {
    forall i, j | 0 <= i < j < |d| :: d[i].0 != d[j].0
  }

  function Lookup<V>(d: Dict<V>, k: string): (r: Option<V>)
    ensures r.None? <==> k !in Keys(d)
    ensures r.Some? ==> exists i | 0 <= i < |d| :: d[i] == (k, r.value)
  {
    if |d| == 0 then None
    else if d[0].0 == k then Some(d[0].1)
    else Lookup(d[1..], k)
  }

  /** `d[k] = v`: overwrites in place when `k` is present, appends otherwise. */
  function Store<V>(d: Dict<V>, k: string, v: V): Dict<V>
  {
    if |d| == 0 then [(k, v)]
    else if d[0].0 == k then [(k, v)] + d[1..]
    else [d[0]] + Store(d[1..], k, v)
  }

  /** Assignment keeps every existing key in place, appends a new key at the
      end, makes `k` map to `v` and leaves every other key's value alone. */
  lemma {:induction false} StoreKeys<V>(d: Dict<V>, k: string, v: V)
    ensures k in Keys(d) ==> Keys(Store(d, k, v)) == Keys(d)
    ensures k !in Keys(d) ==> Keys(Store(d, k, v)) == Keys(d) + [k]
  {
    if |d| > 0 && d[0].0 != k {
      StoreKeys(d[1..], k, v);
    }
  }

  lemma {:induction false} StoreLookup<V>(d: Dict<V>, k: string, v: V, k': string)
    ensures Lookup(Store(d, k, v), k') == if k' == k then Some(v) else Lookup(d, k')
  {
    if |d| > 0 && d[0].0 != k {
      StoreLookup(d[1..], k, v, k');
    }
  }

  /** Assigning a new key appends the pair. */
  lemma {:induction false} StoreNew<V>(d: Dict<V>, k: string, v: V)
    requires k !in Keys(d)
    ensures Store(d, k, v) == d + [(k, v)]
  {
    if |d| > 0 {
      assert Keys(d)[0] == d[0].0;
      assert Keys(d[1..]) == Keys(d)[1..];
      StoreNew(d[1..], k, v);
      assert d == [d[0]] + d[1..];
    }
  }

  /** ASCII letters only: Python's `str.lower` also folds non-ASCII letters. */
  function LowerChar(c: char): char
  {
    if 'A' <= c <= 'Z' then (c as int - 'A' as int + 'a' as int) as char else c
  }

  function Lower(s: string): (r: string)
    ensures |r| == |s|
    ensures forall i | 0 <= i < |s| :: r[i] == LowerChar(s[i])
  {
    seq(|s|, i requires 0 <= i < |s| => LowerChar(s[i]))
  }

  function DigitChar(d: nat): char
    requires d < 10
  {
    ('0' as int + d) as char
  }

  /** Python's `str(n)` for a natural number: decimal, no leading zero. */
  function NatToString(n: nat): (r: string)
    ensures |r| > 0
    ensures forall i | 0 <= i < |r| :: '0' <= r[i] <= '9'
    ensures |r| > 1 ==> r[0] != '0'
  {
    if n < 10 then [DigitChar(n)] else NatToString(n / 10) + [DigitChar(n % 10)]
  }

  /** Python's `str(n)` for any integer. */
  function IntToString(n: int): (r: string)
    ensures |r| > 0
    ensures (r[0] == '-') <==> n < 0
    ensures n >= 0 ==> '0' <= r[0] <= '9'
    ensures forall i | 1 <= i < |r| :: '0' <= r[i] <= '9'
    ensures n >= 0 ==> DecimalValue(r) == n
    ensures n < 0 ==> |r| > 1 && DecimalValue(r[1..]) == -n
  {
    if n < 0 then
      NatToStringRoundTrip(-n);
      var r := "-" + NatToString(-n);
      assert r[1..] == NatToString(-n);
      r
    else
      NatToStringRoundTrip(n);
      NatToString(n)
  }

  /** The value of a string of decimal digits, as `int(s)` reads it. */
  function DecimalValue(s: string): nat
    requires forall i | 0 <= i < |s| :: '0' <= s[i] <= '9'
  {
    if |s| == 0 then 0
    else DecimalValue(s[..|s| - 1]) * 10 + (s[|s| - 1] as int - '0' as int)
  }

  /** Reading back the decimal text of `n` gives `n`. */
  lemma {:induction false} NatToStringRoundTrip(n: nat)
    ensures DecimalValue(NatToString(n)) == n
  {
    if n >= 10 {
      var r := NatToString(n);
      assert r[..|r| - 1] == NatToString(n / 10);
      NatToStringRoundTrip(n / 10);
    }
  }

  /** What follows the last separator is everything after it, when no
      separator comes later. */
  lemma {:induction false} AfterLastAfterSeparator(x: string, c: char, t: string)
    requires c !in t
    ensures AfterLast(x + [c] + t, c) == t
    decreases |t|
  {
    if |t| == 0 {
      AfterLastSnoc(x, c, c);
    } else {
      var front, d := t[..|t| - 1], t[|t| - 1];
      assert t == front + [d];
      assert x + [c] + t == (x + [c] + front) + [d];
      AfterLastAfterSeparator(x, c, front);
      AfterLastSnoc(x + [c] + front, d, c);
    }
  }

  /** One character more at the end: the separator empties the part after
      the last one, any other character extends it. */
  lemma AfterLastSnoc(y: string, d: char, c: char)
    ensures AfterLast(y + [d], c) == if d == c then "" else AfterLast(y, c) + [d]
  {
    assert (y + [d])[..|y|] == y;
  }

  /** Joining a name without `/` onto a directory puts it directly in
      that directory: it is the last path component of the result. */
  lemma PathJoinLeaf(dir: string, name: string)
    requires '/' !in name
    ensures AfterLast(PathJoin(dir, name), '/') == name
    ensures dir <= PathJoin(dir, name)
  {
    if dir == "" {
    } else if dir[|dir| - 1] == '/' {
      assert dir + name == dir[..|dir| - 1] + ['/'] + name;
      AfterLastAfterSeparator(dir[..|dir| - 1], '/', name);
    } else {
      assert dir + "/" + name == dir + ['/'] + name;
      AfterLastAfterSeparator(dir, '/', name);
    }
  }

  /** What precedes the first separator is everything before it, when no
      separator comes earlier. */
  lemma {:induction false} BeforeFirstBeforeSeparator(m: string, c: char, t: string)
    requires c !in m
    ensures BeforeFirst(m + [c] + t, c) == m
  {
    var s := m + [c] + t;
    if |m| == 0 {
      assert s[0] == c;
    } else {
      assert s[0] == m[0] && s[1..] == m[1..] + [c] + t;
      BeforeFirstBeforeSeparator(m[1..], c, t);
      assert m == [m[0]] + m[1..];
    }
  }
}
