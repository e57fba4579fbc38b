/** The pytest results plugin (`ResultsCocotb`): each test writes its own
    results file, named after its node id, and at the end of the session
    the test suites of all those files are merged into one document, test
    suites with the same name and package becoming one. */
module Plugin {
  import opened Common
  import opened Xml

  /** What happens to one character of a node id in a file name. */
  function MangleChar(c: char, sep: char): char
  {
    if c == sep || c == '/' then '_' else if c == ':' then '-' else c
  }

  /** The node id made into a file name: the path separator `sep` and `/`
      become `_`, and `:` becomes `-`. */
  function Mangle(nodeid: string, sep: char): (r: string)
    ensures |r| == |nodeid|
    ensures forall i | 0 <= i < |r| :: r[i] == MangleChar(nodeid[i], sep)
  {
    ReplaceChar(ReplaceChar(ReplaceChar(nodeid, sep, '_'), '/', '_'), ':', '-')
  }

  /** The mangled name holds neither `/` nor `:` (nor the separator, unless
      the separator is one of the replacement characters), and every other
      character stays in place. */
  lemma MangleSafe(nodeid: string, sep: char)
    ensures '/' !in Mangle(nodeid, sep) && ':' !in Mangle(nodeid, sep)
    ensures sep != '_' && sep != '-' ==> sep !in Mangle(nodeid, sep)
    ensures forall i | 0 <= i < |nodeid| && nodeid[i] !in {sep, '/', ':'} :: Mangle(nodeid, sep)[i] == nodeid[i]
  {
    var r := Mangle(nodeid, sep);
    forall i | 0 <= i < |r|
      ensures r[i] != '/' && r[i] != ':' && (sep != '_' && sep != '-' ==> r[i] != sep)
    {
      assert r[i] == MangleChar(nodeid[i], sep);
    }
  }

  /** `get_results_xml_file`: the mangled node id with `.xml`, in the
      results directory. */
  function ResultsFile(dir: string, nodeid: string, sep: char): string
  {
    PathJoin(dir, Mangle(nodeid, sep) + ".xml")
  }

  /** The results file is the mangled name directly inside the results
      directory: its last path component is that name. */
  lemma ResultsFileInDir(dir: string, nodeid: string, sep: char)
    ensures AfterLast(ResultsFile(dir, nodeid, sep), '/') == Mangle(nodeid, sep) + ".xml"
    ensures dir <= ResultsFile(dir, nodeid, sep)
  {
    var m := Mangle(nodeid, sep);
    MangleSafe(nodeid, sep);
    assert '/' !in m + ".xml";
    PathJoinLeaf(dir, m + ".xml");
  }

  /** What pytest reports about one phase of one test. */
  datatype Report = Report(when: string, outcome: string, nodeid: string)

  /** `pytest_runtest_logreport` records the node id of a test's call phase
      unless the test was skipped. */
  predicate Counts(r: Report)
  {
    r.when == "call" && r.outcome != "skipped"
  }

  /** The names recorded over a sequence of reports. */
  function Recorded(reports: seq<Report>): seq<string>
  {
    if reports == [] then []
    else (if Counts(reports[0]) then [reports[0].nodeid] else []) + Recorded(reports[1..])
  }

  /** Recording is incremental: later reports extend the names recorded so
      far and never reorder them. */
  lemma {:induction false} RecordedAppend(a: seq<Report>, b: seq<Report>)
    ensures Recorded(a + b) == Recorded(a) + Recorded(b)
  {
    if a != [] {
      assert (a + b)[0] == a[0] && (a + b)[1..] == a[1..] + b;
      RecordedAppend(a[1..], b);
    } else {
      assert a + b == b;
    }
  }

  /** A node id is recorded exactly when one of its reports counts. */
  lemma {:induction false} RecordedMembers(reports: seq<Report>, n: string)
    ensures n in Recorded(reports) <==> exists i | 0 <= i < |reports| :: Counts(reports[i]) && reports[i].nodeid == n
  {
    if reports != [] {
      RecordedMembers(reports[1..], n);
      if exists i | 0 <= i < |reports| :: Counts(reports[i]) && reports[i].nodeid == n {
        var i :| 0 <= i < |reports| && Counts(reports[i]) && reports[i].nodeid == n;
        if i > 0 {
          assert reports[1..][i - 1] == reports[i];
        }
      }
      if exists i | 0 <= i < |reports[1..]| :: Counts(reports[1..][i]) && reports[1..][i].nodeid == n {
        var i :| 0 <= i < |reports[1..]| && Counts(reports[1..][i]) && reports[1..][i].nodeid == n;
        assert reports[i + 1] == reports[1..][i];
      }
    }
  }

  /** A test case with a class name. */
  predicate Named(e: Element)
  {
    Get(e, "classname").Some?
  }

  predicate AllNamed(es: seq<Element>)
  {
    forall i | 0 <= i < |es| :: Named(es[i])
  }

  /** `b` is the test case `a` with `cocotb.` before its class name. */
  predicate Prefixed(a: Element, b: Element)
  {
    && a.tag == "testcase" && b.tag == "testcase"
    && Get(a, "classname").Some?
    && Get(b, "classname") == Some("cocotb." + Get(a, "classname").value)
  }

  predicate AllPrefixed(a: seq<Element>, b: seq<Element>)
  {
    |a| == |b| && forall i | 0 <= i < |a| :: Prefixed(a[i], b[i])
  }

  lemma AllNamedConcat(a: seq<Element>, b: seq<Element>)
    ensures AllNamed(a + b) <==> AllNamed(a) && AllNamed(b)
  {
    if AllNamed(a + b) {
      forall i | 0 <= i < |b| ensures Named(b[i]) {
        assert (a + b)[|a| + i] == b[i];
      }
      forall i | 0 <= i < |a| ensures Named(a[i]) {
        assert (a + b)[i] == a[i];
      }
    }
    if AllNamed(a) && AllNamed(b) {
      forall i | 0 <= i < |a + b| ensures Named((a + b)[i]) {
        if i >= |a| {
          assert (a + b)[i] == b[i - |a|];
        }
      }
    }
  }

  lemma AllPrefixedConcat(a1: seq<Element>, b1: seq<Element>, a2: seq<Element>, b2: seq<Element>)
    requires AllPrefixed(a1, b1) && AllPrefixed(a2, b2)
    ensures AllPrefixed(a1 + a2, b1 + b2)
  {
    forall i | 0 <= i < |a1 + a2| ensures Prefixed((a1 + a2)[i], (b1 + b2)[i]) {
      if i >= |a1| {
        assert (a1 + a2)[i] == a2[i - |a1|] && (b1 + b2)[i] == b2[i - |a1|];
      }
    }
  }

  /** The class name rewrite of one test suite: every `testcase` below it
      gets `cocotb.` before its class name; a test case without one makes
      the concatenation fail with a `TypeError`. */
  function PrefixCases(e: Element): (r: Result<Element>)
    ensures r.Success? ==> r.value.tag == e.tag && |r.value.children| == |e.children|
    ensures r.Success? && e.tag != "testcase" ==> r.value.attrs == e.attrs
    ensures r.Failure? ==> r.error == TypeError
    decreases e
  {
    if e.tag == "testcase" && !Named(e) then Failure(TypeError)
    else
      var cs :- PrefixChildren(e.children);
      var e' := e.(children := cs);
      if e.tag == "testcase" then Success(Set(e', "classname", "cocotb." + Get(e, "classname").value))
      else Success(e')
  }

  function PrefixChildren(cs: seq<Element>): (r: Result<seq<Element>>)
    ensures r.Success? ==> |r.value| == |cs|
    ensures r.Success? ==> forall i | 0 <= i < |cs| :: r.value[i].tag == cs[i].tag
    ensures r.Failure? ==> r.error == TypeError
    decreases cs
  {
    if cs == [] then Success([])
    else
      var h :- PrefixCases(cs[0]);
      var t :- PrefixChildren(cs[1..]);
      Success([h] + t)
  }

  /** The rewrite succeeds exactly when every test case below the suite has
      a class name, and then the test cases of the result are those of the
      suite, in order, each with `cocotb.` before its class name. */
  lemma {:induction false} PrefixCasesIter(e: Element)
    ensures PrefixCases(e).Success? <==> AllNamed(Iter(e, "testcase"))
    ensures PrefixCases(e).Success? ==> AllPrefixed(Iter(e, "testcase"), Iter(PrefixCases(e).value, "testcase"))
    decreases e
  {
    var tc := "testcase";
    PrefixChildrenIter(e.children);
    var self := if e.tag == tc then [e] else [];
    assert Iter(e, tc) == self + IterAll(e.children, tc);
    AllNamedConcat(self, IterAll(e.children, tc));
    if PrefixCases(e).Success? {
      var cs := PrefixChildren(e.children).value;
      var r := PrefixCases(e).value;
      assert r.children == cs;
      var self' := if e.tag == tc then [r] else [];
      assert Iter(r, tc) == self' + IterAll(cs, tc);
      AllPrefixedConcat(self, self', IterAll(e.children, tc), IterAll(cs, tc));
    }
  }

  lemma {:induction false} PrefixChildrenIter(cs: seq<Element>)
    ensures PrefixChildren(cs).Success? <==> AllNamed(IterAll(cs, "testcase"))
    ensures PrefixChildren(cs).Success? ==> AllPrefixed(IterAll(cs, "testcase"), IterAll(PrefixChildren(cs).value, "testcase"))
    decreases cs
  {
    var tc := "testcase";
    if cs != [] {
      PrefixCasesIter(cs[0]);
      PrefixChildrenIter(cs[1..]);
      AllNamedConcat(Iter(cs[0], tc), IterAll(cs[1..], tc));
      if PrefixChildren(cs).Success? {
        var rs := PrefixChildren(cs).value;
        assert rs == [PrefixCases(cs[0]).value] + PrefixChildren(cs[1..]).value;
        assert rs[1..] == PrefixChildren(cs[1..]).value;
        AllPrefixedConcat(Iter(cs[0], tc), Iter(rs[0], tc), IterAll(cs[1..], tc), IterAll(rs[1..], tc));
      }
    }
  }

  /** The key a test suite is merged by. */
  function Key(e: Element): (Option<string>, Option<string>)
  {
    (Get(e, "name"), Get(e, "package"))
  }

  /** The first child from index `from` on with the given key. */
  function FindFrom(result: seq<Element>, k: (Option<string>, Option<string>), from: nat): (r: Option<nat>)
    requires from <= |result|
    ensures r.None? <==> forall i | from <= i < |result| :: Key(result[i]) != k
    ensures r.Some? ==> from <= r.value < |result| && Key(result[r.value]) == k
    ensures r.Some? ==> forall i | from <= i < r.value :: Key(result[i]) != k
    decreases |result| - from
  {
    if from == |result| then None
    else if Key(result[from]) == k then Some(from)
    else
      var r := FindFrom(result, k, from + 1);
      assert r.None? ==> forall i | from <= i < |result| :: Key(result[i]) != k;
      r
  }

  /** The first child with the given key, as `for existing in result`
      finds it. */
  function Find(result: seq<Element>, k: (Option<string>, Option<string>)): (r: Option<nat>)
    ensures r.None? <==> forall i | 0 <= i < |result| :: Key(result[i]) != k
    ensures r.Some? ==> r.value < |result| && Key(result[r.value]) == k
    ensures r.Some? ==> forall i | 0 <= i < r.value :: Key(result[i]) != k
  {
    FindFrom(result, k, 0)
  }

  /** No two children of the merged document share a key. */
  predicate DistinctSuites(result: seq<Element>)
  {
    forall i, j | 0 <= i < j < |result| :: Key(result[i]) != Key(result[j])
  }

  /** One step of the merge: a suite whose key is already present hands
      its children to that suite; otherwise it becomes a new child. */
  function Merge(result: seq<Element>, ts: Element): seq<Element>
  {
    match Find(result, Key(ts))
    case None => result + [ts]
    case Some(k) => result[k := result[k].(children := result[k].children + ts.children)]
  }

  /** The merge step keeps the keys distinct, adds the suite's key if it
      was missing, keeps every other child as it was, and gives the suite's
      children, after the ones already there, to the child with its key. */
  lemma MergeFacts(result: seq<Element>, ts: Element)
    requires DistinctSuites(result)
    ensures var r := Merge(result, ts);
      && DistinctSuites(r)
      && |r| == |result| + (if Find(result, Key(ts)).None? then 1 else 0)
      && (forall i | 0 <= i < |result| :: Key(r[i]) == Key(result[i]))
      && (exists k | 0 <= k < |r| :: Key(r[k]) == Key(ts)
            && r[k].children == (if k < |result| then result[k].children else []) + ts.children
            && forall i | 0 <= i < |result| && i != k :: r[i] == result[i])
  {
    var r := Merge(result, ts);
    match Find(result, Key(ts))
    case None =>
      assert r[|result|] == ts;
      assert ts.children == [] + ts.children;
    case Some(k) =>
      assert Get(r[k], "name") == Get(result[k], "name");
      assert Key(r[k]) == Key(result[k]);
  }

  /** The merge of a sequence of suites, in order. */
  function MergeAll(result: seq<Element>, suites: seq<Element>): seq<Element>
    decreases suites
  {
    if suites == [] then result else MergeAll(Merge(result, suites[0]), suites[1..])
  }

  /** All children, summed over the suites. */
  function ChildCount(suites: seq<Element>): nat
  {
    if suites == [] then 0 else |suites[0].children| + ChildCount(suites[1..])
  }

  lemma {:induction false} ChildCountUpdate(result: seq<Element>, k: nat, e: Element)
    requires k < |result|
    ensures ChildCount(result[k := e]) == ChildCount(result) - |result[k].children| + |e.children|
  {
    if k > 0 {
      assert result[k := e][1..] == result[1..][k - 1 := e];
      ChildCountUpdate(result[1..], k - 1, e);
    }
  }

  lemma {:induction false} ChildCountAppend(a: seq<Element>, b: seq<Element>)
    ensures ChildCount(a + b) == ChildCount(a) + ChildCount(b)
  {
    if a != [] {
      assert (a + b)[0] == a[0] && (a + b)[1..] == a[1..] + b;
      ChildCountAppend(a[1..], b);
    } else {
      assert a + b == b;
    }
  }

  /** Merging keeps the keys distinct and loses no child: the merged
      document holds the children it held plus every child of every suite. */
  lemma {:induction false} MergeAllFacts(result: seq<Element>, suites: seq<Element>)
    requires DistinctSuites(result)
    ensures DistinctSuites(MergeAll(result, suites))
    ensures ChildCount(MergeAll(result, suites)) == ChildCount(result) + ChildCount(suites)
    decreases suites
  {
    if suites != [] {
      var ts := suites[0];
      MergeFacts(result, ts);
      match Find(result, Key(ts)) {
        case None =>
          ChildCountAppend(result, [ts]);
        case Some(k) =>
          ChildCountUpdate(result, k, result[k].(children := result[k].children + ts.children));
      }
      MergeAllFacts(Merge(result, ts), suites[1..]);
    }
  }

  /** The suites of one results document, rewritten one after another. */
  function PrefixSuites(suites: seq<Element>): (r: Result<seq<Element>>)
    ensures r.Success? ==> |r.value| == |suites|
    ensures r.Success? ==> forall i | 0 <= i < |suites| :: PrefixCases(suites[i]).Success? && r.value[i] == PrefixCases(suites[i]).value
    ensures r.Success? ==> ChildCount(r.value) == ChildCount(suites)
  {
    if suites == [] then Success([])
    else
      var h :- PrefixCases(suites[0]);
      var t :- PrefixSuites(suites[1..]);
      assert ([h] + t)[1..] == t;
      Success([h] + t)
  }

  /** One recorded node id in `pytest_sessionfinish`: a missing results
      file is skipped; otherwise each of its suites is rewritten and merged. */
  function Collect1(result: seq<Element>, dir: string, sep: char, read: string -> Option<Element>, nodeid: string): Result<seq<Element>>
  {
    match read(ResultsFile(dir, nodeid, sep))
    case None => Success(result)
    case Some(doc) =>
      var suites :- PrefixSuites(Iter(doc, "testsuite"));
      Success(MergeAll(result, suites))
  }

  /** The loop of `pytest_sessionfinish` over the recorded node ids. */
  function Collect(result: seq<Element>, dir: string, sep: char, read: string -> Option<Element>, names: seq<string>): Result<seq<Element>>
    decreases names
  {
    if names == [] then Success(result)
    else
      var r :- Collect1(result, dir, sep, read, names[0]);
      Collect(r, dir, sep, read, names[1..])
  }

  /** The merged document, its children being the collected suites. */
  function Finish(dir: string, sep: char, read: string -> Option<Element>, names: seq<string>): (r: Result<Element>)
    ensures r.Success? ==> r.value.tag == "testsuites" && Get(r.value, "name") == Some("results")
  {
    var suites :- Collect([], dir, sep, read, names);
    Success(Element("testsuites", [("name", "results")], suites))
  }

  /** The session's work splits at any point of the name list. */
  lemma {:induction false} CollectAppend(result: seq<Element>, dir: string, sep: char, read: string -> Option<Element>, a: seq<string>, b: seq<string>)
    ensures Collect(result, dir, sep, read, a + b) ==
      match Collect(result, dir, sep, read, a)
      case Success(r) => Collect(r, dir, sep, read, b)
      case Failure(e) => Failure(e)
    decreases a
  {
    if a != [] {
      assert (a + b)[0] == a[0] && (a + b)[1..] == a[1..] + b;
      match Collect1(result, dir, sep, read, a[0])
      case Success(r) => CollectAppend(r, dir, sep, read, a[1..], b);
      case Failure(_) =>
    } else {
      assert a + b == b;
    }
  }

  /** A node id without a results file changes nothing. */
  lemma SkipsMissing(dir: string, sep: char, read: string -> Option<Element>, a: seq<string>, n: string, b: seq<string>)
    requires read(ResultsFile(dir, n, sep)).None?
    ensures Finish(dir, sep, read, a + [n] + b) == Finish(dir, sep, read, a + b)
  {
    CollectAppend([], dir, sep, read, a, b);
    CollectAppend([], dir, sep, read, a + [n], b);
    CollectAppend([], dir, sep, read, a, [n]);
    match Collect([], dir, sep, read, a)
    case Success(r) =>
      assert Collect(r, dir, sep, read, [n]) == Success(r) by {
        assert [n][1..] == [];
      }
    case Failure(_) =>
  }

  /** The merged document's suites have distinct (name, package) keys. */
  lemma {:induction false} CollectDistinct(result: seq<Element>, dir: string, sep: char, read: string -> Option<Element>, names: seq<string>)
    requires DistinctSuites(result)
    ensures Collect(result, dir, sep, read, names).Success? ==> DistinctSuites(Collect(result, dir, sep, read, names).value)
    decreases names
  {
    if names != [] {
      match Collect1(result, dir, sep, read, names[0])
      case Success(r) =>
        match read(ResultsFile(dir, names[0], sep)) {
          case None =>
          case Some(doc) =>
            MergeAllFacts(result, PrefixSuites(Iter(doc, "testsuite")).value);
        }
        CollectDistinct(r, dir, sep, read, names[1..]);
      case Failure(_) =>
    }
  }

  lemma FinishDistinct(dir: string, sep: char, read: string -> Option<Element>, names: seq<string>)
    ensures Finish(dir, sep, read, names).Success? ==> DistinctSuites(Finish(dir, sep, read, names).value.children)
  {
    CollectDistinct([], dir, sep, read, names);
  }
}
