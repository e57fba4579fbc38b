/** Source collections and path normalisation (`normalize_paths` and
    `get_abs_paths` of the `Simulator` base class).

    A source argument is either a flat list of files or a dictionary from
    library name to a list of files; both shapes are kept apart by
    `Sources`, and Python's truthiness of each is `Truthy`. */
module Paths {
  import opened Common

  datatype Sources = Flat(files: seq<string>) | Libs(libs: Dict<seq<string>>)

  /** `bool(sources)`: a list or dict is true when it is not empty. */
  predicate Truthy(s: Sources)
  {
    match s
    case Flat(files) => |files| > 0
    case Libs(libs) => |libs| > 0
  }

  /** `for x in sources`: a list yields its files, a dict its keys. */
  function Names(s: Sources): seq<string>
  {
    match s
    case Flat(files) => files
    case Libs(libs) => Keys(libs)
  }

  /** One path made absolute: an absolute path goes through `abspath` as
      it is, a relative one is first joined to the working directory. */
  function NormalizePath(p: string, cwd: string, abspath: string -> string): string
  {
    if IsAbs(p) then abspath(p) else abspath(PathJoin(cwd, p))
  }

  function NormalizePaths(ps: seq<string>, cwd: string, abspath: string -> string): (r: seq<string>)
    ensures |r| == |ps|
    ensures forall i | 0 <= i < |ps| :: r[i] == NormalizePath(ps[i], cwd, abspath)
  {
    seq(|ps|, i requires 0 <= i < |ps| => NormalizePath(ps[i], cwd, abspath))
  }

  /** The dictionary loop of `get_abs_paths`: `libs[lib] = normalize(src)`
      for every entry, in order. */
  function AbsLibs(acc: Dict<seq<string>>, libs: Dict<seq<string>>, cwd: string, abspath: string -> string)
    : Dict<seq<string>>
    decreases |libs|
  {
    if |libs| == 0 then acc
    else AbsLibs(Store(acc, libs[0].0, NormalizePaths(libs[0].1, cwd, abspath)), libs[1..], cwd, abspath)
  }

  /** `get_abs_paths`: a list stays a list of its normalised paths, a dict
      stays a dict whose keys are distinct, and neither changes its
      truthiness. */
  function GetAbsPaths(s: Sources, cwd: string, abspath: string -> string): (r: Sources)
    ensures r.Flat? <==> s.Flat?
    ensures r.Flat? ==> r.files == NormalizePaths(s.files, cwd, abspath)
    ensures r.Libs? ==> DistinctKeys(r.libs)
    ensures Truthy(r) <==> Truthy(s)
  {
    match s
    case Flat(files) => Flat(NormalizePaths(files, cwd, abspath))
    case Libs(libs) =>
      AbsLibsDistinct([], libs, cwd, abspath);
      AbsLibsNonEmpty([], libs, cwd, abspath);
      Libs(AbsLibs([], libs, cwd, abspath))
  }

  // ---------------------------------------------------------------------
  // Lemmas

  lemma {:induction false} StoreDistinct<V>(d: Dict<V>, k: string, v: V)
    requires DistinctKeys(d)
    ensures DistinctKeys(Store(d, k, v))
  {
    StoreKeys(d, k, v);
    var d' := Store(d, k, v);
    forall i, j | 0 <= i < j < |d'| ensures d'[i].0 != d'[j].0 {
      assert Keys(d')[i] == d'[i].0 && Keys(d')[j] == d'[j].0;
      if k !in Keys(d) && j == |d| {
        assert Keys(d)[i] == d[i].0;
      } else {
        assert Keys(d)[i] == d[i].0 && Keys(d)[j] == d[j].0;
      }
    }
  }

  lemma {:induction false} AbsLibsDistinct(acc: Dict<seq<string>>, libs: Dict<seq<string>>, cwd: string,
                                           abspath: string -> string)
    requires DistinctKeys(acc)
    ensures DistinctKeys(AbsLibs(acc, libs, cwd, abspath))
    decreases |libs|
  {
    if |libs| > 0 {
      StoreDistinct(acc, libs[0].0, NormalizePaths(libs[0].1, cwd, abspath));
      AbsLibsDistinct(Store(acc, libs[0].0, NormalizePaths(libs[0].1, cwd, abspath)), libs[1..], cwd, abspath);
    }
  }

  lemma {:induction false} StoreNonEmpty<V>(d: Dict<V>, k: string, v: V)
    ensures |Store(d, k, v)| >= |d| && |Store(d, k, v)| > 0
  {
    if |d| > 0 && d[0].0 != k {
      StoreNonEmpty(d[1..], k, v);
    }
  }

  lemma {:induction false} AbsLibsNonEmpty(acc: Dict<seq<string>>, libs: Dict<seq<string>>, cwd: string,
                                           abspath: string -> string)
    ensures |AbsLibs(acc, libs, cwd, abspath)| > 0 <==> |acc| > 0 || |libs| > 0
    decreases |libs|
  {
    if |libs| > 0 {
      var v := NormalizePaths(libs[0].1, cwd, abspath);
      StoreNonEmpty(acc, libs[0].0, v);
      AbsLibsNonEmpty(Store(acc, libs[0].0, v), libs[1..], cwd, abspath);
    }
  }

  /** Assigning a key that is not present appends it. */
  lemma {:induction false} StoreAbsent<V>(d: Dict<V>, k: string, v: V)
    requires k !in Keys(d)
    ensures Store(d, k, v) == d + [(k, v)]
  {
    if |d| > 0 {
      assert Keys(d) == [d[0].0] + Keys(d[1..]);
      StoreAbsent(d[1..], k, v);
      assert d == [d[0]] + d[1..];
    }
  }

  /** Every library with its files normalised, in the dictionary's order. */
  function MapNormalize(libs: Dict<seq<string>>, cwd: string, abspath: string -> string): (r: Dict<seq<string>>)
    ensures |r| == |libs|
  {
    if |libs| == 0 then []
    else [(libs[0].0, NormalizePaths(libs[0].1, cwd, abspath))] + MapNormalize(libs[1..], cwd, abspath)
  }

  lemma {:induction false} AbsLibsAppends(acc: Dict<seq<string>>, libs: Dict<seq<string>>, cwd: string,
                                          abspath: string -> string)
    requires DistinctKeys(libs)
    requires forall i | 0 <= i < |libs| :: libs[i].0 !in Keys(acc)
    ensures AbsLibs(acc, libs, cwd, abspath) == acc + MapNormalize(libs, cwd, abspath)
    decreases |libs|
  {
    if |libs| > 0 {
      var k, v := libs[0].0, NormalizePaths(libs[0].1, cwd, abspath);
      var rest := libs[1..];
      assert k !in Keys(acc);
      StoreAbsent(acc, k, v);
      StoreKeys(acc, k, v);
      var acc' := acc + [(k, v)];
      assert Keys(acc') == Keys(acc) + [k];
      forall i | 0 <= i < |rest| ensures rest[i].0 !in Keys(acc') {
        assert rest[i] == libs[i + 1];
        assert libs[i + 1].0 != libs[0].0;
      }
      forall i, j | 0 <= i < j < |rest| ensures rest[i].0 != rest[j].0 {
        assert rest[i] == libs[i + 1] && rest[j] == libs[j + 1];
      }
      AbsLibsAppends(acc', rest, cwd, abspath);
      assert AbsLibs(acc, libs, cwd, abspath) == AbsLibs(acc', rest, cwd, abspath);
      assert MapNormalize(libs, cwd, abspath) == [(k, v)] + MapNormalize(rest, cwd, abspath);
      assert acc' + MapNormalize(rest, cwd, abspath) == acc + ([(k, v)] + MapNormalize(rest, cwd, abspath));
    }
  }

  /** For a dictionary every library keeps its name and position and gets
      its own files normalised. */
  lemma GetAbsPathsOfLibs(libs: Dict<seq<string>>, cwd: string, abspath: string -> string)
    requires DistinctKeys(libs)
    ensures GetAbsPaths(Libs(libs), cwd, abspath) == Libs(MapNormalize(libs, cwd, abspath))
  {
    AbsLibsAppends([], libs, cwd, abspath);
  }

  /** `abspath` returns absolute paths and leaves them alone. */
  ghost predicate AbsPathIdempotent(abspath: string -> string)
  {
    forall p :: IsAbs(abspath(p)) && abspath(abspath(p)) == abspath(p)
  }

  lemma NormalizePathIdempotent(p: string, cwd: string, abspath: string -> string)
    requires AbsPathIdempotent(abspath)
    ensures NormalizePath(NormalizePath(p, cwd, abspath), cwd, abspath) == NormalizePath(p, cwd, abspath)
  {
    var q := if IsAbs(p) then abspath(p) else abspath(PathJoin(cwd, p));
    assert IsAbs(q) && abspath(q) == q;
  }

  lemma NormalizePathsIdempotent(ps: seq<string>, cwd: string, abspath: string -> string)
    requires AbsPathIdempotent(abspath)
    ensures NormalizePaths(NormalizePaths(ps, cwd, abspath), cwd, abspath) == NormalizePaths(ps, cwd, abspath)
  {
    forall i | 0 <= i < |ps| {
      NormalizePathIdempotent(ps[i], cwd, abspath);
    }
  }

  /** A list that normalising leaves unchanged. */
  predicate Normalized(ps: seq<string>, cwd: string, abspath: string -> string)
  {
    NormalizePaths(ps, cwd, abspath) == ps
  }

  predicate AllNormalized(d: Dict<seq<string>>, cwd: string, abspath: string -> string)
  {
    forall j | 0 <= j < |d| :: Normalized(d[j].1, cwd, abspath)
  }

  lemma {:induction false} StoreNormalized(d: Dict<seq<string>>, k: string, v: seq<string>, cwd: string,
                                           abspath: string -> string)
    requires AllNormalized(d, cwd, abspath) && Normalized(v, cwd, abspath)
    ensures AllNormalized(Store(d, k, v), cwd, abspath)
  {
    if |d| > 0 && d[0].0 != k {
      StoreNormalized(d[1..], k, v, cwd, abspath);
      var d' := Store(d, k, v);
      forall j | 0 <= j < |d'| ensures Normalized(d'[j].1, cwd, abspath) {
        if j > 0 {
          assert d'[j] == Store(d[1..], k, v)[j - 1];
        }
      }
    }
  }

  lemma {:induction false} AbsLibsNormalized(acc: Dict<seq<string>>, libs: Dict<seq<string>>, cwd: string,
                                             abspath: string -> string)
    requires AbsPathIdempotent(abspath)
    requires AllNormalized(acc, cwd, abspath)
    ensures AllNormalized(AbsLibs(acc, libs, cwd, abspath), cwd, abspath)
    decreases |libs|
  {
    if |libs| > 0 {
      var v := NormalizePaths(libs[0].1, cwd, abspath);
      NormalizePathsIdempotent(libs[0].1, cwd, abspath);
      StoreNormalized(acc, libs[0].0, v, cwd, abspath);
      AbsLibsNormalized(Store(acc, libs[0].0, v), libs[1..], cwd, abspath);
    }
  }

  lemma {:induction false} MapNormalizeFixed(d: Dict<seq<string>>, cwd: string, abspath: string -> string)
    requires AllNormalized(d, cwd, abspath)
    ensures MapNormalize(d, cwd, abspath) == d
  {
    if |d| > 0 {
      assert AllNormalized(d[1..], cwd, abspath) by {
        forall j | 0 <= j < |d[1..]| ensures Normalized(d[1..][j].1, cwd, abspath) {
          assert d[1..][j] == d[j + 1];
        }
      }
      MapNormalizeFixed(d[1..], cwd, abspath);
      assert Normalized(d[0].1, cwd, abspath);
      assert d == [d[0]] + d[1..];
    }
  }

  /** With an idempotent `abspath`, normalising already normalised sources
      changes nothing. */
  lemma GetAbsPathsIdempotent(s: Sources, cwd: string, abspath: string -> string)
    requires AbsPathIdempotent(abspath)
    ensures GetAbsPaths(GetAbsPaths(s, cwd, abspath), cwd, abspath) == GetAbsPaths(s, cwd, abspath)
  {
    match s
    case Flat(files) =>
      NormalizePathsIdempotent(files, cwd, abspath);
    case Libs(libs) =>
      var once := AbsLibs([], libs, cwd, abspath);
      AbsLibsDistinct([], libs, cwd, abspath);
      AbsLibsNormalized([], libs, cwd, abspath);
      GetAbsPathsOfLibs(once, cwd, abspath);
      MapNormalizeFixed(once, cwd, abspath);
  }
}
