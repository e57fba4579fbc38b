/** The rebuild check of the `Simulator` base class (`outdated_list` and
    `outdated`): an output is out of date when it is missing, or when some
    dependency is newer than it. File times come from the `Host`. */
module Rebuild {
  import opened Common
  import opened Host
  import opened Paths

  /** The dependency loop of `outdated_list`: the running maximum, from
      `acc`, of the dependencies' times. The first missing dependency
      raises. */
  function MaxMtime(h: Host, acc: int, deps: seq<string>): (r: Result<int>)
    ensures r.Success? <==> forall i | 0 <= i < |deps| :: PathExists(h, deps[i])
    ensures r.Success? ==> r.value >= acc && forall i | 0 <= i < |deps| :: h.mtimes[deps[i]] <= r.value
    ensures r.Success? ==> r.value == acc || exists i | 0 <= i < |deps| :: r.value == h.mtimes[deps[i]]
    ensures r.Failure? ==> exists i | 0 <= i < |deps| ::
      && !PathExists(h, deps[i]) && r.error == FileNotFound(deps[i])
      && forall j | 0 <= j < i :: PathExists(h, deps[j])
    decreases |deps|
  {
    if |deps| == 0 then Success(acc)
    else
      var m :- GetMtime(h, deps[0]);
      var r := MaxMtime(h, if m > acc then m else acc, deps[1..]);
      assert forall i | 1 <= i < |deps| :: deps[i] == deps[1..][i - 1];
      r
  }

  /** `outdated_list`: an output that is not a file, being missing or a
      directory, is always out of date; otherwise the output is out of date
      exactly when some dependency is strictly newer, or when its own time
      is below the loop's starting value 0. */
  function OutdatedList(h: Host, output: string, deps: seq<string>): (r: Result<bool>)
    ensures !IsFile(h, output) ==> r == Success(true)
    ensures IsFile(h, output) ==> (r.Success? <==> forall i | 0 <= i < |deps| :: PathExists(h, deps[i]))
    ensures r.Failure? ==> exists i | 0 <= i < |deps| ::
      && !PathExists(h, deps[i]) && r.error == FileNotFound(deps[i])
      && forall j | 0 <= j < i :: PathExists(h, deps[j])
    ensures IsFile(h, output) && r.Success? ==>
      (r.value <==> h.mtimes[output] < 0 || exists i | 0 <= i < |deps| :: h.mtimes[deps[i]] > h.mtimes[output])
  {
    if !IsFile(h, output) then Success(true)
    else
      var outputMtime := h.mtimes[output];
      var depMtime :- MaxMtime(h, 0, deps);
      Success(depMtime > outputMtime)
  }

  /** `outdated`: a list is checked directly; a dictionary is out of date
      when some library's list is, checked in order and stopping at the
      first that is. */
  function Outdated(h: Host, output: string, deps: Sources): (r: Result<bool>)
    ensures deps.Flat? ==> r == OutdatedList(h, output, deps.files)
    ensures deps.Libs? ==> (r == Success(false) <==>
      forall i | 0 <= i < |deps.libs| :: OutdatedList(h, output, deps.libs[i].1) == Success(false))
    ensures deps.Libs? ==> (r == Success(true) <==> exists i | 0 <= i < |deps.libs| ::
      && OutdatedList(h, output, deps.libs[i].1) == Success(true)
      && forall k | 0 <= k < i :: OutdatedList(h, output, deps.libs[k].1) == Success(false))
    ensures deps.Libs? && r.Failure? ==> exists i | 0 <= i < |deps.libs| ::
      && OutdatedList(h, output, deps.libs[i].1) == Failure(r.error)
      && forall k | 0 <= k < i :: OutdatedList(h, output, deps.libs[k].1) == Success(false)
  {
    match deps
    case Flat(files) => OutdatedList(h, output, files)
    case Libs(libs) => AnyTrue(LibChecks(h, output, libs))
  }

  /** The short-circuit `or` of a sequence of checks: the first that fails
      or answers true decides. */
  function AnyTrue(rs: seq<Result<bool>>): (r: Result<bool>)
    ensures (forall i | 0 <= i < |rs| :: rs[i].Success?) ==> r == Success(exists i | 0 <= i < |rs| :: rs[i].value)
    ensures r == Success(false) <==> forall i | 0 <= i < |rs| :: rs[i] == Success(false)
    ensures r == Success(true) <==> exists i | 0 <= i < |rs| ::
      && rs[i] == Success(true)
      && forall j | 0 <= j < i :: rs[j] == Success(false)
    ensures r.Failure? ==> exists i | 0 <= i < |rs| ::
      && rs[i] == Failure(r.error)
      && forall j | 0 <= j < i :: rs[j] == Success(false)
    decreases |rs|
  {
    if |rs| == 0 then Success(false)
    else
      var first :- rs[0];
      assert forall i | 1 <= i < |rs| :: rs[i] == rs[1..][i - 1];
      if first then Success(true) else AnyTrue(rs[1..])
  }

  /** The check of every library's list against the same output, in the
      dictionary's order. */
  function LibChecks(h: Host, output: string, libs: Dict<seq<string>>): (rs: seq<Result<bool>>)
    ensures |rs| == |libs|
    ensures forall i | 0 <= i < |libs| :: rs[i] == OutdatedList(h, output, libs[i].1)
  {
    seq(|libs|, i requires 0 <= i < |libs| => OutdatedList(h, output, libs[i].1))
  }

  // ---------------------------------------------------------------------
  // Consequences

  /** With nothing to depend on, an existing output (with a time the loop
      can exceed) is never out of date. */
  lemma NoDependenciesNotOutdated(h: Host, output: string)
    requires IsFile(h, output) && h.mtimes[output] >= 0
    ensures OutdatedList(h, output, []) == Success(false)
  {
  }

  /** Dependencies exactly as old as the output do not trigger a rebuild. */
  lemma EqualTimesNotOutdated(h: Host, output: string, deps: seq<string>)
    requires IsFile(h, output) && h.mtimes[output] >= 0
    requires forall i | 0 <= i < |deps| :: PathExists(h, deps[i]) && h.mtimes[deps[i]] == h.mtimes[output]
    ensures OutdatedList(h, output, deps) == Success(false)
  {
  }

  /** Touching one existing dependency past the output's time forces a
      rebuild. */
  lemma TouchedDependencyOutdated(h: Host, output: string, deps: seq<string>, k: int, t: int)
    requires 0 <= k < |deps| && deps[k] != output
    requires forall i | 0 <= i < |deps| :: PathExists(h, deps[i])
    requires IsFile(h, output) && t > h.mtimes[output]
    ensures OutdatedList(h.(mtimes := h.mtimes[deps[k] := t]), output, deps) == Success(true)
  {
    var h' := h.(mtimes := h.mtimes[deps[k] := t]);
    assert PathExists(h', deps[k]) && h'.mtimes[deps[k]] > h'.mtimes[output];
  }

  /** An output path that names a directory is not a file: the check
      answers out of date without reading any dependency, even one that is
      missing. */
  lemma DirectoryOutputOutdated(h: Host, output: string, deps: seq<string>)
    requires PathExists(h, output) && h.isDir(output)
    ensures OutdatedList(h, output, deps) == Success(true)
    ensures GetMtime(h, output) == Success(h.mtimes[output])
  {
  }

  /** An empty dictionary is never out of date, even when the output is
      missing, while an empty list with a missing output is. */
  lemma EmptySourcesDiffer(h: Host, output: string)
    requires !IsFile(h, output)
    ensures Outdated(h, output, Libs([])) == Success(false)
    ensures Outdated(h, output, Flat([])) == Success(true)
  {
  }

  /** A missing output makes a non-empty dictionary out of date. */
  lemma MissingOutputLibs(h: Host, output: string, libs: Dict<seq<string>>)
    requires !IsFile(h, output) && |libs| > 0
    ensures Outdated(h, output, Libs(libs)) == Success(true)
  {
  }
}
