/**
  Validation of an agent's volume mounts by the admission webhook.
 */
module Mounts {
  import opened Api
  import opened Collections
  import opened Paths

  datatype MountError = UnknownVolume(mount: nat) | NestedUnder(inner: nat, outer: nat)

  /** What the webhook calls nested: different cleaned paths that pass the prefix test. */
  predicate TestsNested(inner: VolumeMount, outer: VolumeMount) {
    Clean(inner.mountPath) != Clean(outer.mountPath) && SlashPrefix(Clean(outer.mountPath), Clean(inner.mountPath))
  }

  /** What nesting is: the inner path has all components of the outer one, and more. */
  predicate IsNested(inner: VolumeMount, outer: VolumeMount) {
    var p, q := Parse(outer.mountPath), Parse(inner.mountPath);
    p.rooted == q.rooted && p.components < q.components
  }

  /** For paths from the root that is nesting of the directories they lead to. */
  lemma NestingIsOfDirectories(inner: VolumeMount, outer: VolumeMount, workingDirectory: seq<string>)
    requires Parse(inner.mountPath).rooted && Parse(outer.mountPath).rooted
    ensures IsNested(inner, outer) <==>
              LeadsTo(outer.mountPath, workingDirectory) < LeadsTo(inner.mountPath, workingDirectory)
  {
    ComponentsLeadThere(inner.mountPath, workingDirectory);
    ComponentsLeadThere(outer.mountPath, workingDirectory);
  }

  /** The root, or the working directory. */
  predicate IsTop(m: VolumeMount) {
    Parse(m.mountPath).components == []
  }

  /** The test finds every nested pair but those under a mount at the top, and no others. */
  lemma TestFindsNestingBelowTop(inner: VolumeMount, outer: VolumeMount)
    ensures TestsNested(inner, outer) <==> IsNested(inner, outer) && !IsTop(outer)
  {
    PrefixTestIsExact(outer.mountPath, inner.mountPath);
    CleanIsFaithful(outer.mountPath, inner.mountPath);
  }

  /** At most one of two mounts is nested under the other. */
  lemma NestingIsOneWay(a: VolumeMount, b: VolumeMount)
    ensures !(TestsNested(a, b) && TestsNested(b, a))
    ensures !TestsNested(a, a)
  {
    TestFindsNestingBelowTop(a, b);
    TestFindsNestingBelowTop(b, a);
  }

  lemma EmptyPathIsTop(m: VolumeMount, other: VolumeMount)
    requires m.mountPath == ""
    ensures IsTop(m) && !TestsNested(m, other) && !TestsNested(other, m)
  {
    assert Split("") == [""];
    assert Normalize(false, [], [""]) == [];
    TestFindsNestingBelowTop(m, other);
    TestFindsNestingBelowTop(other, m);
  }

  /** The errors to report once the mounts before `i` are done with, and mount `i` with the mounts before `j`. */
  ghost predicate Due(volumes: set<string>, mounts: seq<VolumeMount>, i: nat, j: nat, e: MountError) {
    match e
    case UnknownVolume(k) => k < |mounts| && (k < i || (k == i && j > i)) && mounts[k].name !in volumes
    case NestedUnder(inner, outer) =>
      && inner < |mounts| && outer < |mounts| && TestsNested(mounts[inner], mounts[outer])
      && var first, second := if inner < outer then inner else outer, if inner < outer then outer else inner;
         first < i || (first == i && second < j)
  }

  ghost predicate ReportsExactly(errs: seq<MountError>, volumes: set<string>, mounts: seq<VolumeMount>, i: nat, j: nat) {
    && (forall e :: e in errs <==> Due(volumes, mounts, i, j, e))
    && forall a, b :: 0 <= a < b < |errs| ==> errs[a] != errs[b]
  }

  ghost function UnknownVolumes(volumes: set<string>, mounts: seq<VolumeMount>): set<MountError> {
    set k: nat | k < |mounts| && mounts[k].name !in volumes :: UnknownVolume(k)
  }

  ghost function NestedPairs(mounts: seq<VolumeMount>): set<MountError> {
    set c: nat, p: nat | c < |mounts| && p < |mounts| && TestsNested(mounts[c], mounts[p]) :: NestedUnder(c, p)
  }

  /** The only error that comparing mount `i` with a later mount `j` can add. */
  lemma PairIsDueOnce(volumes: set<string>, mounts: seq<VolumeMount>, i: nat, j: nat, e: MountError)
    requires i < j < |mounts|
    ensures Due(volumes, mounts, i, j + 1, e) <==>
              || Due(volumes, mounts, i, j, e)
              || (e == NestedUnder(j, i) && TestsNested(mounts[j], mounts[i]))
              || (e == NestedUnder(i, j) && TestsNested(mounts[i], mounts[j]))
    ensures !Due(volumes, mounts, i, j, NestedUnder(j, i)) && !Due(volumes, mounts, i, j, NestedUnder(i, j))
  {
  }

  lemma NextMountIsDue(volumes: set<string>, mounts: seq<VolumeMount>, i: nat, e: MountError)
    requires i < |mounts|
    ensures Due(volumes, mounts, i, i + 1, e) <==>
              Due(volumes, mounts, i, 0, e) || (e == UnknownVolume(i) && mounts[i].name !in volumes)
    ensures !Due(volumes, mounts, i, 0, UnknownVolume(i))
    ensures Due(volumes, mounts, i, |mounts|, e) <==> Due(volumes, mounts, i + 1, 0, e)
  {
    NestingIsOneWay(mounts[i], mounts[i]);
  }

  lemma ReportOne(errs: seq<MountError>, volumes: set<string>, mounts: seq<VolumeMount>, i: nat, j: nat, e: MountError, i': nat, j': nat)
    requires ReportsExactly(errs, volumes, mounts, i, j)
    requires !Due(volumes, mounts, i, j, e)
    requires forall d :: Due(volumes, mounts, i', j', d) <==> Due(volumes, mounts, i, j, d) || d == e
    ensures ReportsExactly(errs + [e], volumes, mounts, i', j')
  {
    assert forall a :: 0 <= a < |errs| ==> errs[a] in errs;
  }

  /** The webhook's nested loops. */
  method ValidateVolumeMounts(volumes: seq<string>, mounts: seq<VolumeMount>) returns (errs: seq<MountError>)
    ensures IsOrder(errs, UnknownVolumes((set v | v in volumes), mounts) + NestedPairs(mounts))
    ensures |errs| == |UnknownVolumes((set v | v in volumes), mounts)| + |NestedPairs(mounts)|
  {
    errs := [];
    var volumeNames: set<string> := {};
    var v := 0;
    while v < |volumes|
      invariant 0 <= v <= |volumes|
      invariant volumeNames == set n | n in volumes[..v]
    {
      assert volumes[..v + 1] == volumes[..v] + [volumes[v]];
      volumeNames := volumeNames + {volumes[v]};
      v := v + 1;
    }
    assert volumes[..v] == volumes;

    var i := 0;
    while i < |mounts|
      invariant 0 <= i <= |mounts|
      invariant ReportsExactly(errs, volumeNames, mounts, i, 0)
    {
      VolumeStep(errs, volumeNames, mounts, i);
      if mounts[i].name !in volumeNames {
        errs := errs + [UnknownVolume(i)];
      }
      var j := i + 1;
      while j < |mounts|
        invariant i < j <= |mounts|
        invariant ReportsExactly(errs, volumeNames, mounts, i, j)
      {
        PairStep(errs, volumeNames, mounts, i, j);
        if mounts[j].mountPath == "" {
          EmptyPathIsTop(mounts[j], mounts[i]);
          j := j + 1;
          continue;
        }
        var path1, path2 := Clean(mounts[i].mountPath), Clean(mounts[j].mountPath);
        if path1 == path2 {
          j := j + 1;
          continue;
        }
        if SlashPrefix(path1, path2) {
          errs := errs + [NestedUnder(j, i)];
        } else if SlashPrefix(path2, path1) {
          errs := errs + [NestedUnder(i, j)];
        }
        j := j + 1;
      }
      MountDone(errs, volumeNames, mounts, i);
      i := i + 1;
    }
    AllDue(errs, volumeNames, mounts);
    DisjointKinds(volumeNames, mounts);
    OrderSize(errs, UnknownVolumes(volumeNames, mounts) + NestedPairs(mounts));
  }

  lemma VolumeStep(errs: seq<MountError>, volumes: set<string>, mounts: seq<VolumeMount>, i: nat)
    requires i < |mounts| && ReportsExactly(errs, volumes, mounts, i, 0)
    ensures ReportsExactly(if mounts[i].name !in volumes then errs + [UnknownVolume(i)] else errs, volumes, mounts, i, i + 1)
  {
    forall e
      ensures Due(volumes, mounts, i, i + 1, e) <==>
                Due(volumes, mounts, i, 0, e) || (e == UnknownVolume(i) && mounts[i].name !in volumes)
      ensures !Due(volumes, mounts, i, 0, UnknownVolume(i))
    {
      NextMountIsDue(volumes, mounts, i, e);
    }
    if mounts[i].name !in volumes {
      ReportOne(errs, volumes, mounts, i, 0, UnknownVolume(i), i, i + 1);
    }
  }

  /** The error for a pair of mounts, if any: by then it is known that not both tests hold. */
  function PairErrors(mounts: seq<VolumeMount>, i: nat, j: nat): seq<MountError>
    requires i < |mounts| && j < |mounts|
  {
    if TestsNested(mounts[j], mounts[i]) then [NestedUnder(j, i)]
    else if TestsNested(mounts[i], mounts[j]) then [NestedUnder(i, j)]
    else []
  }

  lemma PairStep(errs: seq<MountError>, volumes: set<string>, mounts: seq<VolumeMount>, i: nat, j: nat)
    requires i < j < |mounts| && ReportsExactly(errs, volumes, mounts, i, j)
    ensures ReportsExactly(errs + PairErrors(mounts, i, j), volumes, mounts, i, j + 1)
    ensures mounts[j].mountPath == "" ==> errs + PairErrors(mounts, i, j) == errs
    ensures errs + [] == errs
  {
    NestingIsOneWay(mounts[i], mounts[j]);
    if mounts[j].mountPath == "" {
      EmptyPathIsTop(mounts[j], mounts[i]);
    }
    forall e
      ensures Due(volumes, mounts, i, j + 1, e) <==> Due(volumes, mounts, i, j, e) || e in PairErrors(mounts, i, j)
      ensures !Due(volumes, mounts, i, j, NestedUnder(j, i)) && !Due(volumes, mounts, i, j, NestedUnder(i, j))
    {
      PairIsDueOnce(volumes, mounts, i, j, e);
    }
    if PairErrors(mounts, i, j) != [] {
      ReportOne(errs, volumes, mounts, i, j, PairErrors(mounts, i, j)[0], i, j + 1);
      assert PairErrors(mounts, i, j) == [PairErrors(mounts, i, j)[0]];
    }
  }

  lemma MountDone(errs: seq<MountError>, volumes: set<string>, mounts: seq<VolumeMount>, i: nat)
    requires i < |mounts| && ReportsExactly(errs, volumes, mounts, i, |mounts|)
    ensures ReportsExactly(errs, volumes, mounts, i + 1, 0)
  {
    forall e
      ensures Due(volumes, mounts, i, |mounts|, e) <==> Due(volumes, mounts, i + 1, 0, e)
    {
      NextMountIsDue(volumes, mounts, i, e);
    }
  }

  lemma AllDue(errs: seq<MountError>, volumes: set<string>, mounts: seq<VolumeMount>)
    requires ReportsExactly(errs, volumes, mounts, |mounts|, 0)
    ensures IsOrder(errs, UnknownVolumes(volumes, mounts) + NestedPairs(mounts))
  {
    forall e
      ensures Due(volumes, mounts, |mounts|, 0, e) <==> e in UnknownVolumes(volumes, mounts) + NestedPairs(mounts)
    {
    }
  }

  lemma DisjointKinds(volumes: set<string>, mounts: seq<VolumeMount>)
    ensures |UnknownVolumes(volumes, mounts) + NestedPairs(mounts)| == |UnknownVolumes(volumes, mounts)| + |NestedPairs(mounts)|
  {
    assert UnknownVolumes(volumes, mounts) !! NestedPairs(mounts);
  }

  // ---------------------------------------------------------------- what acceptance means

  /** No error is reported. */
  ghost predicate Accepted(volumes: set<string>, mounts: seq<VolumeMount>) {
    UnknownVolumes(volumes, mounts) + NestedPairs(mounts) == {}
  }

  /**
    Acceptance decided: exactly when every mount names a declared volume and
    no mount is nested under another one that is not at the top.
   */
  lemma AcceptedIff(volumes: set<string>, mounts: seq<VolumeMount>)
    ensures Accepted(volumes, mounts) <==>
              && (forall m <- mounts :: m.name in volumes)
              && (forall m, n :: m in mounts && n in mounts && IsNested(m, n) ==> IsTop(n))
  {
    if Accepted(volumes, mounts) {
      forall m | m in mounts
        ensures m.name in volumes
      {
        var k :| 0 <= k < |mounts| && mounts[k] == m;
        assert UnknownVolume(k) !in UnknownVolumes(volumes, mounts);
      }
      forall m, n | m in mounts && n in mounts && IsNested(m, n)
        ensures IsTop(n)
      {
        var c :| 0 <= c < |mounts| && mounts[c] == m;
        var p :| 0 <= p < |mounts| && mounts[p] == n;
        assert NestedUnder(c, p) !in NestedPairs(mounts);
        TestFindsNestingBelowTop(m, n);
      }
    } else {
      var e :| e in UnknownVolumes(volumes, mounts) + NestedPairs(mounts);
      match e {
        case UnknownVolume(k) => assert mounts[k] in mounts;
        case NestedUnder(c, p) =>
          TestFindsNestingBelowTop(mounts[c], mounts[p]);
          assert mounts[c] in mounts && mounts[p] in mounts;
      }
    }
  }

  /** The order of the mounts, and repetitions among them, do not matter for acceptance. */
  lemma AcceptanceDependsOnTheSet(volumes: set<string>, mounts: seq<VolumeMount>, mounts': seq<VolumeMount>)
    requires forall m :: m in mounts <==> m in mounts'
    ensures Accepted(volumes, mounts) <==> Accepted(volumes, mounts')
  {
    AcceptedIff(volumes, mounts);
    AcceptedIff(volumes, mounts');
  }

  lemma ParseRoot()
    ensures Parse("/") == CleanPath(true, [])
  {
    assert "/"[1..] == "";
    assert Split("/") == [""] + Split("") == ["", ""];
    assert Normalize(true, [], ["", ""]) == Normalize(true, [], [""]) == [];
  }

  lemma ParseData()
    ensures Parse("/data") == CleanPath(true, ["data"])
  {
    SplitOne("data");
    SplitFirst("", "data");
    assert "" + "/" + "data" == "/data";
    assert ["", "data"][1..] == ["data"];
    assert Normalize(true, [], ["", "data"]) == Normalize(true, [], ["data"]) == ["data"];
  }

  /** A mount at the root is where the test falls short: this list is nested, and accepted. */
  lemma RootMountIsMissed()
    ensures
      var root, data := VolumeMount("a", "/"), VolumeMount("b", "/data");
      IsNested(data, root) && Accepted({"a", "b"}, [root, data])
  {
    var root, data := VolumeMount("a", "/"), VolumeMount("b", "/data");
    ParseRoot();
    ParseData();
    AcceptedIff({"a", "b"}, [root, data]);
    assert !IsNested(root, data) && !IsNested(root, root) && !IsNested(data, data);
  }

  // ---------------------------------------------------------------- permutations

  ghost predicate IsPermutation(p: seq<nat>, n: nat) {
    && |p| == n
    && (forall i :: 0 <= i < n ==> p[i] < n)
    && forall i, j :: 0 <= i < j < n ==> p[i] != p[j]
  }

  lemma {:induction false} MappedSize(s: set<MountError>, f: MountError -> MountError, t: set<MountError>)
    requires forall e <- s :: f(e) in t
    requires forall d, e :: d in s && e in s && f(d) == f(e) ==> d == e
    ensures |s| <= |t|
  {
    if s != {} {
      var e :| e in s;
      MappedSize(s - {e}, f, t - {f(e)});
    }
  }

  /** Listing the mounts in another order can only move errors, not add any. */
  lemma PermutingAddsNoErrors(mounts: seq<VolumeMount>, mounts': seq<VolumeMount>, p: seq<nat>)
    requires IsPermutation(p, |mounts|) && |mounts'| == |mounts|
    requires forall i :: 0 <= i < |mounts| ==> mounts'[i] == mounts[p[i]]
    ensures |NestedPairs(mounts')| <= |NestedPairs(mounts)|
  {
    var n := |mounts|;
    var f := (e: MountError) =>
      if e.NestedUnder? && e.inner < n && e.outer < n && n == |p| then NestedUnder(p[e.inner], p[e.outer]) else e;
    MappedSize(NestedPairs(mounts'), f, NestedPairs(mounts));
  }

  function Below(n: nat): (r: set<nat>)
    ensures |r| == n
    ensures forall i: nat :: i in r <==> i < n
  {
    if n == 0 then {} else Below(n - 1) + {n - 1}
  }

  lemma {:induction false} ValuesSize(p: seq<nat>)
    requires forall i, j :: 0 <= i < j < |p| ==> p[i] != p[j]
    ensures |set i | 0 <= i < |p| :: p[i]| == |p|
  {
    if p != [] {
      var n := |p| - 1;
      ValuesSize(p[..n]);
      var before := set i | 0 <= i < n :: p[..n][i];
      assert (set i | 0 <= i < |p| :: p[i]) == before + {p[n]};
      assert p[n] !in before;
    }
  }

  /** A permutation reaches every position. */
  lemma PositionOf(p: seq<nat>, n: nat, v: nat) returns (i: nat)
    requires IsPermutation(p, n) && v < n
    ensures i < n && p[i] == v
  {
    var values := set i | 0 <= i < |p| :: p[i];
    ValuesSize(p);
    SubsetSize(values, Below(n));
    assert v in values;
    i :| 0 <= i < n && p[i] == v;
  }

  /** The number of nesting errors is the same for every order of the mounts. */
  lemma ErrorCountIgnoresOrder(mounts: seq<VolumeMount>, mounts': seq<VolumeMount>, p: seq<nat>)
    requires IsPermutation(p, |mounts|) && |mounts'| == |mounts|
    requires forall i :: 0 <= i < |mounts| ==> mounts'[i] == mounts[p[i]]
    ensures |NestedPairs(mounts')| == |NestedPairs(mounts)|
  {
    var n := |mounts|;
    PermutingAddsNoErrors(mounts, mounts', p);
    var q: seq<nat> := [];
    while |q| < n
      invariant |q| <= n
      invariant forall v :: 0 <= v < |q| ==> q[v] < n && p[q[v]] == v
    {
      var i := PositionOf(p, n, |q|);
      q := q + [i];
    }
    PermutingAddsNoErrors(mounts', mounts, q);
  }
}
