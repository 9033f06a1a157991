/**
  The environment of the agent container: the variables the operator derives
  from the spec, and their merge with the ones the user gives.
 */
module AgentConfig {
  import opened Api

  // ---------------------------------------------------------------- names in order

  /** The order of Go strings: the first difference decides, and a proper prefix comes first. */
  predicate Before(a: string, b: string) {
    if b == "" then false
    else if a == "" then true
    else if a[0] != b[0] then a[0] < b[0]
    else Before(a[1..], b[1..])
  }

  lemma {:induction false} BeforeIsTotal(a: string, b: string)
    ensures a == b <==> !Before(a, b) && !Before(b, a)
    ensures !(Before(a, b) && Before(b, a))
  {
    if a != "" && b != "" && a[0] == b[0] {
      BeforeIsTotal(a[1..], b[1..]);
      assert a == [a[0]] + a[1..] && b == [b[0]] + b[1..];
    }
  }

  lemma {:induction false} BeforeIsTransitive(a: string, b: string, c: string)
    requires Before(a, b) && Before(b, c)
    ensures Before(a, c)
  {
    if a != "" && a[0] == b[0] == c[0] {
      BeforeIsTransitive(a[1..], b[1..], c[1..]);
    }
  }

  ghost predicate Ascending(vars: seq<EnvVar>) {
    forall i, j :: 0 <= i < j < |vars| ==> !Before(vars[j].name, vars[i].name)
  }

  ghost predicate StrictlyAscending(vars: seq<EnvVar>) {
    forall i, j :: 0 <= i < j < |vars| ==> Before(vars[i].name, vars[j].name)
  }

  ghost predicate DistinctNames(vars: seq<EnvVar>) {
    forall i, j :: 0 <= i < j < |vars| ==> vars[i].name != vars[j].name
  }

  ghost function Names(vars: seq<EnvVar>): set<string> {
    set v | v in vars :: v.name
  }

  // ---------------------------------------------------------------- sorting

  function Insert(v: EnvVar, vars: seq<EnvVar>): seq<EnvVar> {
    if vars == [] || !Before(vars[0].name, v.name) then [v] + vars else [vars[0]] + Insert(v, vars[1..])
  }

  /** Stands for the library sort: any sort by name gives a permutation that ascends. */
  function SortByName(vars: seq<EnvVar>): seq<EnvVar> {
    if vars == [] then [] else Insert(vars[0], SortByName(vars[1..]))
  }

  lemma {:induction false} InsertKeepsAscending(v: EnvVar, vars: seq<EnvVar>)
    requires Ascending(vars)
    ensures Ascending(Insert(v, vars))
    ensures multiset(Insert(v, vars)) == multiset(vars) + multiset{v}
  {
    if vars == [] || !Before(vars[0].name, v.name) {
      forall j | 0 <= j < |vars|
        ensures !Before(vars[j].name, v.name)
      {
        if j > 0 {
          NotBeforeIsTransitive(v.name, vars[0].name, vars[j].name);
        }
      }
    } else {
      InsertKeepsAscending(v, vars[1..]);
      var rest := Insert(v, vars[1..]);
      assert vars == [vars[0]] + vars[1..];
      forall j | 0 <= j < |rest|
        ensures !Before(rest[j].name, vars[0].name)
      {
        assert rest[j] in multiset(rest);
        assert rest[j] == v || rest[j] in vars[1..];
        BeforeIsTotal(vars[0].name, v.name);
      }
    }
  }

  lemma NotBeforeIsTransitive(a: string, b: string, c: string)
    requires !Before(b, a) && !Before(c, b)
    ensures !Before(c, a)
  {
    BeforeIsTotal(a, b);
    BeforeIsTotal(b, c);
    if Before(a, b) && Before(b, c) {
      BeforeIsTransitive(a, b, c);
    }
    BeforeIsTotal(a, c);
  }

  lemma {:induction false} SortSorts(vars: seq<EnvVar>)
    ensures Ascending(SortByName(vars))
    ensures multiset(SortByName(vars)) == multiset(vars)
  {
    if vars != [] {
      SortSorts(vars[1..]);
      InsertKeepsAscending(vars[0], SortByName(vars[1..]));
      assert vars == [vars[0]] + vars[1..];
    }
  }

  // ---------------------------------------------------------------- the merge

  /** The user's last word on a name. */
  function LastEntry(vars: seq<EnvVar>, name: string): Option<EnvVar> {
    if vars == [] then None
    else if vars[|vars| - 1].name == name then Some(vars[|vars| - 1])
    else LastEntry(vars[..|vars| - 1], name)
  }

  /**
    What a merge is, without saying how it is made: the names of both lists,
    each once, in order; the user's last entry for a name if there is one,
    else the template's entry.
   */
  ghost predicate IsMerge(template: seq<EnvVar>, user: seq<EnvVar>, merged: seq<EnvVar>) {
    && StrictlyAscending(merged)
    && Names(merged) == Names(template) + Names(user)
    && forall v <- merged :: if v.name in Names(user) then LastEntry(user, v.name) == Some(v) else v in template
  }

  lemma {:induction false} LastEntryIsAnEntry(vars: seq<EnvVar>, name: string)
    ensures LastEntry(vars, name).Some? <==> name in Names(vars)
    ensures LastEntry(vars, name).Some? ==> LastEntry(vars, name).value in vars && LastEntry(vars, name).value.name == name
  {
    if vars != [] {
      LastEntryIsAnEntry(vars[..|vars| - 1], name);
      assert vars == vars[..|vars| - 1] + [vars[|vars| - 1]];
    }
  }

  lemma DistinctNamesDecide(vars: seq<EnvVar>, v: EnvVar, w: EnvVar)
    requires DistinctNames(vars) && v in vars && w in vars && v.name == w.name
    ensures v == w
  {
    var i :| 0 <= i < |vars| && vars[i] == v;
    var j :| 0 <= j < |vars| && vars[j] == w;
    assert !(i < j) && !(j < i);
  }

  /** Two merges of the same lists hold the same entries. */
  lemma MergesHaveTheSameEntries(template: seq<EnvVar>, user: seq<EnvVar>, a: seq<EnvVar>, b: seq<EnvVar>, v: EnvVar)
    requires DistinctNames(template) && IsMerge(template, user, a) && IsMerge(template, user, b)
    requires v in a
    ensures v in b
  {
    assert v.name in Names(b);
    var w :| w in b && w.name == v.name;
    if v.name !in Names(user) {
      DistinctNamesDecide(template, v, w);
    }
  }

  /** Strictly ascending lists with the same entries are the same list. */
  lemma {:induction false} AscendingIsUnique(a: seq<EnvVar>, b: seq<EnvVar>)
    requires StrictlyAscending(a) && StrictlyAscending(b)
    requires forall v :: v in a <==> v in b
    ensures a == b
  {
    if a != [] && b != [] {
      HeadIsLeast(a, b);
      forall v
        ensures v in a[1..] <==> v in b[1..]
      {
        TailHasTheRest(a, v);
        TailHasTheRest(b, v);
      }
      AscendingIsUnique(a[1..], b[1..]);
      assert a == [a[0]] + a[1..] && b == [b[0]] + b[1..];
    } else {
      EmptyOrInhabited(a);
      EmptyOrInhabited(b);
    }
  }

  lemma EmptyOrInhabited(vars: seq<EnvVar>)
    ensures vars == [] || exists v :: v in vars
  {
    if vars != [] {
      assert vars[0] in vars;
    }
  }

  lemma HeadIsLeast(a: seq<EnvVar>, b: seq<EnvVar>)
    requires StrictlyAscending(a) && StrictlyAscending(b) && a != [] && b != []
    requires forall v :: v in a <==> v in b
    ensures a[0] == b[0]
  {
    assert a[0] in b && b[0] in a;
    var i :| 0 <= i < |a| && a[i] == b[0];
    var j :| 0 <= j < |b| && b[j] == a[0];
    BeforeIsTotal(a[0].name, b[0].name);
  }

  lemma TailHasTheRest(a: seq<EnvVar>, v: EnvVar)
    requires StrictlyAscending(a) && a != []
    ensures v in a[1..] <==> v in a && v != a[0]
  {
    BeforeIsTotal(a[0].name, a[0].name);
    assert a == [a[0]] + a[1..];
  }

  /** There is one merge, whatever the order in which maps are ranged over. */
  lemma MergeIsUnique(template: seq<EnvVar>, user: seq<EnvVar>, a: seq<EnvVar>, b: seq<EnvVar>)
    requires DistinctNames(template) && IsMerge(template, user, a) && IsMerge(template, user, b)
    ensures a == b
  {
    forall v
      ensures v in a <==> v in b
    {
      if v in a {
        MergesHaveTheSameEntries(template, user, a, b, v);
      }
      if v in b {
        MergesHaveTheSameEntries(template, user, b, a, v);
      }
    }
    AscendingIsUnique(a, b);
  }

  lemma StrictlyAscendingIsDistinct(vars: seq<EnvVar>)
    requires StrictlyAscending(vars)
    ensures DistinctNames(vars)
  {
    forall i, j | 0 <= i < j < |vars|
      ensures vars[i].name != vars[j].name
    {
      BeforeIsTotal(vars[i].name, vars[j].name);
    }
  }

  /** Merging the result with the same user entries again gives it back. */
  lemma MergeIsIdempotent(template: seq<EnvVar>, user: seq<EnvVar>, merged: seq<EnvVar>, again: seq<EnvVar>)
    requires IsMerge(template, user, merged) && IsMerge(merged, user, again)
    ensures again == merged
  {
    StrictlyAscendingIsDistinct(merged);
    assert Names(merged) + Names(user) == Names(merged);
    MergeIsUnique(merged, user, merged, again);
  }

  // ---------------------------------------------------------------- the merge by places and code points

  /** The names agree up to some place; there the first one ends, or has the smaller code point. */
  ghost predicate IsSmaller(a: string, b: string) {
    exists n :: 0 <= n <= |a| && n < |b| && a[..n] == b[..n] && (n == |a| || a[n] as int < b[n] as int)
  }

  lemma {:induction false} BeforeMeansSmaller(a: string, b: string)
    requires Before(a, b)
    ensures IsSmaller(a, b)
  {
    if a == "" || a[0] != b[0] {
      assert a[..0] == b[..0];
    } else {
      BeforeMeansSmaller(a[1..], b[1..]);
      var n :| 0 <= n <= |a[1..]| && n < |b[1..]| && a[1..][..n] == b[1..][..n] && (n == |a[1..]| || a[1..][n] as int < b[1..][n] as int);
      assert a[..n + 1] == [a[0]] + a[1..][..n] && b[..n + 1] == [b[0]] + b[1..][..n];
    }
  }

  /** No later entry has this one's name. */
  predicate IsLastEntry(vars: seq<EnvVar>, i: int) {
    0 <= i < |vars| && forall j :: i < j < |vars| ==> vars[j].name != vars[i].name
  }

  lemma {:induction false} LastEntryByPlace(vars: seq<EnvVar>, i: int)
    requires IsLastEntry(vars, i)
    ensures LastEntry(vars, vars[i].name) == Some(vars[i])
  {
    if i < |vars| - 1 {
      LastEntryByPlace(vars[..|vars| - 1], i);
    }
  }

  /** Every template entry whose name the user does not have, and no names but those of both. */
  ghost predicate KeepsTemplate(template: seq<EnvVar>, user: seq<EnvVar>, merged: seq<EnvVar>) {
    && (forall v <- template :: v.name in Names(user) || v in merged)
    && (forall v <- merged :: v.name in Names(template) || v.name in Names(user))
  }

  /** The template overlaid with the last entry of each name the user has, in the order of code points. */
  ghost predicate IsOverlay(template: seq<EnvVar>, user: seq<EnvVar>, merged: seq<EnvVar>) {
    && KeepsTemplate(template, user, merged)
    && (forall i :: IsLastEntry(user, i) ==> user[i] in merged)
    && (forall i, j :: 0 <= i < j < |merged| ==> IsSmaller(merged[i].name, merged[j].name))
  }

  lemma MergeIsOverlay(template: seq<EnvVar>, user: seq<EnvVar>, merged: seq<EnvVar>)
    requires DistinctNames(template) && IsMerge(template, user, merged)
    ensures IsOverlay(template, user, merged)
  {
    forall i, j | 0 <= i < j < |merged|
      ensures IsSmaller(merged[i].name, merged[j].name)
    {
      BeforeMeansSmaller(merged[i].name, merged[j].name);
    }
    forall i | IsLastEntry(user, i)
      ensures user[i] in merged
    {
      LastEntryByPlace(user, i);
      assert user[i].name in Names(user) && user[i].name in Names(merged);
      var v :| v in merged && v.name == user[i].name;
    }
    forall v | v in template && v.name !in Names(user)
      ensures v in merged
    {
      assert v.name in Names(merged);
      var w :| w in merged && w.name == v.name;
      DistinctNamesDecide(template, v, w);
    }
    forall v | v in merged
      ensures v.name in Names(template) || v.name in Names(user)
    {
      assert v.name in Names(merged);
    }
  }

  function UserMap(user: seq<EnvVar>): map<string, EnvVar> {
    if user == [] then map[] else UserMap(user[..|user| - 1])[user[|user| - 1].name := user[|user| - 1]]
  }

  lemma {:induction false} UserMapIsLastEntry(user: seq<EnvVar>, name: string)
    ensures name in UserMap(user) <==> LastEntry(user, name).Some?
    ensures name in UserMap(user) ==> LastEntry(user, name) == Some(UserMap(user)[name]) && UserMap(user)[name].name == name
  {
    if user != [] {
      UserMapIsLastEntry(user[..|user| - 1], name);
    }
  }

  /** A permutation by name of entries that are right one by one is the merge. */
  lemma SortedEntriesAreTheMerge(template: seq<EnvVar>, user: seq<EnvVar>, entries: seq<EnvVar>, sorted: seq<EnvVar>)
    requires DistinctNames(entries) && Names(entries) == Names(template) + Names(user)
    requires forall v <- entries :: if v.name in Names(user) then LastEntry(user, v.name) == Some(v) else v in template
    requires Ascending(sorted) && multiset(sorted) == multiset(entries)
    ensures IsMerge(template, user, sorted)
  {
    forall v
      ensures v in sorted <==> v in entries
    {
      assert v in sorted <==> v in multiset(sorted);
      assert v in entries <==> v in multiset(entries);
    }
    assert Names(sorted) == Names(entries);
    forall i, j | 0 <= i < j < |sorted|
      ensures Before(sorted[i].name, sorted[j].name)
    {
      BeforeIsTotal(sorted[i].name, sorted[j].name);
      if sorted[i].name == sorted[j].name {
        TwiceInOne(entries, sorted, i, j);
      }
    }
  }

  lemma TwiceInOne(entries: seq<EnvVar>, sorted: seq<EnvVar>, i: nat, j: nat)
    requires DistinctNames(entries) && multiset(sorted) == multiset(entries)
    requires i < j < |sorted|
    ensures sorted[i].name != sorted[j].name
  {
    var v, w := sorted[i], sorted[j];
    assert v in multiset(sorted) && w in multiset(sorted);
    if v.name == w.name {
      DistinctNamesDecide(entries, v, w);
      assert sorted == sorted[..i] + [v] + sorted[i + 1..j] + [w] + sorted[j + 1..];
      assert multiset(sorted)[v] >= 2;
      OnceInDistinct(entries, v);
    }
  }

  lemma {:induction false} OnceInDistinct(vars: seq<EnvVar>, v: EnvVar)
    requires DistinctNames(vars)
    ensures multiset(vars)[v] <= 1
  {
    if vars != [] {
      assert vars == [vars[0]] + vars[1..];
      OnceInDistinct(vars[1..], v);
      if v == vars[0] {
        assert v !in vars[1..];
        assert v !in multiset(vars[1..]);
      }
    }
  }

  /** Every entry is the user's last one for its name, or the template's if the user has none. */
  ghost predicate RightEntries(template: seq<EnvVar>, all: map<string, EnvVar>, entries: seq<EnvVar>) {
    forall v <- entries :: if v.name in all then all[v.name] == v else v in template
  }

  method MakeUserMap(user: seq<EnvVar>) returns (userEnvMap: map<string, EnvVar>)
    ensures userEnvMap == UserMap(user)
  {
    userEnvMap := map[];
    var i := 0;
    while i < |user|
      invariant 0 <= i <= |user|
      invariant userEnvMap == UserMap(user[..i])
    {
      assert user[..i + 1][..i] == user[..i];
      userEnvMap := userEnvMap[user[i].name := user[i]];
      i := i + 1;
    }
    assert user[..i] == user;
  }

  /** The template's entries with overrides; `rest` is what is left of the user's map. */
  method OverrideTemplate(template: seq<EnvVar>, user: seq<EnvVar>, userEnvMap: map<string, EnvVar>)
    returns (result: seq<EnvVar>, rest: map<string, EnvVar>)
    requires userEnvMap == UserMap(user)
    ensures rest == userEnvMap - Names(template)
    ensures |result| == |template| && forall j :: 0 <= j < |result| ==> result[j].name == template[j].name
    ensures DistinctNames(template) ==> RightEntries(template, userEnvMap, result)
  {
    result, rest := [], userEnvMap;
    var i := 0;
    while i < |template|
      invariant 0 <= i <= |template|
      invariant rest == userEnvMap - Names(template[..i])
      invariant |result| == i && forall j :: 0 <= j < i ==> result[j].name == template[j].name
      invariant DistinctNames(template) ==> RightEntries(template, userEnvMap, result)
    {
      var templateEnv := template[i];
      assert template[..i + 1] == template[..i] + [templateEnv];
      assert Names(template[..i + 1]) == Names(template[..i]) + {templateEnv.name};
      UserMapIsLastEntry(user, templateEnv.name);
      if templateEnv.name in rest {
        result := result + [rest[templateEnv.name]];
        rest := rest - {templateEnv.name};
      } else {
        if DistinctNames(template) {
          NewName(template, i);
        }
        result := result + [templateEnv];
      }
      i := i + 1;
    }
    assert template[..i] == template;
  }

  /** Appends what is left of the user's map, in whatever order ranging over it gives. */
  method AppendRest(overridden: seq<EnvVar>, rest: map<string, EnvVar>) returns (result: seq<EnvVar>)
    requires forall n <- rest :: rest[n].name == n
    requires rest.Keys !! Names(overridden)
    ensures Names(result) == Names(overridden) + rest.Keys
    ensures DistinctNames(overridden) ==> DistinctNames(result)
    ensures forall v <- result :: v in overridden || (v.name in rest && rest[v.name] == v)
  {
    result := overridden;
    var left := rest;
    while left != map[]
      invariant left.Keys <= rest.Keys && forall n <- left :: left[n] == rest[n]
      invariant Names(result) == Names(overridden) + (rest.Keys - left.Keys)
      invariant DistinctNames(overridden) ==> DistinctNames(result)
      invariant forall v <- result :: v in overridden || (v.name in rest && rest[v.name] == v)
      decreases left.Keys
    {
      var name :| name in left;
      ghost var before := result;
      if DistinctNames(overridden) {
        AppendKeepsDistinct(before, left[name]);
      }
      result := result + [left[name]];
      assert Names(result) == Names(before) + {name};
      left := left - {name};
    }
  }

  lemma NamesOfSameLength(a: seq<EnvVar>, b: seq<EnvVar>)
    requires |a| == |b| && forall j :: 0 <= j < |a| ==> a[j].name == b[j].name
    ensures Names(a) == Names(b)
    ensures DistinctNames(a) <==> DistinctNames(b)
  {
    assert forall j :: 0 <= j < |a| ==> a[j] in a && b[j] in b;
  }

  /**
    The controller's merge: a map of the user's entries, from which every
    override is taken out while the template is copied; what is left is
    appended; then the library sort.
   */
  method MergeEnvironmentVariables(template: seq<EnvVar>, user: seq<EnvVar>) returns (result: seq<EnvVar>)
    ensures Ascending(result)
    ensures Names(result) == Names(template) + Names(user)
    ensures DistinctNames(template) ==> IsMerge(template, user, result) && IsOverlay(template, user, result)
  {
    var userEnvMap := MakeUserMap(user);
    var rest;
    result, rest := OverrideTemplate(template, user, userEnvMap);
    NamesOfSameLength(result, template);
    forall n | n in userEnvMap
      ensures userEnvMap[n].name == n
    {
      UserMapIsLastEntry(user, n);
    }
    result := AppendRest(result, rest);
    UserNames(user);
    ghost var entries := result;
    result := SortByName(result);
    SortSorts(entries);
    SameNames(entries, result);
    if DistinctNames(template) {
      forall v | v in entries
        ensures if v.name in Names(user) then LastEntry(user, v.name) == Some(v) else v in template
      {
        UserMapIsLastEntry(user, v.name);
      }
      SortedEntriesAreTheMerge(template, user, entries, result);
      MergeIsOverlay(template, user, result);
    }
  }

  lemma SameNames(a: seq<EnvVar>, b: seq<EnvVar>)
    requires multiset(a) == multiset(b)
    ensures Names(a) == Names(b)
  {
    forall v
      ensures v in a <==> v in b
    {
      assert v in a <==> v in multiset(a);
      assert v in b <==> v in multiset(b);
    }
  }

  lemma AppendKeepsDistinct(vars: seq<EnvVar>, v: EnvVar)
    requires DistinctNames(vars) && v.name !in Names(vars)
    ensures DistinctNames(vars + [v])
  {
    forall i | 0 <= i < |vars|
      ensures vars[i].name != v.name
    {
      assert vars[i].name in Names(vars);
    }
  }

  lemma NewName(vars: seq<EnvVar>, i: nat)
    requires DistinctNames(vars) && i < |vars|
    ensures vars[i].name !in Names(vars[..i])
  {
  }

  lemma UserNames(user: seq<EnvVar>)
    ensures UserMap(user).Keys == Names(user)
  {
    forall n
      ensures n in UserMap(user) <==> n in Names(user)
    {
      UserMapIsLastEntry(user, n);
      LastEntryIsAnEntry(user, n);
    }
  }
}
