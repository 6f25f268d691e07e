/** The department part of a directory snapshot check: unique ids, known parents
    and a parent walk that must end at a root. */
module DepartmentForest {
  import opened Options

  const MAX_DEPARTMENTS: nat := 1000

  datatype Department = Department(id: string, name: string, parent: Option<string>)

  type Index = map<string, Department>

  // ------------------------------------------------------------- ancestors

  /** The ancestor `n` levels up, if the chain is that long. */
  function Up(byId: Index, id: string, n: nat): Option<string>
    decreases n
  {
    if n == 0 then Some(id)
    else match Up(byId, id, n - 1) case None => None case Some(x) => if x in byId then byId[x].parent else None
  }

  predicate IsRoot(byId: Index, o: Option<string>) { o.Some? && o.value in byId && byId[o.value].parent.None? }

  ghost predicate ReachesRoot(byId: Index, id: string) { exists n: nat :: IsRoot(byId, Up(byId, id, n)) }

  ghost predicate CycleAt(byId: Index, id: string, n: nat) { id in byId && n >= 1 && Up(byId, id, n) == Some(id) }

  ghost predicate HasCycle(byId: Index) { exists id, n :: CycleAt(byId, id, n) }

  /** Every named parent is itself a department. */
  ghost predicate Closed(byId: Index) { forall id :: ParentKnown(byId, id) }

  predicate ParentKnown(byId: Index, id: string) {
    id in byId && byId[id].parent.Some? ==> byId[id].parent.value in byId
  }

  lemma {:induction false} UpAdds(byId: Index, id: string, a: nat, b: nat)
    requires Up(byId, id, a).Some?
    ensures Up(byId, id, a + b) == Up(byId, Up(byId, id, a).value, b)
    decreases b
  {
    if b > 0 { UpAdds(byId, id, a, b - 1); }
  }

  lemma {:induction false} UpStaysInside(byId: Index, id: string, n: nat)
    requires Closed(byId) && id in byId
    ensures Up(byId, id, n).Some? ==> Up(byId, id, n).value in byId
    decreases n
  {
    if n > 0 {
      UpStaysInside(byId, id, n - 1);
      if Up(byId, id, n - 1).Some? { assert ParentKnown(byId, Up(byId, id, n - 1).value); }
    }
  }

  /** Once a chain has returned to an earlier stop it repeats from there. */
  lemma {:induction false} Repeats(byId: Index, id: string, i: nat, k: nat, n: nat)
    requires i < k <= n && Up(byId, id, i) == Up(byId, id, k)
    ensures Up(byId, id, n) == Up(byId, id, n - (k - i))
    decreases n
  {
    if n > k { Repeats(byId, id, i, k, n - 1); }
  }

  /** ... and so never ends at a root. */
  lemma {:induction false} RepeatingHasNoRoot(byId: Index, id: string, i: nat, k: nat, n: nat)
    requires i < k && Up(byId, id, i) == Up(byId, id, k)
    requires forall j: nat :: j < k ==> !IsRoot(byId, Up(byId, id, j))
    ensures !IsRoot(byId, Up(byId, id, n))
    decreases n
  {
    if n >= k {
      Repeats(byId, id, i, k, n);
      RepeatingHasNoRoot(byId, id, i, k, n - (k - i));
    }
  }

  lemma {:induction false} NoRootBelow(byId: Index, id: string, j: nat, n: nat)
    requires j < n && Up(byId, id, n).Some?
    ensures !IsRoot(byId, Up(byId, id, j))
    decreases n
  {
    if j < n - 1 { NoRootBelow(byId, id, j, n - 1); }
  }

  lemma CycleHasNoRoot(byId: Index, id: string, n: nat)
    requires CycleAt(byId, id, n)
    ensures !ReachesRoot(byId, id)
  {
    forall j: nat | j < n ensures !IsRoot(byId, Up(byId, id, j)) { NoRootBelow(byId, id, j, n); }
    forall m: nat ensures !IsRoot(byId, Up(byId, id, m)) { RepeatingHasNoRoot(byId, id, 0, n, m); }
  }

  /** Two stops of a chain agree only if there is a cycle. */
  lemma RepeatIsCycle(byId: Index, id: string, i: nat, k: nat)
    requires Closed(byId) && id in byId && i < k && Up(byId, id, i).Some? && Up(byId, id, i) == Up(byId, id, k)
    ensures CycleAt(byId, Up(byId, id, i).value, k - i)
  {
    UpAdds(byId, id, i, k - i);
    UpStaysInside(byId, id, i);
  }

  ghost predicate Stops(byId: Index, id: string, visited: set<string>, k: nat) {
    && (forall i: nat :: i < k ==> Up(byId, id, i).Some? && Up(byId, id, i).value in visited)
    && (forall x :: x in visited ==> exists i: nat :: i < k && Up(byId, id, i) == Some(x))
  }

  /** Without a cycle every stop is new, so a root comes before the departments
      run out. */
  lemma {:induction false} Climb(byId: Index, id: string, visited: set<string>, k: nat) returns (n: nat)
    requires Closed(byId) && id in byId && !HasCycle(byId)
    requires Stops(byId, id, visited, k) && visited <= byId.Keys && |visited| == k && Up(byId, id, k).Some?
    ensures n < |byId| && IsRoot(byId, Up(byId, id, n))
    decreases |byId| - k
  {
    var x := Up(byId, id, k).value;
    UpStaysInside(byId, id, k);
    if x in visited {
      var i: nat :| i < k && Up(byId, id, i) == Some(x);
      RepeatIsCycle(byId, id, i, k);
      assert false;
    }
    SubsetIsSmaller(visited + {x}, byId.Keys);
    if byId[x].parent.None? {
      n := k;
    } else {
      n := Climb(byId, id, visited + {x}, k + 1);
    }
  }

  lemma {:induction false} SubsetIsSmaller(a: set<string>, b: set<string>)
    requires a <= b
    ensures |a| <= |b|
    decreases a
  {
    if a != {} {
      var x :| x in a;
      SubsetIsSmaller(a - {x}, b - {x});
    }
  }

  ghost predicate ReachesRootWithin(byId: Index, id: string, bound: nat) {
    exists n: nat :: n < bound && IsRoot(byId, Up(byId, id, n))
  }

  lemma AcyclicReaches(byId: Index, id: string)
    requires Closed(byId) && id in byId && !HasCycle(byId)
    ensures ReachesRoot(byId, id) && ReachesRootWithin(byId, id, |byId|)
  {
    var n := Climb(byId, id, {}, 0);
  }

  ghost predicate AllReachRoot(byId: Index) { forall id :: id in byId ==> ReachesRoot(byId, id) }

  lemma CycleBlocksRoots(byId: Index)
    requires HasCycle(byId)
    ensures !AllReachRoot(byId)
  {
    var id, n :| CycleAt(byId, id, n);
    CycleHasNoRoot(byId, id, n);
  }

  ghost predicate AllReachRootWithin(byId: Index, bound: nat) {
    forall id :: id in byId ==> ReachesRootWithin(byId, id, bound)
  }

  lemma AcyclicReachesAll(byId: Index)
    requires Closed(byId) && !HasCycle(byId)
    ensures AllReachRoot(byId) && AllReachRootWithin(byId, |byId|)
  {
    forall id | id in byId ensures ReachesRoot(byId, id) && ReachesRootWithin(byId, id, |byId|) {
      AcyclicReaches(byId, id);
    }
  }

  /** With known parents, there is no cycle exactly when every department reaches
      a root, and then it does so in fewer steps than there are departments. */
  lemma AcyclicIsForest(byId: Index)
    requires Closed(byId)
    ensures !HasCycle(byId) <==> AllReachRoot(byId)
    ensures !HasCycle(byId) ==> AllReachRootWithin(byId, |byId|)
  {
    if HasCycle(byId) {
      CycleBlocksRoots(byId);
    } else {
      AcyclicReachesAll(byId);
    }
  }

  /** The root a department reaches is its only one: the accepted departments
      split into trees. */
  lemma RootIsUnique(byId: Index, id: string, a: nat, b: nat)
    requires IsRoot(byId, Up(byId, id, a)) && IsRoot(byId, Up(byId, id, b))
    ensures a == b
  {
    if a < b { NoRootBelow(byId, id, a, b); }
    if b < a { NoRootBelow(byId, id, b, a); }
  }

  // ------------------------------------------------------------- the check

  predicate UniqueIds(ds: seq<Department>) { forall i, j :: 0 <= i < j < |ds| ==> ds[i].id != ds[j].id }

  function ById(ds: seq<Department>): Index
    decreases |ds|
  {
    if ds == [] then map[] else ById(ds[..|ds| - 1])[ds[|ds| - 1].id := ds[|ds| - 1]]
  }

  predicate IndexedAt(ds: seq<Department>, byId: Index, id: string, i: nat) {
    i < |ds| && ds[i].id == id && id in byId && byId[id] == ds[i]
  }

  lemma {:induction false} ByIdHolds(ds: seq<Department>)
    requires UniqueIds(ds)
    ensures forall i :: 0 <= i < |ds| ==> ds[i].id in ById(ds) && ById(ds)[ds[i].id] == ds[i]
    ensures forall id :: id in ById(ds) ==> exists i :: IndexedAt(ds, ById(ds), id, i)
    decreases |ds|
  {
    if ds != [] {
      var front := ds[..|ds| - 1];
      ByIdHolds(front);
      forall id | id in ById(ds) ensures exists i :: IndexedAt(ds, ById(ds), id, i) {
        if id == ds[|ds| - 1].id {
          assert IndexedAt(ds, ById(ds), id, |ds| - 1);
        } else {
          var i: nat :| IndexedAt(front, ById(front), id, i);
          assert IndexedAt(ds, ById(ds), id, i);
        }
      }
    }
  }

  predicate Exists(ds: seq<Department>, id: string) { exists i :: 0 <= i < |ds| && ds[i].id == id }

  lemma {:induction false} ByIdKeys(ds: seq<Department>, id: string)
    ensures id in ById(ds) <==> Exists(ds, id)
    decreases |ds|
  {
    if ds != [] {
      var front := ds[..|ds| - 1];
      ByIdKeys(front, id);
      if Exists(front, id) {
        var i :| 0 <= i < |front| && front[i].id == id;
        assert ds[i].id == id;
      }
      if Exists(ds, id) && id != ds[|ds| - 1].id {
        var i :| 0 <= i < |ds| && ds[i].id == id;
        assert front[i].id == id;
      }
    }
  }

  predicate AllWellFormed(ds: seq<Department>, wellFormed: Department -> bool) {
    forall i :: 0 <= i < |ds| ==> wellFormed(ds[i])
  }

  method CheckUnique(ds: seq<Department>, wellFormed: Department -> bool) returns (ok: bool)
    ensures ok <==> UniqueIds(ds) && AllWellFormed(ds, wellFormed)
  {
    var seen: set<string> := {};
    for i := 0 to |ds|
      invariant UniqueIds(ds[..i]) && forall j :: 0 <= j < i ==> wellFormed(ds[j])
      invariant forall j :: 0 <= j < i ==> ds[j].id in seen
      invariant forall id :: id in seen ==> exists j :: 0 <= j < i && ds[j].id == id
    {
      if !wellFormed(ds[i]) { return false; }
      if ds[i].id in seen {
        var j :| 0 <= j < i && ds[j].id == ds[i].id;
        return false;
      }
      seen := seen + {ds[i].id};
    }
    assert ds[..|ds|] == ds;
    return true;
  }

  method BuildIndex(ds: seq<Department>) returns (byId: Index)
    ensures byId == ById(ds)
  {
    byId := map[];
    for i := 0 to |ds|
      invariant byId == ById(ds[..i])
    {
      byId := byId[ds[i].id := ds[i]];
      assert ds[..i + 1][..i] == ds[..i];
    }
    assert ds[..|ds|] == ds;
  }

  /** A parent is canonical, not the department itself, and known. */
  predicate ParentOk(byId: Index, d: Department, canonical: string -> bool) {
    d.parent.Some? ==> canonical(d.parent.value) && d.parent.value != d.id && d.parent.value in byId
  }

  predicate ParentsOk(ds: seq<Department>, byId: Index, canonical: string -> bool) {
    forall i :: 0 <= i < |ds| ==> ParentOk(byId, ds[i], canonical)
  }

  method CheckParents(ds: seq<Department>, byId: Index, canonical: string -> bool) returns (ok: bool)
    ensures ok <==> ParentsOk(ds, byId, canonical)
  {
    for i := 0 to |ds|
      invariant forall j :: 0 <= j < i ==> ParentOk(byId, ds[j], canonical)
    {
      if ds[i].parent.Some? {
        if !canonical(ds[i].parent.value) || ds[i].parent.value == ds[i].id { return false; }
        if ds[i].parent.value !in byId { return false; }
      }
    }
    return true;
  }

  predicate AllIn(ids: seq<string>, byId: Index) { forall i :: 0 <= i < |ids| ==> ids[i] in byId }

  predicate MembersIn(members: seq<seq<string>>, byId: Index) {
    forall m :: 0 <= m < |members| ==> AllIn(members[m], byId)
  }

  method CheckMembers(members: seq<seq<string>>, byId: Index) returns (ok: bool)
    ensures ok <==> MembersIn(members, byId)
  {
    for m := 0 to |members|
      invariant forall l :: 0 <= l < m ==> AllIn(members[l], byId)
    {
      for i := 0 to |members[m]|
        invariant forall j :: 0 <= j < i ==> members[m][j] in byId
      {
        if members[m][i] !in byId { return false; }
      }
    }
    return true;
  }

  /** Walks from `start` towards the root; ends because every stop is new. */
  method Walk(byId: Index, start: string) returns (ok: bool)
    requires start in byId && Closed(byId)
    ensures ok <==> ReachesRoot(byId, start)
  {
    var visited: set<string> := {};
    var current := start;
    ghost var k: nat := 0;
    while true
      invariant Up(byId, start, k) == Some(current) && Stops(byId, start, visited, k) && visited <= byId.Keys
      invariant forall j: nat :: j < k ==> !IsRoot(byId, Up(byId, start, j))
      decreases byId.Keys - visited
    {
      if current in visited {
        ghost var i: nat :| i < k && Up(byId, start, i) == Some(current);
        forall n: nat ensures !IsRoot(byId, Up(byId, start, n)) { RepeatingHasNoRoot(byId, start, i, k, n); }
        return false;
      }
      UpStaysInside(byId, start, k);
      visited := visited + {current};
      var department := byId[current];
      if department.parent.None? { return true; }
      current := department.parent.value;
      k := k + 1;
    }
  }

  method CheckWalks(byId: Index) returns (ok: bool)
    requires Closed(byId)
    ensures ok <==> AllReachRoot(byId)
  {
    var left := byId.Keys;
    while left != {}
      invariant left <= byId.Keys
      invariant forall id :: id in byId && id !in left ==> ReachesRoot(byId, id)
    {
      var id :| id in left;
      var reaches := Walk(byId, id);
      if !reaches { return false; }
      left := left - {id};
    }
    return true;
  }

  ghost predicate ParentsExist(ds: seq<Department>) {
    forall i :: 0 <= i < |ds| && ds[i].parent.Some? ==> Exists(ds, ds[i].parent.value)
  }

  /** A list of departments is a forest: distinct ids, known parents, no cycle. */
  ghost predicate Forest(ds: seq<Department>) { UniqueIds(ds) && ParentsExist(ds) && !HasCycle(ById(ds)) }

  predicate Canonical(ds: seq<Department>, canonical: string -> bool) {
    forall i :: 0 <= i < |ds| && ds[i].parent.Some? ==> canonical(ds[i].parent.value)
  }

  predicate MembersKnown(ds: seq<Department>, members: seq<seq<string>>) {
    forall m, i :: 0 <= m < |members| && 0 <= i < |members[m]| ==> Exists(ds, members[m][i])
  }

  lemma MembersByIndex(ds: seq<Department>, members: seq<seq<string>>)
    ensures MembersKnown(ds, members) <==> MembersIn(members, ById(ds))
  {
    forall id ensures id in ById(ds) <==> Exists(ds, id) { ByIdKeys(ds, id); }
    if MembersIn(members, ById(ds)) {
      forall m, i | 0 <= m < |members| && 0 <= i < |members[m]| ensures Exists(ds, members[m][i]) {
        assert AllIn(members[m], ById(ds));
      }
    }
  }

  lemma ParentsAreKnown(ds: seq<Department>, canonical: string -> bool)
    requires UniqueIds(ds) && ParentsOk(ds, ById(ds), canonical)
    ensures Closed(ById(ds)) && ParentsExist(ds) && Canonical(ds, canonical)
  {
    ByIdHolds(ds);
    forall i | 0 <= i < |ds| && ds[i].parent.Some?
      ensures Exists(ds, ds[i].parent.value) && canonical(ds[i].parent.value)
    {
      assert ParentOk(ById(ds), ds[i], canonical);
      ByIdKeys(ds, ds[i].parent.value);
    }
    forall id ensures ParentKnown(ById(ds), id) {
      if id in ById(ds) {
        var i: nat :| IndexedAt(ds, ById(ds), id, i);
        assert ParentOk(ById(ds), ds[i], canonical);
      }
    }
  }

  lemma SelfParentIsCycle(byId: Index, id: string)
    requires id in byId && byId[id].parent == Some(id)
    ensures HasCycle(byId)
  {
    assert Up(byId, id, 0) == Some(id);
    assert CycleAt(byId, id, 1);
  }

  /** A department that is its own parent is the shortest cycle, so a forest passes
      the direct-parent test. */
  lemma ForestParentsOk(ds: seq<Department>, canonical: string -> bool)
    requires Forest(ds) && Canonical(ds, canonical)
    ensures ParentsOk(ds, ById(ds), canonical)
  {
    ByIdHolds(ds);
    forall i | 0 <= i < |ds| ensures ParentOk(ById(ds), ds[i], canonical) {
      if ds[i].parent.Some? {
        ByIdKeys(ds, ds[i].parent.value);
        if ds[i].parent == Some(ds[i].id) { SelfParentIsCycle(ById(ds), ds[i].id); }
      }
    }
  }

  /** The direct-parent test and the walks together decide forests. */
  lemma WalksDecideForest(ds: seq<Department>, canonical: string -> bool)
    requires UniqueIds(ds)
    ensures ParentsOk(ds, ById(ds), canonical) ==> Closed(ById(ds))
    ensures ParentsOk(ds, ById(ds), canonical) && AllReachRoot(ById(ds)) <==> Forest(ds) && Canonical(ds, canonical)
  {
    if ParentsOk(ds, ById(ds), canonical) {
      ParentsAreKnown(ds, canonical);
      AcyclicIsForest(ById(ds));
    }
    if Forest(ds) && Canonical(ds, canonical) { ForestParentsOk(ds, canonical); }
  }

  /** Accepts exactly the forests, apart from the syntactic limits; member
      department references must resolve when departments are included. */
  method ValidateDepartments(ds: seq<Department>, included: bool, members: seq<seq<string>>,
                             wellFormed: Department -> bool, canonical: string -> bool) returns (ok: bool)
    ensures ok <==> (&& (included || |ds| == 0) && |ds| <= 1000
                     && AllWellFormed(ds, wellFormed) && Canonical(ds, canonical)
                     && Forest(ds) && (included ==> MembersKnown(ds, members)))
  {
    if !included && |ds| != 0 { return false; }
    if |ds| > MAX_DEPARTMENTS { return false; }
    var unique := CheckUnique(ds, wellFormed);
    if !unique { return false; }
    var byId := BuildIndex(ds);
    WalksDecideForest(ds, canonical);
    MembersByIndex(ds, members);
    var parents := CheckParents(ds, byId, canonical);
    if !parents { return false; }
    if included {
      var known := CheckMembers(members, byId);
      if !known { return false; }
    }
    ok := CheckWalks(byId);
  }
}
