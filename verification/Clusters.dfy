/** Clusters of colliding requests (`VerifierCluster`, src/validator/RequestScheduler.h:70-148) and the
    sorted insertion they rely on (`mergeInsert`, src/util/OrderedStaticMap.hpp:199-210). */
module Clusters {
  import opened Access
  import opened Dag

  ghost predicate Sorted(s: seq<nat>) {
    forall a, b :: 0 <= a < b < |s| ==> s[a] <= s[b]
  }

  /** Merge of the first `a` elements of `l` with the first `b` of `r`, from the back. */
  function MergePrefixes(l: seq<nat>, r: seq<nat>, a: nat, b: nat): (m: seq<nat>)
    requires a <= |l| && b <= |r|
    ensures |m| == a + b
  {
    if b == 0 then l[..a]
    else if a > 0 && l[a - 1] > r[b - 1] then MergePrefixes(l, r, a - 1, b) + [l[a - 1]]
    else MergePrefixes(l, r, a, b - 1) + [r[b - 1]]
  }

  /** Sorted merge; equal elements of `l` stay in front of those of `r`. */
  function MergeSorted(l: seq<nat>, r: seq<nat>): (m: seq<nat>)
    ensures |m| == |l| + |r|
  {
    MergePrefixes(l, r, |l|, |r|)
  }

  lemma {:induction false} PrefixGrows(s: seq<nat>, a: nat)
    requires 0 < a <= |s|
    ensures multiset(s[..a]) == multiset(s[..a - 1]) + multiset{s[a - 1]}
  {
    assert s[..a] == s[..a - 1] + [s[a - 1]];
  }

  lemma {:induction false} AppendPermutes(m: seq<nat>, x: nat, a: multiset<nat>, b: multiset<nat>)
    requires multiset(m) == a + b
    ensures multiset(m + [x]) == (a + multiset{x}) + b == a + (b + multiset{x})
  {
  }

  lemma {:induction false} MergePrefixesPermutes(l: seq<nat>, r: seq<nat>, a: nat, b: nat)
    requires a <= |l| && b <= |r|
    ensures multiset(MergePrefixes(l, r, a, b)) == multiset(l[..a]) + multiset(r[..b])
  {
    if b == 0 {
      assert r[..b] == [];
    } else if a > 0 && l[a - 1] > r[b - 1] {
      MergePrefixesPermutes(l, r, a - 1, b);
      AppendPermutes(MergePrefixes(l, r, a - 1, b), l[a - 1], multiset(l[..a - 1]), multiset(r[..b]));
      PrefixGrows(l, a);
    } else {
      MergePrefixesPermutes(l, r, a, b - 1);
      AppendPermutes(MergePrefixes(l, r, a, b - 1), r[b - 1], multiset(l[..a]), multiset(r[..b - 1]));
      PrefixGrows(r, b);
    }
  }

  lemma {:induction false} MergePrefixesMembers(l: seq<nat>, r: seq<nat>, a: nat, b: nat)
    requires a <= |l| && b <= |r|
    ensures forall x :: x in MergePrefixes(l, r, a, b) <==> x in l[..a] || x in r[..b]
  {
    MergePrefixesPermutes(l, r, a, b);
    forall x
      ensures x in MergePrefixes(l, r, a, b) <==> x in l[..a] || x in r[..b]
    {
      assert x in MergePrefixes(l, r, a, b) <==> x in multiset(MergePrefixes(l, r, a, b));
    }
  }

  lemma {:induction false} MergeSortedMembers(l: seq<nat>, r: seq<nat>)
    ensures multiset(MergeSorted(l, r)) == multiset(l) + multiset(r)
    ensures forall x :: x in MergeSorted(l, r) <==> x in l || x in r
  {
    MergePrefixesPermutes(l, r, |l|, |r|);
    MergePrefixesMembers(l, r, |l|, |r|);
    assert l[..|l|] == l && r[..|r|] == r;
  }

  lemma {:induction false} SortedAppend(m: seq<nat>, y: nat)
    requires Sorted(m) && forall x :: x in m ==> x <= y
    ensures Sorted(m + [y])
  {
    forall a, b | 0 <= a < b < |m| + 1
      ensures (m + [y])[a] <= (m + [y])[b]
    {
      assert m[a] in m;
    }
  }

  lemma {:induction false} MergePrefixesSorted(l: seq<nat>, r: seq<nat>, a: nat, b: nat)
    requires Sorted(l) && Sorted(r) && a <= |l| && b <= |r|
    ensures Sorted(MergePrefixes(l, r, a, b))
  {
    if b != 0 {
      if a > 0 && l[a - 1] > r[b - 1] {
        MergePrefixesSorted(l, r, a - 1, b);
        MergePrefixesMembers(l, r, a - 1, b);
        SortedAppend(MergePrefixes(l, r, a - 1, b), l[a - 1]);
      } else {
        MergePrefixesSorted(l, r, a, b - 1);
        MergePrefixesMembers(l, r, a, b - 1);
        SortedAppend(MergePrefixes(l, r, a, b - 1), r[b - 1]);
      }
    }
  }

  /** The elements of `m` before `p` are still to come from the two prefixes; those from `p` on are in `l`. */
  ghost predicate Filled(m: seq<nat>, l: seq<nat>, l0: seq<nat>, r: seq<nat>, j: int, i: int) {
    && -1 <= j < |l0| && -1 <= i < |r| && |l| == |m| == |l0| + |r|
    && (forall k :: 0 <= k <= j ==> l[k] == l0[k])
    && m == MergePrefixes(l0, r, j + 1, i + 1) + l[j + i + 2..]
  }

  lemma {:induction false} FilledStep(m: seq<nat>, l: seq<nat>, l0: seq<nat>, r: seq<nat>, j: int, i: nat)
    requires Filled(m, l, l0, r, j, i)
    ensures if j >= 0 && l[j] > r[i] then Filled(m, l[j + i + 1 := l[j]], l0, r, j - 1, i)
            else Filled(m, l[j + i + 1 := r[i]], l0, r, j, i - 1)
  {
    var x := if j >= 0 && l[j] > r[i] then l[j] else r[i];
    var l' := l[j + i + 1 := x];
    assert l'[j + i + 1..] == [x] + l[j + i + 2..];
  }

  /** The in-place merge: `l` is enlarged, then filled from the back. */
  method MergeInsert(l0: seq<nat>, r: seq<nat>) returns (l: seq<nat>)
    ensures l == MergeSorted(l0, r)
  {
    ghost var m := MergeSorted(l0, r);
    var j := |l0| - 1;
    l := l0 + seq(|r|, _ => 0);
    var i := |r| - 1;
    while i >= 0
      invariant Filled(m, l, l0, r, j, i)
    {
      while j >= 0 && l[j] > r[i]
        invariant Filled(m, l, l0, r, j, i)
        decreases j
      {
        FilledStep(m, l, l0, r, j, i);
        l := l[j + i + 1 := l[j]];
        j := j - 1;
      }
      FilledStep(m, l, l0, r, j, i);
      l := l[j + i + 1 := r[i]];
      i := i - 1;
    }
  }

  /** Members after `insert`: a clique is kept sorted, any other cluster is a plain list. */
  function Inserted(access: Access, members: seq<nat>, request: nat): seq<nat> {
    if access == Writable then MergeSorted(members, [request]) else members + [request]
  }

  /** Members after `merge`: `access` is the type of the cluster `c` that is merged in. */
  function Joined(access: Access, members: seq<nat>, c: seq<nat>): seq<nat> {
    if access == Writable then MergeSorted(members, c) else members + c
  }

  /** `finalize` finds every edge of the chain through the members. */
  predicate ChainOk(dag: Graph, members: seq<nat>) {
    forall a :: 0 <= a < |members| - 1 ==> IsAdjacent(dag, members[a], members[a + 1])
  }

  /** Number of leading members that are <= u (`std::upper_bound`). */
  function UpperBound(members: seq<nat>, u: nat): (k: nat)
    ensures k <= |members|
    ensures forall a :: 0 <= a < k ==> members[a] <= u
    ensures k < |members| ==> members[k] > u
  {
    if members == [] || members[0] > u then 0 else
      var k := UpperBound(members[1..], u);
      assert forall a :: 1 <= a < k + 1 ==> members[a] == members[1..][a - 1];
      1 + k
  }

  predicate OrderedEdge(dag: Graph, u: nat, v: nat) {
    if u < v then IsAdjacent(dag, u, v) else IsAdjacent(dag, v, u)
  }

  /** `addDependency(u)` finds every edge it demands. */
  predicate DependencyOk(dag: Graph, access: Access, members: seq<nat>, u: nat) {
    if access == Writable then
      var k := UpperBound(members, u);
      (k > 0 ==> IsAdjacent(dag, members[k - 1], u)) && (k < |members| ==> IsAdjacent(dag, u, members[k]))
    else
      forall a :: 0 <= a < |members| ==> OrderedEdge(dag, members[a], u)
  }

  lemma {:induction false} ChainReaches(dag: Graph, members: seq<nat>, a: nat, b: nat)
    requires ChainOk(dag, members) && a <= b < |members| && members[a] < |dag|
    ensures Reaches(dag, members[a], members[b])
    decreases b - a
  {
    if a == b {
      ReachSelf(dag, members[a]);
    } else {
      ChainReaches(dag, members, a, b - 1);
      assert IsAdjacent(dag, members[b - 1], members[b - 1 + 1]);
      ReachEdge(dag, members[b - 1], members[b]);
      ReachTrans(dag, members[a], members[b - 1], members[b]);
    }
  }

  ghost predicate InRange(dag: Graph, members: seq<nat>) {
    forall m :: m in members ==> m < |dag|
  }

  /** Every two members are joined by a directed path. */
  ghost predicate Clique(dag: Graph, members: seq<nat>) {
    forall x, y :: x in members && y in members ==> Linked(dag, x, y)
  }

  lemma {:induction false} ChainIsClique(dag: Graph, members: seq<nat>)
    requires ChainOk(dag, members) && Sorted(members) && InRange(dag, members)
    ensures Clique(dag, members)
  {
    forall x, y | x in members && y in members
      ensures Linked(dag, x, y)
    {
      var a :| 0 <= a < |members| && members[a] == x;
      var b :| 0 <= b < |members| && members[b] == y;
      if a <= b {
        ChainReaches(dag, members, a, b);
      } else {
        ChainReaches(dag, members, b, a);
      }
      if x == y {
        ReachSelf(dag, x);
      }
    }
  }

  /** A dependency that was found, on a cluster whose members are (or will be shown) a clique when it is
      writable, links every member to `u`: m ->* u for every m < u and u ->* m for every m > u. */
  lemma {:induction false} DependencyLinks(dag: Graph, access: Access, members: seq<nat>, u: nat)
    requires InRange(dag, members) && u < |dag|
    requires DependencyOk(dag, access, members, u)
    requires access == Writable ==> Sorted(members) && Clique(dag, members)
    ensures forall m :: m in members ==> Linked(dag, m, u)
  {
    forall m | m in members
      ensures Linked(dag, m, u)
    {
      var a :| 0 <= a < |members| && members[a] == m;
      if access != Writable {
        assert OrderedEdge(dag, members[a], u);
        ReachEdge(dag, if m < u then m else u, if m < u then u else m);
      } else {
        var k := UpperBound(members, u);
        if a < k {
          assert Linked(dag, m, members[k - 1]);
          ReachEdge(dag, members[k - 1], u);
          ReachTrans(dag, m, members[k - 1], u);
        } else {
          assert Linked(dag, members[k], m);
          ReachEdge(dag, u, members[k]);
          ReachTrans(dag, u, members[k], m);
        }
      }
    }
  }

  // ---------- whole lives of clusters ----------

  /** What happened to a cluster, with the lives of the clusters that were merged into it. A cluster that was merged
      into another one is never finalized (src/validator/RequestScheduler.h:213-237). */
  datatype Life =
    | Created
    | InsertInto(before: Life, request: nat)
    | MergeInto(before: Life, other: Life)
    | DependOn(before: Life, request: nat)

  function Members(access: Access, life: Life): seq<nat> {
    match life
    case Created => []
    case InsertInto(before, request) => Inserted(access, Members(access, before), request)
    case MergeInto(before, other) => Joined(access, Members(access, before), Members(access, other))
    case DependOn(before, _) => Members(access, before)
  }

  predicate LifeBelow(n: nat, life: Life) {
    match life
    case Created => true
    case InsertInto(before, request) => LifeBelow(n, before) && request < n
    case MergeInto(before, other) => LifeBelow(n, before) && LifeBelow(n, other)
    case DependOn(before, request) => LifeBelow(n, before) && request < n
  }

  /** No `addDependency` throws, neither on the cluster nor on one that was merged into it. */
  predicate LifeAccepted(dag: Graph, access: Access, life: Life) {
    match life
    case Created => true
    case InsertInto(before, _) => LifeAccepted(dag, access, before)
    case MergeInto(before, other) => LifeAccepted(dag, access, before) && LifeAccepted(dag, access, other)
    case DependOn(before, request) =>
      LifeAccepted(dag, access, before) && DependencyOk(dag, access, Members(access, before), request)
  }

  /** Every request that a dependency was added for, anywhere, is joined with every member there was then. */
  ghost predicate DependenciesLinked(dag: Graph, access: Access, life: Life) {
    match life
    case Created => true
    case InsertInto(before, _) => DependenciesLinked(dag, access, before)
    case MergeInto(before, other) => DependenciesLinked(dag, access, before) && DependenciesLinked(dag, access, other)
    case DependOn(before, request) =>
      && DependenciesLinked(dag, access, before)
      && forall m :: m in Members(access, before) ==> Linked(dag, m, request)
  }

  ghost predicate Proper(dag: Graph, access: Access, members: seq<nat>) {
    InRange(dag, members) && (access == Writable ==> Sorted(members))
  }

  lemma {:induction false} JoinedProper(dag: Graph, access: Access, a: seq<nat>, b: seq<nat>)
    requires Proper(dag, access, a) && Proper(dag, access, b)
    ensures Proper(dag, access, Joined(access, a, b))
    ensures forall m :: m in Joined(access, a, b) <==> m in a || m in b
  {
    MergeSortedMembers(a, b);
    if access == Writable {
      MergePrefixesSorted(a, b, |a|, |b|);
    }
  }

  lemma {:induction false} LifeProper(dag: Graph, access: Access, life: Life)
    requires LifeBelow(|dag|, life)
    ensures Proper(dag, access, Members(access, life))
    ensures !life.Created? ==> forall m :: m in Members(access, life.before) ==> m in Members(access, life)
    ensures life.MergeInto? ==> forall m :: m in Members(access, life.other) ==> m in Members(access, life)
  {
    if !life.Created? {
      LifeProper(dag, access, life.before);
      if life.InsertInto? {
        JoinedProper(dag, access, Members(access, life.before), [life.request]);
      } else if life.MergeInto? {
        LifeProper(dag, access, life.other);
        JoinedProper(dag, access, Members(access, life.before), Members(access, life.other));
      }
    }
  }

  /** All members that a part of the life ever had are in the clique of the outermost cluster. */
  lemma {:induction false} WithinClique(dag: Graph, access: Access, life: Life, clique: seq<nat>)
    requires LifeBelow(|dag|, life) && LifeAccepted(dag, access, life)
    requires access == Writable ==> Clique(dag, clique) && forall m :: m in Members(access, life) ==> m in clique
    ensures DependenciesLinked(dag, access, life)
    decreases life
  {
    hide DependencyOk;
    if !life.Created? {
      LifeProper(dag, access, life);
      WithinClique(dag, access, life.before, clique);
      if life.MergeInto? {
        WithinClique(dag, access, life.other, clique);
      } else if life.DependOn? {
        LifeProper(dag, access, life.before);
        DependencyLinks(dag, access, Members(access, life.before), life.request);
      }
    }
  }

  /** However insertions, merges and dependencies follow each other, on clusters that flow into one that finalizes: if
      nothing throws, that one is a clique if it is writable, and every request that a dependency was added for, on
      whichever of the clusters, is joined with every member the cluster had then, although each dependency was checked
      against at most two of them and before the clique was. */
  lemma {:induction false} LifeLinks(dag: Graph, access: Access, life: Life)
    requires LifeBelow(|dag|, life) && LifeAccepted(dag, access, life)
    requires access == Writable ==> ChainOk(dag, Members(access, life))
    ensures access == Writable ==> Clique(dag, Members(access, life))
    ensures DependenciesLinked(dag, access, life)
  {
    LifeProper(dag, access, life);
    if access == Writable {
      ChainIsClique(dag, Members(access, life));
    }
    WithinClique(dag, access, life, Members(access, life));
  }
}
