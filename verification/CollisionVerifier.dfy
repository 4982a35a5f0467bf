/** The collision checks of the scheduler in the form the source gives them: loops over parallel vectors that are
    rewritten in place (src/validator/RequestScheduler.h:190-273, src/validator/RequestScheduler.cpp:65-114). */
module CollisionVerifier {
  import opened Access
  import opened Dag
  import opened Clusters
  import opened CollisionSweep
  import opened SweepSoundness
  import opened SweepCompleteness
  import opened SweepLoss
  import opened SweepDemand
  import opened Resizing
  import opened Options

  datatype Cluster = Cluster(access: Access, members: seq<nat>)

  method Insert(c: Cluster, request: nat, access: Access) returns (r: Cluster)
    ensures r == Cluster(access, Inserted(access, c.members, request))
  {
    if access == Writable {
      var m := MergeInsert(c.members, [request]);
      r := Cluster(access, m);
    } else {
      r := Cluster(access, c.members + [request]);
    }
  }

  method Merge(self: Cluster, c: Cluster) returns (r: Cluster)
    ensures r == self.(members := Joined(c.access, self.members, c.members))
  {
    if c.access == Writable {
      var m := MergeInsert(self.members, c.members);
      r := self.(members := m);
    } else {
      r := self.(members := self.members + c.members);
    }
  }

  /** False stands for the exception about a missing edge. */
  method Finalize(dag: Graph, c: Cluster) returns (ok: bool)
    ensures ok <==> (c.access == Writable ==> ChainOk(dag, c.members))
  {
    if c.access == Writable {
      var i := 0;
      while i + 1 < |c.members|
        invariant 0 <= i && (i > 0 ==> i < |c.members|)
        invariant forall a :: 0 <= a < i ==> IsAdjacent(dag, c.members[a], c.members[a + 1])
      {
        if !IsAdjacent(dag, c.members[i], c.members[i + 1]) {
          return false;
        }
        i := i + 1;
      }
    }
    return true;
  }

  method AddDependency(dag: Graph, c: Cluster, u: nat) returns (ok: bool)
    ensures ok <==> DependencyOk(dag, c.access, c.members, u)
  {
    if c.access == Writable {
      var next := UpperBound(c.members, u);
      if next > 0 && !IsAdjacent(dag, c.members[next - 1], u) {
        return false;
      }
      return next < |c.members| ==> IsAdjacent(dag, u, c.members[next]);
    } else {
      for a := 0 to |c.members|
        invariant forall k :: 0 <= k < a ==> OrderedEdge(dag, c.members[k], u)
      {
        if !OrderedEdge(dag, c.members[a], u) {
          return false;
        }
      }
      return true;
    }
  }

  /** The three parallel vectors from index `i` on are the list `L`. */
  ghost predicate Matches(o: seq<int>, b: seq<Block>, c: seq<Cluster>, i: nat, L: seq<Piece>) {
    && |o| == |b| == |c| == i + |L|
    && forall k :: 0 <= k < |L| ==>
         L[k].offset == o[i + k] && L[k].block == b[i + k] && L[k].members == c[i + k].members
  }

  lemma {:induction false} MatchesTail(o: seq<int>, b: seq<Block>, c: seq<Cluster>, i: nat, L: seq<Piece>)
    requires Matches(o, b, c, i, L) && L != []
    ensures Matches(o, b, c, i + 1, L[1..])
  {
  }

  /** Block j was split at `end`: entries i + 1 .. k - 1 moved one place to the front, over entry i, and the
      remainder of the split block took the freed place k - 1. */
  ghost predicate WasSplit(o0: seq<int>, b0: seq<Block>, c0: seq<Cluster>, i: nat, j: nat, end: int,
                           o: seq<int>, b: seq<Block>, c: seq<Cluster>, k: nat) {
    && |o0| == |b0| == |c0| == |o| == |b| == |c| && i < j < k < |o0|
    && (forall x :: i < x < k ==> o0[x] < end) && o0[k] >= end
    && (forall x :: i <= x < k - 1 ==> o[x] == o0[x + 1] && c[x] == c0[x + 1])
    && (forall x :: i <= x < k - 1 && x + 1 != j ==> b[x] == b0[x + 1])
    && b[j - 1] == b0[j].(size := end - o0[j])
    && o[k - 1] == end && b[k - 1] == b0[j].(size := b0[j].size - (end - o0[j])) && c[k - 1] == Cluster(CheckOnly, [])
    && (forall x :: k <= x < |o0| ==> o[x] == o0[x] && b[x] == b0[x] && c[x] == c0[x])
  }

  method SplitAt(o0: seq<int>, b0: seq<Block>, c0: seq<Cluster>, i: nat, j: nat, end: int)
    returns (o: seq<int>, b: seq<Block>, c: seq<Cluster>, k: nat)
    requires |o0| == |b0| == |c0| && i < j < |o0|
    requires forall x :: i < x <= j ==> o0[x] < end
    requires exists x :: j < x < |o0| && o0[x] >= end
    ensures WasSplit(o0, b0, c0, i, j, end, o, b, c, k)
  {
    o, b, c := o0, b0, c0;
    var q := i + 1;
    while q < |o| && o[q] < end
      invariant i < q <= |o0| && |o| == |b| == |c| == |o0|
      invariant forall x :: i < x < q ==> o0[x] < end
      invariant forall x :: i <= x < q - 1 ==> o[x] == o0[x + 1] && b[x] == b0[x + 1] && c[x] == c0[x + 1]
      invariant forall x :: q <= x < |o0| ==> o[x] == o0[x] && b[x] == b0[x] && c[x] == c0[x]
      decreases |o| - q
    {
      o, b, c := o[q - 1 := o[q]], b[q - 1 := b[q]], c[q - 1 := c[q]];
      q := q + 1;
    }
    o := o[q - 1 := end];
    b := b[q - 1 := b[j - 1]];
    b := b[j - 1 := b[j - 1].(size := end - o[j - 1])];
    b := b[q - 1 := b[q - 1].(size := b[q - 1].size - b[j - 1].size)];
    c := c[q - 1 := Cluster(CheckOnly, [])];
    k := q;
  }

  lemma {:induction false} MatchesMerge(o: seq<int>, b: seq<Block>, c: seq<Cluster>, i: nat, h: Piece,
                                        rest: seq<Piece>, j: nat, m: Cluster)
    requires Matches(o, b, c, i, rest) && j < |rest| && !Splits(h, rest, j)
    requires m.members == Absorb(h, rest[j]).members
    ensures Matches(o, b, c[i + j := m], i, Next(h, rest, j))
  {
  }

  lemma {:induction false} LowerBoundIs(rest: seq<Piece>, cut: int, k: nat)
    requires k < |rest| && rest[k].offset >= cut && forall l :: 0 <= l < k ==> rest[l].offset < cut
    ensures LowerBound(rest, cut) == k
  {
    var q := LowerBound(rest, cut);
    assert !(q < k) && !(k < q);
  }

  lemma {:induction false} CutIndex(o0: seq<int>, b0: seq<Block>, c0: seq<Cluster>, i: nat, rest: seq<Piece>, cut: int,
                                    k: nat)
    requires Matches(o0, b0, c0, i + 1, rest) && i < k < |o0|
    requires (forall x :: i < x < k ==> o0[x] < cut) && o0[k] >= cut
    ensures k == i + 1 + LowerBound(rest, cut)
  {
    forall l | 0 <= l <= k - i - 1
      ensures rest[l].offset == o0[i + 1 + l]
    {
    }
    LowerBoundIs(rest, cut, k - i - 1);
  }

  /** One position of the list after a split. */
  lemma {:induction false} MatchesSplitAt(o0: seq<int>, b0: seq<Block>, c0: seq<Cluster>, i: nat, h: Piece,
                                          rest: seq<Piece>, j: nat,
                                          m: Cluster, o: seq<int>, b: seq<Block>, c: seq<Cluster>, k: nat, l: nat)
    requires Leads(h, rest) && j == Target(h, rest, 0) < |rest| && Splits(h, rest, j)
    requires Matches(o0, b0, c0, i + 1, rest) && m.members == Absorb(h, rest[j]).members
    requires WasSplit(o0, b0, c0[i + 1 + j := m], i, i + 1 + j, Fin(h), o, b, c, k)
    requires l < |rest| + 1 == |Next(h, rest, j)|
    ensures i + l < |o|
    ensures var p := Next(h, rest, j)[l]; p.offset == o[i + l] && p.block == b[i + l] && p.members == c[i + l].members
  {
    hide Next, Target, LowerBound, Leads, Splits;
    var q := LowerBound(rest, Fin(h));
    CutIndex(o0, b0, c0, i, rest, Fin(h), k);
    NextAt(h, rest, j, l);
    MovedFacts(h, rest, j, j);
    if l < q {
      assert rest[l].offset == o0[i + 1 + l];
    } else if l > q {
      assert rest[l - 1].offset == o0[i + 1 + (l - 1)];
    }
  }

  /** The vectors after `SplitAt` are the list after the merge and the split. */
  lemma {:induction false} MatchesSplit(o0: seq<int>, b0: seq<Block>, c0: seq<Cluster>, i: nat, h: Piece,
                                        rest: seq<Piece>, j: nat,
                                        m: Cluster, o: seq<int>, b: seq<Block>, c: seq<Cluster>, k: nat)
    requires Leads(h, rest) && j == Target(h, rest, 0) < |rest| && Splits(h, rest, j)
    requires Matches(o0, b0, c0, i + 1, rest) && m.members == Absorb(h, rest[j]).members
    requires WasSplit(o0, b0, c0[i + 1 + j := m], i, i + 1 + j, Fin(h), o, b, c, k)
    ensures Matches(o, b, c, i, Next(h, rest, j))
  {
    MovedFacts(h, rest, j, j);
    var N := Next(h, rest, j);
    assert |N| == |rest| + 1;
    hide Next, Target, LowerBound, WasSplit;
    assert |o| == |b| == |c| == |o0| by {
      SplitLengths(o0, b0, c0[i + 1 + j := m], i, i + 1 + j, Fin(h), o, b, c, k);
    }
    forall l | 0 <= l < |N|
      ensures N[l].offset == o[i + l] && N[l].block == b[i + l] && N[l].members == c[i + l].members
    {
      MatchesSplitAt(o0, b0, c0, i, h, rest, j, m, o, b, c, k, l);
    }
  }

  lemma {:induction false} SplitLengths(o0: seq<int>, b0: seq<Block>, c0: seq<Cluster>, i: nat, j: nat, end: int,
                                        o: seq<int>, b: seq<Block>, c: seq<Cluster>, k: nat)
    requires WasSplit(o0, b0, c0, i, j, end, o, b, c, k)
    ensures |o| == |b| == |c| == |o0|
  {
  }

  /** The inner loop has examined the first `d` blocks behind `h` and none of them took over its cluster. */
  ghost predicate Examined(dag: Graph, h: Piece, rest: seq<Piece>, d: nat) {
    d <= |rest| && Target(h, rest, 0) == Target(h, rest, d) && DependenciesOk(dag, h, rest, d)
  }

  lemma {:induction false} ExamineOne(dag: Graph, h: Piece, rest: seq<Piece>, d: nat)
    requires Examined(dag, h, rest, d) && d < |rest| && rest[d].offset < Fin(h) && !Absorbs(h, rest[d])
    ensures Collides(h.block.access, rest[d].block.access) &&
            !DependencyOk(dag, h.block.access, Own(h), rest[d].block.request) ==>
              !DependenciesOk(dag, h, rest, Target(h, rest, 0))
    ensures (Collides(h.block.access, rest[d].block.access) ==>
              DependencyOk(dag, h.block.access, Own(h), rest[d].block.request)) ==> Examined(dag, h, rest, d + 1)
  {
  }

  lemma {:induction false} ExaminedNone(dag: Graph, h: Piece, rest: seq<Piece>)
    ensures Examined(dag, h, rest, 0)
  {
  }

  /** The block d takes the cluster over. */
  lemma {:induction false} ExaminedUpTo(dag: Graph, h: Piece, rest: seq<Piece>, d: nat)
    requires Examined(dag, h, rest, d) && d < |rest| && rest[d].offset < Fin(h) && Absorbs(h, rest[d])
    ensures Target(h, rest, 0) == d && DependenciesOk(dag, h, rest, d)
  {
  }

  lemma {:induction false} ExaminedAll(dag: Graph, h: Piece, rest: seq<Piece>, d: nat)
    requires Leads(h, rest) && Examined(dag, h, rest, d) && (d < |rest| ==> rest[d].offset >= Fin(h))
    ensures Target(h, rest, 0) == |rest| && DependenciesOk(dag, h, rest, |rest|)
  {
    forall l | d <= l < |rest|
      ensures rest[l].offset >= Fin(h)
    {
      assert rest[d].offset <= rest[l].offset;
    }
  }

  /** The inner loop: demands the dependencies of the front cluster up to the block that takes the cluster over.
      `ok` is false when an edge is missing. */
  method Examine(dag: Graph, o: seq<int>, b: seq<Block>, c: Cluster, i: nat, ghost h: Piece, ghost rest: seq<Piece>)
    returns (ok: bool, skipped: bool, j: nat)
    requires i < |o| == |b| && Leads(h, rest) && |rest| == |o| - i - 1
    requires h.offset == o[i] && h.block == b[i] && c == Cluster(b[i].access, Own(h))
    requires forall k :: 0 <= k < |rest| ==> rest[k].offset == o[i + 1 + k] && rest[k].block == b[i + 1 + k]
    ensures i < j <= |o|
    ensures ok <==> DependenciesOk(dag, h, rest, Target(h, rest, 0))
    ensures ok ==> (skipped <==> Target(h, rest, 0) < |rest|) && (skipped ==> j == i + 1 + Target(h, rest, 0))
  {
    var end := End(o[i], b[i]);
    skipped := false;
    j := i + 1;
    ExaminedNone(dag, h, rest);
    hide Examined, Target, DependenciesOk, DependencyOk, Leads, Own, CanMerge, Collides, IsAdjacent;
    while j < |o| && o[j] < end
      invariant i < j <= |o| && !skipped && Examined(dag, h, rest, j - i - 1)
    {
      assert rest[j - i - 1].offset == o[i + 1 + (j - i - 1)];
      var collidingEnd := o[j] + b[j].size;
      if !CanMerge(b[i], o[i], b[j], o[j]) || end > collidingEnd {
        ExamineOne(dag, h, rest, j - i - 1);
        if Collides(b[i].access, b[j].access) {
          var found := AddDependency(dag, c, b[j].request);
          if !found {
            return false, false, j;
          }
        }
        j := j + 1;
      } else {
        ExaminedUpTo(dag, h, rest, j - i - 1);
        return true, true, j;
      }
    }
    if j < |o| {
      assert rest[j - i - 1].offset == o[i + 1 + (j - i - 1)];
    }
    ExaminedAll(dag, h, rest, j - i - 1);
    return true, false, j;
  }

  lemma {:induction false} NoSplit(o: seq<int>, b: seq<Block>, c: seq<Cluster>, i: nat, h: Piece, rest: seq<Piece>,
                                   j: nat, k: nat)
    requires Matches(o, b, c, i + 1, rest) && j < |rest| && i < k <= |o|
    requires Fin(h) < Stop(rest[j]) ==>
               (forall x :: i < x < k ==> o[x] < Fin(h)) && (k < |o| ==> o[k] >= Fin(h) && o[k] >= Stop(rest[j]))
    ensures !Splits(h, rest, j)
  {
    if Fin(h) < Stop(rest[j]) {
      var q := LowerBound(rest, Fin(h));
      if q < |rest| {
        assert rest[q].offset == o[i + 1 + q];
        if k < |o| {
          CutIndex(o, b, c, i, rest, Fin(h), k);
        }
      }
    }
  }

  lemma {:induction false} YesSplit(o: seq<int>, b: seq<Block>, c: seq<Cluster>, i: nat, h: Piece, rest: seq<Piece>,
                                    j: nat, k: nat)
    requires Matches(o, b, c, i + 1, rest) && Leads(h, rest) && j == Target(h, rest, 0) < |rest| && i < k < |o|
    requires (forall x :: i < x < k ==> o[x] < Fin(h)) && o[k] >= Fin(h)
    requires Fin(h) < Stop(rest[j]) && o[k] < Stop(rest[j])
    ensures Splits(h, rest, j) && i + 1 + j < k
  {
    CutIndex(o, b, c, i, rest, Fin(h), k);
    assert rest[k - i - 1].offset == o[i + 1 + (k - i - 1)];
    assert rest[j].offset == o[i + 1 + j];
    assert rest[j].offset < Fin(h);
  }

  /** Merges the front cluster into that of block j and splits block j where needed. A split overwrites entry i, so
      the loop stays at i (`--i` in the source). */
  method TakeOver(o0: seq<int>, b0: seq<Block>, c0: seq<Cluster>, i0: nat, j: nat, ghost h: Piece,
                  ghost rest: seq<Piece>)
    returns (o: seq<int>, b: seq<Block>, c: seq<Cluster>, i: nat)
    requires i0 < j < |o0| && Matches(o0, b0, c0, i0 + 1, rest) && Leads(h, rest)
    requires h.offset == o0[i0] && h.block == b0[i0] && c0[i0] == Cluster(b0[i0].access, Own(h))
    requires j == i0 + 1 + Target(h, rest, 0)
    ensures Matches(o, b, c, i, Next(h, rest, j - i0 - 1))
  {
    ghost var t: nat := j - i0 - 1;
    assert rest[t].offset == o0[i0 + 1 + t] && rest[t].block == b0[i0 + 1 + t];
    hide Next, Matches, WasSplit, Ordered, Own, Splits, LowerBound, Joined;
    var end := End(o0[i0], b0[i0]);
    var cj := Merge(c0[j], c0[i0]);
    var collidingEnd := o0[j] + b0[j].size;
    var lowerBound := |o0|;
    if end < collidingEnd {
      lowerBound := LowerBoundIndex(o0, i0 + 1, end);
    }
    if lowerBound < |o0| && o0[lowerBound] < collidingEnd {
      YesSplit(o0, b0, c0, i0, h, rest, t, lowerBound);
      var k;
      i := i0;
      o, b, c, k := SplitAt(o0, b0, c0[j := cj], i0, j, end);
      MatchesSplit(o0, b0, c0, i0, h, rest, t, cj, o, b, c, k);
    } else {
      NoSplit(o0, b0, c0, i0, h, rest, t, lowerBound);
      MatchesMerge(o0, b0, c0, i0 + 1, h, rest, t, cj);
      o, b, c, i := o0, b0, c0[j := cj], i0 + 1;
    }
  }

  /** What one turn of the sweep leaves behind: the remaining list, if every edge demanded was there. */
  ghost predicate TurnDone(dag: Graph, L: seq<Piece>, ok: bool, N: seq<Piece>) {
    Ordered(L) && if ok then
      Ordered(N) && Accepts(dag, L) == Accepts(dag, N) && (Total(N) < Total(L) || (Total(N) == Total(L) && |N| < |L|))
    else
      !Accepts(dag, L)
  }

  lemma {:induction false} TurnMerges(dag: Graph, L: seq<Piece>, t: nat)
    requires L != [] && Ordered(L) && !Skipped(L[0]) && t == Target(L[0], L[1..], 0) < |L[1..]|
    requires DependenciesOk(dag, L[0], L[1..], t)
    ensures TurnDone(dag, L, true, Next(L[0], L[1..], t))
  {
    OrderedLeads(L);
    NextOrdered(L[0], L[1..], t);
    NextShrinks(L[0], L[1..], t);
  }

  lemma {:induction false} TurnFinishes(dag: Graph, L: seq<Piece>, ok: bool)
    requires L != [] && Ordered(L) && !Skipped(L[0]) && Target(L[0], L[1..], 0) == |L[1..]|
    requires DependenciesOk(dag, L[0], L[1..], |L[1..]|)
    requires ok <==> (L[0].block.access == Writable ==> ChainOk(dag, Own(L[0])))
    ensures TurnDone(dag, L, ok, L[1..])
  {
  }

  /** What the vectors hold when the front cluster has taken in its own request. */
  lemma {:induction false} TurnStarts(o: seq<int>, b: seq<Block>, c: seq<Cluster>, i: nat, L: seq<Piece>, ci: Cluster)
    requires L != [] && Ordered(L) && Matches(o, b, c, i, L)
    ensures i < |o| == |b| == |c| && Leads(L[0], L[1..]) && |L[1..]| == |o| - i - 1
    ensures L[0].offset == o[i] && L[0].block == b[i] && L[0].members == c[i].members
    ensures forall k :: 0 <= k < |L[1..]| ==> L[1..][k].offset == o[i + 1 + k] && L[1..][k].block == b[i + 1 + k]
    ensures Matches(o, b, c[i := ci], i + 1, L[1..])
  {
    OrderedLeads(L);
  }

  lemma {:induction false} TurnFails(dag: Graph, L: seq<Piece>)
    requires L != [] && Ordered(L) && !Skipped(L[0]) && !DependenciesOk(dag, L[0], L[1..], Target(L[0], L[1..], 0))
    ensures TurnDone(dag, L, false, L[1..])
  {
  }

  /** One turn of the outer loop for a block that is not skipped. */
  method Turn(dag: Graph, o0: seq<int>, b0: seq<Block>, c0: seq<Cluster>, i0: nat, ghost L: seq<Piece>)
    returns (ok: bool, o: seq<int>, b: seq<Block>, c: seq<Cluster>, i: nat, ghost N: seq<Piece>)
    requires L != [] && Ordered(L) && Matches(o0, b0, c0, i0, L) && !Skipped(L[0])
    ensures TurnDone(dag, L, ok, N) && (ok ==> Matches(o, b, c, i, N))
  {
    ghost var h, rest := L[0], L[1..];
    TurnStarts(o0, b0, c0, i0, L, c0[i0]);
    o, b, i, N := o0, b0, i0, rest;
    var ci := Insert(c0[i], b[i].request, b[i].access);
    c := c0[i := ci];
    TurnStarts(o0, b0, c0, i0, L, ci);
    assert ci == Cluster(b[i].access, Own(h));
    var skipped, j;
    hide TurnDone, Accepts, Total, Next, DependenciesOk, ChainOk, Target, Ordered, Leads, Matches, Own;
    ok, skipped, j := Examine(dag, o, b, ci, i, h, rest);
    if !ok {
      TurnFails(dag, L);
    } else if skipped {
      TurnMerges(dag, L, Target(h, rest, 0));
      o, b, c, i := TakeOver(o, b, c, i, j, h, rest);
      N := Next(h, rest, Target(h, rest, 0));
    } else {
      ok := Finalize(dag, ci);
      TurnFinishes(dag, L, ok);
      i := i + 1;
    }
  }

  /** The cluster-product check. It accepts when every edge it demands is there. */
  method FindCollisionCliques(dag: Graph, offsets: seq<int>, blocks: seq<Block>) returns (accepted: bool)
    requires Input(offsets, blocks)
    ensures accepted <==> Accepts(dag, Initial(offsets, blocks))
  {
    var o, b := offsets, blocks;
    var c := seq(|o|, _ => Cluster(CheckOnly, []));
    ghost var L := Initial(offsets, blocks);
    var i := 0;
    while i < |o|
      invariant 0 <= i && Matches(o, b, c, i, L) && Ordered(L)
      invariant Accepts(dag, L) == Accepts(dag, Initial(offsets, blocks))
      decreases Total(L), |L|
    {
      if o[i] == -3 || b[i].access == CheckOnly {
        MatchesTail(o, b, c, i, L);
        L := L[1..];
        i := i + 1;
      } else {
        var ok;
        ok, o, b, c, i, L := Turn(dag, o, b, c, i, L);
        if !ok {
          return false;
        }
      }
    }
    return true;
  }

  // ---------- the quadratic check ----------

  predicate EitherEdge(dag: Graph, u: nat, v: nat) {
    IsAdjacent(dag, u, v) || IsAdjacent(dag, v, u)
  }

  /** All later blocks that start inside block i. */
  method CheckPairs(dag: Graph, offsets: seq<int>, blocks: seq<Block>, i: nat) returns (ok: bool)
    requires Input(offsets, blocks) && i < |blocks| && offsets[i] != -3
    ensures ok <==> forall q :: CollidingPair(offsets, blocks, i, q) ==>
                      EitherEdge(dag, blocks[i].request, blocks[q].request)
  {
    var end := End(offsets[i], blocks[i]);
    var j := i + 1;
    while j < |blocks| && offsets[j] < end
      invariant i < j <= |blocks|
      invariant forall q :: i < q < j && CollidingPair(offsets, blocks, i, q) ==>
                  EitherEdge(dag, blocks[i].request, blocks[q].request)
    {
      if Collides(blocks[i].access, blocks[j].access) {
        var additiveSameBlock := blocks[i].access == IntAdditive && blocks[i].access == blocks[j].access &&
          offsets[i] == offsets[j] && blocks[i].size == blocks[j].size;
        if !additiveSameBlock && !EitherEdge(dag, blocks[i].request, blocks[j].request) {
          assert CollidingPair(offsets, blocks, i, j);
          return false;
        }
      }
      j := j + 1;
    }
    return true;
  }

  /** What `findCollisions` has settled for the blocks before i. */
  ghost predicate PairedUpTo(dag: Graph, offsets: seq<int>, blocks: seq<Block>, lowerBound: int, i: nat)
    requires |offsets| == |blocks|
  {
    && (forall p, q :: p < i && CollidingPair(offsets, blocks, p, q) ==>
          EitherEdge(dag, blocks[p].request, blocks[q].request))
    && (forall p, w :: p < i && ResizingPair(offsets, blocks, lowerBound, p, w) ==>
          EitherEdge(dag, blocks[p].request, blocks[w].request))
  }

  /** The running interval [begin, end) of size writers: complete as soon as a data block was reached. */
  predicate WritersSeen(offsets: seq<int>, i: nat, inList: bool, begin: nat, end: nat) {
    && i <= |offsets|
    && (inList ==> begin < i && end == 0 && forall w :: 0 <= w < i ==> (begin <= w <==> offsets[w] == -1))
    && (!inList && end == 0 ==> begin == 0 && forall w :: 0 <= w < i ==> offsets[w] != -1)
    && (!inList && end > 0 ==>
          begin < end <= i && offsets[i - 1] >= 0 && forall w :: 0 <= w < i ==>
              (begin <= w < end <==> offsets[w] == -1))
  }

  lemma {:induction false} WritersComplete(offsets: seq<int>, blocks: seq<Block>, i: nat, begin: nat, end: nat)
    requires Input(offsets, blocks) && i < |offsets| && offsets[i] >= 0 && begin <= end
    requires WritersSeen(offsets, i + 1, false, begin, end)
    ensures forall w :: 0 <= w < |offsets| ==> (begin <= w < end <==> offsets[w] == -1)
  {
    forall w | i < w < |offsets|
      ensures offsets[w] >= 0
    {
      assert offsets[i] <= offsets[w];
    }
  }

  /** Everything the quadratic check demands for block i. */
  method CheckBlock(dag: Graph, offsets: seq<int>, blocks: seq<Block>, lowerBound: int, i: nat, begin: nat, end: nat)
    returns (ok: bool)
    requires Input(offsets, blocks) && i < |blocks| && begin <= end <= |blocks|
    requires offsets[i] >= 0 ==> forall w :: 0 <= w < |offsets| ==> (begin <= w < end <==> offsets[w] == -1)
    requires PairedUpTo(dag, offsets, blocks, lowerBound, i)
    ensures ok <==> PairedUpTo(dag, offsets, blocks, lowerBound, i + 1)
  {
    ok := true;
    if offsets[i] != -3 {
      ok := CheckPairs(dag, offsets, blocks, i);
      // the two accessible size blocks end at 0 and never exceed the bound
      if ok && offsets[i] >= 0 {
        ok := CheckAgainstWriters((u: nat, v: nat) => EitherEdge(dag, u, v), offsets, blocks, lowerBound,
                                  i, begin, end);
      }
    }
  }

  /** The quadratic check: no bound is missing, and one registered dependency per colliding pair, either way. */
  method FindCollisions(dag: Graph, offsets: seq<int>, blocks: seq<Block>, bound: Option<int>) returns (accepted: bool)
    requires Input(offsets, blocks)
    ensures accepted <==> Bounded(offsets, bound) && PairedUpTo(dag, offsets, blocks, BoundOf(bound), |blocks|)
  {
    var writersBegin, writersEnd := 0, 0;
    var inSizeWriterList := false;
    var i := 0;
    while i < |blocks|
      invariant 0 <= i <= |blocks| && WritersSeen(offsets, i, inSizeWriterList, writersBegin, writersEnd)
      invariant writersEnd > 0 ==> bound.Some?
      invariant PairedUpTo(dag, offsets, blocks, BoundOf(bound), i)
    {
      var offset := offsets[i];
      if !inSizeWriterList && offset == -1 {
        inSizeWriterList := true;
        writersBegin := i;
      } else if inSizeWriterList && offset != -1 {
        inSizeWriterList := false;
        writersEnd := i;
        if bound.None? {
          assert offsets[writersBegin] == -1 && offsets[i] >= 0;
          return false;
        }
      }
      if offset >= 0 {
        WritersComplete(offsets, blocks, i, writersBegin, writersEnd);
      }
      var ok := CheckBlock(dag, offsets, blocks, BoundOf(bound), i, writersBegin,
                           if inSizeWriterList then writersBegin else writersEnd);
      if !ok {
        return false;
      }
      i := i + 1;
    }
    return true;
  }

  // ---------- the two checks against each other ----------

  /** The declared blocks obey the documented obligations, and no size block is cut. */
  predicate Regular(offsets: seq<int>, blocks: seq<Block>)
    requires |offsets| == |blocks|
  {
    NonEmpty(offsets, blocks) && DisjointPerRequest(offsets, blocks) && UncutSizes(offsets, blocks)
  }

  /** What `checkCollisions` demands of the graph. */
  ghost predicate Passes(dag: Graph, offsets: seq<int>, blocks: seq<Block>, bound: Option<int>)
    requires Input(offsets, blocks)
  {
    && Accepts(dag, Initial(offsets, blocks)) && Bounded(offsets, bound)
    && forall i, w :: ResizingPair(offsets, blocks, BoundOf(bound), i, w) ==>
         OrderedEdge(dag, blocks[i].request, blocks[w].request)
  }

  /** `checkCollisions`: both verifier passes over the sorted blocks of one chunk. */
  method CheckCollisions(dag: Graph, offsets: seq<int>, blocks: seq<Block>, bound: Option<int>) returns (accepted: bool)
    requires Input(offsets, blocks)
    ensures accepted <==> Passes(dag, offsets, blocks, bound)
  {
    accepted := FindResizingCollisions(dag, offsets, blocks, bound);
    if accepted {
      accepted := FindCollisionCliques(dag, offsets, blocks);
    }
  }

  /** When the check passes and asks for enough, every pair that the quadratic check registers is joined by a directed
      path, and so is every resizing pair. */
  lemma {:induction false} PassedIsSound(dag: Graph, offsets: seq<int>, blocks: seq<Block>, bound: Option<int>)
    requires Input(offsets, blocks) && forall k :: 0 <= k < |blocks| ==> blocks[k].request < |dag|
    requires Passes(dag, offsets, blocks, bound)
    ensures AsksEnough(|dag|, offsets, blocks) ==> Covered(dag, offsets, blocks)
    ensures forall i, w :: ResizingPair(offsets, blocks, BoundOf(bound), i, w) ==>
              Linked(dag, blocks[i].request, blocks[w].request)
  {
    if AsksEnough(|dag|, offsets, blocks) {
      AcceptedCovers(dag, offsets, blocks);
    }
    forall i, w | ResizingPair(offsets, blocks, BoundOf(bound), i, w)
      ensures Linked(dag, blocks[i].request, blocks[w].request)
    {
      var u, v := blocks[i].request, blocks[w].request;
      ReachEdge(dag, if u < v then u else v, if u < v then v else u);
    }
  }

  /** A graph with ascending edges that the quadratic check accepts also passes, if the declared blocks are regular. */
  lemma {:induction false} PairedPasses(dag: Graph, offsets: seq<int>, blocks: seq<Block>, bound: Option<int>)
    requires Input(offsets, blocks) && forall k :: 0 <= k < |blocks| ==> blocks[k].request < |dag|
    requires Regular(offsets, blocks) && Ascending(dag) && Bounded(offsets, bound)
    requires PairedUpTo(dag, offsets, blocks, BoundOf(bound), |blocks|)
    ensures Passes(dag, offsets, blocks, bound)
  {
    forall p, q | CollidingPair(offsets, blocks, p, q)
      ensures OrderedEdge(dag, blocks[p].request, blocks[q].request)
    {
      assert EitherEdge(dag, blocks[p].request, blocks[q].request);
    }
    DirectIsAccepted(dag, offsets, blocks);
  }

  /** Regular blocks of which any three that overlap end together: what the check asks for is enough. */
  lemma {:induction false} EvenTriplesAskEnough(n: nat, offsets: seq<int>, blocks: seq<Block>)
    requires Input(offsets, blocks) && Regular(offsets, blocks) && forall k :: 0 <= k < |blocks| ==>
             blocks[k].request < n
    requires EvenTriples(Source(offsets, blocks))
    ensures AsksEnough(n, offsets, blocks)
  {
    EvenTriplesLossless(seq(n, _ => {}), offsets, blocks);
    LosslessAsksEnough(n, offsets, blocks);
  }

  // ---------- what the check is for ----------

  /** Two declared blocks that must not be used at the same time: they overlap in data and their types collide, one
      changes the size that the other sees, or one may resize the chunk so that the other's validity changes. */
  ghost predicate Disagree(offsets: seq<int>, blocks: seq<Block>, lowerBound: int, p: int, q: int)
    requires |offsets| == |blocks|
  {
    && 0 <= p < |blocks| && 0 <= q < |blocks| && blocks[p].request != blocks[q].request
    && ((OverlapInData(offsets[p], blocks[p].size, offsets[q], blocks[q].size) &&
        Collides(blocks[p].access, blocks[q].access) &&
         !(blocks[p].access == IntAdditive && blocks[q].access == IntAdditive &&
           offsets[p] == offsets[q] && blocks[p].size == blocks[q].size))
        || (IsSizeBlock(offsets[p]) && IsSizeBlock(offsets[q]) && Collides(blocks[p].access, blocks[q].access))
        || (offsets[q] == -1 && MayDisturb(offsets[p], blocks[p].size, blocks[q].size, lowerBound))
        || (offsets[p] == -1 && MayDisturb(offsets[q], blocks[q].size, blocks[p].size, lowerBound)))
  }

  predicate OverlapInData(o1: int, s1: int, o2: int, s2: int) {
    o1 >= 0 && o2 >= 0 && o1 < o2 + s2 && o2 < o1 + s1
  }

  predicate IsSizeBlock(offset: int) {
    offset == -1 || offset == -2
  }

  /** A data block that reaches above the lower bound of the chunk, and an expander that may reach into it or a shrinker
      that may cut it. */
  predicate MayDisturb(offset: int, size: int, newSize: int, lowerBound: int) {
    && offset >= 0 && offset + size > lowerBound
    && ((newSize > 0 && offset < newSize) || (newSize <= 0 && -newSize < offset + size))
  }

  lemma {:induction false} CollidingDisagree(offsets: seq<int>, blocks: seq<Block>, lowerBound: int, p: int, q: int)
    requires Input(offsets, blocks) && Regular(offsets, blocks) && CollidingPair(offsets, blocks, p, q)
    ensures Disagree(offsets, blocks, lowerBound, p, q)
  {
    CollidesIsConflict(blocks[p].access, blocks[q].access);
  }

  /** The check passes when every two blocks of different requests that disagree have their edge. */
  lemma {:induction false} EdgesForDisagreements(dag: Graph, offsets: seq<int>, blocks: seq<Block>, bound: Option<int>)
    requires Input(offsets, blocks) && forall k :: 0 <= k < |blocks| ==> blocks[k].request < |dag|
    requires Regular(offsets, blocks)
    requires bound.None? ==> forall i, w :: 0 <= i < |blocks| && 0 <= w < |blocks| ==>
             !(offsets[w] == -1 && offsets[i] >= 0)
    requires forall p, q :: Disagree(offsets, blocks, BoundOf(bound), p, q) && blocks[p].request < blocks[q].request ==>
               IsAdjacent(dag, blocks[p].request, blocks[q].request)
    ensures Passes(dag, offsets, blocks, bound)
  {
    forall p, q | CollidingPair(offsets, blocks, p, q)
      ensures OrderedEdge(dag, blocks[p].request, blocks[q].request)
    {
      CollidingDisagree(offsets, blocks, BoundOf(bound), p, q);
      assert Disagree(offsets, blocks, BoundOf(bound), q, p) by {
        CollidesIsConflict(blocks[p].access, blocks[q].access);
      }
    }
    forall i, w | ResizingPair(offsets, blocks, BoundOf(bound), i, w)
      ensures OrderedEdge(dag, blocks[i].request, blocks[w].request)
    {
      assert Disagree(offsets, blocks, BoundOf(bound), i, w) && Disagree(offsets, blocks, BoundOf(bound), w, i);
    }
    DirectIsAccepted(dag, offsets, blocks);
  }

  /** The blocks of a single request pass with every graph, even if it resizes the chunk and writes to it. */
  lemma {:induction false} OneRequestPasses(dag: Graph, offsets: seq<int>, blocks: seq<Block>, bound: Option<int>,
                                            r: nat)
    requires Input(offsets, blocks) && Regular(offsets, blocks) && bound.Some? && r < |dag|
    requires forall k :: 0 <= k < |blocks| ==> blocks[k].request == r
    ensures Passes(dag, offsets, blocks, bound)
  {
    EdgesForDisagreements(dag, offsets, blocks, bound);
  }

  /** Conversely, when the check passes and asks for enough, every two blocks that disagree are ordered by a path. */
  lemma {:induction false} PassedOrdersDisagreements(dag: Graph, offsets: seq<int>, blocks: seq<Block>,
                                                     bound: Option<int>,
                                                     p: int, q: int)
    requires Input(offsets, blocks) && forall k :: 0 <= k < |blocks| ==> blocks[k].request < |dag|
    requires Passes(dag, offsets, blocks, bound) && AsksEnough(|dag|, offsets, blocks)
    requires Disagree(offsets, blocks, BoundOf(bound), p, q) && blocks[p].request < blocks[q].request
    ensures Reaches(dag, blocks[p].request, blocks[q].request)
  {
    PassedIsSound(dag, offsets, blocks, bound);
    hide Passes, AsksEnough;
    DisagreeingPair(offsets, blocks, BoundOf(bound), p, q);
  }

  /** The quadratic check demands exactly an edge, in one direction or the other, for every two blocks that disagree. */
  lemma {:induction false} PairedIffDisagreements(dag: Graph, offsets: seq<int>, blocks: seq<Block>, lowerBound: int)
    requires Input(offsets, blocks) && Regular(offsets, blocks)
    ensures PairedUpTo(dag, offsets, blocks, lowerBound, |blocks|) <==>
            forall p, q :: Disagree(offsets, blocks, lowerBound, p, q) ==>
                EitherEdge(dag, blocks[p].request, blocks[q].request)
  {
    if PairedUpTo(dag, offsets, blocks, lowerBound, |blocks|) {
      forall p, q | Disagree(offsets, blocks, lowerBound, p, q)
        ensures EitherEdge(dag, blocks[p].request, blocks[q].request)
      {
        DisagreeingPair(offsets, blocks, lowerBound, p, q);
      }
    }
    if forall p, q :: Disagree(offsets, blocks, lowerBound, p, q) ==>
        EitherEdge(dag, blocks[p].request, blocks[q].request) {
      forall p, q | CollidingPair(offsets, blocks, p, q)
        ensures EitherEdge(dag, blocks[p].request, blocks[q].request)
      {
        CollidingDisagree(offsets, blocks, lowerBound, p, q);
      }
      forall i, w | ResizingPair(offsets, blocks, lowerBound, i, w)
        ensures EitherEdge(dag, blocks[i].request, blocks[w].request)
      {
        assert Disagree(offsets, blocks, lowerBound, i, w);
      }
    }
  }

  lemma {:induction false} DisagreeingPair(offsets: seq<int>, blocks: seq<Block>, lowerBound: int, p: int, q: int)
    requires Input(offsets, blocks) && Disagree(offsets, blocks, lowerBound, p, q)
    ensures CollidingPair(offsets, blocks, p, q) || CollidingPair(offsets, blocks, q, p) ||
            ResizingPair(offsets, blocks, lowerBound, p, q) || ResizingPair(offsets, blocks, lowerBound, q, p)
  {
    CollidesIsConflict(blocks[p].access, blocks[q].access);
  }
}
