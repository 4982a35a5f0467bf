/** Soundness of the cluster-product sweep: an accepted sweep that loses nothing at a split leaves a directed path
    between every two requests that the quadratic `findCollisions` pairs. */
module SweepSoundness {
  import opened Access
  import opened Dag
  import opened Clusters
  import opened CollisionSweep

  function Names(src: seq<Block>, marks: set<Mark>): set<nat> {
    set m | m in marks && m.origin < |src| :: src[m.origin].request
  }

  /** Members are exactly the requests of the marks; cliques are sorted. */
  ghost predicate Traced(dag: Graph, src: seq<Block>, p: Piece) {
    && p.origin < |src| && src[p.origin].request == p.block.request < |dag|
    && (forall m :: m in p.marks ==> m.origin < |src|)
    && (forall x :: x in p.members <==> x in Names(src, p.marks))
    && InRange(dag, p.members)
    && (p.block.access == Writable ==> Sorted(p.members))
  }

  ghost predicate AllTraced(dag: Graph, src: seq<Block>, L: seq<Piece>) {
    forall k :: 0 <= k < |L| ==> Traced(dag, src, L[k])
  }

  lemma {:induction false} NamesUnion(src: seq<Block>, a: set<Mark>, b: set<Mark>)
    ensures Names(src, a + b) == Names(src, a) + Names(src, b)
  {
  }

  lemma {:induction false} OwnTraced(dag: Graph, src: seq<Block>, h: Piece)
    requires Traced(dag, src, h)
    ensures InRange(dag, Own(h)) && h.block.request in Own(h)
    ensures forall x :: x in h.members ==> x in Own(h)
    ensures forall x :: x in Own(h) <==> x in Names(src, OwnMarks(h))
    ensures h.block.access == Writable ==> Sorted(Own(h))
  {
    var own := {Mark(h.origin, Fin(h))};
    NamesUnion(src, h.marks, own);
    assert Mark(h.origin, Fin(h)) in own;
    assert h.block.request in Names(src, own);
    assert forall x :: x in Names(src, own) ==> x == h.block.request;
    MergeSortedMembers(h.members, [h.block.request]);
    if h.block.access == Writable {
      MergePrefixesSorted(h.members, [h.block.request], |h.members|, 1);
    }
  }

  lemma {:induction false} AbsorbTraced(dag: Graph, src: seq<Block>, h: Piece, p: Piece)
    requires Traced(dag, src, h) && Traced(dag, src, p) && h.block.access == p.block.access
    ensures Traced(dag, src, Absorb(h, p))
    ensures forall x :: x in Own(h) || x in p.members ==> x in Absorb(h, p).members
  {
    OwnTraced(dag, src, h);
    NamesUnion(src, p.marks, OwnMarks(h));
    MergeSortedMembers(p.members, Own(h));
    if h.block.access == Writable {
      MergePrefixesSorted(p.members, Own(h), |p.members|, |Own(h)|);
    }
  }

  lemma {:induction false} NextTraced(dag: Graph, src: seq<Block>, h: Piece, rest: seq<Piece>, j: nat)
    requires Traced(dag, src, h) && AllTraced(dag, src, rest)
    requires j == Target(h, rest, 0) < |rest|
    ensures AllTraced(dag, src, Next(h, rest, j))
  {
    AbsorbTraced(dag, src, h, rest[j]);
    var p := Absorb(h, rest[j]);
    var N := Next(h, rest, j);
    if Splits(h, rest, j) {
      assert Traced(dag, src, HeadOf(p, Fin(h)));
      assert Traced(dag, src, TailOf(p, Fin(h)));
      var k := LowerBound(rest, Fin(h));
      forall x | 0 <= x < |N|
        ensures Traced(dag, src, N[x])
      {
        assert x > k ==> N[x] == rest[j := HeadOf(p, Fin(h))][x - 1];
      }
    }
  }

  /** `q`, later in the list, starts inside `p`, and the two collide. */
  predicate Conflict(p: Piece, q: Piece) {
    && p.offset != -3 && q.offset < Fin(p) && Collides(p.block.access, q.block.access)
    && !AdditiveSame(p.offset, p.block, q.offset, q.block)
  }

  /** The request of `p`, and each member of its cluster that reaches `q`, is linked to the request of `q`. */
  ghost predicate Settled(dag: Graph, src: seq<Block>, p: Piece, q: Piece) {
    && Linked(dag, p.block.request, q.block.request)
    && forall m :: m in p.marks && m.reach > q.offset && m.origin < |src| ==>
         Linked(dag, src[m.origin].request, q.block.request)
  }

  ghost predicate AllSettled(dag: Graph, src: seq<Block>, L: seq<Piece>) {
    forall k, l :: 0 <= k < l < |L| && Conflict(L[k], L[l]) ==> Settled(dag, src, L[k], L[l])
  }

  ghost predicate AllCliques(dag: Graph, L: seq<Piece>) {
    forall k :: 0 <= k < |L| && L[k].block.access == Writable && !Skipped(L[k]) ==> Clique(dag, Own(L[k]))
  }

  /** Everything the front block examined before its cluster moved on, or before it was finalized. */
  lemma {:induction false} ExaminedSettled(dag: Graph, src: seq<Block>, h: Piece, rest: seq<Piece>, j: nat, l: nat)
    requires Traced(dag, src, h) && AllTraced(dag, src, rest) && l < j <= |rest|
    requires DependenciesOk(dag, h, rest, j) && Conflict(h, rest[l])
    requires h.block.access == Writable ==> Clique(dag, Own(h))
    ensures Settled(dag, src, h, rest[l])
  {
    OwnTraced(dag, src, h);
    DependencyLinks(dag, h.block.access, Own(h), rest[l].block.request);
    forall m | m in h.marks && m.origin < |src|
      ensures Linked(dag, src[m.origin].request, rest[l].block.request)
    {
      assert src[m.origin].request in Names(src, h.marks);
    }
  }

  /** Where the block at index l of `rest` is found in `Next`. */
  function Moved(h: Piece, rest: seq<Piece>, j: nat, l: nat): nat
    requires j < |rest|
  {
    if Splits(h, rest, j) && l >= LowerBound(rest, Fin(h)) then l + 1 else l
  }

  lemma {:induction false} MovedFacts(h: Piece, rest: seq<Piece>, j: nat, l: nat)
    requires Leads(h, rest) && j == Target(h, rest, 0) < |rest| && l < |rest|
    ensures Moved(h, rest, j, l) < |Next(h, rest, j)|
    ensures l != j ==> Next(h, rest, j)[Moved(h, rest, j, l)] == rest[l]
    ensures l == j ==> Moved(h, rest, j, l) == j
    ensures var p := Absorb(h, rest[j]);
            Next(h, rest, j)[j] == if Splits(h, rest, j) then HeadOf(p, Fin(h)) else p
    ensures Splits(h, rest, j) ==>
              var k := LowerBound(rest, Fin(h));
              j < k < |Next(h, rest, j)| && Next(h, rest, j)[k] == TailOf(rest[j], Fin(h))
  {
  }

  /** Same start, access type and request, and the same cell if additive. */
  predicate StandsFor(p: Piece, q: Piece) {
    && p.offset == q.offset && p.block.access == q.block.access && p.block.request == q.block.request
    && (p.block.access == IntAdditive ==> p.block.size == q.block.size)
  }

  lemma {:induction false} AbsorbedStandsFor(h: Piece, rest: seq<Piece>, j: nat)
    requires Leads(h, rest) && !Skipped(h) && j == Target(h, rest, 0) < |rest|
    ensures StandsFor(Next(h, rest, j)[j], rest[j])
    ensures Fin(Next(h, rest, j)[j]) == if Splits(h, rest, j) then Fin(h) else Fin(rest[j])
    ensures Fin(h) <= Fin(Next(h, rest, j)[j]) && h.block.access == rest[j].block.access
    ensures h.block.access == IntAdditive ==> h.offset == rest[j].offset && h.block.size == rest[j].block.size
  {
    MovedFacts(h, rest, j, j);
  }

  /** A conflict of `p` with `q` is settled when it is for blocks that stand for them and carry the marks of `p`. */
  lemma {:induction false} SettledBy(dag: Graph, src: seq<Block>, p: Piece, q: Piece, p': Piece, q': Piece)
    requires Conflict(p, q) && (Conflict(p', q') ==> Settled(dag, src, p', q'))
    requires StandsFor(p', p) && StandsFor(q', q) && p.marks <= p'.marks && q.offset < Fin(p')
    ensures Settled(dag, src, p, q)
  {
  }

  /** Links owed by the blocks behind the front block carry over from `Next`. */
  lemma {:induction false} BehindSettled(dag: Graph, src: seq<Block>, h: Piece, rest: seq<Piece>, j: nat, x: nat,
                                         y: nat)
    requires Leads(h, rest) && !Skipped(h) && j == Target(h, rest, 0) < |rest|
    requires AllTraced(dag, src, rest) && AllSettled(dag, src, Next(h, rest, j))
    requires Splits(h, rest, j) ==>
               forall m :: m in rest[j].marks ==> m.reach <= rest[LowerBound(rest, Fin(h))].offset
    requires x < y < |rest| && Conflict(rest[x], rest[y])
    ensures Settled(dag, src, rest[x], rest[y])
  {
    var N := Next(h, rest, j);
    var x', y' := Moved(h, rest, j, x), Moved(h, rest, j, y);
    MovedFacts(h, rest, j, x);
    MovedFacts(h, rest, j, y);
    AbsorbedStandsFor(h, rest, j);
    assert StandsFor(N[y'], rest[y]);
    if Splits(h, rest, j) && x == j && rest[y].offset >= Fin(h) {
      var k := LowerBound(rest, Fin(h));
      assert rest[k].offset <= rest[y].offset;
      TailSettles(dag, src, rest[j], rest[y], Fin(h), N[k], N[y']);
    } else {
      assert StandsFor(N[x'], rest[x]);
      SettledBy(dag, src, rest[x], rest[y], N[x'], N[y']);
    }
  }

  /** Past the cut, the remainder of a split block settles what the whole block owed for itself. */
  lemma {:induction false} TailSettles(dag: Graph, src: seq<Block>, p: Piece, q: Piece, cut: int, t: Piece, q': Piece)
    requires p.block.access != IntAdditive && p.offset < cut && Conflict(p, q) && q.offset >= 0
    requires t == TailOf(p, cut) && StandsFor(q', q) && (Conflict(t, q') ==> Settled(dag, src, t, q'))
    requires cut >= 0 && p.offset >= 0
    requires forall m :: m in p.marks ==> m.reach <= q.offset
    ensures Settled(dag, src, p, q)
  {
  }

  /** What the front block still owed when its cluster moved into rest[j] is paid there. */
  lemma {:induction false} AheadSettled(dag: Graph, src: seq<Block>, h: Piece, rest: seq<Piece>, j: nat, y: nat)
    requires Leads(h, rest) && !Skipped(h) && j == Target(h, rest, 0) < |rest|
    requires Traced(dag, src, h) && AllTraced(dag, src, rest)
    requires AllSettled(dag, src, Next(h, rest, j)) && AllCliques(dag, Next(h, rest, j))
    requires j <= y < |rest| && Conflict(h, rest[y])
    ensures Settled(dag, src, h, rest[y])
  {
    var N := Next(h, rest, j);
    MovedFacts(h, rest, j, y);
    MovedFacts(h, rest, j, j);
    AbsorbedStandsFor(h, rest, j);
    var y' := Moved(h, rest, j, y);
    if y == j {
      JoinedSettled(dag, src, h, rest, j);
    } else {
      assert Conflict(N[j], N[y']) ==> Settled(dag, src, N[j], N[y']);
      assert Conflict(N[j], N[y']);
      assert Mark(h.origin, Fin(h)) in OwnMarks(h) && OwnMarks(h) <= N[j].marks;
      assert h.marks <= OwnMarks(h);
    }
  }

  lemma {:induction false} JoinedSettled(dag: Graph, src: seq<Block>, h: Piece, rest: seq<Piece>, j: nat)
    requires Leads(h, rest) && !Skipped(h) && j == Target(h, rest, 0) < |rest|
    requires Traced(dag, src, h) && AllTraced(dag, src, rest) && AllCliques(dag, Next(h, rest, j))
    requires Conflict(h, rest[j])
    ensures Settled(dag, src, h, rest[j])
  {
    var N := Next(h, rest, j);
    MovedFacts(h, rest, j, j);
    AbsorbedStandsFor(h, rest, j);
    AbsorbTraced(dag, src, h, rest[j]);
    NextTraced(dag, src, h, rest, j);
    OwnTraced(dag, src, h);
    OwnTraced(dag, src, N[j]);
    assert h.block.access == Writable;
    assert Clique(dag, Own(N[j]));
    forall m | m in h.marks && m.origin < |src|
      ensures src[m.origin].request in Own(N[j])
    {
      assert src[m.origin].request in Names(src, h.marks);
    }
  }

  lemma {:induction false} CliqueShrinks(dag: Graph, small: seq<nat>, big: seq<nat>)
    requires Clique(dag, big) && forall x :: x in small ==> x in big
    ensures Clique(dag, small)
  {
  }

  lemma {:induction false} CliquesCarry(dag: Graph, src: seq<Block>, h: Piece, rest: seq<Piece>, j: nat)
    requires Leads(h, rest) && !Skipped(h) && j == Target(h, rest, 0) < |rest|
    requires Traced(dag, src, h) && AllTraced(dag, src, rest) && AllCliques(dag, Next(h, rest, j))
    ensures AllCliques(dag, rest) && (h.block.access == Writable ==> Clique(dag, Own(h)))
  {
    var N := Next(h, rest, j);
    NextTraced(dag, src, h, rest, j);
    AbsorbTraced(dag, src, h, rest[j]);
    MovedFacts(h, rest, j, j);
    OwnTraced(dag, src, N[j]);
    OwnTraced(dag, src, rest[j]);
    if h.block.access == Writable {
      CliqueShrinks(dag, Own(h), Own(N[j]));
    }
    forall l | 0 <= l < |rest| && rest[l].block.access == Writable && !Skipped(rest[l])
      ensures Clique(dag, Own(rest[l]))
    {
      MovedFacts(h, rest, j, l);
      if l == j {
        MergeSortedMembers(rest[j].members, [rest[j].block.request]);
        CliqueShrinks(dag, Own(rest[j]), Own(N[j]));
      }
    }
  }

  lemma {:induction false} MergeSettles(dag: Graph, src: seq<Block>, h: Piece, rest: seq<Piece>, j: nat)
    requires Leads(h, rest) && !Skipped(h) && j == Target(h, rest, 0) < |rest|
    requires Traced(dag, src, h) && AllTraced(dag, src, rest) && DependenciesOk(dag, h, rest, j)
    requires AllSettled(dag, src, Next(h, rest, j)) && AllCliques(dag, Next(h, rest, j))
    requires Splits(h, rest, j) ==>
               forall m :: m in rest[j].marks ==> m.reach <= rest[LowerBound(rest, Fin(h))].offset
    ensures AllSettled(dag, src, rest)
    ensures forall l :: 0 <= l < |rest| && Conflict(h, rest[l]) ==> Settled(dag, src, h, rest[l])
  {
    CliquesCarry(dag, src, h, rest, j);
    forall l | 0 <= l < |rest| && Conflict(h, rest[l])
      ensures Settled(dag, src, h, rest[l])
    {
      if l < j {
        ExaminedSettled(dag, src, h, rest, j, l);
      } else {
        AheadSettled(dag, src, h, rest, j, l);
      }
    }
    forall x, y | 0 <= x < y < |rest| && Conflict(rest[x], rest[y])
      ensures Settled(dag, src, rest[x], rest[y])
    {
      BehindSettled(dag, src, h, rest, j, x, y);
    }
  }

  lemma {:induction false} ConsSettled(dag: Graph, src: seq<Block>, L: seq<Piece>)
    requires L != [] && AllSettled(dag, src, L[1..])
    requires forall l :: 0 <= l < |L[1..]| && Conflict(L[0], L[1..][l]) ==> Settled(dag, src, L[0], L[1..][l])
    ensures AllSettled(dag, src, L)
  {
    forall k, l | 0 <= k < l < |L| && Conflict(L[k], L[l])
      ensures Settled(dag, src, L[k], L[l])
    {
      assert L[l] == L[1..][l - 1];
      if k > 0 {
        assert L[k] == L[1..][k - 1];
      }
    }
  }

  /** The main induction: an accepted, lossless sweep settles every conflict of its list and makes every writable
      cluster a clique. */
  lemma {:induction false} SweepSound(dag: Graph, src: seq<Block>, L: seq<Piece>)
    requires Ordered(L) && AllTraced(dag, src, L) && Accepts(dag, L) && Lossless(L)
    ensures AllSettled(dag, src, L) && AllCliques(dag, L)
    decreases Total(L), |L|
  {
    if L != [] {
      var h, rest := L[0], L[1..];
      OrderedLeads(L);
      assert AllTraced(dag, src, rest);
      if Skipped(h) {
        SweepSound(dag, src, rest);
      } else {
        var j := Target(h, rest, 0);
        if j < |rest| {
          NextOrdered(h, rest, j);
          NextShrinks(h, rest, j);
          NextTraced(dag, src, h, rest, j);
          SweepSound(dag, src, Next(h, rest, j));
          CliquesCarry(dag, src, h, rest, j);
          MergeSettles(dag, src, h, rest, j);
        } else {
          SweepSound(dag, src, rest);
          OwnTraced(dag, src, h);
          if h.block.access == Writable {
            ChainIsClique(dag, Own(h));
          }
          forall l | 0 <= l < |rest| && Conflict(h, rest[l])
            ensures Settled(dag, src, h, rest[l])
          {
            ExaminedSettled(dag, src, h, rest, j, l);
          }
        }
      }
      ConsSettled(dag, src, L);
      assert forall k :: 1 <= k < |L| ==> L[k] == rest[k - 1];
    }
  }

  /** Soundness of the cluster-product check. */
  lemma {:induction false} AcceptedIsCovered(dag: Graph, offsets: seq<int>, blocks: seq<Block>)
    requires Input(offsets, blocks) && forall k :: 0 <= k < |blocks| ==> blocks[k].request < |dag|
    requires Accepts(dag, Initial(offsets, blocks)) && Lossless(Initial(offsets, blocks))
    ensures Covered(dag, offsets, blocks)
  {
    var L := Initial(offsets, blocks);
    SweepSound(dag, blocks, L);
    forall p, q | CollidingPair(offsets, blocks, p, q)
      ensures Linked(dag, blocks[p].request, blocks[q].request)
    {
      assert Conflict(L[p], L[q]);
    }
  }
}
