/** Completeness of the cluster-product sweep: as long as no size block is cut, it demands an edge only between two
    requests that the quadratic `findCollisions` pairs, so a graph with a direct edge for every colliding pair is
    accepted. */
module SweepCompleteness {
  import opened Access
  import opened Dag
  import opened Clusters
  import opened CollisionSweep
  import opened SweepSoundness

  /** The input blocks: their offsets and infos. */
  datatype Source = Source(offsets: seq<int>, blocks: seq<Block>) {
    /** A block that the sweep does not pass over for its offset: a size block or a data block of at least one byte. */
    predicate Data(k: nat) {
      k < |blocks| == |offsets| && -2 <= offsets[k] < End(offsets[k], blocks[k])
    }

    function EndAt(k: nat): int
      requires Data(k)
    {
      End(offsets[k], blocks[k])
    }
  }

  /** The pieces behind two marks share a byte and belong to different requests. */
  predicate Meet(src: Source, m: Mark, n: Mark)
    requires src.Data(m.origin) && src.Data(n.origin)
  {
    && src.offsets[m.origin] < n.reach && src.offsets[n.origin] < m.reach
    && src.blocks[m.origin].request != src.blocks[n.origin].request
  }

  /** `m` stands for a part of its input block that starts no later than `p`. */
  predicate Fits(src: Source, p: Piece, m: Mark) {
    && src.Data(m.origin) && src.offsets[m.origin] <= p.offset
    && m.reach <= src.EndAt(m.origin)
    && src.blocks[m.origin].access == p.block.access
    && (p.block.access == IntAdditive ==>
          src.offsets[m.origin] == p.offset && src.blocks[m.origin].size == p.block.size)
  }

  predicate NoDup(s: seq<nat>) {
    forall x :: x in multiset(s) ==> multiset(s)[x] == 1
  }

  ghost predicate Sound(src: Source, p: Piece) {
    && -2 <= p.offset < Fin(p)
    && (forall m :: m in OwnMarks(p) ==> Fits(src, p, m))
    && NoDup(Own(p)) && Huddled(src, p)
  }

  /** The pieces in one cluster pairwise share a byte. */
  ghost predicate Huddled(src: Source, p: Piece) {
    forall m, n :: m in OwnMarks(p) && n in OwnMarks(p) && src.Data(m.origin) && src.Data(n.origin) ==>
      src.offsets[m.origin] < n.reach
  }

  ghost predicate AllMeet(src: Source, p: Piece, q: Piece) {
    forall m, n :: m in OwnMarks(p) && n in OwnMarks(q) && src.Data(m.origin) && src.Data(n.origin) ==>
      Meet(src, m, n)
  }

  /** What every reachable list of the sweep satisfies. */
  ghost predicate Faithful(dag: Graph, src: Source, L: seq<Piece>) {
    && Ordered(L) && AllTraced(dag, src.blocks, L) && Uncut(L)
    && (forall k :: 0 <= k < |L| && !Skipped(L[k]) ==> Sound(src, L[k]))
    && (forall k, l :: 0 <= k < l < |L| ==> MeetIfOverlapping(src, L[k], L[l]))
  }

  /** A size block that may absorb another one ends before the first data block, so it is not split. */
  ghost predicate Uncut(L: seq<Piece>) {
    forall k, l, m :: 0 <= k < l < m < |L| && L[l].offset < 0 <= L[m].offset && !Skipped(L[k]) && !Skipped(L[l]) &&
                      L[k].block.access == L[l].block.access ==>
      Stop(L[l]) <= L[m].offset
  }

  ghost predicate MeetIfOverlapping(src: Source, p: Piece, q: Piece) {
    !Skipped(p) && !Skipped(q) && q.offset < Fin(p) ==> AllMeet(src, p, q)
  }

  /** Every colliding pair has a direct edge. */
  ghost predicate Direct(dag: Graph, src: Source)
    requires |src.offsets| == |src.blocks|
  {
    forall p, q :: CollidingPair(src.offsets, src.blocks, p, q) ==>
      OrderedEdge(dag, src.blocks[p].request, src.blocks[q].request)
  }

  lemma {:induction false} NoDupJoin(a: seq<nat>, b: seq<nat>, c: seq<nat>)
    requires NoDup(a) && NoDup(b) && multiset(c) == multiset(a) + multiset(b)
    requires forall x :: x in a ==> x !in b
    ensures NoDup(c)
  {
    forall x | x in multiset(c)
      ensures multiset(c)[x] == 1
    {
      assert x in multiset(a) <==> x in a;
      assert x in multiset(b) <==> x in b;
    }
  }

  lemma {:induction false} InsertedMultiset(access: Access, s: seq<nat>, x: nat)
    ensures multiset(Inserted(access, s, x)) == multiset(s) + multiset{x}
  {
    MergeSortedMembers(s, [x]);
  }

  lemma {:induction false} JoinedMultiset(access: Access, s: seq<nat>, c: seq<nat>)
    ensures multiset(Joined(access, s, c)) == multiset(s) + multiset(c)
  {
    MergeSortedMembers(s, c);
  }

  /** Merging the cluster of `h` into `p` keeps the requests of the cluster distinct. */
  lemma {:induction false} AbsorbNoDup(dag: Graph, src: Source, h: Piece, p: Piece)
    requires Traced(dag, src.blocks, h) && Traced(dag, src.blocks, p) && h.block.access == p.block.access
    requires Sound(src, h) && Sound(src, p) && AllMeet(src, h, p)
    ensures NoDup(Own(Absorb(h, p)))
  {
    var q := Absorb(h, p);
    JoinedMultiset(h.block.access, p.members, Own(h));
    InsertedMultiset(p.block.access, q.members, p.block.request);
    InsertedMultiset(p.block.access, p.members, p.block.request);
    OwnTraced(dag, src.blocks, h);
    OwnTraced(dag, src.blocks, p);
    forall x, y | x in Own(p) && y in Own(h)
      ensures x != y
    {
      var m :| m in OwnMarks(h) && m.origin < |src.blocks| && src.blocks[m.origin].request == y;
      var n :| n in OwnMarks(p) && n.origin < |src.blocks| && src.blocks[n.origin].request == x;
      assert Fits(src, h, m) && Fits(src, p, n) && Meet(src, m, n);
    }
    NoDupJoin(Own(p), Own(h), Own(q));
  }

  lemma {:induction false} StrictlySorted(s: seq<nat>, a: nat)
    requires Sorted(s) && NoDup(s) && a + 1 < |s|
    ensures s[a] < s[a + 1]
  {
    assert s == s[..a] + [s[a]] + [s[a + 1]] + s[a + 2..];
    assert s[a] in s;
    assert multiset(s)[s[a]] >= multiset{s[a], s[a + 1]}[s[a]];
  }

  /** Two data blocks that collide, share a byte and belong to different requests have their edge. */
  lemma {:induction false} DirectEdge(dag: Graph, src: Source, m: Mark, n: Mark)
    requires Input(src.offsets, src.blocks) && Direct(dag, src)
    requires src.Data(m.origin) && src.Data(n.origin) && Meet(src, m, n)
    requires m.reach <= src.EndAt(m.origin) && n.reach <= src.EndAt(n.origin)
    requires Collides(src.blocks[m.origin].access, src.blocks[n.origin].access)
    requires !AdditiveSame(src.offsets[m.origin], src.blocks[m.origin], src.offsets[n.origin], src.blocks[n.origin])
    ensures OrderedEdge(dag, src.blocks[m.origin].request, src.blocks[n.origin].request)
  {
    CollidesIsConflict(src.blocks[m.origin].access, src.blocks[n.origin].access);
    if m.origin < n.origin {
      assert CollidingPair(src.offsets, src.blocks, m.origin, n.origin);
    } else {
      assert CollidingPair(src.offsets, src.blocks, n.origin, m.origin);
    }
  }

  /** The edges demanded by `addDependency` on the front block's cluster exist. */
  lemma {:induction false} DependencyFound(dag: Graph, src: Source, h: Piece, q: Piece)
    requires Input(src.offsets, src.blocks) && Direct(dag, src)
    requires Traced(dag, src.blocks, h) && Traced(dag, src.blocks, q) && Sound(src, h) && Sound(src, q)
    requires AllMeet(src, h, q) && Collides(h.block.access, q.block.access) && !Absorbs(h, q)
    ensures DependencyOk(dag, h.block.access, Own(h), q.block.request)
  {
    OwnTraced(dag, src.blocks, h);
    var u := q.block.request;
    var n := Mark(q.origin, Fin(q));
    forall x | x in Own(h)
      ensures OrderedEdge(dag, x, u) && x != u
    {
      var m :| m in OwnMarks(h) && m.origin < |src.blocks| && src.blocks[m.origin].request == x;
      assert Fits(src, h, m) && n in OwnMarks(q) && Fits(src, q, n) && Meet(src, m, n);
      DirectEdge(dag, src, m, n);
    }
    var k := UpperBound(Own(h), u);
    assert k > 0 ==> Own(h)[k - 1] in Own(h);
    assert k < |Own(h)| ==> Own(h)[k] in Own(h);
  }

  /** The chain demanded by `finalize` exists. */
  lemma {:induction false} ChainFound(dag: Graph, src: Source, h: Piece)
    requires Input(src.offsets, src.blocks) && Direct(dag, src)
    requires Traced(dag, src.blocks, h) && Sound(src, h) && h.block.access == Writable
    ensures ChainOk(dag, Own(h))
  {
    OwnTraced(dag, src.blocks, h);
    var s := Own(h);
    forall a | 0 <= a < |s| - 1
      ensures IsAdjacent(dag, s[a], s[a + 1])
    {
      StrictlySorted(s, a);
      assert s[a] in s && s[a + 1] in s;
      var m :| m in OwnMarks(h) && m.origin < |src.blocks| && src.blocks[m.origin].request == s[a];
      var n :| n in OwnMarks(h) && n.origin < |src.blocks| && src.blocks[n.origin].request == s[a + 1];
      assert Fits(src, h, m) && Fits(src, h, n) && m != n;
      assert Meet(src, m, n);
      DirectEdge(dag, src, m, n);
    }
  }

  lemma {:induction false} AllMeetFlips(src: Source, p: Piece, q: Piece)
    requires AllMeet(src, p, q)
    ensures AllMeet(src, q, p)
  {
  }

  /** rest[j] after it took over the cluster of `h` (and was cut) still meets whatever `h` and rest[j] met. */
  lemma {:induction false} AbsorbedMeets(src: Source, h: Piece, p: Piece, p': Piece, q: Piece)
    requires AllMeet(src, h, q) && AllMeet(src, p, q)
    requires p'.marks == p.marks + OwnMarks(h) && p'.origin == p.origin
    requires forall n :: n in OwnMarks(q) && src.Data(n.origin) ==> src.offsets[n.origin] < Fin(p')
    ensures AllMeet(src, p', q)
  {
    forall m, n | m in OwnMarks(p') && n in OwnMarks(q) && src.Data(m.origin) && src.Data(n.origin)
      ensures Meet(src, m, n)
    {
      if m in OwnMarks(h) {
        assert Meet(src, m, n);
      } else if m in OwnMarks(p) {
        assert Meet(src, m, n);
      } else {
        assert m == Mark(p.origin, Fin(p'));
        assert Meet(src, Mark(p.origin, Fin(p)), n);
      }
    }
  }

  lemma {:induction false} AbsorbedSound(dag: Graph, src: Source, h: Piece, p: Piece, p': Piece)
    requires Traced(dag, src.blocks, h) && Traced(dag, src.blocks, p) && Absorbs(h, p) && p.offset < Fin(h)
    requires Sound(src, h) && Sound(src, p) && AllMeet(src, h, p) && h.offset <= p.offset
    requires p' == Absorb(h, p) || (0 <= p.offset && Fin(h) < Stop(p) && p' == HeadOf(Absorb(h, p), Fin(h)))
    ensures Sound(src, p')
  {
    AbsorbNoDup(dag, src, h, p);
    assert Own(p') == Own(Absorb(h, p));
    assert OwnMarks(p') == p.marks + OwnMarks(h) + {Mark(p.origin, Fin(p'))};
    assert Mark(p.origin, Fin(p)) in OwnMarks(p);
    forall m | m in OwnMarks(p')
      ensures Fits(src, p', m) && src.offsets[m.origin] <= p.offset
    {
      if m in OwnMarks(h) {
        assert Fits(src, h, m);
      } else if m in p.marks {
        assert Fits(src, p, m);
      } else {
        assert Fits(src, p, Mark(p.origin, Fin(p)));
      }
    }
    forall m, n | m in OwnMarks(p') && n in OwnMarks(p')
      ensures src.offsets[m.origin] < n.reach
    {
      assert Fits(src, p', m) && Fits(src, p', n);
      if n == Mark(p.origin, Fin(p')) {
      } else if m == Mark(p.origin, Fin(p')) {
        var m' := Mark(p.origin, Fin(p));
        if n in OwnMarks(h) {
          assert Meet(src, n, m');
        } else {
          assert n in OwnMarks(p);
        }
      } else if n in OwnMarks(h) && m in OwnMarks(h) {
      } else if n in OwnMarks(h) {
        assert m in OwnMarks(p) && Meet(src, n, m);
      } else if m in OwnMarks(h) {
        assert n in OwnMarks(p) && Meet(src, m, n);
      } else {
        assert m in OwnMarks(p) && n in OwnMarks(p);
      }
    }
  }

  lemma {:induction false} MarksStartBy(src: Source, q: Piece, end: int)
    requires Sound(src, q) && q.offset < end
    ensures forall n :: n in OwnMarks(q) && src.Data(n.origin) ==> src.offsets[n.origin] < end
  {
    assert forall n :: n in OwnMarks(q) ==> Fits(src, q, n);
  }

  /** The front block `h` leads a faithful list. */
  ghost predicate FrontFaithful(dag: Graph, src: Source, h: Piece, rest: seq<Piece>) {
    && Leads(h, rest) && !Skipped(h) && Traced(dag, src.blocks, h) && Sound(src, h) && Faithful(dag, src, rest)
    && (forall l :: 0 <= l < |rest| ==> MeetIfOverlapping(src, h, rest[l])) && LeavesUncut(h, rest)
  }

  ghost predicate LeavesUncut(h: Piece, rest: seq<Piece>) {
    forall l, m :: 0 <= l < m < |rest| && rest[l].offset < 0 <= rest[m].offset && !Skipped(rest[l]) &&
                   h.block.access == rest[l].block.access ==>
      Stop(rest[l]) <= rest[m].offset
  }

  /** Only data blocks are split. */
  lemma {:induction false} SplitIsData(h: Piece, rest: seq<Piece>, j: nat)
    requires Leads(h, rest) && !Skipped(h) && j == Target(h, rest, 0) < |rest| && LeavesUncut(h, rest)
    ensures Splits(h, rest, j) ==> h.offset >= 0 && rest[j].offset >= 0
  {
    var _ := LowerBound(rest, Fin(h));
  }

  lemma {:induction false} NextUncut(h: Piece, rest: seq<Piece>, j: nat)
    requires Leads(h, rest) && !Skipped(h) && j == Target(h, rest, 0) < |rest| && LeavesUncut(h, rest) && Uncut(rest)
    ensures Uncut(Next(h, rest, j))
  {
    SplitIsData(h, rest, j);
    if Splits(h, rest, j) {
      NextIsData(h, rest, j);
    } else {
      UncutSame(rest, j, Absorb(h, rest[j]));
    }
  }

  lemma {:induction false} UncutSame(rest: seq<Piece>, j: nat, p: Piece)
    requires Uncut(rest) && j < |rest| && p.offset == rest[j].offset && p.block == rest[j].block
    ensures Uncut(rest[j := p])
  {
  }

  lemma {:induction false} NextIsData(h: Piece, rest: seq<Piece>, j: nat)
    requires Leads(h, rest) && !Skipped(h) && j == Target(h, rest, 0) < |rest| && h.offset >= 0
    ensures forall x :: 0 <= x < |Next(h, rest, j)| ==> Next(h, rest, j)[x].offset >= 0
  {
    forall x | 0 <= x < |Next(h, rest, j)|
      ensures Next(h, rest, j)[x].offset >= 0
    {
      NextAt(h, rest, j, x);
      AbsorbedStandsFor(h, rest, j);
      hide Next, Target;
    }
  }

  /** Pairs with the block that absorbed `h` on the left or on the right. */
  lemma {:induction false} AbsorbedPair(dag: Graph, src: Source, h: Piece, rest: seq<Piece>, j: nat, l: nat)
    requires FrontFaithful(dag, src, h, rest) && j == Target(h, rest, 0) < |rest| && l < |rest| && l != j
    ensures l < j ==> MeetIfOverlapping(src, rest[l], Next(h, rest, j)[j])
    ensures l > j ==> MeetIfOverlapping(src, Next(h, rest, j)[j], rest[l])
  {
    if l < j {
      AbsorbedAfter(dag, src, h, rest, j, l);
    } else {
      AbsorbedBefore(dag, src, h, rest, j, l);
    }
  }

  lemma {:induction false} AbsorbedAfter(dag: Graph, src: Source, h: Piece, rest: seq<Piece>, j: nat, l: nat)
    requires FrontFaithful(dag, src, h, rest) && j == Target(h, rest, 0) < |rest| && l < j
    ensures MeetIfOverlapping(src, rest[l], Next(h, rest, j)[j])
  {
    MovedFacts(h, rest, j, j);
    AbsorbedStandsFor(h, rest, j);
    var p, p', q := rest[j], Next(h, rest, j)[j], rest[l];
    assert MeetIfOverlapping(src, h, q);
    assert MeetIfOverlapping(src, h, p);
    if !Skipped(q) {
      assert Sound(src, q);
      assert MeetIfOverlapping(src, q, p);
      if p.offset < Fin(q) {
        assert q.offset < Fin(h);
        AllMeetFlips(src, q, p);
        MarksStartBy(src, q, Fin(p'));
        AbsorbedMeets(src, h, p, p', q);
        AllMeetFlips(src, p', q);
      }
    }
  }

  /** No block starts between the end of h and that of what took its members over, or else the latter was cut. */
  lemma {:induction false} NothingBetween(h: Piece, rest: seq<Piece>, j: nat, l: nat)
    requires Leads(h, rest) && !Skipped(h) && LeavesUncut(h, rest)
    requires j == Target(h, rest, 0) < l < |rest| && rest[l].offset < Fin(Next(h, rest, j)[j])
    ensures rest[l].offset < Fin(h)
  {
  }

  lemma {:induction false} AbsorbedBefore(dag: Graph, src: Source, h: Piece, rest: seq<Piece>, j: nat, l: nat)
    requires FrontFaithful(dag, src, h, rest) && j == Target(h, rest, 0) < |rest| && j < l < |rest|
    ensures MeetIfOverlapping(src, Next(h, rest, j)[j], rest[l])
  {
    MovedFacts(h, rest, j, j);
    AbsorbedStandsFor(h, rest, j);
    var p, p', q := rest[j], Next(h, rest, j)[j], rest[l];
    assert MeetIfOverlapping(src, h, q);
    assert MeetIfOverlapping(src, h, p);
    if !Skipped(q) && q.offset < Fin(p') {
      assert Sound(src, q);
      assert MeetIfOverlapping(src, p, q);
      NothingBetween(h, rest, j, l);
      MarksStartBy(src, q, Fin(p'));
      AbsorbedMeets(src, h, p, p', q);
    }
  }

  /** Pairs with the remainder of a split. */
  lemma {:induction false} TailPair(dag: Graph, src: Source, h: Piece, rest: seq<Piece>, j: nat, l: nat)
    requires FrontFaithful(dag, src, h, rest) && j == Target(h, rest, 0) < |rest| && l < |rest| && l != j
    requires Splits(h, rest, j)
    ensures l < LowerBound(rest, Fin(h)) ==> MeetIfOverlapping(src, rest[l], TailOf(rest[j], Fin(h)))
    ensures l >= LowerBound(rest, Fin(h)) ==> MeetIfOverlapping(src, TailOf(rest[j], Fin(h)), rest[l])
  {
    SplitIsData(h, rest, j);
    var p, t, q := rest[j], TailOf(rest[j], Fin(h)), rest[l];
    assert Fin(t) == Fin(p);
    assert OwnMarks(t) <= OwnMarks(p);
    if !Skipped(q) {
      if l < j {
        assert MeetIfOverlapping(src, q, p);
      } else {
        assert MeetIfOverlapping(src, p, q);
        if q.offset < Fin(p) {
          AllMeetFlips(src, p, q);
        }
      }
    }
  }

  lemma {:induction false} NextSound(dag: Graph, src: Source, h: Piece, rest: seq<Piece>, j: nat, x: nat)
    requires FrontFaithful(dag, src, h, rest) && j == Target(h, rest, 0) < |rest|
    requires x < |Next(h, rest, j)| && !Skipped(Next(h, rest, j)[x])
    ensures Sound(src, Next(h, rest, j)[x])
  {
    SplitIsData(h, rest, j);
    NextAt(h, rest, j, x);
    MovedFacts(h, rest, j, j);
    hide Next, Target, LowerBound, Sound, AllMeet;
    if x == j {
      assert MeetIfOverlapping(src, h, rest[j]);
      AbsorbedSound(dag, src, h, rest[j], Next(h, rest, j)[j]);
    } else if Splits(h, rest, j) && x == LowerBound(rest, Fin(h)) {
      TailSound(src, rest[j], Fin(h));
    }
  }

  lemma {:induction false} NextFaithful(dag: Graph, src: Source, h: Piece, rest: seq<Piece>, j: nat)
    requires FrontFaithful(dag, src, h, rest) && j == Target(h, rest, 0) < |rest|
    ensures Faithful(dag, src, Next(h, rest, j))
  {
    var N := Next(h, rest, j);
    NextOrdered(h, rest, j);
    NextTraced(dag, src.blocks, h, rest, j);
    NextUncut(h, rest, j);
    hide Next, Sound, MeetIfOverlapping, Uncut;
    forall x | 0 <= x < |N| && !Skipped(N[x])
      ensures Sound(src, N[x])
    {
      NextSound(dag, src, h, rest, j, x);
    }
    forall x, y | 0 <= x < y < |N|
      ensures MeetIfOverlapping(src, N[x], N[y])
    {
      NextPair(dag, src, h, rest, j, x, y);
    }
  }

  lemma {:induction false} TailSound(src: Source, p: Piece, cut: int)
    requires Sound(src, p) && 0 <= p.offset < cut < Fin(p) && p.block.access != IntAdditive
    ensures Sound(src, TailOf(p, cut))
  {
    var t := TailOf(p, cut);
    assert OwnMarks(t) == {Mark(p.origin, Fin(p))} <= OwnMarks(p);
    assert Fits(src, p, Mark(p.origin, Fin(p)));
    InsertedMultiset(t.block.access, [], p.block.request);
  }

  /** Where the block at index x of `Next` comes from. */
  lemma {:induction false} NextAt(h: Piece, rest: seq<Piece>, j: nat, x: nat)
    requires Leads(h, rest) && j == Target(h, rest, 0) < |rest| && x < |Next(h, rest, j)|
    ensures var k := LowerBound(rest, Fin(h));
            if Splits(h, rest, j) && x == k then Next(h, rest, j)[x] == TailOf(rest[j], Fin(h))
            else CameFrom(h, rest, j, x, if Splits(h, rest, j) && x > k then x - 1 else x)
    ensures Splits(h, rest, j) ==> j < LowerBound(rest, Fin(h))
  {
  }

  /** The two parts of a split block do not overlap. */
  lemma {:induction false} HeadAndTail(dag: Graph, src: Source, h: Piece, rest: seq<Piece>, j: nat)
    requires FrontFaithful(dag, src, h, rest) && j == Target(h, rest, 0) < |rest| && Splits(h, rest, j)
    ensures MeetIfOverlapping(src, Next(h, rest, j)[j], TailOf(rest[j], Fin(h)))
  {
    AbsorbedStandsFor(h, rest, j);
  }

  lemma {:induction false} OldPair(dag: Graph, src: Source, h: Piece, rest: seq<Piece>, x: nat, y: nat)
    requires FrontFaithful(dag, src, h, rest) && x < y < |rest|
    ensures MeetIfOverlapping(src, rest[x], rest[y])
  {
  }

  lemma {:induction false} NextPair(dag: Graph, src: Source, h: Piece, rest: seq<Piece>, j: nat, x: nat, y: nat)
    requires FrontFaithful(dag, src, h, rest) && j == Target(h, rest, 0) < |rest|
    requires x < y < |Next(h, rest, j)|
    ensures MeetIfOverlapping(src, Next(h, rest, j)[x], Next(h, rest, j)[y])
  {
    assert Leads(h, rest);
    hide Leads, MeetIfOverlapping, FrontFaithful, LowerBound, Target, Next, Splits;
    NextAt(h, rest, j, x);
    NextAt(h, rest, j, y);
    if Splits(h, rest, j) {
      var k := LowerBound(rest, Fin(h));
      SplitPair(dag, src, h, rest, j, x, y, if x > k then x - 1 else x, if y > k then y - 1 else y);
    } else {
      MovedPair(dag, src, h, rest, j, x, y, x, y);
    }
  }

  /** Where a block x of `Next` was before: block x0, unless it is the block j or at the place k of the remainder. */
  ghost predicate CameFrom(h: Piece, rest: seq<Piece>, j: nat, x: nat, x0: nat)
    requires j < |rest|
  {
    x < |Next(h, rest, j)| && x0 < |rest| && (x0 == j <==> x == j) && (x0 != j ==> Next(h, rest, j)[x] == rest[x0])
  }

  /** Pairs after a split. */
  lemma {:induction false} SplitPair(dag: Graph, src: Source, h: Piece, rest: seq<Piece>, j: nat, x: nat, y: nat,
                                     x0: nat, y0: nat)
    requires FrontFaithful(dag, src, h, rest) && j == Target(h, rest, 0) < |rest| && Splits(h, rest, j)
    requires x < y < |Next(h, rest, j)|
    requires var k := LowerBound(rest, Fin(h));
             && x0 == (if x > k then x - 1 else x) && y0 == (if y > k then y - 1 else y) && j < k
             && (if x == k then Next(h, rest, j)[x] == TailOf(rest[j], Fin(h)) else CameFrom(h, rest, j, x, x0))
             && (if y == k then Next(h, rest, j)[y] == TailOf(rest[j], Fin(h)) else CameFrom(h, rest, j, y, y0))
    ensures MeetIfOverlapping(src, Next(h, rest, j)[x], Next(h, rest, j)[y])
  {
    hide MeetIfOverlapping, FrontFaithful, LowerBound, Target, Next, Splits;
    var k := LowerBound(rest, Fin(h));
    if x == k {
      TailPair(dag, src, h, rest, j, y0);
    } else if y != k {
      MovedPair(dag, src, h, rest, j, x, y, x0, y0);
    } else if x != j {
      TailPair(dag, src, h, rest, j, x0);
    } else {
      HeadAndTail(dag, src, h, rest, j);
    }
  }

  /** Pairs without the remainder of a split. */
  lemma {:induction false} MovedPair(dag: Graph, src: Source, h: Piece, rest: seq<Piece>, j: nat, x: nat, y: nat,
                                     x0: nat, y0: nat)
    requires FrontFaithful(dag, src, h, rest) && j == Target(h, rest, 0) < |rest|
    requires x < y && x0 < y0 && CameFrom(h, rest, j, x, x0) && CameFrom(h, rest, j, y, y0)
    ensures MeetIfOverlapping(src, Next(h, rest, j)[x], Next(h, rest, j)[y])
  {
    hide MeetIfOverlapping, FrontFaithful, Target, Next;
    if x == j {
      AbsorbedPair(dag, src, h, rest, j, y0);
    } else if y == j {
      AbsorbedPair(dag, src, h, rest, j, x0);
    } else {
      OldPair(dag, src, h, rest, x0, y0);
    }
  }

  lemma {:induction false} FaithfulFront(dag: Graph, src: Source, L: seq<Piece>)
    requires L != [] && Faithful(dag, src, L)
    ensures Faithful(dag, src, L[1..]) && (!Skipped(L[0]) ==> FrontFaithful(dag, src, L[0], L[1..]))
  {
    OrderedLeads(L);
    var rest := L[1..];
    assert forall k :: 0 <= k < |rest| ==> rest[k] == L[k + 1];
    forall k, l | 0 <= k < l < |rest|
      ensures MeetIfOverlapping(src, rest[k], rest[l])
    {
      assert MeetIfOverlapping(src, L[k + 1], L[l + 1]);
    }
    forall l | 0 <= l < |rest|
      ensures MeetIfOverlapping(src, L[0], rest[l])
    {
      assert MeetIfOverlapping(src, L[0], L[l + 1]);
    }
  }

  lemma {:induction false} DependenciesFound(dag: Graph, src: Source, h: Piece, rest: seq<Piece>)
    requires Input(src.offsets, src.blocks) && Direct(dag, src) && FrontFaithful(dag, src, h, rest)
    ensures DependenciesOk(dag, h, rest, Target(h, rest, 0))
  {
    var j := Target(h, rest, 0);
    forall l | 0 <= l < j && rest[l].offset < Fin(h) && Collides(h.block.access, rest[l].block.access)
      ensures DependencyOk(dag, h.block.access, Own(h), rest[l].block.request)
    {
      assert MeetIfOverlapping(src, h, rest[l]);
      DependencyFound(dag, src, h, rest[l]);
    }
  }

  lemma {:induction false} SweepComplete(dag: Graph, src: Source, L: seq<Piece>)
    requires Input(src.offsets, src.blocks) && Direct(dag, src) && Faithful(dag, src, L)
    ensures Accepts(dag, L)
    decreases Total(L), |L|
  {
    if L != [] {
      var h, rest := L[0], L[1..];
      OrderedLeads(L);
      FaithfulFront(dag, src, L);
      if Skipped(h) {
        SweepComplete(dag, src, rest);
      } else {
        var j := Target(h, rest, 0);
        DependenciesFound(dag, src, h, rest);
        if j < |rest| {
          NextOrdered(h, rest, j);
          NextShrinks(h, rest, j);
          NextFaithful(dag, src, h, rest, j);
          SweepComplete(dag, src, Next(h, rest, j));
        } else {
          if h.block.access == Writable {
            ChainFound(dag, src, h);
          }
          SweepComplete(dag, src, rest);
        }
      }
    }
  }

  /** Every data block has at least one byte. */
  predicate NonEmpty(offsets: seq<int>, blocks: seq<Block>)
    requires |offsets| == |blocks|
  {
    forall k :: 0 <= k < |blocks| && offsets[k] >= 0 ==> blocks[k].size >= 1
  }

  /** The blocks of one request do not overlap, and at most one of them is an accessible size block. */
  predicate DisjointPerRequest(offsets: seq<int>, blocks: seq<Block>)
    requires |offsets| == |blocks|
  {
    forall p, q :: 0 <= p < q < |blocks| && offsets[p] != -3 && blocks[p].request == blocks[q].request ==>
      End(offsets[p], blocks[p]) <= offsets[q]
  }

  /** No size block behind another one of its kind declares a size that reaches, counted from its offset, past the
      start of a data block: the sweep takes such a size for a range of bytes and cuts it at 0. */
  predicate UncutSizes(offsets: seq<int>, blocks: seq<Block>)
    requires |offsets| == |blocks|
  {
    forall k, l, m :: 0 <= k < l < m < |blocks| && -2 <= offsets[k] && offsets[l] < 0 <= offsets[m] &&
                      blocks[k].access == blocks[l].access != CheckOnly ==>
      offsets[l] + blocks[l].size <= offsets[m]
  }

  lemma {:induction false} InitialSound(dag: Graph, offsets: seq<int>, blocks: seq<Block>, k: nat)
    requires Input(offsets, blocks) && NonEmpty(offsets, blocks) && k < |blocks| && blocks[k].request < |dag|
    ensures Traced(dag, blocks, Initial(offsets, blocks)[k])
    ensures !Skipped(Initial(offsets, blocks)[k]) ==> Sound(Source(offsets, blocks), Initial(offsets, blocks)[k])
  {
    InsertedMultiset(blocks[k].access, [], blocks[k].request);
  }

  lemma {:induction false} InitialMeets(offsets: seq<int>, blocks: seq<Block>, k: nat, l: nat)
    requires Input(offsets, blocks) && DisjointPerRequest(offsets, blocks) && NonEmpty(offsets, blocks)
    requires k < l < |blocks|
    ensures MeetIfOverlapping(Source(offsets, blocks), Initial(offsets, blocks)[k], Initial(offsets, blocks)[l])
  {
    var p, q := Initial(offsets, blocks)[k], Initial(offsets, blocks)[l];
    assert OwnMarks(p) == {Mark(k, Fin(p))} && OwnMarks(q) == {Mark(l, Fin(q))};
  }

  lemma {:induction false} InitialFaithful(dag: Graph, offsets: seq<int>, blocks: seq<Block>)
    requires Input(offsets, blocks) && forall k :: 0 <= k < |blocks| ==> blocks[k].request < |dag|
    requires NonEmpty(offsets, blocks) && DisjointPerRequest(offsets, blocks) && UncutSizes(offsets, blocks)
    ensures Faithful(dag, Source(offsets, blocks), Initial(offsets, blocks))
  {
    var L := Initial(offsets, blocks);
    var src := Source(offsets, blocks);
    forall k | 0 <= k < |L|
      ensures Traced(dag, blocks, L[k]) && (!Skipped(L[k]) ==> Sound(src, L[k]))
    {
      InitialSound(dag, offsets, blocks, k);
    }
    forall k, l | 0 <= k < l < |L|
      ensures MeetIfOverlapping(src, L[k], L[l])
    {
      InitialMeets(offsets, blocks, k, l);
    }
    InitialUncut(offsets, blocks);
  }

  lemma {:induction false} InitialUncut(offsets: seq<int>, blocks: seq<Block>)
    requires Input(offsets, blocks) && UncutSizes(offsets, blocks)
    ensures Uncut(Initial(offsets, blocks))
  {
  }

  /** Completeness of the cluster-product check. */
  lemma {:induction false} DirectIsAccepted(dag: Graph, offsets: seq<int>, blocks: seq<Block>)
    requires Input(offsets, blocks) && forall k :: 0 <= k < |blocks| ==> blocks[k].request < |dag|
    requires NonEmpty(offsets, blocks) && DisjointPerRequest(offsets, blocks) && UncutSizes(offsets, blocks)
    requires forall p, q :: CollidingPair(offsets, blocks, p, q) ==>
               OrderedEdge(dag, blocks[p].request, blocks[q].request)
    ensures Accepts(dag, Initial(offsets, blocks))
  {
    InitialFaithful(dag, offsets, blocks);
    SweepComplete(dag, Source(offsets, blocks), Initial(offsets, blocks));
  }
}
