/** When splitting an access block loses cluster members, and when it cannot. */
module SweepLoss {
  import opened Access
  import opened Dag
  import opened Clusters
  import opened CollisionSweep
  import opened SweepSoundness
  import opened SweepCompleteness

  predicate Overlap(src: Source, p: nat, q: nat) {
    && src.Data(p) && src.Data(q)
    && src.offsets[p] < src.EndAt(q) && src.offsets[q] < src.EndAt(p)
  }

  predicate SameKind(src: Source, p: nat, q: nat) {
    && src.Data(p) && src.Data(q) && src.blocks[p].access == src.blocks[q].access != IntAdditive
    && src.blocks[p].request != src.blocks[q].request
  }

  /** Whenever three readers, or three writers, of different requests pairwise overlap, they end together. */
  ghost predicate EvenTriples(src: Source) {
    forall p: nat, q: nat, r: nat ::
      (SameKind(src, p, q) && SameKind(src, q, r) && SameKind(src, p, r) &&
       Overlap(src, p, q) && Overlap(src, q, r) && Overlap(src, p, r)) ==>
        src.EndAt(p) == src.EndAt(q) == src.EndAt(r)
  }

  /** A piece that was cut carries a member that really ends there, or earlier. */
  ghost predicate CutIsWitnessed(src: Source, p: Piece) {
    src.Data(p.origin) && Fin(p) < src.EndAt(p.origin) && p.block.access != IntAdditive ==>
      exists g :: g in p.marks && src.Data(g.origin) && g.reach == src.EndAt(g.origin) <= Fin(p)
  }

  ghost predicate AllWitnessed(src: Source, L: seq<Piece>) {
    forall k :: 0 <= k < |L| && !Skipped(L[k]) ==> CutIsWitnessed(src, L[k])
  }

  /** The block that absorbed `h`: cut at the end of `h`, or as it was. */
  lemma {:induction false} AbsorbedWitnessed(src: Source, h: Piece, p: Piece, p': Piece)
    requires CutIsWitnessed(src, h) && CutIsWitnessed(src, p) && Fits(src, h, Mark(h.origin, Fin(h)))
    requires h.block.access == p.block.access == p'.block.access
    requires p'.marks == p.marks + OwnMarks(h) && p'.origin == p.origin
    requires Fin(p') == Fin(h) || Fin(p') == Fin(p)
    ensures CutIsWitnessed(src, p')
  {
    if src.Data(p'.origin) && Fin(p') < src.EndAt(p'.origin) && p'.block.access != IntAdditive {
      var own := Mark(h.origin, Fin(h));
      if Fin(p') != Fin(h) {
        var g :| g in p.marks && src.Data(g.origin) && g.reach == src.EndAt(g.origin) <= Fin(p);
        assert g in p'.marks;
      } else if Fin(h) == src.EndAt(h.origin) {
        assert own in p'.marks;
      } else {
        var g :| g in h.marks && src.Data(g.origin) && g.reach == src.EndAt(g.origin) <= Fin(h);
        assert g in p'.marks;
      }
    }
  }

  /** Three pieces that pairwise meet are parts of blocks that pairwise overlap. */
  lemma {:induction false} TripleEnds(src: Source, p: Piece, a: Mark, b: Mark, c: Mark)
    requires EvenTriples(src) && p.block.access != IntAdditive
    requires src.Data(a.origin) && src.Data(b.origin) && src.Data(c.origin)
    requires Meet(src, a, b) && Meet(src, b, c) && Meet(src, a, c)
    requires a.reach <= src.EndAt(a.origin) && b.reach <= src.EndAt(b.origin) && c.reach <= src.EndAt(c.origin)
    requires src.blocks[a.origin].access == src.blocks[b.origin].access == src.blocks[c.origin].access == p.block.access
    ensures src.EndAt(a.origin) == src.EndAt(b.origin) == src.EndAt(c.origin)
  {
    assert Overlap(src, a.origin, b.origin) && Overlap(src, b.origin, c.origin) && Overlap(src, a.origin, c.origin);
    assert SameKind(src, a.origin, b.origin) && SameKind(src, b.origin, c.origin) && SameKind(src, a.origin, c.origin);
  }

  /** The requests of a member and of the block it was merged into differ. */
  lemma {:induction false} MemberMeetsOwn(dag: Graph, src: Source, p: Piece, m: Mark)
    requires Traced(dag, src.blocks, p) && Sound(src, p) && m in p.marks
    ensures src.Data(m.origin) && src.Data(p.origin) && Meet(src, m, Mark(p.origin, Fin(p)))
  {
    var own := Mark(p.origin, Fin(p));
    assert m in OwnMarks(p) && own in OwnMarks(p) && Fits(src, p, m) && Fits(src, p, own);
    InsertedMultiset(p.block.access, p.members, p.block.request);
    assert p.block.request in multiset(Own(p));
    assert multiset(Own(p))[p.block.request] == multiset(p.members)[p.block.request] + 1;
    assert p.block.request !in p.members;
    assert src.blocks[m.origin].request in Names(src.blocks, p.marks);
  }

  /** The front block, a member of rest[j] and rest[j] itself end together. */
  lemma {:induction false} MembersEndTogether(dag: Graph, src: Source, h: Piece, rest: seq<Piece>, j: nat, g: Mark,
                                              m: Mark)
    requires FrontFaithful(dag, src, h, rest) && j == Target(h, rest, 0) < |rest| && h.block.access != IntAdditive
    requires EvenTriples(src) && g in OwnMarks(h) && m in rest[j].marks
    ensures src.Data(g.origin) && src.Data(m.origin) && src.Data(rest[j].origin)
    ensures src.EndAt(g.origin) == src.EndAt(m.origin) == src.EndAt(rest[j].origin)
  {
    var p := rest[j];
    assert MeetIfOverlapping(src, h, p) && Sound(src, p);
    var pOwn := Mark(p.origin, Fin(p));
    assert pOwn in OwnMarks(p) && m in OwnMarks(p);
    assert Fits(src, h, g) && Fits(src, p, pOwn) && Fits(src, p, m);
    assert Meet(src, g, m) && Meet(src, g, pOwn);
    MemberMeetsOwn(dag, src, p, m);
    TripleEnds(src, p, g, m, pOwn);
  }

  /** A block is cut at most once. */
  lemma {:induction false} SplitIsFirst(dag: Graph, src: Source, h: Piece, rest: seq<Piece>, j: nat)
    requires FrontFaithful(dag, src, h, rest) && j == Target(h, rest, 0) < |rest| && Splits(h, rest, j)
    requires EvenTriples(src) && CutIsWitnessed(src, rest[j])
    ensures src.Data(rest[j].origin) && Fin(rest[j]) == src.EndAt(rest[j].origin)
  {
    var p := rest[j];
    AbsorbedStandsFor(h, rest, j);
    assert Sound(src, p) && Mark(p.origin, Fin(p)) in OwnMarks(p) && Fits(src, p, Mark(p.origin, Fin(p)));
    if Fin(p) < src.EndAt(p.origin) {
      var g :| g in p.marks && src.Data(g.origin) && g.reach == src.EndAt(g.origin) <= Fin(p);
      MembersEndTogether(dag, src, h, rest, j, Mark(h.origin, Fin(h)), g);
    }
  }

  lemma {:induction false} OwnFits(dag: Graph, src: Source, h: Piece, rest: seq<Piece>)
    requires FrontFaithful(dag, src, h, rest)
    ensures Fits(src, h, Mark(h.origin, Fin(h)))
  {
    assert Mark(h.origin, Fin(h)) in OwnMarks(h);
  }

  lemma {:induction false} TargetWitnessed(dag: Graph, src: Source, h: Piece, rest: seq<Piece>, j: nat)
    requires FrontFaithful(dag, src, h, rest) && j == Target(h, rest, 0) < |rest|
    requires CutIsWitnessed(src, h) && CutIsWitnessed(src, rest[j])
    ensures CutIsWitnessed(src, Next(h, rest, j)[j])
  {
    MovedFacts(h, rest, j, j);
    AbsorbedStandsFor(h, rest, j);
    OwnFits(dag, src, h, rest);
    hide Next, Target, LowerBound, Splits, CutIsWitnessed, Faithful, Sound;
    AbsorbedWitnessed(src, h, rest[j], Next(h, rest, j)[j]);
  }

  lemma {:induction false} EachWitnessed(dag: Graph, src: Source, h: Piece, rest: seq<Piece>, j: nat, x: nat)
    requires FrontFaithful(dag, src, h, rest) && j == Target(h, rest, 0) < |rest|
    requires EvenTriples(src) && CutIsWitnessed(src, h) && AllWitnessed(src, rest)
    requires x < |Next(h, rest, j)| && !Skipped(Next(h, rest, j)[x])
    ensures CutIsWitnessed(src, Next(h, rest, j)[x])
  {
    assert CutIsWitnessed(src, rest[j]);
    SplitIsData(h, rest, j);
    hide Next, Target, LowerBound, CutIsWitnessed, EvenTriples, Sound, MeetIfOverlapping;
    if x == j {
      TargetWitnessed(dag, src, h, rest, j);
    } else {
      if Splits(h, rest, j) {
        SplitIsFirst(dag, src, h, rest, j);
      }
      OtherWitnessed(src, h, rest, j, x);
    }
  }

  lemma {:induction false} NextWitnessed(dag: Graph, src: Source, h: Piece, rest: seq<Piece>, j: nat)
    requires FrontFaithful(dag, src, h, rest) && j == Target(h, rest, 0) < |rest|
    requires EvenTriples(src) && CutIsWitnessed(src, h) && AllWitnessed(src, rest)
    ensures AllWitnessed(src, Next(h, rest, j))
  {
    hide Next, Target, CutIsWitnessed, EvenTriples, FrontFaithful;
    forall x | 0 <= x < |Next(h, rest, j)| && !Skipped(Next(h, rest, j)[x])
      ensures CutIsWitnessed(src, Next(h, rest, j)[x])
    {
      EachWitnessed(dag, src, h, rest, j, x);
    }
  }

  lemma {:induction false} OtherWitnessed(src: Source, h: Piece, rest: seq<Piece>, j: nat, x: nat)
    requires Leads(h, rest) && j == Target(h, rest, 0) < |rest| && AllWitnessed(src, rest)
    requires Splits(h, rest, j) ==> src.Data(rest[j].origin) && Fin(rest[j]) == src.EndAt(rest[j].origin)
    requires Splits(h, rest, j) ==> rest[j].offset >= 0
    requires x < |Next(h, rest, j)| && x != j && !Skipped(Next(h, rest, j)[x])
    ensures CutIsWitnessed(src, Next(h, rest, j)[x])
  {
    NextAt(h, rest, j, x);
    var k := LowerBound(rest, Fin(h));
    if Splits(h, rest, j) && x == k {
      assert Fin(TailOf(rest[j], Fin(h))) == Fin(rest[j]);
    } else {
      var x0 := if Splits(h, rest, j) && x > k then x - 1 else x;
      assert CutIsWitnessed(src, rest[x0]);
    }
  }

  /** With even triples, a block that is about to be split carries no member that reaches past the cut. */
  lemma {:induction false} SplitLosesNothing(dag: Graph, src: Source, h: Piece, rest: seq<Piece>, j: nat, m: Mark)
    requires FrontFaithful(dag, src, h, rest) && j == Target(h, rest, 0) < |rest| && Splits(h, rest, j)
    requires EvenTriples(src) && CutIsWitnessed(src, h) && m in rest[j].marks
    ensures m.reach <= rest[LowerBound(rest, Fin(h))].offset
  {
    AbsorbedStandsFor(h, rest, j);
    var own := Mark(h.origin, Fin(h));
    MembersEndTogether(dag, src, h, rest, j, own, m);
    assert m in OwnMarks(rest[j]) && Fits(src, rest[j], m) && Fits(src, h, own);
    if Fin(h) < src.EndAt(h.origin) {
      var g :| g in h.marks && src.Data(g.origin) && g.reach == src.EndAt(g.origin) <= Fin(h);
      MembersEndTogether(dag, src, h, rest, j, g, m);
    }
  }

  lemma {:induction false} EvenSweepLossless(dag: Graph, src: Source, L: seq<Piece>)
    requires Faithful(dag, src, L) && EvenTriples(src) && AllWitnessed(src, L)
    ensures Lossless(L)
    decreases Total(L), |L|
  {
    if L != [] {
      var h, rest := L[0], L[1..];
      OrderedLeads(L);
      FaithfulFront(dag, src, L);
      assert AllWitnessed(src, rest);
      if Skipped(h) {
        EvenSweepLossless(dag, src, rest);
      } else {
        var j := Target(h, rest, 0);
        if j < |rest| {
          NextOrdered(h, rest, j);
          NextShrinks(h, rest, j);
          NextFaithful(dag, src, h, rest, j);
          NextWitnessed(dag, src, h, rest, j);
          if Splits(h, rest, j) {
            forall m | m in rest[j].marks
              ensures m.reach <= rest[LowerBound(rest, Fin(h))].offset
            {
              SplitLosesNothing(dag, src, h, rest, j, m);
            }
          }
          EvenSweepLossless(dag, src, Next(h, rest, j));
        } else {
          EvenSweepLossless(dag, src, rest);
        }
      }
    }
  }

  /** A condition on the declared blocks alone under which the check is sound. */
  lemma {:induction false} EvenTriplesLossless(dag: Graph, offsets: seq<int>, blocks: seq<Block>)
    requires Input(offsets, blocks) && forall k :: 0 <= k < |blocks| ==> blocks[k].request < |dag|
    requires NonEmpty(offsets, blocks) && DisjointPerRequest(offsets, blocks) && UncutSizes(offsets, blocks)
    requires EvenTriples(Source(offsets, blocks))
    ensures Lossless(Initial(offsets, blocks))
  {
    InitialFaithful(dag, offsets, blocks);
    EvenSweepLossless(dag, Source(offsets, blocks), Initial(offsets, blocks));
  }

  // ---------- the loss is real ----------

  const LOSSY_OFFSETS: seq<int> := [0, 0, 0, 4]
  const LOSSY_BLOCKS: seq<Block> :=
    [Block(5, Writable, 0), Block(3, Writable, 1), Block(8, Writable, 3), Block(2, Writable, 2)]
  const LOSSY_DAG: Graph := [{1}, {3}, {3}, {}]

  // The pieces that arise from this input.
  const PIECE_0 := Piece(0, Block(5, Writable, 0), [], 0, {})
  const PIECE_1 := Piece(0, Block(3, Writable, 1), [], 1, {})
  const PIECE_3 := Piece(0, Block(8, Writable, 3), [], 2, {})
  const PIECE_2 := Piece(4, Block(2, Writable, 2), [], 3, {})
  const PIECE_3_MERGED := Piece(0, Block(8, Writable, 3), [0], 2, {Mark(0, 5)})
  const PIECE_3_HEAD := Piece(0, Block(3, Writable, 3), [0, 1], 2, {Mark(0, 5), Mark(1, 3)})
  const PIECE_3_TAIL := Piece(3, Block(5, Writable, 3), [], 2, {})

  lemma {:induction false} LossyOwn()
    ensures Own(PIECE_0) == [0] && Own(PIECE_1) == [1] && Own(PIECE_2) == [2] && Own(PIECE_3_TAIL) == [3] &&
            Own(PIECE_3_HEAD) == [0, 1, 3]
  {
    assert MergePrefixes([0, 1], [3], 2, 0) == [0, 1];
    assert MergePrefixes([0, 1], [3], 2, 1) == [0, 1, 3];
  }

  lemma {:induction false} LossyMerge()
    ensures Target(PIECE_0, [PIECE_1, PIECE_3, PIECE_2], 0) == 1 &&
            Next(PIECE_0, [PIECE_1, PIECE_3, PIECE_2], 1) == [PIECE_1, PIECE_3_MERGED, PIECE_2]
  {
    LossyOwn();
    assert LowerBound([PIECE_1, PIECE_3, PIECE_2], 5) == 3;
    assert Absorb(PIECE_0, PIECE_3) == PIECE_3_MERGED;
  }

  lemma {:induction false} LossySplit()
    ensures Target(PIECE_1, [PIECE_3_MERGED, PIECE_2], 0) == 0 && LowerBound([PIECE_3_MERGED, PIECE_2], 3) == 1
    ensures Splits(PIECE_1, [PIECE_3_MERGED, PIECE_2], 0) &&
            Next(PIECE_1, [PIECE_3_MERGED, PIECE_2], 0) == [PIECE_3_HEAD, PIECE_3_TAIL, PIECE_2]
  {
    LossyOwn();
    assert LowerBound([PIECE_3_MERGED, PIECE_2], 3) == 1;
    assert MergePrefixes([0], [1], 1, 0) == [0];
    assert Joined(Writable, [0], [1]) == [0, 1];
    var p := Absorb(PIECE_1, PIECE_3_MERGED);
    assert p.marks == {Mark(0, 5), Mark(1, 3)};
    assert HeadOf(p, 3) == PIECE_3_HEAD && TailOf(p, 3) == PIECE_3_TAIL;
    assert [PIECE_3_MERGED, PIECE_2][0 := PIECE_3_HEAD] == [PIECE_3_HEAD, PIECE_2];
    assert InsertAt([PIECE_3_HEAD, PIECE_2], 1, PIECE_3_TAIL) == [PIECE_3_HEAD, PIECE_3_TAIL, PIECE_2];
  }

  /** One step of the sweep. */
  lemma {:induction false} AcceptsFront(dag: Graph, h: Piece, rest: seq<Piece>)
    requires Leads(h, rest) && !Skipped(h)
    ensures var j := Target(h, rest, 0);
            && Ordered([h] + rest) && (j < |rest| ==> Ordered(Next(h, rest, j)))
            && (Accepts(dag, [h] + rest) <==>
                && DependenciesOk(dag, h, rest, j)
                && if j < |rest| then Accepts(dag, Next(h, rest, j))
                   else (h.block.access == Writable ==> ChainOk(dag, Own(h))) && Accepts(dag, rest))
  {
    var L := [h] + rest;
    assert L[0] == h && L[1..] == rest;
    if Target(h, rest, 0) < |rest| {
      NextOrdered(h, rest, Target(h, rest, 0));
    }
    hide Next, Target, DependenciesOk, ChainOk, Own;
  }

  lemma {:induction false} AcceptsFinal(dag: Graph, h: Piece, rest: seq<Piece>)
    requires Leads(h, rest) && !Skipped(h) && Target(h, rest, 0) == |rest|
    requires DependenciesOk(dag, h, rest, |rest|) && ChainOk(dag, Own(h)) && Accepts(dag, rest)
    ensures Ordered([h] + rest) && Accepts(dag, [h] + rest)
  {
    hide Accepts;
    AcceptsFront(dag, h, rest);
  }

  lemma {:induction false} AcceptsMerge(dag: Graph, h: Piece, rest: seq<Piece>, j: nat)
    requires Leads(h, rest) && !Skipped(h) && Target(h, rest, 0) == j < |rest|
    requires DependenciesOk(dag, h, rest, j) && Ordered(Next(h, rest, j)) && Accepts(dag, Next(h, rest, j))
    ensures Ordered([h] + rest) && Accepts(dag, [h] + rest)
  {
    hide Accepts;
    AcceptsFront(dag, h, rest);
  }

  lemma {:induction false} LosslessFront(h: Piece, rest: seq<Piece>, j: nat)
    requires Leads(h, rest) && !Skipped(h) && Target(h, rest, 0) == j < |rest| && Ordered(Next(h, rest, j))
    ensures Ordered([h] + rest)
    ensures Lossless([h] + rest) <==>
            && (Splits(h, rest, j) ==> forall m :: m in rest[j].marks ==>
                m.reach <= rest[LowerBound(rest, Fin(h))].offset)
            && Lossless(Next(h, rest, j))
  {
    var L := [h] + rest;
    assert L[0] == h && L[1..] == rest;
    hide Next, Target, LowerBound, Splits;
  }

  lemma {:induction false} LosesAfter(h: Piece, rest: seq<Piece>, j: nat)
    requires Leads(h, rest) && !Skipped(h) && Target(h, rest, 0) == j < |rest| && Ordered(Next(h, rest, j))
    requires !Lossless(Next(h, rest, j)) ||
             (Splits(h, rest, j) && exists m :: m in rest[j].marks && m.reach > rest[LowerBound(rest, Fin(h))].offset)
    ensures Ordered([h] + rest) && !Lossless([h] + rest)
  {
    hide Lossless, Next, Target, LowerBound;
    LosslessFront(h, rest, j);
  }

  lemma {:induction false} SingleDependency(dag: Graph, m: nat, u: nat)
    ensures DependencyOk(dag, Writable, [m], u) <==> if m <= u then IsAdjacent(dag, m, u) else IsAdjacent(dag, u, m)
  {
    assert [m][1..] == [];
  }

  lemma {:induction false} LossyTail()
    ensures Ordered([PIECE_3_TAIL, PIECE_2]) && Accepts(LOSSY_DAG, [PIECE_3_TAIL, PIECE_2])
  {
    LossyOwn();
    LossyLast();
    assert Target(PIECE_3_TAIL, [PIECE_2], 0) == 1;
    SingleDependency(LOSSY_DAG, 3, 2);
    OneDependency(LOSSY_DAG, PIECE_3_TAIL, [PIECE_2]);
    assert [PIECE_3_TAIL] + [PIECE_2] == [PIECE_3_TAIL, PIECE_2];
    hide Accepts, DependenciesOk, Target;
    AcceptsFinal(LOSSY_DAG, PIECE_3_TAIL, [PIECE_2]);
  }

  lemma {:induction false} LossyLast()
    ensures Ordered([PIECE_2]) && Accepts(LOSSY_DAG, [PIECE_2])
  {
    LossyOwn();
    assert Accepts(LOSSY_DAG, []);
    AcceptsFinal(LOSSY_DAG, PIECE_2, []);
    assert [PIECE_2] + [] == [PIECE_2];
  }

  lemma {:induction false} LossyHeadFacts()
    ensures Leads(PIECE_3_HEAD, [PIECE_3_TAIL, PIECE_2]) && Target(PIECE_3_HEAD, [PIECE_3_TAIL, PIECE_2], 0) == 2
    ensures DependenciesOk(LOSSY_DAG, PIECE_3_HEAD, [PIECE_3_TAIL, PIECE_2], 2)
  {
  }

  lemma {:induction false} LossyChain()
    ensures ChainOk(LOSSY_DAG, [0, 1, 3])
  {
  }

  lemma {:induction false} LossyHead()
    ensures Ordered([PIECE_3_HEAD] + [PIECE_3_TAIL, PIECE_2]) &&
            Accepts(LOSSY_DAG, [PIECE_3_HEAD] + [PIECE_3_TAIL, PIECE_2])
  {
    LossyTail();
    LossyOwn();
    LossyHeadFacts();
    LossyChain();
    AcceptsFinal(LOSSY_DAG, PIECE_3_HEAD, [PIECE_3_TAIL, PIECE_2]);
  }

  lemma {:induction false} LossyMiddleLeads()
    ensures Leads(PIECE_1, [PIECE_3_MERGED, PIECE_2]) &&
            DependenciesOk(LOSSY_DAG, PIECE_1, [PIECE_3_MERGED, PIECE_2], 0)
  {
  }

  lemma {:induction false} LossyMiddleAccepts()
    ensures Ordered([PIECE_1] + [PIECE_3_MERGED, PIECE_2]) && Accepts(LOSSY_DAG, [PIECE_1] + [PIECE_3_MERGED, PIECE_2])
  {
    hide Accepts, DependenciesOk, Leads, Next, Target, LowerBound, Splits;
    LossySplit();
    LossyHead();
    LossyMiddleLeads();
    assert [PIECE_3_HEAD] + [PIECE_3_TAIL, PIECE_2] == [PIECE_3_HEAD, PIECE_3_TAIL, PIECE_2];
    AcceptsMerge(LOSSY_DAG, PIECE_1, [PIECE_3_MERGED, PIECE_2], 0);
  }

  lemma {:induction false} LossyMiddleLoses()
    ensures Ordered([PIECE_1] + [PIECE_3_MERGED, PIECE_2]) && !Lossless([PIECE_1] + [PIECE_3_MERGED, PIECE_2])
  {
    LossySplit();
    LossyMiddleLeads();
    assert Mark(0, 5) in PIECE_3_MERGED.marks && Mark(0, 5).reach > [PIECE_3_MERGED, PIECE_2][1].offset;
    NextOrdered(PIECE_1, [PIECE_3_MERGED, PIECE_2], 0);
    hide DependenciesOk, Leads, Lossless, Target, Next, Splits, LowerBound;
    LosesAfter(PIECE_1, [PIECE_3_MERGED, PIECE_2], 0);
  }

  lemma {:induction false} LossyBeforeSplit()
    ensures Ordered([PIECE_1, PIECE_3_MERGED, PIECE_2])
    ensures Accepts(LOSSY_DAG, [PIECE_1, PIECE_3_MERGED, PIECE_2]) && !Lossless([PIECE_1, PIECE_3_MERGED, PIECE_2])
  {
    LossyMiddleAccepts();
    LossyMiddleLoses();
    assert [PIECE_1] + [PIECE_3_MERGED, PIECE_2] == [PIECE_1, PIECE_3_MERGED, PIECE_2];
  }

  lemma {:induction false} OneDependency(dag: Graph, h: Piece, rest: seq<Piece>)
    requires rest != [] && DependencyOk(dag, h.block.access, Own(h), rest[0].block.request)
    ensures DependenciesOk(dag, h, rest, 1)
  {
  }

  lemma {:induction false} LossyFirst()
    ensures DependenciesOk(LOSSY_DAG, PIECE_0, [PIECE_1, PIECE_3, PIECE_2], 1)
  {
    LossyOwn();
    SingleDependency(LOSSY_DAG, 0, 1);
    OneDependency(LOSSY_DAG, PIECE_0, [PIECE_1, PIECE_3, PIECE_2]);
  }

  lemma {:induction false} LossyLeads()
    ensures Leads(PIECE_0, [PIECE_1, PIECE_3, PIECE_2])
  {
  }

  lemma {:induction false} LossyRun()
    ensures Ordered([PIECE_0] + [PIECE_1, PIECE_3, PIECE_2])
    ensures Accepts(LOSSY_DAG, [PIECE_0] + [PIECE_1, PIECE_3, PIECE_2]) &&
            !Lossless([PIECE_0] + [PIECE_1, PIECE_3, PIECE_2])
  {
    LossyMerge();
    LossyBeforeSplit();
    LossyFirst();
    LossyLeads();
    AcceptsMerge(LOSSY_DAG, PIECE_0, [PIECE_1, PIECE_3, PIECE_2], 1);
    LosesAfter(PIECE_0, [PIECE_1, PIECE_3, PIECE_2], 1);
  }

  lemma {:induction false} LossyInput()
    ensures Input(LOSSY_OFFSETS, LOSSY_BLOCKS) && DisjointPerRequest(LOSSY_OFFSETS, LOSSY_BLOCKS)
    ensures Initial(LOSSY_OFFSETS, LOSSY_BLOCKS) == [PIECE_0] + [PIECE_1, PIECE_3, PIECE_2]
    ensures Ascending(LOSSY_DAG) && CollidingPair(LOSSY_OFFSETS, LOSSY_BLOCKS, 0, 3)
  {
  }

  /** Requests 0 and 2 both write byte 4, the check accepts, and no path joins them: while block 1 is merged into
      block 3, block 3 is cut at 3 and its tail forgets member 0, which reaches 5. */
  lemma {:induction false} AcceptedButNotCovered()
    ensures Input(LOSSY_OFFSETS, LOSSY_BLOCKS) && DisjointPerRequest(LOSSY_OFFSETS, LOSSY_BLOCKS)
    ensures Ascending(LOSSY_DAG)
    ensures Accepts(LOSSY_DAG, Initial(LOSSY_OFFSETS, LOSSY_BLOCKS))
    ensures !Lossless(Initial(LOSSY_OFFSETS, LOSSY_BLOCKS))
    ensures !Covered(LOSSY_DAG, LOSSY_OFFSETS, LOSSY_BLOCKS)
  {
    LossyInput();
    LossyRun();
    NoPathFrom0To2();
  }

  lemma {:induction false} PathFrom0Avoids2(p: seq<nat>, k: nat)
    requires IsPath(LOSSY_DAG, p) && p[0] == 0 && k < |p|
    ensures p[k] in {0, 1, 3}
  {
    if k > 0 {
      PathFrom0Avoids2(p, k - 1);
      assert IsAdjacent(LOSSY_DAG, p[k - 1], p[k - 1 + 1]);
    }
  }

  lemma {:induction false} NoPathFrom0To2()
    ensures !Linked(LOSSY_DAG, 0, 2)
  {
    forall p | IsPath(LOSSY_DAG, p) && p[0] == 0
      ensures p[|p| - 1] != 2
    {
      PathFrom0Avoids2(p, |p| - 1);
    }
  }
}
