/** The edges that the sweep asks for depend on the declared blocks alone. They say exactly when acceptance covers every
    colliding pair and exactly when direct edges suffice for acceptance. */
module SweepDemand {
  import opened Access
  import opened Dag
  import opened Clusters
  import opened CollisionSweep
  import opened SweepSoundness
  import opened SweepCompleteness
  import opened SweepLoss
  import opened Resizing

  datatype Edge = Edge(source: nat, target: nat)

  ghost predicate Has(dag: Graph, edges: set<Edge>) {
    forall e :: e in edges ==> IsAdjacent(dag, e.source, e.target)
  }

  function Upward(u: nat, v: nat): Edge {
    if u < v then Edge(u, v) else Edge(v, u)
  }

  /** What `addDependency(u)` asks for. */
  function DependencyEdges(access: Access, members: seq<nat>, u: nat): set<Edge> {
    if access == Writable then
      var k := UpperBound(members, u);
      (if k > 0 then {Edge(members[k - 1], u)} else {}) + (if k < |members| then {Edge(u, members[k])} else {})
    else
      set a | 0 <= a < |members| :: Upward(members[a], u)
  }

  /** What `finalize` asks for. */
  function ChainEdges(members: seq<nat>): set<Edge> {
    if |members| < 2 then {}
    else var n := |members| - 1; ChainEdges(members[..n]) + {Edge(members[n - 1], members[n])}
  }

  /** What the inner loop asks for before it reaches the block j. */
  function ExaminedEdges(h: Piece, rest: seq<Piece>, j: nat): set<Edge>
    requires j <= |rest|
  {
    if j == 0 then {}
    else ExaminedEdges(h, rest, j - 1) +
         if rest[j - 1].offset < Fin(h) && Collides(h.block.access, rest[j - 1].block.access)
         then DependencyEdges(h.block.access, Own(h), rest[j - 1].block.request) else {}
  }

  /** All edges that the sweep asks for. */
  function Asked(L: seq<Piece>): set<Edge>
    requires Ordered(L)
    decreases Total(L), |L|
  {
    if L == [] then {} else
      var h, rest := L[0], L[1..];
      OrderedLeads(L);
      if Skipped(h) then Asked(rest) else
        var j := Target(h, rest, 0);
        ExaminedEdges(h, rest, j) +
        if j < |rest| then
          NextOrdered(h, rest, j);
          NextShrinks(h, rest, j);
          Asked(Next(h, rest, j))
        else
          (if h.block.access == Writable then ChainEdges(Own(h)) else {}) + Asked(rest)
  }

  lemma {:induction false} HasUnion(dag: Graph, a: set<Edge>, b: set<Edge>)
    ensures Has(dag, a + b) <==> Has(dag, a) && Has(dag, b)
  {
    assert forall e :: e in a ==> e in a + b;
    assert forall e :: e in b ==> e in a + b;
  }

  lemma {:induction false} DependencyIff(dag: Graph, access: Access, members: seq<nat>, u: nat)
    ensures DependencyOk(dag, access, members, u) <==> Has(dag, DependencyEdges(access, members, u))
  {
    var edges := DependencyEdges(access, members, u);
    if access == Writable {
      var k := UpperBound(members, u);
      if Has(dag, edges) {
        assert k > 0 ==> Edge(members[k - 1], u) in edges;
        assert k < |members| ==> Edge(u, members[k]) in edges;
      }
    } else {
      forall a | 0 <= a < |members|
        ensures OrderedEdge(dag, members[a], u) <==>
                IsAdjacent(dag, Upward(members[a], u).source, Upward(members[a], u).target)
        ensures Upward(members[a], u) in edges
      {
      }
    }
  }

  lemma {:induction false} ChainIff(dag: Graph, members: seq<nat>)
    ensures ChainOk(dag, members) <==> Has(dag, ChainEdges(members))
  {
    if |members| >= 2 {
      var n := |members| - 1;
      ChainIff(dag, members[..n]);
      HasUnion(dag, ChainEdges(members[..n]), {Edge(members[n - 1], members[n])});
      ChainStep(dag, members);
      assert Has(dag, {Edge(members[n - 1], members[n])}) <==> IsAdjacent(dag, members[n - 1], members[n]) by {
        assert Edge(members[n - 1], members[n]) in {Edge(members[n - 1], members[n])};
      }
    }
  }

  lemma {:induction false} ChainStep(dag: Graph, members: seq<nat>)
    requires |members| >= 2
    ensures var n := |members| - 1;
            ChainOk(dag, members) <==> ChainOk(dag, members[..n]) && IsAdjacent(dag, members[n - 1], members[n])
  {
    var n := |members| - 1;
    if ChainOk(dag, members) {
      assert IsAdjacent(dag, members[n - 1], members[n - 1 + 1]);
      forall a | 0 <= a < n - 1
        ensures IsAdjacent(dag, members[..n][a], members[..n][a + 1])
      {
        assert IsAdjacent(dag, members[a], members[a + 1]);
      }
    }
    if ChainOk(dag, members[..n]) && IsAdjacent(dag, members[n - 1], members[n]) {
      forall a | 0 <= a < |members| - 1
        ensures IsAdjacent(dag, members[a], members[a + 1])
      {
        if a < n - 1 {
          assert IsAdjacent(dag, members[..n][a], members[..n][a + 1]);
        }
      }
    }
  }

  lemma {:induction false} ExaminedStep(dag: Graph, h: Piece, rest: seq<Piece>, j: nat)
    requires 0 < j <= |rest|
    ensures var q := rest[j - 1];
            DependenciesOk(dag, h, rest, j) <==>
            && DependenciesOk(dag, h, rest, j - 1)
            && (q.offset < Fin(h) && Collides(h.block.access, q.block.access) ==>
                  DependencyOk(dag, h.block.access, Own(h), q.block.request))
  {
    hide DependencyOk, Own;
  }

  lemma {:induction false} ExaminedIff(dag: Graph, h: Piece, rest: seq<Piece>, j: nat)
    requires j <= |rest|
    ensures DependenciesOk(dag, h, rest, j) <==> Has(dag, ExaminedEdges(h, rest, j))
  {
    HasNone(dag);
    if j > 0 {
      var q := rest[j - 1];
      ExaminedIff(dag, h, rest, j - 1);
      ExaminedStep(dag, h, rest, j);
      hide DependencyOk, DependencyEdges, DependenciesOk, Has, Own, Collides, Fin;
      if q.offset < Fin(h) && Collides(h.block.access, q.block.access) {
        DependencyIff(dag, h.block.access, Own(h), q.block.request);
        HasUnion(dag, ExaminedEdges(h, rest, j - 1), DependencyEdges(h.block.access, Own(h), q.block.request));
      } else {
        assert ExaminedEdges(h, rest, j) == ExaminedEdges(h, rest, j - 1);
      }
    }
  }

  lemma {:induction false} HasNone(dag: Graph)
    ensures Has(dag, {})
  {
  }

  /** A graph is accepted exactly when it has all edges that the sweep asks for. */
  lemma {:induction false} AcceptsIffAsked(dag: Graph, L: seq<Piece>)
    requires Ordered(L)
    ensures Accepts(dag, L) <==> Has(dag, Asked(L))
    decreases Total(L), |L|
  {
    HasNone(dag);
    if L != [] {
      var h, rest := L[0], L[1..];
      OrderedLeads(L);
      if Skipped(h) {
        AcceptsIffAsked(dag, rest);
      } else {
        var j := Target(h, rest, 0);
        ExaminedIff(dag, h, rest, j);
        if j < |rest| {
          NextOrdered(h, rest, j);
          NextShrinks(h, rest, j);
          AcceptsIffAsked(dag, Next(h, rest, j));
          HasUnion(dag, ExaminedEdges(h, rest, j), Asked(Next(h, rest, j)));
        } else {
          AcceptsIffAsked(dag, rest);
          ChainIff(dag, Own(h));
          var chain := if h.block.access == Writable then ChainEdges(Own(h)) else {};
          HasUnion(dag, chain, Asked(rest));
          HasUnion(dag, ExaminedEdges(h, rest, j), chain + Asked(rest));
        }
      }
    }
  }

  // ---------- the edges lie in the graph ----------

  ghost predicate Below(n: nat, edges: set<Edge>) {
    forall e :: e in edges ==> e.source < n && e.target < n
  }

  ghost predicate PieceBelow(n: nat, p: Piece) {
    p.block.request < n && forall x :: x in p.members ==> x < n
  }

  ghost predicate AllBelow(n: nat, L: seq<Piece>) {
    forall k :: 0 <= k < |L| ==> PieceBelow(n, L[k])
  }

  lemma {:induction false} OwnBelow(n: nat, h: Piece)
    requires PieceBelow(n, h)
    ensures forall x :: x in Own(h) ==> x < n
  {
    MergeSortedMembers(h.members, [h.block.request]);
  }

  lemma {:induction false} DependencyBelow(n: nat, access: Access, members: seq<nat>, u: nat)
    requires u < n && forall x :: x in members ==> x < n
    ensures Below(n, DependencyEdges(access, members, u))
  {
    assert forall a :: 0 <= a < |members| ==> members[a] in members;
  }

  lemma {:induction false} ExaminedBelow(n: nat, h: Piece, rest: seq<Piece>, j: nat)
    requires PieceBelow(n, h) && AllBelow(n, rest) && j <= |rest|
    ensures Below(n, ExaminedEdges(h, rest, j))
  {
    if j > 0 {
      ExaminedBelow(n, h, rest, j - 1);
      OwnBelow(n, h);
      DependencyBelow(n, h.block.access, Own(h), rest[j - 1].block.request);
      hide Own, DependencyEdges;
    }
  }

  lemma {:induction false} NextBelow(n: nat, h: Piece, rest: seq<Piece>, j: nat)
    requires PieceBelow(n, h) && AllBelow(n, rest) && Leads(h, rest) && j == Target(h, rest, 0) < |rest|
    ensures AllBelow(n, Next(h, rest, j))
  {
    OwnBelow(n, h);
    MergeSortedMembers(rest[j].members, Own(h));
    MovedFacts(h, rest, j, j);
    assert PieceBelow(n, Absorb(h, rest[j]));
    forall x | 0 <= x < |Next(h, rest, j)|
      ensures PieceBelow(n, Next(h, rest, j)[x])
    {
      NextAt(h, rest, j, x);
      hide Next, Target, LowerBound;
    }
  }

  lemma {:induction false} AskedBelow(n: nat, L: seq<Piece>)
    requires Ordered(L) && AllBelow(n, L)
    ensures Below(n, Asked(L))
    decreases Total(L), |L|
  {
    if L != [] {
      var h, rest := L[0], L[1..];
      OrderedLeads(L);
      assert AllBelow(n, rest);
      if Skipped(h) {
        AskedBelow(n, rest);
      } else {
        var j := Target(h, rest, 0);
        ExaminedBelow(n, h, rest, j);
        if j < |rest| {
          NextOrdered(h, rest, j);
          NextShrinks(h, rest, j);
          NextBelow(n, h, rest, j);
          AskedBelow(n, Next(h, rest, j));
        } else {
          OwnBelow(n, h);
          AskedBelow(n, rest);
          ChainBelow(n, Own(h));
        }
      }
    }
  }

  lemma {:induction false} ChainBelow(n: nat, members: seq<nat>)
    requires forall x :: x in members ==> x < n
    ensures Below(n, ChainEdges(members))
  {
    assert forall a :: 0 <= a < |members| ==> members[a] in members;
    if |members| >= 2 {
      ChainBelow(n, members[..|members| - 1]);
    }
  }

  // ---------- the least graph ----------

  /** The graph with n nodes and exactly these edges. */
  ghost function Least(n: nat, edges: set<Edge>): (dag: Graph)
    ensures |dag| == n
  {
    seq(n, u requires 0 <= u => set e | e in edges && e.source == u :: e.target)
  }

  lemma {:induction false} LeastHas(n: nat, edges: set<Edge>)
    requires Below(n, edges)
    ensures Has(Least(n, edges), edges)
    ensures forall dag :: |dag| == n && Has(dag, edges) ==> Extends(Least(n, edges), dag)
  {
    forall e | e in edges
      ensures IsAdjacent(Least(n, edges), e.source, e.target)
    {
      assert e.target in Least(n, edges)[e.source];
    }
  }

  ghost predicate Extends(small: Graph, big: Graph) {
    |small| == |big| && forall u, v :: IsAdjacent(small, u, v) ==> IsAdjacent(big, u, v)
  }

  lemma {:induction false} ReachesMore(small: Graph, big: Graph, u: nat, v: nat)
    requires Extends(small, big) && Reaches(small, u, v)
    ensures Reaches(big, u, v)
  {
    var p :| IsPath(small, p) && p[0] == u && p[|p| - 1] == v;
    assert IsPath(big, p);
  }

  lemma {:induction false} CoveredMore(small: Graph, big: Graph, offsets: seq<int>, blocks: seq<Block>)
    requires |offsets| == |blocks| && Extends(small, big) && Covered(small, offsets, blocks)
    ensures Covered(big, offsets, blocks)
  {
    forall p, q | CollidingPair(offsets, blocks, p, q)
      ensures Linked(big, blocks[p].request, blocks[q].request)
    {
      var u, v := blocks[p].request, blocks[q].request;
      assert Linked(small, u, v);
      ReachesMore(small, big, if u <= v then u else v, if u <= v then v else u);
    }
  }

  // ---------- soundness, exactly ----------

  /** What the sweep asks for joins every colliding pair by a path. This is a condition on the declared blocks. */
  ghost predicate AsksEnough(n: nat, offsets: seq<int>, blocks: seq<Block>)
    requires Input(offsets, blocks)
  {
    Covered(Least(n, Asked(Initial(offsets, blocks))), offsets, blocks)
  }

  lemma {:induction false} InitialBelow(n: nat, offsets: seq<int>, blocks: seq<Block>)
    requires Input(offsets, blocks) && forall k :: 0 <= k < |blocks| ==> blocks[k].request < n
    ensures Below(n, Asked(Initial(offsets, blocks)))
  {
    AskedBelow(n, Initial(offsets, blocks));
  }

  /** An accepted graph covers every colliding pair if the sweep asks for enough. */
  lemma {:induction false} AcceptedCovers(dag: Graph, offsets: seq<int>, blocks: seq<Block>)
    requires Input(offsets, blocks) && forall k :: 0 <= k < |blocks| ==> blocks[k].request < |dag|
    requires Accepts(dag, Initial(offsets, blocks)) && AsksEnough(|dag|, offsets, blocks)
    ensures Covered(dag, offsets, blocks)
  {
    var asked := Asked(Initial(offsets, blocks));
    AcceptsIffAsked(dag, Initial(offsets, blocks));
    InitialBelow(|dag|, offsets, blocks);
    LeastHas(|dag|, asked);
    CoveredMore(Least(|dag|, asked), dag, offsets, blocks);
  }

  lemma {:induction false} LeastIsAccepted(n: nat, offsets: seq<int>, blocks: seq<Block>)
    requires Input(offsets, blocks) && forall k :: 0 <= k < |blocks| ==> blocks[k].request < n
    ensures Accepts(Least(n, Asked(Initial(offsets, blocks))), Initial(offsets, blocks))
  {
    var asked := Asked(Initial(offsets, blocks));
    InitialBelow(n, offsets, blocks);
    LeastHas(n, asked);
    AcceptsIffAsked(Least(n, asked), Initial(offsets, blocks));
  }

  /** Acceptance means that every colliding pair is joined by a path, whatever the graph, exactly when the sweep asks
      for enough. */
  lemma {:induction false} SoundIffAsksEnough(n: nat, offsets: seq<int>, blocks: seq<Block>)
    requires Input(offsets, blocks) && forall k :: 0 <= k < |blocks| ==> blocks[k].request < n
    ensures (forall dag: Graph :: |dag| == n && Accepts(dag, Initial(offsets, blocks)) ==>
            Covered(dag, offsets, blocks)) <==>
            AsksEnough(n, offsets, blocks)
  {
    LeastIsAccepted(n, offsets, blocks);
    if AsksEnough(n, offsets, blocks) {
      forall dag: Graph | |dag| == n && Accepts(dag, Initial(offsets, blocks))
        ensures Covered(dag, offsets, blocks)
      {
        AcceptedCovers(dag, offsets, blocks);
      }
    }
  }

  /** For graphs that obey the rule about identifiers, it is also sound when it asks for an edge that no such graph has,
      because then it accepts none of them. */
  lemma {:induction false} AscendingSoundIff(n: nat, offsets: seq<int>, blocks: seq<Block>)
    requires Input(offsets, blocks) && forall k :: 0 <= k < |blocks| ==> blocks[k].request < n
    ensures (forall dag: Graph :: |dag| == n && Ascending(dag) && Accepts(dag, Initial(offsets, blocks)) ==>
               Covered(dag, offsets, blocks)) <==>
            AsksEnough(n, offsets, blocks) || exists e :: e in Asked(Initial(offsets, blocks)) && e.source >= e.target
  {
    var L := Initial(offsets, blocks);
    var least := Least(n, Asked(L));
    LeastIsAccepted(n, offsets, blocks);
    LeastOnly(n, Asked(L));
    InitialBelow(n, offsets, blocks);
    if forall e :: e in Asked(L) ==> e.source < e.target {
      LeastAscends(n, Asked(L));
    }
    forall dag: Graph | |dag| == n && Ascending(dag) && Accepts(dag, L)
      ensures forall e :: e in Asked(L) ==> e.source < e.target
      ensures AsksEnough(n, offsets, blocks) ==> Covered(dag, offsets, blocks)
    {
      AcceptsIffAsked(dag, L);
      if AsksEnough(n, offsets, blocks) {
        AcceptedCovers(dag, offsets, blocks);
      }
    }
  }

  lemma {:induction false} LeastAscends(n: nat, edges: set<Edge>)
    requires Below(n, edges) && forall e :: e in edges ==> e.source < e.target
    ensures Ascending(Least(n, edges))
  {
  }

  /** A sweep that loses no member asks for enough. */
  lemma {:induction false} LosslessAsksEnough(n: nat, offsets: seq<int>, blocks: seq<Block>)
    requires Input(offsets, blocks) && forall k :: 0 <= k < |blocks| ==> blocks[k].request < n
    requires Lossless(Initial(offsets, blocks))
    ensures AsksEnough(n, offsets, blocks)
  {
    LeastIsAccepted(n, offsets, blocks);
    AcceptedIsCovered(Least(n, Asked(Initial(offsets, blocks))), offsets, blocks);
  }

  /** The block list that loses a member does not ask for enough. */
  lemma {:induction false} LossyDoesNotAskEnough()
    ensures Input(LOSSY_OFFSETS, LOSSY_BLOCKS) && !AsksEnough(4, LOSSY_OFFSETS, LOSSY_BLOCKS)
  {
    AcceptedButNotCovered();
    hide Accepts, Lossless, Covered, Initial, Asked;
    if AsksEnough(|LOSSY_DAG|, LOSSY_OFFSETS, LOSSY_BLOCKS) {
      AcceptedCovers(LOSSY_DAG, LOSSY_OFFSETS, LOSSY_BLOCKS);
    }
  }

  // ---------- completeness, exactly ----------

  /** The edges that the quadratic check asks for, from the smaller to the greater identifier. */
  ghost function PairEdges(offsets: seq<int>, blocks: seq<Block>): set<Edge>
    requires |offsets| == |blocks|
  {
    set p, q | 0 <= p < |blocks| && 0 <= q < |blocks| && CollidingPair(offsets, blocks, p, q) ::
      Upward(blocks[p].request, blocks[q].request)
  }

  lemma {:induction false} DirectIff(dag: Graph, offsets: seq<int>, blocks: seq<Block>)
    requires |offsets| == |blocks|
    ensures Direct(dag, Source(offsets, blocks)) <==> Has(dag, PairEdges(offsets, blocks))
  {
    forall p, q | CollidingPair(offsets, blocks, p, q)
      ensures Upward(blocks[p].request, blocks[q].request) in PairEdges(offsets, blocks)
    {
    }
  }

  /** Direct edges for all colliding pairs suffice, whatever the graph, exactly when every edge that the sweep asks for
      joins a colliding pair. */
  lemma {:induction false} CompleteIffAsksPairs(n: nat, offsets: seq<int>, blocks: seq<Block>)
    requires Input(offsets, blocks) && forall k :: 0 <= k < |blocks| ==> blocks[k].request < n
    ensures (forall dag: Graph :: |dag| == n && Direct(dag, Source(offsets, blocks)) ==>
            Accepts(dag, Initial(offsets, blocks))) <==>
            Asked(Initial(offsets, blocks)) <= PairEdges(offsets, blocks)
  {
    var L, pairs := Initial(offsets, blocks), PairEdges(offsets, blocks);
    if Asked(L) <= pairs {
      forall dag: Graph | |dag| == n && Direct(dag, Source(offsets, blocks))
        ensures Accepts(dag, L)
      {
        DirectIff(dag, offsets, blocks);
        AcceptsIffAsked(dag, L);
      }
    }
    assert Below(n, pairs);
    var least := Least(n, pairs);
    LeastHas(n, pairs);
    DirectIff(least, offsets, blocks);
    AcceptsIffAsked(least, L);
    LeastOnly(n, pairs);
    if Accepts(least, L) {
      forall e | e in Asked(L)
        ensures e in pairs
      {
        assert IsAdjacent(least, e.source, e.target);
      }
    }
  }

  lemma {:induction false} LeastOnly(n: nat, edges: set<Edge>)
    ensures forall u, v :: IsAdjacent(Least(n, edges), u, v) ==> Edge(u, v) in edges
  {
    forall u: nat, v: nat | IsAdjacent(Least(n, edges), u, v)
      ensures Edge(u, v) in edges
    {
      var e :| e in edges && e.source == u && e.target == v;
      assert e == Edge(u, v);
    }
  }

  /** Where no size block is cut, every edge that the sweep asks for joins a colliding pair. */
  lemma {:induction false} UncutAsksPairs(n: nat, offsets: seq<int>, blocks: seq<Block>)
    requires Input(offsets, blocks) && forall k :: 0 <= k < |blocks| ==> blocks[k].request < n
    requires NonEmpty(offsets, blocks) && DisjointPerRequest(offsets, blocks) && UncutSizes(offsets, blocks)
    ensures Asked(Initial(offsets, blocks)) <= PairEdges(offsets, blocks)
  {
    forall dag: Graph | |dag| == n && Direct(dag, Source(offsets, blocks))
      ensures Accepts(dag, Initial(offsets, blocks))
    {
      DirectIsAccepted(dag, offsets, blocks);
    }
    CompleteIffAsksPairs(n, offsets, blocks);
  }

  // ---------- a size block that is cut ----------

  const CUT_OFFSETS: seq<int> := [-1, -1, 0]
  const CUT_BLOCKS: seq<Block> := [Block(100, Writable, 0), Block(100, Writable, 1), Block(1, ReadOnly, 2)]
  const CUT_DAG: Graph := [{1}, {}, {}]

  lemma {:induction false} RejectsMerge(dag: Graph, h: Piece, rest: seq<Piece>, j: nat)
    requires Leads(h, rest) && !Skipped(h) && Target(h, rest, 0) == j < |rest|
    requires Ordered(Next(h, rest, j)) && !Accepts(dag, Next(h, rest, j))
    ensures Ordered([h] + rest) && !Accepts(dag, [h] + rest)
  {
    hide Accepts;
    AcceptsFront(dag, h, rest);
  }

  lemma {:induction false} RejectsFinal(dag: Graph, h: Piece, rest: seq<Piece>)
    requires Leads(h, rest) && !Skipped(h) && Target(h, rest, 0) == |rest|
    requires !Accepts(dag, rest) || !DependenciesOk(dag, h, rest, |rest|)
    ensures Ordered([h] + rest) && !Accepts(dag, [h] + rest)
  {
    hide Accepts;
    AcceptsFront(dag, h, rest);
  }

  const EXPANDER_0 := Piece(-1, Block(100, Writable, 0), [], 0, {})
  const EXPANDER_1 := Piece(-1, Block(100, Writable, 1), [], 1, {})
  const READER := Piece(0, Block(1, ReadOnly, 2), [], 2, {})
  const EXPANDER_HEAD := Piece(-1, Block(1, Writable, 1), [0], 1, {Mark(0, 0)})
  const EXPANDER_TAIL := Piece(0, Block(99, Writable, 1), [], 1, {})

  lemma {:induction false} CutSplit()
    ensures Leads(EXPANDER_0, [EXPANDER_1, READER]) && Target(EXPANDER_0, [EXPANDER_1, READER], 0) == 0
    ensures Next(EXPANDER_0, [EXPANDER_1, READER], 0) == [EXPANDER_HEAD, EXPANDER_TAIL, READER]
  {
    var rest := [EXPANDER_1, READER];
    assert LowerBound(rest, 0) == 1;
    assert Own(EXPANDER_0) == [0];
    assert MergePrefixes([], [0], 0, 1) == [0];
    var p := Absorb(EXPANDER_0, EXPANDER_1);
    assert HeadOf(p, 0) == EXPANDER_HEAD && TailOf(p, 0) == EXPANDER_TAIL;
    assert rest[0 := EXPANDER_HEAD] == [EXPANDER_HEAD, READER];
    assert InsertAt([EXPANDER_HEAD, READER], 1, EXPANDER_TAIL) == [EXPANDER_HEAD, EXPANDER_TAIL, READER];
  }

  lemma {:induction false} CutTail()
    ensures Ordered([EXPANDER_TAIL] + [READER]) && !Accepts(CUT_DAG, [EXPANDER_TAIL] + [READER])
  {
    assert Own(EXPANDER_TAIL) == [1];
    SingleDependency(CUT_DAG, 1, 2);
    assert [READER][0].offset < Fin(EXPANDER_TAIL);
    assert !DependenciesOk(CUT_DAG, EXPANDER_TAIL, [READER], 1);
    assert Target(EXPANDER_TAIL, [READER], 0) == 1;
    RejectsFinal(CUT_DAG, EXPANDER_TAIL, [READER]);
  }

  lemma {:induction false} CutHead()
    ensures Ordered([EXPANDER_HEAD] + [EXPANDER_TAIL, READER]) &&
            !Accepts(CUT_DAG, [EXPANDER_HEAD] + [EXPANDER_TAIL, READER])
  {
    CutTail();
    var behind := [EXPANDER_TAIL, READER];
    assert [EXPANDER_TAIL] + [READER] == behind;
    hide Accepts, Next;
    assert Target(EXPANDER_HEAD, behind, 0) == 2;
    RejectsFinal(CUT_DAG, EXPANDER_HEAD, behind);
  }

  lemma {:induction false} CutRun()
    ensures Ordered([EXPANDER_0] + [EXPANDER_1, READER]) && !Accepts(CUT_DAG, [EXPANDER_0] + [EXPANDER_1, READER])
  {
    CutSplit();
    CutHead();
    hide Accepts, Next, Target, Ordered, Leads;
    assert [EXPANDER_HEAD] + [EXPANDER_TAIL, READER] == [EXPANDER_HEAD, EXPANDER_TAIL, READER];
    RejectsMerge(CUT_DAG, EXPANDER_0, [EXPANDER_1, READER], 0);
  }

  /** Two expanders and a reader of byte 0 below the proposed lower bound of 10: every colliding pair has its edge and
      nothing is paired by the resizing check, yet the sweep cuts the second expander at 0, takes what remains for a
      write to [0, 99), and asks for an edge between requests 1 and 2. */
  lemma {:induction false} DirectButRejected()
    ensures Input(CUT_OFFSETS, CUT_BLOCKS) && NonEmpty(CUT_OFFSETS, CUT_BLOCKS) &&
            DisjointPerRequest(CUT_OFFSETS, CUT_BLOCKS)
    ensures Ascending(CUT_DAG) && Direct(CUT_DAG, Source(CUT_OFFSETS, CUT_BLOCKS))
    ensures forall i, w :: !ResizingPair(CUT_OFFSETS, CUT_BLOCKS, 10, i, w)
    ensures !Accepts(CUT_DAG, Initial(CUT_OFFSETS, CUT_BLOCKS)) && !UncutSizes(CUT_OFFSETS, CUT_BLOCKS)
  {
    CutRun();
    CutInput();
    CutDisjoint();
    CutDirect();
    hide *;
  }

  lemma {:induction false} CutInput()
    ensures Input(CUT_OFFSETS, CUT_BLOCKS) && NonEmpty(CUT_OFFSETS, CUT_BLOCKS)
    ensures Initial(CUT_OFFSETS, CUT_BLOCKS) == [EXPANDER_0] + [EXPANDER_1, READER]
    ensures !UncutSizes(CUT_OFFSETS, CUT_BLOCKS)
  {
    assert -2 <= CUT_OFFSETS[0] && CUT_BLOCKS[0].access == CUT_BLOCKS[1].access;
    assert CUT_OFFSETS[1] + CUT_BLOCKS[1].size > CUT_OFFSETS[2];
  }

  lemma {:induction false} CutDisjoint()
    ensures DisjointPerRequest(CUT_OFFSETS, CUT_BLOCKS) && Ascending(CUT_DAG)
    ensures forall i, w :: !ResizingPair(CUT_OFFSETS, CUT_BLOCKS, 10, i, w)
  {
    forall i, w
      ensures !ResizingPair(CUT_OFFSETS, CUT_BLOCKS, 10, i, w)
    {
      assert CUT_OFFSETS[2] + CUT_BLOCKS[2].size == 1;
    }
  }

  lemma {:induction false} CutDirect()
    ensures Direct(CUT_DAG, Source(CUT_OFFSETS, CUT_BLOCKS))
  {
    forall p, q | CollidingPair(CUT_OFFSETS, CUT_BLOCKS, p, q)
      ensures OrderedEdge(CUT_DAG, CUT_BLOCKS[p].request, CUT_BLOCKS[q].request)
    {
      assert p == 0 && q == 1;
    }
  }
}
