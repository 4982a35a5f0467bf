/** How few edges the sweep asks for (src/validator/RequestScheduler.h:190-239). For all blocks at one offset these
    are, exactly: a chain through the writers, two edges for each reader and adder to its neighbours among the
    writers, and one edge for each pair of a reader and an adder. */
module SweepEconomy {
  import opened Access
  import opened Dag
  import opened Clusters
  import opened CollisionSweep
  import opened SweepLoss

  // ---------- neighbours ----------

  /** The request u has edges with its neighbours among the sorted members: from the last one that is not greater, and
      to the first one that is. */
  ghost predicate JoinsNeighbours(dag: Graph, members: seq<nat>, u: nat) {
    && (forall a :: 0 <= a < |members| && members[a] <= u && (forall b :: a < b < |members| ==> members[b] > u) ==>
          IsAdjacent(dag, members[a], u))
    && (forall a :: 0 <= a < |members| && members[a] > u && (forall b :: 0 <= b < a ==> members[b] <= u) ==>
          IsAdjacent(dag, u, members[a]))
  }

  /** Where the neighbours are. */
  lemma {:induction false} NeighboursAt(members: seq<nat>, u: nat, a: nat)
    requires Sorted(members) && a < |members|
    ensures members[a] <= u && (forall b :: a < b < |members| ==> members[b] > u) <==> a + 1 == UpperBound(members, u)
    ensures members[a] > u && (forall b :: 0 <= b < a ==> members[b] <= u) <==> a == UpperBound(members, u)
  {
    var k := UpperBound(members, u);
    if a < k {
      assert members[k - 1] <= u;
    }
    if k < a {
      assert members[k] > u;
    }
  }

  lemma {:induction false} DependencyIsNeighbours(dag: Graph, members: seq<nat>, u: nat)
    requires Sorted(members)
    ensures DependencyOk(dag, Writable, members, u) <==> JoinsNeighbours(dag, members, u)
  {
    forall a: nat | a < |members|
      ensures members[a] <= u && (forall b :: a < b < |members| ==> members[b] > u) <==> a + 1 == UpperBound(members, u)
      ensures members[a] > u && (forall b :: 0 <= b < a ==> members[b] <= u) <==> a == UpperBound(members, u)
    {
      NeighboursAt(members, u, a);
    }
    hide Sorted, UpperBound;
    var k := UpperBound(members, u);
    if JoinsNeighbours(dag, members, u) {
      assert k > 0 ==> IsAdjacent(dag, members[k - 1], u);
      assert k < |members| ==> IsAdjacent(dag, u, members[k]);
    }
  }

  lemma {:induction false} InMembers(dag: Graph, members: seq<nat>, u: nat)
    ensures (forall a :: 0 <= a < |members| ==> OrderedEdge(dag, members[a], u)) <==>
            forall m :: m in members ==> OrderedEdge(dag, m, u)
  {
    if forall m :: m in members ==> OrderedEdge(dag, m, u) {
      forall a | 0 <= a < |members|
        ensures OrderedEdge(dag, members[a], u)
      {
        assert members[a] in members;
      }
    }
  }

  // ---------- sorted lists ----------

  lemma {:induction false} LastIsGreatest(s: seq<nat>, x: nat)
    requires Sorted(s) && x in multiset(s)
    ensures s != [] && x <= s[|s| - 1]
  {
    var a :| 0 <= a < |s| && s[a] == x;
  }

  lemma {:induction false} SameLast(s: seq<nat>, t: seq<nat>)
    requires Sorted(s) && Sorted(t) && multiset(s) == multiset(t) && s != []
    ensures |t| == |s| && s[|s| - 1] == t[|t| - 1]
  {
    assert |s| == |multiset(s)| == |multiset(t)| == |t|;
    assert s[|s| - 1] in multiset(s) && t[|t| - 1] in multiset(t);
    LastIsGreatest(s, t[|t| - 1]);
    LastIsGreatest(t, s[|s| - 1]);
  }

  lemma {:induction false} SortedFront(s: seq<nat>)
    requires Sorted(s) && s != []
    ensures Sorted(s[..|s| - 1])
  {
  }

  lemma {:induction false} DropSame(s: seq<nat>, t: seq<nat>)
    requires |s| == |t| > 0 && s[|s| - 1] == t[|t| - 1] && multiset(s) == multiset(t)
    ensures multiset(s[..|s| - 1]) == multiset(t[..|t| - 1])
  {
    WithoutLast(s);
    WithoutLast(t);
  }

  lemma {:induction false} Rebuild(s: seq<nat>, t: seq<nat>)
    requires |s| == |t| > 0 && s[|s| - 1] == t[|t| - 1] && s[..|s| - 1] == t[..|t| - 1]
    ensures s == t
  {
    assert s == s[..|s| - 1] + [s[|s| - 1]];
    assert t == t[..|t| - 1] + [t[|t| - 1]];
  }

  /** A sorted list is determined by its elements. */
  lemma {:induction false} SortedUnique(s: seq<nat>, t: seq<nat>)
    requires Sorted(s) && Sorted(t) && multiset(s) == multiset(t)
    ensures s == t
  {
    if s == [] {
      assert |t| == |multiset(t)| == 0;
    } else {
      SameLast(s, t);
      SortedFront(s);
      SortedFront(t);
      DropSame(s, t);
      hide Sorted;
      SortedUnique(s[..|s| - 1], t[..|t| - 1]);
      Rebuild(s, t);
    }
  }

  lemma {:induction false} WithoutLast(s: seq<nat>)
    requires s != []
    ensures multiset(s[..|s| - 1]) == multiset(s) - multiset{s[|s| - 1]}
  {
    assert s == s[..|s| - 1] + [s[|s| - 1]];
  }

  // ---------- one pile of blocks of one kind ----------

  /** A block of this kind as the input has it, with nothing merged into it. */
  predicate Fresh(p: Piece, offset: int, access: Access) {
    p.offset == offset && p.block.access == access && p.members == [] && p.block.size >= 1
  }

  /** Blocks of one kind on top of each other, none shorter than the one before; adders of one size. */
  predicate Pile(s: seq<Piece>, offset: int, access: Access) {
    && (forall k :: 0 <= k < |s| ==> Fresh(s[k], offset, access))
    && (forall k, l :: 0 <= k < l < |s| ==>
          s[k].block.size <= s[l].block.size && (access == IntAdditive ==> s[k].block.size == s[l].block.size))
  }

  /** Blocks of other kinds at the same offset. */
  predicate Others(s: seq<Piece>, offset: int, access: Access) {
    forall k :: 0 <= k < |s| ==>
      s[k].offset == offset && s[k].block.access != access && s[k].block.access != CheckOnly && s[k].block.size >= 1
  }

  function Requests(s: seq<Piece>): (rs: seq<nat>)
    ensures |rs| == |s| && forall k :: 0 <= k < |s| ==> rs[k] == s[k].block.request
  {
    seq(|s|, k requires 0 <= k < |s| => s[k].block.request)
  }

  lemma {:induction false} RequestsSplit(s: seq<Piece>)
    requires s != []
    ensures Requests(s) == [s[0].block.request] + Requests(s[1..])
  {
  }

  /** What the last block of the pile ends up with. */
  function Gathered(h: Piece, same: seq<Piece>): seq<nat>
    decreases |same|
  {
    if same == [] then Own(h) else Gathered(Absorb(h, same[0]), same[1..])
  }

  lemma {:induction false} OwnIs(h: Piece)
    requires h.block.access == Writable ==> Sorted(h.members)
    ensures multiset(Own(h)) == multiset(h.members) + multiset{h.block.request}
    ensures h.block.access == Writable ==> Sorted(Own(h))
  {
    MergeSortedMembers(h.members, [h.block.request]);
    if h.block.access == Writable {
      MergePrefixesSorted(h.members, [h.block.request], |h.members|, 1);
    }
  }

  lemma {:induction false} AbsorbIs(h: Piece, p: Piece)
    requires p.members == [] && (h.block.access == Writable ==> Sorted(h.members))
    ensures multiset(Absorb(h, p).members) == multiset(h.members) + multiset{h.block.request}
    ensures h.block.access == Writable ==> Sorted(Absorb(h, p).members)
  {
    OwnIs(h);
    MergeSortedMembers(p.members, Own(h));
    if h.block.access == Writable {
      MergePrefixesSorted(p.members, Own(h), 0, |Own(h)|);
    }
  }

  lemma {:induction false} GatheredIs(h: Piece, same: seq<Piece>)
    requires h.block.access == Writable ==> Sorted(h.members)
    requires Pile(same, h.offset, h.block.access)
    ensures multiset(Gathered(h, same)) == multiset(h.members) + multiset{h.block.request} + multiset(Requests(same))
    ensures h.block.access == Writable ==> Sorted(Gathered(h, same))
    decreases |same|
  {
    if same == [] {
      OwnIs(h);
      assert Requests(same) == [];
    } else {
      AbsorbIs(h, same[0]);
      GatheredIs(Absorb(h, same[0]), same[1..]);
      RequestsSplit(same);
    }
  }

  /** Every block of another kind finds the edges of the cluster. */
  ghost predicate AllDepend(dag: Graph, access: Access, members: seq<nat>, others: seq<Piece>) {
    forall l :: 0 <= l < |others| && Collides(access, others[l].block.access) ==>
      DependencyOk(dag, access, members, others[l].block.request)
  }

  ghost predicate Chained(dag: Graph, access: Access, members: seq<nat>) {
    access == Writable ==> ChainOk(dag, members)
  }

  lemma {:induction false} PileLeads(h: Piece, same: seq<Piece>, others: seq<Piece>)
    requires h.offset >= 0 && h.block.access != CheckOnly
    requires Pile(same, h.offset, h.block.access) && Others(others, h.offset, h.block.access)
    ensures Leads(h, same + others) && !Skipped(h)
  {
  }

  lemma {:induction false} NothingBehind(rest: seq<Piece>, cut: int)
    requires forall k :: 0 <= k < |rest| ==> rest[k].offset < cut
    ensures LowerBound(rest, cut) == |rest|
  {
    if rest != [] {
      NothingBehind(rest[1..], cut);
    }
  }

  lemma {:induction false} OnTop(h: Piece, rest: seq<Piece>)
    requires h.offset >= 0 && h.block.size >= 1 && rest != [] && Leads(h, rest)
    requires forall k :: 0 <= k < |rest| ==> rest[k].offset == h.offset
    requires rest[0].block.access == h.block.access && rest[0].block.size >= h.block.size
    requires h.block.access == IntAdditive ==> rest[0].block.size == h.block.size
    ensures Target(h, rest, 0) == 0 && Next(h, rest, 0) == [Absorb(h, rest[0])] + rest[1..]
  {
    NothingBehind(rest, Fin(h));
    assert rest == [rest[0]] + rest[1..];
  }

  lemma {:induction false} NoneOnTop(h: Piece, others: seq<Piece>, k: nat)
    requires Others(others, h.offset, h.block.access) && h.offset >= 0 && k <= |others|
    ensures Target(h, others, k) == |others|
    decreases |others| - k
  {
    if k < |others| {
      NoneOnTop(h, others, k + 1);
    }
  }

  lemma {:induction false} LastOfPile(dag: Graph, h: Piece, others: seq<Piece>)
    requires h.offset >= 0 && h.block.size >= 1 && h.block.access != CheckOnly &&
             Others(others, h.offset, h.block.access)
    ensures Ordered(others) && Ordered([h] + others)
    ensures Accepts(dag, [h] + others) <==>
            && AllDepend(dag, h.block.access, Own(h), others) && Chained(dag, h.block.access, Own(h))
            && Accepts(dag, others)
  {
    PileLeads(h, [], others);
    assert [] + others == others;
    NoneOnTop(h, others, 0);
    AcceptsFront(dag, h, others);
    AllInside(dag, h, others);
    hide Accepts, Target, Next, DependenciesOk, AllDepend, ChainOk;
  }

  lemma {:induction false} AllInside(dag: Graph, h: Piece, others: seq<Piece>)
    requires h.offset >= 0 && h.block.size >= 1 && Others(others, h.offset, h.block.access)
    ensures DependenciesOk(dag, h, others, |others|) <==> AllDepend(dag, h.block.access, Own(h), others)
  {
    hide DependencyOk, Own;
  }

  /** A pile is visited from below, every block merges into the next one, and only the last asks for edges. */
  lemma {:induction false} PileAsks(dag: Graph, h: Piece, same: seq<Piece>, others: seq<Piece>)
    requires h.offset >= 0 && h.block.size >= 1 && h.block.access != CheckOnly
    requires Pile(same, h.offset, h.block.access) && Others(others, h.offset, h.block.access)
    requires same != [] ==> h.block.size <= same[0].block.size
    requires same != [] && h.block.access == IntAdditive ==> h.block.size == same[0].block.size
    ensures Ordered(others) && Ordered([h] + (same + others))
    ensures Accepts(dag, [h] + (same + others)) <==>
            && AllDepend(dag, h.block.access, Gathered(h, same), others)
            && Chained(dag, h.block.access, Gathered(h, same))
            && Accepts(dag, others)
    decreases |same|
  {
    hide Accepts, AllDepend, Chained, Pile, Others, Ordered, Own, Absorb;
    if same == [] {
      LastOfPile(dag, h, others);
      assert same + others == others;
    } else {
      PileStep(dag, h, same, others);
      PileAsks(dag, Absorb(h, same[0]), same[1..], others);
    }
  }

  /** The lowest block merges into the next one. */
  lemma {:induction false} PileStep(dag: Graph, h: Piece, same: seq<Piece>, others: seq<Piece>)
    requires h.offset >= 0 && h.block.size >= 1 && h.block.access != CheckOnly && same != []
    requires Pile(same, h.offset, h.block.access) && Others(others, h.offset, h.block.access)
    requires h.block.size <= same[0].block.size
    requires h.block.access == IntAdditive ==> h.block.size == same[0].block.size
    ensures var p := Absorb(h, same[0]);
            && p.offset == h.offset && p.block == same[0].block && p.block.access == h.block.access && p.block.size >= 1
            && Pile(same[1..], h.offset, h.block.access)
            && (same[1..] != [] ==> p.block.size <= same[1..][0].block.size)
            && (same[1..] != [] && h.block.access == IntAdditive ==> p.block.size == same[1..][0].block.size)
            && Ordered([h] + (same + others)) && Ordered([p] + (same[1..] + others))
            && (Accepts(dag, [h] + (same + others)) <==> Accepts(dag, [p] + (same[1..] + others)))
  {
    var rest := same + others;
    PileLeads(h, same, others);
    FirstOfPile(same, h.offset, h.block.access);
    assert rest[1..] == same[1..] + others && rest[0] == same[0];
    hide Accepts, Ordered, Leads;
    MergeOnTop(dag, h, rest);
  }

  lemma {:induction false} MergeOnTop(dag: Graph, h: Piece, rest: seq<Piece>)
    requires h.offset >= 0 && h.block.size >= 1 && rest != [] && Leads(h, rest) && !Skipped(h)
    requires forall k :: 0 <= k < |rest| ==> rest[k].offset == h.offset
    requires rest[0].block.access == h.block.access && rest[0].block.size >= h.block.size
    requires h.block.access == IntAdditive ==> rest[0].block.size == h.block.size
    ensures Ordered([h] + rest) && Ordered([Absorb(h, rest[0])] + rest[1..])
    ensures Accepts(dag, [h] + rest) <==> Accepts(dag, [Absorb(h, rest[0])] + rest[1..])
  {
    OnTop(h, rest);
    AcceptsFront(dag, h, rest);
    hide Accepts, Target, Next;
  }

  // ---------- all blocks at one offset ----------

  /** Writers, then readers, then adders, as the merged list has them. */
  ghost predicate Piles(writers: seq<Piece>, readers: seq<Piece>, adders: seq<Piece>, offset: int) {
    && Pile(writers, offset, Writable) && Pile(readers, offset, ReadOnly) && Pile(adders, offset, IntAdditive)
  }

  lemma {:induction false} WholePile(dag: Graph, same: seq<Piece>, others: seq<Piece>, offset: int, access: Access)
    requires offset >= 0 && access != CheckOnly && Pile(same, offset, access) && Others(others, offset, access)
    ensures Ordered(others) && Ordered(same + others)
    ensures same == [] ==> (Accepts(dag, same + others) <==> Accepts(dag, others))
    ensures same != [] ==>
              && multiset(Gathered(same[0], same[1..])) == multiset(Requests(same))
              && (access == Writable ==> Sorted(Gathered(same[0], same[1..])))
              && (Accepts(dag, same + others) <==>
                    && AllDepend(dag, access, Gathered(same[0], same[1..]), others)
                    && Chained(dag, access, Gathered(same[0], same[1..]))
                    && Accepts(dag, others))
  {
    hide Accepts, AllDepend, Chained, Gathered;
    if same == [] {
      OthersOrdered(others, offset, access);
      assert same + others == others;
    } else {
      FirstOfPile(same, offset, access);
      PileAsks(dag, same[0], same[1..], others);
      GatheredIs(same[0], same[1..]);
      assert same + others == [same[0]] + (same[1..] + others);
      AllRequests(same);
    }
  }

  lemma {:induction false} OthersOrdered(others: seq<Piece>, offset: int, access: Access)
    requires offset >= 0 && Others(others, offset, access)
    ensures Ordered(others)
  {
  }

  lemma {:induction false} FirstOfPile(same: seq<Piece>, offset: int, access: Access)
    requires Pile(same, offset, access) && same != []
    ensures Pile(same[1..], offset, access) && Fresh(same[0], offset, access)
    ensures same[1..] != [] ==> same[0].block.size <= same[1..][0].block.size
    ensures same[1..] != [] && access == IntAdditive ==> same[0].block.size == same[1..][0].block.size
  {
  }

  lemma {:induction false} AllRequests(same: seq<Piece>)
    requires same != []
    ensures multiset([]) + multiset{same[0].block.request} + multiset(Requests(same[1..])) == multiset(Requests(same))
  {
    RequestsSplit(same);
  }

  /** A chain through the requests in the order of their identifiers. */
  ghost predicate HasChain(dag: Graph, ordered: seq<nat>) {
    forall a, b :: 0 <= a < |ordered| && b == a + 1 && b < |ordered| ==> IsAdjacent(dag, ordered[a], ordered[b])
  }

  ghost predicate AllJoin(dag: Graph, ordered: seq<nat>, requests: seq<nat>) {
    forall u :: u in requests ==> JoinsNeighbours(dag, ordered, u)
  }

  /** Every reader and every adder, from the smaller to the greater identifier. */
  ghost predicate AllPairs(dag: Graph, readers: seq<nat>, adders: seq<nat>) {
    forall u, v :: u in readers && v in adders ==> if u < v then IsAdjacent(dag, u, v) else IsAdjacent(dag, v, u)
  }

  lemma {:induction false} WritersAsk(dag: Graph, members: seq<nat>, ordered: seq<nat>, others: seq<Piece>, offset: int)
    requires Sorted(members) && Sorted(ordered) && multiset(members) == multiset(ordered)
    requires Others(others, offset, Writable)
    ensures AllDepend(dag, Writable, members, others) && Chained(dag, Writable, members) <==>
            HasChain(dag, ordered) && AllJoin(dag, ordered, Requests(others))
  {
    SortedUnique(members, ordered);
    if AllDepend(dag, Writable, members, others) {
      forall u | u in Requests(others)
        ensures JoinsNeighbours(dag, ordered, u)
      {
        var l :| 0 <= l < |others| && Requests(others)[l] == u;
        assert Collides(Writable, others[l].block.access);
        DependencyIsNeighbours(dag, ordered, u);
      }
    }
    if AllJoin(dag, ordered, Requests(others)) {
      forall l | 0 <= l < |others|
        ensures DependencyOk(dag, Writable, members, others[l].block.request)
      {
        assert Requests(others)[l] in Requests(others);
        DependencyIsNeighbours(dag, ordered, others[l].block.request);
      }
    }
    ChainIs(dag, ordered);
  }

  lemma {:induction false} ChainIs(dag: Graph, ordered: seq<nat>)
    ensures ChainOk(dag, ordered) <==> HasChain(dag, ordered)
  {
    if HasChain(dag, ordered) {
      forall a | 0 <= a < |ordered| - 1
        ensures IsAdjacent(dag, ordered[a], ordered[a + 1])
      {
      }
    }
  }

  lemma {:induction false} ReadersAsk(dag: Graph, members: seq<nat>, readers: seq<nat>, adders: seq<Piece>, offset: int)
    requires multiset(members) == multiset(readers) && Pile(adders, offset, IntAdditive)
    ensures AllDepend(dag, ReadOnly, members, adders) <==> AllPairs(dag, readers, Requests(adders))
  {
    assert forall m :: m in members <==> m in readers by {
      forall m
        ensures m in members <==> m in readers
      {
        assert m in members <==> m in multiset(members);
      }
    }
    if AllDepend(dag, ReadOnly, members, adders) {
      forall u, v | u in readers && v in Requests(adders)
        ensures if u < v then IsAdjacent(dag, u, v) else IsAdjacent(dag, v, u)
      {
        var l :| 0 <= l < |adders| && Requests(adders)[l] == v;
        assert Collides(ReadOnly, adders[l].block.access);
        InMembers(dag, members, v);
        assert OrderedEdge(dag, u, v);
      }
    }
    if AllPairs(dag, readers, Requests(adders)) {
      forall l | 0 <= l < |adders|
        ensures DependencyOk(dag, ReadOnly, members, adders[l].block.request)
      {
        assert Requests(adders)[l] in Requests(adders);
        InMembers(dag, members, adders[l].block.request);
      }
    }
  }

  lemma {:induction false} AddersAsk(dag: Graph, adders: seq<Piece>, offset: int)
    requires offset >= 0 && Pile(adders, offset, IntAdditive)
    ensures Ordered(adders) && Accepts(dag, adders)
  {
    WholePile(dag, adders, [], offset, IntAdditive);
    assert adders + [] == adders;
  }

  lemma {:induction false} ReadersAndAddersAsk(dag: Graph, readers: seq<Piece>, adders: seq<Piece>, offset: int)
    requires offset >= 0 && Pile(readers, offset, ReadOnly) && Pile(adders, offset, IntAdditive)
    ensures Ordered(readers + adders)
    ensures Accepts(dag, readers + adders) <==> AllPairs(dag, Requests(readers), Requests(adders))
  {
    AddersAsk(dag, adders, offset);
    WholePile(dag, readers, adders, offset, ReadOnly);
    hide Accepts, Gathered, AllPairs, AllDepend;
    if readers != [] {
      ReadersAsk(dag, Gathered(readers[0], readers[1..]), Requests(readers), adders, offset);
    } else {
      NobodyPairs(dag, Requests(readers), Requests(adders));
    }
  }

  lemma {:induction false} NobodyPairs(dag: Graph, readers: seq<nat>, adders: seq<nat>)
    requires readers == []
    ensures AllPairs(dag, readers, adders)
  {
  }

  lemma {:induction false} RequestsConcat(s: seq<Piece>, t: seq<Piece>)
    ensures Requests(s + t) == Requests(s) + Requests(t)
  {
  }

  /** What the sweep asks for at one offset, exactly. The writers may come in any order of requests: `ordered` is that
      of their identifiers. A chain of |writers| - 1 edges is enough for them, and two edges for everybody else. */
  lemma {:induction false} OneOffsetAsks(dag: Graph, writers: seq<Piece>, readers: seq<Piece>, adders: seq<Piece>,
                                         offset: int,
                                         ordered: seq<nat>)
    requires offset >= 0 && Piles(writers, readers, adders, offset)
    requires Sorted(ordered) && multiset(ordered) == multiset(Requests(writers))
    ensures Ordered(writers + (readers + adders))
    ensures Accepts(dag, writers + (readers + adders)) <==>
            && HasChain(dag, ordered)
            && (writers != [] ==> AllJoin(dag, ordered, Requests(readers) + Requests(adders)))
            && AllPairs(dag, Requests(readers), Requests(adders))
  {
    ReadersAndAddersAsk(dag, readers, adders, offset);
    var others := readers + adders;
    assert Others(others, offset, Writable);
    WholePile(dag, writers, others, offset, Writable);
    RequestsConcat(readers, adders);
    hide Accepts, Gathered, AllPairs, AllDepend, Chained, AllJoin;
    if writers != [] {
      WritersAsk(dag, Gathered(writers[0], writers[1..]), ordered, others, offset);
    } else {
      assert |ordered| == |multiset(ordered)| == 0;
    }
  }

  /** Blocks of one kind, none shorter than the one before; adders of one size. */
  predicate Stacked(bs: seq<Block>, access: Access) {
    && (forall k :: 0 <= k < |bs| ==> bs[k].access == access && bs[k].size >= 1)
    && (forall k, l :: 0 <= k < l < |bs| ==>
          bs[k].size <= bs[l].size && (access == IntAdditive ==> bs[k].size == bs[l].size))
  }

  function RequestsOf(bs: seq<Block>): (rs: seq<nat>)
    ensures |rs| == |bs| && forall k :: 0 <= k < |bs| ==> rs[k] == bs[k].request
  {
    seq(|bs|, k requires 0 <= k < |bs| => bs[k].request)
  }

  lemma {:induction false} PartOfInitial(offsets: seq<int>, blocks: seq<Block>, a: nat, b: nat, offset: int,
                                         access: Access)
    requires Input(offsets, blocks) && a <= b <= |blocks| && (forall k :: 0 <= k < |offsets| ==> offsets[k] == offset)
    requires Stacked(blocks[a..b], access)
    ensures Pile(Initial(offsets, blocks)[a..b], offset, access)
    ensures Requests(Initial(offsets, blocks)[a..b]) == RequestsOf(blocks[a..b])
  {
    var s := Initial(offsets, blocks)[a..b];
    assert forall k :: 0 <= k < |s| ==> s[k].block == blocks[a..b][k] && s[k].offset == offset && s[k].members == [];
  }

  /** The blocks of one offset as the verifier gets them. */
  lemma {:induction false} OneOffsetInput(dag: Graph, offset: nat, writers: seq<Block>, readers: seq<Block>,
                                          adders: seq<Block>,
                                          ordered: seq<nat>)
    requires Stacked(writers, Writable) && Stacked(readers, ReadOnly) && Stacked(adders, IntAdditive)
    requires Sorted(ordered) && multiset(ordered) == multiset(RequestsOf(writers))
    ensures var blocks := writers + readers + adders;
            var offsets := seq(|blocks|, _ => offset);
            && Input(offsets, blocks)
            && (Accepts(dag, Initial(offsets, blocks)) <==>
                  && HasChain(dag, ordered)
                  && (writers != [] ==> AllJoin(dag, ordered, RequestsOf(readers) + RequestsOf(adders)))
                  && AllPairs(dag, RequestsOf(readers), RequestsOf(adders)))
  {
    var blocks := writers + readers + adders;
    var offsets: seq<int> := seq(|blocks|, _ => offset);
    var L := Initial(offsets, blocks);
    var m, n := |writers|, |writers| + |readers|;
    assert blocks[..m] == blocks[0..m] == writers && blocks[m..n] == readers && blocks[n..|blocks|] == adders;
    PartOfInitial(offsets, blocks, 0, m, offset, Writable);
    PartOfInitial(offsets, blocks, m, n, offset, ReadOnly);
    PartOfInitial(offsets, blocks, n, |blocks|, offset, IntAdditive);
    hide Accepts, AllJoin, AllPairs, HasChain, Pile;
    assert L == L[0..m] + (L[m..n] + L[n..|blocks|]);
    assert Piles(L[0..m], L[m..n], L[n..|blocks|], offset) ;
    OneOffsetAsks(dag, L[0..m], L[m..n], L[n..|blocks|], offset, ordered);
  }

  // ---------- at any offset ----------

  /** A block is merged into the first later block that starts inside it, is of its kind (an adder: is the same block),
      and does not end before it; and into none if there is no such block. */
  predicate CanTakeOver(h: Piece, p: Piece) {
    && p.offset < Fin(h) && p.block.access == h.block.access
    && (h.block.access == IntAdditive ==> p.offset == h.offset && p.block.size == h.block.size)
    && Fin(h) <= p.offset + p.block.size
  }

  lemma {:induction false} MergesIntoTheFirst(h: Piece, rest: seq<Piece>, j: nat)
    requires Leads(h, rest) && j <= |rest|
    ensures Target(h, rest, 0) == j <==>
            (j < |rest| ==> CanTakeOver(h, rest[j])) && forall l :: 0 <= l < j ==> !CanTakeOver(h, rest[l])
  {
    TargetFrom(h, rest, 0);
  }

  lemma {:induction false} TargetFrom(h: Piece, rest: seq<Piece>, k: nat)
    requires Leads(h, rest) && k <= |rest|
    ensures var j := Target(h, rest, k);
            (j < |rest| ==> CanTakeOver(h, rest[j])) && forall l :: k <= l < j ==> !CanTakeOver(h, rest[l])
    decreases |rest| - k
  {
    if k < |rest| && rest[k].offset < Fin(h) && !Absorbs(h, rest[k]) {
      TargetFrom(h, rest, k + 1);
    }
  }
}
