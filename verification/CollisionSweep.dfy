/** The cluster-product sweep of `findCollisionCliques` (src/validator/RequestScheduler.h:190-239), as a function of
    the access blocks that are still to be visited, and what it guarantees. The in-place method that runs it is in
    CollisionVerifier.dfy. */
module CollisionSweep {
  import opened Access
  import opened Dag
  import opened Clusters

  /** A cluster member: the input block it comes from and the end of the piece that was merged. */
  datatype Mark = Mark(origin: nat, reach: int)

  /** One entry of the three parallel vectors (offset, access block, cluster). `origin` and `marks` only annotate
      it: the input block this is a piece of, and where the cluster's members come from. */
  datatype Piece = Piece(offset: int, block: Block, members: seq<nat>, origin: nat, marks: set<Mark>)

  function Fin(p: Piece): int {
    End(p.offset, p.block)
  }

  /** `collidingEnd`, which unlike `Fin` does not treat size blocks apart. */
  function Stop(p: Piece): int {
    p.offset + p.block.size
  }

  predicate Skipped(p: Piece) {
    p.offset == -3 || p.block.access == CheckOnly
  }

  /** -3, -2 and -1 are the only negative offsets; the chunk size can be read or written, not added to. */
  predicate Allowed(offset: int, access: Access) {
    offset >= -3 && (offset == -1 || offset == -2 ==> access != IntAdditive)
  }

  /** A chunk identifier may be declared without its size, with its size read, or resized, and any byte of it by any
      access type. */
  lemma {:induction false} AllowedPlaces(offset: int, access: Access)
    ensures Allowed(-3, access) && Allowed(-2, ReadOnly) && Allowed(-1, Writable)
    ensures offset >= 0 ==> Allowed(offset, access)
    ensures offset < -3 ==> !Allowed(offset, access)
  {
  }

  /** Sorted by offset. */
  predicate Ordered(L: seq<Piece>) {
    && (forall k :: 0 <= k < |L| ==> Allowed(L[k].offset, L[k].block.access))
    && (forall k, l :: 0 <= k < l < |L| ==> L[k].offset <= L[l].offset)
  }

  predicate CanMerge(l: Block, lo: int, r: Block, ro: int) {
    l.access == r.access && (l.access != IntAdditive || (lo == ro && l.size == r.size))
  }

  /** `p` takes over the cluster of `h`. */
  predicate Absorbs(h: Piece, p: Piece) {
    CanMerge(h.block, h.offset, p.block, p.offset) && Fin(h) <= Stop(p)
  }

  /** Index of the first block from `k` on that takes over the cluster of `h`, or |rest|. */
  function Target(h: Piece, rest: seq<Piece>, k: nat): (j: nat)
    requires k <= |rest|
    ensures k <= j <= |rest|
    ensures j < |rest| ==> rest[j].offset < Fin(h) && Absorbs(h, rest[j])
    ensures forall l :: k <= l < j && rest[l].offset < Fin(h) && Ordered(rest) ==> !Absorbs(h, rest[l])
    decreases |rest| - k
  {
    if k == |rest| || rest[k].offset >= Fin(h) then |rest|
    else if Absorbs(h, rest[k]) then k
    else Target(h, rest, k + 1)
  }

  /** Index of the first block at or after `cut` (`std::lower_bound`). */
  function LowerBound(rest: seq<Piece>, cut: int): (k: nat)
    ensures k <= |rest|
    ensures forall l :: 0 <= l < k ==> rest[l].offset < cut
    ensures k < |rest| ==> rest[k].offset >= cut
  {
    if rest == [] || rest[0].offset >= cut then 0 else
      var k := LowerBound(rest[1..], cut);
      assert forall l :: 1 <= l < k + 1 ==> rest[l] == rest[1..][l - 1];
      1 + k
  }

  function Own(h: Piece): seq<nat> {
    Inserted(h.block.access, h.members, h.block.request)
  }

  function OwnMarks(h: Piece): set<Mark> {
    h.marks + {Mark(h.origin, Fin(h))}
  }

  function Absorb(h: Piece, p: Piece): Piece {
    p.(members := Joined(h.block.access, p.members, Own(h)), marks := p.marks + OwnMarks(h))
  }

  function HeadOf(p: Piece, cut: int): Piece {
    p.(block := p.block.(size := cut - p.offset))
  }

  /** The remainder after a split starts with a fresh cluster. */
  function TailOf(p: Piece, cut: int): Piece {
    Piece(cut, p.block.(size := p.block.size - (cut - p.offset)), [], p.origin, {})
  }

  predicate Splits(h: Piece, rest: seq<Piece>, j: nat)
    requires j < |rest|
  {
    var k := LowerBound(rest, Fin(h));
    Fin(h) < Stop(rest[j]) && k < |rest| && rest[k].offset < Stop(rest[j])
  }

  function InsertAt(s: seq<Piece>, k: nat, p: Piece): (r: seq<Piece>)
    requires k <= |s|
    ensures |r| == |s| + 1 && r[k] == p
    ensures forall l :: 0 <= l < k ==> r[l] == s[l]
    ensures forall l :: k <= l < |s| ==> r[l + 1] == s[l]
  {
    s[..k] + [p] + s[k..]
  }

  /** The blocks left after the cluster of `h` moved into rest[j], which is split at the end of `h` when another
      block starts in its remainder. */
  function Next(h: Piece, rest: seq<Piece>, j: nat): seq<Piece>
    requires j < |rest|
  {
    var p := Absorb(h, rest[j]);
    if Splits(h, rest, j) then
      var cut := Fin(h);
      InsertAt(rest[j := HeadOf(p, cut)], LowerBound(rest, cut), TailOf(p, cut))
    else
      rest[j := p]
  }

  // ---------- termination ----------

  function Weight(p: Piece): nat {
    var w := if p.offset < 0 then Stop(p) else p.block.size;
    (if p.offset < 0 then 1 else 0) + (if w > 0 then w else 0)
  }

  /** Sum of a quantity over all pieces. */
  function Tally(L: seq<Piece>, w: Piece -> nat): nat {
    if L == [] then 0 else w(L[0]) + Tally(L[1..], w)
  }

  function Total(L: seq<Piece>): nat {
    Tally(L, Weight)
  }

  lemma {:induction false} TallyConcat(a: seq<Piece>, b: seq<Piece>, w: Piece -> nat)
    ensures Tally(a + b, w) == Tally(a, w) + Tally(b, w)
  {
    if a == [] {
      assert a + b == b;
    } else {
      assert (a + b)[1..] == a[1..] + b;
      TallyConcat(a[1..], b, w);
    }
  }

  lemma {:induction false} TallyUpdate(s: seq<Piece>, j: nat, p: Piece, w: Piece -> nat)
    requires j < |s|
    ensures Tally(s[j := p], w) + w(s[j]) == Tally(s, w) + w(p)
  {
    assert s == s[..j] + ([s[j]] + s[j + 1..]);
    assert s[j := p] == s[..j] + ([p] + s[j + 1..]);
    TallyConcat(s[..j], [s[j]] + s[j + 1..], w);
    TallyConcat(s[..j], [p] + s[j + 1..], w);
  }

  lemma {:induction false} TallyInsert(s: seq<Piece>, k: nat, p: Piece, w: Piece -> nat)
    requires k <= |s|
    ensures Tally(InsertAt(s, k, p), w) == Tally(s, w) + w(p)
  {
    assert s == s[..k] + s[k..];
    assert InsertAt(s, k, p) == s[..k] + ([p] + s[k..]);
    TallyConcat(s[..k], s[k..], w);
    TallyConcat(s[..k], [p] + s[k..], w);
  }

  /** `h` may stand in front of the ordered list `rest`. */
  predicate Leads(h: Piece, rest: seq<Piece>) {
    Ordered(rest) && Allowed(h.offset, h.block.access) && forall k :: 0 <= k < |rest| ==> h.offset <= rest[k].offset
  }

  lemma {:induction false} OrderedLeads(L: seq<Piece>)
    requires L != [] && Ordered(L)
    ensures Leads(L[0], L[1..])
  {
  }

  lemma {:induction false} InsertKeepsOrder(s: seq<Piece>, k: nat, p: Piece)
    requires Ordered(s) && k <= |s| && Allowed(p.offset, p.block.access)
    requires forall l :: 0 <= l < k ==> s[l].offset <= p.offset
    requires k < |s| ==> p.offset <= s[k].offset
    ensures Ordered(InsertAt(s, k, p))
  {
    var r := InsertAt(s, k, p);
    forall x, y | 0 <= x < y < |r|
      ensures r[x].offset <= r[y].offset
    {
      assert y > k ==> r[y] == s[y - 1];
      assert x > k ==> r[x] == s[x - 1];
    }
    forall x | 0 <= x < |r|
      ensures Allowed(r[x].offset, r[x].block.access)
    {
      assert x > k ==> r[x] == s[x - 1];
    }
  }

  /** A merge, with or without a split, keeps the list ordered. */
  lemma {:induction false} NextOrdered(h: Piece, rest: seq<Piece>, j: nat)
    requires Leads(h, rest) && !Skipped(h) && j == Target(h, rest, 0) < |rest|
    ensures Ordered(Next(h, rest, j))
  {
    var p := Absorb(h, rest[j]);
    if Splits(h, rest, j) {
      InsertKeepsOrder(rest[j := HeadOf(p, Fin(h))], LowerBound(rest, Fin(h)), TailOf(p, Fin(h)));
    }
  }

  /** A merge removes work although a split leaves the loop index where it was: the cut block weighs as much as
      its two parts, and `h` is gone. */
  lemma {:induction false} NextShrinks(h: Piece, rest: seq<Piece>, j: nat)
    requires Leads(h, rest) && !Skipped(h) && j == Target(h, rest, 0) < |rest|
    ensures Total(Next(h, rest, j)) == Total(rest)
    ensures Splits(h, rest, j) ==> Weight(h) > 0 && |Next(h, rest, j)| == |rest| + 1
    ensures !Splits(h, rest, j) ==> |Next(h, rest, j)| == |rest|
  {
    NextTally(h, rest, j, Weight);
  }

  /** A quantity that a cut divides between the parts and a merge does not touch stays the same. */
  lemma {:induction false} NextTally(h: Piece, rest: seq<Piece>, j: nat, w: Piece -> nat)
    requires Leads(h, rest) && !Skipped(h) && j == Target(h, rest, 0) < |rest|
    requires w(Absorb(h, rest[j])) == w(rest[j])
    requires Splits(h, rest, j) ==>
               w(HeadOf(Absorb(h, rest[j]), Fin(h))) + w(TailOf(Absorb(h, rest[j]), Fin(h))) == w(rest[j])
    ensures Tally(Next(h, rest, j), w) == Tally(rest, w)
  {
    var p := Absorb(h, rest[j]);
    var cut := Fin(h);
    if Splits(h, rest, j) {
      TallyUpdate(rest, j, HeadOf(p, cut), w);
      TallyInsert(rest[j := HeadOf(p, cut)], LowerBound(rest, cut), TailOf(p, cut), w);
    } else {
      TallyUpdate(rest, j, p, w);
    }
  }

  /** Whether a piece declares this access of this request to this byte; size blocks count from their offset. */
  function Spans(request: nat, access: Access, byte: int): Piece -> nat {
    (p: Piece) => if p.block.request == request && p.block.access == access && p.offset <= byte < Stop(p) then 1 else 0
  }

  /** A merge or a split leaves every byte of every request, in every access type, exactly as often among the blocks
      still to be visited as before; only those of the merged block `h` are gone. */
  lemma {:induction false} NextKeepsBytes(h: Piece, rest: seq<Piece>, j: nat, request: nat, access: Access, byte: int)
    requires Leads(h, rest) && !Skipped(h) && j == Target(h, rest, 0) < |rest|
    ensures Tally(Next(h, rest, j), Spans(request, access, byte)) == Tally(rest, Spans(request, access, byte))
  {
    NextTally(h, rest, j, Spans(request, access, byte));
  }

  // ---------- the sweep ----------

  predicate DependenciesOk(dag: Graph, h: Piece, rest: seq<Piece>, j: nat)
    requires j <= |rest|
  {
    forall l :: 0 <= l < j && rest[l].offset < Fin(h) && Collides(h.block.access, rest[l].block.access) ==>
      DependencyOk(dag, h.block.access, Own(h), rest[l].block.request)
  }

  /** The sweep finds every edge that it demands. */
  predicate Accepts(dag: Graph, L: seq<Piece>)
    requires Ordered(L)
    decreases Total(L), |L|
  {
    if L == [] then true else
      var h, rest := L[0], L[1..];
      OrderedLeads(L);
      if Skipped(h) then Accepts(dag, rest) else
        var j := Target(h, rest, 0);
        DependenciesOk(dag, h, rest, j) &&
        if j < |rest| then
          NextOrdered(h, rest, j);
          NextShrinks(h, rest, j);
          Accepts(dag, Next(h, rest, j))
        else
          (h.block.access == Writable ==> ChainOk(dag, Own(h))) && Accepts(dag, rest)
  }

  /** No split of the sweep drops a member that reaches a block starting past the cut. */
  predicate Lossless(L: seq<Piece>)
    requires Ordered(L)
    decreases Total(L), |L|
  {
    if L == [] then true else
      var h, rest := L[0], L[1..];
      OrderedLeads(L);
      if Skipped(h) then Lossless(rest) else
        var j := Target(h, rest, 0);
        if j < |rest| then
          NextOrdered(h, rest, j);
          NextShrinks(h, rest, j);
          (Splits(h, rest, j) ==>
            forall m :: m in rest[j].marks ==> m.reach <= rest[LowerBound(rest, Fin(h))].offset) &&
          Lossless(Next(h, rest, j))
        else
          Lossless(rest)
  }

  // ---------- the input ----------

  predicate Input(offsets: seq<int>, blocks: seq<Block>) {
    && |offsets| == |blocks|
    && (forall k :: 0 <= k < |offsets| ==> Allowed(offsets[k], blocks[k].access))
    && (forall k, l :: 0 <= k < l < |offsets| ==> offsets[k] <= offsets[l])
  }

  function Initial(offsets: seq<int>, blocks: seq<Block>): (L: seq<Piece>)
    requires Input(offsets, blocks)
    ensures Ordered(L) && |L| == |blocks|
  {
    seq(|blocks|, k requires 0 <= k < |blocks| => Piece(offsets[k], blocks[k], [], k, {}))
  }

  /** The pairs of input blocks that the quadratic `findCollisions` registers
      (src/validator/RequestScheduler.cpp:73-90). */
  predicate CollidingPair(offsets: seq<int>, blocks: seq<Block>, p: int, q: int)
    requires |offsets| == |blocks|
  {
    && 0 <= p < q < |blocks| && offsets[p] != -3 && offsets[q] < End(offsets[p], blocks[p])
    && Collides(blocks[p].access, blocks[q].access)
    && !AdditiveSame(offsets[p], blocks[p], offsets[q], blocks[q])
  }

  /** Every colliding pair of requests is joined by a directed path. */
  ghost predicate Covered(dag: Graph, offsets: seq<int>, blocks: seq<Block>)
    requires |offsets| == |blocks|
  {
    forall p, q :: CollidingPair(offsets, blocks, p, q) ==> Linked(dag, blocks[p].request, blocks[q].request)
  }
}
