/** Chunk resizing collisions (src/validator/RequestScheduler.h:241-273) against what a resize may do to a validity
    check (src/ascee/heap/RestrictedModifier.cpp:91-107, src/ascee/heap/RestrictedModifier.h:76-86). */
module Resizing {
  import opened Access
  import opened Options
  import opened Dag
  import opened Clusters
  import opened CollisionSweep

  /** Test of the inner loop: does a resizer that declared `newSize` collide with the block [offset, end)? A positive
      size declares an upper bound for expanding, any other its negated lower bound for shrinking. */
  predicate ResizeCollision(offset: int, end: int, newSize: int, lowerBound: int) {
    end > lowerBound && if newSize > 0 then offset < newSize else end > -newSize
  }

  /** The pairs of the resizing check: a data block and a size writer of another request. */
  predicate ResizingPair(offsets: seq<int>, blocks: seq<Block>, lowerBound: int, i: int, w: int)
    requires |offsets| == |blocks|
  {
    && 0 <= i < |blocks| && 0 <= w < |blocks| && offsets[i] >= 0 && offsets[w] == -1
    && blocks[i].request != blocks[w].request
    && ResizeCollision(offsets[i], offsets[i] + blocks[i].size, blocks[w].size, lowerBound)
  }

  /** `updateChunkSize` accepts the new size. */
  predicate ResizeAllowed(newSize: int, prev: int, next: int) {
    next == prev || if newSize > 0 then prev <= next <= newSize else -newSize <= next <= prev
  }

  /** `isValid` on an access block that is large enough. */
  predicate IsValid(offset: int, size: int, chunkSize: int) {
    offset + size <= chunkSize
  }

  /** The resizer may make a resize, above the proposed bound, that changes the validity of the part. */
  ghost predicate MayChange(offset: int, size: int, newSize: int, lowerBound: int) {
    exists prev: int, next: int ::
      prev >= lowerBound && ResizeAllowed(newSize, prev, next) &&
          IsValid(offset, size, prev) != IsValid(offset, size, next)
  }

  /** A shrinker that may make the chunk too small for a block that ends below the lower bound, where the test does not
      look. */
  predicate Undercuts(end: int, newSize: int, lowerBound: int) {
    newSize <= 0 && -newSize < end <= lowerBound
  }

  /** For every declared bound: some permitted resize changes the validity of some non-empty part of the block exactly
      when the test reports a collision with a resizer that can resize at all, or misses a shrinker that undercuts the
      block. */
  lemma {:induction false} ResizeCollisionExact(offset: int, blockSize: int, newSize: int, lowerBound: int)
    requires offset >= 0 && blockSize >= 1
    ensures var end := offset + blockSize;
            (exists size: int :: 1 <= size <= blockSize && MayChange(offset, size, newSize, lowerBound)) <==>
            || (ResizeCollision(offset, end, newSize, lowerBound) && !(0 < newSize <= lowerBound))
            || Undercuts(end, newSize, lowerBound)
  {
    var end := offset + blockSize;
    if newSize > 0 {
      if ResizeCollision(offset, end, newSize, lowerBound) && newSize > lowerBound {
        var size := if offset >= lowerBound then 1 else lowerBound - offset + 1;
        assert IsValid(offset, size, newSize) && !IsValid(offset, size, lowerBound);
        assert ResizeAllowed(newSize, lowerBound, newSize);
        assert MayChange(offset, size, newSize, lowerBound);
      }
    } else if -newSize < end {
      var prev := if end > lowerBound then end else lowerBound;
      assert IsValid(offset, blockSize, prev) && !IsValid(offset, blockSize, -newSize);
      assert ResizeAllowed(newSize, prev, -newSize);
      assert MayChange(offset, blockSize, newSize, lowerBound);
    }
  }

  /** An expander up to 3 of a chunk that never gets smaller than 5 is reported against the bytes [0, 10), although it
      can change nothing. */
  lemma {:induction false} IdleExpanderIsReported()
    ensures ResizeCollision(0, 10, 3, 5) && forall size :: !MayChange(0, size, 3, 5)
  {
  }

  /** A query for zero bytes changes its answer unreported exactly when an expander may grow the chunk up to the offset
      of the block, and the offset is above the lower bound, or a shrinker may make it end before the offset of a block
      below the lower bound. */
  lemma {:induction false} EmptyPartMayChange(offset: int, blockSize: int, newSize: int, lowerBound: int)
    requires offset >= 0 && blockSize >= 1
    ensures var end := offset + blockSize;
            MayChange(offset, 0, newSize, lowerBound) && !ResizeCollision(offset, end, newSize, lowerBound) <==>
            || (0 < newSize == offset && offset > lowerBound)
            || (newSize <= 0 && -newSize < offset && end <= lowerBound)
  {
    if 0 < newSize == offset && offset > lowerBound {
      assert ResizeAllowed(newSize, lowerBound, newSize);
      assert IsValid(offset, 0, newSize) && !IsValid(offset, 0, lowerBound);
    }
    if newSize <= 0 && -newSize < offset <= lowerBound {
      assert ResizeAllowed(newSize, lowerBound, -newSize);
      assert IsValid(offset, 0, lowerBound) && !IsValid(offset, 0, -newSize);
    }
  }

  // ---------- the bounds of a block ----------

  /** The declared bound respects the proposed lower bound of the chunk, as docs/specs.md:124 demands. */
  predicate WithinBounds(newSize: int, lowerBound: int) {
    newSize <= 0 ==> -newSize >= lowerBound
  }

  /** Chunk sizes are unsigned, so a proposed bound is converted when it is compared with one. */
  function Unsigned(v: int): nat {
    v % 0x1_0000_0000
  }

  /** The test of `buildModifier` (src/storage/ChunkIndex.cpp:75-87). The sign of a shrinker's bound was flipped before,
      so the last condition sees the shrinkers to 0 only. */
  predicate BoundsAccepted(chunkSize: nat, newSize: int, lowerBound: int, upperBound: int) {
    var bound := if newSize > 0 then newSize else -newSize;
    && Unsigned(lowerBound) <= chunkSize <= Unsigned(upperBound)
    && !(bound > 0 && bound > upperBound)
    && !(bound <= 0 && -bound < lowerBound)
  }

  predicate IsInt32(v: int) {
    -0x8000_0000 <= v < 0x8000_0000
  }

  /** What the test makes sure of: the chunk is within the lower bound, but a shrinker is so exactly unless its own
      bound lies between 0 and the lower bound. */
  lemma {:induction false} AcceptedBounds(chunkSize: nat, newSize: int, lowerBound: int, upperBound: int)
    requires IsInt32(chunkSize) && IsInt32(lowerBound) && IsInt32(upperBound)
    requires BoundsAccepted(chunkSize, newSize, lowerBound, upperBound)
    ensures 0 <= lowerBound <= chunkSize && newSize <= Unsigned(upperBound)
    ensures WithinBounds(newSize, lowerBound) <==> !(0 < -newSize < lowerBound)
  {
  }

  /** Declarations within both bounds are accepted, an expander above the upper bound is not, and a resizer that may
      leave nothing needs a lower bound of zero. */
  lemma {:induction false} AcceptedDeclarations(chunkSize: nat, newSize: int, lowerBound: int, upperBound: int)
    requires IsInt32(upperBound) && 0 <= lowerBound <= chunkSize <= Unsigned(upperBound)
    requires IsInt32(lowerBound)
    ensures newSize > 0 ==> (BoundsAccepted(chunkSize, newSize, lowerBound, upperBound) <==> newSize <= upperBound)
    ensures newSize < 0 ==> (BoundsAccepted(chunkSize, newSize, lowerBound, upperBound) <==> -newSize <= upperBound)
    ensures newSize == 0 ==> (BoundsAccepted(chunkSize, newSize, lowerBound, upperBound) <==> lowerBound == 0)
  {
  }

  /** The declarations that break the rule and are accepted for some chunk are exactly these. */
  lemma {:induction false} AcceptedOutOfBounds(newSize: int, lowerBound: int)
    requires IsInt32(lowerBound)
    ensures (exists chunkSize: nat, upperBound: int ::
               IsInt32(chunkSize) && IsInt32(upperBound) &&
                   BoundsAccepted(chunkSize, newSize, lowerBound, upperBound)) &&
            !WithinBounds(newSize, lowerBound) <==>
            0 < -newSize < lowerBound
  {
    if 0 < -newSize < lowerBound {
      assert BoundsAccepted(lowerBound, newSize, lowerBound, lowerBound);
    }
  }

  /** A chunk of 5 bytes with both bounds 5 and a shrinker to 3: accepted, not reported against the bytes [0, 4), and it
      may cut them. */
  lemma {:induction false} ShrinkerIsMissed()
    ensures BoundsAccepted(5, -3, 5, 5) && !ResizeCollision(0, 4, -3, 5) && MayChange(0, 4, -3, 5)
  {
    assert ResizeAllowed(-3, 5, 3) && IsValid(0, 4, 5) && !IsValid(0, 4, 3);
  }

  /** The resizer may change the validity of a non-empty part of the block, and the test reports nothing. */
  ghost predicate Unreported(offset: nat, blockSize: int, size: int, newSize: int, lowerBound: int) {
    && 1 <= size <= blockSize && MayChange(offset, size, newSize, lowerBound)
    && !ResizeCollision(offset, offset + blockSize, newSize, lowerBound)
  }

  /** A resizer can change the validity of a non-empty part of some block unreported exactly when it breaks the rule. */
  lemma {:induction false} UnreportedIffOutOfBounds(newSize: int, lowerBound: int)
    requires lowerBound >= 0
    ensures (exists offset: nat, blockSize: int, size: int ::
               Unreported(offset, blockSize, size, newSize, lowerBound)) <==>
            !WithinBounds(newSize, lowerBound)
  {
    if !WithinBounds(newSize, lowerBound) {
      assert ResizeAllowed(newSize, lowerBound, -newSize);
      assert IsValid(0, lowerBound, lowerBound) && !IsValid(0, lowerBound, -newSize);
      assert MayChange(0, lowerBound, newSize, lowerBound);
      assert Unreported(0, lowerBound, lowerBound, newSize, lowerBound);
    }
  }

  // ---------- whole runs ----------

  /** Sizes of the chunk over time: each step is one resizer's update. */
  ghost predicate ResizeRun(sizes: seq<int>, declared: seq<int>) {
    |sizes| == |declared| + 1 &&
    forall k :: 0 <= k < |declared| ==> ResizeAllowed(declared[k], sizes[k], sizes[k + 1])
  }

  /** The check pairs the block with none of the resizers. */
  predicate Unpaired(offset: int, end: int, declared: seq<int>, lowerBound: int) {
    forall k :: 0 <= k < |declared| ==> !ResizeCollision(offset, end, declared[k], lowerBound)
  }

  predicate NoneUndercuts(end: int, declared: seq<int>, lowerBound: int) {
    forall k :: 0 <= k < |declared| ==> !Undercuts(end, declared[k], lowerBound)
  }

  ghost predicate SameValidity(offset: int, size: int, sizes: seq<int>) {
    forall k :: 0 <= k < |sizes| ==> IsValid(offset, size, sizes[k]) == IsValid(offset, size, sizes[0])
  }

  lemma {:induction false} RunPrefix(sizes: seq<int>, declared: seq<int>)
    requires ResizeRun(sizes, declared) && declared != []
    ensures ResizeRun(sizes[..|declared|], declared[..|declared| - 1])
    ensures ResizeAllowed(declared[|declared| - 1], sizes[|declared| - 1], sizes[|declared|])
  {
    var n := |declared| - 1;
    assert ResizeAllowed(declared[n], sizes[n], sizes[n + 1]);
    forall k | 0 <= k < n
      ensures ResizeAllowed(declared[..n][k], sizes[..n + 1][k], sizes[..n + 1][k + 1])
    {
      assert ResizeAllowed(declared[k], sizes[k], sizes[k + 1]);
    }
  }

  /** A request that the check pairs with none of the resizers sees the same validity throughout, unless one of them
      undercuts its block. */
  lemma {:induction false} UnpairedSeesNoResize(offset: int, blockSize: int, size: int, lowerBound: int,
                                                sizes: seq<int>, declared: seq<int>)
    requires 1 <= size <= blockSize && ResizeRun(sizes, declared) && sizes[0] >= lowerBound
    requires Unpaired(offset, offset + blockSize, declared, lowerBound)
    requires NoneUndercuts(offset + blockSize, declared, lowerBound)
    ensures SameValidity(offset, size, sizes)
    decreases |declared|
  {
    if declared != [] {
      var n := |declared|;
      RunPrefix(sizes, declared);
      UnpairedSeesNoResize(offset, blockSize, size, lowerBound, sizes[..n], declared[..n - 1]);
      assert sizes[..n][n - 1] == sizes[n - 1];
      forall k | 0 <= k < |sizes|
        ensures IsValid(offset, size, sizes[k]) == IsValid(offset, size, sizes[0])
      {
        if k < n {
          assert sizes[..n][k] == sizes[k];
        }
      }
    }
  }

  /** One resizer acts, the others leave the size alone. */
  lemma {:induction false} OneShrinks(declared: seq<int>, k: nat, prev: int, next: int) returns (sizes: seq<int>)
    requires k < |declared| && ResizeAllowed(declared[k], prev, next)
    ensures ResizeRun(sizes, declared) && sizes[0] == prev && sizes[k + 1] == next
  {
    sizes := seq(|declared| + 1, i => if i <= k then prev else next);
  }

  /** Of a block that the check pairs with none of the resizers, every request sees the same validity throughout every
      run exactly when no resizer undercuts it. */
  lemma {:induction false} UnpairedIffNoneUndercuts(offset: int, blockSize: int, lowerBound: int, declared: seq<int>)
    requires offset >= 0 && blockSize >= 1 && Unpaired(offset, offset + blockSize, declared, lowerBound)
    ensures (forall size: int, sizes: seq<int> ::
               1 <= size <= blockSize && ResizeRun(sizes, declared) && sizes[0] >= lowerBound ==>
               SameValidity(offset, size, sizes)) <==>
            NoneUndercuts(offset + blockSize, declared, lowerBound)
  {
    if NoneUndercuts(offset + blockSize, declared, lowerBound) {
      forall size: int, sizes: seq<int> | 1 <= size <= blockSize && ResizeRun(sizes, declared) && sizes[0] >= lowerBound
        ensures SameValidity(offset, size, sizes)
      {
        UnpairedSeesNoResize(offset, blockSize, size, lowerBound, sizes, declared);
      }
    } else {
      var k :| 0 <= k < |declared| && Undercuts(offset + blockSize, declared[k], lowerBound);
      var sizes := OneShrinks(declared, k, lowerBound, -declared[k]);
      assert IsValid(offset, blockSize, sizes[0]) && !IsValid(offset, blockSize, sizes[k + 1]);
      assert !SameValidity(offset, blockSize, sizes);
    }
  }

  /** Resizers that keep to the rule undercut nothing, and never make the chunk smaller than the lower bound. */
  lemma {:induction false} WithinBoundsUndercutsNothing(end: int, lowerBound: int, sizes: seq<int>, declared: seq<int>)
    requires forall k :: 0 <= k < |declared| ==> WithinBounds(declared[k], lowerBound)
    requires ResizeRun(sizes, declared) && sizes[0] >= lowerBound
    ensures NoneUndercuts(end, declared, lowerBound)
    ensures forall k :: 0 <= k < |sizes| ==> sizes[k] >= lowerBound
    decreases |declared|
  {
    if declared != [] {
      var n := |declared|;
      RunPrefix(sizes, declared);
      WithinBoundsUndercutsNothing(end, lowerBound, sizes[..n], declared[..n - 1]);
      assert sizes[..n][n - 1] == sizes[n - 1];
      forall k | 0 <= k < |sizes|
        ensures sizes[k] >= lowerBound
      {
        if k < n {
          assert sizes[..n][k] == sizes[k];
        }
      }
    }
  }

  // ---------- the loops ----------

  method LowerBoundIndex(offsets: seq<int>, from: nat, key: int) returns (k: nat)
    requires from <= |offsets|
    ensures from <= k <= |offsets|
    ensures (forall x :: from <= x < k ==> offsets[x] < key) && (k < |offsets| ==> offsets[k] >= key)
  {
    k := from;
    while k < |offsets| && offsets[k] < key
      invariant from <= k <= |offsets| && forall x :: from <= x < k ==> offsets[x] < key
    {
      k := k + 1;
    }
  }

  /** All size writers from `begin` to `end` against the data block i. */
  method CheckAgainstWriters(edge: (nat, nat) -> bool, offsets: seq<int>, blocks: seq<Block>, lowerBound: int, i: nat,
                             begin: nat, end: nat)
    returns (ok: bool)
    requires |offsets| == |blocks| && i < |blocks| && offsets[i] >= 0 && begin <= end <= |blocks|
    requires forall w :: 0 <= w < |blocks| ==> (begin <= w < end <==> offsets[w] == -1)
    ensures ok <==> forall w :: ResizingPair(offsets, blocks, lowerBound, i, w) ==>
            edge(blocks[i].request, blocks[w].request)
  {
    var stop := offsets[i] + blocks[i].size;
    if stop > lowerBound {
      var j := begin;
      while j < end
        invariant begin <= j <= end
        invariant forall w :: begin <= w < j && ResizingPair(offsets, blocks, lowerBound, i, w) ==>
                    edge(blocks[i].request, blocks[w].request)
      {
        if blocks[i].request != blocks[j].request {
          var newSize := blocks[j].size;
          var collision := if newSize > 0 then offsets[i] < newSize else stop > -newSize;
          if collision && !edge(blocks[i].request, blocks[j].request) {
            assert ResizingPair(offsets, blocks, lowerBound, i, j);
            return false;
          }
        }
        j := j + 1;
      }
    }
    return true;
  }

  /** The bound of the chunk is looked up when there are both a size writer and a data block; a missing bound is an
      error. */
  predicate Bounded(offsets: seq<int>, bound: Option<int>) {
    bound.None? ==> forall i, w :: 0 <= w < i < |offsets| ==> !(offsets[w] == -1 && offsets[i] >= 0)
  }

  /** A bound is needed exactly if the chunk has both a resizer and a data block. */
  lemma {:induction false} BoundIsNeeded(offsets: seq<int>, blocks: seq<Block>, bound: Option<int>)
    requires Input(offsets, blocks)
    ensures Bounded(offsets, bound) <==>
            bound.Some? || forall i, w :: i in offsets && w in offsets ==> !(w == -1 && i >= 0)
  {
    if bound.None? && Bounded(offsets, bound) {
      forall i, w | i in offsets && w in offsets
        ensures !(w == -1 && i >= 0)
      {
        var a :| 0 <= a < |offsets| && offsets[a] == i;
        var b :| 0 <= b < |offsets| && offsets[b] == w;
        assert w < i ==> b < a;
        assert !(offsets[b] == -1 && offsets[a] >= 0);
      }
    }
    if bound.None? && forall i, w :: i in offsets && w in offsets ==> !(w == -1 && i >= 0) {
      forall i, w | 0 <= w < i < |offsets|
        ensures !(offsets[w] == -1 && offsets[i] >= 0)
      {
        assert offsets[i] in offsets && offsets[w] in offsets;
      }
    }
  }

  function BoundOf(bound: Option<int>): int {
    if bound.Some? then bound.value else 0
  }

  /** `findResizingCollisions`: no bound is missing and every resizing pair has its edge. */
  method FindResizingCollisions(dag: Graph, offsets: seq<int>, blocks: seq<Block>, bound: Option<int>)
    returns (accepted: bool)
    requires Input(offsets, blocks)
    ensures accepted <==>
            && Bounded(offsets, bound)
            && forall i, w :: ResizingPair(offsets, blocks, BoundOf(bound), i, w) ==>
                 OrderedEdge(dag, blocks[i].request, blocks[w].request)
  {
    var writersEnd := LowerBoundIndex(offsets, 0, 0);
    if writersEnd == |offsets| {
      return true;
    }
    var writersBegin := LowerBoundIndex(offsets, 0, -1);
    if writersBegin == writersEnd {
      assert forall w :: 0 <= w < |blocks| ==> offsets[w] != -1;
      return true;
    }
    if bound.None? {
      assert offsets[writersBegin] == -1 && offsets[writersEnd] >= 0;
      return false;
    }
    var i := writersEnd;
    while i < |blocks|
      invariant writersEnd <= i <= |blocks|
      invariant forall k, w :: 0 <= k < i && ResizingPair(offsets, blocks, bound.value, k, w) ==>
                  OrderedEdge(dag, blocks[k].request, blocks[w].request)
    {
      var ok := CheckAgainstWriters((u: nat, v: nat) => OrderedEdge(dag, u, v), offsets, blocks, bound.value, i,
          writersBegin, writersEnd);
      if !ok {
        return false;
      }
      i := i + 1;
    }
    return true;
  }
}
