/** The shared heap of one block of requests, and what a request does to it: overwriting a writable block, adding to an
    additive one (`wrToHeap`, src/ascee/heap/RestrictedModifier.cpp:161-179), and resizing a chunk (`setSize`,
    src/ascee/heap/RestrictedModifier.cpp:69-76). */
module Effects {
  import opened Access
  import opened Arithmetic
  import opened Bytes
  import opened WriteBacks
  import R = Resizing

  /** Chunk contents by chunk identifier, each up to the size of its chunk. */
  datatype Heap = Heap(chunks: map<ChunkId, seq<int>>)

  /** A resizer that leaves the size as it is has no effect. */
  datatype Effect =
    | Overwrite(chunk: ChunkId, offset: int, bytes: seq<int>)
    | Increase(chunk: ChunkId, offset: int, width: nat, amount: int)
    | Expand(chunk: ChunkId, size: nat)
    | Shrink(chunk: ChunkId, size: nat)

  predicate OnBytes(e: Effect) {
    e.Overwrite? || e.Increase?
  }

  function Width(e: Effect): nat
    requires OnBytes(e)
  {
    match e
    case Overwrite(_, _, bytes) => |bytes|
    case Increase(_, _, width, _) => width
  }

  predicate Within(h: Heap, chunk: ChunkId, offset: int, size: int) {
    chunk in h.chunks && 0 <= offset && 0 <= size && offset + size <= |h.chunks[chunk]|
  }

  /** Proposed lower bounds of the chunks that are resized. */
  type Floors = map<ChunkId, int>

  function FloorOf(floors: Floors, chunk: ChunkId): int {
    if chunk in floors then floors[chunk] else 0
  }

  /** The chunk is not smaller than its lower bound. */
  predicate Floored(floors: Floors, h: Heap, chunk: ChunkId) {
    chunk in h.chunks && |h.chunks[chunk]| >= FloorOf(floors, chunk)
  }

  /** The effect as far as a chunk of this size reaches. */
  function Cut(e: Effect, size: nat): (r: Effect)
    requires OnBytes(e) && 0 <= e.offset <= size
    ensures OnBytes(r) && r.chunk == e.chunk && r.offset == e.offset
    ensures Width(r) <= Width(e) && r.offset + Width(r) <= size
  {
    if e.offset + Width(e) <= size then e
    else match e
      case Overwrite(_, _, bytes) => e.(bytes := bytes[..size - e.offset])
      case Increase(_, _, _, _) => e.(width := size - e.offset)
  }

  /** The bytes that the effect leaves in its block, given what the block holds. */
  function NewBytes(e: Effect, current: seq<int>): (r: seq<int>)
    requires OnBytes(e) && |current| == Width(e)
    ensures |r| == Width(e)
  {
    match e
    case Overwrite(_, _, bytes) => bytes
    case Increase(_, _, width, amount) => LittleEndian(Number(current) + amount, width)
  }

  function DoIn(s: seq<int>, e: Effect): (r: seq<int>)
    requires OnBytes(e) && 0 <= e.offset && e.offset + Width(e) <= |s|
    ensures |r| == |s|
  {
    Splice(s, e.offset, NewBytes(e, s[e.offset..e.offset + Width(e)]))
  }

  /** Writes a block, never past the end of the chunk. Blocks may reach past the end, as long as they stay within the
      allocation (src/ascee/heap/Chunk.cpp:42-45). */
  function Fill(s: seq<int>, e: Effect): (r: seq<int>)
    requires OnBytes(e)
    ensures |r| == |s|
  {
    if 0 <= e.offset <= |s| then DoIn(s, Cut(e, |s|)) else s
  }

  /** The content of the chunk after an effect. A resize never makes the chunk smaller than its lower bound. */
  function Effected(floor: int, s: seq<int>, e: Effect): (r: seq<int>)
    ensures |s| >= floor ==> |r| >= floor
  {
    match e
    case Expand(_, size) => if size > |s| then s + Zeros(size - |s|) else s
    case Shrink(_, size) => if floor <= size < |s| then s[..size] else s
    case _ => Fill(s, e)
  }

  /** Applies an effect. A chunk that is smaller than its lower bound is not accepted with the block
      (src/storage/ChunkIndex.cpp:84), so it never arises. */
  function Do(floors: Floors, h: Heap, e: Effect): Heap {
    if Floored(floors, h, e.chunk)
    then Heap(h.chunks[e.chunk := Effected(FloorOf(floors, e.chunk), h.chunks[e.chunk], e)])
    else h
  }

  // ---------- what a request may look at ----------

  /** A byte, the size of a chunk, or how many bytes of a block are inside the chunk, which tells what `isValid` answers
      and where a write-back is cut off. */
  datatype Look =
    | Byte(chunk: ChunkId, k: int)
    | Size(chunk: ChunkId)
    | Extent(chunk: ChunkId, offset: nat, size: nat)

  function ByteIn(s: seq<int>, k: int): int {
    if 0 <= k < |s| then s[k] else 0
  }

  function ExtentIn(s: seq<int>, offset: nat, size: nat): nat {
    Min(size, if |s| > offset then |s| - offset else 0)
  }

  function SeenIn(s: seq<int>, look: Look): int {
    match look
    case Byte(_, k) => ByteIn(s, k)
    case Size(_) => |s|
    case Extent(_, offset, size) => ExtentIn(s, offset, size)
  }

  /** Behind the end of a chunk the allocation is zero (`ChunkMemory.AlwaysTidy`). */
  function Seen(look: Look): Heap -> int {
    (h: Heap) => if look.chunk in h.chunks then SeenIn(h.chunks[look.chunk], look) else 0
  }

  /** `isValid` of a non-empty part of a block answers by the extent of the block. */
  lemma {:induction false} ExtentTellsValidity(s: seq<int>, offset: nat, size: nat, part: nat)
    requires 1 <= part <= size
    ensures R.IsValid(offset, part, |s|) <==> ExtentIn(s, offset, size) >= part
  {
  }

  /** The effect may change what is seen. */
  predicate Affects(floors: Floors, e: Effect, look: Look) {
    e.chunk == look.chunk &&
    match look
    case Byte(_, k) => (OnBytes(e) && e.offset <= k < e.offset + Width(e)) || (e.Shrink? && k >= e.size)
    case Size(_) => !OnBytes(e)
    case Extent(_, offset, size) => !OnBytes(e) && !Spares(floors, e, offset, size)
  }

  /** The resize leaves the block as it is: the block is behind all that is added, within all that is kept, or below the
      lower bound. */
  predicate Spares(floors: Floors, e: Effect, offset: int, size: int)
    requires !OnBytes(e)
  {
    if e.Expand? then e.size <= offset || offset + size <= FloorOf(floors, e.chunk) else offset + size <= e.size
  }

  predicate Apart(e: Effect, f: Effect)
    requires OnBytes(e) && OnBytes(f)
  {
    e.offset + Width(e) <= f.offset || f.offset + Width(f) <= e.offset
  }

  predicate SameCell(e: Effect, f: Effect) {
    e.Increase? && f.Increase? && e.chunk == f.chunk && e.offset == f.offset && e.width == f.width
  }

  /** The order of the two effects does not matter. */
  predicate Independent(floors: Floors, e: Effect, f: Effect) {
    || e.chunk != f.chunk
    || (OnBytes(e) && OnBytes(f) && (Apart(e, f) || SameCell(e, f)))
    || (OnBytes(e) && !OnBytes(f) && Spares(floors, f, e.offset, Width(e)))
    || (OnBytes(f) && !OnBytes(e) && Spares(floors, e, f.offset, Width(f)))
  }

  // ---------- writes to one chunk ----------

  lemma {:induction false} KeepsOthers(s: seq<int>, e: Effect, from: nat, to: nat)
    requires OnBytes(e) && 0 <= e.offset && e.offset + Width(e) <= |s| && from <= to <= |s|
    requires e.offset + Width(e) <= from || to <= e.offset
    ensures DoIn(s, e)[from..to] == s[from..to]
  {
  }

  lemma {:induction false} SplicesCommute(s: seq<int>, i: nat, a: seq<int>, j: nat, b: seq<int>)
    requires i + |a| <= |s| && j + |b| <= |s| && (i + |a| <= j || j + |b| <= i)
    ensures Splice(Splice(s, i, a), j, b) == Splice(Splice(s, j, b), i, a)
  {
  }

  lemma {:induction false} DoInSplices(s: seq<int>, e: Effect, cell: seq<int>)
    requires OnBytes(e) && 0 <= e.offset && e.offset + Width(e) <= |s| && cell == s[e.offset..e.offset + Width(e)]
    ensures DoIn(s, e) == Splice(s, e.offset, NewBytes(e, cell))
  {
  }

  /** f after e, when e does not reach the block of f. */
  lemma {:induction false} DoBoth(s: seq<int>, e: Effect, f: Effect)
    requires OnBytes(e) && 0 <= e.offset && e.offset + Width(e) <= |s| && OnBytes(f) && 0 <= f.offset &&
             f.offset + Width(f) <= |s|
    requires e.offset + Width(e) <= f.offset || f.offset + Width(f) <= e.offset
    ensures DoIn(DoIn(s, e), f) ==
            Splice(Splice(s, e.offset, NewBytes(e, s[e.offset..e.offset + Width(e)])),
                   f.offset, NewBytes(f, s[f.offset..f.offset + Width(f)]))
  {
    KeepsOthers(s, e, f.offset, f.offset + Width(f));
    DoInSplices(DoIn(s, e), f, s[f.offset..f.offset + Width(f)]);
  }

  lemma {:induction false} CommuteApart(s: seq<int>, e: Effect, f: Effect)
    requires OnBytes(e) && 0 <= e.offset && e.offset + Width(e) <= |s| && OnBytes(f) && 0 <= f.offset &&
             f.offset + Width(f) <= |s|
    requires e.offset + Width(e) <= f.offset || f.offset + Width(f) <= e.offset
    ensures DoIn(DoIn(s, e), f) == DoIn(DoIn(s, f), e)
  {
    DoBoth(s, e, f);
    DoBoth(s, f, e);
    SplicesCommute(s, e.offset, NewBytes(e, s[e.offset..e.offset + Width(e)]),
                   f.offset, NewBytes(f, s[f.offset..f.offset + Width(f)]));
  }

  lemma {:induction false} SpliceAgain(s: seq<int>, offset: nat, a: seq<int>, b: seq<int>)
    requires offset + |a| <= |s| && |a| == |b|
    ensures Splice(s, offset, a)[offset..offset + |a|] == a
    ensures Splice(Splice(s, offset, a), offset, b) == Splice(s, offset, b)
  {
  }

  lemma {:induction false} AddTwice(e: Effect, f: Effect, cell: seq<int>)
    requires SameCell(e, f) && |cell| == e.width
    ensures NewBytes(f, NewBytes(e, cell)) == LittleEndian(Number(cell) + e.amount + f.amount, e.width)
  {
    AddToStored(Number(cell) + e.amount, f.amount, e.width);
  }

  lemma {:induction false} DoTwice(s: seq<int>, e: Effect, f: Effect)
    requires OnBytes(e) && 0 <= e.offset && e.offset + Width(e) <= |s| && SameCell(e, f)
    ensures var cell := s[e.offset..e.offset + e.width];
            DoIn(DoIn(s, e), f) == Splice(s, e.offset, NewBytes(f, NewBytes(e, cell)))
  {
    var a := NewBytes(e, s[e.offset..e.offset + e.width]);
    SpliceAgain(s, e.offset, a, NewBytes(f, a));
    DoInSplices(DoIn(s, e), f, a);
  }

  lemma {:induction false} CommuteSame(s: seq<int>, e: Effect, f: Effect)
    requires OnBytes(e) && 0 <= e.offset && e.offset + Width(e) <= |s| && SameCell(e, f)
    ensures DoIn(DoIn(s, e), f) == DoIn(DoIn(s, f), e)
  {
    hide DoIn, NewBytes, Number, LittleEndian;
    var cell := s[e.offset..e.offset + e.width];
    DoTwice(s, e, f);
    DoTwice(s, f, e);
    AddTwice(e, f, cell);
    AddTwice(f, e, cell);
    assert Number(cell) + e.amount + f.amount == Number(cell) + f.amount + e.amount;
  }

  lemma {:induction false} WritesCommute(s: seq<int>, e: Effect, f: Effect)
    requires OnBytes(e) && OnBytes(f) && e.chunk == f.chunk && (Apart(e, f) || SameCell(e, f))
    ensures Fill(Fill(s, e), f) == Fill(Fill(s, f), e)
  {
    hide DoIn;
    if 0 <= e.offset <= |s| && 0 <= f.offset <= |s| {
      if SameCell(e, f) {
        CommuteSame(s, Cut(e, |s|), Cut(f, |s|));
      } else {
        CommuteApart(s, Cut(e, |s|), Cut(f, |s|));
      }
    }
  }

  // ---------- a write and a resize of one chunk ----------

  lemma {:induction false} SpliceFront(s: seq<int>, size: nat, offset: nat, bytes: seq<int>)
    requires offset + |bytes| <= size <= |s|
    ensures Splice(s, offset, bytes)[..size] == Splice(s[..size], offset, bytes)
  {
  }

  lemma {:induction false} SpliceLonger(s: seq<int>, more: seq<int>, offset: nat, bytes: seq<int>)
    requires offset + |bytes| <= |s|
    ensures Splice(s, offset, bytes) + more == Splice(s + more, offset, bytes)
  {
  }

  /** A write that stays within the first `size` bytes does not care for what is behind them. */
  lemma {:induction false} WriteInFront(s: seq<int>, e: Effect, size: nat)
    requires OnBytes(e) && 0 <= e.offset && e.offset + Width(e) <= size <= |s|
    ensures Fill(s, e)[..size] == Fill(s[..size], e)
  {
    hide NewBytes, Splice;
    var current := s[e.offset..e.offset + Width(e)];
    assert s[..size][e.offset..e.offset + Width(e)] == current;
    SpliceFront(s, size, e.offset, NewBytes(e, current));
  }

  lemma {:induction false} WriteBeforeMore(s: seq<int>, e: Effect, more: seq<int>)
    requires OnBytes(e) && 0 <= e.offset && e.offset + Width(e) <= |s|
    ensures Fill(s, e) + more == Fill(s + more, e)
  {
    hide NewBytes, Splice;
    var current := s[e.offset..e.offset + Width(e)];
    assert (s + more)[e.offset..e.offset + Width(e)] == current;
    SpliceLonger(s, more, e.offset, NewBytes(e, current));
  }

  /** A write at or behind the end of the chunk does nothing. */
  lemma {:induction false} WriteBehind(s: seq<int>, e: Effect)
    requires OnBytes(e) && e.offset >= |s|
    ensures Fill(s, e) == s
  {
    hide LittleEndian, Number;
  }

  lemma {:induction false} WriteBelow(s: seq<int>, e: Effect)
    requires OnBytes(e) && e.offset < 0
    ensures Fill(s, e) == s
  {
  }

  lemma {:induction false} ResizeCommutes(floors: Floors, s: seq<int>, e: Effect, z: Effect)
    requires OnBytes(e) && !OnBytes(z) && e.chunk == z.chunk && Spares(floors, z, e.offset, Width(e))
    requires |s| >= FloorOf(floors, e.chunk)
    ensures var floor := FloorOf(floors, e.chunk);
            Effected(floor, Effected(floor, s, e), z) == Effected(floor, Effected(floor, s, z), e)
  {
    hide Fill;
    var floor := FloorOf(floors, e.chunk);
    if e.offset < 0 {
      WriteBelow(s, e);
      WriteBelow(Effected(floor, s, z), e);
    } else if z.Expand? {
      ExpandCommutes(floor, s, e, z);
    } else if floor <= z.size < |s| {
      WriteInFront(s, e, z.size);
    }
  }

  lemma {:induction false} ExpandCommutes(floor: int, s: seq<int>, e: Effect, z: Effect)
    requires OnBytes(e) && z.Expand? && 0 <= e.offset && |s| >= floor
    requires z.size <= e.offset || e.offset + Width(e) <= floor
    ensures Effected(floor, Effected(floor, s, e), z) == Effected(floor, Effected(floor, s, z), e)
  {
    hide Fill;
    if z.size > |s| {
      if z.size <= e.offset {
        WriteBehind(s, e);
        WriteBehind(Effected(floor, s, z), e);
      } else {
        WriteBeforeMore(s, e, Zeros(z.size - |s|));
      }
    }
  }

  // ---------- the laws ----------

  lemma {:induction false} EffectedCommute(floors: Floors, s: seq<int>, e: Effect, f: Effect)
    requires Independent(floors, e, f) && e.chunk == f.chunk && |s| >= FloorOf(floors, e.chunk)
    ensures var floor := FloorOf(floors, e.chunk);
            Effected(floor, Effected(floor, s, e), f) == Effected(floor, Effected(floor, s, f), e)
  {
    hide Fill, Effected;
    if OnBytes(e) && OnBytes(f) {
      BothWrite(FloorOf(floors, e.chunk), s, e, f);
    } else if OnBytes(e) {
      ResizeCommutes(floors, s, e, f);
    } else {
      ResizeCommutes(floors, s, f, e);
    }
  }

  lemma {:induction false} BothWrite(floor: int, s: seq<int>, e: Effect, f: Effect)
    requires OnBytes(e) && OnBytes(f) && e.chunk == f.chunk && (Apart(e, f) || SameCell(e, f))
    ensures Effected(floor, Effected(floor, s, e), f) == Effected(floor, Effected(floor, s, f), e)
  {
    hide Fill;
    WritesCommute(s, e, f);
  }

  lemma {:induction false} DoTwoChunks(floors: Floors, h: Heap, e: Effect, f: Effect)
    requires e.chunk != f.chunk
    ensures Do(floors, Do(floors, h, e), f) == Do(floors, Do(floors, h, f), e)
  {
    hide Effected;
    if Floored(floors, h, e.chunk) && Floored(floors, h, f.chunk) {
      var a := Effected(FloorOf(floors, e.chunk), h.chunks[e.chunk], e);
      var b := Effected(FloorOf(floors, f.chunk), h.chunks[f.chunk], f);
      assert h.chunks[e.chunk := a][f.chunk := b] == h.chunks[f.chunk := b][e.chunk := a];
    }
  }

  lemma {:induction false} DoOneChunk(floors: Floors, h: Heap, e: Effect, f: Effect)
    requires e.chunk == f.chunk && Floored(floors, h, e.chunk)
    ensures var floor, s := FloorOf(floors, e.chunk), h.chunks[e.chunk];
            Do(floors, Do(floors, h, e), f) == Heap(h.chunks[e.chunk := Effected(floor, Effected(floor, s, e), f)])
  {
    var floor, s := FloorOf(floors, e.chunk), h.chunks[e.chunk];
    var a := Effected(floor, s, e);
    assert |a| >= floor;
    hide Effected;
    assert h.chunks[e.chunk := a][e.chunk := Effected(floor, a, f)] == h.chunks[e.chunk := Effected(floor, a, f)];
  }

  lemma {:induction false} CommuteOn(floors: Floors, h: Heap, e: Effect, f: Effect)
    requires Independent(floors, e, f)
    ensures Do(floors, Do(floors, h, e), f) == Do(floors, Do(floors, h, f), e)
  {
    if e.chunk != f.chunk {
      DoTwoChunks(floors, h, e, f);
    } else if Floored(floors, h, e.chunk) {
      hide Effected, Independent;
      EffectedCommute(floors, h.chunks[e.chunk], e, f);
      DoOneChunk(floors, h, e, f);
      DoOneChunk(floors, h, f, e);
    }
  }

  /** How effects are applied under these lower bounds. */
  function Doing(floors: Floors): (Heap, Effect) -> Heap {
    (h: Heap, e: Effect) => Do(floors, h, e)
  }

  /** Effects on disjoint bytes commute, additions to the same cell do, and so do a write and a resize that spares the
      block. */
  lemma {:induction false} EffectsCommute(floors: Floors, e: Effect, f: Effect)
    requires Independent(floors, e, f)
    ensures Commute(Doing(floors), e, f)
  {
    hide Do, Independent;
    forall h: Heap
      ensures Doing(floors)(Doing(floors)(h, e), f) == Doing(floors)(Doing(floors)(h, f), e)
    {
      CommuteOn(floors, h, e, f);
    }
  }

  lemma {:induction false} EffectedKeeps(floors: Floors, s: seq<int>, e: Effect, look: Look)
    requires !Affects(floors, e, look) && e.chunk == look.chunk && |s| >= FloorOf(floors, e.chunk)
    ensures SeenIn(Effected(FloorOf(floors, e.chunk), s, e), look) == SeenIn(s, look)
  {
    hide LittleEndian, Number;
  }

  /** An effect keeps whatever it does not affect. */
  lemma {:induction false} EffectKeeps(floors: Floors, e: Effect, look: Look)
    requires !Affects(floors, e, look)
    ensures Keeps(Doing(floors), Seen(look), e)
  {
    hide Effected, Affects, SeenIn;
    forall h: Heap
      ensures Seen(look)(Doing(floors)(h, e)) == Seen(look)(h)
    {
      if e.chunk == look.chunk && Floored(floors, h, e.chunk) {
        EffectedKeeps(floors, h.chunks[e.chunk], e, look);
      }
    }
  }

  /** Whoever looks at a byte after it was written sees what was written, after an addition the bytes of the sum, and
      after a resize of the chunk nothing behind its end. */
  lemma {:induction false} WrittenIsSeen(floors: Floors, h: Heap, e: Effect, k: nat)
    requires Floored(floors, h, e.chunk) && OnBytes(e) && 0 <= e.offset && k < Width(e)
    requires e.offset + Width(e) <= |h.chunks[e.chunk]|
    ensures var seen := Seen(Byte(e.chunk, e.offset + k))(Do(floors, h, e));
            && (e.Overwrite? ==> seen == e.bytes[k])
            && (e.Increase? ==>
                  seen == LittleEndian(Number(h.chunks[e.chunk][e.offset..e.offset + e.width]) + e.amount, e.width)[k])
  {
    hide LittleEndian, Number;
  }

  lemma {:induction false} SizesAreSeen(floors: Floors, h: Heap, chunk: ChunkId, offset: nat, size: nat)
    requires chunk in h.chunks
    ensures Seen(Size(chunk))(h) == |h.chunks[chunk]|
    ensures offset + size <= |h.chunks[chunk]| ==> Seen(Extent(chunk, offset, size))(h) == size
    ensures forall k :: k >= |h.chunks[chunk]| ==> Seen(Byte(chunk, k))(h) == 0
  {
  }

  // ---------- declarations ----------

  /** The request of `d` may look: at the bytes of a readable block, at the extent of any block, and at the size
      through a readable size block. */
  predicate MayLook(d: Declared, look: Look) {
    d.chunk == look.chunk &&
    match look
    case Byte(_, k) => d.offset >= 0 && d.offset <= k < d.offset + d.block.size && !Denies(d.block.access, Read)
    case Size(_) => (d.offset == -1 || d.offset == -2) && !Denies(d.block.access, Read)
    case Extent(_, offset, size) => d.offset == offset && d.block.size == size > 0
  }

  /** The effect is one that block `d` permits. */
  predicate Permits(d: Declared, e: Effect) {
    d.chunk == e.chunk &&
    match e
    case Overwrite(_, offset, bytes) =>
      d.offset == offset >= 0 && d.block.size == |bytes| > 0 && !Denies(d.block.access, Write)
    case Increase(_, offset, width, _) =>
      d.offset == offset >= 0 && d.block.size == width > 0 && !Denies(d.block.access, IntAdd)
    case Expand(_, size) =>
      d.offset == -1 && !Denies(d.block.access, Write) && 0 < d.block.size && size <= d.block.size
    case Shrink(_, size) =>
      d.offset == -1 && !Denies(d.block.access, Write) && d.block.size <= 0 && -d.block.size <= size
  }

  /** What declarations are for: a readable block shows all of its bytes and a writable one takes all of them, an adder
      adds to all of them, and a resizer may use its whole range. */
  lemma {:induction false} DeclaredIsPermitted(d: Declared, k: int)
    requires d.offset >= 0 && d.block.size > 0
    ensures d.offset <= k < d.offset + d.block.size && (d.block.access == ReadOnly || d.block.access == Writable) ==>
              MayLook(d, Byte(d.chunk, k))
    ensures MayLook(d, Extent(d.chunk, d.offset, d.block.size))
    ensures forall bytes :: d.block.access == Writable && |bytes| == d.block.size ==>
              Permits(d, Overwrite(d.chunk, d.offset, bytes))
    ensures forall amount :: d.block.access == IntAdditive ==>
              Permits(d, Increase(d.chunk, d.offset, d.block.size, amount))
  {
  }

  lemma {:induction false} ResizerIsPermitted(d: Declared, size: nat)
    requires d.offset == -1 && d.block.access == Writable
    ensures MayLook(d, Size(d.chunk))
    ensures 0 < d.block.size && size <= d.block.size ==> Permits(d, Expand(d.chunk, size))
    ensures d.block.size <= 0 && -d.block.size <= size ==> Permits(d, Shrink(d.chunk, size))
  {
  }

  /** Two declared blocks share a byte, or are two size blocks, and collide. */
  predicate DeclaredCollide(d: Declared, f: Declared) {
    && d.chunk == f.chunk && d.offset >= -2 && f.offset >= -2
    && d.offset < End(f.offset, f.block) && f.offset < End(d.offset, d.block)
    && (d.offset >= 0 ==> d.block.size > 0) && (f.offset >= 0 ==> f.block.size > 0)
    && Collides(d.block.access, f.block.access) && !AdditiveSame(d.offset, d.block, f.offset, f.block)
  }

  /** A block and the size block of a resizer that the resizing check pairs. */
  predicate ResizeCollide(floors: Floors, d: Declared, f: Declared) {
    && d.chunk == f.chunk && d.offset >= 0 && f.offset == -1
    && R.ResizeCollision(d.offset, d.offset + d.block.size, f.block.size, FloorOf(floors, d.chunk))
  }

  predicate Conflict(floors: Floors, d: Declared, f: Declared) {
    DeclaredCollide(d, f) || ResizeCollide(floors, d, f) || ResizeCollide(floors, f, d)
  }

  /** The block is not the size block of a shrinker below the lower bound. */
  predicate Compliant(floors: Floors, d: Declared) {
    d.offset == -1 ==> R.WithinBounds(d.block.size, FloorOf(floors, d.chunk))
  }

  /** Effects permitted by blocks that do not conflict are independent. */
  lemma {:induction false} NoConflictCommutes(floors: Floors, d: Declared, e: Effect, g: Declared, f: Effect)
    requires Permits(d, e) && Permits(g, f) && !Conflict(floors, d, g) && Compliant(floors, d) && Compliant(floors, g)
    ensures Independent(floors, e, f)
  {
  }

  /** Whoever looks at something conflicts with every block through which it can be affected. */
  lemma {:induction false} LookerConflicts(floors: Floors, d: Declared, look: Look, f: Declared, e: Effect)
    requires MayLook(d, look) && Permits(f, e) && Affects(floors, e, look) && Compliant(floors, f)
    ensures Conflict(floors, d, f) && Conflict(floors, f, d)
  {
  }
}
