/** `Chunk` (src/ascee/heap/Chunk.cpp:32-85) and `ChunkInfo` (src/ascee/heap/RestrictedModifier.h:196-243,
    src/ascee/heap/RestrictedModifier.cpp:69-114) as the mutable objects they are, against `ChunkMemory`. */
module Chunks {
  import opened Access
  import opened Bytes
  import opened Options
  import opened Versions
  import opened AccessBlocks
  import opened ChunkMemory

  /** `maxAllowedCapacity` */
  const MAX_CAPACITY: nat := 64 * 1024

  class Chunk {
    var content: array<int>
    var chunkSize: nat
    var capacity: nat
    var writable: bool

    ghost predicate Valid()
      reads this, content
    {
      content.Length == capacity <= MAX_CAPACITY && Tidy(AsMemory())
    }

    ghost function AsMemory(): Memory
      reads this, content
    {
      Memory(content[..], chunkSize)
    }

    constructor (capacity: nat)
      requires capacity <= MAX_CAPACITY
      ensures Valid() && fresh(content) && AsMemory() == Memory(Zeros(capacity), 0) && writable
    {
      content := new int[capacity](_ => 0);
      chunkSize, this.capacity, writable := 0, capacity, true;
      new;
      assert content[..] == Zeros(capacity);
    }

    /** `getContentPointer`: the place of a block, which must lie within the allocation. */
    method GetContentPointer(offset: nat, size: nat) returns (location: Option<array<int>>)
      requires Valid()
      ensures location == if offset + size <= content.Length then Some(content) else None
    {
      return if offset + size > capacity then None else Some(content);
    }

    method SetSize(newSize: nat)
      requires Valid() && newSize <= capacity
      modifies this`chunkSize, content
      ensures Valid() && AsMemory() == Sized(old(AsMemory()), newSize)
    {
      SizedTidy(AsMemory(), newSize);
      ghost var m := AsMemory();
      if newSize < chunkSize {
        CopyInto(content, newSize, Zeros(chunkSize - newSize));
      }
      chunkSize := newSize;
      assert AsMemory() == Sized(m, newSize);
    }

    method Resize(newCapacity: nat)
      requires Valid() && chunkSize <= newCapacity <= MAX_CAPACITY
      modifies this`content, this`capacity
      ensures Valid() && fresh(content) && AsMemory() == Reallocated(old(AsMemory()), newCapacity)
    {
      ReallocatedTape(AsMemory(), newCapacity);
      ghost var m := AsMemory();
      var newContent := new int[newCapacity];
      CopyInto(newContent, 0, content[..chunkSize]);
      if newCapacity > chunkSize {
        CopyInto(newContent, chunkSize, Zeros(newCapacity - chunkSize));
      }
      content, capacity := newContent, newCapacity;
      assert AsMemory().content == Reallocated(m, newCapacity).content;
    }

    method ReserveSpace(newCapacity: nat) returns (reserved: bool)
      requires Valid() && newCapacity <= MAX_CAPACITY
      modifies this`content, this`capacity
      ensures Valid() && AsMemory() == Reserved(old(AsMemory()), newCapacity)
      ensures reserved <==> newCapacity > old(capacity)
      ensures content == old(content) || fresh(content)
    {
      if newCapacity <= capacity {
        return false;
      }
      Resize(newCapacity);
      return true;
    }

    method ShrinkSpace() returns (shrunk: bool)
      requires Valid()
      modifies this`content, this`capacity
      ensures Valid() && capacity == chunkSize && AsMemory() == Shrunk(old(AsMemory()))
      ensures shrunk <==> old(chunkSize) < old(capacity)
      ensures content == old(content) || fresh(content)
    {
      if chunkSize == capacity {
        return false;
      }
      Resize(chunkSize);
      return true;
    }
  }

  datatype Resizing = Expandable | Shrinkable | SizeReadOnly | NonAccessible

  predicate Resizable(r: Resizing) {
    r == Expandable || r == Shrinkable
  }

  /** Stands for `UINT32_MAX`: the initial size was not looked up yet. */
  const UNSET: int := -1

  /** The sizes that a request may give a chunk of size `initial`. */
  predicate Permitted(r: Resizing, sizeBound: nat, initial: nat, n: int) {
    match r
    case Expandable => initial <= n && (n == initial || n <= sizeBound)
    case Shrinkable => 0 <= n <= initial && (n == initial || n >= sizeBound)
    case _ => n == initial
  }

  /** What the block takes to the write-back at this version. */
  ghost function PatchOf(b: AccessBlock, version: nat): (p: Patch)
    reads b
    ensures p.offset == b.offset
  {
    var vs := Synced(b.versionList, version);
    Patch(b.offset, b.size, b.access, if vs == [] then None else Some(vs[|vs| - 1].content))
  }

  /** A declared block that `toAccessBlocks` accepts: within the allocation, and not modifying a read-only chunk.
      Size blocks are at negative offsets and only the second condition applies to them. */
  predicate Acceptable(offset: int, info: Block, capacity: nat, writable: bool) {
    && (MayWrite(info.access) ==> writable)
    && (offset >= 0 ==> 0 <= info.size && offset + info.size <= capacity)
  }

  /** A declaration is refused exactly if it wants to change a read-only chunk, or bytes outside the allocation. */
  lemma {:induction false} AcceptableMeans(offset: int, info: Block, capacity: nat, writable: bool)
    ensures !Acceptable(offset, info, capacity, writable) <==>
            || (!writable && (info.access == Writable || info.access == IntAdditive))
            || (offset >= 0 && (info.size < 0 || offset + info.size > capacity))
  {
  }

  ghost predicate Untouched(b: AccessBlock, offset: int, info: Block, heap: array<int>)
    reads b
  {
    b.Valid() && b.heap == heap && b.offset == offset && b.size == info.size && b.access == info.access &&
        b.versionList == []
  }

  /** `toAccessBlocks`: one fresh block for every declaration at a non-negative offset, in order. */
  method ToAccessBlocks(chunk: Chunk, offsets: seq<int>, infos: seq<Block>) returns (blocks: Option<seq<AccessBlock>>)
    requires chunk.Valid() && |offsets| == |infos|
    ensures blocks.Some? <==> forall i :: 0 <= i < |offsets| ==>
            Acceptable(offsets[i], infos[i], chunk.capacity, chunk.writable)
    ensures blocks.Some? ==> ListedFrom(blocks.value, offsets, infos, chunk.content)
    ensures blocks.Some? ==> forall i :: 0 <= i < |blocks.value| ==> fresh(blocks.value[i])
    ensures blocks.Some? ==> forall i, j :: 0 <= i < j < |blocks.value| ==> blocks.value[i] != blocks.value[j]
    ensures blocks.Some? && (forall i :: 0 <= i < |offsets| ==> offsets[i] >= 0) ==>
              |blocks.value| == |offsets| &&
              forall i :: 0 <= i < |offsets| ==> DeclaredAs(blocks.value[i], chunk.content, offsets[i], infos[i])
  {
    var result: seq<AccessBlock> := [];
    var i := 0;
    while i < |offsets|
      invariant 0 <= i <= |offsets|
      invariant forall k :: 0 <= k < i ==> Acceptable(offsets[k], infos[k], chunk.capacity, chunk.writable)
      invariant forall k :: 0 <= k < |result| ==> fresh(result[k])
      invariant ListedFrom(result, offsets[..i], infos[..i], chunk.content)
    {
      assert offsets[..i + 1][..i] == offsets[..i] && infos[..i + 1][..i] == infos[..i];
      if MayWrite(infos[i].access) && !chunk.writable {
        return None;
      }
      if offsets[i] >= 0 {
        if infos[i].size < 0 {
          return None;
        }
        var location := chunk.GetContentPointer(offsets[i], infos[i].size);
        if location.None? {
          return None;
        }
        var b := new AccessBlock(location.value, offsets[i], infos[i].size, infos[i].access);
        assert (result + [b])[..|result|] == result;
        result := result + [b];
      }
      i := i + 1;
    }
    assert offsets[..i] == offsets && infos[..i] == infos;
    ListedDiffer(result, offsets, infos, chunk.content);
    if forall i :: 0 <= i < |offsets| ==> offsets[i] >= 0 {
      ListedAsDeclared(result, offsets, infos, chunk.content);
    }
    return Some(result);
  }

  /** The blocks are those declared at non-negative offsets, untouched, distinct and in order. */
  ghost predicate ListedFrom(blocks: seq<AccessBlock>, offsets: seq<int>, infos: seq<Block>, heap: array<int>)
    requires |offsets| == |infos|
    reads blocks
    decreases |offsets|
  {
    if offsets == [] then blocks == []
    else
      var n := |offsets| - 1;
      if offsets[n] < 0 then ListedFrom(blocks, offsets[..n], infos[..n], heap)
      else
        && blocks != [] && Untouched(blocks[|blocks| - 1], offsets[n], infos[n], heap)
        && blocks[|blocks| - 1] !in blocks[..|blocks| - 1]
        && ListedFrom(blocks[..|blocks| - 1], offsets[..n], infos[..n], heap)
  }

  /** An untouched block of this chunk content as it was declared. */
  ghost predicate DeclaredAs(b: AccessBlock, content: array<int>, offset: int, info: Block)
    reads b
  {
    && b.heap == content && b.offset == offset && b.size == info.size && b.access == info.access
    && b.versionList == []
  }

  lemma {:induction false} ListedDiffer(blocks: seq<AccessBlock>, offsets: seq<int>, infos: seq<Block>,
                                        heap: array<int>)
    requires |offsets| == |infos| && ListedFrom(blocks, offsets, infos, heap)
    ensures forall i, j :: 0 <= i < j < |blocks| ==> blocks[i] != blocks[j]
    decreases |offsets|
  {
    if offsets != [] {
      var n := |offsets| - 1;
      if offsets[n] < 0 {
        ListedDiffer(blocks, offsets[..n], infos[..n], heap);
      } else {
        var front := blocks[..|blocks| - 1];
        ListedDiffer(front, offsets[..n], infos[..n], heap);
        assert forall i :: 0 <= i < |front| ==> front[i] in front;
      }
    }
  }

  lemma {:induction false} ListedAsDeclared(blocks: seq<AccessBlock>, offsets: seq<int>, infos: seq<Block>,
                                            heap: array<int>)
    requires |offsets| == |infos| && ListedFrom(blocks, offsets, infos, heap)
    requires forall i :: 0 <= i < |offsets| ==> offsets[i] >= 0
    ensures |blocks| == |offsets| && forall i :: 0 <= i < |offsets| ==>
            DeclaredAs(blocks[i], heap, offsets[i], infos[i])
    decreases |offsets|
  {
    if offsets != [] {
      var n := |offsets| - 1;
      ListedAsDeclared(blocks[..|blocks| - 1], offsets[..n], infos[..n], heap);
      forall i | 0 <= i < |offsets|
        ensures DeclaredAs(blocks[i], heap, offsets[i], infos[i])
      {
        if i < n {
          assert blocks[..|blocks| - 1][i] == blocks[i];
        }
      }
    }
  }

  lemma {:induction false} ResultIsPatchBytes(b: AccessBlock, version: nat)
    requires b.Valid()
    ensures var p := PatchOf(b, version);
            PatchFits(p, b.heap.Length) && (p.latest.Some? ==> PatchBytes(b.heap[..], p) == b.Result(version))
  {
    hide LittleEndian, Number;
    SyncedFacts(b.versionList, b.size, version);
    assert b.heap[..][b.offset..b.offset + b.size] == b.Stored();
  }

  /** One block's write-back, as a step on the memory. */
  method FlushBlock(b: AccessBlock, version: nat, chunkSize: nat)
    requires b.Valid() && b.offset < chunkSize
    modifies b, b.heap
    ensures b.Valid()
    ensures PatchFits(old(PatchOf(b, version)), b.heap.Length) &&
            b.heap[..] == Flushed(old(b.heap[..]), chunkSize, old(PatchOf(b, version)))
  {
    hide PatchBytes, AccessBlock.Result;
    ResultIsPatchBytes(b, version);
    b.WriteToHeap(version, chunkSize - b.offset);
  }

  class ChunkInfo {
    const chunk: Chunk
    const resizing: Resizing
    const sizeBound: nat
    /** The blocks at non-negative offsets, in the order of their offsets. */
    const blocks: seq<AccessBlock>
    /** The size is itself a versioned block, over a cell that holds the initial size once it was looked up. */
    const sizeCell: array<int>
    const size: AccessBlock

    ghost predicate BlocksValid()
      reads this, chunk, blocks
    {
      && (forall i :: 0 <= i < |blocks| ==> blocks[i].Valid() && blocks[i].heap == chunk.content && blocks[i] != size)
      && (forall i, j :: 0 <= i < j < |blocks| ==> blocks[i] != blocks[j])
    }

    ghost predicate SizeValid()
      reads this, chunk, size, sizeCell
    {
      && size.Valid() && size.heap == sizeCell && sizeCell.Length == 1 && size.offset == 0 && size.size == 1
      && size.access == (if Resizable(resizing) then Writable else ReadOnly)
      && (sizeCell[0] == UNSET || sizeCell[0] == chunk.chunkSize)
      && (sizeCell[0] == UNSET ==> size.versionList == [])
      && (forall k :: 0 <= k < |size.versionList| ==>
            Permitted(resizing, sizeBound, chunk.chunkSize, size.versionList[k].content[0]))
    }

    ghost predicate Valid()
      reads this, chunk, chunk.content, blocks, size, sizeCell
    {
      && chunk.Valid() && BlocksValid() && SizeValid() && sizeCell != chunk.content
      && (resizing == Expandable ==> sizeBound <= chunk.capacity)
    }

    constructor (chunk: Chunk, resizing: Resizing, sizeBound: nat, blocks: seq<AccessBlock>)
      requires chunk.Valid() && (resizing == Expandable ==> sizeBound <= chunk.capacity)
      requires forall i :: 0 <= i < |blocks| ==> blocks[i].Valid() && blocks[i].heap == chunk.content
      requires forall i, j :: 0 <= i < j < |blocks| ==> blocks[i] != blocks[j]
      ensures Valid() && this.chunk == chunk && this.blocks == blocks && this.resizing == resizing &&
              this.sizeBound == sizeBound
      ensures fresh(sizeCell) && fresh(size) && SizeAt(0) == chunk.chunkSize
    {
      var cell := new int[1](_ => UNSET);
      this.chunk, this.resizing, this.sizeBound, this.blocks := chunk, resizing, sizeBound, blocks;
      sizeCell := cell;
      size := new AccessBlock(cell, 0, 1, if Resizable(resizing) then Writable else ReadOnly);
    }

    /** The chunk size that the request sees at this version. */
    ghost function SizeAt(version: nat): (n: nat)
      requires SizeValid()
      reads this, chunk, size, sizeCell
      ensures Permitted(resizing, sizeBound, chunk.chunkSize, n)
    {
      SyncedFacts(size.versionList, 1, version);
      var vs := Synced(size.versionList, version);
      if vs == [] then chunk.chunkSize else vs[|vs| - 1].content[0]
    }

    lemma {:induction false} SizeShown(version: nat)
      requires SizeValid() && sizeCell[0] != UNSET
      ensures size.Shown(version) == [SizeAt(version)]
    {
      SyncedFacts(size.versionList, 1, version);
    }

    /** `sizeBlock().read`: looks the initial size up the first time. */
    method CurrentSize(version: nat) returns (n: nat)
      requires Valid()
      modifies sizeCell, size`versionList
      ensures Valid() && n == old(SizeAt(version)) == SizeAt(version)
      ensures sizeCell[0] == chunk.chunkSize && size.versionList == Synced(old(size.versionList), version)
    {
      SyncedFacts(size.versionList, 1, version);
      SyncedAgain(size.versionList, 1, version, version);
      if sizeCell[0] == UNSET {
        sizeCell[0] := chunk.chunkSize;
      }
      SizeShown(version);
      var r := size.Read(version, 0, 1);
      n := r.value[0];
    }

    method StoreSize(version: nat, newSize: nat)
      requires Valid() && version >= 1 && sizeCell[0] != UNSET && Resizable(resizing)
      requires Permitted(resizing, sizeBound, chunk.chunkSize, newSize)
      modifies size`versionList
      ensures Valid() && SizeAt(version) == newSize
    {
      hide Synced, Put;
      ghost var vs := size.versionList;
      SizePut(vs, version, newSize, chunk.chunkSize);
      assert Splice(size.Shown(version), 0, [newSize]) == [newSize];
      var _ := size.Write(version, 0, [newSize]);
    }

    /** `updateChunkSize` */
    method UpdateChunkSize(version: nat, newSize: nat) returns (r: Result<()>)
      requires Valid() && version >= 1
      modifies sizeCell, size`versionList
      ensures Valid()
      ensures r.Ok? <==> newSize == old(SizeAt(version)) ||
                         (resizing == Expandable && old(SizeAt(version)) <= newSize <= sizeBound) ||
                         (resizing == Shrinkable && sizeBound <= newSize <= old(SizeAt(version)))
      ensures SizeAt(version) == if r.Ok? then newSize else old(SizeAt(version))
    {
      hide Synced;
      var oldSize := CurrentSize(version);
      if newSize == oldSize {
        return Ok(());
      }
      if resizing == Expandable {
        if newSize < oldSize || newSize > sizeBound {
          return Thrown(OutOfBlock);
        }
      } else if resizing == Shrinkable {
        if newSize > oldSize || newSize < sizeBound {
          return Thrown(OutOfBlock);
        }
      } else {
        return Thrown(Denied);
      }
      StoreSize(version, newSize);
      return Ok(());
    }

    /** Storing one permitted size keeps all versions permitted. */
    lemma {:induction false} SizePut(vs: VersionList, version: nat, n: nat, initial: nat)
      requires Proper(vs, 1) && version >= 1 && Permitted(resizing, sizeBound, initial, n)
      requires forall k :: 0 <= k < |vs| ==> Permitted(resizing, sizeBound, initial, vs[k].content[0])
      ensures var p := Put(vs, version, [n]);
              && Synced(p, version) == p && p != [] && p[|p| - 1].content == [n]
              && Proper(p, 1)
              && forall k :: 0 <= k < |p| ==> Permitted(resizing, sizeBound, initial, p[k].content[0])
    {
      SyncedFacts(vs, 1, version);
      PutTop(vs, 1, version, [n]);
    }

    method GetChunkSize(version: nat) returns (r: Result<nat>)
      requires Valid()
      modifies sizeCell, size`versionList
      ensures Valid() && r == if resizing == NonAccessible then Thrown(Denied) else Ok(old(SizeAt(version)))
    {
      if resizing == NonAccessible {
        return Thrown(Denied);
      }
      var n := CurrentSize(version);
      return Ok(n);
    }

    /** `isValid`: asks about the first `n` bytes of a block that is declared to be at least that large. */
    method IsValid(version: nat, i: nat, n: nat) returns (r: Result<bool>)
      requires Valid() && i < |blocks|
      modifies sizeCell, size`versionList
      ensures Valid() && r == if blocks[i].size < n then Thrown(OutOfBlock)
              else Ok(blocks[i].offset + n <= old(SizeAt(version)))
    {
      if !(blocks[i].size >= n && !Denies(blocks[i].access, Check)) {
        return Thrown(OutOfBlock);
      }
      var chunkSize := CurrentSize(version);
      return Ok(blocks[i].offset + n <= chunkSize);
    }

    /** The patches of all blocks. */
    ghost function Patches(version: nat): (ps: seq<Patch>)
      requires BlocksValid()
      reads this, chunk, blocks
      ensures |ps| == |blocks| && forall i :: 0 <= i < |ps| ==> ps[i] == PatchOf(blocks[i], version)
      ensures forall i :: 0 <= i < |ps| ==> PatchFits(ps[i], chunk.content.Length)
    {
      PatchesFit(version);
      seq(|blocks|, i requires 0 <= i < |blocks| reads this, blocks => PatchOf(blocks[i], version))
    }

    lemma {:induction false} PatchesFit(version: nat)
      requires BlocksValid()
      ensures forall i :: 0 <= i < |blocks| ==> PatchFits(PatchOf(blocks[i], version), chunk.content.Length)
    {
      forall i | 0 <= i < |blocks|
        ensures PatchFits(PatchOf(blocks[i], version), chunk.content.Length)
      {
        SyncedFacts(blocks[i].versionList, blocks[i].size, version);
      }
    }

    /** The loop of `writeToHeap` over the blocks. */
    method Flush(version: nat, chunkSize: nat)
      requires BlocksValid() && chunkSize <= chunk.content.Length
      modifies chunk.content, blocks
      ensures BlocksValid()
      ensures chunk.content[..] == FlushedAll(old(chunk.content[..]), chunkSize, old(Patches(version)))
    {
      hide Synced, Flushed, FlushedAll;
      ghost var ps := Patches(version);
      ghost var goal := FlushedAll(chunk.content[..], chunkSize, ps);
      var i := 0;
      while i < |blocks|
        invariant 0 <= i <= |blocks| && BlocksValid()
        invariant forall j :: i <= j < |blocks| ==> PatchOf(blocks[j], version) == ps[j]
        invariant FlushedAll(chunk.content[..], chunkSize, ps[i..]) == goal
      {
        var offset := blocks[i].offset;
        FlushedFrom(chunk.content[..], chunkSize, ps, i);
        if offset >= chunkSize {
          break;
        }
        FlushBlock(blocks[i], version, chunkSize);
        i := i + 1;
      }
      if i == |blocks| {
        FlushedNone(chunk.content[..], chunkSize, ps);
      }
    }

    /** What this request does to its chunk. */
    ghost function AsRequest(version: nat): (s: Step)
      requires Valid()
      reads this, chunk, chunk.content, blocks, size, sizeCell
      ensures s.Request? && Legal(chunk.AsMemory(), s)
    {
      Request(if Resizable(resizing) then Some(SizeAt(version)) else None, if chunk.writable then Patches(version)
          else [])
    }

    /** `writeToHeap` for this chunk, after at least one version was saved: every copy stays within the chunk, and the
        chunk stays tidy. */
    method WriteToHeap(version: nat)
      requires Valid()
      modifies sizeCell, size`versionList, chunk`chunkSize, chunk.content, blocks
      ensures chunk.Valid() && chunk.AsMemory() == After(old(chunk.AsMemory()), old(AsRequest(version)))
      ensures chunk.chunkSize == if resizing == Expandable || resizing == Shrinkable then old(SizeAt(version))
                                 else old(chunk.chunkSize)
      ensures !chunk.writable && resizing != Expandable && resizing != Shrinkable ==>
                chunk.content[..] == old(chunk.content[..])
    {
      hide Synced, FlushedAll;
      ghost var m, s := chunk.AsMemory(), AsRequest(version);
      StepTidy(m, s);
      var chunkSize := TakeSize(version);
      if chunkSize > 0 && chunk.writable {
        Flush(version, chunkSize);
      } else {
        NothingFlushed(chunk.content[..], chunkSize, s.patches);
      }
    }

    /** The size part of `writeToHeap`. */
    method TakeSize(version: nat) returns (chunkSize: nat)
      requires Valid()
      modifies sizeCell, size`versionList, chunk`chunkSize, chunk.content
      ensures chunk.Valid() && BlocksValid() && Patches(version) == old(Patches(version))
      ensures chunkSize == chunk.chunkSize &&
              chunk.AsMemory() == WithSize(old(chunk.AsMemory()), old(AsRequest(version)).newSize)
    {
      hide Synced, Patches;
      chunkSize := CurrentSize(version);
      if Resizable(resizing) {
        chunk.SetSize(chunkSize);
      }
    }
  }

  lemma {:induction false} FlushedNone(content: seq<int>, chunkSize: nat, ps: seq<Patch>)
    ensures FlushedAll(content, chunkSize, ps[|ps|..]) == content
  {
  }

  lemma {:induction false} FlushedFrom(content: seq<int>, chunkSize: nat, ps: seq<Patch>, i: nat)
    requires i < |ps| && forall k :: 0 <= k < |ps| ==> PatchFits(ps[k], |content|)
    ensures FlushedAll(content, chunkSize, ps[i..]) ==
            if ps[i].offset >= chunkSize then content
            else FlushedAll(Flushed(content, chunkSize, ps[i]), chunkSize, ps[i + 1..])
  {
    hide Flushed;
    assert ps[i..][0] == ps[i] && ps[i..][1..] == ps[i + 1..];
  }

  lemma {:induction false} NothingFlushed(content: seq<int>, chunkSize: nat, ps: seq<Patch>)
    requires forall i :: 0 <= i < |ps| ==> PatchFits(ps[i], |content|)
    ensures chunkSize == 0 || ps == [] ==> FlushedAll(content, chunkSize, ps) == content
  {
  }
}
