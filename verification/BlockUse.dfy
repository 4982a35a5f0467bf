/** What single access blocks do for a request, from the first operation to the write-back
    (src/ascee/heap/RestrictedModifier.h:124-166, src/ascee/heap/RestrictedModifier.cpp:161-179). */
module BlockUse {
  import opened Access
  import opened Arithmetic
  import opened Bytes
  import opened Versions
  import opened AccessBlocks
  import opened Additive

  lemma {:induction false} NumberBound(bytes: seq<int>)
    requires forall k :: 0 <= k < |bytes| ==> 0 <= bytes[k] < 256
    ensures 0 <= Number(bytes) < Pow256(|bytes|)
  {
    if bytes != [] {
      NumberBound(bytes[1..]);
    }
  }

  lemma {:induction false} NumberWrapped(v: int, n: nat)
    ensures Number(LittleEndian(v, n)) == v % Pow256(n)
  {
    var q := NumberOfLittleEndian(v, n);
    hide Pow256, LittleEndian, Number;
    Unscale(q, Number(LittleEndian(v, n)), Pow256(n));
  }

  /** The only version of a block, at this number. */
  lemma {:induction false} OneVersion(base: seq<int>, v: nat, c: seq<int>, d: seq<int>)
    requires v >= 1
    ensures Put([], v, c) == [Version(v, c)] && Put([Version(v, c)], v, d) == [Version(v, d)]
    ensures View(base, [], v) == base && View(base, [Version(v, c)], v) == c
    ensures Synced([Version(v, c)], v) == [Version(v, c)] && Synced([], v) == []
  {
  }

  /** An additive block of this heap to which the sum was added, at this version only. */
  ghost predicate Collected(b: AccessBlock, heap: array<int>, offset: nat, size: nat, version: nat, touched: bool,
                            sum: int)
    reads b
  {
    && b.Valid() && b.heap == heap && b.offset == offset && b.size == size && b.access == IntAdditive
    && b.versionList == if touched then [Version(version, LittleEndian(sum, size))] else []
  }

  method AddOne(b: AccessBlock, heap: array<int>, offset: nat, size: nat, version: nat, ghost touched: bool,
                ghost sum: int,
                amount: int)
    requires version >= 1 && Collected(b, heap, offset, size, version, touched, sum) && (!touched ==> sum == 0)
    modifies b`versionList
    ensures Collected(b, heap, offset, size, version, true, sum + amount)
  {
    hide LittleEndian, Number, Put, View, Synced, Proper;
    ZerosAre(size);
    OneVersion(Zeros(size), version, LittleEndian(sum, size), LittleEndian(sum + amount, size));
    OneVersion(Zeros(size), version, LittleEndian(sum + amount, size), []);
    AddToStored(sum, amount, size);
    assert b.Shown(version) == LittleEndian(sum, size);
    var _ := b.AddInt(version, size, amount);
  }

  /** Adding to an additive block and writing it back: the heap gets the old number plus all amounts. */
  method AddAndWriteBack(heap: array<int>, offset: nat, size: nat, amounts: seq<int>, version: nat)
    requires offset + size <= heap.Length && version >= 1
    requires forall k :: offset <= k < offset + size ==> 0 <= heap[k] < 256
    modifies heap
    ensures Number(heap[offset..offset + size]) ==
            (old(Number(heap[offset..offset + size])) + Sum(amounts)) % Pow256(size)
    ensures heap[..offset] == old(heap[..offset]) && heap[offset + size..] == old(heap[offset + size..])
  {
    ghost var before := heap[..];
    var b := new AccessBlock(heap, offset, size, IntAdditive);
    for i := 0 to |amounts|
      invariant heap[..] == before && fresh(b) && (i == 0 ==> Sum(amounts[..i]) == 0)
      invariant Collected(b, heap, offset, size, version, i > 0, Sum(amounts[..i]))
    {
      hide LittleEndian, Number, Collected, Sum;
      SumAppend(amounts[..i], amounts[i]);
      assert amounts[..i + 1] == amounts[..i] + [amounts[i]];
      AddOne(b, heap, offset, size, version, i > 0, Sum(amounts[..i]), amounts[i]);
    }
    assert amounts[..|amounts|] == amounts;
    WriteSum(b, heap, offset, size, version, |amounts| > 0, Sum(amounts));
  }

  method WriteSum(b: AccessBlock, heap: array<int>, offset: nat, size: nat, version: nat, ghost touched: bool,
                  ghost sum: int)
    requires version >= 1 && Collected(b, heap, offset, size, version, touched, sum) && (!touched ==> sum == 0)
    requires forall k :: offset <= k < offset + size ==> 0 <= heap[k] < 256
    modifies b`versionList, heap
    ensures Number(heap[offset..offset + size]) == (old(Number(heap[offset..offset + size])) + sum) % Pow256(size)
    ensures heap[..offset] == old(heap[..offset]) && heap[offset + size..] == old(heap[offset + size..])
  {
    hide LittleEndian, Number, Pow256, Put, View, Synced;
    ghost var before := heap[..];
    assert before[offset..offset + size] == heap[offset..offset + size];
    assert before[..offset] == heap[..offset] && before[offset + size..] == heap[offset + size..];
    OneVersion(Zeros(size), version, LittleEndian(sum, size), []);
    WrittenBack(before, offset, size, sum, !touched);
    ghost var stored := before[offset..offset + size];
    assert touched ==> b.Result(version) == LittleEndian(Number(stored) + Number(LittleEndian(sum, size)), size);
    hide Proper;
    b.WriteToHeap(version, size);
    ghost var after := heap[..];
    assert after[offset..offset + size] == heap[offset..offset + size];
    assert after[..offset] == heap[..offset] && after[offset + size..] == heap[offset + size..];
  }

  /** What the heap holds after the write-back. */
  lemma {:induction false} WrittenBack(before: seq<int>, offset: nat, size: nat, sum: int, untouched: bool)
    requires offset + size <= |before| && (untouched ==> sum == 0)
    requires forall k :: offset <= k < offset + size ==> 0 <= before[k] < 256
    ensures var stored := before[offset..offset + size];
            var bytes := LittleEndian(Number(stored) + Number(LittleEndian(sum, size)), size);
            var after := if untouched then before else Splice(before, offset, bytes[..Min(size, size)]);
            && Number(after[offset..offset + size]) == (Number(stored) + sum) % Pow256(size)
            && after[..offset] == before[..offset] && after[offset + size..] == before[offset + size..]
  {
    var stored := before[offset..offset + size];
    NumberBound(stored);
    var bytes := LittleEndian(Number(stored) + Number(LittleEndian(sum, size)), size);
    NumberWrapped(Number(stored) + sum, size);
    AddToStored(sum, Number(stored), size);
    Unscale(0, Number(stored), Pow256(size));
    hide LittleEndian, Number, Pow256;
    assert Number(stored) + Number(LittleEndian(sum, size)) == Number(LittleEndian(sum, size)) + Number(stored);
    var after := Splice(before, offset, bytes);
    assert after[offset..offset + size] == bytes && bytes[..size] == bytes;
  }

  /** Storing into a writable block and writing it back: the heap changes in the bytes stored, and nowhere else. */
  method StoreAndWriteBack(heap: array<int>, offset: nat, size: nat, index: nat, bytes: seq<int>, version: nat)
    requires offset + size <= heap.Length && version >= 1 && index + |bytes| <= size
    modifies heap
    ensures heap[..] == Splice(old(heap[..]), offset + index, bytes)
  {
    ghost var before := heap[..];
    ghost var stored := heap[offset..offset + size];
    var b := new AccessBlock(heap, offset, size, Writable);
    hide Put, View, Synced, Splice;
    OneVersion(stored, version, Splice(stored, index, bytes), []);
    StoredInHeap(before, offset, size, index, bytes);
    var _ := b.Write(version, index, bytes);
    assert b.Shown(version) == Splice(stored, index, bytes);
    assert b.versionList == [Version(version, Splice(stored, index, bytes))];
    hide Proper;
    b.WriteToHeap(version, size);
  }

  lemma {:induction false} StoredInHeap(before: seq<int>, offset: nat, size: nat, index: nat, bytes: seq<int>)
    requires offset + size <= |before| && index + |bytes| <= size
    ensures Splice(before, offset, Splice(before[offset..offset + size], index, bytes)[..Min(size, size)]) ==
            Splice(before, offset + index, bytes)
  {
  }

  /** Reading from a block that was not written returns what the heap holds. */
  method ReadUntouched(heap: array<int>, offset: nat, size: nat, access: Access, index: nat, n: nat, version: nat)
    returns (r: Result<seq<int>>)
    requires offset + size <= heap.Length
    ensures r == if index + n > size then Thrown(OutOfBlock)
                 else if access == Writable || access == ReadOnly then Ok(heap[offset + index..offset + index + n])
                 else Thrown(Failure.Denied)
  {
    var b := new AccessBlock(heap, offset, size, access);
    assert access != IntAdditive ==> b.Shown(version) == heap[offset..offset + size];
    r := b.Read(version, index, n);
    assert heap[..][offset..offset + size] == heap[offset..offset + size];
    if index + n <= size {
      SliceOfSlice(heap[..], offset, size, index, n);
      assert heap[..][offset + index..offset + index + n] == heap[offset + index..offset + index + n];
    }
  }

  lemma {:induction false} SliceOfSlice(s: seq<int>, offset: nat, size: nat, index: nat, n: nat)
    requires offset + size <= |s| && index + n <= size
    ensures s[offset..offset + size][index..index + n] == s[offset + index..offset + index + n]
  {
    var part, whole := s[offset..offset + size][index..index + n], s[offset + index..offset + index + n];
    assert forall k :: 0 <= k < n ==> part[k] == whole[k];
  }
}
