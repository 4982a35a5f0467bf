/** `RestrictedModifier::AccessBlock` (src/ascee/heap/RestrictedModifier.h:93-192 and
    src/ascee/heap/RestrictedModifier.cpp:116-179) as the mutable object it is, against the version-list functions. */
module AccessBlocks {
  import opened Access
  import opened Arithmetic
  import opened Bytes
  import opened Versions

  /** What the block operations throw. */
  datatype Failure = OutOfBlock | Denied | WrongSize

  datatype Result<T> = Ok(value: T) | Thrown(failure: Failure)

  class AccessBlock {
    /** Where the block lies: `size` bytes from `offset` in the content of its chunk. */
    const heap: array<int>
    const offset: nat
    const size: nat
    const access: Access
    var versionList: VersionList

    ghost predicate Valid()
      reads this
    {
      offset + size <= heap.Length && Proper(versionList, size)
    }

    /** What the heap holds at the block. */
    ghost function Stored(): (s: seq<int>)
      requires offset + size <= heap.Length
      reads heap
      ensures |s| == size
    {
      heap[offset..offset + size]
    }

    /** What an untouched block shows: additive blocks collect a sum from zero. */
    ghost function Base(): (s: seq<int>)
      requires offset + size <= heap.Length
      reads heap
      ensures |s| == size
    {
      if access == IntAdditive then Zeros(size) else Stored()
    }

    ghost function Shown(version: nat): (s: seq<int>)
      requires Valid()
      reads this, heap
      ensures |s| == size
    {
      ViewSize(Base(), versionList, version);
      View(Base(), versionList, version)
    }

    constructor (heap: array<int>, offset: nat, size: nat, access: Access)
      requires offset + size <= heap.Length
      ensures Valid() && versionList == []
      ensures this.heap == heap && this.offset == offset && this.size == size && this.access == access
    {
      this.heap, this.offset, this.size, this.access := heap, offset, size, access;
      versionList := [];
    }

    method SyncTo(version: nat)
      requires Valid()
      modifies this`versionList
      ensures Valid() && versionList == Synced(old(versionList), version)
    {
      SyncedFacts(versionList, size, version);
      while versionList != [] && versionList[|versionList| - 1].number > version
        invariant Synced(versionList, version) == Synced(old(versionList), version)
        decreases |versionList|
      {
        versionList := versionList[..|versionList| - 1];
      }
    }

    /** Syncs, and finds the content that the block shows. */
    method Latest(version: nat) returns (content: seq<int>)
      requires Valid()
      modifies this`versionList
      ensures Valid() && versionList == Synced(old(versionList), version) == Synced(versionList, version)
      ensures |content| == size && (versionList != [] ==>
              content == versionList[|versionList| - 1].content == old(Shown(version)))
      ensures access != IntAdditive ==> content == old(Shown(version))
    {
      SyncedAgain(versionList, size, version, version);
      SyncTo(version);
      content := if versionList == [] then heap[offset..offset + size] else versionList[|versionList| - 1].content;
    }

    /** `ensureExists`: appends a zeroed version unless the newest one already has this number. */
    method EnsureExists(version: nat, ghost vs: VersionList) returns (added: bool)
      requires Valid() && version >= 1 && versionList == Synced(vs, version) == Synced(versionList, version)
      modifies this`versionList
      ensures Valid() && versionList != []
      ensures versionList == Put(vs, version, versionList[|versionList| - 1].content)
      ensures added ==> versionList[|versionList| - 1].content == Zeros(size)
      ensures !added ==> versionList == old(versionList)
    {
      SyncedFacts(versionList, size, version);
      if versionList != [] {
        var latest := versionList[|versionList| - 1].number;
        if latest == version {
          return false;
        }
      }
      versionList := versionList + [Version(version, Zeros(size))];
      return true;
    }

    /** Replaces the content of the newest version, which was put into `vs`. */
    method SetContent(content: seq<int>, ghost vs: VersionList, ghost version: nat, ghost previous: seq<int>)
      requires Valid() && |content| == |previous| == size && version >= 1
      requires Proper(vs, size) && versionList == Put(vs, version, previous)
      modifies this`versionList
      ensures Valid() && versionList == Put(vs, version, content)
    {
      hide Synced;
      PutTop(vs, size, version, previous);
      PutTop(vs, size, version, content);
      PutAgain(vs, size, version, previous, content);
      var n := |versionList| - 1;
      versionList := versionList[..n] + [Version(versionList[n].number, content)];
    }

    /** `read`: the bytes shown at this version. */
    method Read(version: nat, index: nat, n: nat) returns (r: Result<seq<int>>)
      requires Valid()
      modifies this`versionList
      ensures Valid()
      ensures r == if index + n > size then Thrown(OutOfBlock)
                   else if Denies(access, Operation.Read) then Thrown(Denied)
                   else Ok(old(Shown(version))[index..index + n])
      ensures versionList == if r.Ok? then Synced(old(versionList), version) else old(versionList)
    {
      if index + n > size {
        return Thrown(OutOfBlock);
      }
      if Denies(access, Operation.Read) {
        return Thrown(Denied);
      }
      var content := Latest(version);
      return Ok(content[index..index + n]);
    }

    /** Makes sure that the newest version has this number and holds what the block showed, except in the bytes about to
        be written. */
    method CopyOnWrite(version: nat, index: nat, n: nat) returns (ghost prepared: seq<int>)
      requires Valid() && version >= 1 && index + n <= size && access != IntAdditive
      modifies this`versionList
      ensures Valid() && versionList == Put(old(versionList), version, prepared)
      ensures Outside(prepared, old(Shown(version)), index, index + n)
    {
      hide Put;
      var previous := Latest(version);
      var added := EnsureExists(version, old(versionList));
      var content := versionList[|versionList| - 1].content;
      prepared := content;
      if !added {
        assert content == previous;
      } else if size != n {
        var copied := previous[..index] + content[index..index + n] + previous[index + n..];
        CopiedOutside(previous, content[index..index + n], index);
        SetContent(copied, old(versionList), version, content);
        prepared := copied;
      }
    }

    /** `prepareToWrite`: refuses, or copies on write. */
    method PrepareToWrite(version: nat, index: nat, n: nat) returns (r: Result<()>, ghost prepared: seq<int>)
      requires Valid() && version >= 1
      modifies this`versionList
      ensures Valid()
      ensures r == if index + n > size then Thrown(OutOfBlock)
                   else if Denies(access, Operation.Write) then Thrown(Denied)
                   else Ok(())
      ensures r.Thrown? ==> versionList == old(versionList)
      ensures r.Ok? ==> versionList == Put(old(versionList), version, prepared)
      ensures r.Ok? ==> Outside(prepared, old(Shown(version)), index, index + n)
    {
      prepared := [];
      if index + n > size {
        return Thrown(OutOfBlock), prepared;
      }
      if Denies(access, Operation.Write) {
        return Thrown(Denied), prepared;
      }
      prepared := CopyOnWrite(version, index, n);
      return Ok(()), prepared;
    }

    /** `write`: copy on write into the current version. */
    method Write(version: nat, index: nat, bytes: seq<int>) returns (r: Result<()>)
      requires Valid() && version >= 1
      modifies this`versionList
      ensures Valid()
      ensures r == if index + |bytes| > size then Thrown(OutOfBlock)
                   else if Denies(access, Operation.Write) then Thrown(Denied)
                   else Ok(())
      ensures versionList == if r.Ok? then Put(old(versionList), version, Splice(old(Shown(version)), index, bytes))
                             else old(versionList)
    {
      ghost var prepared;
      r, prepared := PrepareToWrite(version, index, |bytes|);
      if r.Ok? {
        PutTop(old(versionList), size, version, prepared);
        SpliceOutside(prepared, old(Shown(version)), index, bytes);
        var content := versionList[|versionList| - 1].content;
        SetContent(Splice(content, index, bytes), old(versionList), version, prepared);
      }
    }

    /** Adds to what the block collected so far. */
    method Accumulate(version: nat, amount: int)
      requires Valid() && version >= 1 && access == IntAdditive
      modifies this`versionList
      ensures Valid()
      ensures versionList == Put(old(versionList), version, LittleEndian(Number(old(Shown(version))) + amount, size))
    {
      hide LittleEndian, Number, Put;
      var content := Latest(version);
      NumberOfZeros(size);
      var current := if versionList == [] then 0 else Number(content);
      assert current == Number(old(Shown(version)));
      var _ := EnsureExists(version, old(versionList));
      var sum := LittleEndian(current + amount, size);
      SetContent(sum, old(versionList), version, versionList[|versionList| - 1].content);
    }

    /** `addInt`: adds in the width of the block, wrapping around. */
    method AddInt(version: nat, width: nat, amount: int) returns (r: Result<()>)
      requires Valid() && version >= 1
      modifies this`versionList
      ensures Valid()
      ensures r == if width != size then Thrown(WrongSize)
                   else if Denies(access, IntAdd) then Thrown(Denied)
                   else Ok(())
      ensures versionList == if r.Ok?
              then Put(old(versionList), version, LittleEndian(Number(old(Shown(version))) + amount, size))
                             else old(versionList)
    {
      if width != size {
        return Thrown(WrongSize);
      }
      if Denies(access, IntAdd) {
        return Thrown(Denied);
      }
      Accumulate(version, amount);
      return Ok(());
    }

    /** `wrToHeap`: at most `maxWriteSize` bytes of the result reach the heap. */
    method WriteToHeap(version: nat, maxWriteSize: nat)
      requires Valid()
      modifies this`versionList, heap
      ensures Valid() && versionList == Synced(old(versionList), version)
      ensures heap[..] == if versionList == [] then old(heap[..])
                          else Splice(old(heap[..]), offset, old(Result(version))[..Min(size, maxWriteSize)])
    {
      ghost var result := Result(version);
      ghost var before := heap[..];
      SyncedFacts(versionList, size, version);
      SyncTo(version);
      if versionList == [] {
        return;
      }
      var writeSize := Min(size, maxWriteSize);
      var content := versionList[|versionList| - 1].content;
      var bytes := if access == IntAdditive
          then LittleEndian(Number(heap[offset..offset + size]) + Number(content), size)
                   else content;
      assert bytes == result;
      CopyInto(heap, offset, bytes[..writeSize]);
    }

    /** What the block leaves in the heap when all of it may be written. */
    ghost function Result(version: nat): (s: seq<int>)
      requires Valid()
      reads this, heap
      ensures |s| == size
    {
      if access == IntAdditive then LittleEndian(Number(Stored()) + Number(Shown(version)), size) else Shown(version)
    }
  }

  lemma {:induction false} PutAgain(vs: VersionList, size: nat, v: nat, c: seq<int>, d: seq<int>)
    requires Proper(vs, size) && v >= 1 && |c| == size
    ensures var p := Put(vs, v, c);
            && p != [] && p[|p| - 1] == Version(v, c)
            && p[..|p| - 1] + [Version(v, d)] == Put(vs, v, d)
  {
    PutTop(vs, size, v, c);
  }

  /** The two contents agree outside [from, to). */
  ghost predicate Outside(s: seq<int>, t: seq<int>, from: nat, to: nat) {
    |s| == |t| && forall k :: 0 <= k < |s| && !(from <= k < to) ==> s[k] == t[k]
  }

  lemma {:induction false} CopiedOutside(s: seq<int>, middle: seq<int>, index: nat)
    requires index + |middle| <= |s|
    ensures Outside(s[..index] + middle + s[index + |middle|..], s, index, index + |middle|)
  {
  }

  lemma {:induction false} SpliceOutside(s: seq<int>, t: seq<int>, offset: nat, bytes: seq<int>)
    requires offset + |bytes| <= |s| && Outside(s, t, offset, offset + |bytes|)
    ensures Splice(s, offset, bytes) == Splice(t, offset, bytes)
  {
  }

  /** `memcpy` into an array. */
  method CopyInto(a: array<int>, offset: nat, bytes: seq<int>)
    requires offset + |bytes| <= a.Length
    modifies a
    ensures a[..] == Splice(old(a[..]), offset, bytes)
  {
    for k := 0 to |bytes|
      invariant forall x :: 0 <= x < a.Length ==>
                  a[x] == if offset <= x < offset + k then bytes[x - offset] else old(a[x])
    {
      a[offset + k] := bytes[k];
    }
  }
}
