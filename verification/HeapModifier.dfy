/** `RestrictedModifier` (src/ascee/heap/RestrictedModifier.h:30-90, src/ascee/heap/RestrictedModifier.cpp:36-44) as an
    object over its access blocks. Each method is one step of the version machine of `Versions`. */
module HeapModifier {
  import opened Access
  import opened Bytes
  import opened Options
  import opened Versions
  import opened AccessBlocks

  /** `part` is what `whole` holds from `index` on. */
  ghost predicate Slices(part: seq<int>, whole: seq<int>, index: nat) {
    index + |part| <= |whole| && part == whole[index..index + |part|]
  }

  /** The modifier with another version list for one block. */
  ghost function WithVersions(m: Modifier, i: nat, vs: VersionList): Modifier
    requires i < |m.cells|
  {
    m.(cells := m.cells[i := m.cells[i].(versions := vs)])
  }

  lemma {:induction false} OneBlockChanged(m: Modifier, n: Modifier, i: nat, vs: VersionList)
    requires i < |m.cells| == |n.cells| && n.current == m.current && n.cells[i] == Cell(m.cells[i].base, vs)
    requires forall j :: 0 <= j < |m.cells| && j != i ==> n.cells[j] == m.cells[j]
    ensures n == WithVersions(m, i, vs)
  {
    assert n.cells == WithVersions(m, i, vs).cells;
  }

  lemma {:induction false} LoadChanges(m: Modifier, i: nat)
    requires Sane(m) && i < |m.cells|
    ensures Do(m, Load(i)) == WithVersions(m, i, Synced(m.cells[i].versions, m.current))
  {
  }

  lemma {:induction false} StoreChanges(m: Modifier, i: nat, index: nat, bytes: seq<int>)
    requires Sane(m) && i < |m.cells| && m.current >= 1 && index + |bytes| <= |m.cells[i].base|
    ensures var c := m.cells[i];
            && |View(c.base, c.versions, m.current)| == |c.base|
            && Do(m, Store(i, index, bytes)) ==
               WithVersions(m, i, Put(c.versions, m.current, Splice(View(c.base, c.versions, m.current), index, bytes)))
  {
    ViewSize(m.cells[i].base, m.cells[i].versions, m.current);
  }

  lemma {:induction false} AddChanges(m: Modifier, i: nat, amount: int)
    requires Sane(m) && i < |m.cells| && m.current >= 1
    ensures var c := m.cells[i];
            Do(m, Versions.AddInt(i, amount)) ==
            WithVersions(m, i, Put(c.versions, m.current,
                LittleEndian(Number(View(c.base, c.versions, m.current)) + amount, |c.base|)))
  {
    hide LittleEndian, Number;
    ViewSize(m.cells[i].base, m.cells[i].versions, m.current);
  }

  /** The cell of an untouched block: an additive one starts from zero, any other from what the heap holds. */
  ghost predicate StartsFrom(m: Modifier, i: nat, b: AccessBlock)
    requires b.offset + b.size <= b.heap.Length
    reads b.heap
  {
    && i < |m.cells|
    && (b.access == IntAdditive ==> m.cells[i] == Cell(Zeros(b.size), []))
    && (b.access != IntAdditive ==> m.cells[i] == Cell(b.heap[b.offset..b.offset + b.size], []))
  }

  class RestrictedModifier {
    var currentVersion: nat
    /** The blocks of all chunks, by position; finding one by application, chunk and offset is a lookup in sorted
        keys. */
    const blocks: seq<AccessBlock>

    ghost predicate Valid()
      reads this, blocks
    {
      && (forall i :: 0 <= i < |blocks| ==> blocks[i].Valid())
      && (forall i, j :: 0 <= i < j < |blocks| ==> blocks[i] != blocks[j])
    }

    ghost function Footprint(): set<object> {
      set b | b in blocks :: b.heap
    }

    ghost function CellOf(i: nat): (c: Cell)
      requires Valid() && i < |blocks|
      reads this, blocks, Footprint()
    {
      Cell(blocks[i].Base(), blocks[i].versionList)
    }

    ghost function AsModifier(): (m: Modifier)
      requires Valid()
      reads this, blocks, Footprint()
      ensures Sane(m) && |m.cells| == |blocks| && m.current == currentVersion
      ensures forall i :: 0 <= i < |blocks| ==> m.cells[i] == CellOf(i)
    {
      Modifier(currentVersion,
               seq(|blocks|, i requires Valid() && 0 <= i < |blocks| reads this, blocks, Footprint() => CellOf(i)))
    }

    constructor (blocks: seq<AccessBlock>)
      requires forall i :: 0 <= i < |blocks| ==> blocks[i].Valid()
      requires forall i, j :: 0 <= i < j < |blocks| ==> blocks[i] != blocks[j]
      ensures Valid() && currentVersion == 0 && this.blocks == blocks
      ensures forall i :: 0 <= i < |blocks| && blocks[i].versionList == [] ==> StartsFrom(AsModifier(), i, blocks[i])
    {
      this.blocks := blocks;
      currentVersion := 0;
    }

    /** `saveVersion`: the number to restore later, or nothing at the version limit. */
    method SaveVersion() returns (r: Option<nat>)
      requires Valid()
      modifies this`currentVersion
      ensures Valid()
      ensures r == if old(currentVersion) == MAX_VERSION then None else Some(old(currentVersion))
      ensures r.Some? && old(currentVersion) < MAX_VERSION ==> AsModifier() == Do(old(AsModifier()), Save)
      ensures r.None? ==> AsModifier() == old(AsModifier())
    {
      if currentVersion == MAX_VERSION {
        return None;
      }
      r := Some(currentVersion);
      currentVersion := currentVersion + 1;
    }

    method RestoreVersion(version: nat)
      requires Valid() && version < currentVersion
      modifies this`currentVersion
      ensures Valid() && AsModifier() == Do(old(AsModifier()), Restore(version))
    {
      currentVersion := version;
    }

    /** All other blocks, and the version, are as before: the modifier changed in one list. */
    twostate lemma {:induction false} Changed(i: nat)
      requires old(Valid()) && Valid() && i < |blocks| && currentVersion == old(currentVersion)
      requires blocks[i].Base() == old(blocks[i].Base())
      requires forall j :: 0 <= j < |blocks| && j != i ==> CellOf(j) == old(CellOf(j))
      ensures AsModifier() == WithVersions(old(AsModifier()), i, blocks[i].versionList)
    {
      OneBlockChanged(old(AsModifier()), AsModifier(), i, blocks[i].versionList);
    }

    /** `load`: returns the bytes of the current contents. */
    method LoadBytes(i: nat, index: nat, n: nat) returns (r: Result<seq<int>>)
      requires Valid() && i < |blocks|
      modifies blocks[i]
      ensures Valid()
      ensures r.Ok? <==> index + n <= blocks[i].size && !Denies(blocks[i].access, Operation.Read)
      ensures r.Ok? ==> Slices(r.value, old(Contents(AsModifier()))[i], index)
      ensures AsModifier() == if r.Ok? then Do(old(AsModifier()), Load(i)) else old(AsModifier())
    {
      LoadChanges(AsModifier(), i);
      hide Do, Synced;
      r := blocks[i].Read(currentVersion, index, n);
      Changed(i);
      OneBlockChanged(old(AsModifier()), old(AsModifier()), i, old(blocks[i].versionList));
    }

    method StoreBytes(i: nat, index: nat, bytes: seq<int>) returns (r: Result<()>)
      requires Valid() && i < |blocks| && currentVersion >= 1
      modifies blocks[i]
      ensures Valid()
      ensures r.Ok? <==> index + |bytes| <= blocks[i].size && !Denies(blocks[i].access, Operation.Write)
      ensures AsModifier() == if r.Ok? then Do(old(AsModifier()), Store(i, index, bytes)) else old(AsModifier())
    {
      if index + |bytes| <= blocks[i].size {
        StoreChanges(AsModifier(), i, index, bytes);
      }
      hide Do, Synced, Put, Splice;
      r := blocks[i].Write(currentVersion, index, bytes);
      Changed(i);
      OneBlockChanged(old(AsModifier()), old(AsModifier()), i, old(blocks[i].versionList));
    }

    method AddInteger(i: nat, width: nat, amount: int) returns (r: Result<()>)
      requires Valid() && i < |blocks| && currentVersion >= 1
      modifies blocks[i]
      ensures Valid()
      ensures r.Ok? <==> width == blocks[i].size && !Denies(blocks[i].access, IntAdd)
      ensures AsModifier() == if r.Ok? then Do(old(AsModifier()), Versions.AddInt(i, amount)) else old(AsModifier())
    {
      hide Do, Synced, Put, LittleEndian, Number, View, Proper, Denies;
      AddChanges(AsModifier(), i, amount);
      r := blocks[i].AddInt(currentVersion, width, amount);
      Changed(i);
      OneBlockChanged(old(AsModifier()), old(AsModifier()), i, old(blocks[i].versionList));
    }
  }
}
