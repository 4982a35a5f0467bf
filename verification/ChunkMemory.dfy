/** What happens to the memory of a chunk over a sequence of requests (src/ascee/heap/Chunk.cpp:32-85,
    src/ascee/heap/RestrictedModifier.cpp:69-107, 161-179), on values. */
module ChunkMemory {
  import opened Access
  import opened Arithmetic
  import opened Bytes
  import opened Options
  import Effects

  /** The allocated bytes (as many as the capacity) and the chunk size. */
  datatype Memory = Memory(content: seq<int>, size: nat)

  /** The chunk fits its allocation and everything behind it is zero. */
  ghost predicate Tidy(m: Memory) {
    m.size <= |m.content| && forall k :: m.size <= k < |m.content| ==> m.content[k] == 0
  }

  /** The chunk as its owner sees it, independent of capacity: its bytes, followed by zeros. */
  ghost function Tape(m: Memory, k: nat): int {
    if k < m.size && k < |m.content| then m.content[k] else 0
  }

  /** `setSize`: zeroes what is cut off. */
  function Sized(m: Memory, n: nat): Memory
    requires m.size <= |m.content| && n <= |m.content|
  {
    Memory(if n < m.size then Splice(m.content, n, Zeros(m.size - n)) else m.content, n)
  }

  /** `resize`: a new allocation, zeroed behind the copied bytes. */
  function Reallocated(m: Memory, capacity: nat): Memory
    requires m.size <= |m.content| && m.size <= capacity
  {
    Memory(m.content[..m.size] + Zeros(capacity - m.size), m.size)
  }

  function Reserved(m: Memory, capacity: nat): Memory
    requires m.size <= |m.content|
  {
    if capacity <= |m.content| then m else Reallocated(m, capacity)
  }

  function Shrunk(m: Memory): Memory
    requires m.size <= |m.content|
  {
    if m.size == |m.content| then m else Reallocated(m, m.size)
  }

  /** What one access block brings to the write-back: its newest content, if it was touched. */
  datatype Patch = Patch(offset: nat, size: nat, access: Access, latest: Option<seq<int>>)

  predicate PatchFits(p: Patch, capacity: nat) {
    p.offset + p.size <= capacity && (p.latest.Some? ==> |p.latest.value| == p.size)
  }

  /** What the patch would leave in its bytes. */
  function PatchBytes(content: seq<int>, p: Patch): (r: seq<int>)
    requires PatchFits(p, |content|) && p.latest.Some?
    ensures |r| == p.size
  {
    if p.access == IntAdditive
    then LittleEndian(Number(content[p.offset..p.offset + p.size]) + Number(p.latest.value), p.size)
    else p.latest.value
  }

  /** `wrToHeap`: never past the end of the chunk. */
  function Flushed(content: seq<int>, chunkSize: nat, p: Patch): (r: seq<int>)
    requires PatchFits(p, |content|) && p.offset < chunkSize
    ensures |r| == |content|
  {
    if p.latest.None? then content
    else Splice(content, p.offset, PatchBytes(content, p)[..Min(p.size, chunkSize - p.offset)])
  }

  /** The effect of a write-back. */
  function EffectOf(chunk: ChunkId, p: Patch): Effects.Effect
    requires p.latest.Some?
  {
    if p.access == IntAdditive then Effects.Increase(chunk, p.offset, p.size, Number(p.latest.value))
    else Effects.Overwrite(chunk, p.offset, p.latest.value)
  }

  /** What the owner of the chunk sees of a write-back is an effect in the sense of `Effects`, cut short or not: an
      addition that is cut short adds to the bytes that remain. */
  lemma {:induction false} FlushedIsEffect(content: seq<int>, chunkSize: nat, p: Patch, chunk: ChunkId)
    requires PatchFits(p, |content|) && p.latest.Some? && p.offset < chunkSize <= |content|
    ensures Flushed(content, chunkSize, p)[..chunkSize] == Effects.Fill(content[..chunkSize], EffectOf(chunk, p))
    ensures Flushed(content, chunkSize, p)[chunkSize..] == content[chunkSize..]
  {
    hide Number, LittleEndian;
    var s, w := content[..chunkSize], Min(p.size, chunkSize - p.offset);
    var e := Effects.Cut(EffectOf(chunk, p), chunkSize);
    assert Effects.Width(e) == w;
    var cell := content[p.offset..p.offset + p.size];
    assert s[p.offset..p.offset + w] == cell[..w];
    if p.access == IntAdditive {
      var amount := Number(p.latest.value);
      LittleEndianPrefix(Number(cell) + amount, p.size, w);
      LowBytesOfSum(cell, w, amount);
    }
    assert PatchBytes(content, p)[..w] == Effects.NewBytes(e, cell[..w]);
  }

  /** The loop of `writeToHeap` over the blocks of one chunk, in the order of their offsets. */
  function FlushedAll(content: seq<int>, chunkSize: nat, ps: seq<Patch>): (r: seq<int>)
    requires forall i :: 0 <= i < |ps| ==> PatchFits(ps[i], |content|)
    ensures |r| == |content|
    decreases |ps|
  {
    if ps == [] || ps[0].offset >= chunkSize then content
    else FlushedAll(Flushed(content, chunkSize, ps[0]), chunkSize, ps[1..])
  }

  ghost predicate Ascending(ps: seq<Patch>) {
    forall i, j :: 0 <= i < j < |ps| ==> ps[i].offset <= ps[j].offset
  }

  ghost predicate Disjoint(ps: seq<Patch>) {
    forall i, j :: 0 <= i < j < |ps| ==> ps[i].offset + ps[i].size <= ps[j].offset
  }

  /** Bytes behind the chunk, and bytes that no block covers, stay as they are. */
  lemma {:induction false} FlushedElsewhere(content: seq<int>, chunkSize: nat, ps: seq<Patch>, k: nat)
    requires (forall i :: 0 <= i < |ps| ==> PatchFits(ps[i], |content|)) && k < |content|
    requires k >= chunkSize || forall i :: 0 <= i < |ps| ==> !(ps[i].offset <= k < ps[i].offset + ps[i].size)
    ensures FlushedAll(content, chunkSize, ps)[k] == content[k]
    decreases |ps|
  {
    hide LittleEndian, Number;
    if ps != [] && ps[0].offset < chunkSize {
      FlushedElsewhere(Flushed(content, chunkSize, ps[0]), chunkSize, ps[1..], k);
    }
  }

  lemma {:induction false} FlushedHere(content: seq<int>, chunkSize: nat, p: Patch, k: nat)
    requires PatchFits(p, |content|) && p.latest.Some? && k < p.size && p.offset + k < chunkSize
    ensures Flushed(content, chunkSize, p)[p.offset + k] == PatchBytes(content, p)[k]
  {
    hide LittleEndian, Number;
  }

  lemma {:induction false} FlushedApart(content: seq<int>, chunkSize: nat, p: Patch, q: Patch)
    requires PatchFits(p, |content|) && PatchFits(q, |content|) && p.offset < chunkSize &&
             p.offset + p.size <= q.offset && q.latest.Some?
    ensures PatchBytes(Flushed(content, chunkSize, p), q) == PatchBytes(content, q)
  {
    hide LittleEndian, Number, PatchBytes;
    var next := Flushed(content, chunkSize, p);
    assert next[q.offset..q.offset + q.size] == content[q.offset..q.offset + q.size];
    PatchBytesSame(content, next, q);
  }

  lemma {:induction false} PatchBytesSame(content: seq<int>, next: seq<int>, q: Patch)
    requires PatchFits(q, |content|) && |next| == |content| && q.latest.Some?
    requires next[q.offset..q.offset + q.size] == content[q.offset..q.offset + q.size]
    ensures PatchBytes(next, q) == PatchBytes(content, q)
  {
  }

  /** Every block's new bytes arrive, as far as the chunk reaches, computed from what the heap held before. */
  lemma {:induction false} FlushedArrives(content: seq<int>, chunkSize: nat, ps: seq<Patch>, i: nat, k: nat)
    requires (forall i :: 0 <= i < |ps| ==> PatchFits(ps[i], |content|)) && Disjoint(ps)
    requires i < |ps| && ps[i].latest.Some? && k < ps[i].size && ps[i].offset + k < chunkSize
    ensures FlushedAll(content, chunkSize, ps)[ps[i].offset + k] == PatchBytes(content, ps[i])[k]
    decreases |ps|
  {
    hide PatchBytes, Flushed;
    var p, first, rest := ps[i], ps[0], ps[1..];
    assert first.offset <= p.offset;
    var next := Flushed(content, chunkSize, first);
    if i == 0 {
      FlushedElsewhere(next, chunkSize, rest, p.offset + k);
      FlushedHere(content, chunkSize, p, k);
    } else {
      assert rest[i - 1] == p;
      FlushedApart(content, chunkSize, first, p);
      FlushedArrives(next, chunkSize, rest, i - 1, k);
    }
  }

  // ---------- sequences of requests ----------

  datatype Step =
    | Reserve(capacity: nat)
    | Shrink
    | Request(newSize: Option<nat>, patches: seq<Patch>)

  /** A request resizes within the capacity and its blocks lie within the capacity. */
  ghost predicate Legal(m: Memory, s: Step) {
    s.Request? ==>
      && (s.newSize.Some? ==> s.newSize.value <= |m.content|)
      && (forall i :: 0 <= i < |s.patches| ==> PatchFits(s.patches[i], |m.content|))
  }

  function WithSize(m: Memory, newSize: Option<nat>): (r: Memory)
    requires m.size <= |m.content| && (newSize.Some? ==> newSize.value <= |m.content|)
    ensures |r.content| == |m.content|
  {
    if newSize.Some? then Sized(m, newSize.value) else m
  }

  ghost function After(m: Memory, s: Step): Memory
    requires Tidy(m) && Legal(m, s)
  {
    match s
    case Reserve(capacity) => Reserved(m, capacity)
    case Shrink => Shrunk(m)
    case Request(newSize, patches) =>
      var r := WithSize(m, newSize);
      r.(content := FlushedAll(r.content, r.size, patches))
  }

  lemma {:induction false} SizedTidy(m: Memory, n: nat)
    requires Tidy(m) && n <= |m.content|
    ensures Tidy(Sized(m, n)) && forall k: nat :: Tape(Sized(m, n), k) == if k < n then Tape(m, k) else 0
  {
  }

  /** Allocation is invisible. */
  lemma {:induction false} ReallocatedTape(m: Memory, capacity: nat)
    requires Tidy(m) && m.size <= capacity
    ensures Tidy(Reallocated(m, capacity)) && forall k: nat :: Tape(Reallocated(m, capacity), k) == Tape(m, k)
  {
  }

  /** A request cuts or zero-extends the tape and then changes only bytes below the new size that its blocks cover. */
  lemma {:induction false} StepTidy(m: Memory, s: Step)
    requires Tidy(m) && Legal(m, s)
    ensures Tidy(After(m, s))
    ensures !s.Request? ==> forall k: nat :: Tape(After(m, s), k) == Tape(m, k)
    ensures s.Request? ==> forall k: nat ::
              (forall i :: 0 <= i < |s.patches| ==>
                  !(s.patches[i].offset <= k < s.patches[i].offset + s.patches[i].size)) ==>
              Tape(After(m, s), k) == if k < After(m, s).size then Tape(m, k) else 0
  {
    match s
    case Reserve(capacity) =>
      if capacity > |m.content| {
        ReallocatedTape(m, capacity);
      }
    case Shrink =>
      ReallocatedTape(m, m.size);
    case Request(newSize, patches) =>
      var r := WithSize(m, newSize);
      if newSize.Some? {
        SizedTidy(m, newSize.value);
      }
      RequestTidy(r, patches);
  }

  /** How much is allocated: reserving gives the greater of the two capacities, shrinking exactly the chunk. */
  lemma {:induction false} Allocated(m: Memory, capacity: nat)
    requires Tidy(m)
    ensures |Reserved(m, capacity).content| == (if capacity > |m.content| then capacity else |m.content|)
    ensures |Shrunk(m).content| == m.size
  {
  }

  lemma {:induction false} RequestTidy(r: Memory, patches: seq<Patch>)
    requires Tidy(r) && forall i :: 0 <= i < |patches| ==> PatchFits(patches[i], |r.content|)
    ensures var a := r.(content := FlushedAll(r.content, r.size, patches));
            && Tidy(a)
            && forall k: nat ::
                 (forall i :: 0 <= i < |patches| ==>
                     !(patches[i].offset <= k < patches[i].offset + patches[i].size)) ==>
                 Tape(a, k) == Tape(r, k)
  {
    forall k: nat | k < |r.content| &&
      (k >= r.size || forall i :: 0 <= i < |patches| ==>
          !(patches[i].offset <= k < patches[i].offset + patches[i].size))
      ensures FlushedAll(r.content, r.size, patches)[k] == r.content[k]
    {
      FlushedElsewhere(r.content, r.size, patches, k);
    }
  }

  /** A chunk over the whole life of a block: created empty, then any legal steps. */
  ghost predicate IsLife(ms: seq<Memory>, steps: seq<Step>) {
    && |ms| == |steps| + 1 && ms[0].size == 0 && ms[0].content == Zeros(|ms[0].content|)
    && forall i :: 0 <= i < |steps| && Tidy(ms[i]) ==> Legal(ms[i], steps[i]) && ms[i + 1] == After(ms[i], steps[i])
  }

  /** Every chunk stays tidy. */
  lemma {:induction false} AlwaysTidy(ms: seq<Memory>, steps: seq<Step>, k: nat)
    requires IsLife(ms, steps) && k <= |steps|
    ensures Tidy(ms[k])
  {
    if k > 0 {
      AlwaysTidy(ms, steps, k - 1);
      StepTidy(ms[k - 1], steps[k - 1]);
    }
  }
}
