/** Additive cells over whole runs (src/ascee/heap/RestrictedModifier.h:151-166,
    src/ascee/heap/RestrictedModifier.cpp:161-179): what a request collects is the sum of its additions that no restore
    undid, and what any order of write-backs leaves is the sum over all requests, modulo 256^size. */
module Additive {
  import opened Arithmetic
  import opened Bytes
  import opened Options
  import opened Versions
  import opened Access
  import opened ChunkMemory

  function Sum(xs: seq<int>): int {
    if xs == [] then 0 else Sum(xs[..|xs| - 1]) + xs[|xs| - 1]
  }

  // ---------- one request ----------

  /** The amounts added to one cell and not undone: those in force now, and those at each save. */
  datatype Ledger = Ledger(saved: seq<seq<int>>, now: seq<int>)

  ghost function Book(l: Ledger, op: Op, cell: nat): Ledger
    requires op.Restore? ==> op.version < |l.saved|
  {
    match op
    case Save => l.(saved := l.saved + [l.now])
    case Restore(version) => Ledger(l.saved[..version], l.saved[version])
    case AddInt(c, amount) => if c == cell then l.(now := l.now + [amount]) else l
    case _ => l
  }

  /** The snapshots hold, in `cell`, exactly the sums of the ledger. */
  ghost predicate Books(a: Snapshots, l: Ledger, cell: nat, size: nat) {
    && |a.saved| == |l.saved|
    && Holds(a.now, l.now, cell, size)
    && forall v :: 0 <= v < |a.saved| ==> Holds(a.saved[v], l.saved[v], cell, size)
  }

  ghost predicate Holds(contents: seq<seq<int>>, amounts: seq<int>, cell: nat, size: nat) {
    cell < |contents| && contents[cell] == LittleEndian(Sum(amounts), size)
  }

  lemma {:induction false} SumAppend(xs: seq<int>, x: int)
    ensures Sum(xs + [x]) == Sum(xs) + x
  {
    assert (xs + [x])[..|xs|] == xs;
  }

  lemma {:induction false} LittleEndianSize(v: int, n: nat)
    ensures |LittleEndian(v, n)| == n
  {
  }

  lemma {:induction false} BookStep(a: Snapshots, l: Ledger, op: Op, cell: nat, size: nat)
    requires Books(a, l, cell, size) && Possible(a, op) && !(op.Store? && op.cell == cell)
    ensures Books(Mean(a, op), Book(l, op, cell), cell, size)
  {
    hide LittleEndian, Number, Sum;
    LittleEndianSize(Sum(l.now), size);
    if op.AddInt? && op.cell == cell {
      SumAppend(l.now, op.amount);
      AddToStored(Sum(l.now), op.amount, size);
    }
  }

  /** The ledger after the first k operations. Stores to an additive cell are refused. */
  ghost function LedgerAt(ops: seq<Op>, cell: nat, k: nat): (l: Option<Ledger>)
    requires k <= |ops|
  {
    if k == 0 then Some(Ledger([], [])) else
      var l := LedgerAt(ops, cell, k - 1);
      if l.None? || (ops[k - 1].Restore? && ops[k - 1].version >= |l.value.saved|) then None
      else Some(Book(l.value, ops[k - 1], cell))
  }

  lemma {:induction false} LedgerMatches(ms: seq<Modifier>, ops: seq<Op>, cell: nat, k: nat)
    requires IsRun(ms, ops) && k <= |ops| && cell < |ms[0].cells|
    requires ms[0].cells[cell] == Cell(Zeros(|ms[0].cells[cell].base|), [])
    requires forall i :: 0 <= i < |ops| ==> !(ops[i].Store? && ops[i].cell == cell)
    requires Meaning(ms, ops, k).Some?
    ensures LedgerAt(ops, cell, k).Some?
    ensures Books(Meaning(ms, ops, k).value, LedgerAt(ops, cell, k).value, cell, |ms[0].cells[cell].base|)
  {
    var size := |ms[0].cells[cell].base|;
    if k == 0 {
      ZerosAre(size);
    } else {
      LedgerMatches(ms, ops, cell, k - 1);
      BookStep(Meaning(ms, ops, k - 1).value, LedgerAt(ops, cell, k - 1).value, ops[k - 1], cell, size);
    }
  }

  lemma {:induction false} ZerosAre(n: nat)
    ensures LittleEndian(0, n) == Zeros(n)
  {
    if n > 0 {
      ZerosAre(n - 1);
      assert Zeros(n) == [0] + Zeros(n - 1);
    }
  }

  /** Along a run with clean saves an additive cell shows the sum of the amounts that survived. */
  lemma {:induction false} CollectsSurvivors(ms: seq<Modifier>, ops: seq<Op>, cell: nat)
    requires IsRun(ms, ops) && cell < |ms[0].cells| && CleanUpTo(ms, ops, |ops|)
    requires ms[0].cells[cell] == Cell(Zeros(|ms[0].cells[cell].base|), [])
    requires forall i :: 0 <= i < |ops| ==> !(ops[i].Store? && ops[i].cell == cell)
    ensures var l := LedgerAt(ops, cell, |ops|);
            && l.Some? && cell < |ms[|ops|].cells|
            && Contents(ms[|ops|])[cell] == LittleEndian(Sum(l.value.now), |ms[0].cells[cell].base|)
  {
    RefinesSnapshotsIffClean(ms, ops);
    LedgerMatches(ms, ops, cell, |ops|);
  }

  // ---------- write-backs of many requests ----------

  /** What one request did to an additive cell: its run of the modifier, and the number of the cell there. */
  datatype CellRun = CellRun(ms: seq<Modifier>, ops: seq<Op>, cell: nat)

  /** A run with clean saves over an additive block of this size. */
  ghost predicate Collects(r: CellRun, size: nat) {
    && IsRun(r.ms, r.ops) && r.cell < |r.ms[0].cells| && CleanUpTo(r.ms, r.ops, |r.ops|)
    && r.ms[0].cells[r.cell] == Cell(Zeros(size), [])
    && forall i :: 0 <= i < |r.ops| ==> !(r.ops[i].Store? && r.ops[i].cell == r.cell)
  }

  /** The amounts added to the cell and not undone. */
  ghost function Survivors(r: CellRun): seq<int> {
    var l := LedgerAt(r.ops, r.cell, |r.ops|);
    if l.Some? then l.value.now else []
  }

  ghost function Contribution(r: CellRun): int {
    Sum(Survivors(r))
  }

  /** What the block takes to the write-back: nothing if it holds no version. */
  ghost function Latest(r: CellRun): Option<seq<int>>
    requires IsRun(r.ms, r.ops) && r.cell < |r.ms[|r.ops|].cells|
  {
    var m := r.ms[|r.ops|];
    var vs := Synced(m.cells[r.cell].versions, m.current);
    if vs == [] then None else Some(vs[|vs| - 1].content)
  }

  /** The cell after a write-back: the step of the chunk memory for a block that covers just the cell. */
  function Flush(stored: seq<int>, latest: Option<seq<int>>): seq<int>
    requires |stored| > 0 && (latest.Some? ==> |latest.value| == |stored|)
  {
    Flushed(stored, |stored|, Patch(0, |stored|, IntAdditive, latest))
  }

  lemma {:induction false} FlushIs(stored: seq<int>, latest: Option<seq<int>>)
    requires |stored| > 0 && (latest.Some? ==> |latest.value| == |stored|)
    ensures Flush(stored, latest) ==
            if latest.None? then stored else LittleEndian(Number(stored) + Number(latest.value), |stored|)
  {
    hide LittleEndian, Number;
    assert stored[0..|stored|] == stored;
  }

  lemma {:induction false} LatestIs(r: CellRun, size: nat)
    requires Collects(r, size)
    ensures |r.ms[|r.ops|].cells| == |r.ms[0].cells|
    ensures var content := LittleEndian(Contribution(r), size);
            Latest(r) == Some(content) || (Latest(r) == None && content == Zeros(size))
  {
    var n := |r.ops|;
    CollectsSurvivors(r.ms, r.ops, r.cell);
    RunSane(r.ms, r.ops, n);
    RunKeepsBase(r.ms, r.ops, n, r.cell);
    hide LittleEndian, Sum, LedgerAt, IsRun, CleanUpTo;
    assert Contents(r.ms[n])[r.cell] == LittleEndian(Contribution(r), size);
  }

  lemma {:induction false} RunKeepsBase(ms: seq<Modifier>, ops: seq<Op>, k: nat, cell: nat)
    requires IsRun(ms, ops) && k <= |ops| && cell < |ms[0].cells|
    ensures |ms[k].cells| == |ms[0].cells| && ms[k].cells[cell].base == ms[0].cells[cell].base
  {
    if k > 0 {
      RunKeepsBase(ms, ops, k - 1, cell);
      RunSane(ms, ops, k - 1);
      DoKeepsSane(ms[k - 1], ops[k - 1]);
    }
  }

  /** The write-backs of these requests, in this order. */
  ghost function WrittenBack(initial: seq<int>, runs: seq<CellRun>): (cell: seq<int>)
    requires |initial| > 0 && forall i :: 0 <= i < |runs| ==> Collects(runs[i], |initial|)
    ensures |cell| == |initial|
  {
    if runs == [] then initial
    else
      var n := |runs| - 1;
      LatestIs(runs[n], |initial|);
      FlushIs(WrittenBack(initial, runs[..n]), Latest(runs[n]));
      Flush(WrittenBack(initial, runs[..n]), Latest(runs[n]))
  }

  /** Adding what leaves nothing in `size` bytes changes nothing. */
  lemma {:induction false} AddNothing(v: int, x: int, size: nat)
    requires LittleEndian(x, size) == Zeros(size)
    ensures LittleEndian(v + x, size) == LittleEndian(v, size)
  {
    AddToStored(x, v, size);
    NumberOfZeros(size);
    assert x + v == v + x;
  }

  lemma {:induction false} AddStored(v: int, x: int, size: nat)
    ensures LittleEndian(Number(LittleEndian(v, size)) + Number(LittleEndian(x, size)), size) ==
            LittleEndian(v + x, size)
  {
    hide LittleEndian, Number;
    var stored := Number(LittleEndian(x, size));
    AddToStored(v, stored, size);
    AddToStored(x, v, size);
    assert stored + v == v + stored && x + v == v + x;
  }

  lemma {:induction false} WrittenBackSum(initial: seq<int>, runs: seq<CellRun>)
    requires |initial| > 0 && (forall i :: 0 <= i < |runs| ==> Collects(runs[i], |initial|))
    requires initial == LittleEndian(Number(initial), |initial|)
    ensures WrittenBack(initial, runs) == LittleEndian(Number(initial) + SumBy(runs, Contribution), |initial|)
  {
    hide LittleEndian, Number, Contribution, Collects, Flush;
    if runs != [] {
      var n := |runs| - 1;
      WrittenBackSum(initial, runs[..n]);
      WrittenBackStep(initial, runs, Number(initial) + SumBy(runs[..n], Contribution));
    }
  }

  lemma {:induction false} WrittenBackStep(initial: seq<int>, runs: seq<CellRun>, before: int)
    requires |initial| > 0 && runs != [] && (forall i :: 0 <= i < |runs| ==> Collects(runs[i], |initial|))
    requires WrittenBack(initial, runs[..|runs| - 1]) == LittleEndian(before, |initial|)
    ensures WrittenBack(initial, runs) == LittleEndian(before + Contribution(runs[|runs| - 1]), |initial|)
  {
    hide LittleEndian, Number, Contribution, Flush, IsRun, CleanUpTo, Zeros;
    var n, size := |runs| - 1, |initial|;
    var x := Contribution(runs[n]);
    LatestIs(runs[n], size);
    FlushIs(LittleEndian(before, size), Latest(runs[n]));
    if Latest(runs[n]).None? {
      AddNothing(before, x, size);
    } else {
      AddStored(before, x, size);
    }
  }

  // ---------- any order ----------

  ghost function SumBy<T(!new)>(xs: seq<T>, w: T -> int): int {
    if xs == [] then 0 else SumBy(xs[..|xs| - 1], w) + w(xs[|xs| - 1])
  }

  lemma {:induction false} SumOfParts<T(!new)>(xs: seq<T>, w: T -> int, k: nat)
    requires k < |xs|
    ensures SumBy(xs, w) == SumBy(xs[..k] + xs[k + 1..], w) + w(xs[k])
  {
    var n := |xs| - 1;
    if k == n {
      assert xs[..k] + xs[k + 1..] == xs[..n];
    } else {
      SumOfParts(xs[..n], w, k);
      var rest := xs[..k] + xs[k + 1..];
      assert rest[..n - 1] == xs[..n][..k] + xs[..n][k + 1..];
      assert rest[n - 1] == xs[n];
    }
  }

  lemma {:induction false} SumOfPermutation<T(!new)>(xs: seq<T>, ys: seq<T>, w: T -> int)
    requires multiset(xs) == multiset(ys)
    ensures SumBy(xs, w) == SumBy(ys, w)
    decreases |xs|
  {
    assert |xs| == |multiset(xs)| == |multiset(ys)| == |ys|;
    if xs != [] {
      var n := |xs| - 1;
      assert xs[n] in multiset(ys);
      var k :| 0 <= k < |ys| && ys[k] == xs[n];
      WithoutOne(xs, n);
      WithoutOne(ys, k);
      assert xs[..n] + xs[n + 1..] == xs[..n];
      SumOfPermutation(xs[..n], ys[..k] + ys[k + 1..], w);
      SumOfParts(ys, w, k);
    }
  }

  lemma {:induction false} WithoutOne<T>(xs: seq<T>, k: nat)
    requires k < |xs|
    ensures multiset(xs[..k] + xs[k + 1..]) == multiset(xs) - multiset{xs[k]}
  {
    assert xs == xs[..k] + [xs[k]] + xs[k + 1..];
  }

  /** The heap holds the total: whatever the order of the write-backs, the cell ends up with its initial value plus all
      amounts, of all requests, that no restore undid, modulo 256^size. */
  lemma {:induction false} AnyOrderGivesTheTotal(initial: seq<int>, runs: seq<CellRun>, order: seq<CellRun>)
    requires |initial| > 0 && initial == LittleEndian(Number(initial), |initial|)
    requires (forall r :: r in order ==> Collects(r, |initial|)) && multiset(runs) == multiset(order)
    ensures forall i :: 0 <= i < |order| ==> Collects(order[i], |initial|)
    ensures Number(WrittenBack(initial, order)) == (Number(initial) + SumBy(runs, Contribution)) % Pow256(|initial|)
  {
    hide WrittenBack, SumBy, Collects, Contribution, LittleEndian, Number, Pow256;
    SumOfPermutation(runs, order, Contribution);
    WrittenBackSum(initial, order);
    var total := Number(initial) + SumBy(runs, Contribution);
    var q := NumberOfLittleEndian(total, |initial|);
    Unscale(q, Number(LittleEndian(total, |initial|)), Pow256(|initial|));
  }
}
