/** Version lists of access blocks (src/ascee/heap/RestrictedModifier.cpp:36-44, 116-159) against a stack of full
    snapshots. */
module Versions {
  import opened Bytes
  import opened Options

  /** `MAX_VERSION`: saving is refused there. */
  const MAX_VERSION: nat := 30000

  datatype Version = Version(number: nat, content: seq<int>)

  type VersionList = seq<Version>

  /** Ascending version numbers, starting at 1 or later, and whole contents. */
  predicate Proper(vs: VersionList, size: nat) {
    && (forall k :: 0 <= k < |vs| ==> vs[k].number >= 1 && |vs[k].content| == size)
    && (forall k, l :: 0 <= k < l < |vs| ==> vs[k].number < vs[l].number)
  }

  /** The list without the entries above `v` (`syncTo`). */
  function Synced(vs: VersionList, v: nat): VersionList {
    if vs != [] && vs[|vs| - 1].number > v then Synced(vs[..|vs| - 1], v) else vs
  }

  /** What the block holds at version `v`: the newest entry not above `v`, or else what is in the heap. */
  function View(base: seq<int>, vs: VersionList, v: nat): seq<int> {
    var s := Synced(vs, v);
    if s == [] then base else s[|s| - 1].content
  }

  /** The list after the block got the content `c` at version `v`, copy on write. */
  function Put(vs: VersionList, v: nat, c: seq<int>): VersionList {
    var s := Synced(vs, v);
    if s != [] && s[|s| - 1].number == v then s[|s| - 1 := Version(v, c)] else s + [Version(v, c)]
  }

  lemma {:induction false} SyncedFacts(vs: VersionList, size: nat, v: nat)
    requires Proper(vs, size)
    ensures Proper(Synced(vs, v), size) && Synced(vs, v) <= vs
    ensures forall k :: 0 <= k < |Synced(vs, v)| ==> Synced(vs, v)[k].number <= v
    ensures forall k :: |Synced(vs, v)| <= k < |vs| ==> vs[k].number > v
  {
    if vs != [] && vs[|vs| - 1].number > v {
      SyncedFacts(vs[..|vs| - 1], size, v);
    }
  }

  /** Syncing to a version forgets nothing that an earlier or equal version shows. */
  lemma {:induction false} SyncedAgain(vs: VersionList, size: nat, v: nat, u: nat)
    requires Proper(vs, size) && u <= v
    ensures Synced(Synced(vs, v), u) == Synced(vs, u)
  {
    if vs != [] && vs[|vs| - 1].number > v {
      SyncedAgain(vs[..|vs| - 1], size, v, u);
    }
  }

  lemma {:induction false} ViewSize(base: seq<int>, vs: VersionList, v: nat)
    requires Proper(vs, |base|)
    ensures |View(base, vs, v)| == |base|
  {
    SyncedFacts(vs, |base|, v);
  }

  lemma {:induction false} PutKeeps(vs: VersionList, size: nat, v: nat, c: seq<int>, u: nat)
    requires Proper(vs, size) && u < v
    ensures Synced(Put(vs, v, c), u) == Synced(vs, u)
  {
    var s, p := Synced(vs, v), Put(vs, v, c);
    SyncedAgain(vs, size, v, u);
    if s != [] && s[|s| - 1].number == v {
      assert p[..|p| - 1] == s[..|s| - 1];
    } else {
      assert p[..|p| - 1] == s;
    }
  }

  lemma {:induction false} PutTop(vs: VersionList, size: nat, v: nat, c: seq<int>)
    requires Proper(vs, size) && v >= 1 && |c| == size
    ensures var p := Put(vs, v, c); Proper(p, size) && Synced(p, v) == p && p != [] && p[|p| - 1] == Version(v, c)
  {
    var s, p := Synced(vs, v), Put(vs, v, c);
    SyncedFacts(vs, size, v);
    var n := |p| - 1;
    assert forall k :: 0 <= k < n ==> p[k] == s[k];
    assert forall k :: 0 <= k < n ==> s[k].number < v;
    assert p[n] == Version(v, c);
  }

  /** Copy on write: version `v` shows the new content, every earlier version what it showed before. */
  lemma {:induction false} PutShows(base: seq<int>, vs: VersionList, v: nat, c: seq<int>)
    requires Proper(vs, |base|) && v >= 1 && |c| == |base|
    ensures Proper(Put(vs, v, c), |base|) && View(base, Put(vs, v, c), v) == c
    ensures forall u :: 0 <= u < v ==> View(base, Put(vs, v, c), u) == View(base, vs, u)
  {
    PutTop(vs, |base|, v, c);
    forall u | 0 <= u < v
      ensures View(base, Put(vs, v, c), u) == View(base, vs, u)
    {
      PutKeeps(vs, |base|, v, c, u);
    }
  }

  // ---------- the modifier as a state machine over its blocks ----------

  /** One access block: what reads fall through to, and its versions. Additive blocks start from zero
      (src/ascee/heap/RestrictedModifier.h:151-166). */
  datatype Cell = Cell(base: seq<int>, versions: VersionList)

  datatype Modifier = Modifier(current: nat, cells: seq<Cell>)

  /** The operations, each as far as it is accepted: a load, a store or an addition outside the block or denied by its
      access type throws and changes nothing. Loading drops the undone entries of its block. */
  datatype Op =
    | Save
    | Restore(version: nat)
    | Load(cell: nat)
    | Store(cell: nat, offset: nat, bytes: seq<int>)
    | AddInt(cell: nat, amount: int)

  ghost predicate Sane(m: Modifier) {
    forall b :: 0 <= b < |m.cells| ==> Proper(m.cells[b].versions, |m.cells[b].base|)
  }

  predicate Acceptable(m: Modifier, op: Op) {
    match op
    case Save => m.current < MAX_VERSION
    case Restore(version) => version < m.current
    case Load(cell) => cell < |m.cells|
    case Store(cell, offset, bytes) => m.current >= 1 && cell < |m.cells| && offset + |bytes| <= |m.cells[cell].base|
    case AddInt(cell, _) => m.current >= 1 && cell < |m.cells|
  }

  function Contents(m: Modifier): (c: seq<seq<int>>)
    ensures |c| == |m.cells|
    ensures forall b :: 0 <= b < |m.cells| ==> c[b] == View(m.cells[b].base, m.cells[b].versions, m.current)
  {
    seq(|m.cells|, b requires 0 <= b < |m.cells| => View(m.cells[b].base, m.cells[b].versions, m.current))
  }

  /** The content a store or an addition gives its cell. */
  function Changed(c: seq<int>, op: Op): (r: seq<int>)
    requires (op.Store? && op.offset + |op.bytes| <= |c|) || op.AddInt?
    ensures |r| == |c|
  {
    if op.Store? then Splice(c, op.offset, op.bytes) else LittleEndian(Number(c) + op.amount, |c|)
  }

  ghost function Do(m: Modifier, op: Op): Modifier
    requires Sane(m) && Acceptable(m, op)
  {
    match op
    case Save => m.(current := m.current + 1)
    case Restore(version) => m.(current := version)
    case Load(cell) =>
      m.(cells := m.cells[cell := m.cells[cell].(versions := Synced(m.cells[cell].versions, m.current))])
    case _ =>
      var b := m.cells[op.cell];
      ViewSize(b.base, b.versions, m.current);
      m.(cells := m.cells[op.cell := b.(versions := Put(b.versions, m.current,
          Changed(View(b.base, b.versions, m.current), op)))])
  }

  // ---------- snapshots ----------

  /** The intended meaning: saving pushes a full copy, restoring version v goes back to the v-th copy. */
  datatype Snapshots = Snapshots(saved: seq<seq<seq<int>>>, now: seq<seq<int>>)

  ghost predicate Possible(a: Snapshots, op: Op) {
    match op
    case Save => true
    case Restore(version) => version < |a.saved|
    case Load(cell) => cell < |a.now|
    case Store(cell, offset, bytes) => cell < |a.now| && offset + |bytes| <= |a.now[cell]|
    case AddInt(cell, _) => cell < |a.now|
  }

  ghost function Mean(a: Snapshots, op: Op): Snapshots
    requires Possible(a, op)
  {
    match op
    case Save => a.(saved := a.saved + [a.now])
    case Restore(version) => Snapshots(a.saved[..version], a.saved[version])
    case Load(_) => a
    case _ => a.(now := a.now[op.cell := Changed(a.now[op.cell], op)])
  }

  /** Saving is harmless: no block still holds an undone entry with the number that is about to be reused, unless it
      repeats what the block holds now. */
  ghost predicate Clean(m: Modifier) {
    forall b, k ::
      0 <= b < |m.cells| && 0 <= k < |m.cells[b].versions| && m.cells[b].versions[k].number == m.current + 1 ==>
      m.cells[b].versions[k].content == View(m.cells[b].base, m.cells[b].versions, m.current)
  }

  ghost predicate Matches(m: Modifier, a: Snapshots) {
    && |a.saved| == m.current && a.now == Contents(m)
    && forall v :: 0 <= v < m.current ==> a.saved[v] == Contents(m.(current := v))
  }

  /** The view at the next version is the entry with that number, if there is one. */
  lemma {:induction false} NextView(base: seq<int>, vs: VersionList, v: nat)
    requires Proper(vs, |base|)
    ensures forall k :: 0 <= k < |vs| && vs[k].number == v + 1 ==> View(base, vs, v + 1) == vs[k].content
    ensures (forall k :: 0 <= k < |vs| ==> vs[k].number != v + 1) ==> View(base, vs, v + 1) == View(base, vs, v)
  {
    var s := Synced(vs, v + 1);
    SyncedFacts(vs, |base|, v + 1);
    SyncedAgain(vs, |base|, v + 1, v);
    forall k | 0 <= k < |vs| && vs[k].number == v + 1
      ensures View(base, vs, v + 1) == vs[k].content
    {
      assert k < |s| && s[k] == vs[k];
      assert k == |s| - 1;
    }
    if forall k :: 0 <= k < |vs| ==> vs[k].number != v + 1 {
      assert s == [] || s[|s| - 1] == vs[|s| - 1];
    }
  }

  /** Saving keeps the contents exactly when it is clean. */
  lemma {:induction false} SaveKeepsContents(m: Modifier)
    requires Sane(m)
    ensures Contents(m.(current := m.current + 1)) == Contents(m) <==> Clean(m)
  {
    var n := m.(current := m.current + 1);
    forall b | 0 <= b < |m.cells|
      ensures Contents(n)[b] == Contents(m)[b] <==>
              forall k :: 0 <= k < |m.cells[b].versions| && m.cells[b].versions[k].number == m.current + 1 ==>
                m.cells[b].versions[k].content == View(m.cells[b].base, m.cells[b].versions, m.current)
    {
      NextView(m.cells[b].base, m.cells[b].versions, m.current);
    }
    if Clean(m) {
      assert Contents(n) == Contents(m);
    } else {
      var b, k :| 0 <= b < |m.cells| && 0 <= k < |m.cells[b].versions| &&
          m.cells[b].versions[k].number == m.current + 1 &&
        m.cells[b].versions[k].content != View(m.cells[b].base, m.cells[b].versions, m.current);
      assert Contents(n)[b] != Contents(m)[b];
    }
  }

  lemma {:induction false} DoKeepsSane(m: Modifier, op: Op)
    requires Sane(m) && Acceptable(m, op)
    ensures Sane(Do(m, op)) && |Do(m, op).cells| == |m.cells|
    ensures forall b :: 0 <= b < |m.cells| ==> Do(m, op).cells[b].base == m.cells[b].base
  {
    if op.Load? {
      SyncedFacts(m.cells[op.cell].versions, |m.cells[op.cell].base|, m.current);
    } else if op.Store? || op.AddInt? {
      var b := m.cells[op.cell];
      ViewSize(b.base, b.versions, m.current);
      PutShows(b.base, b.versions, m.current, Changed(View(b.base, b.versions, m.current), op));
    }
  }

  /** One step of the refinement. */
  lemma {:induction false} StepRefines(m: Modifier, a: Snapshots, op: Op)
    requires Sane(m) && Matches(m, a) && Acceptable(m, op) && (op == Save ==> Clean(m))
    ensures Possible(a, op) && Matches(Do(m, op), Mean(a, op))
  {
    match op
    case Save =>
      SaveKeepsContents(m);
    case Restore(version) =>
      assert Contents(m.(current := version)) == a.saved[version];
    case Load(_) => LoadRefines(m, a, op);
    case Store(_, _, _) => ChangeRefines(m, a, op);
    case AddInt(_, _) => ChangeRefines(m, a, op);
  }

  lemma {:induction false} LoadRefines(m: Modifier, a: Snapshots, op: Op)
    requires Sane(m) && Matches(m, a) && Acceptable(m, op) && op.Load?
    ensures Possible(a, op) && Matches(Do(m, op), Mean(a, op))
  {
    var c, n := m.cells[op.cell], Do(m, op);
    forall v | 0 <= v <= m.current
      ensures Contents(n.(current := v)) == Contents(m.(current := v))
    {
      SyncedAgain(c.versions, |c.base|, m.current, v);
    }
    assert n == n.(current := m.current) && m == m.(current := m.current);
  }

  lemma {:induction false} ChangeRefines(m: Modifier, a: Snapshots, op: Op)
    requires Sane(m) && Matches(m, a) && Acceptable(m, op) && (op.Store? || op.AddInt?)
    ensures Possible(a, op) && Matches(Do(m, op), Mean(a, op))
  {
    var c := m.cells[op.cell];
    ViewSize(c.base, c.versions, m.current);
    PutShows(c.base, c.versions, m.current, Changed(View(c.base, c.versions, m.current), op));
    var n := Do(m, op);
    assert Contents(n) == Contents(m)[op.cell := Changed(Contents(m)[op.cell], op)];
    forall v | 0 <= v < m.current
      ensures Contents(n.(current := v)) == Contents(m.(current := v))
    {
      forall b | 0 <= b < |m.cells|
        ensures Contents(n.(current := v))[b] == Contents(m.(current := v))[b]
      {
      }
    }
  }

  // ---------- whole runs ----------

  /** States of the modifier over a run of accepted operations. */
  ghost predicate IsRun(ms: seq<Modifier>, ops: seq<Op>) {
    && |ms| == |ops| + 1 && Sane(ms[0]) && ms[0].current == 0
    && forall k :: 0 <= k < |ops| && Sane(ms[k]) ==> Acceptable(ms[k], ops[k]) && ms[k + 1] == Do(ms[k], ops[k])
  }

  /** Every state of a run has proper version lists, over the same blocks. */
  lemma {:induction false} RunSane(ms: seq<Modifier>, ops: seq<Op>, k: nat)
    requires IsRun(ms, ops) && k <= |ops|
    ensures Sane(ms[k]) && |ms[k].cells| == |ms[0].cells|
  {
    if k > 0 {
      RunSane(ms, ops, k - 1);
      DoKeepsSane(ms[k - 1], ops[k - 1]);
    }
  }

  /** The snapshot machine after the first k operations. */
  ghost function Meaning(ms: seq<Modifier>, ops: seq<Op>, k: nat): Option<Snapshots>
    requires IsRun(ms, ops) && k <= |ops|
  {
    if k == 0 then Some(Snapshots([], Contents(ms[0]))) else
      var a := Meaning(ms, ops, k - 1);
      if a.Some? && Possible(a.value, ops[k - 1]) then Some(Mean(a.value, ops[k - 1])) else None
  }

  ghost predicate CleanUpTo(ms: seq<Modifier>, ops: seq<Op>, k: nat)
    requires IsRun(ms, ops) && k <= |ops|
  {
    forall i :: 0 <= i < k && ops[i] == Save ==> Clean(ms[i])
  }

  /** After each of the first k operations the block contents are those of the snapshot machine. */
  ghost predicate AgreesUpTo(ms: seq<Modifier>, ops: seq<Op>, k: nat)
    requires IsRun(ms, ops) && k <= |ops|
  {
    forall i :: 0 <= i <= k ==> Meaning(ms, ops, i).Some? && Contents(ms[i]) == Meaning(ms, ops, i).value.now
  }

  lemma {:induction false} CleanRunMatches(ms: seq<Modifier>, ops: seq<Op>, k: nat)
    requires IsRun(ms, ops) && k <= |ops| && CleanUpTo(ms, ops, k)
    ensures Meaning(ms, ops, k).Some? && Matches(ms[k], Meaning(ms, ops, k).value)
  {
    if k > 0 {
      CleanRunMatches(ms, ops, k - 1);
      RunSane(ms, ops, k - 1);
      StepRefines(ms[k - 1], Meaning(ms, ops, k - 1).value, ops[k - 1]);
    }
  }

  /** Agreement before and after a save shows that the save was clean. */
  lemma {:induction false} AgreementIsClean(ms: seq<Modifier>, ops: seq<Op>, i: nat)
    requires IsRun(ms, ops) && i < |ops| && ops[i] == Save
    requires Meaning(ms, ops, i).Some? && Contents(ms[i]) == Meaning(ms, ops, i).value.now
    requires Meaning(ms, ops, i + 1).Some? && Contents(ms[i + 1]) == Meaning(ms, ops, i + 1).value.now
    ensures Clean(ms[i])
  {
    RunSane(ms, ops, i);
    var m := ms[i];
    assert Meaning(ms, ops, i + 1).value.now == Meaning(ms, ops, i).value.now;
    assert ms[i + 1] == Do(m, ops[i]);
    assert Do(m, Save) == m.(current := m.current + 1);
    SaveKeepsContents(m);
  }

  /** The modifier refines the stack of snapshots exactly on the runs whose saves are all clean. */
  lemma {:induction false} RefinesSnapshotsIffClean(ms: seq<Modifier>, ops: seq<Op>)
    requires IsRun(ms, ops)
    ensures AgreesUpTo(ms, ops, |ops|) <==> CleanUpTo(ms, ops, |ops|)
  {
    if CleanUpTo(ms, ops, |ops|) {
      forall i | 0 <= i <= |ops|
        ensures Meaning(ms, ops, i).Some? && Contents(ms[i]) == Meaning(ms, ops, i).value.now
      {
        CleanRunMatches(ms, ops, i);
      }
    }
    if AgreesUpTo(ms, ops, |ops|) {
      forall i | 0 <= i < |ops| && ops[i] == Save
        ensures Clean(ms[i])
      {
        AgreementIsClean(ms, ops, i);
      }
    }
  }

  /** In particular it refines them whenever no block holds an undone entry when a save comes. */
  lemma {:induction false} RefinesWhenNothingUndone(ms: seq<Modifier>, ops: seq<Op>)
    requires IsRun(ms, ops)
    requires forall i, b, k ::
               0 <= i < |ops| && ops[i] == Save && 0 <= b < |ms[i].cells| && 0 <= k < |ms[i].cells[b].versions| ==>
               ms[i].cells[b].versions[k].number <= ms[i].current
    ensures AgreesUpTo(ms, ops, |ops|)
  {
    RefinesSnapshotsIffClean(ms, ops);
  }

  lemma {:induction false} OneCell(v: nat, c: Cell)
    ensures Contents(Modifier(v, [c])) == [View(c.base, c.versions, v)]
  {
  }

  /** The failing family is real: a write undone by a restore comes back with the next save. */
  lemma {:induction false} UndoneWriteReturns(x: int, y: int) returns (ms: seq<Modifier>, ops: seq<Op>)
    requires x != y
    ensures IsRun(ms, ops) && ops == [Save, Store(0, 0, [y]), Restore(0), Save]
    ensures Contents(ms[0]) == Contents(ms[3]) == [[x]] && Contents(ms[4]) == [[y]]
  {
    ops := [Save, Store(0, 0, [y]), Restore(0), Save];
    var blank, written := Cell([x], []), Cell([x], [Version(1, [y])]);
    var m0, m1, m3, m4 := Modifier(0, [blank]), Modifier(1, [blank]), Modifier(0, [written]), Modifier(1, [written]);
    StoreInBlank(x, y);
    ms := [m0, m1, Do(m1, ops[1]), m3, m4];
    assert Synced([Version(1, [y])], 0) == [];
    OneCell(0, blank);
    OneCell(0, written);
    OneCell(1, written);
  }

  lemma {:induction false} StoreInBlank(x: int, y: int)
    ensures Do(Modifier(1, [Cell([x], [])]), Store(0, 0, [y])) == Modifier(1, [Cell([x], [Version(1, [y])])])
  {
    assert Changed([x], Store(0, 0, [y])) == [y];
    assert Put([], 1, [y]) == [Version(1, [y])];
  }
}
