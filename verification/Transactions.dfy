/** Calls over the versioned heap view: `executeApp` saves a version before a call and restores it if the call fails
    (src/ascee/executor/Executor.cpp:209-294). Calls are meant to be transactions; this says exactly when they are. */
module Transactions {
  import opened Versions

  /** What a call does to the access blocks, its own calls included. An operation that the modifier refuses changes
      nothing; the call that tried it is one that does not complete. */
  datatype Script =
    | Done
    | Touch(op: Op, rest: Script)
    | Call(body: Script, completed: bool, rest: Script)

  function Calls(s: Script): nat {
    match s
    case Done => 0
    case Touch(_, rest) => Calls(rest)
    case Call(body, _, rest) => 1 + Calls(body) + Calls(rest)
  }

  // ---------- what the modifier does ----------

  /** As many saves as the script makes are possible. */
  ghost predicate Ready(m: Modifier, s: Script) {
    Sane(m) && m.current >= 1 && m.current + Calls(s) <= MAX_VERSION
  }

  ghost predicate SameBlocks(m: Modifier, n: Modifier) {
    |n.cells| == |m.cells| && forall b :: 0 <= b < |m.cells| ==> n.cells[b].base == m.cells[b].base
  }

  predicate Touching(op: Op) {
    op.Load? || op.Store? || op.AddInt?
  }

  ghost function Attempt(m: Modifier, op: Op): (n: Modifier)
    requires Sane(m)
    ensures Sane(n) && SameBlocks(m, n) && n.current == m.current
  {
    if Touching(op) && Acceptable(m, op) then
      DoKeepsSane(m, op);
      Do(m, op)
    else m
  }

  /** The modifier after a call. */
  ghost function Called(m: Modifier, body: Script, completed: bool): (n: Modifier)
    requires Sane(m) && m.current + 1 + Calls(body) <= MAX_VERSION
    ensures Sane(n) && SameBlocks(m, n)
    ensures if completed then m.current < n.current <= m.current + 1 + Calls(body) else n.current == m.current
    decreases body, 1
  {
    var n := Run(Do(m, Save), body);
    if completed then n else Do(n, Restore(m.current))
  }

  ghost function Run(m: Modifier, s: Script): (n: Modifier)
    requires Sane(m) && m.current + Calls(s) <= MAX_VERSION
    ensures Sane(n) && SameBlocks(m, n) && m.current <= n.current <= m.current + Calls(s)
    decreases s, 0
  {
    match s
    case Done => m
    case Touch(op, rest) => Run(Attempt(m, op), rest)
    case Call(body, completed, rest) => Run(Called(m, body, completed), rest)
  }

  // ---------- what is meant ----------

  function Applied(c: seq<seq<int>>, op: Op): (r: seq<seq<int>>)
    ensures |r| == |c|
  {
    match op
    case Store(cell, offset, bytes) =>
      if cell < |c| && offset + |bytes| <= |c[cell]| then c[cell := Changed(c[cell], op)] else c
    case AddInt(cell, _) => if cell < |c| then c[cell := Changed(c[cell], op)] else c
    case _ => c
  }

  /** Contents after the script if calls are transactions: a failed call leaves nothing. */
  function Final(c: seq<seq<int>>, s: Script): seq<seq<int>>
    decreases s
  {
    match s
    case Done => c
    case Touch(op, rest) => Final(Applied(c, op), rest)
    case Call(body, completed, rest) => Final(if completed then Final(c, body) else c, rest)
  }

  // ---------- a failed call restores the contents of its caller, always ----------

  ghost function Before(m: Modifier): (a: Snapshots)
    ensures Matches(m, a)
  {
    Snapshots(seq(m.current, v requires 0 <= v < m.current => Contents(m.(current := v))), Contents(m))
  }

  lemma {:induction false} AttemptShows(m: Modifier, op: Op)
    requires Sane(m) && m.current >= 1
    ensures Contents(Attempt(m, op)) == Applied(Contents(m), op)
    ensures forall u :: 0 <= u < m.current ==> Contents(Attempt(m, op).(current := u)) == Contents(m.(current := u))
  {
    var a := Before(m);
    if op.Store? && op.cell < |m.cells| {
      ViewSize(m.cells[op.cell].base, m.cells[op.cell].versions, m.current);
    }
    if Touching(op) && Acceptable(m, op) {
      StepRefines(m, a, op);
      assert Mean(a, op).saved == a.saved;
    }
  }

  /** Whatever happens at later versions, earlier versions show what they showed. */
  lemma {:induction false} RunKeepsEarlier(m: Modifier, s: Script, u: nat)
    requires Ready(m, s) && u < m.current
    ensures Contents(Run(m, s).(current := u)) == Contents(m.(current := u))
    decreases s
  {
    match s
    case Done =>
    case Touch(op, rest) =>
      AttemptShows(m, op);
      RunKeepsEarlier(Attempt(m, op), rest, u);
    case Call(body, completed, rest) =>
      RunKeepsEarlier(Do(m, Save), body, u);
      RunKeepsEarlier(Called(m, body, completed), rest, u);
  }

  lemma {:induction false} FailedCallRestores(m: Modifier, body: Script)
    requires Sane(m) && m.current + 1 + Calls(body) <= MAX_VERSION
    ensures Contents(Called(m, body, false)) == Contents(m)
  {
    var n := Do(m, Save);
    RunKeepsEarlier(n, body, m.current);
    assert n.(current := m.current) == m;
    assert Called(m, body, false) == Run(n, body).(current := m.current);
  }

  // ---------- when calls are transactions ----------

  /** Every save of the run is clean. */
  ghost predicate CleanCalls(m: Modifier, s: Script)
    requires Sane(m) && m.current + Calls(s) <= MAX_VERSION
    decreases s
  {
    match s
    case Done => true
    case Touch(op, rest) => CleanCalls(Attempt(m, op), rest)
    case Call(body, completed, rest) =>
      Clean(m) && CleanCalls(Do(m, Save), body) && CleanCalls(Called(m, body, completed), rest)
  }

  /** At every point of the run, inside calls, too, the blocks hold what is meant. */
  ghost predicate Transactional(m: Modifier, c: seq<seq<int>>, s: Script)
    requires Sane(m) && m.current + Calls(s) <= MAX_VERSION
    decreases s
  {
    && Contents(m) == c
    && match s
       case Done => true
       case Touch(op, rest) => Transactional(Attempt(m, op), Applied(c, op), rest)
       case Call(body, completed, rest) =>
         && Transactional(Do(m, Save), c, body)
         && Transactional(Called(m, body, completed), if completed then Final(c, body) else c, rest)
  }

  /** Calls behave as transactions throughout the run exactly when every save is clean. */
  lemma {:induction false} TransactionalIffClean(m: Modifier, s: Script)
    requires Ready(m, s)
    ensures Transactional(m, Contents(m), s) <==> CleanCalls(m, s)
    ensures CleanCalls(m, s) ==> Contents(Run(m, s)) == Final(Contents(m), s)
    decreases s
  {
    match s
    case Done =>
    case Touch(op, rest) =>
      AttemptShows(m, op);
      TransactionalIffClean(Attempt(m, op), rest);
    case Call(body, completed, rest) =>
      var n := Do(m, Save);
      SaveKeepsContents(m);
      FailedCallRestores(m, body);
      TransactionalIffClean(n, body);
      TransactionalIffClean(Called(m, body, completed), rest);
      StartsAsMeant(n, Contents(m), body);
  }

  lemma {:induction false} StartsAsMeant(m: Modifier, c: seq<seq<int>>, s: Script)
    requires Sane(m) && m.current + Calls(s) <= MAX_VERSION
    ensures Transactional(m, c, s) ==> Contents(m) == c
  {
  }

  // ---------- a call after a failed one ----------

  /** What the first call after a failed one finds in a block: the newest thing that the failed call itself left there,
      although it was undone, and otherwise what the caller has. */
  lemma {:induction false} NextCallFinds(m: Modifier, body: Script, b: nat)
    requires Sane(m) && m.current + 2 + Calls(body) <= MAX_VERSION && b < |m.cells|
    ensures var failed := Called(m, body, false);
            var next, left := Do(failed, Save), failed.cells[b].versions;
            && (forall k :: 0 <= k < |left| && left[k].number == m.current + 1 ==> Contents(next)[b] == left[k].content)
            && ((forall k :: 0 <= k < |left| ==> left[k].number != m.current + 1) ==>
                Contents(next)[b] == Contents(m)[b])
  {
    hide Contents, Sane, View, Proper, Run;
    FailedCallRestores(m, body);
    SavedShows(Called(m, body, false), b);
  }

  /** What a block shows after a save. */
  lemma {:induction false} SavedShows(m: Modifier, b: nat)
    requires Sane(m) && m.current < MAX_VERSION && b < |m.cells|
    ensures var next, vs := Do(m, Save), m.cells[b].versions;
            && (forall k :: 0 <= k < |vs| && vs[k].number == m.current + 1 ==> Contents(next)[b] == vs[k].content)
            && ((forall k :: 0 <= k < |vs| ==> vs[k].number != m.current + 1) ==> Contents(next)[b] == Contents(m)[b])
  {
    hide View;
    NextView(m.cells[b].base, m.cells[b].versions, m.current);
  }

  // ---------- scripts that are always transactional ----------

  predicate Fails(s: Script) {
    match s
    case Done => false
    case Touch(_, rest) => Fails(rest)
    case Call(body, completed, rest) => !completed || Fails(body) || Fails(rest)
  }

  /** No call begins after a call failed. */
  predicate NoCallAfterFailure(s: Script) {
    match s
    case Done => true
    case Touch(_, rest) => NoCallAfterFailure(rest)
    case Call(body, completed, rest) =>
      && NoCallAfterFailure(body) && NoCallAfterFailure(rest)
      && (!completed || Fails(body) ==> Calls(rest) == 0)
  }

  /** No block holds an undone entry. */
  ghost predicate NothingUndone(m: Modifier) {
    forall b, k :: 0 <= b < |m.cells| && 0 <= k < |m.cells[b].versions| ==> m.cells[b].versions[k].number <= m.current
  }

  lemma {:induction false} SyncedNumbers(vs: VersionList, size: nat, v: nat)
    requires Proper(vs, size)
    ensures forall k :: 0 <= k < |Synced(vs, v)| ==> Synced(vs, v)[k].number <= v
    ensures forall c, k :: 0 <= k < |Put(vs, v, c)| ==> Put(vs, v, c)[k].number <= v
  {
    SyncedFacts(vs, size, v);
  }

  lemma {:induction false} AttemptUndoesNothing(m: Modifier, op: Op)
    requires Sane(m) && m.current >= 1 && NothingUndone(m)
    ensures NothingUndone(Attempt(m, op))
  {
    if Touching(op) && Acceptable(m, op) {
      hide Synced, Changed, View, Proper;
      var b, n := m.cells[op.cell], Attempt(m, op);
      SyncedNumbers(b.versions, |b.base|, m.current);
      assert forall k :: 0 <= k < |n.cells[op.cell].versions| ==> n.cells[op.cell].versions[k].number <= m.current;
    }
  }

  lemma {:induction false} WithoutCallsIsClean(m: Modifier, s: Script)
    requires Sane(m) && m.current + Calls(s) <= MAX_VERSION && Calls(s) == 0
    ensures CleanCalls(m, s)
    decreases s
  {
    if s.Touch? {
      WithoutCallsIsClean(Attempt(m, s.op), s.rest);
    }
  }

  /** If no call begins after one failed, calls are transactions. */
  lemma {:induction false} NoCallAfterFailureIsClean(m: Modifier, s: Script)
    requires Ready(m, s) && NothingUndone(m) && NoCallAfterFailure(s)
    ensures CleanCalls(m, s)
    ensures !Fails(s) ==> NothingUndone(Run(m, s))
    decreases s
  {
    match s
    case Done =>
    case Touch(op, rest) =>
      AttemptUndoesNothing(m, op);
      NoCallAfterFailureIsClean(Attempt(m, op), rest);
    case Call(body, completed, rest) =>
      NoCallAfterFailureIsClean(Do(m, Save), body);
      if !completed || Fails(body) {
        WithoutCallsIsClean(Called(m, body, completed), rest);
      } else {
        NoCallAfterFailureIsClean(Called(m, body, completed), rest);
      }
  }

  // ---------- one request ----------

  /** A request: one call on blocks nobody has touched. If its inner calls are clean, the blocks end up as the
      transactions mean, and if it fails they end up untouched whatever its inner calls were. */
  lemma {:induction false} RequestContents(m: Modifier, body: Script, completed: bool)
    requires m.current == 0 && (forall b :: 0 <= b < |m.cells| ==> m.cells[b].versions == []) &&
             1 + Calls(body) <= MAX_VERSION
    ensures Sane(m)
    ensures !completed ==> Contents(Called(m, body, completed)) == Contents(m)
    ensures completed && CleanCalls(Do(m, Save), body) ==>
            Contents(Called(m, body, completed)) == Final(Contents(m), body)
    ensures NoCallAfterFailure(body) ==> CleanCalls(Do(m, Save), body)
  {
    var n := Do(m, Save);
    assert Clean(m);
    SaveKeepsContents(m);
    FailedCallRestores(m, body);
    TransactionalIffClean(n, body);
    if NoCallAfterFailure(body) {
      NoCallAfterFailureIsClean(n, body);
    }
  }
}
