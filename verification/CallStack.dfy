/** Call contexts, reentrancy locks and resource handlers as a state machine (src/ascee/executor/Executor.cpp:146-168,
    253-294, src/ascee/argc/functions/invoke.cpp:27-48, src/ascee/executor/FailureManager.cpp:31-52). */
module CallStack {
  import Versions

  /** `min_clocks` */
  const MIN_CLOCKS: int := 1
  const MAX_CALL_DEPTH: int := 16

  /** What an application does when it is called. Any behaviour of foreign code in one run is some program. */
  datatype Program =
    | Return(code: int)
    | Fail
    | EnterArea(rest: Program)
    | ExitArea(rest: Program)
    | Invoke(forwardedGas: nat, app: int, body: Program, rest: Program)
    | InvokeDeferred(app: int, body: Program, rest: Program)

  datatype Deferred = Deferred(app: int, body: Program)

  datatype Context = Context(app: int, hasLock: bool, deferred: seq<Deferred>)

  /** `level` is the number of contexts when the handler was made; handlers and contexts are scoped objects, so it
      says when the handler may go. */
  datatype Handler = Handler(caller: int, gas: int, remaining: int, heapVersion: nat, level: nat)

  /** `handed` is the history: all gas ever given to an invocation. */
  datatype State = State(
    contexts: seq<Context>,
    locked: set<int>,
    heapContext: int,
    handlers: seq<Handler>,
    depth: int,
    invocations: nat,
    version: nat,
    handed: int)

  datatype Step =
    | Push(app: int)
    | Pop
    | Lock
    | Unlock
    | Open(forwardedGas: nat)
    | Close(completed: bool)

  function Top(s: State): Context
    requires s.contexts != []
  {
    s.contexts[|s.contexts| - 1]
  }

  function Last(s: State): Handler
    requires s.handlers != []
  {
    s.handlers[|s.handlers| - 1]
  }

  /** `calculateExternalGas` */
  function ExternalGas(gas: int): int
    requires gas >= 0
  {
    2 * gas / 3
  }

  /** The gas of a new invocation; the shift by 8 rounds down. */
  function ForwardedGas(remaining: int, forwardedGas: nat): int {
    remaining * forwardedGas / 256
  }

  /** The session as a controlled execution starts: the root handler and the root context. */
  function Initial(initialGas: nat): State {
    State([Context(0, false, [])], {}, 0, [Handler(0, 0, initialGas, 0, 1)], 1, 1, 0, 0)
  }

  /** When each constructor, destructor and function does not throw and is in scope. */
  ghost predicate Enabled(s: State, step: Step) {
    && s.contexts != [] && s.handlers != []
    && match step
       case Push(app) => app != Top(s).app
       case Pop => |s.contexts| > 1 && |s.contexts| > Last(s).level
       case Lock => Top(s).hasLock || Top(s).app !in s.locked
       case Unlock => true
       case Open(f) => f < 256 && ForwardedGas(Last(s).remaining, f) > MIN_CLOCKS && s.version < Versions.MAX_VERSION
       case Close(_) => |s.handlers| > 1 && |s.contexts| == Last(s).level
  }

  function WithTop(s: State, c: Context): State
    requires s.contexts != []
  {
    s.(contexts := s.contexts[|s.contexts| - 1 := c])
  }

  /** `enter_area`, when it does not throw. */
  function Locked(s: State): State
    requires s.contexts != []
  {
    if Top(s).hasLock then s
    else WithTop(s, Top(s).(hasLock := true)).(locked := s.locked + {Top(s).app})
  }

  /** `exit_area` */
  function Unlocked(s: State): State
    requires s.contexts != []
  {
    if Top(s).hasLock then WithTop(s, Top(s).(hasLock := false)).(locked := s.locked - {Top(s).app}) else s
  }

  /** The destructor of a context: releases the lock and loads the heap context of the caller. */
  function Popped(s: State): State
    requires |s.contexts| > 1
  {
    var u := Unlocked(s);
    var rest := u.contexts[..|u.contexts| - 1];
    u.(contexts := rest, heapContext := rest[|rest| - 1].app)
  }

  /** The constructor of a handler. */
  function Opened(s: State, f: nat): State
    requires s.contexts != [] && s.handlers != [] && ForwardedGas(Last(s).remaining, f) > MIN_CLOCKS
  {
    var gas := ForwardedGas(Last(s).remaining, f);
    var payer := Last(s).(remaining := Last(s).remaining - gas);
    var made := Handler(Top(s).app, gas, ExternalGas(gas), s.version, |s.contexts|);
    s.(handlers := s.handlers[..|s.handlers| - 1] + [payer, made],
       depth := s.depth + 1, invocations := s.invocations + 1, version := s.version + 1, handed := s.handed + gas)
  }

  /** The destructor of a handler: rolls the heap back unless the call completed. */
  function Closed(s: State, completed: bool): State
    requires |s.handlers| > 1
  {
    s.(handlers := s.handlers[..|s.handlers| - 1], depth := s.depth - 1,
       version := if completed then s.version else Last(s).heapVersion,
       heapContext := Last(s).caller)
  }

  ghost function Next(s: State, step: Step): State
    requires Enabled(s, step)
  {
    match step
    case Push(app) => s.(contexts := s.contexts + [Context(app, false, [])], heapContext := app)
    case Pop => Popped(s)
    case Lock => Locked(s)
    case Unlock => Unlocked(s)
    case Open(f) => Opened(s, f)
    case Close(completed) => Closed(s, completed)
  }

  // ---------- the invariant ----------

  /** Live remaining external gas. */
  function Remaining(hs: seq<Handler>): int {
    if hs == [] then 0 else Remaining(hs[..|hs| - 1]) + hs[|hs| - 1].remaining
  }

  /** Gas handed out so far, plus three times what may still be handed out. */
  function Balance(s: State): int {
    s.handed + 3 * Remaining(s.handlers)
  }

  predicate Holds(c: Context, app: int) {
    c.app == app && c.hasLock
  }

  /** The lock table says exactly which applications have a context with the lock, and there is at most one each. */
  ghost predicate LocksExact(contexts: seq<Context>, locked: set<int>) {
    && (forall i :: 0 <= i < |contexts| && contexts[i].hasLock ==> contexts[i].app in locked)
    && (forall app :: app in locked ==> exists i :: 0 <= i < |contexts| && Holds(contexts[i], app))
    && (forall i, j :: 0 <= i < j < |contexts| && contexts[i].hasLock && contexts[j].hasLock ==>
        contexts[i].app != contexts[j].app)
  }

  /** The handlers nest within the contexts, and each remembers who made it and where to roll back to. */
  ghost predicate Nested(contexts: seq<Context>, handlers: seq<Handler>, version: nat) {
    && (forall i :: 0 <= i < |handlers| ==>
          1 <= handlers[i].level <= |contexts| && contexts[handlers[i].level - 1].app == handlers[i].caller)
    && (forall i, j :: 0 <= i < j < |handlers| ==> handlers[i].level <= handlers[j].level)
    && (forall i :: 1 <= i < |handlers| ==> handlers[i].heapVersion < version)
    && (forall i, j :: 1 <= i < j < |handlers| ==> handlers[i].heapVersion < handlers[j].heapVersion)
  }

  /** No handler is overdrawn; one that was made for a call never runs dry, because the last unit is never forwarded. */
  ghost predicate Funded(handlers: seq<Handler>) {
    forall i :: 0 <= i < |handlers| ==> handlers[i].remaining >= if i == 0 then 0 else 1
  }

  ghost predicate Inv(s: State) {
    && s.contexts != [] && s.handlers != [] && s.handlers[0].level == 1
    && LocksExact(s.contexts, s.locked)
    && s.heapContext == Top(s).app
    && Nested(s.contexts, s.handlers, s.version)
    && Funded(s.handlers)
    && s.depth == |s.handlers|
    && s.version < s.invocations && s.version <= Versions.MAX_VERSION
    && 2 * (s.invocations - 1) <= s.handed
  }

  lemma {:induction false} LockKeeps(s: State)
    requires Inv(s) && Enabled(s, Lock)
    ensures Inv(Locked(s))
  {
    var n := |s.contexts| - 1;
    var t := Locked(s);
    if !Top(s).hasLock {
      assert forall i :: 0 <= i < n ==> t.contexts[i] == s.contexts[i];
      assert Holds(t.contexts[n], Top(s).app);
      forall app | app in t.locked
        ensures exists i :: 0 <= i < |t.contexts| && Holds(t.contexts[i], app)
      {
        if app != Top(s).app {
          var i :| 0 <= i < |s.contexts| && Holds(s.contexts[i], app);
          assert Holds(t.contexts[i], app);
        }
      }
    }
  }

  lemma {:induction false} UnlockKeeps(s: State)
    requires Inv(s)
    ensures Inv(Unlocked(s)) && !Top(Unlocked(s)).hasLock
  {
    var n := |s.contexts| - 1;
    var t := Unlocked(s);
    if Top(s).hasLock {
      assert forall i :: 0 <= i < n ==> t.contexts[i] == s.contexts[i];
      forall app | app in t.locked
        ensures exists i :: 0 <= i < |t.contexts| && Holds(t.contexts[i], app)
      {
        var i :| 0 <= i < |s.contexts| && Holds(s.contexts[i], app);
        assert Holds(t.contexts[i], app);
      }
    }
  }

  lemma {:induction false} PopKeeps(s: State)
    requires Inv(s) && Enabled(s, Pop)
    ensures Inv(Popped(s))
  {
    hide LocksExact, Nested, Unlocked;
    UnlockKeeps(s);
    UnlockedSame(s);
    var u := Unlocked(s);
    LocksWithoutLast(u.contexts, u.locked);
    assert u.handlers[|u.handlers| - 1].level < |u.contexts|;
    NestedWithoutLast(u.contexts, u.handlers, u.version);
  }

  lemma {:induction false} UnlockedSame(s: State)
    requires s.contexts != []
    ensures var u := Unlocked(s); |u.contexts| == |s.contexts| && u.handlers == s.handlers
  {
  }

  lemma {:induction false} LocksWithoutLast(contexts: seq<Context>, locked: set<int>)
    requires LocksExact(contexts, locked) && contexts != [] && !contexts[|contexts| - 1].hasLock
    ensures LocksExact(contexts[..|contexts| - 1], locked)
  {
    var rest := contexts[..|contexts| - 1];
    forall app | app in locked
      ensures exists i :: 0 <= i < |rest| && Holds(rest[i], app)
    {
      var i :| 0 <= i < |contexts| && Holds(contexts[i], app);
      assert Holds(rest[i], app);
    }
  }

  lemma {:induction false} NestedWithoutLast(contexts: seq<Context>, handlers: seq<Handler>, version: nat)
    requires Nested(contexts, handlers, version) && handlers != [] && handlers[|handlers| - 1].level < |contexts|
    ensures Nested(contexts[..|contexts| - 1], handlers, version)
  {
  }

  lemma {:induction false} PushKeeps(s: State, app: int)
    requires Inv(s) && Enabled(s, Push(app))
    ensures Inv(Next(s, Push(app)))
  {
    var t := Next(s, Push(app));
    forall a | a in t.locked
      ensures exists i :: 0 <= i < |t.contexts| && Holds(t.contexts[i], a)
    {
      var i :| 0 <= i < |s.contexts| && Holds(s.contexts[i], a);
      assert Holds(t.contexts[i], a);
    }
  }

  /** The shift takes f parts of 256, rounded down, and at most what remains. */
  lemma {:induction false} ForwardedFits(remaining: int, f: nat)
    requires f < 256
    ensures var gas := ForwardedGas(remaining, f); 256 * gas <= remaining * f < 256 * gas + 256
    ensures remaining >= 0 ==> 0 <= ForwardedGas(remaining, f) <= remaining
    ensures remaining > 0 ==> ForwardedGas(remaining, f) < remaining
    ensures remaining < 0 ==> ForwardedGas(remaining, f) <= 0
  {
    if remaining >= 0 {
      assert 0 <= remaining * f <= remaining * 256;
    } else {
      assert remaining * f <= 0;
    }
  }

  lemma {:induction false} OpenKeeps(s: State, f: nat)
    requires Inv(s) && Enabled(s, Open(f))
    ensures Inv(Opened(s, f))
  {
    hide LocksExact;
    ForwardedFits(Last(s).remaining, f);
    var n := |s.handlers| - 1;
    var t := Opened(s, f);
    assert forall i :: 0 <= i < n ==> t.handlers[i] == s.handlers[i];
    assert t.handlers[n] == s.handlers[n].(remaining := t.handlers[n].remaining);
  }

  lemma {:induction false} CloseKeeps(s: State, completed: bool)
    requires Inv(s) && Enabled(s, Close(completed))
    ensures Inv(Closed(s, completed))
  {
    hide LocksExact;
  }

  /** Every step keeps the invariant. */
  lemma {:induction false} StepKeeps(s: State, step: Step)
    requires Inv(s) && Enabled(s, step)
    ensures Inv(Next(s, step))
  {
    match step
    case Push(app) => PushKeeps(s, app);
    case Pop => PopKeeps(s);
    case Lock => LockKeeps(s);
    case Unlock => UnlockKeeps(s);
    case Open(f) => OpenKeeps(s, f);
    case Close(completed) => CloseKeeps(s, completed);
  }

  // ---------- gas ----------

  lemma {:induction false} RemainingAppend(hs: seq<Handler>, h: Handler)
    ensures Remaining(hs + [h]) == Remaining(hs) + h.remaining
  {
    assert (hs + [h])[..|hs|] == hs;
  }

  lemma {:induction false} RemainingSplit(hs: seq<Handler>)
    requires hs != []
    ensures Remaining(hs) == Remaining(hs[..|hs| - 1]) + hs[|hs| - 1].remaining
  {
  }

  /** Opening an invocation pays for itself, up to rounding: one part is handed out, three are taken and two are
      promised on. */
  lemma {:induction false} OpenConserves(s: State, f: nat)
    requires Inv(s) && Enabled(s, Open(f))
    ensures Balance(s) - 2 <= Balance(Opened(s, f)) <= Balance(s)
  {
    var t := Opened(s, f);
    var n := |s.handlers| - 1;
    var rest, gas := s.handlers[..n], ForwardedGas(Last(s).remaining, f);
    var payer := Last(s).(remaining := Last(s).remaining - gas);
    var h := t.handlers[n + 1];
    assert t.handlers == (rest + [payer]) + [h];
    RemainingAppend(rest + [payer], h);
    RemainingAppend(rest, payer);
    RemainingSplit(s.handlers);
    assert 2 * gas - 2 <= 3 * h.remaining <= 2 * gas;
  }

  /** Total gas handed out plus three times the live remaining gas never grows. */
  lemma {:induction false} StepConserves(s: State, step: Step)
    requires Inv(s) && Enabled(s, step)
    ensures Balance(Next(s, step)) <= Balance(s)
  {
    match step
    case Open(f) => OpenConserves(s, f);
    case Close(completed) => RemainingSplit(s.handlers);
    case _ =>
  }

  // ---------- what a call costs ----------

  /** Two for each invocation made, plus the gas that live handlers may still hand out beyond their last unit. */
  function Cost(s: State): int {
    2 * (s.invocations - 1) + Remaining(s.handlers) - |s.handlers|
  }

  /** An invocation gets at least two and forwards at most two thirds, so of what it takes from its caller two are
      gone. */
  lemma {:induction false} OpenCosts(s: State, f: nat)
    requires Inv(s) && Enabled(s, Open(f))
    ensures Cost(Opened(s, f)) <= Cost(s)
    ensures Last(Opened(s, f)).remaining < ForwardedGas(Last(s).remaining, f)
  {
    var t := Opened(s, f);
    var n := |s.handlers| - 1;
    var rest, gas := s.handlers[..n], ForwardedGas(Last(s).remaining, f);
    var payer := Last(s).(remaining := Last(s).remaining - gas);
    var h := t.handlers[n + 1];
    assert t.handlers == (rest + [payer]) + [h];
    RemainingAppend(rest + [payer], h);
    RemainingAppend(rest, payer);
    RemainingSplit(s.handlers);
  }

  lemma {:induction false} StepCosts(s: State, step: Step)
    requires Inv(s) && Enabled(s, step)
    ensures Cost(Next(s, step)) <= Cost(s)
  {
    match step
    case Open(f) => OpenCosts(s, f);
    case Close(completed) => RemainingSplit(s.handlers);
    case _ =>
  }

  /** All handlers but the root have their last unit. */
  lemma {:induction false} RemainingAtLeast(hs: seq<Handler>)
    requires Funded(hs)
    ensures hs != [] ==> Remaining(hs) >= |hs| - 1
  {
    if |hs| == 1 {
      assert hs[..0] == [];
    } else if |hs| > 1 {
      RemainingAtLeast(hs[..|hs| - 1]);
    }
  }

  lemma {:induction false} RemainingNonNegative(hs: seq<Handler>)
    requires Funded(hs)
    ensures Remaining(hs) >= 0
  {
    if hs != [] {
      RemainingNonNegative(hs[..|hs| - 1]);
    }
  }

  /** The balance bounds the invocations made so far: each got at least two. */
  lemma {:induction false} BalanceBounds(s: State)
    requires Inv(s)
    ensures 2 * (s.invocations - 1) <= s.handed <= Balance(s)
  {
    RemainingNonNegative(s.handlers);
  }

  // ---------- whole runs ----------

  ghost predicate IsRun(ss: seq<State>, steps: seq<Step>, initialGas: nat) {
    && |ss| == |steps| + 1 && ss[0] == Initial(initialGas)
    && forall k :: 0 <= k < |steps| ==> Enabled(ss[k], steps[k]) && ss[k + 1] == Next(ss[k], steps[k])
  }

  lemma {:induction false} InitialInv(initialGas: nat)
    ensures Inv(Initial(initialGas)) && Balance(Initial(initialGas)) == 3 * initialGas
    ensures Cost(Initial(initialGas)) == initialGas - 1
  {
    RemainingAppend([], Initial(initialGas).handlers[0]);
    assert [] + Initial(initialGas).handlers == Initial(initialGas).handlers;
  }

  lemma {:induction false} RunKeeps(ss: seq<State>, steps: seq<Step>, initialGas: nat, k: nat)
    requires IsRun(ss, steps, initialGas) && k <= |steps|
    ensures Inv(ss[k]) && Balance(ss[k]) <= 3 * initialGas && Cost(ss[k]) <= initialGas - 1
  {
    if k == 0 {
      InitialInv(initialGas);
    } else {
      RunKeeps(ss, steps, initialGas, k - 1);
      StepKeeps(ss[k - 1], steps[k - 1]);
      StepConserves(ss[k - 1], steps[k - 1]);
      StepCosts(ss[k - 1], steps[k - 1]);
    }
  }

  /** In every reachable state no handler is overdrawn, and at most half as many invocations were made as there was
      gas. */
  lemma {:induction false} GasBoundsInvocations(ss: seq<State>, steps: seq<Step>, initialGas: nat, k: nat)
    requires IsRun(ss, steps, initialGas) && k <= |steps|
    ensures Balance(ss[k]) <= 3 * initialGas
    ensures 2 * (ss[k].invocations - 1) <= initialGas
    ensures forall i :: 0 <= i < |ss[k].handlers| ==> ss[k].handlers[i].remaining >= 0
  {
    RunKeeps(ss, steps, initialGas, k);
    RemainingAtLeast(ss[k].handlers);
  }

  /** In every reachable state an application is locked exactly when one live context of it has the lock. */
  lemma {:induction false} LockedExactlyOnce(ss: seq<State>, steps: seq<Step>, initialGas: nat, k: nat, app: int)
    requires IsRun(ss, steps, initialGas) && k <= |steps|
    ensures app in ss[k].locked <==> exists i :: 0 <= i < |ss[k].contexts| && Holds(ss[k].contexts[i], app)
    ensures var cs := ss[k].contexts;
            forall i, j :: 0 <= i < j < |cs| ==> !(Holds(cs[i], app) && Holds(cs[j], app))
  {
    RunKeeps(ss, steps, initialGas, k);
  }

  /** A call that fails rolls the heap back to a version that exists, and every call leaves the heap context of the
      caller loaded. */
  lemma {:induction false} RollbackIsSafe(ss: seq<State>, steps: seq<Step>, initialGas: nat, k: nat)
    requires IsRun(ss, steps, initialGas) && k < |steps|
    ensures steps[k] == Close(false) ==> Last(ss[k]).heapVersion < ss[k].version
    ensures ss[k + 1].heapContext == Top(ss[k + 1]).app
  {
    RunKeeps(ss, steps, initialGas, k);
    RunKeeps(ss, steps, initialGas, k + 1);
  }

  /** The version limit is out of reach for small budgets: with less than 60000 gas no save is ever refused. */
  lemma {:induction false} VersionsSuffice(ss: seq<State>, steps: seq<Step>, initialGas: nat, k: nat)
    requires IsRun(ss, steps, initialGas) && k <= |steps| && initialGas < 2 * Versions.MAX_VERSION
    ensures ss[k].version < Versions.MAX_VERSION
  {
    GasBoundsInvocations(ss, steps, initialGas, k);
    RunKeeps(ss, steps, initialGas, k);
  }
}
