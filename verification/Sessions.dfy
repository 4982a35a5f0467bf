/** The call machinery as it runs (src/ascee/argc/functions/invoke.cpp:27-116, src/ascee/executor/Executor.cpp:146-168,
    209-294): a session object whose methods are steps of `CallStack`, and the recursive control flow of nested and
    deferred calls over arbitrary application programs. */
module Sessions {
  import Versions
  import opened CallStack

  datatype Outcome = Normal(code: int) | Error

  /** The status code of a failed call; every error code is at least 400. */
  const FAILED: int := 400

  function Size(p: Program): nat {
    match p
    case Return(_) => 1
    case Fail => 1
    case EnterArea(rest) => 1 + Size(rest)
    case ExitArea(rest) => 1 + Size(rest)
    case Invoke(_, _, body, rest) => 1 + Size(body) + Size(rest)
    case InvokeDeferred(_, body, rest) => 1 + Size(body) + Size(rest)
  }

  /** The deferred calls added since, all of them smaller than `bound`. */
  ghost predicate Deferring(before: seq<Deferred>, after: seq<Deferred>, bound: nat) {
    && |before| <= |after| && after[..|before|] == before
    && forall i :: |before| <= i < |after| ==> Size(after[i].body) < bound
  }

  /** Nothing but the remaining gas of the newest handler changed, and that only went down. */
  ghost predicate Spent(before: seq<Handler>, after: seq<Handler>) {
    && |before| == |after| > 0
    && after == before[|before| - 1 := before[|before| - 1].(remaining := after[|before| - 1].remaining)]
    && after[|before| - 1].remaining <= before[|before| - 1].remaining
  }

  function AppsOf(calls: seq<Deferred>): seq<int> {
    if calls == [] then [] else AppsOf(calls[..|calls| - 1]) + [calls[|calls| - 1].app]
  }

  /** The calls that the program defers when it runs to its end. */
  function Defers(p: Program): seq<Deferred> {
    match p
    case Return(_) => []
    case Fail => []
    case EnterArea(rest) => Defers(rest)
    case ExitArea(rest) => Defers(rest)
    case Invoke(_, _, _, rest) => Defers(rest)
    case InvokeDeferred(app, body, rest) => [Deferred(app, body)] + Defers(rest)
  }

  lemma {:induction false} DefersSmaller(p: Program)
    ensures forall i :: 0 <= i < |Defers(p)| ==> Size(Defers(p)[i].body) < Size(p)
  {
    if !p.Return? && !p.Fail? {
      DefersSmaller(p.rest);
    }
  }

  // ---------- how programs and calls end ----------

  /** How the code of a context ends, if it has the lock of its application or another context has. */
  function Ending(p: Program, has: bool, taken: bool): Outcome {
    match p
    case Return(code) => Normal(code)
    case Fail => Error
    case EnterArea(rest) => if !has && taken then Error else Ending(rest, true, taken)
    case ExitArea(rest) => Ending(rest, false, taken)
    case Invoke(_, _, _, rest) => Ending(rest, has, taken)
    case InvokeDeferred(_, _, rest) => Ending(rest, has, taken)
  }

  /** The last thing that the program does. */
  function Final(p: Program): (f: Program)
    ensures f.Return? || f.Fail?
  {
    if p.Return? || p.Fail? then p else Final(p.rest)
  }

  predicate Enters(p: Program) {
    p.EnterArea? || (!p.Return? && !p.Fail? && Enters(p.rest))
  }

  /** A program ends with the code of its `Return`, unless it wants a lock that another context has. */
  lemma {:induction false} EndsWithItsCode(p: Program, has: bool, taken: bool)
    requires has ==> !taken
    ensures Ending(p, has, taken) ==
            if Final(p).Fail? || (taken && Enters(p)) then Error else Normal(Final(p).code)
  {
    if !p.Return? && !p.Fail? && !(p.EnterArea? && !has && taken) {
      EndsWithItsCode(p.rest, if p.EnterArea? then true else if p.ExitArea? then false else has, taken);
    }
  }

  /** How a call ends: the callee must exist and not be the caller itself, its code must end below 400, and all calls
      that it defers must succeed. */
  function CallOutcome(apps: set<int>, caller: int, locked: set<int>, app: int, body: Program): Outcome
    decreases Size(body), 1
  {
    if app !in apps || app == caller then Error
    else
      var r := Ending(body, false, app in locked);
      DefersSmaller(body);
      if r == Error || r.code >= 400 || !AllSucceed(apps, app, locked, Defers(body), Size(body)) then Error else r
  }

  predicate AllSucceed(apps: set<int>, caller: int, locked: set<int>, calls: seq<Deferred>, bound: nat)
    requires forall i :: 0 <= i < |calls| ==> Size(calls[i].body) < bound
    decreases bound, 0
  {
    forall i :: 0 <= i < |calls| ==> CallOutcome(apps, caller, locked, calls[i].app, calls[i].body).Normal?
  }

  function CodeOf(r: Outcome): int {
    if r.Normal? then r.code else FAILED
  }

  /** A call succeeds exactly under these conditions, and then returns the code of its application. */
  lemma {:induction false} CallSucceeds(apps: set<int>, caller: int, locked: set<int>, app: int, body: Program,
                                        code: int)
    ensures CallOutcome(apps, caller, locked, app, body) == Normal(code) <==>
            && app in apps && app != caller && Final(body) == Return(code) && code < 400
            && !(app in locked && Enters(body))
            && forall d :: d in Defers(body) ==> CallOutcome(apps, app, locked, d.app, d.body).Normal?
  {
    EndsWithItsCode(body, false, app in locked);
    DefersSmaller(body);
    if forall d :: d in Defers(body) ==> CallOutcome(apps, app, locked, d.app, d.body).Normal? {
      forall i | 0 <= i < |Defers(body)|
        ensures CallOutcome(apps, app, locked, Defers(body)[i].app, Defers(body)[i].body).Normal?
      {
        assert Defers(body)[i] in Defers(body);
      }
    }
  }

  /** The first sequence is contained in the second, in order. */
  ghost predicate Embeds(xs: seq<int>, ys: seq<int>)
    decreases |ys|
  {
    xs == [] || (ys != [] &&
                 ((xs[|xs| - 1] == ys[|ys| - 1] && Embeds(xs[..|xs| - 1], ys[..|ys| - 1])) ||
                     Embeds(xs, ys[..|ys| - 1])))
  }

  lemma {:induction false} AppsAppend(calls: seq<Deferred>, d: Deferred)
    ensures AppsOf(calls + [d]) == AppsOf(calls) + [d.app]
  {
    assert (calls + [d])[..|calls|] == calls;
  }

  lemma {:induction false} EmbedsConcat(xs: seq<int>, ys: seq<int>, vs: seq<int>, ws: seq<int>)
    requires Embeds(xs, ys) && Embeds(vs, ws)
    ensures Embeds(xs + vs, ys + ws)
    decreases |ws|
  {
    if ws == [] {
      assert xs + vs == xs && ys + ws == ys;
    } else {
      var w := ws[..|ws| - 1];
      assert (ys + ws)[..|ys + ws| - 1] == ys + w;
      if vs == [] || Embeds(vs, w) {
        EmbedsConcat(xs, ys, vs, w);
      } else {
        var v := vs[..|vs| - 1];
        assert (xs + vs)[..|xs + vs| - 1] == xs + v;
        EmbedsConcat(xs, ys, v, w);
      }
    }
  }

  lemma {:induction false} EmbedsHead(x: int, ys: seq<int>)
    requires ys != [] && ys[0] == x
    ensures Embeds([x], ys)
    decreases |ys|
  {
    if |ys| > 1 {
      EmbedsHead(x, ys[..|ys| - 1]);
    }
  }

  /** A deferred call was added to those performed. */
  lemma {:induction false} EmbedsNext(xs: seq<int>, x: int, start: seq<int>, before: seq<int>, after: seq<int>)
    requires start <= before <= after && Embeds(xs, before[|start|..]) && |after| > |before| && after[|before|] == x
    ensures Embeds(xs + [x], after[|start|..])
  {
    var more := after[|before|..];
    EmbedsHead(x, more);
    EmbedsConcat(xs, before[|start|..], [x], more);
    assert before[|start|..] + more == after[|start|..];
  }

  /** Since `start`, the first i of these calls were made, in order. */
  ghost predicate Entered(calls: seq<Deferred>, i: nat, start: seq<int>, log: seq<int>) {
    i <= |calls| && start <= log && Embeds(AppsOf(calls[..i]), log[|start|..])
  }

  lemma {:induction false} NothingEntered(calls: seq<Deferred>, log: seq<int>)
    ensures Entered(calls, 0, log, log)
  {
  }

  lemma {:induction false} EnteredGrows(calls: seq<Deferred>, i: nat, start: seq<int>, before: seq<int>,
                                        after: seq<int>)
    requires Entered(calls, i, start, before) && before <= after
    ensures start <= after
  {
  }

  lemma {:induction false} EnteredNext(calls: seq<Deferred>, i: nat, start: seq<int>, before: seq<int>, after: seq<int>)
    requires i < |calls| && Entered(calls, i, start, before)
    requires before <= after && |after| > |before| && after[|before|] == calls[i].app
    ensures Entered(calls, i + 1, start, after)
  {
    AppsAppend(calls[..i], calls[i]);
    assert calls[..i + 1] == calls[..i] + [calls[i]];
    EmbedsNext(AppsOf(calls[..i]), calls[i].app, start, before, after);
  }

  lemma {:induction false} EnteredAll(calls: seq<Deferred>, start: seq<int>, log: seq<int>)
    requires Entered(calls, |calls|, start, log)
    ensures start <= log && Embeds(AppsOf(calls), log[|start|..])
  {
    assert calls[..|calls|] == calls;
  }

  /** A call: the application itself, what happened inside, and then the deferred calls. */
  lemma {:induction false} EmbedsCall(app: int, deferred: seq<int>, start: seq<int>, entered: seq<int>, after: seq<int>)
    requires start + [app] <= entered <= after && Embeds(deferred, after[|entered|..])
    ensures |after| > |start| && after[|start|] == app && Embeds([app] + deferred, after[|start|..])
  {
    var inside := entered[|start|..];
    EmbedsHead(app, inside);
    EmbedsConcat([app], inside, deferred, after[|entered|..]);
    assert inside + after[|entered|..] == after[|start|..];
  }

  lemma {:induction false} UnlockedDeferred(s: State)
    requires s.contexts != []
    ensures Top(Unlocked(s)).deferred == Top(s).deferred && Top(Unlocked(s)).app == Top(s).app &&
            !Top(Unlocked(s)).hasLock
  {
  }

  class Session {
    /** The applications that the request may call. */
    const apps: set<int>
    var contexts: seq<Context>
    var isLocked: set<int>
    var heapContext: int
    var handlers: seq<Handler>
    var callDepth: int
    var lastGeneratedID: nat
    var currentVersion: nat
    ghost var handed: int
    /** The applications entered so far. */
    ghost var log: seq<int>
    /** A handler's constructor threw half-way: its object is gone but still registered, and the depth stays raised. */
    var dangling: bool

    ghost function AsState(): State
      reads this
    {
      State(contexts, isLocked, heapContext, handlers, callDepth, lastGeneratedID, currentVersion, handed)
    }

    ghost predicate Valid()
      reads this
    {
      Inv(AsState())
    }

    constructor (apps: set<int>, initialGas: nat)
      ensures Valid() && AsState() == Initial(initialGas) && !dangling && this.apps == apps && log == []
    {
      this.apps := apps;
      contexts, isLocked, heapContext := [Context(0, false, [])], {}, 0;
      handlers, callDepth, lastGeneratedID := [Handler(0, 0, initialGas, 0, 1)], 1, 1;
      currentVersion, handed, dangling, log := 0, 0, false, [];
      new;
      InitialInv(initialGas);
    }

    /** `enter_area`: false when it throws. */
    method Enter() returns (entered: bool)
      requires Valid()
      modifies this`contexts, this`isLocked
      ensures Valid()
      ensures entered <==> Enabled(old(AsState()), Lock)
      ensures AsState() == if entered then Next(old(AsState()), Lock) else old(AsState())
    {
      hide LocksExact, Nested, Funded;
      var n := |contexts| - 1;
      if contexts[n].hasLock {
        return true;
      }
      var app := contexts[n].app;
      if app in isLocked {
        return false;
      }
      StepKeeps(AsState(), Lock);
      isLocked := isLocked + {app};
      contexts := contexts[n := contexts[n].(hasLock := true)];
      return true;
    }

    /** `exit_area` */
    method Leave()
      requires Valid()
      modifies this`contexts, this`isLocked
      ensures Valid() && AsState() == Next(old(AsState()), Unlock)
    {
      hide LocksExact, Nested, Funded;
      StepKeeps(AsState(), Unlock);
      var n := |contexts| - 1;
      if contexts[n].hasLock {
        isLocked := isLocked - {contexts[n].app};
        contexts := contexts[n := contexts[n].(hasLock := false)];
      }
    }

    /** The constructor of `CallContext`: false when it throws. */
    method PushContext(app: int) returns (pushed: bool)
      requires Valid()
      modifies this`contexts, this`heapContext, this`log
      ensures Valid() && log == if pushed then old(log) + [app] else old(log)
      ensures pushed <==> Enabled(old(AsState()), Push(app))
      ensures AsState() == if pushed then Next(old(AsState()), Push(app)) else old(AsState())
    {
      hide LocksExact, Nested, Funded;
      if contexts[|contexts| - 1].app == app {
        return false;
      }
      StepKeeps(AsState(), Push(app));
      contexts := contexts + [Context(app, false, [])];
      heapContext, log := app, log + [app];
      return true;
    }

    /** The destructor of `CallContext`. */
    method PopContext()
      requires Valid() && Enabled(AsState(), Pop)
      modifies this`contexts, this`isLocked, this`heapContext
      ensures Valid() && AsState() == Next(old(AsState()), Pop)
    {
      hide LocksExact, Nested, Funded;
      StepKeeps(AsState(), Pop);
      Leave();
      contexts := contexts[..|contexts| - 1];
      heapContext := contexts[|contexts| - 1].app;
    }

    /** The constructor of a controlled `CallResourceHandler`: false when it throws. It throws harmlessly when the
        forwarded gas is too low; at the version limit it throws too late. */
    method OpenHandler(forwardedGas: nat) returns (made: bool)
      requires Valid() && !dangling && forwardedGas < 256
      modifies this`handlers, this`callDepth, this`lastGeneratedID, this`currentVersion, this`handed, this`dangling
      ensures made <==> Enabled(old(AsState()), Open(forwardedGas))
      ensures made ==> Valid() && AsState() == Next(old(AsState()), Open(forwardedGas))
      ensures dangling <==> !made && ForwardedGas(Last(old(AsState())).remaining, forwardedGas) > MIN_CLOCKS
      ensures !made && !dangling ==> AsState() == old(AsState())
      ensures dangling ==> callDepth == old(callDepth) + 1
      ensures dangling ==> Versions.MAX_VERSION < old(lastGeneratedID)
    {
      hide LocksExact, Nested, Funded;
      var n := |handlers| - 1;
      var gas := ForwardedGas(handlers[n].remaining, forwardedGas);
      if gas <= MIN_CLOCKS {
        return false;
      }
      ghost var s := AsState();
      lastGeneratedID, callDepth := lastGeneratedID + 1, callDepth + 1;
      var payer := handlers[n].(remaining := handlers[n].remaining - gas);
      var caller := contexts[|contexts| - 1].app;
      handlers := handlers[..n] + [payer, Handler(caller, gas, ExternalGas(gas), currentVersion, |contexts|)];
      if currentVersion == Versions.MAX_VERSION {
        dangling := true;
        return false;
      }
      StepKeeps(s, Open(forwardedGas));
      currentVersion, handed := currentVersion + 1, handed + gas;
      return true;
    }

    /** The destructor of a controlled `CallResourceHandler`. */
    method CloseHandler(completed: bool)
      requires Valid() && Enabled(AsState(), Close(completed))
      modifies this`handlers, this`callDepth, this`currentVersion, this`heapContext
      ensures Valid() && AsState() == Next(old(AsState()), Close(completed))
    {
      hide LocksExact, Nested, Funded;
      StepKeeps(AsState(), Close(completed));
      var h := handlers[|handlers| - 1];
      handlers, callDepth := handlers[..|handlers| - 1], callDepth - 1;
      if !completed {
        currentVersion := h.heapVersion;
      }
      heapContext := h.caller;
    }

    /** `invoke_deferred` */
    method Defer(app: int, body: Program)
      requires Valid()
      modifies this`contexts
      ensures Valid() && Within(old(AsState()), AsState(), Size(body) + 1)
      ensures AsState() == WithTop(old(AsState()),
              Top(old(AsState())).(deferred := Top(old(AsState())).deferred + [Deferred(app, body)]))
    {
      ghost var s := AsState();
      var n := |contexts| - 1;
      assert n >= 0;
      hide Inv, Within;
      contexts := contexts[n := contexts[n].(deferred := contexts[n].deferred + [Deferred(app, body)])];
      DeferKeeps(s, Deferred(app, body));
    }

    /** Runs application code in the newest context. An error passes through the application. */
    method RunBody(p: Program) returns (r: Outcome)
      requires callDepth <= 16
      requires Valid() && !dangling
      modifies this
      ensures !dangling ==> Valid() && Within(old(AsState()), AsState(), Size(p))
      ensures dangling ==> 2 * Versions.MAX_VERSION <= Own(old(AsState()))
      ensures old(log) <= log
      ensures !dangling ==> r == Ending(p, HasLock(old(AsState())), LockTaken(old(AsState())))
      ensures !dangling && r.Normal? ==> Top(AsState()).deferred == Top(old(AsState())).deferred + Defers(p)
      decreases Size(p), 0
    {
      hide Inv, Within, Quiet, Locked, Unlocked;
      ghost var s := AsState();
      WithinSelf(s, Size(p));
      if p.Return? {
        return Normal(p.code);
      }
      if p.Fail? {
        return Error;
      }
      match p {
      case EnterArea(_) =>
        var entered := Enter();
        if !entered {
          return Error;
        }
        WithinLock(s);
      case ExitArea(_) =>
        Leave();
        WithinLock(s);
      case Invoke(forwardedGas, app, body, _) =>
        var _ := ExecuteApp(forwardedGas % 256, app, body);
        if dangling {
          return Error;
        }
        WithinQuiet(s, AsState());
      case InvokeDeferred(app, body, _) =>
        Defer(app, body);
      }
      ghost var t := AsState();
      assert Within(s, t, if p.InvokeDeferred? then Size(p.body) + 1 else 0);
      WithinOwn(s, t, if p.InvokeDeferred? then Size(p.body) + 1 else 0);
      assert Top(t).deferred == Top(s).deferred + if p.InvokeDeferred? then [Deferred(p.app, p.body)] else [];
      r := RunBody(p.rest);
      if !dangling {
        WithinTrans(s, t, AsState(), if p.InvokeDeferred? then Size(p.body) + 1 else 0, Size(p.rest), Size(p));
      }
    }

    /** `dependant_call`: however it ends, the contexts, the locks and the heap context are those of the caller. */
    method DependantCall(app: int, body: Program) returns (r: Outcome)
      requires callDepth <= 16
      requires Valid() && !dangling
      modifies this
      ensures !dangling ==> Valid() && Quiet(old(AsState()), AsState())
      ensures dangling ==> 2 * Versions.MAX_VERSION <= Own(old(AsState()))
      ensures !dangling ==> r == CallOutcome(apps, Top(old(AsState())).app, old(isLocked), app, body)
      ensures old(log) <= log
      ensures app !in apps || app == Top(old(AsState())).app ==> !dangling && log == old(log)
      ensures app in apps && app != Top(old(AsState())).app ==> old(log) + [app] <= log
      ensures !dangling && r.Normal? ==>
                && |log| > |old(log)| && log[|old(log)|] == app
                && Embeds([app] + AppsOf(Defers(body)), log[|old(log)|..])
      decreases Size(body), 4
    {
      ghost var s := AsState();
      QuietSelf(s);
      assert Enabled(s, Push(app)) <==> app != Top(s).app;
      hide Inv, Over, Quiet, Popped, Embeds, Defers, AppsOf, Size, Own, CallOutcome, Enabled, Next, Top;
      RefusedCalls(apps, Top(s).app, s.locked, app, body);
      if app !in apps {
        return Error;
      }
      var pushed := PushContext(app);
      if !pushed {
        return Error;
      }
      r := RunAndPop(app, body, s, old(log));
    }

    /** The rest of a call once its context is pushed. */
    method RunAndPop(app: int, body: Program, ghost s: State, ghost start: seq<int>) returns (r: Outcome)
      requires callDepth <= 16
      requires Valid() && !dangling && Inv(s) && Enabled(s, Push(app)) && AsState() == Next(s, Push(app))
      requires app in apps && log == start + [app]
      modifies this
      ensures !dangling ==> Valid() && Quiet(s, AsState())
      ensures dangling ==> s.handlers != [] && 2 * Versions.MAX_VERSION <= Own(s)
      ensures !dangling ==> s.contexts != [] && r == CallOutcome(apps, Top(s).app, s.locked, app, body)
      ensures start + [app] <= log
      ensures !dangling && r.Normal? ==>
                |log| > |start| && log[|start|] == app && Embeds([app] + AppsOf(Defers(body)), log[|start|..])
      decreases Size(body), 3
    {
      hide Inv, Over, Quiet, Popped, Embeds, Defers, AppsOf, Size, Own, CallOutcome, Enabled, Next, Top;
      r := RunContext(app, body, s, start);
      if dangling {
        return;
      }
      OverPops(s, AsState());
      PopContext();
    }

    /** What happens in the context of a call, once it is pushed: the body, and then the calls it deferred. */
    method RunContext(app: int, body: Program, ghost s: State, ghost start: seq<int>) returns (r: Outcome)
      requires callDepth <= 16
      requires Valid() && !dangling && Inv(s) && Enabled(s, Push(app)) && AsState() == Next(s, Push(app))
      requires app in apps && log == start + [app]
      modifies this
      ensures !dangling ==> Valid() && Over(s, AsState())
      ensures dangling ==> s.handlers != [] && 2 * Versions.MAX_VERSION <= Own(s)
      ensures !dangling ==> s.contexts != [] && r == CallOutcome(apps, Top(s).app, s.locked, app, body)
      ensures start + [app] <= log
      ensures !dangling && r.Normal? ==>
                |log| > |start| && log[|start|] == app && Embeds([app] + AppsOf(Defers(body)), log[|start|..])
      decreases Size(body), 2
    {
      hide Within, Over, Locked, Unlocked, Embeds, Defers, AppsOf, Size, AllSucceed, Remaining, LocksExact, Nested,
          Funded;
      PushedFacts(s, app);
      DefersSmaller(body);
      CallSteps(apps, Top(s).app, s.locked, app, body);
      hide Inv, Own, CallOutcome, Ending;
      r := RunBody(body);
      if dangling {
        return Error;
      }
      ghost var u := AsState();
      WithinPushed(s, app, u, Size(body));
      if r == Error || r.code >= 400 {
        return Error;
      }
      Leave();
      UnlockedDeferred(u);
      SameLocks(s, AsState());
      assert Top(AsState()).deferred == Defers(body) && Top(AsState()).app == app;
      ghost var entered := log;
      var failed := PerformDeferred(s, Size(body));
      if failed {
        return Error;
      }
      EmbedsCall(app, AppsOf(Defers(body)), start, entered, log);
    }

    /** The deferred calls of the newest context, in order, until one fails. */
    method PerformDeferred(ghost s: State, ghost bound: nat) returns (failed: bool)
      requires callDepth <= 16
      requires Valid() && !dangling && Over(s, AsState()) && !Top(AsState()).hasLock
      requires forall i :: 0 <= i < |Top(AsState()).deferred| ==> Size(Top(AsState()).deferred[i].body) < bound
      modifies this
      ensures !dangling ==> Valid() && Over(s, AsState())
      ensures dangling ==> failed && 2 * Versions.MAX_VERSION <= Own(s)
      ensures !dangling ==>
                (failed <==> !AllSucceed(apps, Top(old(AsState())).app, old(isLocked), Top(old(AsState())).deferred,
                    bound))
      ensures old(log) <= log
      ensures !dangling && !failed ==> Embeds(AppsOf(Top(old(AsState())).deferred), log[|old(log)|..])
      decreases bound, 1
    {
      ghost var t := AsState();
      var calls := contexts[|contexts| - 1].deferred;
      assert forall i :: 0 <= i < |calls| ==> Size(calls[i].body) < bound;
      NothingEntered(calls, log);
      hide Inv, Quiet, Over, Embeds, Entered, AppsOf, Size, Own, CallOutcome, FirstSucceed, AllSucceed;
      QuietSelf(t);
      NoneYet(apps, t, calls);
      var i := 0;
      while i < |calls|
        invariant 0 <= i <= |calls| && !dangling && Valid() && Quiet(t, AsState())
        invariant Entered(calls, i, old(log), log) && FirstSucceed(apps, t, calls, i)
      {
        var ok := PerformOne(s, t, calls, i, old(log), bound);
        if !ok {
          return true;
        }
        i := i + 1;
      }
      EnteredAll(calls, old(log), log);
      AllOfThem(apps, t, calls, bound);
      OverQuiet(s, t, AsState());
      return false;
    }

    /** The deferred call i; t is the state before the first of them. */
    method PerformOne(ghost s: State, ghost t: State, calls: seq<Deferred>, i: nat, ghost start: seq<int>,
                      ghost bound: nat)
      returns (ok: bool)
      requires callDepth <= 16
      requires Valid() && !dangling && Over(s, t) && Quiet(t, AsState()) && i < |calls|
      requires Entered(calls, i, start, log) && FirstSucceed(apps, t, calls, i)
      requires forall k :: 0 <= k < |calls| ==> Size(calls[k].body) < bound
      modifies this
      ensures !dangling ==> Valid() && Quiet(t, AsState()) && Over(s, AsState())
      ensures dangling ==> !ok && s.handlers != [] && 2 * Versions.MAX_VERSION <= Own(s)
      ensures start <= log
      ensures !dangling && ok ==> Entered(calls, i + 1, start, log) && FirstSucceed(apps, t, calls, i + 1)
      ensures !dangling && !ok ==> t.contexts != [] && !AllSucceed(apps, Top(t).app, t.locked, calls, bound)
      decreases bound, 0
    {
      hide Inv, Quiet, Over, Embeds, Entered, AppsOf, Size, Own, CallOutcome, FirstSucceed, AllSucceed;
      ghost var u := AsState();
      ghost var before := log;
      OverQuiet(s, t, u);
      QuietSame(t, u);
      HasContext(apps, t, calls, i);
      var r := DependantCall(calls[i].app, calls[i].body);
      EnteredGrows(calls, i, start, before, log);
      if dangling {
        return false;
      }
      QuietTrans(t, u, AsState());
      OverQuiet(s, t, AsState());
      OneMore(apps, t, calls, i, r);
      if r == Error {
        return false;
      }
      EnteredNext(calls, i, start, before, log);
      return true;
    }

    /** `executeApp` of the controlled caller: on failure the heap is back at the version before the call. */
    method ExecuteApp(forwardedGas: nat, app: int, body: Program) returns (code: int)
      requires Valid() && !dangling && forwardedGas < 256
      modifies this
      ensures !dangling ==> Valid() && Quiet(old(AsState()), AsState())
      ensures dangling ==> 2 * Versions.MAX_VERSION <= Own(old(AsState()))
      ensures dangling ==>
                var gas := ForwardedGas(Last(old(AsState())).remaining, forwardedGas);
                gas > MIN_CLOCKS && 2 * Versions.MAX_VERSION <= 2 * old(lastGeneratedID) + ExternalGas(gas)
      ensures old(log) <= log
      ensures !dangling && code < 400 ==> Embeds([app] + AppsOf(Defers(body)), log[|old(log)|..])
      ensures !dangling && code >= 400 ==> currentVersion == old(currentVersion)
      ensures !dangling && code < 400 ==> currentVersion > old(currentVersion)
      ensures !dangling ==>
                code == if TooDeepOrPoor(old(AsState()), forwardedGas) then FAILED
                        else CodeOf(CallOutcome(apps, Top(old(AsState())).app, old(isLocked), app, body))
      ensures !dangling && TooDeepOrPoor(old(AsState()), forwardedGas) ==> log == old(log)
      decreases Size(body), 5
    {
      hide Inv, Quiet, Opened, Closed, CallOutcome;
      ghost var s := AsState();
      QuietSelf(s);
      ghost var paid := ForwardedGas(Last(s).remaining, forwardedGas) > MIN_CLOCKS;
      if paid {
        OpenedOwn(s, forwardedGas);
      }
      var made := OpenHandler(forwardedGas);
      if !made {
        return FAILED;
      }
      ghost var t := AsState();
      QuietSelf(t);
      code := FAILED;
      if callDepth <= MAX_CALL_DEPTH {
        var r := DependantCall(app, body);
        if dangling {
          return;
        }
        if r.Normal? {
          code := r.code;
        }
      }
      OpenedThenQuiet(s, forwardedGas, AsState(), code < 400);
      CloseHandler(code < 400);
    }
  }

  /** `executeOne` under controlled execution. With less than 90350 gas no handler is left dangling, however the
      applications behave: the call machinery ends as it began, and each invocation cost at least two. */
  method ExecuteOne(apps: set<int>, initialGas: nat, app: int, body: Program) returns (code: int, session: Session)
    ensures session.dangling ==> initialGas >= 90350
    ensures !session.dangling ==>
              && session.contexts == [Context(0, false, [])] && session.isLocked == {} && session.heapContext == 0
              && session.callDepth == 1 && |session.handlers| == 1 && 0 <= session.handlers[0].remaining <= initialGas
              && 2 * (session.lastGeneratedID - 1) + session.handlers[0].remaining <= initialGas
              && (code >= 400 <==> session.currentVersion == 0)
              && code == (if ForwardedGas(initialGas, 255) <= MIN_CLOCKS then FAILED
                          else CodeOf(CallOutcome(apps, 0, {}, app, body)))
  {
    session := new Session(apps, initialGas);
    InitialInv(initialGas);
    code := session.ExecuteApp(255, app, body);
  }

  // ---------- what code may do to the session ----------

  /** Two for each invocation made, plus what the newest handler may still hand out. */
  function Own(s: State): int
    requires s.handlers != []
  {
    2 * (s.invocations - 1) + Last(s).remaining
  }

  /** Code running in the newest context: it may lock or unlock it and add deferred calls, and spend gas. */
  ghost predicate Within(s: State, t: State, bound: nat) {
    && s.contexts != [] && s.handlers != []
    && |t.contexts| == |s.contexts|
    && t.contexts[..|t.contexts| - 1] == s.contexts[..|s.contexts| - 1]
    && Top(t).app == Top(s).app && Deferring(Top(s).deferred, Top(t).deferred, bound)
    && t.depth == s.depth
    && Spent(s.handlers, t.handlers)
    && t.version >= s.version
    && Own(t) <= Own(s)
  }

  function HasLock(s: State): bool
    requires s.contexts != []
  {
    Top(s).hasLock
  }

  /** Another context of the application has its lock. */
  function LockTaken(s: State): bool
    requires s.contexts != []
  {
    !Top(s).hasLock && Top(s).app in s.locked
  }

  /** A call that is refused before anything is entered: the gas is too low, or the call depth is reached. */
  predicate TooDeepOrPoor(s: State, forwardedGas: nat)
    requires s.handlers != []
  {
    s.depth >= MAX_CALL_DEPTH || ForwardedGas(Last(s).remaining, forwardedGas) <= MIN_CLOCKS
  }

  /** A whole call: it may only spend gas and save versions. */
  ghost predicate Quiet(s: State, t: State) {
    && t.contexts == s.contexts && t.locked == s.locked && t.heapContext == s.heapContext && t.depth == s.depth
    && Spent(s.handlers, t.handlers)
    && t.version >= s.version
    && Own(t) <= Own(s)
  }

  /** One context more than `s`, otherwise as after a call. */
  ghost predicate Over(s: State, t: State) {
    && s.contexts != [] && s.handlers != []
    && |t.contexts| == |s.contexts| + 1 && t.contexts[..|s.contexts|] == s.contexts && t.depth == s.depth
    && Spent(s.handlers, t.handlers)
    && t.version >= s.version
    && Own(t) <= Own(s)
  }

  lemma {:induction false} WithinSelf(s: State, bound: nat)
    requires Inv(s)
    ensures Within(s, s, bound)
  {
  }

  lemma {:induction false} QuietSelf(s: State)
    requires Inv(s)
    ensures Quiet(s, s) && s.handlers != [] && s.contexts != []
  {
  }

  lemma {:induction false} WithinOwn(s: State, t: State, bound: nat)
    requires Within(s, t, bound)
    ensures Own(t) <= Own(s) && s.contexts != [] && t.contexts != [] && t.depth == s.depth
  {
  }

  lemma {:induction false} WithinLock(s: State)
    requires Inv(s)
    ensures forall bound: nat :: Within(s, Locked(s), bound) && Within(s, Unlocked(s), bound)
    ensures Top(Locked(s)).deferred == Top(s).deferred == Top(Unlocked(s)).deferred
    ensures HasLock(Locked(s)) && !HasLock(Unlocked(s))
    ensures !LockTaken(Locked(s)) && LockTaken(Unlocked(s)) == LockTaken(s)
    ensures Enabled(s, Lock) <==> !LockTaken(s)
  {
  }

  lemma {:induction false} WithinQuiet(s: State, t: State)
    requires Inv(s) && Quiet(s, t)
    ensures forall bound: nat :: Within(s, t, bound)
    ensures Top(t) == Top(s) && LockTaken(t) == LockTaken(s)
  {
  }

  lemma {:induction false} DeferKeeps(s: State, d: Deferred)
    requires Inv(s)
    ensures var t := WithTop(s, Top(s).(deferred := Top(s).deferred + [d]));
            Inv(t) && Within(s, t, Size(d.body) + 1)
  {
    hide Size;
    var t := WithTop(s, Top(s).(deferred := Top(s).deferred + [d]));
    forall app | app in t.locked
      ensures exists i :: 0 <= i < |t.contexts| && Holds(t.contexts[i], app)
    {
      var i :| 0 <= i < |s.contexts| && Holds(s.contexts[i], app);
      assert Holds(t.contexts[i], app);
    }
  }

  lemma {:induction false} QuietSame(s: State, t: State)
    requires Quiet(s, t)
    ensures t.contexts == s.contexts && t.locked == s.locked
  {
  }

  /** The first i calls succeed. */
  ghost predicate FirstSucceed(apps: set<int>, s: State, calls: seq<Deferred>, i: nat) {
    && s.contexts != [] && i <= |calls|
    && forall k :: 0 <= k < i ==> CallOutcome(apps, Top(s).app, s.locked, calls[k].app, calls[k].body).Normal?
  }

  lemma {:induction false} HasContext(apps: set<int>, s: State, calls: seq<Deferred>, i: nat)
    requires FirstSucceed(apps, s, calls, i)
    ensures s.contexts != []
  {
  }

  lemma {:induction false} NoneYet(apps: set<int>, s: State, calls: seq<Deferred>)
    requires s.contexts != []
    ensures FirstSucceed(apps, s, calls, 0)
  {
  }

  lemma {:induction false} OneMore(apps: set<int>, s: State, calls: seq<Deferred>, i: nat, r: Outcome)
    requires i < |calls| && FirstSucceed(apps, s, calls, i)
    requires r == CallOutcome(apps, Top(s).app, s.locked, calls[i].app, calls[i].body)
    ensures r.Normal? ==> FirstSucceed(apps, s, calls, i + 1)
    ensures r == Error ==> forall bound: nat :: (forall k :: 0 <= k < |calls| ==> Size(calls[k].body) < bound) ==>
              !AllSucceed(apps, Top(s).app, s.locked, calls, bound)
  {
    hide CallOutcome;
  }

  lemma {:induction false} AllOfThem(apps: set<int>, s: State, calls: seq<Deferred>, bound: nat)
    requires FirstSucceed(apps, s, calls, |calls|) && forall k :: 0 <= k < |calls| ==> Size(calls[k].body) < bound
    ensures AllSucceed(apps, Top(s).app, s.locked, calls, bound)
  {
    hide CallOutcome;
  }

  lemma {:induction false} SpentTrans(a: seq<Handler>, b: seq<Handler>, c: seq<Handler>)
    requires Spent(a, b) && Spent(b, c)
    ensures Spent(a, c)
  {
  }

  lemma {:induction false} WithinTrans(s: State, t: State, u: State, first: nat, second: nat, bound: nat)
    requires Within(s, t, first) && Within(t, u, second) && first <= bound && second <= bound
    ensures Within(s, u, bound)
  {
    SpentTrans(s.handlers, t.handlers, u.handlers);
    var d := Top(u).deferred;
    assert d[..|Top(s).deferred|] == d[..|Top(t).deferred|][..|Top(s).deferred|];
    forall i | |Top(s).deferred| <= i < |d|
      ensures Size(d[i].body) < bound
    {
      if i < |Top(t).deferred| {
        assert d[i] == d[..|Top(t).deferred|][i];
      }
    }
  }

  lemma {:induction false} QuietTrans(s: State, t: State, u: State)
    requires Quiet(s, t) && Quiet(t, u)
    ensures Quiet(s, u)
  {
    SpentTrans(s.handlers, t.handlers, u.handlers);
  }

  /** Code that ran in a pushed context. */
  lemma {:induction false} WithinPushed(s: State, app: int, t: State, bound: nat)
    requires Inv(s) && Enabled(s, Push(app)) && Within(Next(s, Push(app)), t, bound)
    ensures Over(s, t) && Over(s, Unlocked(t))
    ensures Top(Unlocked(t)).deferred == Top(t).deferred && Top(Unlocked(t)).app == Top(t).app == app
    ensures forall i :: 0 <= i < |Top(t).deferred| ==> Size(Top(t).deferred[i].body) < bound
  {
  }

  lemma {:induction false} OverQuiet(s: State, t: State, u: State)
    requires Over(s, t) && Quiet(t, u)
    ensures Over(s, u) && s.handlers != [] && u.handlers != [] && Own(u) <= Own(s)
  {
    SpentTrans(s.handlers, t.handlers, u.handlers);
  }

  /** The lock table follows from the contexts. */
  lemma {:induction false} LocksDetermined(contexts: seq<Context>, a: set<int>, b: set<int>)
    requires LocksExact(contexts, a) && LocksExact(contexts, b)
    ensures a == b
  {
    forall app
      ensures app in a <==> app in b
    {
      if app in a {
        var i :| 0 <= i < |contexts| && Holds(contexts[i], app);
      }
      if app in b {
        var i :| 0 <= i < |contexts| && Holds(contexts[i], app);
      }
    }
  }

  /** The context of a call starts without the lock and without deferred calls. */
  lemma {:induction false} PushedFacts(s: State, app: int)
    requires Inv(s) && Enabled(s, Push(app))
    ensures var t := Next(s, Push(app));
            && !HasLock(t) && LockTaken(t) == (app in s.locked) && Top(t).deferred == [] && Top(t).app == app
            && Own(t) == Own(s)
  {
  }

  lemma {:induction false} RefusedCalls(apps: set<int>, caller: int, locked: set<int>, app: int, body: Program)
    ensures app !in apps || app == caller ==> CallOutcome(apps, caller, locked, app, body) == Error
  {
  }

  lemma {:induction false} CallSteps(apps: set<int>, caller: int, locked: set<int>, app: int, body: Program)
    requires app in apps && app != caller
    ensures forall i :: 0 <= i < |Defers(body)| ==> Size(Defers(body)[i].body) < Size(body)
    ensures var r := Ending(body, false, app in locked);
            CallOutcome(apps, caller, locked, app, body) ==
            if r == Error || r.code >= 400 || !AllSucceed(apps, app, locked, Defers(body), Size(body)) then Error else r
  {
    DefersSmaller(body);
  }

  /** A context without the lock adds nothing to the lock table. */
  lemma {:induction false} SameLocks(s: State, t: State)
    requires Inv(s) && Inv(t) && Over(s, t) && !Top(t).hasLock
    ensures t.locked == s.locked
  {
    LocksWithoutLast(t.contexts, t.locked);
    assert t.contexts[..|t.contexts| - 1] == s.contexts;
    LocksDetermined(s.contexts, s.locked, t.locked);
  }

  lemma {:induction false} OverPops(s: State, t: State)
    requires Inv(s) && Inv(t) && Over(s, t)
    ensures Enabled(t, Pop) && Next(t, Pop) == Popped(t) && Quiet(s, Popped(t))
  {
    PopKeeps(t);
    LocksDetermined(s.contexts, s.locked, Popped(t).locked);
  }

  /** The newest handler pays for an invocation with what it hands out. */
  lemma {:induction false} OpenedOwn(s: State, f: nat)
    requires Inv(s) && f < 256 && ForwardedGas(Last(s).remaining, f) > MIN_CLOCKS
    ensures var ext := ExternalGas(ForwardedGas(Last(s).remaining, f));
            0 <= ext && Own(Opened(s, f)) == 2 * s.invocations + ext <= Own(s)
    ensures var o := Opened(s, f); o.contexts == s.contexts && o.locked == s.locked && o.depth == s.depth + 1
  {
    ForwardedFits(Last(s).remaining, f);
  }

  lemma {:induction false} OpenedThenQuiet(s: State, f: nat, t: State, completed: bool)
    requires Inv(s) && Enabled(s, Open(f)) && Quiet(Opened(s, f), t) && Inv(t)
    ensures Enabled(t, Close(completed)) && Quiet(s, Closed(t, completed))
    ensures if completed then Closed(t, completed).version > s.version else Closed(t, completed).version == s.version
  {
    OpenCosts(s, f);
    var o := Opened(s, f);
    var n := |s.handlers|;
    assert o.handlers[n] == Last(o) && Last(t) == Last(o).(remaining := Last(t).remaining);
    assert forall i :: 0 <= i < n ==> t.handlers[i] == o.handlers[i];
  }
}
