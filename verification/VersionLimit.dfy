/** The version limit can be reached: nested calls that all succeed keep their versions, and 144000 gas pays for 30000
    of them within the call depth. At the limit the constructor of a resource handler throws too late
    (src/ascee/executor/Executor.cpp:260-273, src/ascee/heap/RestrictedModifier.cpp:36-39). */
module VersionLimit {
  import Versions
  import opened CallStack

  /** The steps lead from s to t, never deeper than the call depth allows. */
  ghost predicate Path(s: State, steps: seq<Step>, t: State)
    decreases |steps|
  {
    if steps == [] then s == t
    else
      && Enabled(s, steps[0]) && Next(s, steps[0]).depth <= MAX_CALL_DEPTH
      && Path(Next(s, steps[0]), steps[1..], t)
  }

  lemma {:induction false} PathConcat(s: State, a: seq<Step>, t: State, b: seq<Step>, u: State)
    requires Path(s, a, t) && Path(t, b, u)
    ensures Path(s, a + b, u)
    decreases |a|
  {
    if a == [] {
      assert a + b == b;
    } else {
      assert (a + b)[1..] == a[1..] + b;
      PathConcat(Next(s, a[0]), a[1..], t, b, u);
    }
  }

  lemma {:induction false} PathStep(s: State, step: Step, rest: seq<Step>, t: State)
    requires Enabled(s, step) && Next(s, step).depth <= MAX_CALL_DEPTH && Path(Next(s, step), rest, t)
    ensures Path(s, [step] + rest, t)
  {
    assert ([step] + rest)[1..] == rest;
  }

  /** A path is a run. */
  lemma {:induction false} PathIsRun(s: State, steps: seq<Step>, t: State) returns (ss: seq<State>)
    requires Path(s, steps, t)
    ensures |ss| == |steps| + 1 && ss[0] == s && ss[|steps|] == t
    ensures forall k :: 0 <= k < |steps| ==> Enabled(ss[k], steps[k]) && ss[k + 1] == Next(ss[k], steps[k])
    ensures forall k :: 1 <= k < |ss| ==> ss[k].depth <= MAX_CALL_DEPTH
    decreases |steps|
  {
    if steps == [] {
      ss := [s];
    } else {
      var rest := PathIsRun(Next(s, steps[0]), steps[1..], t);
      ss := [s] + rest;
      forall k | 0 <= k < |steps|
        ensures Enabled(ss[k], steps[k]) && ss[k + 1] == Next(ss[k], steps[k])
      {
        if k > 0 {
          assert ss[k] == rest[k - 1] && steps[k] == steps[1..][k - 1];
        }
      }
    }
  }

  // ---------- one call ----------

  /** The state after m calls that all returned: only versions, history and the gas of the newest handler differ. */
  ghost predicate Returned(s: State, t: State, m: nat, remaining: int) {
    && Inv(s) && Inv(t) && t.contexts == s.contexts && t.depth == s.depth && t.version == s.version + m
    && |t.handlers| == |s.handlers| && Last(t) == Last(s).(remaining := remaining)
    && t.handlers[..|t.handlers| - 1] == s.handlers[..|s.handlers| - 1]
  }

  lemma {:induction false} ReturnedTwice(s: State, t: State, u: State, m: nat, n: nat, r: int, q: int)
    requires Returned(s, t, m, r) && Returned(t, u, n, q)
    ensures Returned(s, u, m + n, q)
  {
    hide Inv;
  }

  lemma {:induction false} ReturnedFacts(s: State, t: State, m: nat, r: int)
    requires Returned(s, t, m, r)
    ensures Inv(t) && t.depth == s.depth && t.version == s.version + m && t.handlers != [] && Last(t).remaining == r
  {
  }

  /** A call can be made: it gets `gas`, and the version limit and the call depth are not reached. */
  ghost predicate Callable(s: State, f: nat, gas: int) {
    && Inv(s) && f < 256 && gas == ForwardedGas(Last(s).remaining, f) && gas > MIN_CLOCKS
    && s.version < Versions.MAX_VERSION && s.depth < MAX_CALL_DEPTH
  }

  /** The state in which the called application runs. */
  ghost function Called(s: State, f: nat, gas: int): (c: State)
    requires Callable(s, f, gas)
    ensures Enabled(s, Open(f)) && Enabled(Next(s, Open(f)), Push(Top(s).app + 1))
    ensures c == Next(Next(s, Open(f)), Push(Top(s).app + 1)) && c.handlers != []
  {
    var o := Opened(s, f);
    o.(contexts := o.contexts + [Context(Top(s).app + 1, false, [])], heapContext := Top(s).app + 1)
  }

  lemma {:induction false} CalledFacts(s: State, f: nat, gas: int)
    requires Callable(s, f, gas)
    ensures var c := Called(s, f, gas);
            Inv(c) && c.depth == s.depth + 1 && c.version == s.version + 1 && Last(c).remaining == 2 * gas / 3
    ensures Next(s, Open(f)).depth == s.depth + 1
  {
    hide LocksExact, Nested, Funded, ForwardedGas;
    StepKeeps(s, Open(f));
    StepKeeps(Next(s, Open(f)), Push(Top(s).app + 1));
  }

  /** Leaving the called application again. */
  lemma {:induction false} Left(s: State, f: nat, gas: int, t: State, m: nat, r: int)
    requires Callable(s, f, gas) && Returned(Called(s, f, gas), t, m, r)
    ensures Enabled(t, Pop) && Enabled(Next(t, Pop), Close(true)) && Next(t, Pop).depth == s.depth + 1
    ensures Returned(s, Next(Next(t, Pop), Close(true)), m + 1, Last(s).remaining - gas)
  {
    hide ForwardedGas, ExternalGas, LocksExact, Nested, Funded;
    CalledFacts(s, f, gas);
    StepKeeps(s, Open(f));
    LeftHandlers(s, f, gas, t, m, r);
    LeftPops(s, f, gas, t, m, r);
    StepKeeps(t, Pop);
    StepKeeps(Next(t, Pop), Close(true));
  }

  lemma {:induction false} LeftHandlers(s: State, f: nat, gas: int, t: State, m: nat, r: int)
    requires Callable(s, f, gas) && Returned(Called(s, f, gas), t, m, r)
    ensures var n := |s.handlers|;
            && |t.handlers| == n + 1
            && t.handlers[..n] == s.handlers[..n - 1] + [Last(s).(remaining := Last(s).remaining - gas)]
            && t.handlers[n].level == |s.contexts| && t.handlers[n].caller == Top(s).app
  {
    hide Inv, ForwardedGas, ExternalGas;
    var o := Next(s, Open(f));
    assert t.handlers[..|s.handlers|] == o.handlers[..|s.handlers|];
  }

  lemma {:induction false} LeftPops(s: State, f: nat, gas: int, t: State, m: nat, r: int)
    requires Callable(s, f, gas) && Returned(Called(s, f, gas), t, m, r)
    ensures Enabled(t, Pop) && Next(t, Pop) == t.(contexts := s.contexts, heapContext := Top(s).app)
  {
    hide ForwardedGas, ExternalGas, LocksExact, Nested, Funded;
    LeftHandlers(s, f, gas, t, m, r);
    assert t.contexts == s.contexts + [Context(Top(s).app + 1, false, [])];
    assert t.contexts[..|s.contexts|] == s.contexts;
  }

  /** A call and what happens inside it. */
  lemma {:induction false} Call(s: State, f: nat, gas: int, inside: seq<Step>, t: State, m: nat, r: int)
    returns (steps: seq<Step>, u: State)
    requires Callable(s, f, gas) && Path(Called(s, f, gas), inside, t) && Returned(Called(s, f, gas), t, m, r)
    ensures Path(s, steps, u) && Returned(s, u, m + 1, Last(s).remaining - gas)
  {
    hide Inv;
    Left(s, f, gas, t, m, r);
    CalledFacts(s, f, gas);
    var o := Next(s, Open(f));
    var p := Next(t, Pop);
    u := Next(p, Close(true));
    assert u.depth == s.depth && Called(s, f, gas).depth == o.depth;
    var app := Top(s).app + 1;
    steps := Around(s, f, o, app, Called(s, f, gas), inside, t, p, u);
  }

  lemma {:induction false} Around(s: State, f: nat, o: State, app: int, c: State, inside: seq<Step>, t: State,
                                  p: State, u: State)
    returns (steps: seq<Step>)
    requires Enabled(s, Open(f)) && o == Next(s, Open(f)) && o.depth <= MAX_CALL_DEPTH
    requires Enabled(o, Push(app)) && c == Next(o, Push(app)) && c.depth <= MAX_CALL_DEPTH && Path(c, inside, t)
    requires Enabled(t, Pop) && p == Next(t, Pop) && p.depth <= MAX_CALL_DEPTH
    requires Enabled(p, Close(true)) && u == Next(p, Close(true)) && u.depth <= MAX_CALL_DEPTH
    ensures Path(s, steps, u)
  {
    hide Next, Enabled;
    assert Path(u, [], u);
    hide Path;
    PathStep(p, Close(true), [], u);
    PathStep(t, Pop, [Close(true)] + [], u);
    var back := [Pop] + ([Close(true)] + []);
    PathConcat(c, inside, t, back, u);
    PathStep(o, Push(app), inside + back, u);
    PathStep(s, Open(f), [Push(app)] + (inside + back), u);
    steps := [Open(f)] + ([Push(app)] + (inside + back));
  }

  lemma {:induction false} Nothing(s: State)
    requires Inv(s)
    ensures Path(s, [], s) && Returned(s, s, 0, Last(s).remaining)
  {
  }

  /** A call that does nothing. */
  lemma {:induction false} EmptyCall(s: State, f: nat, gas: int) returns (steps: seq<Step>, u: State)
    requires Callable(s, f, gas)
    ensures Path(s, steps, u) && Returned(s, u, 1, Last(s).remaining - gas)
  {
    var c := Called(s, f, gas);
    CalledFacts(s, f, gas);
    Nothing(c);
    hide Inv, Path, Returned;
    steps, u := Call(s, f, gas, [], c, 0, Last(c).remaining);
  }

  // ---------- many calls ----------

  /** The share that gives a call just two. */
  lemma {:induction false} LeastShare(r: int) returns (f: nat)
    requires 3 <= r <= 255
    ensures f < 256 && ForwardedGas(r, f) == 2
  {
    f := (511 + r) / r;
    assert 512 <= r * f < 512 + r;
  }

  /** As long as the remaining gas lasts, calls that cost two each. */
  lemma {:induction false} CheapCalls(s: State, m: nat, r: int) returns (steps: seq<Step>, t: State)
    requires Inv(s) && r == Last(s).remaining && 2 * m < r <= 255 && s.depth < MAX_CALL_DEPTH
    requires s.version + m <= Versions.MAX_VERSION
    ensures Path(s, steps, t) && Returned(s, t, m, r - 2 * m)
    decreases m
  {
    if m == 0 {
      Nothing(s);
      steps, t := [], s;
    } else {
      var f := LeastShare(r);
      hide Inv, Path, Returned, ForwardedGas;
      var first, u := EmptyCall(s, f, 2);
      ReturnedFacts(s, u, 1, r - 2);
      var rest;
      rest, t := CheapCalls(u, m - 1, r - 2);
      PathConcat(s, first, u, rest, t);
      ReturnedTwice(s, u, t, 1, m - 1, r - 2, r - 2 * m);
      steps := first + rest;
    }
  }

  /** A call that gets the smallest share of r and makes cheap calls with it. */
  lemma {:induction false} Bundle(s: State, m: nat, r: int) returns (steps: seq<Step>, t: State)
    requires Inv(s) && r == Last(s).remaining && 1792 <= r < 98304 && s.depth + 2 <= MAX_CALL_DEPTH
    requires m < InBundle(r) && s.version + 1 + m <= Versions.MAX_VERSION
    ensures Path(s, steps, t) && Returned(s, t, m + 1, r - r / 256)
  {
    var gas := r / 256;
    assert ForwardedGas(r, 1) == gas;
    var c := Called(s, 1, gas);
    CalledFacts(s, 1, gas);
    hide Inv, Path, Returned, ForwardedGas;
    var inside, b := CheapCalls(c, m, 2 * gas / 3);
    steps, t := Call(s, 1, gas, inside, b, m, 2 * gas / 3 - 2 * m);
  }

  /** The number of calls in a full bundle. */
  function InBundle(r: int): int {
    1 + (2 * (r / 256) / 3 - 1) / 2
  }

  /** What a full bundle yields for its gas. */
  lemma {:induction false} Yield(r: int)
    requires 1792 <= r < 98304
    ensures InBundle(r) >= 1 && 7 * InBundle(r) >= 2 * (r / 256)
    ensures r >= 10240 ==> 40 * InBundle(r) >= 13 * (r / 256)
  {
    var g := r / 256;
    assert 3 * InBundle(r) >= g - 1;
  }

  /** Enough gas for n more calls. */
  predicate Enough(r: int, n: nat) {
    if r >= 98304 then n <= 30000
    else if r >= 10240 then 40 * n <= 13 * (r - 10240) + 96080
    else r >= 1792 && 7 * n <= 2 * (r - 1792)
  }

  lemma {:induction false} EnoughAfterBundle(r: int, n: nat)
    requires 1792 <= r < 98304 && Enough(r, n) && n > InBundle(r)
    ensures Enough(r - r / 256, n - InBundle(r))
  {
    Yield(r);
  }

  lemma {:induction false} EnoughAfterCall(r: int, n: nat)
    requires r >= 98304 && Enough(r, n) && n > 0
    ensures Enough(r - r / 256, n - 1)
  {
  }

  /** n calls, with gas left for another one. */
  lemma {:induction false} ManyCalls(s: State, n: nat, r: int) returns (steps: seq<Step>, t: State, q: int)
    requires Inv(s) && r == Last(s).remaining && r >= 1792 && Enough(r, n) && s.depth + 2 <= MAX_CALL_DEPTH
    requires s.version + n <= Versions.MAX_VERSION
    ensures Path(s, steps, t) && Returned(s, t, n, q) && q >= 1700
    decreases n
  {
    if n == 0 {
      Nothing(s);
      steps, t, q := [], s, r;
    } else if r < 98304 && n <= InBundle(r) {
      steps, t := Bundle(s, n - 1, r);
      q := r - r / 256;
    } else {
      steps, t, q := FirstOfMany(s, n, r);
    }
  }

  lemma {:induction false} FirstOfMany(s: State, n: nat, r: int) returns (steps: seq<Step>, t: State, q: int)
    requires Inv(s) && r == Last(s).remaining && r >= 1792 && Enough(r, n) && s.depth + 2 <= MAX_CALL_DEPTH
    requires s.version + n <= Versions.MAX_VERSION && n > if r < 98304 then InBundle(r) else 0
    ensures Path(s, steps, t) && Returned(s, t, n, q) && q >= 1700
    decreases n, 0
  {
    var k := if r < 98304 then InBundle(r) else 1;
    if r < 98304 {
      Yield(r);
      EnoughAfterBundle(r, n);
    } else {
      EnoughAfterCall(r, n);
      assert ForwardedGas(r, 1) == r / 256;
    }
    hide Inv, Path, Returned, ForwardedGas, Enough, InBundle;
    var first, u;
    if r < 98304 {
      first, u := Bundle(s, k - 1, r);
    } else {
      first, u := EmptyCall(s, 1, r / 256);
    }
    var left := r - r / 256;
    ReturnedFacts(s, u, k, left);
    EnoughIsMuch(left, n - k);
    var rest;
    rest, t, q := ManyCalls(u, n - k, left);
    PathConcat(s, first, u, rest, t);
    ReturnedTwice(s, u, t, k, n - k, left, q);
    steps := first + rest;
  }

  lemma {:induction false} EnoughIsMuch(r: int, n: nat)
    requires Enough(r, n)
    ensures r >= 1792
  {
  }

  // ---------- the limit ----------

  /** A controlled execution as `executeOne` starts it: the root forwards 255 parts of its gas to the first
      application. */
  lemma {:induction false} FirstCall(initialGas: nat) returns (o: State, c: State)
    requires initialGas >= 144000
    ensures Enabled(Initial(initialGas), Open(255)) && o == Next(Initial(initialGas), Open(255)) && o.depth == 2
    ensures Enabled(o, Push(1)) && c == Next(o, Push(1)) && c.depth == 2 && c.version == 1
    ensures Inv(c) && c.handlers != [] && Enough(Last(c).remaining, Versions.MAX_VERSION - 1)
  {
    InitialInv(initialGas);
    FirstGas(initialGas);
    hide LocksExact, Nested, Funded, ForwardedGas;
    var s := Initial(initialGas);
    assert Last(s).remaining == initialGas;
    var gas := ForwardedGas(initialGas, 255);
    CalledFacts(s, 255, gas);
    o := Next(s, Open(255));
    c := Called(s, 255, gas);
  }

  lemma {:induction false} FirstGas(initialGas: nat)
    requires initialGas >= 144000
    ensures var gas := ForwardedGas(initialGas, 255); gas > MIN_CLOCKS && Enough(2 * gas / 3, Versions.MAX_VERSION - 1)
  {
    ForwardedFits(initialGas, 255);
  }

  /** With every initial gas from 144000 on: some behaviour of the applications reaches the version limit within the
      call depth, with gas left to forward. The next handler's constructor then passes its test, registers itself, and
      throws. Below 90350 this is impossible (`Sessions.ExecuteOne`). */
  lemma {:induction false} LimitIsReached(initialGas: nat) returns (ss: seq<State>, steps: seq<Step>)
    requires initialGas >= 144000
    ensures IsRun(ss, steps, initialGas)
    ensures |steps| >= 2 && steps[0] == Open(255) && steps[1] == Push(1)
    ensures forall k :: 0 <= k < |ss| ==> ss[k].depth <= MAX_CALL_DEPTH
    ensures var last := ss[|steps|];
            && last.version == Versions.MAX_VERSION && last.handlers != []
            && ForwardedGas(Last(last).remaining, 128) > MIN_CLOCKS && !Enabled(last, Open(128))
  {
    var t;
    steps, t := LimitPath(initialGas);
    hide Path, Enabled, Next;
    ss := PathIsRun(Initial(initialGas), steps, t);
  }

  lemma {:induction false} LimitPath(initialGas: nat) returns (steps: seq<Step>, t: State)
    requires initialGas >= 144000
    ensures Path(Initial(initialGas), steps, t) && t.version == Versions.MAX_VERSION && t.handlers != []
    ensures |steps| >= 2 && steps[0] == Open(255) && steps[1] == Push(1)
    ensures ForwardedGas(Last(t).remaining, 128) > MIN_CLOCKS && !Enabled(t, Open(128))
  {
    hide Inv, Next, Enabled, Path, Returned, ForwardedGas, Initial;
    var s := Initial(initialGas);
    var o, c := FirstCall(initialGas);
    EnoughIsMuch(Last(c).remaining, Versions.MAX_VERSION - 1);
    var rest, q;
    rest, t, q := ManyCalls(c, Versions.MAX_VERSION - 1, Last(c).remaining);
    PathStep(o, Push(1), rest, t);
    PathStep(s, Open(255), [Push(1)] + rest, t);
    steps := [Open(255)] + ([Push(1)] + rest);
    AtLimit(c, t, q);
  }

  lemma {:induction false} AtLimit(s: State, t: State, q: int)
    requires Returned(s, t, Versions.MAX_VERSION - 1, q) && s.version == 1 && q >= 1700
    ensures t.version == Versions.MAX_VERSION && t.handlers != []
    ensures ForwardedGas(Last(t).remaining, 128) > MIN_CLOCKS && !Enabled(t, Open(128))
  {
    assert Last(t).remaining * 128 / 256 == Last(t).remaining / 2;
  }
}
