/** Whole runs of the scheduler protocol: hand-out order, absence of deadlock, termination and outcome. */
module SchedulerRuns {
  import opened Dag
  import opened Scheduler
  import opened SchedulerInvariant

  type Event = (nat, Action)

  /** Any interleaving of steps of the workers from the state that `buildExecDag` leaves. */
  ghost predicate IsRun(dag: Graph, workers: nat, states: seq<State>, events: seq<Event>) {
    && Starts(dag) && |states| == |events| + 1 && states[0] == Initial(dag, workers)
    && forall k :: 0 <= k < |events| ==>
         Enabled(dag, states[k], events[k].0, events[k].1) &&
         states[k + 1] == Step(dag, states[k], events[k].0, events[k].1)
  }

  lemma {:induction false} RunKeepsInv(dag: Graph, workers: nat, states: seq<State>, events: seq<Event>, k: nat)
    requires WellFormed(dag) && IsRun(dag, workers, states, events) && k < |states|
    ensures Inv(dag, states[k])
  {
    if k == 0 {
      InvInitial(dag, workers);
    } else {
      RunKeepsInv(dag, workers, states, events, k - 1);
      InvStep(dag, states[k - 1], events[k - 1].0, events[k - 1].1);
    }
  }

  // ---------- hand-out order ----------

  /** Executed: the worker has called `submitResult`. */
  predicate Executed(p: Phase) {
    !p.Blocked? && !p.Queued? && !p.Running?
  }

  /** A request that has left `Blocked` has every ancestor past execution. */
  lemma {:induction false} AncestorExecuted(dag: Graph, s: State, p: seq<nat>)
    requires Inv(dag, s) && IsPath(dag, p) && |p| > 1
    requires p[|p| - 1] < |dag| ==> s.phase[p[|p| - 1]] != Blocked
    ensures p[0] < |dag| && p[|p| - 1] < |dag| && Executed(s.phase[p[0]])
  {
    PathLastEdge(dag, p);
    PredecessorsDone(dag, s, p[|p| - 2], p[|p| - 1]);
    if |p| > 2 {
      AncestorExecuted(dag, s, p[..|p| - 1]);
    }
  }

  /** When a request is ready, all its ancestors have been executed. */
  lemma {:induction false} AncestorsExecuted(dag: Graph, s: State, r: nat)
    requires Inv(dag, s) && r < |dag| && s.phase[r] != Blocked
    ensures forall u: nat :: Reaches(dag, u, r) && u != r ==> u < |dag| && Executed(s.phase[u]) && u in s.handed
  {
    forall u: nat | Reaches(dag, u, r) && u != r
      ensures u < |dag| && Executed(s.phase[u]) && u in s.handed
    {
      var p :| IsPath(dag, p) && p[0] == u && p[|p| - 1] == r;
      AncestorExecuted(dag, s, p);
    }
  }

  /** In every run, each request is handed out at most once, and when it is, all its ancestors have been executed. */
  lemma {:induction false} HandedOutOnceInOrder(dag: Graph, workers: nat, states: seq<State>, events: seq<Event>,
                                                k: nat)
    requires WellFormed(dag) && IsRun(dag, workers, states, events) && k < |events| && events[k].1 == Dequeue
    ensures Inv(dag, states[k]) && states[k].queue != []
    ensures var s, r := states[k], states[k].queue[0];
            && r !in s.handed && states[k + 1].handed == s.handed + [r]
            && forall u: nat :: Reaches(dag, u, r) && u != r ==> u < |dag| && Executed(s.phase[u]) && u in s.handed
  {
    RunKeepsInv(dag, workers, states, events, k);
    assert Enabled(dag, states[k], events[k].0, events[k].1);
    ReadyIsNew(dag, states[k]);
    AncestorsExecuted(dag, states[k], states[k].queue[0]);
  }

  /** Requests become ready in the order in which they are handed out: what was handed out, followed by what waits, only
      ever grows at its end. */
  lemma {:induction false} StepIsFifo(dag: Graph, s: State, w: nat, a: Action)
    requires Enabled(dag, s, w, a)
    ensures s.handed + s.queue <= Step(dag, s, w, a).handed + Step(dag, s, w, a).queue
  {
    if a == Dequeue {
      assert s.queue == [s.queue[0]] + s.queue[1..];
    }
  }

  lemma {:induction false} FirstReadyFirstOut(dag: Graph, workers: nat, states: seq<State>, events: seq<Event>, k: nat,
                                              l: nat)
    requires IsRun(dag, workers, states, events) && k <= l < |states|
    ensures states[k].handed + states[k].queue <= states[l].handed + states[l].queue
    decreases l
  {
    if k < l {
      FirstReadyFirstOut(dag, workers, states, events, k, l - 1);
      StepIsFifo(dag, states[l - 1], events[l - 1].0, events[l - 1].1);
    }
  }

  lemma {:induction false} ReadyIsNew(dag: Graph, s: State)
    requires Inv(dag, s) && s.queue != []
    ensures s.queue[0] < |dag| && s.phase[s.queue[0]] == Queued && s.queue[0] !in s.handed
  {
    assert s.queue[0] in s.queue;
  }

  // ---------- termination ----------

  function PhaseCost(dag: Graph, r: nat, p: Phase): nat {
    var d := if r < |dag| then |dag[r]| else 0;
    match p
    case Blocked => 2 * d + 7
    case Queued => 2 * d + 6
    case Running => 2 * d + 5
    case Submitting(todo) => 2 * |todo| + 4
    case Pushing(todo, _) => 2 * |todo| + 5
    case Cleared => 3
    case Counted => 2
    case Finished => 1
  }

  function WorkerCost(w: Worker): nat {
    match w
    case Idle => 2
    case Busy(_) => 2
    case Checking => 1
    case _ => 0
  }

  /** Cost of the first k requests. */
  function PhaseCosts(dag: Graph, phase: seq<Phase>, k: nat): nat
    requires k <= |phase|
  {
    if k == 0 then 0 else PhaseCosts(dag, phase, k - 1) + PhaseCost(dag, k - 1, phase[k - 1])
  }

  function WorkerCosts(workers: seq<Worker>, k: nat): nat
    requires k <= |workers|
  {
    if k == 0 then 0 else WorkerCosts(workers, k - 1) + WorkerCost(workers[k - 1])
  }

  function Measure(dag: Graph, s: State): nat {
    PhaseCosts(dag, s.phase, |s.phase|) + WorkerCosts(s.workers, |s.workers|)
  }

  lemma {:induction false} PhaseCostsUpdate(dag: Graph, phase: seq<Phase>, k: nat, r: nat, p: Phase)
    requires k <= |phase| && r < |phase|
    ensures PhaseCosts(dag, phase[r := p], k) ==
            PhaseCosts(dag, phase, k) + if r < k then PhaseCost(dag, r, p) - PhaseCost(dag, r, phase[r]) else 0
  {
    if k > 0 {
      PhaseCostsUpdate(dag, phase, k - 1, r, p);
    }
  }

  lemma {:induction false} WorkerCostsUpdate(workers: seq<Worker>, k: nat, w: nat, x: Worker)
    requires k <= |workers| && w < |workers|
    ensures WorkerCosts(workers[w := x], k) ==
            WorkerCosts(workers, k) + if w < k then WorkerCost(x) - WorkerCost(workers[w]) else 0
  {
    if k > 0 {
      WorkerCostsUpdate(workers, k - 1, w, x);
    }
  }

  /** Every step consumes some of a fixed budget. */
  lemma {:induction false} StepCosts(dag: Graph, s: State, w: nat, a: Action)
    requires Inv(dag, s) && Enabled(dag, s, w, a)
    ensures Measure(dag, Step(dag, s, w, a)) < Measure(dag, s)
  {
    if a == Dequeue {
      DequeueCosts(dag, s, w);
    } else if a == Push {
      PushCosts(dag, s, w);
    } else if a == Underflow || a == Check || a == Throw {
      WorkerCostsUpdate(s.workers, |s.workers|, w, Step(dag, s, w, a).workers[w]);
    } else {
      OwnCosts(dag, s, w, a);
    }
  }

  lemma {:induction false} DequeueCosts(dag: Graph, s: State, w: nat)
    requires Inv(dag, s) && Enabled(dag, s, w, Dequeue)
    ensures Measure(dag, Step(dag, s, w, Dequeue)) < Measure(dag, s)
  {
    ReadyIsNew(dag, s);
    WorkerCostsUpdate(s.workers, |s.workers|, w, Busy(s.queue[0]));
    PhaseCostsUpdate(dag, s.phase, |s.phase|, s.queue[0], Running);
  }

  lemma {:induction false} OwnCosts(dag: Graph, s: State, w: nat, a: Action)
    requires Enabled(dag, s, w, a) && (a == Execute || a.Decrement? || a == Reset || a == Count || a == Release)
    ensures Measure(dag, Step(dag, s, w, a)) < Measure(dag, s)
  {
    var r := s.workers[w].r;
    var t := Step(dag, s, w, a);
    assert t.phase == s.phase[r := t.phase[r]] && t.workers == s.workers[w := t.workers[w]];
    assert PhaseCost(dag, r, t.phase[r]) < PhaseCost(dag, r, s.phase[r]);
    WorkerCostsUpdate(s.workers, |s.workers|, w, t.workers[w]);
    PhaseCostsUpdate(dag, s.phase, |s.phase|, r, t.phase[r]);
  }

  lemma {:induction false} PushCosts(dag: Graph, s: State, w: nat)
    requires Inv(dag, s) && Enabled(dag, s, w, Push)
    ensures PhaseCosts(dag, Step(dag, s, w, Push).phase, |s.phase|) < PhaseCosts(dag, s.phase, |s.phase|)
    ensures Step(dag, s, w, Push).workers == s.workers
  {
    var r := s.workers[w].r;
    assert Pushes(s.phase, r, s.phase[r].v);
    TwoPhases(dag, s.phase, r, s.phase[r].v);
  }

  lemma {:induction false} TwoPhases(dag: Graph, phase: seq<Phase>, r: nat, v: nat)
    requires r < |phase| && v < |phase| && phase[r].Pushing? && phase[v] == Blocked
    ensures PhaseCosts(dag, phase[r := Submitting(phase[r].todo)][v := Queued], |phase|) <
            PhaseCosts(dag, phase, |phase|)
  {
    var p := Submitting(phase[r].todo);
    PhaseCostsUpdate(dag, phase, |phase|, r, p);
    PhaseCostsUpdate(dag, phase[r := p], |phase|, v, Queued);
  }

  lemma {:induction false} RunStepCosts(dag: Graph, workers: nat, states: seq<State>, events: seq<Event>, k: nat)
    requires WellFormed(dag) && IsRun(dag, workers, states, events) && k < |events|
    ensures Measure(dag, states[k + 1]) < Measure(dag, states[k])
  {
    RunKeepsInv(dag, workers, states, events, k);
    StepCosts(dag, states[k], events[k].0, events[k].1);
  }

  /** No run is longer than the initial budget: every run ends. */
  lemma {:induction false} RunsAreBounded(dag: Graph, workers: nat, states: seq<State>, events: seq<Event>, k: nat)
    requires WellFormed(dag) && IsRun(dag, workers, states, events) && k < |states|
    ensures k + Measure(dag, states[k]) <= Measure(dag, states[0])
  {
    if k > 0 {
      RunsAreBounded(dag, workers, states, events, k - 1);
      RunStepCosts(dag, workers, states, events, k - 1);
    }
  }

  // ---------- no deadlock ----------

  predicate AtRest(w: Worker) {
    w.Exited? || w.Failed?
  }

  predicate NobodyThrew(s: State) {
    forall w :: 0 <= w < |s.workers| ==> !s.workers[w].Thrown?
  }

  ghost predicate CanStep(dag: Graph, s: State) {
    exists w, a :: Enabled(dag, s, w, a)
  }

  lemma {:induction false} BusyCanStep(dag: Graph, s: State, w: nat)
    requires Inv(dag, s) && w < |s.workers| && s.workers[w].Busy?
    ensures CanStep(dag, s)
  {
    var r := s.workers[w].r;
    assert Holds(s.workers[w], r);
    assert Held(s.workers, r);
    match s.phase[r]
    case Running => assert Enabled(dag, s, w, Execute);
    case Submitting(todo) =>
      if todo == {} {
        assert Enabled(dag, s, w, Reset);
      } else {
        var v :| v in todo;
        assert v in dag[r];
        assert Enabled(dag, s, w, Decrement(v));
      }
    case Pushing(todo, v) =>
      assert Pushes(s.phase, r, v);
      assert Enabled(dag, s, w, Push);
    case Cleared => assert Enabled(dag, s, w, Count);
    case Counted => assert Enabled(dag, s, w, Release);
  }

  lemma {:induction false} NoBusyNoProducers(dag: Graph, s: State)
    requires Inv(dag, s) && forall w :: 0 <= w < |s.workers| ==> !s.workers[w].Busy? && !s.workers[w].Thrown?
    ensures s.producers == 0
  {
    forall r: nat | r < |dag|
      ensures !Active(s.phase[r])
    {
      assert !Held(s.workers, r);
    }
    assert ActiveSet(s.phase) == {};
  }

  /** As long as a worker has not left its loop, some step is possible: the workers never all wait for each other. */
  lemma {:induction false} NoDeadlock(dag: Graph, s: State, w: nat)
    requires Inv(dag, s) && NobodyThrew(s) && w < |s.workers| && !AtRest(s.workers[w])
    ensures CanStep(dag, s)
  {
    if x :| 0 <= x < |s.workers| && s.workers[x].Busy? {
      BusyCanStep(dag, s, x);
    } else {
      NoBusyNoProducers(dag, s);
      if s.workers[w] == Checking {
        assert Enabled(dag, s, w, Check);
      } else if s.queue == [] {
        assert Enabled(dag, s, w, Underflow);
      } else {
        assert s.queue[0] in s.queue;
        assert Enabled(dag, s, w, Dequeue);
      }
    }
  }

  // ---------- outcome ----------

  /** The queue is empty and there is no producer: what `blockingDequeue` reports as underflow. */
  predicate Quiet(s: State) {
    s.queue == [] && s.producers <= 0
  }

  lemma {:induction false} QuietMeansIdle(dag: Graph, s: State, w: nat)
    requires Inv(dag, s) && Quiet(s) && w < |s.workers|
    ensures !s.workers[w].Busy?
  {
    assert ActiveSet(s.phase) == {};
    forall r: nat
      ensures !Holds(s.workers[w], r)
    {
      assert r !in ActiveSet(s.phase);
      assert !Held(s.workers, r);
    }
    assert s.workers[w].Busy? ==> Holds(s.workers[w], s.workers[w].r);
  }

  /** Underflow is stable, and with it the value of `remaining`. */
  lemma {:induction false} UnderflowIsStable(dag: Graph, s: State, w: nat, a: Action)
    requires Inv(dag, s) && Quiet(s) && Enabled(dag, s, w, a)
    ensures Quiet(Step(dag, s, w, a)) && Step(dag, s, w, a).remaining == s.remaining
  {
    QuietMeansIdle(dag, s, w);
  }

  /** Whoever left its loop saw underflow, and told the two outcomes apart by `remaining`. */
  ghost predicate Verdicts(s: State) {
    forall w :: 0 <= w < |s.workers| ==>
      && (s.workers[w].Checking? ==> Quiet(s))
      && (s.workers[w].Exited? ==> Quiet(s) && s.remaining == 0)
      && (s.workers[w].Failed? ==> Quiet(s) && s.remaining != 0)
  }

  lemma {:induction false} RunKeepsVerdicts(dag: Graph, workers: nat, states: seq<State>, events: seq<Event>, k: nat)
    requires WellFormed(dag) && IsRun(dag, workers, states, events) && k < |states|
    ensures Verdicts(states[k])
  {
    if k > 0 {
      RunKeepsVerdicts(dag, workers, states, events, k - 1);
      RunKeepsInv(dag, workers, states, events, k - 1);
      StepKeepsVerdicts(dag, states[k - 1], events[k - 1].0, events[k - 1].1);
    }
  }

  lemma {:induction false} StepKeepsVerdicts(dag: Graph, s: State, w: nat, a: Action)
    requires Inv(dag, s) && Verdicts(s) && Enabled(dag, s, w, a)
    ensures Verdicts(Step(dag, s, w, a))
  {
    if Quiet(s) {
      UnderflowIsStable(dag, s, w, a);
    }
  }

  ghost predicate Ranks(dag: Graph, rank: seq<nat>) {
    |rank| == |dag| && forall u, v :: 0 <= u < |dag| && v in dag[u] ==> v < |dag| && rank[u] < rank[v]
  }

  ghost predicate Acyclic(dag: Graph) {
    exists rank :: Ranks(dag, rank)
  }

  /** The nodes without predecessors are the first identifiers. */
  ghost predicate SourcesFirst(dag: Graph) {
    forall v: nat :: v < |dag| && Predecessors(dag, v) == {} ==> v < SourcePrefix(dag, 0)
  }

  /** Ranked means free of cycles. */
  lemma {:induction false} NoCycle(dag: Graph, rank: seq<nat>, p: seq<nat>)
    requires Ranks(dag, rank) && IsPath(dag, p) && |p| > 1
    ensures p[0] < |dag| && p[|p| - 1] < |dag| && rank[p[0]] < rank[p[|p| - 1]]
  {
    PathLastEdge(dag, p);
    if |p| > 2 {
      NoCycle(dag, rank, p[..|p| - 1]);
    }
  }

  /** At the end nothing is in flight: every request is finished or was never released. */
  lemma {:induction false} AtEnd(dag: Graph, s: State)
    requires Inv(dag, s) && Quiet(s)
    ensures forall r :: 0 <= r < |dag| ==> s.phase[r] == Blocked || s.phase[r] == Finished
    ensures s.remaining == 0 <==> forall r :: 0 <= r < |dag| ==> s.phase[r] == Finished
  {
    assert ActiveSet(s.phase) == {};
    forall r | 0 <= r < |dag|
      ensures s.phase[r] == Blocked || s.phase[r] == Finished
    {
      assert r !in ActiveSet(s.phase);
      assert r !in s.queue;
    }
    if r :| 0 <= r < |dag| && s.phase[r] != Finished {
      assert r in UncountedSet(s.phase);
    } else {
      assert UncountedSet(s.phase) == {};
    }
  }

  /** In a ranked graph whose sources come first, nothing stays blocked. */
  lemma {:induction false} NothingBlocked(dag: Graph, s: State, rank: seq<nat>, v: nat)
    requires Inv(dag, s) && Quiet(s) && Ranks(dag, rank) && SourcesFirst(dag) && v < |dag|
    ensures s.phase[v] == Finished
    decreases rank[v]
  {
    AtEnd(dag, s);
    if s.phase[v] == Blocked {
      assert !LateSource(dag, v);
      assert forall u :: !Pushes(s.phase, u, v);
      assert s.inDegree[v] != 0;
      assert Pending(dag, s.phase, v) != {};
      var u :| u in Pending(dag, s.phase, v);
      NothingBlocked(dag, s, rank, u);
      assert false;
    }
  }

  /** The order in which all requests were handed out ranks the graph. */
  lemma {:induction false} AllFinishedRanks(dag: Graph, s: State)
    requires Inv(dag, s) && forall r :: 0 <= r < |dag| ==> s.phase[r] == Finished
    ensures Acyclic(dag) && SourcesFirst(dag)
  {
    var rank := seq(|dag|, r requires 0 <= r < |dag| => Position(s.handed, r));
    forall u, v | 0 <= u < |dag| && v in dag[u]
      ensures v < |dag| && rank[u] < rank[v]
    {
      var b := Position(s.handed, v);
      assert s.handed[b] == v;
      assert u in s.handed[..b];
      var a :| 0 <= a < b && s.handed[a] == u;
      PositionIs(s.handed, a);
    }
    assert Ranks(dag, rank);
    forall v: nat | v < |dag| && Predecessors(dag, v) == {}
      ensures v < SourcePrefix(dag, 0)
    {
      assert !LateSource(dag, v);
    }
  }

  ghost function Position(s: seq<nat>, r: nat): (k: nat)
    ensures r in s ==> k < |s| && s[k] == r
  {
    if r in s then var k :| 0 <= k < |s| && s[k] == r; k else 0
  }

  lemma {:induction false} PositionIs(s: seq<nat>, k: nat)
    requires k < |s| && forall a, b :: 0 <= a < b < |s| ==> s[a] != s[b]
    ensures Position(s, s[k]) == k
  {
  }

  /** The outcome of every finished run in which nobody threw: if the graph is acyclic and its sources are the first
      identifiers, every worker returns and every request was handed out and finished; otherwise every worker
      raises the error about the graph. The third outcome is that there is no run (`Starts`): of the graphs above, only
      that of the empty block does not start. */
  lemma {:induction false} Outcome(dag: Graph, workers: nat, states: seq<State>, events: seq<Event>)
    requires WellFormed(dag) && workers > 0 && IsRun(dag, workers, states, events)
    requires var last := states[|states| - 1]; NobodyThrew(last) && !CanStep(dag, last)
    ensures var last := states[|states| - 1];
            && |last.workers| == workers && |last.phase| == |dag|
            && (Acyclic(dag) && SourcesFirst(dag) ==>
                  && last.remaining == 0 &&
                      (forall r :: 0 <= r < |dag| ==> last.phase[r] == Finished && r in last.handed)
                  && forall w :: 0 <= w < workers ==> last.workers[w] == Exited)
            && (!(Acyclic(dag) && SourcesFirst(dag)) ==>
                  last.remaining != 0 && forall w :: 0 <= w < workers ==> last.workers[w] == Failed)
  {
    var n := |states| - 1;
    var last := states[n];
    RunKeepsInv(dag, workers, states, events, n);
    RunKeepsVerdicts(dag, workers, states, events, n);
    WorkerCountStays(dag, workers, states, events, n);
    forall w | 0 <= w < workers
      ensures AtRest(last.workers[w])
    {
      if !AtRest(last.workers[w]) {
        NoDeadlock(dag, last, w);
      }
    }
    assert AtRest(last.workers[0]);
    assert Quiet(last);
    AtEnd(dag, last);
    if last.remaining == 0 {
      AllFinishedRanks(dag, last);
    }
    if Acyclic(dag) && SourcesFirst(dag) {
      var rank :| Ranks(dag, rank);
      forall r: nat | r < |dag|
        ensures last.phase[r] == Finished
      {
        NothingBlocked(dag, last, rank, r);
      }
    }
  }

  /** Of the graphs that can be executed to the end, only that of the empty block does not start. */
  lemma {:induction false} OnlyTheEmptyDoesNotStart(dag: Graph)
    requires Acyclic(dag) && SourcesFirst(dag)
    ensures Starts(dag) <==> dag != []
  {
    if dag != [] {
      var rank :| Ranks(dag, rank);
      var v := LeastRanked(dag, rank, |dag| - 1);
      if Predecessors(dag, v) != {} {
        var _ := LowerRanked(dag, rank, v);
      }
    }
  }

  lemma {:induction false} LowerRanked(dag: Graph, rank: seq<nat>, v: nat) returns (u: nat)
    requires Ranks(dag, rank) && v < |dag| && Predecessors(dag, v) != {}
    ensures u < |dag| && rank[u] < rank[v]
  {
    u :| u in Predecessors(dag, v);
  }

  lemma {:induction false} LeastRanked(dag: Graph, rank: seq<nat>, n: nat) returns (v: nat)
    requires n < |dag| == |rank|
    ensures v <= n && forall u :: 0 <= u <= n ==> rank[v] <= rank[u]
  {
    if n == 0 {
      v := 0;
    } else {
      v := LeastRanked(dag, rank, n - 1);
      if rank[n] < rank[v] {
        v := n;
      }
    }
  }

  lemma {:induction false} WorkerCountStays(dag: Graph, workers: nat, states: seq<State>, events: seq<Event>, k: nat)
    requires IsRun(dag, workers, states, events) && k < |states|
    ensures |states[k].workers| == workers
  {
    if k > 0 {
      WorkerCountStays(dag, workers, states, events, k - 1);
    }
  }

  // ---------- runs in which a worker threw ----------

  /** A request whose worker threw stays in flight, so its producer is never removed. */
  lemma {:induction false} ThrowerKeepsProducing(dag: Graph, s: State, w: nat)
    requires Inv(dag, s) && w < |s.workers| && s.workers[w].Thrown?
    ensures s.producers > 0
  {
    var r := s.workers[w].r;
    assert Holds(s.workers[w], r);
    assert Held(s.workers, r);
    assert r in ActiveSet(s.phase);
  }

  /** The worker waits in `blockingDequeue`: nothing to take, and a producer is counted. */
  predicate Waits(s: State, w: nat) {
    w < |s.workers| && s.workers[w] == Idle && s.queue == [] && s.producers > 0
  }

  /** Where nothing can happen any more after a throw, every worker threw or waits. */
  lemma {:induction false} StuckAfterThrow(dag: Graph, s: State, w: nat)
    requires Inv(dag, s) && Verdicts(s) && !CanStep(dag, s) && !NobodyThrew(s) && w < |s.workers|
    ensures s.workers[w].Thrown? || Waits(s, w)
  {
    var x :| 0 <= x < |s.workers| && s.workers[x].Thrown?;
    ThrowerKeepsProducing(dag, s, x);
    if s.workers[w].Busy? {
      BusyCanStep(dag, s, w);
    } else if s.workers[w] == Idle && s.queue != [] {
      assert s.queue[0] in s.queue;
      assert Enabled(dag, s, w, Dequeue);
    }
  }

  /** A finished run has brought all workers out of their loops exactly when nobody threw. Otherwise every worker that
      did not throw waits for ever for a producer that nobody will remove. */
  lemma {:induction false} EndsIffNobodyThrew(dag: Graph, workers: nat, states: seq<State>, events: seq<Event>)
    requires WellFormed(dag) && IsRun(dag, workers, states, events) && !CanStep(dag, states[|states| - 1])
    ensures var last := states[|states| - 1];
            && ((forall w :: 0 <= w < workers ==> w < |last.workers| && AtRest(last.workers[w])) <==> NobodyThrew(last))
            && (!NobodyThrew(last) ==> forall w: nat :: w < workers ==>
                  w < |last.workers| && (last.workers[w].Thrown? || Waits(last, w)))
  {
    var n := |states| - 1;
    var last := states[n];
    RunKeepsInv(dag, workers, states, events, n);
    RunKeepsVerdicts(dag, workers, states, events, n);
    WorkerCountStays(dag, workers, states, events, n);
    forall w: nat | w < workers
      ensures NobodyThrew(last) ==> AtRest(last.workers[w])
      ensures !NobodyThrew(last) ==> last.workers[w].Thrown? || Waits(last, w)
    {
      if NobodyThrew(last) {
        if !AtRest(last.workers[w]) {
          NoDeadlock(dag, last, w);
        }
      } else {
        StuckAfterThrow(dag, last, w);
      }
    }
  }

  /** One request and two workers: the first takes the request and throws, the second waits for ever. */
  lemma {:induction false} ThrowBlocksTheOther() returns (states: seq<State>, events: seq<Event>)
    ensures IsRun([{}], 2, states, events) && events == [(0, Dequeue), (0, Throw)]
    ensures !CanStep([{}], states[2]) && states[2].workers == [Thrown(0), Idle] && Waits(states[2], 1)
  {
    var dag: Graph := [{}];
    assert Predecessors(dag, 0) == {};
    assert SourcePrefix(dag, 0) == 1;
    var s0 := Initial(dag, 2);
    assert s0.queue == [0] && s0.workers == [Idle, Idle] && s0.phase == [Queued];
    var s1 := Step(dag, s0, 0, Dequeue);
    assert s1.queue == [] && s1.workers == [Busy(0), Idle] && s1.phase == [Running] && s1.producers == 1;
    var s2 := Step(dag, s1, 0, Throw);
    assert s2.workers == [Thrown(0), Idle];
    states, events := [s0, s1, s2], [(0, Dequeue), (0, Throw)];
  }
}
