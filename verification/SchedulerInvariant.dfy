/** What every step of the scheduler protocol keeps, for every graph (cyclic or not) and any number of workers. */
module SchedulerInvariant {
  import opened Dag
  import opened Scheduler

  predicate Active(p: Phase) {
    !p.Blocked? && !p.Queued? && !p.Finished?
  }

  /** A request in phase `p` has decremented the in-degree of its neighbour v. */
  predicate Decremented(p: Phase, v: nat) {
    match p
    case Submitting(todo) => v !in todo
    case Pushing(todo, _) => v !in todo
    case Cleared => true
    case Counted => true
    case Finished => true
    case _ => false
  }

  predicate Uncounted(p: Phase) {
    !p.Counted? && !p.Finished?
  }

  predicate Holds(w: Worker, r: nat) {
    w == Busy(r) || w == Thrown(r)
  }

  ghost function Pending(dag: Graph, phase: seq<Phase>, v: nat): set<nat>
    requires |phase| == |dag|
  {
    set u | 0 <= u < |dag| && v in dag[u] && !Decremented(phase[u], v)
  }

  ghost function ActiveSet(phase: seq<Phase>): set<nat> {
    set r | 0 <= r < |phase| && Active(phase[r])
  }

  ghost function UncountedSet(phase: seq<Phase>): set<nat> {
    set r | 0 <= r < |phase| && Uncounted(phase[r])
  }

  /** Each in-degree counter equals the number of predecessors that have not yet decremented it. */
  ghost predicate Degrees(dag: Graph, phase: seq<Phase>, inDegree: seq<int>) {
    |phase| == |inDegree| == |dag| && forall v :: 0 <= v < |dag| ==> inDegree[v] == |Pending(dag, phase, v)|
  }

  /** A request leaves `Blocked` only when its counter is zero. */
  ghost predicate Released(phase: seq<Phase>, inDegree: seq<int>) {
    |phase| == |inDegree| && forall v :: 0 <= v < |phase| && phase[v] != Blocked ==> inDegree[v] == 0
  }

  /** What a submitting request still has to do is part of its adjacency list. */
  ghost predicate Lists(dag: Graph, phase: seq<Phase>) {
    |phase| == |dag| && forall u :: 0 <= u < |phase| && (phase[u].Submitting? || phase[u].Pushing?) ==>
        phase[u].todo <= dag[u]
  }

  /** u is about to enqueue v. */
  predicate Pushes(phase: seq<Phase>, u: int, v: nat) {
    0 <= u < |phase| && phase[u].Pushing? && phase[u].v == v
  }

  /** A node that is about to be enqueued is still blocked, its counter is zero, and nobody else enqueues it. */
  ghost predicate Pushed(dag: Graph, phase: seq<Phase>, inDegree: seq<int>) {
    && |phase| == |inDegree| == |dag|
    && (forall u, v: nat :: Pushes(phase, u, v) ==> v < |dag| && v in dag[u] && phase[v] == Blocked && inDegree[v] == 0)
    && (forall u, t, v: nat :: Pushes(phase, u, v) && Pushes(phase, t, v) ==> u == t)
  }

  /** The queue holds the ready requests, each once. */
  ghost predicate QueueOk(phase: seq<Phase>, queue: seq<nat>) {
    && (forall r :: r in queue <==> 0 <= r < |phase| && phase[r] == Queued)
    && (forall a, b :: 0 <= a < b < |queue| ==> queue[a] != queue[b])
  }

  ghost predicate Held(workers: seq<Worker>, r: nat) {
    exists w :: 0 <= w < |workers| && Holds(workers[w], r)
  }

  /** The requests in flight are those held by a worker, and each is held by one worker only. */
  ghost predicate Holders(phase: seq<Phase>, workers: seq<Worker>) {
    && (forall r: nat :: Held(workers, r) <==> r < |phase| && Active(phase[r]))
    && (forall w, x, r :: 0 <= w < |workers| && 0 <= x < |workers| && Holds(workers[w], r) && Holds(workers[x], r) ==>
        w == x)
  }

  /** The producer count is the number of requests in flight; `remaining` counts what is not yet counted. */
  ghost predicate Counters(phase: seq<Phase>, producers: int, remaining: int) {
    producers == |ActiveSet(phase)| && remaining == |UncountedSet(phase)|
  }

  predicate Gone(p: Phase) {
    p.Cleared? || p.Counted? || p.Finished?
  }

  ghost predicate Alive(phase: seq<Phase>, alive: seq<bool>) {
    |phase| == |alive| && forall r :: 0 <= r < |phase| ==> (alive[r] <==> !Gone(phase[r]))
  }

  ghost predicate LateSource(dag: Graph, v: nat) {
    Predecessors(dag, v) == {} && v >= SourcePrefix(dag, 0)
  }

  /** A blocked request whose counter is zero is about to be enqueued, or is a source outside the initial prefix. */
  ghost predicate Zeros(dag: Graph, phase: seq<Phase>, inDegree: seq<int>) {
    |phase| == |inDegree| == |dag| && forall v: nat :: v < |phase| && phase[v] == Blocked && inDegree[v] == 0 ==>
      (exists u :: Pushes(phase, u, v)) || LateSource(dag, v)
  }

  /** Requests are handed out once, predecessors first; sources outside the initial prefix never are. */
  ghost predicate Handed(dag: Graph, phase: seq<Phase>, handed: seq<nat>) {
    && |phase| == |dag|
    && (forall r :: r in handed <==> 0 <= r < |phase| && !phase[r].Blocked? && !phase[r].Queued?)
    && (forall a, b :: 0 <= a < b < |handed| ==> handed[a] != handed[b])
    && (forall b, u :: 0 <= b < |handed| && 0 <= u < |dag| && handed[b] in dag[u] ==> u in handed[..b])
    && (forall v: nat :: v < |phase| && LateSource(dag, v) ==> phase[v] == Blocked)
  }

  ghost predicate Inv(dag: Graph, s: State) {
    && WellFormed(dag) && Degrees(dag, s.phase, s.inDegree) && Released(s.phase, s.inDegree) && Lists(dag, s.phase)
    && Pushed(dag, s.phase, s.inDegree) && QueueOk(s.phase, s.queue) && Holders(s.phase, s.workers)
    && Counters(s.phase, s.producers, s.remaining) && Alive(s.phase, s.alive) && Zeros(dag, s.phase, s.inDegree)
    && Handed(dag, s.phase, s.handed)
  }

  // ---------- the safety consequences ----------

  /** Whoever is no longer blocked has every predecessor past execution, with its edge already processed. */
  lemma {:induction false} PredecessorsDone(dag: Graph, s: State, u: nat, v: nat)
    requires Inv(dag, s) && u < |dag| && v in dag[u] && s.phase[v] != Blocked
    ensures Decremented(s.phase[u], v)
  {
    assert Pending(dag, s.phase, v) == {};
    assert u !in Pending(dag, s.phase, v);
  }

  /** `submitResult` never touches a node that was reset, and the in-degree it decrements is positive. */
  lemma {:induction false} DecrementIsSafe(dag: Graph, s: State, w: nat, v: nat)
    requires Inv(dag, s) && Enabled(dag, s, w, Decrement(v))
    ensures s.alive[v] && s.inDegree[v] > 0 && s.phase[v] == Blocked
  {
    var r := s.workers[w].r;
    assert r in Pending(dag, s.phase, v);
  }

  // ---------- sets under updates ----------

  lemma {:induction false} PendingFrame(dag: Graph, phase: seq<Phase>, r: nat, p: Phase, v: nat)
    requires |phase| == |dag| && r < |dag| && (v in dag[r] ==> Decremented(p, v) == Decremented(phase[r], v))
    ensures Pending(dag, phase[r := p], v) == Pending(dag, phase, v)
  {
  }

  lemma {:induction false} DegreesFrame(dag: Graph, phase: seq<Phase>, inDegree: seq<int>, r: nat, p: Phase)
    requires Degrees(dag, phase, inDegree) && r < |dag|
    requires forall v :: v in dag[r] ==> Decremented(p, v) == Decremented(phase[r], v)
    ensures Degrees(dag, phase[r := p], inDegree)
  {
    forall v | 0 <= v < |dag|
      ensures inDegree[v] == |Pending(dag, phase[r := p], v)|
    {
      PendingFrame(dag, phase, r, p, v);
    }
  }

  lemma {:induction false} SizeWithout(a: set<nat>, r: nat)
    ensures |a| == |a - {r}| + if r in a then 1 else 0
  {
    if r in a {
      assert a == (a - {r}) + {r};
    } else {
      assert a - {r} == a;
    }
  }

  lemma {:induction false} ActiveUpdate(phase: seq<Phase>, r: nat, p: Phase)
    requires r < |phase|
    ensures |ActiveSet(phase[r := p])| ==
            |ActiveSet(phase)| + (if Active(p) then 1 else 0) - (if Active(phase[r]) then 1 else 0)
  {
    var a, b := ActiveSet(phase), ActiveSet(phase[r := p]);
    assert r in a <==> Active(phase[r]);
    assert r in b <==> Active(p);
    assert b - {r} == a - {r};
    SizeWithout(a, r);
    SizeWithout(b, r);
  }

  lemma {:induction false} UncountedUpdate(phase: seq<Phase>, r: nat, p: Phase)
    requires r < |phase|
    ensures |UncountedSet(phase[r := p])| ==
            |UncountedSet(phase)| + (if Uncounted(p) then 1 else 0) - (if Uncounted(phase[r]) then 1 else 0)
  {
    var a, b := UncountedSet(phase), UncountedSet(phase[r := p]);
    assert r in a <==> Uncounted(phase[r]);
    assert r in b <==> Uncounted(p);
    assert b - {r} == a - {r};
    SizeWithout(a, r);
    SizeWithout(b, r);
  }

  // ---------- every step keeps the invariant ----------

  /** A worker changes its state but not what it holds. */
  lemma {:induction false} HoldersSame(phase: seq<Phase>, workers: seq<Worker>, w: nat, x: Worker)
    requires Holders(phase, workers) && w < |workers| && (forall r :: Holds(x, r) <==> Holds(workers[w], r))
    ensures Holders(phase, workers[w := x])
  {
    var after := workers[w := x];
    forall r: nat
      ensures Held(after, r) <==> Held(workers, r)
    {
      if y :| 0 <= y < |workers| && Holds(workers[y], r) {
        assert Holds(after[y], r);
      }
      if y :| 0 <= y < |workers| && Holds(after[y], r) {
        assert Holds(workers[y], r);
      }
    }
  }

  lemma {:induction false} PushesFrame(phase: seq<Phase>, r: nat, p: Phase)
    requires r < |phase| && !phase[r].Pushing? && !p.Pushing?
    ensures forall u, v: nat :: Pushes(phase[r := p], u, v) <==> Pushes(phase, u, v)
  {
  }

  lemma {:induction false} PushedFrame(dag: Graph, phase: seq<Phase>, inDegree: seq<int>, r: nat, p: Phase)
    requires Pushed(dag, phase, inDegree) && Zeros(dag, phase, inDegree)
    requires r < |dag| && phase[r] != Blocked && p != Blocked && !phase[r].Pushing? && !p.Pushing?
    ensures Pushed(dag, phase[r := p], inDegree) && Zeros(dag, phase[r := p], inDegree)
  {
    PushesFrame(phase, r, p);
    var after := phase[r := p];
    forall u, v: nat | Pushes(after, u, v)
      ensures v < |dag| && v in dag[u] && after[v] == Blocked && inDegree[v] == 0
    {
      assert Pushes(phase, u, v);
    }
    forall u, t, v: nat | Pushes(after, u, v) && Pushes(after, t, v)
      ensures u == t
    {
      assert Pushes(phase, u, v) && Pushes(phase, t, v);
    }
    forall v: nat | v < |after| && after[v] == Blocked && inDegree[v] == 0
      ensures (exists u :: Pushes(after, u, v)) || LateSource(dag, v)
    {
      if u :| Pushes(phase, u, v) {
        assert Pushes(after, u, v);
      }
    }
  }

  /** A released request changes its phase and nothing is decremented or pushed: the graph side is unaffected. */
  lemma {:induction false} GraphFrame(dag: Graph, s: State, r: nat, p: Phase)
    requires Inv(dag, s) && r < |dag| && s.phase[r] != Blocked && p != Blocked && !s.phase[r].Pushing? && !p.Pushing?
    requires forall v :: v in dag[r] ==> Decremented(p, v) == Decremented(s.phase[r], v)
    requires p.Submitting? ==> p.todo <= dag[r]
    ensures var phase := s.phase[r := p];
            && Degrees(dag, phase, s.inDegree) && Released(phase, s.inDegree) && Lists(dag, phase)
            && Pushed(dag, phase, s.inDegree) && Zeros(dag, phase, s.inDegree)
  {
    DegreesFrame(dag, s.phase, s.inDegree, r, p);
    PushedFrame(dag, s.phase, s.inDegree, r, p);
  }

  /** A request that was handed out changes its phase: queue and order are unaffected. */
  lemma {:induction false} OrderFrame(dag: Graph, s: State, r: nat, p: Phase)
    requires Inv(dag, s) && r < |dag| && !s.phase[r].Blocked? && !s.phase[r].Queued? && !p.Blocked? && !p.Queued?
    ensures QueueOk(s.phase[r := p], s.queue) && Handed(dag, s.phase[r := p], s.handed)
  {
  }

  /** A request moves from one active phase to another and nothing is decremented or pushed. */
  lemma {:induction false} PhaseOnly(dag: Graph, s: State, r: nat, p: Phase)
    requires Inv(dag, s) && r < |dag| && Active(s.phase[r]) && Active(p) && !s.phase[r].Pushing? && !p.Pushing?
    requires forall v :: v in dag[r] ==> Decremented(p, v) == Decremented(s.phase[r], v)
    requires p.Submitting? ==> p.todo <= dag[r]
    ensures var phase := s.phase[r := p];
            && Degrees(dag, phase, s.inDegree) && Released(phase, s.inDegree) && Lists(dag, phase)
            && Pushed(dag, phase, s.inDegree) && QueueOk(phase, s.queue) && Holders(phase, s.workers)
            && Zeros(dag, phase, s.inDegree) && Handed(dag, phase, s.handed)
            && s.producers == |ActiveSet(phase)|
  {
    GraphFrame(dag, s, r, p);
    OrderFrame(dag, s, r, p);
    ActiveUpdate(s.phase, r, p);
  }

  lemma {:induction false} KeepExecute(dag: Graph, s: State, w: nat)
    requires Inv(dag, s) && Enabled(dag, s, w, Execute)
    ensures Inv(dag, Step(dag, s, w, Execute))
  {
    var r := s.workers[w].r;
    PhaseOnly(dag, s, r, Submitting(dag[r]));
    UncountedUpdate(s.phase, r, Submitting(dag[r]));
  }

  lemma {:induction false} KeepReset(dag: Graph, s: State, w: nat)
    requires Inv(dag, s) && Enabled(dag, s, w, Reset)
    ensures Inv(dag, Step(dag, s, w, Reset))
  {
    var r := s.workers[w].r;
    PhaseOnly(dag, s, r, Cleared);
    UncountedUpdate(s.phase, r, Cleared);
  }

  lemma {:induction false} KeepCount(dag: Graph, s: State, w: nat)
    requires Inv(dag, s) && Enabled(dag, s, w, Count)
    ensures Inv(dag, Step(dag, s, w, Count))
  {
    var r := s.workers[w].r;
    PhaseOnly(dag, s, r, Counted);
    UncountedUpdate(s.phase, r, Counted);
  }

  lemma {:induction false} KeepIdling(dag: Graph, s: State, w: nat, a: Action)
    requires Inv(dag, s) && Enabled(dag, s, w, a) && (a == Underflow || a == Check || a == Throw)
    ensures Inv(dag, Step(dag, s, w, a))
  {
    HoldersSame(s.phase, s.workers, w, Step(dag, s, w, a).workers[w]);
  }

  /** Worker w takes up request r. */
  lemma {:induction false} HoldersTake(phase: seq<Phase>, workers: seq<Worker>, w: nat, r: nat, p: Phase)
    requires Holders(phase, workers) && w < |workers| && workers[w] == Idle
    requires r < |phase| && !Active(phase[r]) && Active(p)
    ensures Holders(phase[r := p], workers[w := Busy(r)])
  {
    var after := workers[w := Busy(r)];
    forall q: nat
      ensures Held(after, q) <==> q == r || Held(workers, q)
    {
      if y :| 0 <= y < |workers| && Holds(workers[y], q) {
        assert Holds(after[y], q);
      }
      if y :| 0 <= y < |workers| && Holds(after[y], q) && y != w {
        assert Holds(workers[y], q);
      }
      assert Holds(after[w], r);
    }
    assert !Held(workers, r);
    forall x | 0 <= x < |after| && x != w
      ensures !Holds(after[x], r)
    {
      assert after[x] == workers[x];
    }
  }

  /** Worker w gives up request r. */
  lemma {:induction false} HoldersDrop(phase: seq<Phase>, workers: seq<Worker>, w: nat, r: nat, p: Phase)
    requires Holders(phase, workers) && w < |workers| && workers[w] == Busy(r) && r < |phase| && !Active(p)
    ensures Holders(phase[r := p], workers[w := Idle])
  {
    var after := workers[w := Idle];
    assert Holds(workers[w], r);
    forall q: nat
      ensures Held(after, q) <==> q != r && Held(workers, q)
    {
      if y :| 0 <= y < |workers| && Holds(workers[y], q) {
        if q != r {
          assert y != w && Holds(after[y], q);
        }
      }
      if y :| 0 <= y < |workers| && Holds(after[y], q) {
        assert Holds(workers[y], q);
      }
    }
  }

  lemma {:induction false} KeepRelease(dag: Graph, s: State, w: nat)
    requires Inv(dag, s) && Enabled(dag, s, w, Release)
    ensures Inv(dag, Step(dag, s, w, Release))
  {
    var r := s.workers[w].r;
    GraphFrame(dag, s, r, Finished);
    OrderFrame(dag, s, r, Finished);
    HoldersDrop(s.phase, s.workers, w, r, Finished);
    ActiveUpdate(s.phase, r, Finished);
    UncountedUpdate(s.phase, r, Finished);
  }

  /** The order in which requests are handed out stays topological. */
  lemma {:induction false} HandedGrows(dag: Graph, s: State, r: nat)
    requires Inv(dag, s) && r < |dag| && s.phase[r] == Queued
    ensures Handed(dag, s.phase[r := Running], s.handed + [r])
  {
    var after := s.handed + [r];
    forall b, u | 0 <= b < |after| && 0 <= u < |dag| && after[b] in dag[u]
      ensures u in after[..b]
    {
      if b < |s.handed| {
        assert after[..b] == s.handed[..b];
      } else {
        assert after[..b] == s.handed;
        PredecessorsDone(dag, s, u, r);
      }
    }
  }

  lemma {:induction false} QueueTail(phase: seq<Phase>, queue: seq<nat>, p: Phase)
    requires QueueOk(phase, queue) && queue != [] && queue[0] < |phase| && p != Queued
    ensures QueueOk(phase[queue[0] := p], queue[1..])
  {
    var rest := queue[1..];
    forall r
      ensures r in rest <==> r in queue && r != queue[0]
    {
      if r in rest {
        var k :| 0 <= k < |rest| && rest[k] == r;
        assert queue[k + 1] == r;
      }
      if r in queue && r != queue[0] {
        var k :| 0 <= k < |queue| && queue[k] == r;
        assert rest[k - 1] == r;
      }
    }
  }

  lemma {:induction false} KeepDequeue(dag: Graph, s: State, w: nat)
    requires Inv(dag, s) && Enabled(dag, s, w, Dequeue)
    ensures Inv(dag, Step(dag, s, w, Dequeue))
  {
    var r := s.queue[0];
    assert s.phase[r] == Queued;
    GraphFrame(dag, s, r, Running);
    HoldersTake(s.phase, s.workers, w, r, Running);
    ActiveUpdate(s.phase, r, Running);
    UncountedUpdate(s.phase, r, Running);
    QueueTail(s.phase, s.queue, Running);
    HandedGrows(dag, s, r);
  }

  /** Decrementing one counter removes exactly one pending predecessor. */
  lemma {:induction false} DegreesDecrement(dag: Graph, s: State, r: nat, v: nat, p: Phase)
    requires Inv(dag, s) && r < |dag| && s.phase[r].Submitting? && v in s.phase[r].todo && v < |dag|
    requires (p.Submitting? || p.Pushing?) && p.todo == s.phase[r].todo - {v}
    ensures Degrees(dag, s.phase[r := p], s.inDegree[v := s.inDegree[v] - 1])
  {
    var phase, inDegree := s.phase[r := p], s.inDegree[v := s.inDegree[v] - 1];
    forall x | 0 <= x < |dag|
      ensures inDegree[x] == |Pending(dag, phase, x)|
    {
      if x == v {
        assert r in Pending(dag, s.phase, v);
        assert Pending(dag, phase, v) == Pending(dag, s.phase, v) - {r};
      } else {
        PendingFrame(dag, s.phase, r, p, x);
      }
    }
  }

  /** What is pushed, and what has a zero counter, after one decrement. */
  lemma {:induction false} PushedDecrement(dag: Graph, s: State, r: nat, v: nat, todo: set<nat>)
    requires Inv(dag, s) && r < |dag| && s.phase[r].Submitting? && v < |dag| && v in dag[r]
    requires s.inDegree[v] > 0 && s.phase[v] == Blocked
    ensures var d := s.inDegree[v] - 1;
            var phase := s.phase[r := if d == 0 then Pushing(todo, v) else Submitting(todo)];
            var inDegree := s.inDegree[v := d];
            Pushed(dag, phase, inDegree) && Zeros(dag, phase, inDegree) && Released(phase, inDegree)
  {
    var d := s.inDegree[v] - 1;
    var p := if d == 0 then Pushing(todo, v) else Submitting(todo);
    var phase, inDegree := s.phase[r := p], s.inDegree[v := d];
    forall u, x: nat
      ensures Pushes(phase, u, x) <==> Pushes(s.phase, u, x) || (d == 0 && u == r && x == v)
    {
    }
    forall x: nat | x < |phase| && phase[x] == Blocked && inDegree[x] == 0
      ensures (exists u :: Pushes(phase, u, x)) || LateSource(dag, x)
    {
      if x == v {
        assert Pushes(phase, r, v);
      } else if u :| Pushes(s.phase, u, x) {
        assert Pushes(phase, u, x);
      }
    }
  }

  lemma {:induction false} KeepDecrement(dag: Graph, s: State, w: nat, v: nat)
    requires Inv(dag, s) && Enabled(dag, s, w, Decrement(v))
    ensures Inv(dag, Step(dag, s, w, Decrement(v)))
  {
    var r := s.workers[w].r;
    var todo := s.phase[r].todo - {v};
    DecrementIsSafe(dag, s, w, v);
    var p := if s.inDegree[v] - 1 == 0 then Pushing(todo, v) else Submitting(todo);
    DegreesDecrement(dag, s, r, v, p);
    PushedDecrement(dag, s, r, v, todo);
    DecrementFrame(dag, s, r, p);
  }

  /** Worker, queue and counters do not notice a decrement. */
  lemma {:induction false} DecrementFrame(dag: Graph, s: State, r: nat, p: Phase)
    requires Inv(dag, s) && r < |dag| && s.phase[r].Submitting? && (p.Submitting? || p.Pushing?) &&
             p.todo <= s.phase[r].todo
    ensures var phase := s.phase[r := p];
            && Lists(dag, phase) && QueueOk(phase, s.queue) && Handed(dag, phase, s.handed) && Holders(phase, s.workers)
            && Counters(phase, s.producers, s.remaining) && Alive(phase, s.alive)
  {
    OrderFrame(dag, s, r, p);
    ActiveUpdate(s.phase, r, p);
    UncountedUpdate(s.phase, r, p);
  }

  lemma {:induction false} PushDegrees(dag: Graph, phase: seq<Phase>, inDegree: seq<int>, r: nat, v: nat)
    requires Degrees(dag, phase, inDegree) && Released(phase, inDegree) && Lists(dag, phase) &&
             Pushed(dag, phase, inDegree)
    requires Pushes(phase, r, v) && v < |dag|
    ensures r != v
    ensures var after := phase[r := Submitting(phase[r].todo)][v := Queued];
            Degrees(dag, after, inDegree) && Released(after, inDegree) && Lists(dag, after)
  {
    var p := Submitting(phase[r].todo);
    DegreesFrame(dag, phase, inDegree, r, p);
    DegreesFrame(dag, phase[r := p], inDegree, v, Queued);
  }

  lemma {:induction false} PushPushed(dag: Graph, phase: seq<Phase>, inDegree: seq<int>, r: nat, v: nat)
    requires Pushed(dag, phase, inDegree) && Zeros(dag, phase, inDegree) && Pushes(phase, r, v) && v < |dag| && r != v
    ensures var after := phase[r := Submitting(phase[r].todo)][v := Queued];
            Pushed(dag, after, inDegree) && Zeros(dag, after, inDegree)
  {
    var after := phase[r := Submitting(phase[r].todo)][v := Queued];
    forall u, x: nat
      ensures Pushes(after, u, x) <==> Pushes(phase, u, x) && u != r
    {
    }
    forall u, x: nat | Pushes(after, u, x)
      ensures x < |dag| && x in dag[u] && after[x] == Blocked && inDegree[x] == 0
    {
      assert Pushes(phase, u, x);
    }
    forall x: nat | x < |after| && after[x] == Blocked && inDegree[x] == 0
      ensures (exists u :: Pushes(after, u, x)) || LateSource(dag, x)
    {
      if u :| Pushes(phase, u, x) {
        assert Pushes(after, u, x);
      }
    }
  }

  lemma {:induction false} KeepPush(dag: Graph, s: State, w: nat)
    requires Inv(dag, s) && Enabled(dag, s, w, Push)
    ensures Inv(dag, Step(dag, s, w, Push))
  {
    var r := s.workers[w].r;
    var v := s.phase[r].v;
    var p := Submitting(s.phase[r].todo);
    assert Pushes(s.phase, r, v);
    PushDegrees(dag, s.phase, s.inDegree, r, v);
    PushPushed(dag, s.phase, s.inDegree, r, v);
    var mid := s.phase[r := p];
    ActiveUpdate(s.phase, r, p);
    ActiveUpdate(mid, v, Queued);
    UncountedUpdate(s.phase, r, p);
    UncountedUpdate(mid, v, Queued);
    PushQueue(dag, s, r, v);
  }

  lemma {:induction false} PushQueue(dag: Graph, s: State, r: nat, v: nat)
    requires Inv(dag, s) && r < |dag| && Pushes(s.phase, r, v) && v < |dag| && r != v
    ensures var phase := s.phase[r := Submitting(s.phase[r].todo)][v := Queued];
            QueueOk(phase, s.queue + [v]) && Handed(dag, phase, s.handed) && Holders(phase, s.workers)
  {
    assert s.phase[v] == Blocked && v in dag[r];
    assert !LateSource(dag, v) by {
      assert r in Predecessors(dag, v);
    }
    hide Inv, Pushed, Degrees, Released, Lists, Counters, Alive, Zeros, LateSource;
    var phase := s.phase[r := Submitting(s.phase[r].todo)][v := Queued];
    QueueGrows(s.phase, phase, s.queue, v);
    PhasesActAlike(dag, s.phase, phase, s.handed, s.workers, v);
  }

  lemma {:induction false} QueueGrows(phase: seq<Phase>, next: seq<Phase>, queue: seq<nat>, v: nat)
    requires QueueOk(phase, queue) && |next| == |phase| && v < |phase| && phase[v] != Queued && next[v] == Queued
    requires forall r :: 0 <= r < |phase| && r != v ==> (next[r] == Queued <==> phase[r] == Queued)
    ensures QueueOk(next, queue + [v])
  {
  }

  /** The phases differ in nothing that hand-outs and workers depend on. */
  lemma {:induction false} PhasesActAlike(dag: Graph, phase: seq<Phase>, next: seq<Phase>, handed: seq<nat>,
                                          workers: seq<Worker>, v: nat)
    requires Handed(dag, phase, handed) && Holders(phase, workers) && |next| == |phase| && v < |phase|
    requires phase[v] == Blocked && next[v] == Queued && !LateSource(dag, v)
    requires forall r :: 0 <= r < |phase| && r != v ==>
               && (next[r] == Blocked <==> phase[r] == Blocked) && (next[r] == Queued <==> phase[r] == Queued)
               && (Active(next[r]) <==> Active(phase[r]))
    ensures Handed(dag, next, handed) && Holders(next, workers)
  {
    hide LateSource;
  }

  /** Every step of every worker keeps the invariant. */
  lemma {:induction false} InvStep(dag: Graph, s: State, w: nat, a: Action)
    requires Inv(dag, s) && Enabled(dag, s, w, a)
    ensures Inv(dag, Step(dag, s, w, a))
  {
    match a
    case Dequeue => KeepDequeue(dag, s, w);
    case Underflow => KeepIdling(dag, s, w, a);
    case Check => KeepIdling(dag, s, w, a);
    case Execute => KeepExecute(dag, s, w);
    case Throw => KeepIdling(dag, s, w, a);
    case Decrement(v) => KeepDecrement(dag, s, w, v);
    case Push => KeepPush(dag, s, w);
    case Reset => KeepReset(dag, s, w);
    case Count => KeepCount(dag, s, w);
    case Release => KeepRelease(dag, s, w);
  }

  lemma {:induction false} InvInitial(dag: Graph, workers: nat)
    requires WellFormed(dag)
    ensures Inv(dag, Initial(dag, workers))
  {
    InitialQueue(dag, workers);
    InitialDegrees(dag, workers);
    InitialHolders(dag, workers);
    hide QueueOk, Handed, Degrees, Released, Lists, Pushed, Zeros, Counters, Alive, Holders, Initial;
  }

  lemma {:induction false} InitialQueue(dag: Graph, workers: nat)
    ensures var s := Initial(dag, workers); QueueOk(s.phase, s.queue) && Handed(dag, s.phase, s.handed)
  {
    var s := Initial(dag, workers);
    forall r | 0 <= r < SourcePrefix(dag, 0)
      ensures r in s.queue
    {
      assert s.queue[r] == r;
    }
    hide SourcePrefix, Predecessors;
  }

  lemma {:induction false} InitialDegrees(dag: Graph, workers: nat)
    requires WellFormed(dag)
    ensures var s := Initial(dag, workers);
            && Degrees(dag, s.phase, s.inDegree) && Released(s.phase, s.inDegree) && Lists(dag, s.phase)
            && Pushed(dag, s.phase, s.inDegree) && Zeros(dag, s.phase, s.inDegree)
  {
    var s := Initial(dag, workers);
    InitialPhases(dag, s.phase);
    SourcesHaveNone(dag);
    hide Pending, Predecessors, SourcePrefix;
    forall v: nat | v < |dag| && s.phase[v] == Blocked && s.inDegree[v] == 0
      ensures LateSource(dag, v)
    {
      assert Predecessors(dag, v) == {};
    }
  }

  lemma {:induction false} SourcesHaveNone(dag: Graph)
    ensures forall v :: 0 <= v < SourcePrefix(dag, 0) ==> Predecessors(dag, v) == {}
  {
  }

  lemma {:induction false} InitialHolders(dag: Graph, workers: nat)
    ensures var s := Initial(dag, workers);
            Counters(s.phase, s.producers, s.remaining) && Alive(s.phase, s.alive) && Holders(s.phase, s.workers)
  {
    var s := Initial(dag, workers);
    InitialPhases(dag, s.phase);
    AllUncounted(s.phase);
    hide SourcePrefix, Predecessors, Pending, ActiveSet, UncountedSet;
  }

  lemma {:induction false} InitialPhases(dag: Graph, phase: seq<Phase>)
    requires |phase| == |dag| && forall v :: 0 <= v < |dag| ==> phase[v] == Queued || phase[v] == Blocked
    ensures ActiveSet(phase) == {} && forall v :: 0 <= v < |dag| ==> Pending(dag, phase, v) == Predecessors(dag, v)
  {
    forall v | 0 <= v < |dag|
      ensures Pending(dag, phase, v) == Predecessors(dag, v)
    {
    }
  }

  lemma {:induction false} AllUncounted(phase: seq<Phase>)
    requires forall r :: 0 <= r < |phase| ==> Uncounted(phase[r])
    ensures |UncountedSet(phase)| == |phase|
  {
    if phase == [] {
      assert UncountedSet(phase) == {};
    } else {
      var n := |phase| - 1;
      AllUncounted(phase[..n]);
      assert UncountedSet(phase) == UncountedSet(phase[..n]) + {n};
    }
  }
}
