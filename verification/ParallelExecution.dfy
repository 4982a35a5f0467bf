/** `parallelExecuteRequests` (src/validator/RequestProcessor.hpp:87-109): workers run the scheduler protocol and,
    between taking a request and submitting it, look at the shared heap byte by byte or at the size of a chunk and
    write back effect by effect, with any interleaving. Every complete run gives the heap and the responses of the
    serial execution. */
module ParallelExecution {
  import opened Access
  import opened Dag
  import opened Effects
  import opened WriteBacks
  import opened SerialOrder
  import S = Scheduler
  import opened SchedulerInvariant
  import opened SchedulerRuns

  /** A request first reads, then writes back its first `done` effects. */
  datatype Progress = Reading(hist: seq<int>) | Writing(out: Output, done: nat)

  datatype Exec = Exec(sched: S.State, heap: Heap, progress: seq<Progress>)

  datatype Move = Protocol(w: nat, a: S.Action) | LookUp(w: nat) | Decide(w: nat) | WriteBack(w: nat)

  /** Worker w executes request r. */
  predicate Runs(x: Exec, w: nat, r: nat) {
    && w < |x.sched.workers| && x.sched.workers[w] == S.Busy(r)
    && r < |x.sched.phase| == |x.progress| && x.sched.phase[r] == S.Running
  }

  predicate Done(p: Progress) {
    p.Writing? && p.done == |p.out.effects|
  }

  ghost predicate CanMove(dag: Graph, j: Job, x: Exec, m: Move) {
    |j.reqs| == |x.progress| == |dag| == |x.sched.phase| &&
    match m
    case Protocol(w, a) =>
      && S.Enabled(dag, x.sched, w, a)
      && (a == S.Execute ==> Done(x.progress[x.sched.workers[w].r]))
    case LookUp(w) =>
      w < |x.sched.workers| && x.sched.workers[w].Busy? && Runs(x, w, x.sched.workers[w].r) &&
      var p := x.progress[x.sched.workers[w].r];
      p.Reading? && j.reqs[x.sched.workers[w].r].next(p.hist).Load?
    case Decide(w) =>
      w < |x.sched.workers| && x.sched.workers[w].Busy? && Runs(x, w, x.sched.workers[w].r) &&
      var p := x.progress[x.sched.workers[w].r];
      p.Reading? && j.reqs[x.sched.workers[w].r].next(p.hist).Finish?
    case WriteBack(w) =>
      w < |x.sched.workers| && x.sched.workers[w].Busy? && Runs(x, w, x.sched.workers[w].r) &&
      var p := x.progress[x.sched.workers[w].r];
      p.Writing? && p.done < |p.out.effects|
  }

  ghost function After(dag: Graph, j: Job, x: Exec, m: Move): Exec
    requires CanMove(dag, j, x, m)
  {
    match m
    case Protocol(w, a) => x.(sched := S.Step(dag, x.sched, w, a))
    case LookUp(w) =>
      var r := x.sched.workers[w].r;
      var p := x.progress[r];
      var next := j.reqs[r].next(p.hist);
      x.(progress := x.progress[r := Reading(p.hist + [Seen(next.look)(x.heap)])])
    case Decide(w) =>
      var r := x.sched.workers[w].r;
      x.(progress := x.progress[r := Writing(j.reqs[r].next(x.progress[r].hist).out, 0)])
    case WriteBack(w) =>
      var r := x.sched.workers[w].r;
      var p := x.progress[r];
      x.(heap := j.act(x.heap, p.out.effects[p.done]), progress := x.progress[r := Writing(p.out, p.done + 1)])
  }

  ghost function Start(dag: Graph, j: Job, workers: nat): Exec {
    Exec(S.Initial(dag, workers), j.h, seq(|j.reqs|, _ => Reading([])))
  }

  ghost predicate IsExecution(dag: Graph, j: Job, workers: nat, xs: seq<Exec>, moves: seq<Move>) {
    && S.Starts(dag) && |xs| == |moves| + 1 && xs[0] == Start(dag, j, workers)
    && forall k :: 0 <= k < |moves| ==> CanMove(dag, j, xs[k], moves[k]) && xs[k + 1] == After(dag, j, xs[k], moves[k])
  }

  /** Conflicting requests are ordered by a path from the smaller to the greater identifier, and shrinkers comply with
      the lower bounds. */
  ghost predicate CollisionsOrdered(dag: Graph, j: Job) {
    && (forall r: nat, d :: r < |j.reqs| && d in j.reqs[r].blocks ==> Compliant(j.floors, d))
    && forall u: nat, v: nat, d, f ::
         u < v < |j.reqs| && d in j.reqs[u].blocks && f in j.reqs[v].blocks && Conflict(j.floors, d, f) ==>
             Reaches(dag, u, v)
  }

  // ---------- the invariant ----------

  function Applied(p: Progress): nat {
    if p.Writing? then p.done else 0
  }

  function AppliedCounts(progress: seq<Progress>): (done: seq<nat>)
    ensures |done| == |progress| && forall r :: 0 <= r < |done| ==> done[r] == Applied(progress[r])
  {
    seq(|progress|, r requires 0 <= r < |progress| => Applied(progress[r]))
  }

  lemma {:induction false} AppliedCountsUpdate(progress: seq<Progress>, r: nat, p: Progress)
    requires r < |progress|
    ensures AppliedCounts(progress[r := p]) == AppliedCounts(progress)[r := Applied(p)]
  {
  }

  /** Request r is on the way to its serial output. */
  ghost predicate OnTrack(j: Job, r: nat, p: Progress, phase: S.Phase)
    requires Lawful(j) && r < |j.reqs|
  {
    && (phase.Blocked? || phase.Queued? ==> p == Reading([]))
    && (Executed(phase) ==> Done(p))
    && match p
       case Reading(hist) => Resume(j.reqs[r], Serial(j, r), hist) == OutputOf(j, r)
       case Writing(out, done) => out == OutputOf(j, r) && done <= |out.effects|
  }

  /** Every request is on track, and the heap is that of the effects applied so far, as if applied in serial order. */
  ghost predicate Tracks(j: Job, phase: seq<S.Phase>, progress: seq<Progress>, heap: Heap)
    requires Lawful(j)
  {
    && |j.reqs| == |phase| == |progress|
    && (forall r :: 0 <= r < |j.reqs| ==> OnTrack(j, r, progress[r], phase[r]))
    && Counts(SerialEffects(j), AppliedCounts(progress))
    && heap == Partial(j.act, SerialEffects(j), j.h, AppliedCounts(progress), |j.reqs|)
  }

  ghost predicate ExecInv(dag: Graph, j: Job, x: Exec)
    requires Lawful(j)
  {
    Inv(dag, x.sched) && |j.reqs| == |dag| && Tracks(j, x.sched.phase, x.progress, x.heap)
  }

  /** A request that has begun has every smaller colliding request behind it. */
  lemma {:induction false} StartedAfter(dag: Graph, j: Job, x: Exec, u: nat, v: nat, d: Declared, f: Declared)
    requires Lawful(j) && ExecInv(dag, j, x) && CollisionsOrdered(dag, j)
    requires u < v < |j.reqs| && d in j.reqs[u].blocks && f in j.reqs[v].blocks && Conflict(j.floors, d, f)
    requires x.sched.phase[v] != S.Blocked
    ensures Executed(x.sched.phase[u]) && Done(x.progress[u])
  {
    AncestorsExecuted(dag, x.sched, v);
    assert Reaches(dag, u, v);
    assert OnTrack(j, u, x.progress[u], x.sched.phase[u]);
  }

  lemma {:induction false} HasStarted(dag: Graph, j: Job, x: Exec, v: nat)
    requires Lawful(j) && ExecInv(dag, j, x) && v < |j.reqs| && Applied(x.progress[v]) > 0
    ensures x.sched.phase[v] != S.Blocked
  {
    assert OnTrack(j, v, x.progress[v], x.sched.phase[v]);
  }

  /** The declared block behind a serial effect. */
  lemma {:induction false} BlockOf(j: Job, r: nat, i: nat) returns (d: Declared)
    requires Lawful(j) && r < |j.reqs| && i < |SerialEffects(j)[r]|
    ensures d in j.reqs[r].blocks && Permits(d, SerialEffects(j)[r][i])
  {
    assert Permitted(j.reqs[r], OutputOf(j, r).effects[i]);
    d :| d in j.reqs[r].blocks && Permits(d, SerialEffects(j)[r][i]);
  }

  /** An effect of u that is not yet applied commutes with what a greater request has applied. */
  lemma {:induction false} LateEffectCommutes(dag: Graph, j: Job, x: Exec, u: nat, i: nat, v: nat, k: nat)
    requires Lawful(j) && ExecInv(dag, j, x) && CollisionsOrdered(dag, j)
    requires u < v < |j.reqs| && Applied(x.progress[u]) <= i < |SerialEffects(j)[u]|
    requires k < Applied(x.progress[v]) && k < |SerialEffects(j)[v]|
    ensures Commute(j.act, SerialEffects(j)[u][i], SerialEffects(j)[v][k])
  {
    var es := SerialEffects(j);
    var d := BlockOf(j, u, i);
    var f := BlockOf(j, v, k);
    assert OnTrack(j, u, x.progress[u], x.sched.phase[u]);
    HasStarted(dag, j, x, v);
    if Conflict(j.floors, d, f) {
      StartedAfter(dag, j, x, u, v, d, f);
    }
    NoConflictCommutes(j.floors, d, es[u][i], f, es[v][k]);
  }

  /** While r runs, no greater request has changed anything that r may look at. */
  lemma {:induction false} NotYetChanged(dag: Graph, j: Job, x: Exec, r: nat, look: Look, w: nat, i: nat)
    requires Lawful(j) && ExecInv(dag, j, x) && CollisionsOrdered(dag, j)
    requires r < w < |j.reqs| && x.sched.phase[r] == S.Running && Visible(j.reqs[r], look)
    requires i < Applied(x.progress[w])
    ensures i < |SerialEffects(j)[w]| && Keeps(j.act, Seen(look), SerialEffects(j)[w][i])
  {
    assert AppliedCounts(x.progress)[w] <= |SerialEffects(j)[w]|;
    var e := SerialEffects(j)[w][i];
    var d :| d in j.reqs[r].blocks && MayLook(d, look);
    var f := BlockOf(j, w, i);
    HasStarted(dag, j, x, w);
    if Affects(j.floors, e, look) {
      LookerConflicts(j.floors, d, look, f, e);
      StartedAfter(dag, j, x, r, w, d, f);
    }
    assert !Affects(j.floors, e, look);
  }

  /** While r runs, no effect on anything that r may look at is missing from a smaller request. */
  lemma {:induction false} AlreadyChanged(dag: Graph, j: Job, x: Exec, r: nat, look: Look, w: nat, i: nat)
    requires Lawful(j) && ExecInv(dag, j, x) && CollisionsOrdered(dag, j)
    requires w < r < |j.reqs| && x.sched.phase[r] == S.Running && Visible(j.reqs[r], look)
    requires Applied(x.progress[w]) <= i < |SerialEffects(j)[w]|
    ensures Keeps(j.act, Seen(look), SerialEffects(j)[w][i])
  {
    var e := SerialEffects(j)[w][i];
    var d :| d in j.reqs[r].blocks && MayLook(d, look);
    var f := BlockOf(j, w, i);
    assert OnTrack(j, w, x.progress[w], x.sched.phase[w]);
    if Affects(j.floors, e, look) {
      LookerConflicts(j.floors, d, look, f, e);
      StartedAfter(dag, j, x, w, r, f, d);
    }
    assert !Affects(j.floors, e, look);
  }

  /** What r has applied itself does not show in the look. */
  ghost predicate OwnKeeps(j: Job, x: Exec, r: nat, look: Look)
    requires Lawful(j) && r < |j.reqs| == |x.progress|
  {
    forall i :: 0 <= i < Applied(x.progress[r]) && i < |SerialEffects(j)[r]| ==>
        Keeps(j.act, Seen(look), SerialEffects(j)[r][i])
  }

  /** So r sees what it sees in the serial execution. */
  lemma {:induction false} SeesSerial(dag: Graph, j: Job, x: Exec, r: nat, look: Look)
    requires Lawful(j) && ExecInv(dag, j, x) && CollisionsOrdered(dag, j)
    requires r < |j.reqs| && x.sched.phase[r] == S.Running && OwnKeeps(j, x, r, look) && Visible(j.reqs[r], look)
    ensures Seen(look)(x.heap) == Seen(look)(Serial(j, r))
  {
    AboveIsHarmless(dag, j, x, r, look);
    MissingIsHarmless(dag, j, x, r, look);
    FillUp(j.act, Seen(look), SerialEffects(j), j.h, AppliedCounts(x.progress), 0, r);
    WholeIsSerial(j, r);
  }

  lemma {:induction false} AboveIsHarmless(dag: Graph, j: Job, x: Exec, r: nat, look: Look)
    requires Lawful(j) && ExecInv(dag, j, x) && CollisionsOrdered(dag, j)
    requires r < |j.reqs| && x.sched.phase[r] == S.Running && OwnKeeps(j, x, r, look) && Visible(j.reqs[r], look)
    ensures Seen(look)(x.heap) ==
            Seen(look)(Partial(j.act, SerialEffects(j), j.h, AppliedCounts(x.progress), r))
  {
    AppliedAboveKeeps(dag, j, x, r, look);
    PartialKeeps(j.act, Seen(look), SerialEffects(j), j.h, AppliedCounts(x.progress), r, |j.reqs|);
  }

  lemma {:induction false} AppliedAboveKeeps(dag: Graph, j: Job, x: Exec, r: nat, look: Look)
    requires Lawful(j) && ExecInv(dag, j, x) && CollisionsOrdered(dag, j)
    requires r < |j.reqs| && x.sched.phase[r] == S.Running && OwnKeeps(j, x, r, look) && Visible(j.reqs[r], look)
    ensures var es, done := SerialEffects(j), AppliedCounts(x.progress);
            forall w, i :: r <= w < |j.reqs| && 0 <= i < done[w] ==> Keeps(j.act, Seen(look), es[w][i])
  {
    var es, done := SerialEffects(j), AppliedCounts(x.progress);
    assert Counts(es, done);
    hide Inv, ExecInv, Tracks, Visible, Lawful, CollisionsOrdered, Keeps;
    forall w, i | r <= w < |j.reqs| && 0 <= i < done[w]
      ensures Keeps(j.act, Seen(look), es[w][i])
    {
      if w > r {
        NotYetChanged(dag, j, x, r, look, w, i);
      }
    }
  }

  lemma {:induction false} MissingIsHarmless(dag: Graph, j: Job, x: Exec, r: nat, look: Look)
    requires Lawful(j) && ExecInv(dag, j, x) && CollisionsOrdered(dag, j)
    requires r < |j.reqs| && x.sched.phase[r] == S.Running && Visible(j.reqs[r], look)
    ensures MissingHarmless(j.act, Seen(look), SerialEffects(j), AppliedCounts(x.progress), r)
  {
    var es, done, view := SerialEffects(j), AppliedCounts(x.progress), Seen(look);
    forall w, i | 0 <= w < r && done[w] <= i < |es[w]|
      ensures Keeps(j.act, view, es[w][i]) && CommutesAbove(j.act, es, done, es[w][i], w, r)
    {
      AlreadyChanged(dag, j, x, r, look, w, i);
      forall v, l | w < v < r && 0 <= l < done[v]
        ensures Commute(j.act, es[w][i], es[v][l])
      {
        LateEffectCommutes(dag, j, x, w, i, v, l);
      }
    }
  }

  // ---------- sizes ----------

  /** The extent of a block stays the same from the first time its request may look at it until it has written back,
      unless the request resizes the chunk itself. So it does not matter when the request reads the size that its
      write-backs are cut off at. */
  lemma {:induction false} ExtentIsStable(dag: Graph, j: Job, x: Exec, r: nat, look: Look)
    requires Lawful(j) && ExecInv(dag, j, x) && CollisionsOrdered(dag, j)
    requires r < |j.reqs| && x.sched.phase[r] == S.Running && look.Extent? && Visible(j.reqs[r], look)
    requires forall i :: 0 <= i < |OutputOf(j, r).effects| ==>
               OnBytes(OutputOf(j, r).effects[i]) || OutputOf(j, r).effects[i].chunk != look.chunk
    ensures Seen(look)(x.heap) == Seen(look)(Serial(j, r))
  {
    forall i | 0 <= i < Applied(x.progress[r]) && i < |SerialEffects(j)[r]|
      ensures Keeps(j.act, Seen(look), SerialEffects(j)[r][i])
    {
      assert !Affects(j.floors, SerialEffects(j)[r][i], look);
    }
    SeesSerial(dag, j, x, r, look);
  }

  /** The first resize that r applies to a chunk finds the size that r saw, and so sets the size to what r asked for,
      growing or shrinking as declared. */
  lemma {:induction false} ResizeIsDirected(dag: Graph, j: Job, x: Exec, r: nat)
    requires Lawful(j) && ExecInv(dag, j, x) && CollisionsOrdered(dag, j)
    requires r < |j.reqs| && x.sched.phase[r] == S.Running && x.progress[r].Writing?
    requires var p := x.progress[r];
             && p.done < |p.out.effects| && !OnBytes(p.out.effects[p.done])
             && forall i :: 0 <= i < p.done ==>
                  OnBytes(p.out.effects[i]) || p.out.effects[i].chunk != p.out.effects[p.done].chunk
    ensures FromSize(x.heap, x.progress[r].out.effects[x.progress[r].done])
  {
    var p := x.progress[r];
    var e := p.out.effects[p.done];
    assert OnTrack(j, r, p, x.sched.phase[r]);
    var look := Size(e.chunk);
    forall i | 0 <= i < p.done
      ensures Keeps(j.act, Seen(look), SerialEffects(j)[r][i])
    {
      assert !Affects(j.floors, SerialEffects(j)[r][i], look);
    }
    ResizerSees(j, r, p.done);
    SeesSerial(dag, j, x, r, look);
    SerialIsDirected(j, r);
  }

  /** A resizer may look at the size. */
  lemma {:induction false} ResizerSees(j: Job, r: nat, i: nat)
    requires Lawful(j) && r < |j.reqs| && i < |SerialEffects(j)[r]| && !OnBytes(SerialEffects(j)[r][i])
    ensures Visible(j.reqs[r], Size(SerialEffects(j)[r][i].chunk))
  {
    var d := BlockOf(j, r, i);
    assert MayLook(d, Size(SerialEffects(j)[r][i].chunk));
  }

  /** No chunk ever gets smaller than its lower bound. */
  lemma {:induction false} AlwaysFloored(dag: Graph, j: Job, workers: nat, xs: seq<Exec>, moves: seq<Move>, k: nat,
                                         chunk: ChunkId)
    requires IsExecution(dag, j, workers, xs, moves) && k < |xs|
    requires j.act == Doing(j.floors) && Floored(j.floors, j.h, chunk)
    ensures Floored(j.floors, xs[k].heap, chunk)
  {
    hide Effected;
    if k > 0 {
      AlwaysFloored(dag, j, workers, xs, moves, k - 1, chunk);
      if moves[k - 1].WriteBack? {
        var p := xs[k - 1].progress[xs[k - 1].sched.workers[moves[k - 1].w].r];
        DoKeepsFloored(j.floors, xs[k - 1].heap, p.out.effects[p.done], chunk);
      }
    }
  }

  lemma {:induction false} DoKeepsFloored(floors: Floors, h: Heap, e: Effect, chunk: ChunkId)
    requires Floored(floors, h, chunk)
    ensures Floored(floors, Do(floors, h, e), chunk)
  {
  }

  /** The size that a resize leaves is what was asked for. */
  lemma {:induction false} ResizeSetsTheSize(floors: Floors, h: Heap, e: Effect)
    requires !OnBytes(e) && FromSize(h, e) && Floored(floors, h, e.chunk) && e.size >= FloorOf(floors, e.chunk)
    ensures Seen(Size(e.chunk))(Do(floors, h, e)) == e.size
  {
  }

  // ---------- every move keeps it ----------

  lemma {:induction false} KeepProtocol(dag: Graph, j: Job, x: Exec, w: nat, a: S.Action)
    requires Lawful(j) && ExecInv(dag, j, x) && CanMove(dag, j, x, Protocol(w, a))
    ensures ExecInv(dag, j, After(dag, j, x, Protocol(w, a)))
  {
    InvStep(dag, x.sched, w, a);
    var t := S.Step(dag, x.sched, w, a);
    forall r | 0 <= r < |j.reqs|
      ensures OnTrack(j, r, x.progress[r], t.phase[r])
    {
      assert OnTrack(j, r, x.progress[r], x.sched.phase[r]);
      PhaseMoves(dag, x.sched, w, a, r);
    }
  }

  /** How one protocol step can change the phase of a request. */
  lemma {:induction false} PhaseMoves(dag: Graph, s: S.State, w: nat, a: S.Action, r: nat)
    requires Inv(dag, s) && S.Enabled(dag, s, w, a) && r < |dag|
    ensures |S.Step(dag, s, w, a).phase| == |s.phase| == |dag|
    ensures var p, q := s.phase[r], S.Step(dag, s, w, a).phase[r];
            && (q.Blocked? || q.Queued? ==> p.Blocked? || p.Queued?)
            && (Executed(q) ==> Executed(p) || (a == S.Execute && s.workers[w] == S.Busy(r)))
  {
    if a == S.Dequeue {
      ReadyIsNew(dag, s);
    } else if a == S.Push {
      assert Pushes(s.phase, s.workers[w].r, s.phase[s.workers[w].r].v);
    }
  }

  /** Request r makes progress and the heap follows. */
  lemma {:induction false} KeepProgress(j: Job, phase: seq<S.Phase>, progress: seq<Progress>, heap: Heap,
                                        r: nat, p: Progress, g: Heap)
    requires Lawful(j) && Tracks(j, phase, progress, heap) && r < |j.reqs|
    requires OnTrack(j, r, p, phase[r])
    requires Counts(SerialEffects(j), AppliedCounts(progress)[r := Applied(p)])
    requires g == Partial(j.act, SerialEffects(j), j.h, AppliedCounts(progress)[r := Applied(p)], |j.reqs|)
    ensures Tracks(j, phase, progress[r := p], g)
  {
    AppliedCountsUpdate(progress, r, p);
    forall q | 0 <= q < |j.reqs|
      ensures OnTrack(j, q, progress[r := p][q], phase[q])
    {
      assert OnTrack(j, q, progress[q], phase[q]);
    }
  }

  /** Progress without an effect. */
  lemma {:induction false} KeepSilent(j: Job, phase: seq<S.Phase>, progress: seq<Progress>, heap: Heap,
                                      r: nat, p: Progress)
    requires Lawful(j) && Tracks(j, phase, progress, heap) && r < |j.reqs|
    requires OnTrack(j, r, p, phase[r]) && Applied(p) == Applied(progress[r])
    ensures Tracks(j, phase, progress[r := p], heap)
  {
    assert AppliedCounts(progress)[r := Applied(p)] == AppliedCounts(progress);
    KeepProgress(j, phase, progress, heap, r, p, heap);
  }

  lemma {:induction false} KeepLook(dag: Graph, j: Job, x: Exec, w: nat)
    requires Lawful(j) && ExecInv(dag, j, x) && CollisionsOrdered(dag, j)
    requires CanMove(dag, j, x, LookUp(w))
    ensures ExecInv(dag, j, After(dag, j, x, LookUp(w)))
  {
    var r := x.sched.workers[w].r;
    LookOnTrack(dag, j, x, r);
    KeepSilent(j, x.sched.phase, x.progress, x.heap, r, After(dag, j, x, LookUp(w)).progress[r]);
  }

  lemma {:induction false} LookOnTrack(dag: Graph, j: Job, x: Exec, r: nat)
    requires Lawful(j) && ExecInv(dag, j, x) && CollisionsOrdered(dag, j)
    requires r < |j.reqs| && x.sched.phase[r] == S.Running && x.progress[r].Reading?
    requires j.reqs[r].next(x.progress[r].hist).Load?
    ensures var next := j.reqs[r].next(x.progress[r].hist);
            OnTrack(j, r, Reading(x.progress[r].hist + [Seen(next.look)(x.heap)]), S.Running)
  {
    var hist := x.progress[r].hist;
    var next := j.reqs[r].next(hist);
    assert StepOk(j.reqs[r], hist);
    assert OnTrack(j, r, x.progress[r], x.sched.phase[r]);
    SeesSerial(dag, j, x, r, next.look);
  }

  lemma {:induction false} KeepDecide(dag: Graph, j: Job, x: Exec, w: nat)
    requires Lawful(j) && ExecInv(dag, j, x) && CanMove(dag, j, x, Decide(w))
    ensures ExecInv(dag, j, After(dag, j, x, Decide(w)))
  {
    var r := x.sched.workers[w].r;
    assert StepOk(j.reqs[r], x.progress[r].hist);
    assert OnTrack(j, r, x.progress[r], x.sched.phase[r]);
    KeepSilent(j, x.sched.phase, x.progress, x.heap, r, After(dag, j, x, Decide(w)).progress[r]);
  }

  lemma {:induction false} NextCommutesAbove(dag: Graph, j: Job, x: Exec, r: nat)
    requires Lawful(j) && ExecInv(dag, j, x) && CollisionsOrdered(dag, j)
    requires r < |j.reqs| && Applied(x.progress[r]) < |SerialEffects(j)[r]|
    ensures CommutesAbove(j.act, SerialEffects(j), AppliedCounts(x.progress),
                          SerialEffects(j)[r][Applied(x.progress[r])], r, |j.reqs|)
  {
    var es, done := SerialEffects(j), AppliedCounts(x.progress);
    forall v, l | r < v < |j.reqs| && 0 <= l < done[v]
      ensures Commute(j.act, es[r][done[r]], es[v][l])
    {
      LateEffectCommutes(dag, j, x, r, done[r], v, l);
    }
  }

  lemma {:induction false} WriteOnTrack(j: Job, r: nat, p: Progress, phase: S.Phase)
    requires Lawful(j) && r < |j.reqs| && OnTrack(j, r, p, phase)
    requires p.Writing? && p.done < |p.out.effects|
    ensures OnTrack(j, r, Writing(p.out, p.done + 1), phase)
    ensures p.out.effects == SerialEffects(j)[r]
  {
  }

  lemma {:induction false} KeepEffect(j: Job, phase: seq<S.Phase>, progress: seq<Progress>, heap: Heap,
                                      r: nat, p: Progress, g: Heap)
    requires Lawful(j) && Tracks(j, phase, progress, heap) && r < |j.reqs|
    requires progress[r] == p && p.Writing? && OnTrack(j, r, Writing(p.out, p.done + 1), phase[r])
    requires var done := AppliedCounts(progress)[r := p.done + 1];
             Counts(SerialEffects(j), done) && g == Partial(j.act, SerialEffects(j), j.h, done, |j.reqs|)
    ensures Tracks(j, phase, progress[r := Writing(p.out, p.done + 1)], g)
  {
    KeepProgress(j, phase, progress, heap, r, Writing(p.out, p.done + 1), g);
  }

  /** The next effect of a running request may as well have been applied in serial order. */
  lemma {:induction false} InsertInHeap(j: Job, progress: seq<Progress>, heap: Heap, r: nat, p: Progress)
    requires Lawful(j) && Counts(SerialEffects(j), AppliedCounts(progress)) && r < |progress| && p == progress[r]
    requires heap == Partial(j.act, SerialEffects(j), j.h, AppliedCounts(progress), |j.reqs|)
    requires p.Writing? && p.done < |p.out.effects| && p.out.effects == SerialEffects(j)[r]
    requires CommutesAbove(j.act, SerialEffects(j), AppliedCounts(progress), p.out.effects[p.done], r, |j.reqs|)
    ensures var done := AppliedCounts(progress)[r := p.done + 1];
            Counts(SerialEffects(j), done) &&
            j.act(heap, p.out.effects[p.done]) == Partial(j.act, SerialEffects(j), j.h, done, |j.reqs|)
  {
    InsertEffect(j.act, SerialEffects(j), j.h, AppliedCounts(progress), r, |j.reqs|);
  }

  lemma {:induction false} KeepWrite(j: Job, phase: seq<S.Phase>, progress: seq<Progress>, heap: Heap, r: nat,
                                     p: Progress)
    requires Lawful(j) && Tracks(j, phase, progress, heap) && r < |j.reqs| && p == progress[r]
    requires p.Writing? && p.done < |p.out.effects| && p.out.effects == SerialEffects(j)[r]
    requires OnTrack(j, r, Writing(p.out, p.done + 1), phase[r])
    requires CommutesAbove(j.act, SerialEffects(j), AppliedCounts(progress), p.out.effects[p.done], r, |j.reqs|)
    ensures Tracks(j, phase, progress[r := Writing(p.out, p.done + 1)], j.act(heap, p.out.effects[p.done]))
  {
    assert Counts(SerialEffects(j), AppliedCounts(progress));
    hide Lawful, OnTrack, CommutesAbove, Counts, Partial;
    InsertInHeap(j, progress, heap, r, p);
    KeepEffect(j, phase, progress, heap, r, p, j.act(heap, p.out.effects[p.done]));
  }

  lemma {:induction false} KeepWriteBack(dag: Graph, j: Job, x: Exec, w: nat)
    requires Lawful(j) && ExecInv(dag, j, x) && CollisionsOrdered(dag, j)
    requires CanMove(dag, j, x, WriteBack(w))
    ensures ExecInv(dag, j, After(dag, j, x, WriteBack(w)))
  {
    hide After, Lawful, ExecInv, CollisionsOrdered, Tracks;
    WriteBackIs(dag, j, x, w);
    var r := x.sched.workers[w].r;
    var p := x.progress[r];
    hide CanMove;
    WriteKeepsTracks(dag, j, x, r, p);
    ExecFrom(dag, j, x, j.act(x.heap, p.out.effects[p.done]), x.progress[r := Writing(p.out, p.done + 1)]);
  }

  lemma {:induction false} ExecFrom(dag: Graph, j: Job, x: Exec, heap: Heap, progress: seq<Progress>)
    requires Lawful(j) && ExecInv(dag, j, x) && Tracks(j, x.sched.phase, progress, heap)
    ensures ExecInv(dag, j, x.(heap := heap, progress := progress))
  {
    hide Lawful, Tracks, Inv;
  }

  lemma {:induction false} WriteBackIs(dag: Graph, j: Job, x: Exec, w: nat)
    requires CanMove(dag, j, x, WriteBack(w))
    ensures w < |x.sched.workers| && x.sched.workers[w].Busy?
    ensures var r := x.sched.workers[w].r;
            && r < |j.reqs| == |x.progress|
            && var p := x.progress[r];
            && p.Writing? && p.done < |p.out.effects|
            && After(dag, j, x, WriteBack(w)) ==
               x.(heap := j.act(x.heap, p.out.effects[p.done]), progress := x.progress[r := Writing(p.out, p.done + 1)])
  {
  }

  lemma {:induction false} WriteKeepsTracks(dag: Graph, j: Job, x: Exec, r: nat, p: Progress)
    requires Lawful(j) && ExecInv(dag, j, x) && CollisionsOrdered(dag, j)
    requires r < |j.reqs| == |x.progress| && p == x.progress[r] && p.Writing? && p.done < |p.out.effects|
    ensures Tracks(j, x.sched.phase, x.progress[r := Writing(p.out, p.done + 1)], j.act(x.heap, p.out.effects[p.done]))
  {
    assert OnTrack(j, r, p, x.sched.phase[r]);
    WriteOnTrack(j, r, p, x.sched.phase[r]);
    NextCommutesAbove(dag, j, x, r);
    hide Lawful, Tracks, OnTrack, CommutesAbove, Inv, CollisionsOrdered;
    KeepWrite(j, x.sched.phase, x.progress, x.heap, r, p);
  }

  lemma {:induction false} ExecInvStart(dag: Graph, j: Job, workers: nat)
    requires S.WellFormed(dag) && Lawful(j) && |j.reqs| == |dag|
    ensures ExecInv(dag, j, Start(dag, j, workers))
  {
    InvInitial(dag, workers);
    var x := Start(dag, j, workers);
    NothingApplied(j.act, SerialEffects(j), j.h, AppliedCounts(x.progress), |j.reqs|);
  }

  lemma {:induction false} NothingApplied(act: (Heap, Effect) -> Heap, es: seq<seq<Effect>>, h: Heap, done: seq<nat>,
                                          k: nat)
    requires Counts(es, done) && k <= |es| && forall r :: 0 <= r < |done| ==> done[r] == 0
    ensures Partial(act, es, h, done, k) == h
  {
    if k > 0 {
      NothingApplied(act, es, h, done, k - 1);
    }
  }

  lemma {:induction false} ExecutionKeepsInv(dag: Graph, j: Job, workers: nat, xs: seq<Exec>, moves: seq<Move>, k: nat)
    requires S.WellFormed(dag) && Lawful(j) && |j.reqs| == |dag| && CollisionsOrdered(dag, j)
    requires IsExecution(dag, j, workers, xs, moves) && k < |xs|
    ensures ExecInv(dag, j, xs[k])
  {
    if k == 0 {
      ExecInvStart(dag, j, workers);
    } else {
      ExecutionKeepsInv(dag, j, workers, xs, moves, k - 1);
      var x := xs[k - 1];
      match moves[k - 1]
      case Protocol(w, a) => KeepProtocol(dag, j, x, w, a);
      case LookUp(w) => KeepLook(dag, j, x, w);
      case Decide(w) => KeepDecide(dag, j, x, w);
      case WriteBack(w) => KeepWriteBack(dag, j, x, w);
    }
  }

  /** The main result: whatever the interleaving, once every request is finished the heap and all responses are those
      of the serial execution in the order of identifiers. */
  lemma {:induction false} ParallelEqualsSerial(dag: Graph, j: Job, workers: nat, xs: seq<Exec>, moves: seq<Move>)
    requires S.WellFormed(dag) && Lawful(j) && |j.reqs| == |dag| && CollisionsOrdered(dag, j)
    requires IsExecution(dag, j, workers, xs, moves)
    requires var last := xs[|xs| - 1]; last.sched.remaining == 0
    ensures var last := xs[|xs| - 1];
            && last.heap == Serial(j, |j.reqs|) && |last.progress| == |j.reqs|
            && forall r :: 0 <= r < |j.reqs| ==> last.progress[r].Writing? && last.progress[r].out == OutputOf(j, r)
  {
    var last := xs[|xs| - 1];
    ExecutionKeepsInv(dag, j, workers, xs, moves, |xs| - 1);
    NoneRemaining(dag, last.sched);
    var es, done := SerialEffects(j), AppliedCounts(last.progress);
    forall r | 0 <= r < |j.reqs|
      ensures last.progress[r].Writing? && last.progress[r].out == OutputOf(j, r) && done[r] == |es[r]|
    {
      assert OnTrack(j, r, last.progress[r], last.sched.phase[r]);
    }
    PartialFull(j.act, es, j.h, done, |j.reqs|);
    WholeIsSerial(j, |j.reqs|);
  }

  lemma {:induction false} NoneRemaining(dag: Graph, s: S.State)
    requires Inv(dag, s) && s.remaining == 0
    ensures forall r :: 0 <= r < |dag| ==> Executed(s.phase[r])
  {
    assert UncountedSet(s.phase) == {};
    forall r | 0 <= r < |dag|
      ensures Executed(s.phase[r])
    {
      assert r !in UncountedSet(s.phase);
    }
  }
}
