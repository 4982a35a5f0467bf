/** The execution protocol of the scheduler: `nextRequest` and `submitResult`
    (src/validator/RequestScheduler.cpp:27-55) run by any number of workers over a `BlockingQueue`
    (src/util/BlockingQueue.hpp:30-72), one atomic step at a time. */
module Scheduler {
  import opened Dag

  /** How far a request has come. From `Running` to `Counted` it is in the hands of one worker. */
  datatype Phase =
    | Blocked                             // waits for predecessors
    | Queued                              // in the queue of ready requests
    | Running                             // handed out by blockingDequeue
    | Submitting(todo: set<nat>)          // executed; `todo` is the rest of the adjacency list
    | Pushing(todo: set<nat>, v: nat)     // brought the in-degree of v to zero, about to enqueue v
    | Cleared                             // node reset
    | Counted                             // `remaining` decremented
    | Finished                            // producer removed

  datatype Worker =
    | Idle                                // at blockingDequeue, or waiting in it
    | Busy(r: nat)
    | Checking                            // blockingDequeue threw the underflow error
    | Exited                              // nextRequest returned no request
    | Failed                              // nextRequest raised the BlockError about the graph
    | Thrown(r: nat)                      // executing or submitting r raised an exception

  datatype State = State(
    phase: seq<Phase>,
    inDegree: seq<int>,
    alive: seq<bool>,                     // nodeIndex[r] is not null
    queue: seq<nat>,
    producers: int,
    remaining: int,
    workers: seq<Worker>,
    handed: seq<nat>                      // requests in the order in which they were handed out
  )

  datatype Action = Dequeue | Underflow | Check | Execute | Throw | Decrement(v: nat) | Push | Reset | Count | Release

  predicate WellFormed(dag: Graph) {
    forall u :: 0 <= u < |dag| ==> forall v :: v in dag[u] ==> v < |dag|
  }

  ghost predicate Enabled(dag: Graph, s: State, w: nat, a: Action) {
    && w < |s.workers| && |s.phase| == |s.inDegree| == |s.alive| == |dag|
    && match a
       case Dequeue => s.workers[w] == Idle && s.queue != [] && s.queue[0] < |dag|
       case Underflow => s.workers[w] == Idle && s.queue == [] && !(s.producers > 0)
       case Check => s.workers[w] == Checking
       case Execute => s.workers[w].Busy? && s.workers[w].r < |dag| && s.phase[s.workers[w].r] == Running
       case Throw => s.workers[w].Busy? && s.workers[w].r < |dag| && s.phase[s.workers[w].r] == Running
       case Decrement(v) => s.workers[w].Busy? && s.workers[w].r < |dag| && v < |dag| &&
                            s.phase[s.workers[w].r].Submitting? && v in s.phase[s.workers[w].r].todo
       case Push => s.workers[w].Busy? && s.workers[w].r < |dag| && s.phase[s.workers[w].r].Pushing? &&
                    s.phase[s.workers[w].r].v < |dag|
       case Reset => s.workers[w].Busy? && s.workers[w].r < |dag| && s.phase[s.workers[w].r] == Submitting({})
       case Count => s.workers[w].Busy? && s.workers[w].r < |dag| && s.phase[s.workers[w].r] == Cleared
       case Release => s.workers[w].Busy? && s.workers[w].r < |dag| && s.phase[s.workers[w].r] == Counted
  }

  ghost function Step(dag: Graph, s: State, w: nat, a: Action): State
    requires Enabled(dag, s, w, a)
  {
    match a
    case Dequeue =>
      var r := s.queue[0];
      s.(queue := s.queue[1..], producers := s.producers + 1, phase := s.phase[r := Running],
         workers := s.workers[w := Busy(r)], handed := s.handed + [r])
    case Underflow => s.(workers := s.workers[w := Checking])
    case Check => s.(workers := s.workers[w := if s.remaining != 0 then Failed else Exited])
    case Execute => var r := s.workers[w].r; s.(phase := s.phase[r := Submitting(dag[r])])
    case Throw => s.(workers := s.workers[w := Thrown(s.workers[w].r)])
    case Decrement(v) =>
      var r := s.workers[w].r;
      var todo := s.phase[r].todo - {v};
      var d := s.inDegree[v] - 1;
      s.(inDegree := s.inDegree[v := d], phase := s.phase[r := if d == 0 then Pushing(todo, v) else Submitting(todo)])
    case Push =>
      var r := s.workers[w].r;
      var v := s.phase[r].v;
      s.(queue := s.queue + [v], phase := s.phase[r := Submitting(s.phase[r].todo)][v := Queued])
    case Reset => var r := s.workers[w].r; s.(alive := s.alive[r := false], phase := s.phase[r := Cleared])
    case Count => s.(remaining := s.remaining - 1, phase := s.phase[s.workers[w].r := Counted])
    case Release =>
      s.(producers := s.producers - 1, phase := s.phase[s.workers[w].r := Finished], workers := s.workers[w := Idle])
  }

  // ---------- start ----------

  ghost function Predecessors(dag: Graph, v: nat): set<nat> {
    set u | 0 <= u < |dag| && v in dag[u]
  }

  /** Length of the longest run of leading nodes without predecessors. */
  ghost function SourcePrefix(dag: Graph, k: nat): (p: nat)
    requires k <= |dag|
    ensures k <= p <= |dag|
    ensures forall v :: k <= v < p ==> Predecessors(dag, v) == {}
    ensures p < |dag| ==> Predecessors(dag, p) != {}
    decreases |dag| - k
  {
    if k < |dag| && Predecessors(dag, k) == {} then SourcePrefix(dag, k + 1) else k
  }

  /** There is a first node and it is a source. Otherwise `buildExecDag` throws, and no worker is ever started. */
  ghost predicate Starts(dag: Graph) {
    dag != [] && Predecessors(dag, 0) == {}
  }

  ghost function Initial(dag: Graph, workers: nat): State {
    var k := SourcePrefix(dag, 0);
    State(seq(|dag|, v => if v < k then Queued else Blocked),
          seq(|dag|, v requires 0 <= v => |Predecessors(dag, v)|),
          seq(|dag|, _ => true),
          seq(k, v => v), 0, |dag|, seq(workers, _ => Idle), [])
  }

  /** All requests are finalized: each node has incremented the in-degree of its neighbours
      (`finalizeRequest`, src/validator/RequestScheduler.cpp:148-153). */
  method FinalizeAll(dag: Graph) returns (inDegree: seq<int>)
    requires WellFormed(dag)
    ensures |inDegree| == |dag| && forall v :: 0 <= v < |dag| ==> inDegree[v] == |Predecessors(dag, v)|
  {
    inDegree := seq(|dag|, _ => 0);
    for u := 0 to |dag|
      invariant |inDegree| == |dag|
      invariant forall v :: 0 <= v < |dag| ==> inDegree[v] == |Predecessors(dag[..u], v)|
    {
      var todo := dag[u];
      while todo != {}
        invariant todo <= dag[u] && |inDegree| == |dag|
        invariant forall v :: 0 <= v < |dag| ==>
                    inDegree[v] == |Predecessors(dag[..u], v)| + if v in dag[u] && v !in todo then 1 else 0
      {
        var v :| v in todo;
        inDegree := inDegree[v := inDegree[v] + 1];
        todo := todo - {v};
      }
      forall v | 0 <= v < |dag|
        ensures |Predecessors(dag[..u + 1], v)| == |Predecessors(dag[..u], v)| + if v in dag[u] then 1 else 0
      {
        var more := Predecessors(dag[..u + 1], v);
        if v in dag[u] {
          assert more == Predecessors(dag[..u], v) + {u};
        } else {
          assert more == Predecessors(dag[..u], v);
        }
      }
    }
    assert dag[..|dag|] == dag;
  }

  /** The ready queue at the start, or the error about a missing source
      (`buildExecDag`, src/validator/RequestScheduler.cpp:133-142). */
  method BuildExecDag(dag: Graph, inDegree: seq<int>) returns (queue: seq<nat>, error: bool)
    requires |inDegree| == |dag| && forall v :: 0 <= v < |dag| ==> inDegree[v] == |Predecessors(dag, v)|
    ensures queue == seq(SourcePrefix(dag, 0), v => v)
    ensures error <==> !Starts(dag)
  {
    queue := [];
    var i := 0;
    while i < |dag|
      invariant 0 <= i <= |dag| && queue == seq(i, v => v) && SourcePrefix(dag, 0) == SourcePrefix(dag, i)
    {
      if inDegree[i] == 0 {
        queue := queue + [i];
      } else {
        break;
      }
      i := i + 1;
    }
    error := queue == [];
  }
}
