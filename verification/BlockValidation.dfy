/** From the declarations of the requests to the result of the block: the access maps are merged, the chunk lists are
    checked, and the requests are executed by any number of workers. */
module BlockValidation {
  import opened Access
  import opened Dag
  import opened Options
  import opened Effects
  import opened SerialOrder
  import A = AccessMaps
  import C = CollisionSweep
  import D = SweepDemand
  import V = CollisionVerifier
  import R = Resizing
  import K = SweepCompleteness
  import L = SweepLoss
  import S = Scheduler
  import opened SchedulerInvariant
  import opened SchedulerRuns
  import opened ParallelExecution

  // ---------- the check ----------

  /** The size bounds that the proposer gives for the chunks that are resized. */
  datatype SizeBounds = SizeBounds(lower: int, upper: int)

  type Bounds = map<ChunkId, SizeBounds>

  /** What the loader guarantees of the access maps: ordered, only allowed offsets, and the blocks of the u-th map carry
      the identifier u. */
  ghost predicate WellDeclared(maps: seq<A.Apps>) {
    && (forall u :: 0 <= u < |maps| ==> A.AppsOrdered(maps[u]))
    && (forall u, x :: 0 <= u < |maps| && x in A.InApps(maps[u]) ==>
          C.Allowed(x.offset, x.block.access) && x.block.request == u)
  }

  /** The lists of a merged map are inputs of the verifier. */
  ghost predicate Listable(m: A.Apps, n: nat) {
    forall i :: 0 <= i < |m| ==> ChunksListable(m[i].value, n)
  }

  ghost predicate ChunksListable(c: A.Chunks, n: nat) {
    forall j :: 0 <= j < |c| ==> ListOk(c[j].value, n)
  }

  ghost predicate ListOk(list: A.Offsets, n: nat) {
    && C.Input(A.Keys(list), A.Values(list))
    && forall k :: 0 <= k < |list| ==> A.Values(list)[k].request < n
  }

  lemma {:induction false} MergedIsListable(maps: seq<A.Apps>)
    requires WellDeclared(maps)
    ensures Listable(A.MergedInterval(maps, 0, |maps|), |maps|)
  {
    var m := A.MergedInterval(maps, 0, |maps|);
    A.MergedIntervalIsOrderedPermutation(maps, 0, |maps|);
    forall i | 0 <= i < |m|
      ensures ChunksListable(m[i].value, |maps|)
    {
      ChunksAreListable(maps, i);
    }
  }

  lemma {:induction false} ChunksAreListable(maps: seq<A.Apps>, i: nat)
    requires WellDeclared(maps) && i < |A.MergedInterval(maps, 0, |maps|)|
    ensures ChunksListable(A.MergedInterval(maps, 0, |maps|)[i].value, |maps|)
  {
    hide A.MergedInterval, A.InApps;
    var m := A.MergedInterval(maps, 0, |maps|);
    A.MergedIntervalIsOrderedPermutation(maps, 0, |maps|);
    assert A.ChunksOrdered(m[i].value);
    forall j | 0 <= j < |m[i].value|
      ensures ListOk(m[i].value[j].value, |maps|)
    {
      var list := m[i].value[j].value;
      forall k | 0 <= k < |list|
        ensures C.Allowed(list[k].key, list[k].value.access) && list[k].value.request < |maps|
      {
        var u := A.ListedIsDeclared(maps, i, j, k);
      }
      A.OrderedIsInput(list);
    }
  }

  ghost predicate ListPasses(dag: Graph, chunk: ChunkId, list: A.Offsets, bounds: Bounds, n: nat)
    requires ListOk(list, n)
  {
    V.Passes(dag, A.Keys(list), A.Values(list), BoundFor(bounds, chunk))
  }

  function BoundFor(bounds: Bounds, chunk: ChunkId): Option<int> {
    if chunk in bounds then Some(bounds[chunk].lower) else None
  }

  /** Every chunk list passes the check. */
  ghost predicate Checked(dag: Graph, m: A.Apps, bounds: Bounds, n: nat)
    requires Listable(m, n)
  {
    forall i :: 0 <= i < |m| ==> ChunksPass(dag, m[i], bounds, n)
  }

  ghost predicate ChunksPass(dag: Graph, e: A.Entry<A.Chunks>, bounds: Bounds, n: nat)
    requires ChunksListable(e.value, n)
  {
    forall j :: 0 <= j < |e.value| ==> ListPasses(dag, ChunkId(e.key, e.value[j].key), e.value[j].value, bounds, n)
  }

  /** `checkDependencyGraph`: merges the access maps and checks every chunk list. */
  method CheckDependencyGraph(dag: Graph, maps: seq<A.Apps>, bounds: Bounds, workersCount: nat) returns (accepted: bool)
    requires WellDeclared(maps) && workersCount >= 1
    ensures Listable(A.MergedInterval(maps, 0, |maps|), |maps|)
    ensures accepted <==> Checked(dag, A.MergedInterval(maps, 0, |maps|), bounds, |maps|)
  {
    var m := A.MergeAllParallel(maps, workersCount);
    MergedIsListable(maps);
    accepted := CheckLists(dag, m, bounds, |maps|);
  }

  method CheckLists(dag: Graph, m: A.Apps, bounds: Bounds, ghost n: nat) returns (accepted: bool)
    requires Listable(m, n)
    ensures accepted <==> Checked(dag, m, bounds, n)
  {
    hide ChunksListable, ChunksPass;
    for i := 0 to |m|
      invariant forall x :: 0 <= x < i ==> ChunksPass(dag, m[x], bounds, n)
    {
      var ok := CheckChunks(dag, m[i], bounds, n);
      if !ok {
        return false;
      }
    }
    return true;
  }

  /** The chunks of one application. */
  method CheckChunks(dag: Graph, e: A.Entry<A.Chunks>, bounds: Bounds, ghost n: nat) returns (ok: bool)
    requires ChunksListable(e.value, n)
    ensures ok <==> ChunksPass(dag, e, bounds, n)
  {
    hide ListOk, ListPasses;
    for j := 0 to |e.value|
      invariant forall y :: 0 <= y < j ==> ListPasses(dag, ChunkId(e.key, e.value[y].key), e.value[y].value, bounds, n)
    {
      var chunk := ChunkId(e.key, e.value[j].key);
      var passed := CheckList(dag, chunk, e.value[j].value, bounds, n);
      if !passed {
        return false;
      }
    }
    return true;
  }

  method CheckList(dag: Graph, chunk: ChunkId, list: A.Offsets, bounds: Bounds, ghost n: nat) returns (ok: bool)
    requires ListOk(list, n)
    ensures ok <==> ListPasses(dag, chunk, list, bounds, n)
  {
    ok := V.CheckCollisions(dag, A.Keys(list), A.Values(list), BoundFor(bounds, chunk));
  }

  // ---------- what a passed check means ----------

  /** For every chunk list, what the sweep asks for joins all colliding pairs (see `SweepDemand`). */
  ghost predicate AllAskEnough(m: A.Apps, n: nat)
    requires Listable(m, n)
  {
    forall i, j :: 0 <= i < |m| && 0 <= j < |m[i].value| ==> ListAsksEnough(m[i].value[j].value, n)
  }

  ghost predicate ListAsksEnough(list: A.Offsets, n: nat)
    requires ListOk(list, n)
  {
    D.AsksEnough(n, A.Keys(list), A.Values(list))
  }

  /** The blocks that the modifier of a request admits are those of its access map. */
  ghost predicate Declares(maps: seq<A.Apps>, reqs: seq<Request>) {
    && |maps| == |reqs|
    && forall u: nat, d :: u < |reqs| && d in reqs[u].blocks ==> d in A.InApps(maps[u])
  }

  /** Two colliding blocks of one list. */
  lemma {:induction false} PairIsLinked(dag: Graph, list: A.Offsets, p: nat, q: nat)
    requires ListOk(list, |dag|) && C.Covered(dag, A.Keys(list), A.Values(list)) && p < |list| && q < |list|
    requires list[p].key >= -2 && list[q].key >= -2 && list[p].value.request < list[q].value.request
    requires list[p].key < End(list[q].key, list[q].value) && list[q].key < End(list[p].key, list[p].value)
    requires Collides(list[p].value.access, list[q].value.access)
    requires !AdditiveSame(list[p].key, list[p].value, list[q].key, list[q].value)
    ensures Reaches(dag, list[p].value.request, list[q].value.request)
  {
    var offsets, blocks := A.Keys(list), A.Values(list);
    CollidesIsConflict(list[p].value.access, list[q].value.access);
    if p < q {
      assert C.CollidingPair(offsets, blocks, p, q);
    } else {
      assert C.CollidingPair(offsets, blocks, q, p);
    }
  }

  /** A block of one list, and a resizer that the resizing check pairs it with. */
  lemma {:induction false} ResizerIsLinked(dag: Graph, chunk: ChunkId, list: A.Offsets, bounds: Bounds, p: nat, q: nat)
    requires ListOk(list, |dag|) && ListPasses(dag, chunk, list, bounds, |dag|) && p < |list| && q < |list|
    requires list[p].key >= 0 && list[q].key == -1 && list[p].value.request != list[q].value.request
    requires R.ResizeCollision(list[p].key, list[p].key + list[p].value.size, list[q].value.size,
             R.BoundOf(BoundFor(bounds, chunk)))
    ensures Linked(dag, list[p].value.request, list[q].value.request)
  {
    V.PassedIsSound(dag, A.Keys(list), A.Values(list), BoundFor(bounds, chunk));
    assert R.ResizingPair(A.Keys(list), A.Values(list), R.BoundOf(BoundFor(bounds, chunk)), p, q);
  }

  lemma {:induction false} ListIsCovered(dag: Graph, chunk: ChunkId, list: A.Offsets, bounds: Bounds)
    requires ListOk(list, |dag|) && ListPasses(dag, chunk, list, bounds, |dag|) && ListAsksEnough(list, |dag|)
    ensures C.Covered(dag, A.Keys(list), A.Values(list))
  {
    V.PassedIsSound(dag, A.Keys(list), A.Values(list), BoundFor(bounds, chunk));
  }

  /** A condition that can be read off the declarations: in every chunk list blocks are not empty, those of one request
      are disjoint, no size block is cut, and any three overlapping blocks of one kind end together. */
  ghost predicate AllEven(m: A.Apps, n: nat)
    requires Listable(m, n)
  {
    forall i, j :: 0 <= i < |m| && 0 <= j < |m[i].value| ==> ListIsEven(m[i].value[j].value, n)
  }

  ghost predicate ListIsEven(list: A.Offsets, n: nat)
    requires ListOk(list, n)
  {
    V.Regular(A.Keys(list), A.Values(list)) && L.EvenTriples(K.Source(A.Keys(list), A.Values(list)))
  }

  lemma {:induction false} EvenAskEnough(m: A.Apps, n: nat)
    requires Listable(m, n) && AllEven(m, n)
    ensures AllAskEnough(m, n)
  {
    forall i, j | 0 <= i < |m| && 0 <= j < |m[i].value|
      ensures ListAsksEnough(m[i].value[j].value, n)
    {
      var list := m[i].value[j].value;
      assert ListIsEven(list, n);
      V.EvenTriplesAskEnough(n, A.Keys(list), A.Values(list));
    }
  }

  lemma {:induction false} KeysAscend<T>(s: seq<A.Entry<T>>, i: nat, j: nat)
    requires A.Ascending(s) && i < j < |s|
    ensures s[i].key < s[j].key
  {
    if i == 0 {
      assert s[j] == s[1..][j - 1];
    } else {
      KeysAscend(s[1..], i - 1, j - 1);
    }
  }

  /** A chunk occurs in one place of the merged map only. */
  lemma {:induction false} KeysDiffer<T>(s: seq<A.Entry<T>>, i: nat, j: nat)
    requires A.Ascending(s) && i < |s| && j < |s| && s[i].key == s[j].key
    ensures i == j
  {
    if i < j {
      KeysAscend(s, i, j);
    } else if j < i {
      KeysAscend(s, j, i);
    }
  }

  // ---------- resizers ----------

  /** Some request declares that it may resize the chunk. */
  ghost predicate Resized(maps: seq<A.Apps>, chunk: ChunkId) {
    exists u, f :: 0 <= u < |maps| && f in A.InApps(maps[u]) && f.chunk == chunk && f.offset == -1
  }

  /** The lower bounds that count. */
  ghost function FloorsOf(maps: seq<A.Apps>, bounds: Bounds): (floors: Floors)
    ensures forall chunk :: Resized(maps, chunk) ==> FloorOf(floors, chunk) == R.BoundOf(BoundFor(bounds, chunk))
    ensures forall chunk :: !Resized(maps, chunk) ==> FloorOf(floors, chunk) == 0
  {
    map chunk | chunk in bounds && Resized(maps, chunk) :: bounds[chunk].lower
  }

  /** `buildModifier` accepted the resizer. */
  predicate ResizerLoaded(h: Heap, bounds: Bounds, f: Declared) {
    && f.chunk in bounds && f.chunk in h.chunks
    && R.IsInt32(|h.chunks[f.chunk]|) && R.IsInt32(bounds[f.chunk].lower) && R.IsInt32(bounds[f.chunk].upper)
    && R.BoundsAccepted(|h.chunks[f.chunk]|, f.block.size, bounds[f.chunk].lower, bounds[f.chunk].upper)
  }

  /** What `buildModifier` lets through although docs/specs.md:124 forbids it: a shrinker between 0 and the lower
      bound. */
  predicate ShrinksTooFar(bounds: Bounds, f: Declared) {
    f.chunk in bounds && 0 < -f.block.size < bounds[f.chunk].lower
  }

  /** All resizers were accepted, and none shrinks too far. */
  ghost predicate ResizersLoaded(h: Heap, maps: seq<A.Apps>, bounds: Bounds) {
    forall u, f :: 0 <= u < |maps| && f in A.InApps(maps[u]) && f.offset == -1 ==>
      ResizerLoaded(h, bounds, f) && !ShrinksTooFar(bounds, f)
  }

  /** Then the chunks start above their lower bounds and every resizer complies with them. */
  lemma {:induction false} LoadedComply(h: Heap, maps: seq<A.Apps>, bounds: Bounds)
    requires ResizersLoaded(h, maps, bounds)
    ensures forall u, f :: 0 <= u < |maps| && f in A.InApps(maps[u]) ==> Compliant(FloorsOf(maps, bounds), f)
    ensures forall chunk :: chunk in h.chunks ==> Floored(FloorsOf(maps, bounds), h, chunk)
  {
    hide A.InApps, FloorsOf, ResizerLoaded, ShrinksTooFar;
    var floors := FloorsOf(maps, bounds);
    forall u, f | 0 <= u < |maps| && f in A.InApps(maps[u])
      ensures Compliant(floors, f) && (f.offset == -1 ==> Floored(floors, h, f.chunk))
    {
      if f.offset == -1 {
        assert Resized(maps, f.chunk);
        OneComplies(h, maps, bounds, f);
      }
    }
    forall chunk | chunk in h.chunks
      ensures Floored(floors, h, chunk)
    {
      if Resized(maps, chunk) {
        var u, f :| 0 <= u < |maps| && f in A.InApps(maps[u]) && f.chunk == chunk && f.offset == -1;
        assert Floored(floors, h, f.chunk);
      }
    }
  }

  lemma {:induction false} OneComplies(h: Heap, maps: seq<A.Apps>, bounds: Bounds, f: Declared)
    requires ResizerLoaded(h, bounds, f) && !ShrinksTooFar(bounds, f) && Resized(maps, f.chunk)
    ensures Compliant(FloorsOf(maps, bounds), f) && Floored(FloorsOf(maps, bounds), h, f.chunk)
  {
    hide Resized, FloorsOf;
    var b := bounds[f.chunk];
    assert FloorOf(FloorsOf(maps, bounds), f.chunk) == b.lower;
    R.AcceptedBounds(|h.chunks[f.chunk]|, f.block.size, b.lower, b.upper);
  }

  // ---------- the order of conflicting requests ----------

  /** The check passed, and what it asked for is enough. */
  ghost predicate Validated(dag: Graph, maps: seq<A.Apps>, bounds: Bounds) {
    && WellDeclared(maps) && |dag| == |maps|
    && var m := A.MergedInterval(maps, 0, |maps|);
       Listable(m, |maps|) && Checked(dag, m, bounds, |maps|) && AllAskEnough(m, |maps|)
  }

  /** A checked block orders every two conflicting requests. */
  lemma {:induction false} CheckedOrdersCollisions(dag: Graph, maps: seq<A.Apps>, bounds: Bounds, j: Job)
    requires Validated(dag, maps, bounds) && Declares(maps, j.reqs)
    requires j.floors == FloorsOf(maps, bounds) && ResizersLoaded(j.h, maps, bounds)
    ensures CollisionsOrdered(dag, j)
  {
    LoadedComply(j.h, maps, bounds);
    forall u: nat, v: nat, d, f |
      u < v < |j.reqs| && d in j.reqs[u].blocks && f in j.reqs[v].blocks && Conflict(j.floors, d, f)
      ensures Reaches(dag, u, v)
    {
      ConflictingAreOrdered(dag, maps, bounds, u, d, v, f);
    }
  }

  /** Two declarations of the same chunk are in one list. */
  lemma {:induction false} InOneList(dag: Graph, maps: seq<A.Apps>, bounds: Bounds, u: nat, d: Declared, v: nat,
                                     f: Declared)
    returns (list: A.Offsets, p: nat, q: nat)
    requires Validated(dag, maps, bounds) && u < |maps| && v < |maps|
    requires d in A.InApps(maps[u]) && f in A.InApps(maps[v]) && d.chunk == f.chunk
    ensures ListOk(list, |dag|) && ListPasses(dag, d.chunk, list, bounds, |dag|) && ListAsksEnough(list, |dag|)
    ensures p < |list| && q < |list| && list[p] == A.Entry(d.offset, d.block) && list[q] == A.Entry(f.offset, f.block)
    ensures d.block.request == u && f.block.request == v
  {
    hide A.MergedInterval, A.InApps, V.Passes, ListOk;
    var m := A.MergedInterval(maps, 0, |maps|);
    var i, j, k := A.DeclarationIsListed(maps, u, d);
    var i', j', l := A.DeclarationIsListed(maps, v, f);
    A.MergedIntervalIsOrderedPermutation(maps, 0, |maps|);
    KeysDiffer(m, i, i');
    assert A.ChunksOrdered(m[i].value);
    KeysDiffer(m[i].value, j, j');
    list, p, q := m[i].value[j].value, k, l;
    var chunk := ChunkId(m[i].key, m[i].value[j].key);
    assert ListPasses(dag, chunk, list, bounds, |maps|) && ListAsksEnough(list, |maps|);
  }

  lemma {:induction false} ConflictingAreOrdered(dag: Graph, maps: seq<A.Apps>, bounds: Bounds,
                                                 u: nat, d: Declared, v: nat, f: Declared)
    requires Validated(dag, maps, bounds) && u < v < |maps|
    requires d in A.InApps(maps[u]) && f in A.InApps(maps[v]) && Conflict(FloorsOf(maps, bounds), d, f)
    ensures Reaches(dag, u, v)
  {
    hide Validated, ListPasses, ListAsksEnough, ListOk, FloorsOf;
    var list, p, q := InOneList(dag, maps, bounds, u, d, v, f);
    var floors := FloorsOf(maps, bounds);
    if DeclaredCollide(d, f) {
      ListIsCovered(dag, d.chunk, list, bounds);
      PairIsLinked(dag, list, p, q);
    } else if ResizeCollide(floors, d, f) {
      assert Resized(maps, f.chunk);
      ResizerIsLinked(dag, d.chunk, list, bounds, p, q);
    } else {
      assert Resized(maps, d.chunk);
      ResizerIsLinked(dag, d.chunk, list, bounds, q, p);
    }
  }

  // ---------- nobody is stuck before the end ----------

  ghost predicate Stuck(dag: Graph, j: Job, x: Exec) {
    forall m :: !CanMove(dag, j, x, m)
  }

  lemma {:induction false} UnlessAtRest(dag: Graph, j: Job, x: Exec, w: nat)
    requires Lawful(j) && ExecInv(dag, j, x) && NobodyThrew(x.sched)
    requires w < |x.sched.workers| && !AtRest(x.sched.workers[w])
    ensures !Stuck(dag, j, x)
  {
    NoDeadlock(dag, x.sched, w);
    var y, a :| S.Enabled(dag, x.sched, y, a);
    if a != S.Execute {
      assert CanMove(dag, j, x, Protocol(y, a));
    } else {
      ExecuteCanMove(dag, j, x, y);
    }
  }

  lemma {:induction false} ExecuteCanMove(dag: Graph, j: Job, x: Exec, y: nat)
    requires Lawful(j) && ExecInv(dag, j, x) && S.Enabled(dag, x.sched, y, S.Execute)
    ensures !Stuck(dag, j, x)
  {
    var r := x.sched.workers[y].r;
    var p := x.progress[r];
    assert OnTrack(j, r, p, x.sched.phase[r]);
    if p.Reading? {
      if j.reqs[r].next(p.hist).Load? {
        assert CanMove(dag, j, x, LookUp(y));
      } else {
        assert CanMove(dag, j, x, Decide(y));
      }
    } else if p.done < |p.out.effects| {
      assert CanMove(dag, j, x, WriteBack(y));
    } else {
      assert CanMove(dag, j, x, Protocol(y, S.Execute));
    }
  }

  lemma {:induction false} ExecutionKeepsVerdicts(dag: Graph, j: Job, workers: nat, xs: seq<Exec>, moves: seq<Move>,
                                                  k: nat)
    requires S.WellFormed(dag) && Lawful(j) && |j.reqs| == |dag| && CollisionsOrdered(dag, j)
    requires IsExecution(dag, j, workers, xs, moves) && k < |xs|
    ensures Verdicts(xs[k].sched) && |xs[k].sched.workers| == workers
  {
    if k > 0 {
      ExecutionKeepsVerdicts(dag, j, workers, xs, moves, k - 1);
      ExecutionKeepsInv(dag, j, workers, xs, moves, k - 1);
      MoveKeepsVerdicts(dag, j, xs[k - 1], moves[k - 1]);
    }
  }

  lemma {:induction false} MoveKeepsVerdicts(dag: Graph, j: Job, x: Exec, m: Move)
    requires Inv(dag, x.sched) && Verdicts(x.sched) && CanMove(dag, j, x, m)
    ensures Verdicts(After(dag, j, x, m).sched)
    ensures |After(dag, j, x, m).sched.workers| == |x.sched.workers|
  {
    if m.Protocol? {
      StepKeepsVerdicts(dag, x.sched, m.w, m.a);
    }
  }

  /** The job of a block: requests, heap, the lower bounds that count, and the effects of `Effects`. */
  ghost function JobOf(maps: seq<A.Apps>, bounds: Bounds, reqs: seq<Request>, h: Heap): Job {
    var floors := FloorsOf(maps, bounds);
    Job(reqs, h, floors, Doing(floors))
  }

  /** The whole way, for every graph whose edges point to requests of the block. The access maps pass the check, what
      it asked for is enough, and the resizers were accepted and do not shrink too far. Then, however the workers
      interleave, when no move is left and nobody threw: if the graph is acyclic and its sources are the first
      identifiers, every worker has returned, and heap, chunk sizes and responses are those of the serial execution;
      otherwise every worker has raised the error about the graph. */
  lemma {:induction false} CheckedBlockIsSerializable(dag: Graph, maps: seq<A.Apps>, bounds: Bounds,
                                                      reqs: seq<Request>, h: Heap,
                                                      workers: nat, xs: seq<Exec>, moves: seq<Move>)
    requires S.WellFormed(dag) && |dag| == |reqs| && workers > 0
    requires Validated(dag, maps, bounds) && ResizersLoaded(h, maps, bounds)
    requires Declares(maps, reqs) && forall r :: 0 <= r < |reqs| ==> Disciplined(reqs[r])
    requires var j := JobOf(maps, bounds, reqs, h);
             && IsExecution(dag, j, workers, xs, moves)
             && var last := xs[|xs| - 1]; Stuck(dag, j, last) && NobodyThrew(last.sched)
    ensures var j := JobOf(maps, bounds, reqs, h); Lawful(j) && Concluded(dag, j, xs[|xs| - 1])
  {
    var j := JobOf(maps, bounds, reqs, h);
    DoIsLawful(j.floors);
    CheckedOrdersCollisions(dag, maps, bounds, j);
    StuckIsConcluded(dag, j, workers, xs, moves);
  }

  /** How an execution ends, once `buildExecDag` has let it start (`S.Starts`). */
  ghost predicate Concluded(dag: Graph, j: Job, last: Exec)
    requires Lawful(j)
  {
    if Acyclic(dag) && SourcesFirst(dag) then
      && (forall w :: 0 <= w < |last.sched.workers| ==> last.sched.workers[w] == S.Exited)
      && last.heap == Serial(j, |j.reqs|) && |last.progress| == |j.reqs|
      && forall r :: 0 <= r < |j.reqs| ==> last.progress[r].Writing? && last.progress[r].out == OutputOf(j, r)
    else
      last.sched.remaining != 0 && forall w :: 0 <= w < |last.sched.workers| ==> last.sched.workers[w] == S.Failed
  }

  lemma {:induction false} StuckIsConcluded(dag: Graph, j: Job, workers: nat, xs: seq<Exec>, moves: seq<Move>)
    requires S.WellFormed(dag) && Lawful(j) && |j.reqs| == |dag| && workers > 0
    requires CollisionsOrdered(dag, j) && IsExecution(dag, j, workers, xs, moves)
    requires var last := xs[|xs| - 1]; Stuck(dag, j, last) && NobodyThrew(last.sched)
    ensures Concluded(dag, j, xs[|xs| - 1])
  {
    var n := |xs| - 1;
    var last := xs[n];
    ExecutionKeepsInv(dag, j, workers, xs, moves, n);
    ExecutionKeepsVerdicts(dag, j, workers, xs, moves, n);
    forall w | 0 <= w < workers
      ensures AtRest(last.sched.workers[w])
    {
      if !AtRest(last.sched.workers[w]) {
        UnlessAtRest(dag, j, last, w);
      }
    }
    assert AtRest(last.sched.workers[0]);
    RestDecides(dag, last.sched);
    if last.sched.remaining == 0 {
      ParallelEqualsSerial(dag, j, workers, xs, moves);
    }
  }

  lemma {:induction false} RestDecides(dag: Graph, s: S.State)
    requires Inv(dag, s) && Quiet(s)
    ensures s.remaining == 0 <==> Acyclic(dag) && SourcesFirst(dag)
  {
    AtEnd(dag, s);
    if s.remaining == 0 {
      AllFinishedRanks(dag, s);
    }
    if Acyclic(dag) && SourcesFirst(dag) {
      var rank :| Ranks(dag, rank);
      forall r: nat | r < |dag|
        ensures s.phase[r] == S.Finished
      {
        NothingBlocked(dag, s, rank, r);
      }
    }
  }
}
