/** Requests as programs over the heap, their serial execution in the order of identifiers
    (`serialExecuteRequests`, src/validator/RequestProcessor.hpp:75-84). */
module SerialOrder {
  import opened Access
  import opened Effects
  import opened WriteBacks

  datatype Output = Output(status: int, body: string, effects: seq<Effect>)

  /** What a request does next, given what it has seen so far. */
  datatype Next = Load(look: Look) | Finish(out: Output)

  /** A deterministic program that looks at most `limit` times before it finishes. */
  datatype Request = Request(blocks: seq<Declared>, limit: nat, next: seq<int> -> Next)

  ghost predicate Visible(req: Request, look: Look) {
    exists d :: d in req.blocks && MayLook(d, look)
  }

  ghost predicate Permitted(req: Request, e: Effect) {
    exists d :: d in req.blocks && Permits(d, e)
  }

  /** The request looked at the size of the chunk and resizes in the right direction from there, as `updateChunkSize`
      demands (src/ascee/heap/RestrictedModifier.cpp:91-107). */
  ghost predicate Directed(req: Request, hist: seq<int>, e: Effect) {
    !OnBytes(e) ==>
      exists i :: 0 <= i < |hist| && req.next(hist[..i]) == Load(Size(e.chunk)) &&
        if e.Expand? then hist[i] <= e.size else e.size <= hist[i]
  }

  /** What the modifier enforces (src/ascee/heap/RestrictedModifier.cpp:91-159): looks, writes and resizes stay within
      what is declared. */
  ghost predicate Disciplined(req: Request) {
    forall hist :: StepOk(req, hist)
  }

  ghost predicate StepOk(req: Request, hist: seq<int>) {
    match req.next(hist)
    case Load(look) => |hist| < req.limit && Visible(req, look)
    case Finish(out) =>
      forall i :: 0 <= i < |out.effects| ==> Permitted(req, out.effects[i]) && Directed(req, hist, out.effects[i])
  }

  /** A block of requests, the heap it starts from, the lower bounds of resized chunks, and how an effect is applied. */
  datatype Job = Job(reqs: seq<Request>, h: Heap, floors: Floors, act: (Heap, Effect) -> Heap)

  /** What the proofs need to know about applying effects. */
  ghost predicate ActLaws(floors: Floors, act: (Heap, Effect) -> Heap) {
    && (forall e, f :: Independent(floors, e, f) ==> Commute(act, e, f))
    && (forall e, look :: !Affects(floors, e, look) ==> Keeps(act, Seen(look), e))
  }

  lemma {:induction false} DoIsLawful(floors: Floors)
    ensures ActLaws(floors, Doing(floors))
  {
    forall e, f | Independent(floors, e, f)
      ensures Commute(Doing(floors), e, f)
    {
      EffectsCommute(floors, e, f);
    }
    forall e, look | !Affects(floors, e, look)
      ensures Keeps(Doing(floors), Seen(look), e)
    {
      EffectKeeps(floors, e, look);
    }
  }

  ghost predicate Lawful(j: Job) {
    ActLaws(j.floors, j.act) && forall r :: 0 <= r < |j.reqs| ==> Disciplined(j.reqs[r])
  }

  /** The output of the program when it goes on from `hist` with the heap `g`. */
  ghost function Resume(req: Request, g: Heap, hist: seq<int>): (out: Output)
    requires Disciplined(req)
    ensures forall i :: 0 <= i < |out.effects| ==> Permitted(req, out.effects[i])
    decreases if |hist| < req.limit then req.limit - |hist| else 0
  {
    assert StepOk(req, hist);
    match req.next(hist)
    case Load(look) => Resume(req, g, hist + [Seen(look)(g)])
    case Finish(out) => out
  }

  /** The heap after the first k requests ran one after another. */
  ghost function Serial(j: Job, k: nat): Heap
    requires Lawful(j) && k <= |j.reqs|
    decreases k, 0
  {
    if k == 0 then j.h else
      var es := OutputOf(j, k - 1).effects;
      Apply(j.act, Serial(j, k - 1), es, |es|)
  }

  /** What request r answers and does in the serial execution. */
  ghost function OutputOf(j: Job, r: nat): (out: Output)
    requires Lawful(j) && r < |j.reqs|
    ensures forall i :: 0 <= i < |out.effects| ==> Permitted(j.reqs[r], out.effects[i])
    decreases r, 1
  {
    Resume(j.reqs[r], Serial(j, r), [])
  }

  /** The effects of every request in the serial execution. */
  ghost function SerialEffects(j: Job): (es: seq<seq<Effect>>)
    requires Lawful(j)
    ensures |es| == |j.reqs| && forall r :: 0 <= r < |j.reqs| ==> es[r] == OutputOf(j, r).effects
  {
    seq(|j.reqs|, r requires 0 <= r < |j.reqs| => OutputOf(j, r).effects)
  }

  lemma {:induction false} WholeIsSerial(j: Job, k: nat)
    requires Lawful(j) && k <= |j.reqs|
    ensures Whole(j.act, SerialEffects(j), j.h, k) == Serial(j, k)
  {
    if k > 0 {
      WholeIsSerial(j, k - 1);
    }
  }

  // ---------- resizes ----------

  /** Everything in the history was seen on this heap. */
  ghost predicate SeenOn(req: Request, g: Heap, hist: seq<int>) {
    forall i :: 0 <= i < |hist| ==> req.next(hist[..i]).Load? && hist[i] == Seen(req.next(hist[..i]).look)(g)
  }

  /** The resize goes in its direction from the size that the chunk has on this heap. */
  predicate FromSize(g: Heap, e: Effect) {
    !OnBytes(e) ==> var size := Seen(Size(e.chunk))(g); if e.Expand? then size <= e.size else e.size <= size
  }

  predicate AllFromSize(g: Heap, es: seq<Effect>) {
    forall i :: 0 <= i < |es| ==> FromSize(g, es[i])
  }

  lemma {:induction false} SeenMore(req: Request, g: Heap, hist: seq<int>)
    requires SeenOn(req, g, hist) && req.next(hist).Load?
    ensures SeenOn(req, g, hist + [Seen(req.next(hist).look)(g)])
  {
    var more := hist + [Seen(req.next(hist).look)(g)];
    forall i | 0 <= i < |more|
      ensures req.next(more[..i]).Load? && more[i] == Seen(req.next(more[..i]).look)(g)
    {
      assert more[..i] == hist[..i];
      if i == |hist| {
        assert hist[..i] == hist;
      }
    }
  }

  lemma {:induction false} ResumeIsDirected(req: Request, g: Heap, hist: seq<int>)
    requires Disciplined(req) && SeenOn(req, g, hist)
    ensures AllFromSize(g, Resume(req, g, hist).effects)
    decreases if |hist| < req.limit then req.limit - |hist| else 0
  {
    assert StepOk(req, hist);
    match req.next(hist)
    case Load(look) =>
      SeenMore(req, g, hist);
      ResumeIsDirected(req, g, hist + [Seen(look)(g)]);
    case Finish(out) =>
      forall i | 0 <= i < |out.effects|
        ensures FromSize(g, out.effects[i])
      {
        assert Directed(req, hist, out.effects[i]);
      }
      assert Resume(req, g, hist) == out;
  }

  /** In the serial execution every resize goes in its direction from the size that the request found. */
  lemma {:induction false} SerialIsDirected(j: Job, r: nat)
    requires Lawful(j) && r < |j.reqs|
    ensures AllFromSize(Serial(j, r), OutputOf(j, r).effects)
  {
    ResumeIsDirected(j.reqs[r], Serial(j, r), []);
  }
}
