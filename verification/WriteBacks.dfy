/** Write-backs of several requests that happen one effect at a time and out of order, over any kind of state: `act`
    applies an effect, and `es[r]` lists the effects of request r. */
module WriteBacks {

  ghost predicate Commute<H(!new), E>(act: (H, E) -> H, e: E, f: E) {
    forall h: H :: act(act(h, e), f) == act(act(h, f), e)
  }

  ghost predicate Keeps<H(!new), E>(act: (H, E) -> H, view: H -> int, e: E) {
    forall h: H :: view(act(h, e)) == view(h)
  }

  /** The first n effects of a list, in order. */
  ghost function Apply<H, E>(act: (H, E) -> H, h: H, es: seq<E>, n: nat): H
    requires n <= |es|
  {
    if n == 0 then h else act(Apply(act, h, es, n - 1), es[n - 1])
  }

  lemma {:induction false} ApplyCommutes<H(!new), E>(act: (H, E) -> H, h: H, es: seq<E>, n: nat, e: E)
    requires n <= |es| && forall k :: 0 <= k < n ==> Commute(act, e, es[k])
    ensures Apply(act, act(h, e), es, n) == act(Apply(act, h, es, n), e)
  {
    if n > 0 {
      ApplyCommutes(act, h, es, n - 1, e);
      assert Commute(act, e, es[n - 1]);
    }
  }

  lemma {:induction false} ApplyKeeps<H(!new), E>(act: (H, E) -> H, view: H -> int, h: H, es: seq<E>, n: nat)
    requires n <= |es| && forall k :: 0 <= k < n ==> Keeps(act, view, es[k])
    ensures view(Apply(act, h, es, n)) == view(h)
  {
    if n > 0 {
      ApplyKeeps(act, view, h, es, n - 1);
      assert Keeps(act, view, es[n - 1]);
    }
  }

  ghost predicate Counts<E>(es: seq<seq<E>>, done: seq<nat>) {
    |done| == |es| && forall r :: 0 <= r < |es| ==> done[r] <= |es[r]|
  }

  /** The state when each of the first k requests has applied its first done[r] effects, in the order of identifiers. */
  ghost function Partial<H, E>(act: (H, E) -> H, es: seq<seq<E>>, h: H, done: seq<nat>, k: nat): H
    requires Counts(es, done) && k <= |es|
  {
    if k == 0 then h else Apply(act, Partial(act, es, h, done, k - 1), es[k - 1], done[k - 1])
  }

  /** The state when the first k requests have applied everything. */
  ghost function Whole<H, E>(act: (H, E) -> H, es: seq<seq<E>>, h: H, k: nat): H
    requires k <= |es|
  {
    if k == 0 then h else Apply(act, Whole(act, es, h, k - 1), es[k - 1], |es[k - 1]|)
  }

  lemma {:induction false} PartialPrefix<H, E>(act: (H, E) -> H, es: seq<seq<E>>, h: H, done: seq<nat>,
                                               other: seq<nat>, k: nat)
    requires Counts(es, done) && Counts(es, other) && k <= |es| && forall r :: 0 <= r < k ==> done[r] == other[r]
    ensures Partial(act, es, h, done, k) == Partial(act, es, h, other, k)
  {
    if k > 0 {
      PartialPrefix(act, es, h, done, other, k - 1);
    }
  }

  lemma {:induction false} PartialFull<H, E>(act: (H, E) -> H, es: seq<seq<E>>, h: H, done: seq<nat>, k: nat)
    requires Counts(es, done) && k <= |es| && forall r :: 0 <= r < k ==> done[r] == |es[r]|
    ensures Partial(act, es, h, done, k) == Whole(act, es, h, k)
  {
    if k > 0 {
      PartialFull(act, es, h, done, k - 1);
    }
  }

  /** Effect e commutes with everything that requests r+1 .. k-1 have applied. */
  ghost predicate CommutesAbove<H(!new), E>(act: (H, E) -> H, es: seq<seq<E>>, done: seq<nat>, e: E, r: nat, k: nat)
    requires Counts(es, done) && k <= |es|
  {
    forall w, i :: r < w < k && 0 <= i < done[w] ==> Commute(act, e, es[w][i])
  }

  /** Applying the next effect of request r now is the same as applying it in its place in the serial order. */
  lemma {:induction false} InsertEffect<H(!new), E>(act: (H, E) -> H, es: seq<seq<E>>, h: H, done: seq<nat>, r: nat,
                                          k: nat)
    requires Counts(es, done) && r < k <= |es| && done[r] < |es[r]|
    requires CommutesAbove(act, es, done, es[r][done[r]], r, k)
    ensures Counts(es, done[r := done[r] + 1])
    ensures Partial(act, es, h, done[r := done[r] + 1], k) == act(Partial(act, es, h, done, k), es[r][done[r]])
    decreases k
  {
    var e := es[r][done[r]];
    var more := done[r := done[r] + 1];
    if k == r + 1 {
      PartialPrefix(act, es, h, done, more, r);
    } else {
      InsertEffect(act, es, h, done, r, k - 1);
      ApplyCommutes(act, Partial(act, es, h, done, k - 1), es[k - 1], done[k - 1], e);
    }
  }

  /** Requests a .. b-1 have done nothing that shows in the view. */
  lemma {:induction false} PartialKeeps<H(!new), E>(act: (H, E) -> H, view: H -> int, es: seq<seq<E>>, h: H,
                                          done: seq<nat>, a: nat, b: nat)
    requires Counts(es, done) && a <= b <= |es|
    requires forall w, i :: a <= w < b && 0 <= i < done[w] ==> Keeps(act, view, es[w][i])
    ensures view(Partial(act, es, h, done, b)) == view(Partial(act, es, h, done, a))
    decreases b
  {
    if a < b {
      PartialKeeps(act, view, es, h, done, a, b - 1);
      ApplyKeeps(act, view, Partial(act, es, h, done, b - 1), es[b - 1], done[b - 1]);
    }
  }

  /** What is still missing below r does not show in the view and was not overtaken by something it does not commute
      with. */
  ghost predicate MissingHarmless<H(!new), E>(act: (H, E) -> H, view: H -> int, es: seq<seq<E>>, done: seq<nat>, r: nat)
    requires Counts(es, done) && r <= |es|
  {
    forall w, i :: 0 <= w < r && done[w] <= i < |es[w]| ==>
      Keeps(act, view, es[w][i]) && CommutesAbove(act, es, done, es[w][i], w, r)
  }

  lemma {:induction false} MissingShrinks<H(!new), E>(act: (H, E) -> H, view: H -> int, es: seq<seq<E>>,
                                            done: seq<nat>, w: nat, r: nat)
    requires Counts(es, done) && w < r <= |es| && (forall v :: 0 <= v < w ==> done[v] == |es[v]|)
    requires done[w] < |es[w]| && MissingHarmless(act, view, es, done, r)
    ensures Counts(es, done[w := done[w] + 1]) && MissingHarmless(act, view, es, done[w := done[w] + 1], r)
  {
    var more := done[w := done[w] + 1];
    forall v, i | 0 <= v < r && more[v] <= i < |es[v]|
      ensures Keeps(act, view, es[v][i]) && CommutesAbove(act, es, more, es[v][i], v, r)
    {
      assert CommutesAbove(act, es, done, es[v][i], v, r);
    }
  }

  /** Then the view is already what it is once everything below r is applied. */
  lemma {:induction false} FillUp<H(!new), E>(act: (H, E) -> H, view: H -> int, es: seq<seq<E>>, h: H, done: seq<nat>,
                                    w: nat, r: nat)
    requires Counts(es, done) && w <= r <= |es|
    requires forall v :: 0 <= v < w ==> done[v] == |es[v]|
    requires MissingHarmless(act, view, es, done, r)
    ensures view(Partial(act, es, h, done, r)) == view(Whole(act, es, h, r))
    decreases r - w, if w < r then |es[w]| - done[w] else 0
  {
    if w == r {
      PartialFull(act, es, h, done, r);
    } else if done[w] == |es[w]| {
      FillUp(act, view, es, h, done, w + 1, r);
    } else {
      InsertEffect(act, es, h, done, w, r);
      assert Keeps(act, view, es[w][done[w]]);
      MissingShrinks(act, view, es, done, w, r);
      FillUp(act, view, es, h, done[w := done[w] + 1], w, r);
    }
  }
}
