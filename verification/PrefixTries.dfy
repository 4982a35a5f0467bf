/** Prefix codes of unsigned integers (src/util/PrefixTrie.hpp:28-185), for any word width, any height and any
    well-formed trie. Words are `width` bytes wide and all arithmetic wraps around as in the source. */
module PrefixTries {
  import opened Arithmetic
  import opened Bytes
  import opened Options

  /** `Code` is the word that holds a code in its high-order bytes, and the number of those bytes. */
  datatype Code = Code(word: nat, len: nat)

  datatype Trie = Trie(width: nat, trie: seq<nat>, boundary: seq<nat>, sum: seq<nat>)

  /** Unsigned wrap-around. */
  function Wrap(x: int, width: nat): (r: nat)
    ensures r < Pow256(width)
  {
    x % Pow256(width)
  }

  /** The low `n` bytes of a word. */
  function Low(x: nat, n: nat): nat {
    x % Pow256(n)
  }

  /** An `n`-byte number moved to the top of a word. */
  function High(x: nat, n: nat, width: nat): nat
    requires n <= width
  {
    x * Pow256(width - n)
  }

  // ---------- arithmetic of shifts ----------

  lemma {:induction false} Fits(x: int, width: nat)
    requires 0 <= x < Pow256(width)
    ensures Wrap(x, width) == x
  {
    hide Pow256;
    Unscale(0, x, Pow256(width));
  }

  /** Wrapping in the middle does not matter. */
  lemma {:induction false} WrapTwice(x: int, y: int, width: nat)
    ensures Wrap(Wrap(x, width) + y, width) == Wrap(x + y, width)
  {
    hide Pow256;
    var p := Pow256(width);
    var r := (x + y) % p;
    var q := (x + y) / p - x / p;
    assert x % p + y == q * p + r by {
      assert x == x / p * p + x % p;
      assert x + y == (x + y) / p * p + r;
      assert q * p == (x + y) / p * p - x / p * p;
    }
    Unscale(q, r, p);
  }

  lemma {:induction false} PowAdd(a: nat, b: nat)
    ensures Pow256(a + b) == Pow256(a) * Pow256(b)
  {
    if a > 0 {
      PowAdd(a - 1, b);
      assert Pow256(a) * Pow256(b) == 256 * (Pow256(a - 1) * Pow256(b));
    }
  }

  /** Shifting the low `n` bytes of a word to the top. */
  lemma {:induction false} ShiftUp(x: nat, n: nat, width: nat)
    requires n <= width
    ensures Wrap(High(x, n, width), width) == High(Low(x, n), n, width)
  {
    hide Pow256;
    var p, q := Pow256(n), Pow256(width - n);
    PowAdd(n, width - n);
    var low := x % p;
    assert x * q == x / p * (p * q) + low * q by {
      assert x == x / p * p + low;
      assert (x / p * p + low) * q == x / p * (p * q) + low * q;
    }
    Scale(low, p, q);
    Scale(0, low, q);
    Unscale(x / p, low * q, p * q);
  }

  // ---------- well-formed tries ----------

  predicate WellFormed(width: nat, t: seq<nat>) {
    && 1 <= |t| <= width
    && (forall i :: 0 <= i < |t| ==> t[i] < Pow256(i + 1))
    && (forall i :: 1 <= i < |t| ==> 256 * t[i - 1] <= t[i])
  }

  /** The number of values with codes of at most i + 1 bytes. */
  function Total(t: seq<nat>, i: nat): int
    requires i < |t|
  {
    if i == 0 then t[0] else Total(t, i - 1) + t[i] - 256 * t[i - 1]
  }

  /** The tables that the constructor fills. */
  ghost predicate Tables(tr: Trie) {
    && WellFormed(tr.width, tr.trie)
    && |tr.boundary| == |tr.trie| == |tr.sum|
    && (forall i :: 0 <= i < |tr.trie| ==> tr.boundary[i] == High(tr.trie[i], i + 1, tr.width))
    && (forall i :: 0 <= i < |tr.trie| ==> tr.sum[i] == Total(tr.trie, i))
  }

  lemma {:induction false} TotalBounds(width: nat, t: seq<nat>, i: nat)
    requires WellFormed(width, t) && i < |t|
    ensures 0 <= Total(t, i) <= t[i] && (i > 0 ==> Total(t, i - 1) <= Total(t, i))
  {
    if i > 0 {
      TotalBounds(width, t, i - 1);
    }
  }

  lemma {:induction false} PowMono(a: nat, b: nat)
    requires a <= b
    ensures Pow256(a) <= Pow256(b)
  {
    if a < b {
      PowMono(a, b - 1);
    }
  }

  /** Boundaries ascend exactly where the levels do. */
  lemma {:induction false} BoundaryStep(width: nat, x: nat, y: nat, i: nat)
    requires i < width
    ensures High(x, i, width) <= High(y, i + 1, width) <==> 256 * x <= y
  {
    var p := Pow256(width - 1 - i);
    assert x * Pow256(width - i) == 256 * x * p;
    Scale(256 * x, y, p);
  }

  function Masked(raw: seq<nat>): (t: seq<nat>)
    ensures |t| == |raw| && forall i :: 0 <= i < |t| ==> t[i] == Low(raw[i], i + 1)
  {
    seq(|raw|, i requires 0 <= i < |raw| => Low(raw[i], i + 1))
  }

  lemma {:induction false} MaskedFits(raw: seq<nat>)
    ensures forall i :: 0 <= i < |raw| ==> Masked(raw)[i] < Pow256(i + 1)
  {
    hide Pow256;
  }

  ghost predicate Built(width: nat, raw: seq<nat>, boundary: seq<nat>, n: nat) {
    && n <= |raw| <= width && |boundary| == n
    && (forall i :: 0 <= i < n ==> boundary[i] == High(Low(raw[i], i + 1), i + 1, width))
    && (forall i :: 1 <= i < n ==> 256 * Low(raw[i - 1], i) <= Low(raw[i], i + 1))
  }

  /** The first loop of the constructor: masks, boundaries, and the test that the trie is well-formed. */
  method FillBoundaries(width: nat, raw: seq<nat>) returns (boundary: Option<seq<nat>>)
    requires 1 <= |raw| <= width
    ensures boundary.Some? <==> WellFormed(width, Masked(raw))
    ensures boundary.Some? ==> Built(width, raw, boundary.value, |raw|)
  {
    hide Pow256, High, Low, Wrap;
    MaskedFits(raw);
    var b: seq<nat> := [];
    var i := 0;
    while i < |raw|
      invariant 0 <= i <= |raw| && Built(width, raw, b, i)
    {
      ShiftUp(raw[i], i + 1, width);
      var shifted := Wrap(High(raw[i], i + 1, width), width);
      if i > 0 {
        BoundaryStep(width, Low(raw[i - 1], i), Low(raw[i], i + 1), i);
        if b[i - 1] > shifted {
          assert !(256 * Masked(raw)[i - 1] <= Masked(raw)[i]);
          return None;
        }
      }
      b := b + [shifted];
      i := i + 1;
    }
    return Some(b);
  }

  /** One step of the second loop of the constructor. */
  function RunningSum(sum: int, above: nat, below: nat, width: nat): nat {
    Wrap(Wrap(sum + above, width) - Wrap(below * 256, width), width)
  }

  lemma {:induction false} SumStep(width: nat, t: seq<nat>, i: nat)
    requires WellFormed(width, t) && 1 <= i < |t|
    ensures RunningSum(Total(t, i - 1), t[i], t[i - 1], width) == Total(t, i)
  {
    hide Pow256;
    TotalBounds(width, t, i);
    PowMono(i + 1, width);
    Fits(t[i - 1] * 256, width);
    var carry: int := t[i - 1] * 256;
    WrapTwice(Total(t, i - 1) + t[i], -carry, width);
    Fits(Total(t, i), width);
  }

  /** On the way to a sum, the product never overflows the word, and the running sum overflows only on the last level
      of a trie that is as high as its word, exactly when that level is within the previous sum of the range of the
      word. */
  lemma {:induction false} OnlyTheLastSumOverflows(width: nat, t: seq<nat>, i: nat)
    requires WellFormed(width, t) && 1 <= i < |t|
    ensures t[i - 1] * 256 < Pow256(width)
    ensures Total(t, i - 1) + t[i] >= Pow256(width) <==> i + 1 == width && Pow256(width) - t[i] <= Total(t, i - 1)
    ensures RunningSum(Total(t, i - 1), t[i], t[i - 1], width) == Total(t, i)
  {
    hide RunningSum;
    TotalBounds(width, t, i - 1);
    SumStep(width, t, i);
    PowMono(i + 1, width);
    if i + 1 < width {
      PowMono(i + 2, width);
      assert Pow256(i + 2) == 256 * Pow256(i + 1) && Pow256(i + 1) == 256 * Pow256(i);
    }
  }

  /** The second loop of the constructor. The running sum may wrap around, the sums it stores do not. */
  method FillSums(width: nat, t: seq<nat>) returns (sum: seq<nat>)
    requires WellFormed(width, t)
    ensures |sum| == |t| && forall i :: 0 <= i < |t| ==> sum[i] == Total(t, i)
  {
    sum := [t[0]];
    assert sum[0] == Total(t, 0);
    hide RunningSum, Total, WellFormed;
    var i := 1;
    while i < |t|
      invariant 1 <= i <= |t| && |sum| == i && forall k :: 0 <= k < i ==> sum[k] == Total(t, k)
    {
      SumStep(width, t, i);
      sum := sum + [RunningSum(sum[i - 1], t[i], t[i - 1], width)];
      i := i + 1;
    }
  }

  lemma {:induction false} WellFormedMeans(width: nat, raw: seq<nat>)
    requires 1 <= |raw| <= width
    ensures WellFormed(width, Masked(raw)) <==>
            forall i :: 1 <= i < |raw| ==> 256 * Low(raw[i - 1], i) <= Low(raw[i], i + 1)
  {
    hide Pow256, Low;
    MaskedFits(raw);
  }

  /** The constructor: refuses exactly the malformed tries. */
  method Build(width: nat, raw: seq<nat>) returns (tr: Option<Trie>)
    requires 1 <= |raw| <= width
    ensures tr.Some? <==> WellFormed(width, Masked(raw))
    ensures tr.Some? <==> forall i :: 1 <= i < |raw| ==> 256 * Low(raw[i - 1], i) <= Low(raw[i], i + 1)
    ensures tr.Some? ==> Tables(tr.value) && tr.value.width == width && tr.value.trie == Masked(raw)
  {
    hide Pow256, High, Low;
    WellFormedMeans(width, raw);
    var boundary := FillBoundaries(width, raw);
    if boundary.None? {
      return None;
    }
    var t := Masked(raw);
    var sum := FillSums(width, t);
    return Some(Trie(width, t, boundary.value, sum));
  }

  // ---------- codes ----------

  /** The first entry above `v`, or the length if there is none. */
  function First(s: seq<nat>, v: nat): (i: nat)
    ensures i <= |s| && (i < |s| ==> v < s[i]) && forall k :: 0 <= k < i ==> s[k] <= v
  {
    if s == [] || v < s[0] then 0 else 1 + First(s[1..], v)
  }

  lemma {:induction false} FirstIs(s: seq<nat>, v: nat, i: nat)
    requires i < |s| && v < s[i] && forall k :: 0 <= k < i ==> s[k] <= v
    ensures First(s, v) == i
  {
    var _ := First(s, v);
  }

  /** Codes of n bytes are the multiples of a byte position between two boundaries. */
  ghost predicate IsCode(tr: Trie, c: Code) {
    && 1 <= c.len <= |tr.trie| <= tr.width && |tr.boundary| == |tr.trie|
    && c.word < tr.boundary[c.len - 1] && (c.len > 1 ==> tr.boundary[c.len - 2] <= c.word)
    && exists x: nat :: c.word == High(x, c.len, tr.width)
  }

  /** What `encodeVarUInt` computes. */
  function Encoded(tr: Trie, value: nat): (c: Code)
    requires |tr.trie| == |tr.sum| <= tr.width
  {
    var i := First(tr.sum, value);
    if i == |tr.sum| then Code(0, 0)
    else
      var x := tr.trie[i] - (tr.sum[i] - value);
      if x < 0 then Code(0, 0) else Code(High(x, i + 1, tr.width), i + 1)
  }

  /** What `decodeVarUInt` computes from a word whose code has n bytes. */
  function Decoded(tr: Trie, c: Code): int
    requires 1 <= c.len <= |tr.trie| == |tr.sum| && c.len <= tr.width
  {
    tr.sum[c.len - 1] + c.word / Pow256(tr.width - c.len) - tr.trie[c.len - 1]
  }

  lemma {:induction false} SumsAscend(tr: Trie, i: nat, j: nat)
    requires Tables(tr) && i <= j < |tr.trie|
    ensures tr.sum[i] <= tr.sum[j] <= tr.trie[j]
    decreases j
  {
    TotalBounds(tr.width, tr.trie, j);
    if i < j {
      SumsAscend(tr, i, j - 1);
    }
  }

  lemma {:induction false} BoundariesAscend(tr: Trie, i: nat, j: nat)
    requires Tables(tr) && i <= j < |tr.trie|
    ensures tr.boundary[i] <= tr.boundary[j]
    decreases j
  {
    hide Pow256, High;
    if i < j {
      BoundariesAscend(tr, i, j - 1);
      BoundaryStep(tr.width, tr.trie[j - 1], tr.trie[j], j);
    }
  }

  /** Level i + 1 of the trie holds exactly the numbers from 256 * t[i - 1] to t[i]. */
  lemma {:induction false} Level(tr: Trie, i: nat, x: nat)
    requires Tables(tr) && i < |tr.trie|
    ensures High(x, i + 1, tr.width) < tr.boundary[i] <==> x < tr.trie[i]
    ensures i > 0 ==> (tr.boundary[i - 1] <= High(x, i + 1, tr.width) <==> 256 * tr.trie[i - 1] <= x)
    ensures High(x, i + 1, tr.width) / Pow256(tr.width - i - 1) == x
  {
    var p := Pow256(tr.width - i - 1);
    Scale(x, tr.trie[i], p);
    Unscale(x, 0, p);
    if i > 0 {
      BoundaryStep(tr.width, tr.trie[i - 1], x, i);
    }
  }

  /** The number that `encodeVarUInt` shifts is non-negative and lies on its level. */
  lemma {:induction false} EncodedLevel(tr: Trie, value: nat)
    requires Tables(tr) && value < tr.sum[|tr.sum| - 1]
    ensures var i := First(tr.sum, value);
            && i < |tr.sum| && 0 <= tr.trie[i] - (tr.sum[i] - value) < tr.trie[i]
            && (i > 0 ==> 256 * tr.trie[i - 1] <= tr.trie[i] - (tr.sum[i] - value))
  {
    hide Pow256, High;
    var i := First(tr.sum, value);
    SumsAscend(tr, i, i);
    if i > 0 {
      assert tr.sum[i - 1] <= value;
      assert tr.sum[i] == tr.sum[i - 1] + tr.trie[i] - 256 * tr.trie[i - 1];
    }
  }

  /** Every value gets a valid code, and decoding it returns the value. */
  lemma {:induction false} EncodeDecode(tr: Trie, value: nat)
    requires Tables(tr) && value < tr.sum[|tr.sum| - 1]
    ensures IsCode(tr, Encoded(tr, value)) && Decoded(tr, Encoded(tr, value)) == value
  {
    hide High, Pow256, Total;
    EncodedLevel(tr, value);
    var i := First(tr.sum, value);
    var x: nat := tr.trie[i] - (tr.sum[i] - value);
    Level(tr, i, x);
    assert Encoded(tr, value) == Code(High(x, i + 1, tr.width), i + 1);
  }

  /** Every valid code is the code of the value that it decodes to. */
  lemma {:induction false} DecodeEncode(tr: Trie, c: Code)
    requires Tables(tr) && IsCode(tr, c)
    ensures 0 <= Decoded(tr, c) < tr.sum[|tr.sum| - 1] && Encoded(tr, Decoded(tr, c)) == c
  {
    hide High, Pow256;
    var i := c.len - 1;
    var x: nat :| c.word == High(x, c.len, tr.width);
    Level(tr, i, x);
    SumsAscend(tr, i, i);
    SumsAscend(tr, i, |tr.sum| - 1);
    var v := Decoded(tr, c);
    assert v == tr.sum[i] + x - tr.trie[i];
    if i > 0 {
      assert tr.sum[i] == tr.sum[i - 1] + tr.trie[i] - 256 * tr.trie[i - 1];
      SumsAscend(tr, i - 1, i - 1);
    }
    forall k | 0 <= k < i
      ensures tr.sum[k] <= v
    {
      SumsAscend(tr, k, i - 1);
    }
    FirstIs(tr.sum, v, i);
  }

  /** Codes are ordered like their values. */
  lemma {:induction false} EncodeAscends(tr: Trie, a: nat, b: nat)
    requires Tables(tr) && a < b < tr.sum[|tr.sum| - 1]
    ensures Encoded(tr, a).word < Encoded(tr, b).word
  {
    hide High, Pow256, Total;
    EncodeDecode(tr, a);
    EncodeDecode(tr, b);
    var i, j := First(tr.sum, a), First(tr.sum, b);
    EncodedLevel(tr, a);
    EncodedLevel(tr, b);
    if i == j {
      HighAscends(tr.trie[i] - (tr.sum[i] - a), tr.trie[i] - (tr.sum[i] - b), i + 1, tr.width);
    } else {
      BoundariesAscend(tr, i, j - 1);
    }
  }

  lemma {:induction false} HighAscends(x: nat, y: nat, n: nat, width: nat)
    requires x < y && n <= width
    ensures High(x, n, width) < High(y, n, width)
  {
    Scale(x, y, Pow256(width - n));
  }

  /** `encodeVarUInt`; it refuses exactly the values that have no code. */
  method EncodeVarUInt(tr: Trie, value: nat) returns (r: Option<Code>)
    requires Tables(tr)
    ensures r == if value < tr.sum[|tr.sum| - 1] then Some(Encoded(tr, value)) else None
  {
    hide Pow256, High, Total;
    var n := |tr.sum|;
    var i := 0;
    while i < n
      invariant 0 <= i <= n && forall k :: 0 <= k < i ==> tr.sum[k] <= value
    {
      if value < tr.sum[i] {
        SumsAscend(tr, i, n - 1);
        FirstIs(tr.sum, value, i);
        EncodedLevel(tr, value);
        var shifted := tr.trie[i] - (tr.sum[i] - value);
        ShiftFits(tr, shifted, i);
        return Some(Code(Wrap(High(shifted, i + 1, tr.width), tr.width), i + 1));
      }
      i := i + 1;
    }
    return None;
  }

  /** Shifting a number of its level does not overflow the word. */
  lemma {:induction false} ShiftFits(tr: Trie, x: nat, i: nat)
    requires Tables(tr) && i < |tr.trie| && x < tr.trie[i]
    ensures Wrap(High(x, i + 1, tr.width), tr.width) == High(x, i + 1, tr.width)
  {
    hide Pow256;
    PowAdd(i + 1, tr.width - (i + 1));
    Scale(x, Pow256(i + 1), Pow256(tr.width - (i + 1)));
    Scale(0, x, Pow256(tr.width - (i + 1)));
    Fits(High(x, i + 1, tr.width), tr.width);
  }
}
