/** Minimum, and multiplication, division and remainder by a positive number. */
module Arithmetic {

  function Min(a: nat, b: nat): nat {
    if a < b then a else b
  }

  lemma {:induction false} Multiple(d: int, p: int)
    requires p > 0
    ensures (d >= 1 ==> d * p >= p) && (d <= 0 ==> d * p <= 0) && (d <= -1 ==> d * p <= -p)
  {
    if d >= 1 {
      assert (d - 1) * p >= 0;
    } else if d <= -1 {
      assert (-1 - d) * p >= 0;
    }
  }

  lemma {:induction false} Scale(a: int, b: int, p: int)
    requires p > 0
    ensures (a < b <==> a * p < b * p) && (a <= b <==> a * p <= b * p)
  {
    Multiple(b - a, p);
    assert (b - a) * p == b * p - a * p;
  }

  lemma {:induction false} Unscale(c: int, r: int, p: int)
    requires p > 0 && 0 <= r < p
    ensures (c * p + r) / p == c && (c * p + r) % p == r
  {
    var x := c * p + r;
    Multiple(x / p - c, p);
    assert x == x / p * p + x % p;
    assert (x / p - c) * p == r - x % p;
  }
}
