/** Little-endian integers of any width, as `memcpy` reads and writes them. */
module Bytes {

  /** `s` with `bytes` copied over it at `offset`. */
  function Splice(s: seq<int>, offset: nat, bytes: seq<int>): (r: seq<int>)
    requires offset + |bytes| <= |s|
    ensures |r| == |s|
    ensures forall k :: 0 <= k < |s| ==>
              r[k] == if offset <= k < offset + |bytes| then bytes[k - offset] else s[k]
  {
    s[..offset] + bytes + s[offset + |bytes|..]
  }

  function Number(bytes: seq<int>): int {
    if bytes == [] then 0 else bytes[0] + 256 * Number(bytes[1..])
  }

  /** The n low-order bytes of v; for a negative v this is two's complement. */
  function LittleEndian(v: int, n: nat): (bytes: seq<int>)
    ensures |bytes| == n && forall k :: 0 <= k < n ==> 0 <= bytes[k] < 256
    decreases n
  {
    if n == 0 then [] else [v % 256] + LittleEndian(v / 256, n - 1)
  }

  function Pow256(n: nat): (p: nat)
    ensures p > 0
  {
    if n == 0 then 1 else 256 * Pow256(n - 1)
  }

  /** Reading back what was written gives the value modulo 256^n. */
  lemma {:induction false} NumberOfLittleEndian(v: int, n: nat) returns (q: int)
    ensures 0 <= Number(LittleEndian(v, n)) < Pow256(n)
    ensures v == Number(LittleEndian(v, n)) + q * Pow256(n)
    decreases n
  {
    if n == 0 {
      q := v;
    } else {
      var bytes := LittleEndian(v, n);
      q := NumberOfLittleEndian(v / 256, n - 1);
      assert bytes[1..] == LittleEndian(v / 256, n - 1);
      assert q * Pow256(n) == 256 * (q * Pow256(n - 1));
    }
  }

  /** Adding to a stored integer wraps like adding to the integer itself. */
  lemma {:induction false} AddToStored(v: int, b: int, n: nat)
    ensures LittleEndian(Number(LittleEndian(v, n)) + b, n) == LittleEndian(v + b, n)
    decreases n
  {
    if n > 0 {
      var bytes := LittleEndian(v, n);
      assert bytes[1..] == LittleEndian(v / 256, n - 1);
      var low := Number(LittleEndian(v / 256, n - 1));
      assert Number(bytes) == v % 256 + 256 * low;
      var carry := (v % 256 + b) / 256;
      assert (Number(bytes) + b) / 256 == low + carry && (v + b) / 256 == v / 256 + carry;
      AddToStored(v / 256, carry, n - 1);
    }
  }

  lemma {:induction false} LittleEndianPrefix(v: int, n: nat, k: nat)
    requires k <= n
    ensures LittleEndian(v, n)[..k] == LittleEndian(v, k)
    decreases n
  {
    if k > 0 {
      LittleEndianPrefix(v / 256, n - 1, k - 1);
      assert LittleEndian(v, n)[..k] == [v % 256] + LittleEndian(v / 256, n - 1)[..k - 1];
    }
  }

  /** The low-order bytes of a sum are determined by the low-order bytes of what is added to. */
  lemma {:induction false} LowBytesOfSum(bytes: seq<int>, k: nat, amount: int)
    requires k <= |bytes|
    ensures LittleEndian(Number(bytes) + amount, k) == LittleEndian(Number(bytes[..k]) + amount, k)
    decreases k
  {
    if k > 0 {
      var rest := bytes[1..];
      assert bytes[..k][1..] == rest[..k - 1];
      var low, carry := (bytes[0] + amount) % 256, (bytes[0] + amount) / 256;
      LowBytesOfSum(rest, k - 1, carry);
      LittleEndianStep(Number(bytes) + amount, k, low, Number(rest) + carry);
      LittleEndianStep(Number(bytes[..k]) + amount, k, low, Number(rest[..k - 1]) + carry);
    }
  }

  lemma {:induction false} LittleEndianStep(v: int, n: nat, low: int, rest: int)
    requires n > 0 && v == 256 * rest + low && 0 <= low < 256
    ensures LittleEndian(v, n) == [low] + LittleEndian(rest, n - 1)
  {
    assert v % 256 == low && v / 256 == rest;
  }

  function Zeros(n: nat): (s: seq<int>)
    ensures |s| == n && forall k :: 0 <= k < n ==> s[k] == 0
  {
    seq(n, _ => 0)
  }

  lemma {:induction false} NumberOfZeros(n: nat)
    ensures Number(Zeros(n)) == 0
  {
    if n > 0 {
      assert Zeros(n)[1..] == Zeros(n - 1);
      NumberOfZeros(n - 1);
    }
  }

  type Octets = seq<nat>

  predicate AreOctets(bs: Octets) {
    forall k :: 0 <= k < |bs| ==> bs[k] < 256
  }
}
