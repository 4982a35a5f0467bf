/** Variable-length compound identifiers (include/core/tries.hpp:43-97) over any three prefix tries of one width. */
module Identifiers {
  import opened Arithmetic
  import opened Bytes
  import opened Options
  import opened PrefixTries
  import opened PrefixReaders

  /** The tries of application, account and local identifiers. */
  datatype Tries = Tries(app: Trie, account: Trie, local: Trie)

  /** `FullID`: three words of fixed width, the codes padded with zeros. */
  datatype FullID = FullID(up: nat, middle: nat, down: nat)

  ghost predicate Valid(ts: Tries) {
    Tables(ts.app) && Tables(ts.account) && Tables(ts.local)
  }

  /** Three codes read one after the other: the words, and where reading ended. */
  function Parsed(ts: Tries, bs: Octets): (r: Option<(FullID, nat)>)
    requires Valid(ts)
    ensures r.Some? ==> r.value.1 <= |bs|
  {
    var a := ReadBytes(ts.app, bs);
    if a.None? then None else
      var b := ReadBytes(ts.account, bs[a.value.len..]);
      if b.None? then None else
        var n := a.value.len + b.value.len;
        var c := ReadBytes(ts.local, bs[n..]);
        if c.None? then None else Some((FullID(a.value.word, b.value.word, c.value.word), n + c.value.len))
  }

  /** The bytes are exactly one identifier. */
  ghost predicate IsId(ts: Tries, bs: Octets)
    requires Valid(ts)
  {
    AreOctets(bs) && Parsed(ts, bs).Some? && Parsed(ts, bs).value.1 == |bs|
  }

  function ToFullID(ts: Tries, id: Octets): FullID
    requires Valid(ts) && Parsed(ts, id).Some?
  {
    Parsed(ts, id).value.0
  }

  function GetLen(ts: Tries, id: Octets): nat
    requires Valid(ts) && Parsed(ts, id).Some?
  {
    Parsed(ts, id).value.1
  }

  // ---------- one code ----------

  /** The padded word determines the code and its length. */
  lemma {:induction false} WordDeterminesCode(tr: Trie, c: Code, d: Code)
    requires Tables(tr) && IsCode(tr, c) && IsCode(tr, d) && c.word == d.word
    ensures c == d
  {
    FirstOfCode(tr, c);
    FirstOfCode(tr, d);
  }

  lemma {:induction false} FirstOfCode(tr: Trie, c: Code)
    requires Tables(tr) && IsCode(tr, c)
    ensures First(tr.boundary, c.word) == c.len - 1
  {
    hide Pow256, High;
    forall k | 0 <= k < c.len - 1
      ensures tr.boundary[k] <= c.word
    {
      BoundariesAscend(tr, k, c.len - 2);
    }
    FirstIs(tr.boundary, c.word, c.len - 1);
  }

  /** Two readings give the same word exactly when the bytes read are the same. */
  lemma {:induction false} SameWordSameBytes(tr: Trie, a: Octets, b: Octets)
    requires Tables(tr) && AreOctets(a) && AreOctets(b) && ReadBytes(tr, a).Some? && ReadBytes(tr, b).Some?
    ensures var c, d := ReadBytes(tr, a).value, ReadBytes(tr, b).value;
            && (c.word == d.word ==> c == d && a[..c.len] == b[..c.len])
            && (c.len <= |b| && a[..c.len] == b[..c.len] ==> c == d)
  {
    hide ReadBytes, Pow256, CodeBytes;
    var c, d := ReadBytes(tr, a).value, ReadBytes(tr, b).value;
    ReadIsCode(tr, a);
    ReadIsCode(tr, b);
    if c.word == d.word {
      WordDeterminesCode(tr, c, d);
    }
    if c.len <= |b| && a[..c.len] == b[..c.len] {
      ReadsCode(tr, b, c);
    }
  }

  lemma {:induction false} SameOctet(tr: Trie, a: Octets, b: Octets, i: nat)
    requires Tables(tr) && AreOctets(a) && AreOctets(b) && ReadBytes(tr, a).Some? &&
             ReadBytes(tr, a) == ReadBytes(tr, b)
    requires i < ReadBytes(tr, a).value.len
    ensures i < |a| && i < |b| && a[i] == b[i]
  {
    hide Pow256, BigEndian, High;
    SameWordSameBytes(tr, a, b);
    var n := ReadBytes(tr, a).value.len;
    assert a[i] == a[..n][i] == b[..n][i] == b[i];
  }

  /** `equals`: the length of the common code, or nothing when the codes differ. Neither array is read past its end. */
  method EqualCodes(tr: Trie, a: Octets, b: Octets) returns (r: Option<nat>)
    requires Tables(tr) && AreOctets(a) && AreOctets(b) && ReadBytes(tr, a).Some? && ReadBytes(tr, b).Some?
    ensures r.Some? <==> ReadBytes(tr, a) == ReadBytes(tr, b)
    ensures r.Some? ==> r.value == ReadBytes(tr, a).value.len
  {
    hide Pow256, BigEndian, High;
    var limit := Min(|tr.boundary|, |a|);
    var id: nat := 0;
    var i := 0;
    NoOctets(a, tr.width);
    while i < |tr.boundary|
      invariant 0 <= i <= limit && i <= |b| && a[..i] == b[..i]
      invariant id == High(BigEndian(a[..i]), i, tr.width)
      invariant ReadFrom(tr, a, i, limit) == ReadBytes(tr, a)
    {
      InBounds(tr, a, b, i);
      if a[i] != b[i] {
        if ReadBytes(tr, a) == ReadBytes(tr, b) {
          SameOctet(tr, a, b, i);
        }
        return None;
      }
      NextOctet(a, i, tr.width);
      id := id + a[i] * Pow256(tr.width - i - 1);
      assert a[..i + 1] == a[..i] + [a[i]] && b[..i + 1] == b[..i] + [b[i]];
      if id < tr.boundary[i] {
        SameWordSameBytes(tr, a, b);
        return Some(i + 1);
      }
      i := i + 1;
    }
    return None;
  }

  /** While no code was found and the bytes agree, both arrays go on. */
  lemma {:induction false} InBounds(tr: Trie, a: Octets, b: Octets, i: nat)
    requires Tables(tr) && AreOctets(a) && AreOctets(b) && ReadBytes(tr, a).Some? && ReadBytes(tr, b).Some?
    requires i <= |a| && i <= |b| && a[..i] == b[..i] && i <= Min(|tr.boundary|, |a|)
    requires ReadFrom(tr, a, i, Min(|tr.boundary|, |a|)) == ReadBytes(tr, a)
    ensures i < ReadBytes(tr, a).value.len && i < ReadBytes(tr, b).value.len
  {
    hide Pow256, BigEndian, High;
    var d := ReadBytes(tr, b).value;
    if d.len <= i {
      assert a[..d.len] == a[..i][..d.len] == b[..i][..d.len] == b[..d.len];
      SameWordSameBytes(tr, b, a);
    }
  }

  // ---------- identifiers ----------

  /** The parsing constructor: takes the identifier off the front of the input, or refuses. */
  method Parse(ts: Tries, input: Octets) returns (r: Option<Octets>)
    requires Valid(ts) && AreOctets(input)
    ensures r.Some? <==> Parsed(ts, input).Some?
    ensures r.Some? ==> r.value <= input && IsId(ts, r.value) && Parsed(ts, r.value) == Parsed(ts, input)
  {
    hide ReadFrom, Pow256, High, Total;
    var a := ReadPrefixCodeOfBytes(ts.app, input, |input|);
    if a.None? {
      return None;
    }
    var rest := input[a.value.len..];
    var b := ReadPrefixCodeOfBytes(ts.account, rest, |rest|);
    if b.None? {
      return None;
    }
    var n := a.value.len + b.value.len;
    rest := input[n..];
    var c := ReadPrefixCodeOfBytes(ts.local, rest, |rest|);
    if c.None? {
      return None;
    }
    n := n + c.value.len;
    ParsedPrefix(ts, input);
    return Some(input[..n]);
  }

  lemma {:induction false} ReadsPrefix(tr: Trie, bs: Octets, n: nat)
    requires Tables(tr) && AreOctets(bs) && ReadBytes(tr, bs).Some? && ReadBytes(tr, bs).value.len <= n <= |bs|
    ensures ReadBytes(tr, bs[..n]) == ReadBytes(tr, bs)
  {
    hide Pow256, BigEndian, High, ReadBytes;
    ReadIsCode(tr, bs);
    var c := ReadBytes(tr, bs).value;
    assert bs[..n][..c.len] == bs[..c.len];
    ReadsCode(tr, bs[..n], c);
  }

  /** Parsing depends on the bytes of the identifier only. */
  lemma {:induction false} ParsedPrefix(ts: Tries, bs: Octets)
    requires Valid(ts) && AreOctets(bs) && Parsed(ts, bs).Some?
    ensures Parsed(ts, bs[..GetLen(ts, bs)]) == Parsed(ts, bs) && IsId(ts, bs[..GetLen(ts, bs)])
  {
    hide ReadBytes, Pow256, High, Total;
    var n := GetLen(ts, bs);
    var a := ReadBytes(ts.app, bs).value.len;
    var b := a + ReadBytes(ts.account, bs[a..]).value.len;
    ReadsPrefix(ts.app, bs, n);
    ReadsPrefix(ts.account, bs[a..], n - a);
    ReadsPrefix(ts.local, bs[b..], n - b);
    assert bs[..n][a..] == bs[a..][..n - a] && bs[..n][b..] == bs[b..][..n - b];
  }

  /** Two identifiers have the same padded form exactly when their bytes are the same. */
  lemma {:induction false} PaddingLosesNothing(ts: Tries, x: Octets, y: Octets)
    requires Valid(ts) && IsId(ts, x) && IsId(ts, y)
    ensures ToFullID(ts, x) == ToFullID(ts, y) <==> x == y
    ensures x <= y <==> x == y
  {
    hide ReadBytes, Pow256, High, Total;
    if ToFullID(ts, x) == ToFullID(ts, y) {
      SameFullID(ts, x, y);
    }
    if x <= y {
      assert y[..|x|] == x;
      PrefixIsWhole(ts, x, y);
    }
  }

  lemma {:induction false} SameFullID(ts: Tries, x: Octets, y: Octets)
    requires Valid(ts) && IsId(ts, x) && IsId(ts, y) && ToFullID(ts, x) == ToFullID(ts, y)
    ensures x == y
  {
    hide ReadBytes, Pow256, High, Total;
    SameWordSameBytes(ts.app, x, y);
    var a := ReadBytes(ts.app, x).value.len;
    SameWordSameBytes(ts.account, x[a..], y[a..]);
    var b := a + ReadBytes(ts.account, x[a..]).value.len;
    SameWordSameBytes(ts.local, x[b..], y[b..]);
    var n := b + ReadBytes(ts.local, x[b..]).value.len;
    assert x == x[..a] + x[a..][..b - a] + x[b..][..n - b];
    assert y == y[..a] + y[a..][..b - a] + y[b..][..n - b];
  }

  /** No identifier is a proper prefix of another. */
  lemma {:induction false} PrefixIsWhole(ts: Tries, x: Octets, y: Octets)
    requires Valid(ts) && IsId(ts, x) && IsId(ts, y) && |x| <= |y| && y[..|x|] == x
    ensures x == y
  {
    hide ReadBytes, Pow256, High, Total;
    var a := ReadBytes(ts.app, x).value.len;
    var b := a + ReadBytes(ts.account, x[a..]).value.len;
    assert x[..a] == y[..a] && x[a..][..b - a] == y[a..][..b - a] && x[b..][..|x| - b] == y[b..][..|x| - b];
    SameWordSameBytes(ts.app, x, y);
    SameWordSameBytes(ts.account, x[a..], y[a..]);
    SameWordSameBytes(ts.local, x[b..], y[b..]);
  }

  /** `operator==`: three code comparisons decide whether the identifiers are the same. */
  method Equal(ts: Tries, x: Octets, y: Octets) returns (equal: bool)
    requires Valid(ts) && IsId(ts, x) && IsId(ts, y)
    ensures equal <==> x == y
    ensures equal <==> ToFullID(ts, x) == ToFullID(ts, y)
    ensures equal <==> GetLen(ts, x) <= |y| && x[..GetLen(ts, x)] == y[..GetLen(ts, x)]
  {
    hide ReadBytes, Pow256, High, Total;
    PaddingLosesNothing(ts, x, y);
    assert x[..|x|] == x;
    var a := EqualCodes(ts.app, x, y);
    if a.None? {
      return false;
    }
    var b := EqualCodes(ts.account, x[a.value..], y[a.value..]);
    if b.None? {
      return false;
    }
    var n := a.value + b.value;
    var c := EqualCodes(ts.local, x[n..], y[n..]);
    return c.Some?;
  }

  // ---------- the tries of the repository ----------

  const VAR_UINT: seq<nat> := [0xd0, 0xf000, 0xfc0000, 0xffffff00]

  lemma {:induction false} Powers()
    ensures Pow256(1) == 0x100 && Pow256(2) == 0x1_0000 && Pow256(3) == 0x100_0000 && Pow256(4) == 0x1_0000_0000
  {
    assert Pow256(0) == 1;
  }

  /** All four are accepted by the constructor: the codes of integers and of the three parts of an identifier. */
  lemma {:induction false} RepositoryTries()
    ensures WellFormed(4, VAR_UINT)
    ensures WellFormed(8, [0xa0, 0xc000, 0xd0_0000]) && WellFormed(8, [0x60, 0xd000, 0xe0_0000])
    ensures WellFormed(8, [0xc0, 0xe000, 0xf0_0000])
  {
    Powers();
  }

  /** The sum that the constructor computes on the way does overflow the word for the codes of integers; the result,
      68 million values, is right all the same. */
  lemma {:induction false} RunningSumOverflows()
    ensures Total(VAR_UINT, 2) + VAR_UINT[3] >= Pow256(4)
    ensures RunningSum(Total(VAR_UINT, 2), VAR_UINT[3], VAR_UINT[2], 4) == Total(VAR_UINT, 3) == 67903440
  {
    Powers();
    RepositoryTries();
    assert Total(VAR_UINT, 0) == 208;
    assert Total(VAR_UINT, 1) == 8400;
    assert Total(VAR_UINT, 2) == 794832;
    SumStep(4, VAR_UINT, 3);
  }
}
