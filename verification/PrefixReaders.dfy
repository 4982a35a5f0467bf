/** The readers and writers of prefix codes (src/util/PrefixTrie.hpp:50-192, 238-242): from a word and from bytes, most
    significant byte first. */
module PrefixReaders {
  import opened Arithmetic
  import opened Bytes
  import opened Options
  import opened PrefixTries

  function BigEndian(bs: Octets): nat {
    if bs == [] then 0 else 256 * BigEndian(bs[..|bs| - 1]) + bs[|bs| - 1]
  }

  /** The first n bytes of a word (`writeBigEndian`). */
  function Written(word: nat, n: nat, width: nat): (bs: Octets)
    requires n <= width
    ensures |bs| == n && AreOctets(bs)
  {
    seq(n, k requires 0 <= k < n => word / Pow256(width - k - 1) % 256)
  }

  lemma {:induction false} QuotientNonNegative(x: nat, p: nat)
    requires p > 0
    ensures x / p >= 0
  {
    Multiple(x / p, p);
    assert x == x / p * p + x % p;
  }

  /** The word cut down to its first n bytes. */
  function Cut(word: nat, n: nat, width: nat): nat
    requires n <= width
  {
    QuotientNonNegative(word, Pow256(width - n));
    High(word / Pow256(width - n), n, width)
  }

  /** The reader of words: the first boundary above the word decides the length. */
  function ReadWord(tr: Trie, word: nat, maxLength: nat): Option<Code>
    requires |tr.boundary| <= tr.width
  {
    var i := First(tr.boundary, word);
    if i < Min(maxLength, |tr.boundary|) then Some(Code(Cut(word, i + 1, tr.width), i + 1)) else None
  }

  /** The reader of bytes, when the first i bytes are not a code. */
  function ReadFrom(tr: Trie, bs: Octets, i: nat, limit: nat): (r: Option<Code>)
    requires limit <= |tr.boundary| <= tr.width && limit <= |bs|
    ensures r.Some? ==> i < r.value.len <= limit
    decreases limit - i
  {
    if i >= limit then None
    else
      var word := High(BigEndian(bs[..i + 1]), i + 1, tr.width);
      if word < tr.boundary[i] then Some(Code(word, i + 1)) else ReadFrom(tr, bs, i + 1, limit)
  }

  function ReadBytes(tr: Trie, bs: Octets): (r: Option<Code>)
    requires |tr.boundary| <= tr.width
    ensures r.Some? ==> 0 < r.value.len <= |bs|
  {
    ReadFrom(tr, bs, 0, Min(|tr.boundary|, |bs|))
  }

  // ---------- words and bytes ----------

  lemma {:induction false} BigEndianBound(bs: Octets)
    requires AreOctets(bs)
    ensures BigEndian(bs) < Pow256(|bs|)
  {
    if bs != [] {
      BigEndianBound(bs[..|bs| - 1]);
    }
  }

  lemma {:induction false} DivStep(word: nat, p: nat)
    requires p > 0
    ensures word / p == 256 * (word / (256 * p)) + word / p % 256
  {
    var q := word / p;
    var a, b := q / 256, q % 256;
    assert q == 256 * a + b;
    var r := word % p;
    assert word == q * p + r;
    assert word == a * (256 * p) + (b * p + r) by {
      assert q * p == a * 256 * p + b * p;
    }
    assert 0 <= b * p <= 255 * p by {
      Scale(b, 255, p);
      Scale(0, b, p);
    }
    Unscale(a, b * p + r, 256 * p);
  }

  /** The bytes written for a word spell its high-order part. */
  lemma {:induction false} WrittenSpells(word: nat, n: nat, width: nat)
    requires n <= width && word < Pow256(width)
    ensures BigEndian(Written(word, n, width)) == word / Pow256(width - n)
  {
    if n == 0 {
      Unscale(0, word, Pow256(width));
    } else {
      WrittenSpells(word, n - 1, width);
      assert Written(word, n, width)[..n - 1] == Written(word, n - 1, width);
      var p := Pow256(width - n);
      assert Pow256(width - (n - 1)) == 256 * p;
      DivStep(word, p);
    }
  }

  /** Below a boundary means that the high-order part is below the level. */
  lemma {:induction false} BelowBoundary(x: nat, word: nat, n: nat, width: nat)
    requires n <= width
    ensures word < High(x, n, width) <==> word / Pow256(width - n) < x
    ensures Cut(word, n, width) <= word
  {
    hide Pow256;
    var p := Pow256(width - n);
    var q, r := word / p, word % p;
    assert word == q * p + r;
    Scale(q, x, p);
    Scale(q + 1, x, p);
    assert (q + 1) * p == q * p + p;
  }

  lemma {:induction false} CutBelow(tr: Trie, word: nat, i: nat)
    requires Tables(tr) && i < |tr.boundary|
    ensures word < tr.boundary[i] <==> Cut(word, i + 1, tr.width) < tr.boundary[i]
  {
    hide Pow256;
    BelowBoundary(tr.trie[i], word, i + 1, tr.width);
    HighBelow(word / Pow256(tr.width - (i + 1)), tr.trie[i], i + 1, tr.width);
  }

  lemma {:induction false} HighBelow(x: nat, y: nat, n: nat, width: nat)
    requires n <= width
    ensures High(x, n, width) < High(y, n, width) <==> x < y
  {
    Scale(x, y, Pow256(width - n));
  }

  lemma {:induction false} ReadersAgreeFrom(tr: Trie, word: nat, i: nat, limit: nat)
    requires Tables(tr) && word < Pow256(tr.width) && i <= limit <= |tr.boundary|
    requires forall k :: 0 <= k < i ==> tr.boundary[k] <= word
    ensures ReadFrom(tr, Written(word, tr.width, tr.width), i, limit) == ReadWord(tr, word, limit)
    decreases limit - i
  {
    hide Pow256, High, Written, Cut;
    if i < limit {
      PrefixSpells(word, i + 1, tr.width);
      CutBelow(tr, word, i);
      if word < tr.boundary[i] {
        FirstIs(tr.boundary, word, i);
      } else {
        ReadersAgreeFrom(tr, word, i + 1, limit);
      }
    }
  }

  lemma {:induction false} PrefixSpells(word: nat, n: nat, width: nat)
    requires n <= width && word < Pow256(width)
    ensures High(BigEndian(Written(word, width, width)[..n]), n, width) == Cut(word, n, width)
  {
    assert Written(word, width, width)[..n] == Written(word, n, width);
    WrittenSpells(word, n, width);
  }

  /** The reader of words and the reader of the bytes of the word agree on every word, under every length limit. */
  lemma {:induction false} ReadersAgree(tr: Trie, word: nat, maxLength: nat)
    requires Tables(tr) && word < Pow256(tr.width) && maxLength <= tr.width
    ensures ReadBytes(tr, Written(word, maxLength, tr.width)) == ReadWord(tr, word, maxLength)
  {
    var limit := Min(maxLength, |tr.boundary|);
    ReadersAgreeFrom(tr, word, 0, limit);
    assert Written(word, tr.width, tr.width)[..maxLength] == Written(word, maxLength, tr.width);
    ReadFromPrefix(tr, Written(word, maxLength, tr.width), Written(word, tr.width, tr.width), 0, limit);
  }

  /** Only the bytes below the limit matter. */
  lemma {:induction false} ReadFromPrefix(tr: Trie, a: Octets, b: Octets, i: nat, limit: nat)
    requires limit <= |tr.boundary| <= tr.width && limit <= |a| && limit <= |b| && a[..limit] == b[..limit]
    ensures ReadFrom(tr, a, i, limit) == ReadFrom(tr, b, i, limit)
    decreases limit - i
  {
    hide High, BigEndian;
    if i < limit {
      assert a[..i + 1] == a[..limit][..i + 1] == b[..limit][..i + 1] == b[..i + 1];
      ReadFromPrefix(tr, a, b, i + 1, limit);
    }
  }

  // ---------- codes as byte strings ----------

  lemma {:induction false} BigEndianInjective(a: Octets, b: Octets)
    requires AreOctets(a) && AreOctets(b) && |a| == |b| && BigEndian(a) == BigEndian(b)
    ensures a == b
  {
    if a != [] {
      var n := |a| - 1;
      BigEndianInjective(a[..n], b[..n]);
      assert a == a[..n] + [a[n]] && b == b[..n] + [b[n]];
    }
  }

  /** The bytes of a code. */
  function CodeBytes(tr: Trie, c: Code): (bs: Octets)
    requires c.len <= tr.width
    ensures |bs| == c.len && AreOctets(bs)
  {
    Written(c.word, c.len, tr.width)
  }

  lemma {:induction false} HighFits(x: nat, n: nat, width: nat)
    requires n <= width && x < Pow256(n)
    ensures High(x, n, width) < Pow256(width) && High(x, n, width) / Pow256(width - n) == x
  {
    hide Pow256;
    PowAdd(n, width - n);
    Scale(x, Pow256(n), Pow256(width - n));
    Unscale(x, 0, Pow256(width - n));
  }

  lemma {:induction false} CodeFits(tr: Trie, c: Code)
    requires Tables(tr) && IsCode(tr, c)
    ensures c.word < Pow256(tr.width) && Cut(c.word, c.len, tr.width) == c.word
  {
    hide Pow256, High;
    var x: nat :| c.word == High(x, c.len, tr.width);
    HighBelow(x, tr.trie[c.len - 1], c.len, tr.width);
    HighFits(x, c.len, tr.width);
  }

  lemma {:induction false} ReadsCodeFrom(tr: Trie, bs: Octets, c: Code, i: nat, limit: nat)
    requires Tables(tr) && IsCode(tr, c) && i < c.len <= limit <= |tr.boundary| && limit <= |bs|
    requires bs[..c.len] == CodeBytes(tr, c)
    ensures ReadFrom(tr, bs, i, limit) == Some(c)
    decreases limit - i
  {
    hide Pow256, High, Cut, Written, BigEndian;
    CodeFits(tr, c);
    CodeSpells(tr, bs, c, i + 1);
    CutBelow(tr, c.word, i);
    if i < c.len - 1 {
      BoundariesAscend(tr, i, c.len - 2);
      ReadsCodeFrom(tr, bs, c, i + 1, limit);
    }
  }

  lemma {:induction false} CodeSpells(tr: Trie, bs: Octets, c: Code, n: nat)
    requires c.word < Pow256(tr.width) && n <= c.len <= tr.width && c.len <= |bs| && bs[..c.len] == CodeBytes(tr, c)
    ensures High(BigEndian(bs[..n]), n, tr.width) == Cut(c.word, n, tr.width)
  {
    hide Pow256, High;
    assert bs[..n] == CodeBytes(tr, c)[..n] == Written(c.word, n, tr.width);
    WrittenSpells(c.word, n, tr.width);
  }

  /** Whatever follows a code, the reader finds the code. */
  lemma {:induction false} ReadsCode(tr: Trie, bs: Octets, c: Code)
    requires Tables(tr) && IsCode(tr, c) && c.len <= |bs| && bs[..c.len] == CodeBytes(tr, c)
    ensures ReadBytes(tr, bs) == Some(c)
  {
    ReadsCodeFrom(tr, bs, c, 0, Min(|tr.boundary|, |bs|));
  }

  lemma {:induction false} ReadIsCodeFrom(tr: Trie, bs: Octets, i: nat, limit: nat)
    requires Tables(tr) && AreOctets(bs) && limit <= |tr.boundary| && limit <= |bs| && i <= limit
    requires i > 0 ==> tr.boundary[i - 1] <= High(BigEndian(bs[..i]), i, tr.width)
    ensures var r := ReadFrom(tr, bs, i, limit);
            r.Some? ==> IsCode(tr, r.value) && CodeBytes(tr, r.value) == bs[..r.value.len]
    decreases limit - i
  {
    hide Pow256, High, Written, BigEndian;
    if i < limit {
      var x := BigEndian(bs[..i + 1]);
      var word := High(x, i + 1, tr.width);
      if word < tr.boundary[i] {
        SpellsBack(bs[..i + 1], tr.width);
        if i > 0 {
          LongerSpellsMore(bs, i, tr.width);
        }
        assert ReadFrom(tr, bs, i, limit) == Some(Code(word, i + 1));
        assert IsCode(tr, Code(word, i + 1));
      } else {
        ReadIsCodeFrom(tr, bs, i + 1, limit);
      }
    }
  }

  lemma {:induction false} SpellsBack(bs: Octets, width: nat)
    requires AreOctets(bs) && |bs| <= width
    ensures Written(High(BigEndian(bs), |bs|, width), |bs|, width) == bs
  {
    hide Pow256, High;
    BigEndianBound(bs);
    HighFits(BigEndian(bs), |bs|, width);
    WrittenSpells(High(BigEndian(bs), |bs|, width), |bs|, width);
    BigEndianInjective(Written(High(BigEndian(bs), |bs|, width), |bs|, width), bs);
  }

  lemma {:induction false} LongerSpellsMore(bs: Octets, i: nat, width: nat)
    requires i < |bs| && i < width
    ensures High(BigEndian(bs[..i]), i, width) <= High(BigEndian(bs[..i + 1]), i + 1, width)
  {
    assert bs[..i + 1][..i] == bs[..i];
    BoundaryStep(width, BigEndian(bs[..i]), BigEndian(bs[..i + 1]), i);
  }

  /** Everything that the reader returns is a valid code, spelt by the bytes it consumed. */
  lemma {:induction false} ReadIsCode(tr: Trie, bs: Octets)
    requires Tables(tr) && AreOctets(bs)
    ensures var r := ReadBytes(tr, bs); r.Some? ==> IsCode(tr, r.value) && CodeBytes(tr, r.value) == bs[..r.value.len]
  {
    ReadIsCodeFrom(tr, bs, 0, Min(|tr.boundary|, |bs|));
  }

  /** No code is a proper prefix of another. */
  lemma {:induction false} PrefixFree(tr: Trie, c: Code, d: Code)
    requires Tables(tr) && IsCode(tr, c) && IsCode(tr, d)
    requires c.len <= d.len && CodeBytes(tr, c) == CodeBytes(tr, d)[..c.len]
    ensures c == d
  {
    var bs := CodeBytes(tr, d);
    assert bs[..d.len] == bs;
    ReadsCode(tr, bs, c);
    ReadsCode(tr, bs, d);
  }

  // ---------- the loops ----------

  /** `readPrefixCode` on a word. */
  method ReadPrefixCodeOfWord(tr: Trie, word: nat, maxLength: nat) returns (r: Option<Code>)
    requires |tr.boundary| <= tr.width
    ensures r == ReadWord(tr, word, maxLength)
  {
    hide Cut;
    var limit := if maxLength > |tr.boundary| then |tr.boundary| else maxLength;
    var i := 0;
    while i < limit
      invariant 0 <= i <= limit && forall k :: 0 <= k < i ==> tr.boundary[k] <= word
    {
      if word < tr.boundary[i] {
        FirstIs(tr.boundary, word, i);
        return Some(Code(Cut(word, i + 1, tr.width), i + 1));
      }
      i := i + 1;
    }
    return None;
  }

  lemma {:induction false} NextOctet(bs: Octets, i: nat, width: nat)
    requires i < |bs| && i < width
    ensures High(BigEndian(bs[..i]), i, width) + bs[i] * Pow256(width - i - 1) ==
            High(BigEndian(bs[..i + 1]), i + 1, width)
  {
    assert bs[..i + 1][..i] == bs[..i];
    var x, p := BigEndian(bs[..i]), Pow256(width - i - 1);
    assert x * Pow256(width - i) == 256 * x * p;
    assert (256 * x + bs[i]) * p == 256 * x * p + bs[i] * p;
  }

  /** `readPrefixCode` on bytes; the caller vouches for `maxLength` bytes. */
  method ReadPrefixCodeOfBytes(tr: Trie, bs: Octets, maxLength: nat) returns (r: Option<Code>)
    requires |tr.boundary| <= tr.width && Min(maxLength, |tr.boundary|) <= |bs|
    ensures r == ReadFrom(tr, bs, 0, Min(maxLength, |tr.boundary|))
  {
    hide Pow256, BigEndian;
    var limit := if maxLength > |tr.boundary| then |tr.boundary| else maxLength;
    var id: nat := 0;
    var i := 0;
    assert High(BigEndian(bs[..0]), 0, tr.width) == 0 by {
      NoOctets(bs, tr.width);
    }
    while i < limit
      invariant 0 <= i <= limit && id == High(BigEndian(bs[..i]), i, tr.width)
      invariant ReadFrom(tr, bs, i, limit) == ReadFrom(tr, bs, 0, limit)
    {
      NextOctet(bs, i, tr.width);
      id := id + bs[i] * Pow256(tr.width - i - 1);
      if id < tr.boundary[i] {
        return Some(Code(id, i + 1));
      }
      i := i + 1;
    }
    return None;
  }

  lemma {:induction false} NoOctets(bs: Octets, width: nat)
    ensures High(BigEndian(bs[..0]), 0, width) == 0
  {
    assert bs[..0] == [];
  }

  /** A decoded value and the length of its code. */
  datatype Decoding = Decoding(value: nat, len: nat)

  /** The number of levels that a length limit leaves. */
  function Levels(tr: Trie, maxLength: int): nat {
    if maxLength < 0 then 0 else Min(maxLength, |tr.boundary|)
  }

  /** `decodeVarUInt` on a word: subtracting after adding wraps around and back. */
  method DecodeVarUInt(tr: Trie, word: nat, maxLength: int) returns (r: Option<Decoding>)
    requires Tables(tr)
    ensures var levels := Levels(tr, maxLength);
            r.Some? <==> levels > 0 && word < tr.boundary[levels - 1]
    ensures maxLength <= 0 ==> r.None?
    ensures r.Some? ==>
              && var c := ReadWord(tr, word, Levels(tr, maxLength));
              && c.Some? && IsCode(tr, c.value) && c.value.len == r.value.len
              && r.value.value == Decoded(tr, c.value)
  {
    var levels := Levels(tr, maxLength);
    var c := ReadPrefixCodeOfWord(tr, word, levels);
    ReadWordIsCode(tr, word, levels);
    if c.None? {
      return None;
    }
    hide *;
    DecodedFits(tr, c.value);
    return Some(Decoding(WrappedValue(tr, c.value), c.value.len));
  }

  ghost predicate StartsWith(tr: Trie, bs: Octets, c: Code) {
    IsCode(tr, c) && c.len <= |bs| && bs[..c.len] == CodeBytes(tr, c)
  }

  /** The reader of bytes returns exactly the code that the bytes start with. */
  lemma {:induction false} ReadsExactly(tr: Trie, bs: Octets, c: Code)
    requires Tables(tr) && AreOctets(bs)
    ensures ReadBytes(tr, bs) == Some(c) <==> StartsWith(tr, bs, c)
  {
    if StartsWith(tr, bs, c) {
      ReadsCode(tr, bs, c);
    }
    if ReadBytes(tr, bs) == Some(c) {
      ReadIsCode(tr, bs);
    }
  }

  /** `decodeVarUInt` on bytes; the caller vouches for as many bytes as may be read. It succeeds exactly when a code is
      spelt within the limit, and then returns the value with this code. */
  method DecodeVarUIntOfBytes(tr: Trie, bs: Octets, maxLength: int) returns (r: Option<Decoding>)
    requires Tables(tr) && AreOctets(bs) && Levels(tr, maxLength) <= |bs|
    ensures r.None? <==> forall c :: !StartsWith(tr, bs[..Levels(tr, maxLength)], c)
    ensures maxLength <= 0 ==> r.None?
    ensures r.Some? ==>
              && var c := Encoded(tr, r.value.value);
              && StartsWith(tr, bs[..Levels(tr, maxLength)], c) && c.len == r.value.len
  {
    var levels := Levels(tr, maxLength);
    var c := ReadPrefixCodeOfBytes(tr, bs, levels);
    ghost var front := bs[..levels];
    ReadFromPrefix(tr, bs, front, 0, levels);
    forall d
      ensures ReadBytes(tr, front) == Some(d) <==> StartsWith(tr, front, d)
    {
      ReadsExactly(tr, front, d);
    }
    assert c == ReadBytes(tr, front);
    if c.None? {
      return None;
    }
    assert StartsWith(tr, front, c.value);
    hide *;
    StartsWithCode(tr, front, c.value);
    DecodedFits(tr, c.value);
    DecodeEncode(tr, c.value);
    return Some(Decoding(WrappedValue(tr, c.value), c.value.len));
  }

  lemma {:induction false} StartsWithCode(tr: Trie, bs: Octets, c: Code)
    requires StartsWith(tr, bs, c)
    ensures IsCode(tr, c)
  {
  }

  /** `decodeVarUInt` on a pointer that moves past the code; without an end, the caller vouches for the height. The
      pointer stays where it is when there is no code. */
  method DecodeVarUIntAt(tr: Trie, bs: Octets, reader: nat, end: Option<int>) returns (r: Option<nat>, next: nat)
    requires Tables(tr) && AreOctets(bs)
    requires reader <= |bs| && if end.Some? then end.value <= |bs| else reader + |tr.boundary| <= |bs|
    ensures reader <= next <= |bs| && (end.Some? && end.value <= reader ==> r.None?)
    ensures var readable := bs[reader..][..Levels(tr, if end.Some? then end.value - reader else |tr.boundary|)];
            && (r.None? ==> next == reader && forall c :: !StartsWith(tr, readable, c))
            && (r.Some? ==>
                  && StartsWith(tr, readable, Encoded(tr, r.value))
                  && bs[reader..next] == CodeBytes(tr, Encoded(tr, r.value)))
  {
    hide Pow256, High, StartsWith, IsCode;
    var d := DecodeVarUIntOfBytes(tr, bs[reader..], if end.Some? then end.value - reader else |tr.boundary|);
    if d.None? {
      return None, reader;
    }
    next := reader + d.value.len;
    CodeInFront(tr, bs, reader, Levels(tr, if end.Some? then end.value - reader else |tr.boundary|),
        Encoded(tr, d.value.value));
    return Some(d.value.value), next;
  }

  lemma {:induction false} CodeInFront(tr: Trie, bs: Octets, reader: nat, levels: nat, c: Code)
    requires reader + levels <= |bs| && StartsWith(tr, bs[reader..][..levels], c)
    ensures reader + c.len <= |bs| && c.len <= tr.width && bs[reader..reader + c.len] == CodeBytes(tr, c)
  {
    assert bs[reader..][..levels][..c.len] == bs[reader..reader + c.len];
  }

  /** The value of a code in wrap-around arithmetic. */
  function WrappedValue(tr: Trie, c: Code): nat
    requires 1 <= c.len <= |tr.trie| == |tr.sum| && c.len <= tr.width
  {
    Wrap(Wrap(tr.sum[c.len - 1] + c.word / Pow256(tr.width - c.len), tr.width) - tr.trie[c.len - 1], tr.width)
  }

  lemma {:induction false} ReadWordIsCode(tr: Trie, word: nat, levels: nat)
    requires Tables(tr) && levels <= |tr.boundary|
    ensures var r := ReadWord(tr, word, levels);
            (r.Some? <==> levels > 0 && word < tr.boundary[levels - 1]) && (r.Some? ==> IsCode(tr, r.value))
  {
    hide Pow256, High;
    var i := First(tr.boundary, word);
    if i < levels {
      BoundariesAscend(tr, i, levels - 1);
      CutBelow(tr, word, i);
      var c := Code(Cut(word, i + 1, tr.width), i + 1);
      QuotientNonNegative(word, Pow256(tr.width - (i + 1)));
      assert c.word == High(word / Pow256(tr.width - (i + 1)), c.len, tr.width);
      if i > 0 {
        CutAbove(tr, word, i);
      }
    }
  }

  /** Cutting a word does not take it below a boundary of fewer bytes. */
  lemma {:induction false} CutAbove(tr: Trie, word: nat, i: nat)
    requires Tables(tr) && 1 <= i < |tr.boundary| && tr.boundary[i - 1] <= word
    ensures tr.boundary[i - 1] <= Cut(word, i + 1, tr.width)
  {
    var x, p := tr.trie[i - 1], Pow256(tr.width - (i + 1));
    assert tr.boundary[i - 1] == x * Pow256(tr.width - i) == High(256 * x, i + 1, tr.width) by {
      assert Pow256(tr.width - i) == 256 * p;
    }
    QuotientNonNegative(word, p);
    BelowBoundary(256 * x, word, i + 1, tr.width);
    HighBelow(word / p, 256 * x, i + 1, tr.width);
  }

  lemma {:induction false} DecodedFits(tr: Trie, c: Code)
    requires Tables(tr) && IsCode(tr, c)
    ensures 1 <= c.len <= |tr.trie| == |tr.sum| && c.len <= tr.width
    ensures WrappedValue(tr, c) == Decoded(tr, c)
  {
    hide Pow256, High, Total;
    DecodeEncode(tr, c);
    var n := |tr.sum| - 1;
    SumsAscend(tr, n, n);
    PowMono(n + 1, tr.width);
    var bound: int := tr.trie[c.len - 1];
    WrapTwice(tr.sum[c.len - 1] + c.word / Pow256(tr.width - c.len), -bound, tr.width);
    Fits(Decoded(tr, c), tr.width);
  }

  /** `writeBigEndian` */
  method WriteBigEndian(dest: array<nat>, value: nat, n: nat, width: nat)
    requires n <= width && n <= dest.Length
    modifies dest
    ensures dest[..] == Written(value, n, width) + old(dest[n..])
  {
    hide Pow256;
    for i := 0 to n
      invariant forall k :: 0 <= k < dest.Length ==> dest[k] == if k < i then Written(value, n, width)[k]
                else old(dest[k])
    {
      dest[i] := value / Pow256(width - i - 1) % 256;
    }
  }
}
