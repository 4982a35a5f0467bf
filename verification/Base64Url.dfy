/** base64url without padding (section 5 of RFC 4648, padding omitted as section 3.2 allows), as in
    src/util/base64url.cpp:62-302. Bytes and characters are numbers below 256. */
module Base64Url {
  import opened Arithmetic
  import opened Bytes

  /** `base64urlEncTable`: the letters, the digits, '-' and '_'. */
  function EncTable(x: nat): (c: nat)
    requires x < 64
    ensures c < 128
  {
    if x < 26 then 65 + x
    else if x < 52 then 97 + (x - 26)
    else if x < 62 then 48 + (x - 52)
    else if x == 62 then 45
    else 95
  }

  /** `base64urlDecTable`, 255 for every other character. */
  function DecTable(c: nat): (x: nat)
    ensures x < 64 || x == 255
  {
    if 65 <= c <= 90 then c - 65 else if 97 <= c <= 122 then c - 97 + 26 else if 48 <= c <= 57 then c - 48 + 52
    else if c == 45 then 62 else if c == 95 then 63 else 255
  }

  lemma {:induction false} TablesInvert(x: nat, c: nat)
    ensures x < 64 ==> DecTable(EncTable(x)) == x
    ensures DecTable(c) < 64 ==> EncTable(DecTable(c)) == c
  {
  }

  // ---------- three bytes and four sextets ----------

  function Sextet0(a: nat): nat {
    a / 4
  }

  function Sextet1(a: nat, b: nat): nat {
    a % 4 * 16 + b / 16
  }

  function Sextet2(b: nat, c: nat): nat {
    b % 16 * 4 + c / 64
  }

  function Sextet3(c: nat): nat {
    c % 64
  }

  function Byte0(w: nat, x: nat): nat {
    w * 4 + x / 16
  }

  function Byte1(x: nat, y: nat): nat {
    x % 16 * 16 + y / 4
  }

  function Byte2(y: nat, z: nat): nat {
    y % 4 * 64 + z
  }

  /** Cutting three bytes into sextets and putting them together again. */
  lemma {:induction false} Joins(a: nat, b: nat, c: nat)
    requires a < 256 && b < 256 && c < 256
    ensures Byte0(Sextet0(a), Sextet1(a, b)) == a
    ensures Byte1(Sextet1(a, b), Sextet2(b, c)) == b
    ensures Byte2(Sextet2(b, c), Sextet3(c)) == c
  {
  }

  // ---------- encoding ----------

  function EncodedLen(n: nat): nat {
    4 * (n / 3) + (if n % 3 == 0 then 0 else n % 3 + 1)
  }

  /** Byte k of the input, or zero behind its end. */
  function ByteAt(s: Octets, k: nat): nat {
    if k < |s| then s[k] else 0
  }

  /** The i-th group of six bits of the input, which is continued with zero bits. */
  function Sextet(s: Octets, i: nat): (x: nat)
    requires AreOctets(s)
    ensures x < 64
  {
    var q, r := i / 4 * 3, i % 4;
    if r == 0 then Sextet0(ByteAt(s, q))
    else if r == 1 then Sextet1(ByteAt(s, q), ByteAt(s, q + 1))
    else if r == 2 then Sextet2(ByteAt(s, q + 1), ByteAt(s, q + 2))
    else Sextet3(ByteAt(s, q + 2))
  }

  function Encoded(s: Octets): (t: Octets)
    requires AreOctets(s)
    ensures |t| == EncodedLen(|s|) && AreOctets(t) && forall i :: 0 <= i < |t| ==> t[i] == EncTable(Sextet(s, i))
  {
    seq(EncodedLen(|s|), i requires 0 <= i < EncodedLen(|s|) => EncTable(Sextet(s, i)))
  }

  function Ascii(text: string): (bs: Octets)
    ensures |bs| == |text| && forall k :: 0 <= k < |text| ==> bs[k] == text[k] as nat
  {
    seq(|text|, k requires 0 <= k < |text| => text[k] as nat)
  }

  /** The alphabet: upper-case letters, lower-case letters, digits, '-' and '_', and nothing else. */
  lemma {:induction false} Alphabet(x: nat, c: nat)
    ensures x < 26 ==> EncTable(x) == 'A' as nat + x
    ensures 26 <= x < 52 ==> EncTable(x) == 'a' as nat + (x - 26)
    ensures 52 <= x < 62 ==> EncTable(x) == '0' as nat + (x - 52)
    ensures EncTable(62) == '-' as nat && EncTable(63) == '_' as nat
    ensures DecTable(c) == 255 <==>
            !('A' as nat <= c <= 'Z' as nat) && !('a' as nat <= c <= 'z' as nat) && !('0' as nat <= c <= '9' as nat) &&
            c != '-' as nat && c != '_' as nat
  {
  }

  /** Four sextets are the 24 bits of three bytes, most significant first. */
  lemma {:induction false} SameBits(a: nat, b: nat, c: nat)
    ensures Sextet0(a) * 262144 + Sextet1(a, b) * 4096 + Sextet2(b, c) * 64 + Sextet3(c) == a * 65536 + b * 256 + c
  {
  }

  lemma {:induction false} OneByte()
    ensures AreOctets(Ascii("f")) && Encoded(Ascii("f")) == Ascii("Zg")
  {
    assert |Encoded(Ascii("f"))| == 2;
  }

  lemma {:induction false} TwoBytes()
    ensures AreOctets(Ascii("fo")) && Encoded(Ascii("fo")) == Ascii("Zm8")
  {
    assert |Encoded(Ascii("fo"))| == 3;
  }

  lemma {:induction false} ThreeBytes()
    ensures AreOctets(Ascii("foo")) && Encoded(Ascii("foo")) == Ascii("Zm9v")
  {
    assert |Encoded(Ascii("foo"))| == 4;
  }

  lemma {:induction false} WithMinus()
    ensures AreOctets([0xF8]) && Encoded([0xF8]) == Ascii("-A")
  {
    assert |Encoded([0xF8])| == 2;
  }

  lemma {:induction false} WithUnderscore()
    ensures AreOctets([0xFC]) && Encoded([0xFC]) == Ascii("_A")
  {
    assert |Encoded([0xFC])| == 2;
  }

  /** Some encodings, the first three from section 10 of RFC 4648. */
  lemma {:induction false} Examples()
    ensures AreOctets(Ascii("f")) && Encoded(Ascii("f")) == Ascii("Zg")
    ensures AreOctets(Ascii("fo")) && Encoded(Ascii("fo")) == Ascii("Zm8")
    ensures AreOctets(Ascii("foo")) && Encoded(Ascii("foo")) == Ascii("Zm9v")
    ensures AreOctets([0xF8]) && Encoded([0xF8]) == Ascii("-A")
    ensures AreOctets([0xFC]) && Encoded([0xFC]) == Ascii("_A")
  {
    OneByte();
    TwoBytes();
    ThreeBytes();
    WithMinus();
    WithUnderscore();
    hide *;
  }

  /** `base64urlEncode`: the last quantum first, then the whole blocks from the back, and a terminating zero. */
  method Encode(input: Octets, output: array<nat>) returns (outputLen: nat)
    requires AreOctets(input) && output.Length > EncodedLen(|input|)
    modifies output
    ensures outputLen == EncodedLen(|input|)
    ensures output[..outputLen] == Encoded(input) && output[outputLen] == 0
    ensures output[outputLen + 1..] == old(output[outputLen + 1..])
  {
    hide Sextet, EncTable;
    var n := |input| / 3;
    outputLen := EncodedLen(|input|);
    ghost var goal := Encoded(input);
    ghost var before := output[..];
    Characters(input, n);
    if |input| == n * 3 + 1 {
      var a, b := input[n * 3] / 4, input[n * 3] % 4 * 16;
      output[n * 4], output[n * 4 + 1], output[n * 4 + 2] := EncTable(a), EncTable(b), 0;
    } else if |input| == n * 3 + 2 {
      var a, b := input[n * 3] / 4, input[n * 3] % 4 * 16 + input[n * 3 + 1] / 16;
      var c := input[n * 3 + 1] % 16 * 4;
      output[n * 4], output[n * 4 + 1], output[n * 4 + 2], output[n * 4 + 3] :=
        EncTable(a), EncTable(b), EncTable(c), 0;
    } else {
      output[n * 4] := 0;
    }
    EncodeBlocks(input, output, n, outputLen, goal);
  }

  /** The whole blocks, from the back. */
  method EncodeBlocks(input: Octets, output: array<nat>, blocks: nat, ghost len: nat, ghost goal: Octets)
    requires AreOctets(input) && blocks * 3 <= |input| && blocks * 4 <= len == |goal| < output.Length
    requires goal == Encoded(input)
    requires forall k :: blocks * 4 <= k < len ==> output[k] == goal[k]
    modifies output
    ensures forall k :: 0 <= k < len ==> output[k] == goal[k]
    ensures forall k :: len <= k < output.Length ==> output[k] == old(output[k])
  {
    hide Sextet, EncTable, Encoded, EncodedLen;
    var n := blocks;
    while n > 0
      invariant 0 <= n <= blocks
      invariant forall k :: n * 4 <= k < len ==> output[k] == goal[k]
      invariant forall k :: len <= k < output.Length ==> output[k] == old(output[k])
    {
      n := n - 1;
      Characters(input, n);
      var a, b := input[n * 3] / 4, input[n * 3] % 4 * 16 + input[n * 3 + 1] / 16;
      var c, d := input[n * 3 + 1] % 16 * 4 + input[n * 3 + 2] / 64, input[n * 3 + 2] % 64;
      output[n * 4], output[n * 4 + 1], output[n * 4 + 2], output[n * 4 + 3] :=
        EncTable(a), EncTable(b), EncTable(c), EncTable(d);
    }
  }

  /** The characters of block n, as far as the encoding reaches. */
  lemma {:induction false} Characters(s: Octets, n: nat)
    requires AreOctets(s)
    ensures var t, a, b, c := Encoded(s), ByteAt(s, n * 3), ByteAt(s, n * 3 + 1), ByteAt(s, n * 3 + 2);
            && (n * 4 < |t| ==> t[n * 4] == EncTable(Sextet0(a)))
            && (n * 4 + 1 < |t| ==> t[n * 4 + 1] == EncTable(Sextet1(a, b)))
            && (n * 4 + 2 < |t| ==> t[n * 4 + 2] == EncTable(Sextet2(b, c)))
            && (n * 4 + 3 < |t| ==> t[n * 4 + 3] == EncTable(Sextet3(c)))
  {
    hide Sextet, EncTable, EncodedLen;
    Quantum(s, n);
  }

  /** The sextets of block n. */
  lemma {:induction false} Quantum(s: Octets, n: nat)
    requires AreOctets(s)
    ensures Sextet(s, n * 4) == Sextet0(ByteAt(s, n * 3))
    ensures Sextet(s, n * 4 + 1) == Sextet1(ByteAt(s, n * 3), ByteAt(s, n * 3 + 1))
    ensures Sextet(s, n * 4 + 2) == Sextet2(ByteAt(s, n * 3 + 1), ByteAt(s, n * 3 + 2))
    ensures Sextet(s, n * 4 + 3) == Sextet3(ByteAt(s, n * 3 + 2))
  {
    hide Sextet0, Sextet1, Sextet2, Sextet3;
  }

  // ---------- decoding ----------

  /** `base64DecodeLen` */
  function DecodeLen(n: nat): nat {
    var r := n % 4;
    if r == 1 then 0 else 3 * (n / 4) + 3 * r / 4
  }

  /** Every character is in the alphabet. */
  predicate Alphabetic(t: Octets) {
    forall i :: 0 <= i < |t| ==> DecTable(t[i]) < 64
  }

  /** Sextet i of the text, or zero behind its end. */
  function Digit(t: Octets, i: nat): nat {
    if i < |t| then DecTable(t[i]) else 0
  }

  /** Byte j of the bits that the text spells. */
  function DecodedByte(t: Octets, j: nat): nat {
    var q, r := j / 3 * 4, j % 3;
    if r == 0 then Byte0(Digit(t, q), Digit(t, q + 1))
    else if r == 1 then Byte1(Digit(t, q + 1), Digit(t, q + 2))
    else Byte2(Digit(t, q + 2), Digit(t, q + 3))
  }

  function Decoded(t: Octets): (s: Octets)
    ensures |s| == DecodeLen(|t|) && forall j :: 0 <= j < |s| ==> s[j] == DecodedByte(t, j)
  {
    seq(DecodeLen(|t|), j requires 0 <= j < DecodeLen(|t|) => DecodedByte(t, j))
  }

  lemma {:induction false} Lengths(n: nat)
    ensures DecodeLen(EncodedLen(n)) == n && EncodedLen(n) % 4 != 1
  {
    var q, r := n / 3, n % 3;
    assert n == 3 * q + r;
    if r == 0 {
      assert EncodedLen(n) == 4 * q;
    } else {
      assert EncodedLen(n) == 4 * q + (r + 1);
    }
  }

  /** Decoding the encoding of any byte string returns it. */
  lemma {:induction false} RoundTrip(s: Octets)
    requires AreOctets(s)
    ensures Alphabetic(Encoded(s)) && Decoded(Encoded(s)) == s
  {
    var t := Encoded(s);
    Lengths(|s|);
    EncodedSpells(s);
    hide Spells, Sextet, DecodedByte, Digit, EncodedLen, DecodeLen;
    forall j | 0 <= j < |s|
      ensures DecodedByte(t, j) == s[j]
    {
      ByteReturnsAt(s, t, j);
    }
  }

  lemma {:induction false} ByteReturnsAt(s: Octets, t: Octets, j: nat)
    requires AreOctets(s) && Spells(t, s) && j < |s|
    ensures DecodedByte(t, j) == s[j]
  {
    hide Spells, DecodedByte;
    var n, r := j / 3, j % 3;
    assert j == n * 3 + r;
    ByteReturns(s, t, n, r);
  }

  lemma {:induction false} EncodedSpells(s: Octets)
    requires AreOctets(s)
    ensures Alphabetic(Encoded(s)) && Spells(Encoded(s), s)
  {
    hide Sextet, EncTable, DecTable;
    var t := Encoded(s);
    forall i | 0 <= i < |t|
      ensures DecTable(t[i]) < 64 && Digit(t, i) == Sextet(s, i)
    {
      TablesInvert(Sextet(s, i), 0);
    }
  }

  lemma {:induction false} BytesOf(t: Octets, n: nat)
    ensures DecodedByte(t, n * 3) == Byte0(Digit(t, n * 4), Digit(t, n * 4 + 1))
    ensures DecodedByte(t, n * 3 + 1) == Byte1(Digit(t, n * 4 + 1), Digit(t, n * 4 + 2))
    ensures DecodedByte(t, n * 3 + 2) == Byte2(Digit(t, n * 4 + 2), Digit(t, n * 4 + 3))
  {
    hide Byte0, Byte1, Byte2, Digit;
  }

  lemma {:induction false} EncodedReaches(len: nat, n: nat, r: nat)
    requires r < 3 && n * 3 + r < len
    ensures n * 4 + r + 1 < EncodedLen(len)
  {
  }

  /** A block whose sextets came from three bytes decodes to these bytes. */
  lemma {:induction false} BlockReturns(t: Octets, n: nat, a: nat, b: nat, c: nat)
    requires a < 256 && b < 256 && c < 256 && n * 4 + 1 < |t|
    requires Digit(t, n * 4) == Sextet0(a) && Digit(t, n * 4 + 1) == Sextet1(a, b)
    ensures DecodedByte(t, n * 3) == a
    ensures Digit(t, n * 4 + 2) == Sextet2(b, c) ==> DecodedByte(t, n * 3 + 1) == b
    ensures Digit(t, n * 4 + 2) == Sextet2(b, c) && Digit(t, n * 4 + 3) == Sextet3(c) ==> DecodedByte(t, n * 3 + 2) == c
  {
    hide DecodedByte, Digit, Sextet0, Sextet1, Sextet2, Sextet3, Byte0, Byte1, Byte2;
    BytesOf(t, n);
    Joins(a, b, c);
  }

  /** The text spells the sextets of the bytes. */
  ghost predicate Spells(t: Octets, s: Octets)
    requires AreOctets(s)
  {
    |t| == EncodedLen(|s|) && forall i :: 0 <= i < |t| ==> Digit(t, i) == Sextet(s, i)
  }

  lemma {:induction false} SpellsBlock(s: Octets, t: Octets, n: nat, r: nat)
    requires AreOctets(s) && Spells(t, s) && r < 3 && n * 3 + r < |s|
    ensures n * 4 + r + 1 < |t|
    ensures Digit(t, n * 4) == Sextet(s, n * 4) && Digit(t, n * 4 + 1) == Sextet(s, n * 4 + 1)
    ensures r > 0 ==> Digit(t, n * 4 + 2) == Sextet(s, n * 4 + 2)
    ensures r > 1 ==> Digit(t, n * 4 + 3) == Sextet(s, n * 4 + 3)
  {
    EncodedReaches(|s|, n, r);
    hide Sextet, Digit, EncodedLen;
  }

  lemma {:induction false} ByteReturns(s: Octets, t: Octets, n: nat, r: nat)
    requires AreOctets(s) && Spells(t, s) && r < 3 && n * 3 + r < |s|
    ensures DecodedByte(t, n * 3 + r) == s[n * 3 + r]
  {
    hide Spells, Sextet, DecodedByte, Digit, EncodedLen, Sextet0, Sextet1, Sextet2, Sextet3;
    SpellsBlock(s, t, n, r);
    Quantum(s, n);
    BlockReturns(t, n, ByteAt(s, n * 3), ByteAt(s, n * 3 + 1), ByteAt(s, n * 3 + 2));
  }

  // ---------- the decoder ----------

  datatype DecodeError = NoError | InvalidLength | InvalidCharacter

  /** The sextets of the current block read so far, as one number. */
  function Partial(t: Octets, q: nat, r: nat): nat {
    if r == 0 then 0 else Partial(t, q, r - 1) * 64 + Digit(t, q * 4 + (r - 1))
  }

  /** Three bytes side by side in one number. */
  lemma {:induction false} Apart(a: nat, b: nat, c: nat)
    requires a < 256 && b < 256 && c < 256
    ensures var v := a * 65536 + b * 256 + c; v / 65536 % 256 == a && v / 256 % 256 == b && v % 256 == c
  {
    Unscale(a, b * 256 + c, 65536);
    Unscale(a * 256 + b, c, 256);
    Unscale(a, b, 256);
    Unscale(0, a, 256);
    assert (a * 256 + b) * 256 + c == a * 65536 + b * 256 + c;
  }

  /** Reading bytes off a full block and off the two kinds of last block. */
  lemma {:induction false} Reads(w: nat, x: nat, y: nat, z: nat)
    requires w < 64 && x < 64 && y < 64 && z < 64
    ensures var v := ((w * 64 + x) * 64 + y) * 64 + z;
            v / 65536 % 256 == Byte0(w, x) && v / 256 % 256 == Byte1(x, y) && v % 256 == Byte2(y, z)
  {
    var a, b, c := Byte0(w, x), Byte1(x, y), Byte2(y, z);
    assert x == x / 16 * 16 + x % 16 && y == y / 4 * 4 + y % 4;
    assert ((w * 64 + x) * 64 + y) * 64 + z == a * 65536 + b * 256 + c;
    Apart(a, b, c);
  }

  lemma {:induction false} ReadsLast(w: nat, x: nat, y: nat)
    requires w < 64 && x < 64 && y < 64
    ensures (w * 64 + x) / 16 % 256 == Byte0(w, x)
    ensures var v := (w * 64 + x) * 64 + y; v / 1024 % 256 == Byte0(w, x) && v / 4 % 256 == Byte1(x, y)
  {
    var a, b := Byte0(w, x), Byte1(x, y);
    assert x == x / 16 * 16 + x % 16 && y == y / 4 * 4 + y % 4;
    assert w * 64 + x == a * 16 + x % 16;
    assert (w * 64 + x) * 64 + y == a * 1024 + b * 4 + y % 4;
    ApartLast(a, b, x % 16, y % 4);
  }

  lemma {:induction false} ApartLast(a: nat, b: nat, e: nat, f: nat)
    requires a < 256 && b < 256 && e < 16 && f < 4
    ensures (a * 16 + e) / 16 % 256 == a
    ensures var v := a * 1024 + b * 4 + f; v / 1024 % 256 == a && v / 4 % 256 == b
  {
  }

  /** The four characters of block q are digits; behind the end of the text they count as zero. */
  predicate BlockDigits(t: Octets, q: nat) {
    Digit(t, q * 4) < 64 && Digit(t, q * 4 + 1) < 64 && Digit(t, q * 4 + 2) < 64 && Digit(t, q * 4 + 3) < 64
  }

  lemma {:induction false} DigitsUpTo(t: Octets, q: nat, i: nat)
    requires i <= |t| && (forall k :: 0 <= k < i ==> DecTable(t[k]) < 64) && (q * 4 + 4 <= i || i == |t|)
    ensures BlockDigits(t, q)
  {
  }

  lemma {:induction false} ReadsBlock(t: Octets, q: nat)
    requires BlockDigits(t, q)
    ensures var v := Partial(t, q, 4);
            && v / 65536 % 256 == DecodedByte(t, q * 3)
            && v / 256 % 256 == DecodedByte(t, q * 3 + 1)
            && v % 256 == DecodedByte(t, q * 3 + 2)
    ensures Partial(t, q, 2) / 16 % 256 == DecodedByte(t, q * 3)
    ensures Partial(t, q, 3) / 1024 % 256 == DecodedByte(t, q * 3) &&
            Partial(t, q, 3) / 4 % 256 == DecodedByte(t, q * 3 + 1)
  {
    hide DecodedByte, Digit, Byte0, Byte1, Byte2;
    var w, x, y, z := Digit(t, q * 4), Digit(t, q * 4 + 1), Digit(t, q * 4 + 2), Digit(t, q * 4 + 3);
    Reads(w, x, y, z);
    ReadsLast(w, x, y);
    BytesOf(t, q);
    assert Partial(t, q, 1) == w;
    assert Partial(t, q, 2) == w * 64 + x;
    assert Partial(t, q, 3) == (w * 64 + x) * 64 + y;
  }

  /** What the decoder has written when it has read q whole blocks. */
  ghost predicate Written(t: Octets, output: seq<nat>, before: seq<nat>, n: nat) {
    && |output| == |before| >= n
    && (forall j :: 0 <= j < n ==> output[j] == DecodedByte(t, j))
    && (forall j :: n <= j < |output| ==> output[j] == before[j])
  }

  lemma {:induction false} WrittenMore(t: Octets, output: seq<nat>, before: seq<nat>, n: nat, more: seq<nat>)
    requires Written(t, output, before, n) && n + |more| <= |output|
    requires forall k :: 0 <= k < |more| ==> more[k] == DecodedByte(t, n + k)
    ensures Written(t, output[..n] + more + output[n + |more|..], before, n + |more|)
  {
    hide DecodedByte;
    var next := output[..n] + more + output[n + |more|..];
    forall j | 0 <= j < n + |more|
      ensures next[j] == DecodedByte(t, j)
    {
      if j >= n {
        assert next[j] == more[j - n];
      }
    }
  }

  /** One full block. */
  method WriteBlock(ghost t: Octets, ghost before: seq<nat>, output: array<nat>, n: nat, value: nat, ghost q: nat)
    requires n == q * 3 && n + 3 <= output.Length && value == Partial(t, q, 4) && Written(t, output[..], before, n)
    requires BlockDigits(t, q)
    modifies output
    ensures Written(t, output[..], before, n + 3)
  {
    hide DecodedByte, Digit, Partial, Written;
    ghost var s := output[..];
    ReadsBlock(t, q);
    ghost var more := [value / 65536 % 256, value / 256 % 256, value % 256];
    WrittenMore(t, s, before, n, more);
    output[n], output[n + 1], output[n + 2] := value / 65536 % 256, value / 256 % 256, value % 256;
    assert output[..] == s[..n] + more + s[n + 3..];
  }

  /** `base64urlDecodeImpl`: refuses exactly the impossible lengths and the texts with other characters, and otherwise
      writes exactly the reported number of bytes. */
  method Decode(input: Octets, output: array<nat>) returns (error: DecodeError, outputLen: nat)
    requires output.Length >= DecodeLen(|input|)
    modifies output
    ensures error == InvalidLength <==> |input| % 4 == 1
    ensures error == InvalidCharacter <==> |input| % 4 != 1 && !Alphabetic(input)
    ensures error == NoError ==> outputLen == DecodeLen(|input|)
    ensures error == NoError ==>
              output[..outputLen] == Decoded(input) && output[outputLen..] == old(output[outputLen..])
  {
    if |input| % 4 == 1 {
      return InvalidLength, 0;
    }
    ghost var before := output[..];
    var valid, n, value := ReadBlocks(input, output, before);
    outputLen := n;
    if !valid {
      return InvalidCharacter, outputLen;
    }
    if |input| % 4 == 2 {
      WriteLast(input, before, output, n, [value / 16 % 256], |input| / 4, 2);
      outputLen := outputLen + 1;
    } else if |input| % 4 == 3 {
      WriteLast(input, before, output, n, [value / 1024 % 256, value / 4 % 256], |input| / 4, 3);
      outputLen := outputLen + 2;
    }
    error := NoError;
    WrittenIsDecoded(input, output[..], before, outputLen);
  }

  lemma {:induction false} WrittenIsDecoded(t: Octets, output: seq<nat>, before: seq<nat>, n: nat)
    requires Written(t, output, before, n) && n == DecodeLen(|t|)
    ensures output[..n] == Decoded(t) && output[n..] == before[n..]
  {
    hide DecodedByte;
  }

  /** The bytes of a last block that is not full. */
  method WriteLast(t: Octets, ghost before: seq<nat>, output: array<nat>, n: nat, bytes: seq<nat>, ghost q: nat,
                   ghost r: nat)
    requires n == q * 3 && 2 <= r <= 3 && |t| == q * 4 + r && n + |bytes| <= output.Length && Alphabetic(t)
    requires Written(t, output[..], before, n)
    requires bytes == if r == 2 then [Partial(t, q, 2) / 16 % 256]
             else [Partial(t, q, 3) / 1024 % 256, Partial(t, q, 3) / 4 % 256]
    modifies output
    ensures Written(t, output[..], before, n + |bytes|)
  {
    LastIsDecoded(t, output[..], before, n, bytes, q, r);
    hide *;
    CopyBytes(output, n, bytes);
  }

  lemma {:induction false} LastIsDecoded(t: Octets, s: seq<nat>, before: seq<nat>, n: nat, bytes: seq<nat>, q: nat,
                                         r: nat)
    requires n == q * 3 && 2 <= r <= 3 && |t| == q * 4 + r && n + |bytes| <= |s| && Alphabetic(t)
    requires Written(t, s, before, n)
    requires bytes == if r == 2 then [Partial(t, q, 2) / 16 % 256]
             else [Partial(t, q, 3) / 1024 % 256, Partial(t, q, 3) / 4 % 256]
    ensures Written(t, s[..n] + bytes + s[n + |bytes|..], before, n + |bytes|)
  {
    DigitsUpTo(t, q, |t|);
    hide DecodedByte, Digit, Partial, Written, Alphabetic, BlockDigits;
    ReadsBlock(t, q);
    assert bytes[0] == DecodedByte(t, n);
    assert |bytes| == 2 ==> bytes[1] == DecodedByte(t, n + 1);
    assert forall k :: 0 <= k < |bytes| ==> bytes[k] == DecodedByte(t, n + k);
    WrittenMore(t, s, before, n, bytes);
  }

  method CopyBytes(output: array<nat>, n: nat, bytes: seq<nat>)
    requires 1 <= |bytes| <= 2 && n + |bytes| <= output.Length
    modifies output
    ensures output[..] == old(output[..n]) + bytes + old(output[n + |bytes|..])
  {
    output[n] := bytes[0];
    if |bytes| == 2 {
      output[n + 1] := bytes[1];
    }
  }

  /** The loop of the decoder. */
  method ReadBlocks(input: Octets, output: array<nat>, ghost before: seq<nat>) returns (valid: bool, n: nat, value: nat)
    requires output.Length >= DecodeLen(|input|) && |input| % 4 != 1 && output[..] == before
    modifies output
    ensures valid <==> Alphabetic(input)
    ensures valid ==>
              && n == |input| / 4 * 3 && value == Partial(input, |input| / 4, |input| % 4)
              && Written(input, output[..], before, n)
  {
    NothingWritten(input, before);
    hide DecodedByte, Written, Partial, Digit;
    n, value := 0, 0;
    var i := 0;
    ghost var q, r := 0, 0;
    PartialStart(input, q);
    while i < |input|
      invariant 0 <= i <= |input| && i == q * 4 + r && 0 <= r < 4 && n == q * 3
      invariant value == Partial(input, q, r)
      invariant forall k :: 0 <= k < i ==> DecTable(input[k]) < 64
      invariant Written(input, output[..], before, n)
    {
      var c := input[i];
      if c < 128 && DecTable(c) < 64 {
        PartialStep(input, q, r);
        value := value * 64 + DecTable(c);
        if i % 4 == 3 {
          assert r == 3;
          BlockFits(|input|, q);
          DigitsUpTo(input, q, i + 1);
          WriteBlock(input, before, output, n, value, q);
          n, value := n + 3, 0;
          q, r := q + 1, 0;
          PartialStart(input, q);
        } else {
          r := r + 1;
        }
      } else {
        return false, n, value;
      }
      i := i + 1;
    }
    return true, n, value;
  }

  lemma {:induction false} PartialStart(t: Octets, q: nat)
    ensures Partial(t, q, 0) == 0
  {
  }

  lemma {:induction false} PartialStep(t: Octets, q: nat, r: nat)
    requires q * 4 + r < |t|
    ensures Partial(t, q, r + 1) == Partial(t, q, r) * 64 + DecTable(t[q * 4 + r])
  {
  }

  lemma {:induction false} NothingWritten(t: Octets, before: seq<nat>)
    ensures Written(t, before, before, 0)
  {
  }

  lemma {:induction false} BlockFits(len: nat, q: nat)
    requires q * 4 + 4 <= len && len % 4 != 1
    ensures q * 3 + 3 <= DecodeLen(len)
  {
  }

  // ---------- texts that are encodings ----------

  /** The bits of the last character that no byte needs are zero. */
  predicate Canonical(t: Octets) {
    && (|t| % 4 == 2 ==> Digit(t, |t| - 1) % 16 == 0)
    && (|t| % 4 == 3 ==> Digit(t, |t| - 1) % 4 == 0)
  }

  lemma {:induction false} Cuts(w: nat, x: nat, y: nat, z: nat)
    requires w < 64 && x < 64 && y < 64 && z < 64
    ensures Byte0(w, x) < 256 && Byte1(x, y) < 256 && Byte2(y, z) < 256
    ensures Sextet0(Byte0(w, x)) == w && Sextet1(Byte0(w, x), Byte1(x, y)) == x
    ensures Sextet2(Byte1(x, y), Byte2(y, z)) == y && Sextet3(Byte2(y, z)) == z
    ensures Sextet1(Byte0(w, x), 0) == x <==> x % 16 == 0
    ensures Sextet2(Byte1(x, y), 0) == y <==> y % 4 == 0
  {
  }

  lemma {:induction false} DecodedLengths(n: nat)
    requires n % 4 != 1
    ensures EncodedLen(DecodeLen(n)) == n
  {
    var q, r := n / 4, n % 4;
    assert n == q * 4 + r;
    if r == 0 {
      assert DecodeLen(n) == q * 3;
    } else {
      assert DecodeLen(n) == q * 3 + (r - 1);
    }
  }

  /** The sextets of block q of the decoded bytes, when m of its four characters are there. */
  lemma {:induction false} BlockSextets(t: Octets, q: nat, m: nat)
    requires Alphabetic(t) && |t| % 4 != 1 && 2 <= m <= 4 && q * 4 + m <= |t| && (m < 4 ==> |t| == q * 4 + m)
    ensures var s := Decoded(t);
            && AreOctets(s)
            && Sextet(s, q * 4) == Digit(t, q * 4)
            && (Sextet(s, q * 4 + 1) == Digit(t, q * 4 + 1) <==> m > 2 || Digit(t, q * 4 + 1) % 16 == 0)
            && (m > 2 ==> (Sextet(s, q * 4 + 2) == Digit(t, q * 4 + 2) <==> m > 3 || Digit(t, q * 4 + 2) % 4 == 0))
            && (m > 3 ==> Sextet(s, q * 4 + 3) == Digit(t, q * 4 + 3))
  {
    DecodedOctets(t);
    DigitsUpTo(t, q, |t|);
    var s := Decoded(t);
    DecodedReaches(|t|, q, m);
    hide DecodedByte, Digit, Sextet, Sextet0, Sextet1, Sextet2, Sextet3, Byte0, Byte1, Byte2;
    Quantum(s, q);
    BytesOf(t, q);
    Cuts(Digit(t, q * 4), Digit(t, q * 4 + 1), Digit(t, q * 4 + 2), Digit(t, q * 4 + 3));
  }

  lemma {:induction false} DecodedReaches(len: nat, q: nat, m: nat)
    requires len % 4 != 1 && 2 <= m <= 4 && q * 4 + m <= len && (m < 4 ==> len == q * 4 + m)
    ensures q * 3 + (m - 1) <= DecodeLen(len) && (m < 4 ==> DecodeLen(len) == q * 3 + (m - 1))
  {
  }

  lemma {:induction false} DecodedOctets(t: Octets)
    requires Alphabetic(t)
    ensures AreOctets(Decoded(t))
  {
    forall j | 0 <= j < |Decoded(t)|
      ensures DecodedByte(t, j) < 256
    {
      var q, r := j / 3, j % 3;
      assert j == q * 3 + r;
      DigitsUpTo(t, q, |t|);
      hide DecodedByte, Digit, Byte0, Byte1, Byte2;
      BytesOf(t, q);
      Cuts(Digit(t, q * 4), Digit(t, q * 4 + 1), Digit(t, q * 4 + 2), Digit(t, q * 4 + 3));
    }
  }

  /** One sextet comes back unless it is the last and has stray bits. */
  lemma {:induction false} SextetReturns(t: Octets, i: nat)
    requires Alphabetic(t) && |t| % 4 != 1 && i < |t| && AreOctets(Decoded(t))
    ensures Sextet(Decoded(t), i) == Digit(t, i) <==> i < |t| - 1 || Canonical(t)
  {
    hide Sextet, Decoded, Digit, Alphabetic;
    var q, r := i / 4, i % 4;
    assert i == q * 4 + r;
    var m := if |t| - q * 4 < 4 then |t| - q * 4 else 4;
    assert i < |t| - 1 || r == m - 1;
    BlockSextets(t, q, m);
  }

  lemma {:induction false} CharacterReturns(t: Octets, i: nat)
    requires Alphabetic(t) && |t| % 4 != 1 && i < |t| && AreOctets(Decoded(t))
    ensures EncTable(Sextet(Decoded(t), i)) == t[i] <==> i < |t| - 1 || Canonical(t)
  {
    hide Sextet, Decoded, EncTable, DecTable, Canonical;
    SextetReturns(t, i);
    TablesInvert(Sextet(Decoded(t), i), t[i]);
  }

  /** Decoding and encoding again returns exactly the texts without stray bits; the decoder accepts others, too. */
  lemma {:induction false} EncodingsAreCanonical(t: Octets)
    requires Alphabetic(t) && |t| % 4 != 1
    ensures AreOctets(Decoded(t)) && (Encoded(Decoded(t)) == t <==> Canonical(t))
  {
    DecodedOctets(t);
    DecodedLengths(|t|);
    var u := Encoded(Decoded(t));
    hide Decoded, Sextet, EncTable, Digit, EncodedLen, DecodeLen;
    forall i | 0 <= i < |t|
      ensures u[i] == t[i] <==> i < |t| - 1 || Canonical(t)
    {
      CharacterReturns(t, i);
    }
    if t == [] {
      NothingStray(t);
    } else {
      assert u[|t| - 1] == t[|t| - 1] <==> Canonical(t);
    }
  }

  lemma {:induction false} NothingStray(t: Octets)
    requires t == []
    ensures Canonical(t)
  {
  }
}
