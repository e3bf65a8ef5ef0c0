/** Unpadded standard Base64 (section 4 of RFC 4648), decoded strictly: unused bits
    must be zero. Like the library it models, the decoder skips CR and LF. */
module Base64 {
  import opened Options
  import opened Bytes

  const PAD: Byte := 61

  type Sextet = i: int | 0 <= i < 64

  function Char64(i: Sextet): Byte {
    if i < 26 then (65 + i) as Byte
    else if i < 52 then (71 + i) as Byte
    else if i < 62 then (i - 4) as Byte
    else if i == 62 then 43
    else 47
  }

  function Value64(c: Byte): Option<Sextet> {
    var n := c as int;
    if 65 <= n <= 90 then Some(n - 65)
    else if 97 <= n <= 122 then Some(n - 71)
    else if 48 <= n <= 57 then Some(n + 4)
    else if n == 43 then Some(62)
    else if n == 47 then Some(63)
    else None
  }

  lemma {:induction false} ValueOfChar(i: Sextet)
    ensures Value64(Char64(i)) == Some(i) && Char64(i) != 10 && Char64(i) != 13 && Char64(i) != PAD
  {
  }

  /** The alphabet of table 1 of RFC 4648: upper case, lower case, digits, plus and slash. */
  lemma {:induction false} AlphabetIs(i: Sextet)
    ensures i < 26 ==> Char64(i) as int == 'A' as int + i
    ensures 26 <= i < 52 ==> Char64(i) as int == 'a' as int + (i - 26)
    ensures 52 <= i < 62 ==> Char64(i) as int == '0' as int + (i - 52)
    ensures (i == 62 ==> Char64(i) as int == '+' as int) && (i == 63 ==> Char64(i) as int == '/' as int)
  {
  }

  // ----- one group of up to three bytes -----

  function First(a: Byte): Sextet { a as int / 4 }

  function Second(a: Byte, b: Byte): Sextet { a as int % 4 * 16 + b as int / 16 }

  function Third(b: Byte, c: Byte): Sextet { b as int % 16 * 4 + c as int / 64 }

  function Fourth(c: Byte): Sextet { c as int % 64 }

  function Byte1(s: Sextet, t: Sextet): Byte { (s * 4 + t / 16) as Byte }

  function Byte2(t: Sextet, u: Sextet): Byte { (t % 16 * 16 + u / 4) as Byte }

  function Byte3(u: Sextet, v: Sextet): Byte { (u % 4 * 64 + v) as Byte }

  lemma {:induction false} GroupBack(a: Byte, b: Byte, c: Byte)
    ensures Byte1(First(a), Second(a, b)) == a
    ensures Byte2(Second(a, b), Third(b, c)) == b
    ensures Byte3(Third(b, c), Fourth(c)) == c
  {
  }

  /** Four characters carry the 24 bits of three bytes, the most significant first. */
  lemma {:induction false} GroupIsBigEndian(a: Byte, b: Byte, c: Byte)
    ensures ((First(a) * 64 + Second(a, b)) * 64 + Third(b, c)) * 64 + Fourth(c) == (a as int * 256 + b as int) * 256 + c as int
  {
  }

  lemma {:induction false} LastSextet(q: nat, r: Sextet)
    ensures (q * 64 + r) / 64 == q && (q * 64 + r) % 64 == r
  {
  }

  lemma {:induction false} BitsOf(a: Byte, b: Byte, c: Byte, bits: int)
    requires bits == (a as int * 256 + b as int) * 256 + c as int
    ensures First(a) == bits / 64 / 64 / 64 && Second(a, b) == bits / 64 / 64 % 64
    ensures Third(b, c) == bits / 64 % 64 && Fourth(c) == bits % 64
  {
    GroupIsBigEndian(a, b, c);
    LastSextet(First(a), Second(a, b));
    LastSextet(First(a) * 64 + Second(a, b), Third(b, c));
    LastSextet((First(a) * 64 + Second(a, b)) * 64 + Third(b, c), Fourth(c));
  }

  function Bits(v: Data, k: nat): nat {
    if k < |v| then v[k] as int else 0
  }

  /** The first characters of an encoding: six bits each of the first three bytes, as many
      characters as these bytes need; then the encoding of the rest. */
  lemma {:induction false} WrittenInGroups(v: Data)
    requires v != []
    ensures var bits := (Bits(v, 0) * 256 + Bits(v, 1)) * 256 + Bits(v, 2);
      var group := [Char64(bits / 64 / 64 / 64), Char64(bits / 64 / 64 % 64), Char64(bits / 64 % 64), Char64(bits % 64)];
      Encode(v) == if |v| >= 3 then group + Encode(v[3..]) else group[..|v| + 1]
  {
    var a, b, c: Byte := v[0], if |v| >= 2 then v[1] else 0, if |v| >= 3 then v[2] else 0;
    BitsOf(a, b, c, (a as int * 256 + b as int) * 256 + c as int);
  }

  lemma {:induction false} OneBack(a: Byte, zero: Byte)
    requires zero == 0
    ensures Byte1(First(a), Second(a, zero)) == a && Second(a, zero) % 16 == 0
  {
  }

  lemma {:induction false} SpareBits(a: Byte, b: Byte)
    ensures Second(a, 0) % 16 == 0 && Third(b, 0) % 4 == 0
  {
  }

  // ----- whole strings -----

  function Encode(v: Data): Data
    decreases |v|
  {
    if |v| == 0 then []
    else if |v| == 1 then [Char64(First(v[0])), Char64(Second(v[0], 0))]
    else if |v| == 2 then [Char64(First(v[0])), Char64(Second(v[0], v[1])), Char64(Third(v[1], 0))]
    else [Char64(First(v[0])), Char64(Second(v[0], v[1])), Char64(Third(v[1], v[2])), Char64(Fourth(v[2]))] + Encode(v[3..])
  }

  function Values(s: Data): Option<seq<Sextet>>
    decreases |s|
  {
    if s == [] then Some([])
    else if s[0] == 10 || s[0] == 13 then Values(s[1..])
    else
      var head, tail := Value64(s[0]), Values(s[1..]);
      if head.None? || tail.None? then None else Some([head.value] + tail.value)
  }

  function Pack(s: seq<Sextet>): Option<Data>
    decreases |s|
  {
    if |s| == 0 then Some([])
    else if |s| == 1 then None
    else if |s| == 2 then if s[1] % 16 == 0 then Some([Byte1(s[0], s[1])]) else None
    else if |s| == 3 then if s[2] % 4 == 0 then Some([Byte1(s[0], s[1]), Byte2(s[1], s[2])]) else None
    else
      var rest := Pack(s[4..]);
      if rest.None? then None else Some([Byte1(s[0], s[1]), Byte2(s[1], s[2]), Byte3(s[2], s[3])] + rest.value)
  }

  function Decode(s: Data): Option<Data> {
    var values := Values(s);
    if values.None? then None else Pack(values.value)
  }

  function Sextets(v: Data): seq<Sextet>
    decreases |v|
  {
    if |v| == 0 then []
    else if |v| == 1 then [First(v[0]), Second(v[0], 0)]
    else if |v| == 2 then [First(v[0]), Second(v[0], v[1]), Third(v[1], 0)]
    else [First(v[0]), Second(v[0], v[1]), Third(v[1], v[2]), Fourth(v[2])] + Sextets(v[3..])
  }

  function Chars(s: seq<Sextet>): Data {
    if s == [] then [] else [Char64(s[0])] + Chars(s[1..])
  }

  lemma {:induction false} ValuesOfChars(s: seq<Sextet>)
    ensures Values(Chars(s)) == Some(s)
    ensures forall c :: c in Chars(s) ==> c != 10 && c != 13 && c != PAD
  {
    if s != [] {
      ValueOfChar(s[0]);
      ValuesOfChars(s[1..]);
      assert s == [s[0]] + s[1..];
      assert Chars(s)[1..] == Chars(s[1..]);
    }
  }

  lemma {:induction false} PackTwo(s: Sextet, t: Sextet)
    requires t % 16 == 0
    ensures Pack([s, t]) == Some([Byte1(s, t)])
  {
  }

  lemma {:induction false} PackThree(s: Sextet, t: Sextet, u: Sextet)
    requires u % 4 == 0
    ensures Pack([s, t, u]) == Some([Byte1(s, t), Byte2(t, u)])
  {
  }

  lemma {:induction false} PackFour(s: Sextet, t: Sextet, u: Sextet, v: Sextet, rest: seq<Sextet>, bytes: Data)
    requires Pack(rest) == Some(bytes)
    ensures Pack([s, t, u, v] + rest) == Some([Byte1(s, t), Byte2(t, u), Byte3(u, v)] + bytes)
  {
    assert ([s, t, u, v] + rest)[4..] == rest;
  }

  lemma {:induction false} PackOneByte(a: Byte)
    ensures Pack(Sextets([a])) == Some([a])
  {
    var zero: Byte := 0;
    OneBack(a, zero);
    PackTwo(First(a), Second(a, 0));
  }

  lemma {:induction false} PackTwoBytes(a: Byte, b: Byte)
    ensures Pack(Sextets([a, b])) == Some([a, b])
  {
    GroupBack(a, b, 0);
    SpareBits(a, b);
    PackThree(First(a), Second(a, b), Third(b, 0));
  }

  lemma {:induction false} PackGroup(a: Byte, b: Byte, c: Byte, tail: Data)
    requires Pack(Sextets(tail)) == Some(tail)
    ensures Pack(Sextets([a, b, c] + tail)) == Some([a, b, c] + tail)
  {
    GroupBack(a, b, c);
    PackFour(First(a), Second(a, b), Third(b, c), Fourth(c), Sextets(tail), tail);
    assert ([a, b, c] + tail)[3..] == tail;
  }

  lemma {:induction false} PackSextets(v: Data)
    ensures Pack(Sextets(v)) == Some(v)
    decreases |v|
  {
    if |v| == 1 {
      PackOneByte(v[0]);
      assert v == [v[0]];
    } else if |v| == 2 {
      PackTwoBytes(v[0], v[1]);
      assert v == [v[0], v[1]];
    } else if |v| >= 3 {
      PackSextets(v[3..]);
      PackGroup(v[0], v[1], v[2], v[3..]);
      assert v == [v[0], v[1], v[2]] + v[3..];
    }
  }

  lemma {:induction false} CharsConcat(s: seq<Sextet>, t: seq<Sextet>)
    ensures Chars(s + t) == Chars(s) + Chars(t)
  {
    if s == [] {
      assert s + t == t;
    } else {
      assert (s + t)[1..] == s[1..] + t;
      CharsConcat(s[1..], t);
    }
  }

  lemma {:induction false} CharsCons(a: Sextet, s: seq<Sextet>)
    ensures Chars([a] + s) == [Char64(a)] + Chars(s)
  {
    assert ([a] + s)[1..] == s;
  }

  lemma {:induction false} Chars2(a: Sextet, b: Sextet)
    ensures Chars([a, b]) == [Char64(a), Char64(b)]
  {
    CharsCons(b, []);
    CharsCons(a, [b]);
    assert [b] + [] == [b] && [a] + [b] == [a, b];
  }

  lemma {:induction false} Chars3(a: Sextet, b: Sextet, c: Sextet)
    ensures Chars([a, b, c]) == [Char64(a), Char64(b), Char64(c)]
  {
    Chars2(b, c);
    CharsCons(a, [b, c]);
    assert [a] + [b, c] == [a, b, c];
  }

  lemma {:induction false} Chars4(a: Sextet, b: Sextet, c: Sextet, d: Sextet)
    ensures Chars([a, b, c, d]) == [Char64(a), Char64(b), Char64(c), Char64(d)]
  {
    Chars3(b, c, d);
    CharsCons(a, [b, c, d]);
    assert [a] + [b, c, d] == [a, b, c, d];
  }

  lemma {:induction false} EncodeIsChars(v: Data)
    ensures Encode(v) == Chars(Sextets(v))
    decreases |v|
  {
    if |v| == 1 {
      Chars2(First(v[0]), Second(v[0], 0));
    } else if |v| == 2 {
      Chars3(First(v[0]), Second(v[0], v[1]), Third(v[1], 0));
    } else if |v| >= 3 {
      var group := [First(v[0]), Second(v[0], v[1]), Third(v[1], v[2]), Fourth(v[2])];
      Chars4(First(v[0]), Second(v[0], v[1]), Third(v[1], v[2]), Fourth(v[2]));
      CharsConcat(group, Sextets(v[3..]));
      EncodeIsChars(v[3..]);
    }
  }

  /** Decoding undoes encoding, and no encoding holds a line break. */
  lemma {:induction false} RoundTrip(v: Data)
    ensures Decode(Encode(v)) == Some(v)
    ensures forall c :: c in Encode(v) ==> c != 10 && c != 13 && c != PAD
  {
    EncodeIsChars(v);
    ValuesOfChars(Sextets(v));
    PackSextets(v);
  }

  lemma {:induction false} EncodedLength(v: Data)
    ensures |v| <= |Encode(v)| <= 2 * |v|
    decreases |v|
  {
    if |v| >= 3 { EncodedLength(v[3..]); }
  }

  lemma {:induction false} ValuesLength(s: Data)
    requires Values(s).Some?
    ensures |Values(s).value| <= |s|
  {
    if s != [] { ValuesLength(s[1..]); }
  }

  lemma {:induction false} PackLength(s: seq<Sextet>)
    requires Pack(s).Some?
    ensures 4 * |Pack(s).value| <= 3 * |s|
    decreases |s|
  {
    if |s| >= 4 { PackLength(s[4..]); }
  }

  lemma {:induction false} DecodedIsShorter(s: Data)
    requires Decode(s).Some?
    ensures 4 * |Decode(s).value| <= 3 * |s|
  {
    ValuesLength(s);
    PackLength(Values(s).value);
  }

  // ----- with padding -----

  /** Enough padding to fill the last group of four. */
  function PadCount(v: Data): nat {
    if |v| % 3 == 0 then 0 else 3 - |v| % 3
  }

  function Pads(n: nat): Data {
    if n == 0 then [] else if n == 1 then [PAD] else [PAD, PAD]
  }

  function EncodePadded(v: Data): Data {
    Encode(v) + Pads(PadCount(v))
  }

  function Unpadded(s: Data): Data {
    if |s| >= 2 && s[|s| - 1] == PAD && s[|s| - 2] == PAD then s[..|s| - 2]
    else if |s| >= 1 && s[|s| - 1] == PAD then s[..|s| - 1]
    else s
  }

  /** Line breaks are refused before decoding, so none is skipped here. */
  function DecodePadded(s: Data): Option<Data> {
    if |s| % 4 != 0 || 10 in s || 13 in s then None else Decode(Unpadded(s))
  }

  lemma {:induction false} EncodedStep(v: Data)
    ensures |v| < 3 ==> |Encode(v)| == if |v| == 0 then 0 else |v| + 1
    ensures |v| >= 3 ==> |Encode(v)| == 4 + |Encode(v[3..])|
  {
  }

  function LengthFor(n: nat): nat {
    if n == 0 then 0 else if n < 3 then n + 1 else 4 + LengthFor(n - 3)
  }

  lemma {:induction false} LengthIs(v: Data)
    ensures |Encode(v)| == LengthFor(|v|)
    decreases |v|
  {
    EncodedStep(v);
    if |v| >= 3 { LengthIs(v[3..]); }
  }

  lemma {:induction false} LengthShape(n: nat)
    ensures (LengthFor(n) + (if n % 3 == 0 then 0 else 3 - n % 3)) % 4 == 0
  {
    if n >= 3 { LengthShape(n - 3); }
  }

  lemma {:induction false} EncodedShape(v: Data)
    ensures (|Encode(v)| + PadCount(v)) % 4 == 0
  {
    LengthIs(v);
    LengthShape(|v|);
  }

  /** Groups of four characters for groups of three bytes. */
  function PaddedLen(n: nat): nat {
    (n + 2) / 3 * 4
  }

  lemma {:induction false} LongerIsLonger(m: nat, n: nat)
    requires m <= n
    ensures PaddedLen(m) <= PaddedLen(n)
  {
    assert (m + 2) / 3 <= (n + 2) / 3;
  }

  lemma {:induction false} LengthOfPadded(n: nat)
    ensures LengthFor(n) + (if n % 3 == 0 then 0 else 3 - n % 3) == PaddedLen(n)
  {
    if n >= 3 { LengthOfPadded(n - 3); }
  }

  lemma {:induction false} PaddedLength(v: Data)
    ensures |EncodePadded(v)| == PaddedLen(|v|)
  {
    LengthIs(v);
    LengthOfPadded(|v|);
  }

  lemma {:induction false} PaddedBack(e: Data, n: nat)
    requires PAD !in e && 10 !in e && 13 !in e && n <= 2 && (|e| + n) % 4 == 0
    ensures DecodePadded(e + Pads(n)) == Decode(e)
    ensures 10 !in e + Pads(n) && 13 !in e + Pads(n)
  {
    assert Unpadded(e + Pads(n)) == e;
  }

  lemma {:induction false} PaddedRoundTrip(v: Data)
    ensures DecodePadded(EncodePadded(v)) == Some(v)
    ensures 10 !in EncodePadded(v) && 13 !in EncodePadded(v)
  {
    EncodedShape(v);
    RoundTrip(v);
    PaddedBack(Encode(v), PadCount(v));
  }

  // ----- nothing else is accepted -----

  lemma {:induction false} CharOfValue(c: Byte)
    requires Value64(c).Some?
    ensures Char64(Value64(c).value) == c
  {
  }

  lemma {:induction false} CharsOfValues(s: Data)
    requires Values(s).Some? && 10 !in s && 13 !in s
    ensures Chars(Values(s).value) == s
  {
    if s != [] {
      assert s[0] in s && forall c :: c in s[1..] ==> c in s;
      CharsOfValues(s[1..]);
      CharOfValue(s[0]);
      CharsCons(Value64(s[0]).value, Values(s[1..]).value);
    }
  }

  lemma {:induction false} GroupForth(s: Sextet, t: Sextet, u: Sextet, v: Sextet)
    ensures First(Byte1(s, t)) == s && Second(Byte1(s, t), Byte2(t, u)) == t
    ensures Third(Byte2(t, u), Byte3(u, v)) == u && Fourth(Byte3(u, v)) == v
  {
  }

  lemma {:induction false} LastForth(s: Sextet, t: Sextet, u: Sextet)
    ensures t % 16 == 0 ==> Second(Byte1(s, t), 0) == t
    ensures u % 4 == 0 ==> Third(Byte2(t, u), 0) == u
  {
  }

  lemma {:induction false} SextetsOfPack(s: seq<Sextet>)
    requires Pack(s).Some?
    ensures Sextets(Pack(s).value) == s
    decreases |s|
  {
    if |s| == 2 {
      GroupForth(s[0], s[1], 0, 0);
      LastForth(s[0], s[1], 0);
    } else if |s| == 3 {
      GroupForth(s[0], s[1], s[2], 0);
      LastForth(s[0], s[1], s[2]);
    } else if |s| >= 4 {
      GroupForth(s[0], s[1], s[2], s[3]);
      SextetsOfPack(s[4..]);
      assert Pack(s).value[3..] == Pack(s[4..]).value;
      assert s == [s[0], s[1], s[2], s[3]] + s[4..];
    }
  }

  /** A text without line breaks is decoded exactly if it is an encoding. */
  lemma {:induction false} DecodesExactly(s: Data, v: Data)
    requires 10 !in s && 13 !in s
    ensures Decode(s) == Some(v) <==> s == Encode(v)
  {
    RoundTrip(v);
    if Decode(s) == Some(v) {
      SextetsOfPack(Values(s).value);
      CharsOfValues(s);
      EncodeIsChars(v);
    }
  }

  lemma {:induction false} LengthRest(n: nat)
    ensures LengthFor(n) % 4 == if n % 3 == 0 then 0 else n % 3 + 1
  {
    if n >= 3 { LengthRest(n - 3); }
  }

  lemma {:induction false} UnpaddedIs(s: Data) returns (n: nat)
    ensures n <= 2 && s == Unpadded(s) + Pads(n) && |s| == |Unpadded(s)| + n
    ensures forall c :: c in Unpadded(s) ==> c in s
  {
    n := |s| - |Unpadded(s)|;
  }

  lemma {:induction false} PadsFit(v: Data, n: nat)
    requires n <= 2 && (|Encode(v)| + n) % 4 == 0
    ensures n == PadCount(v)
  {
    LengthIs(v);
    LengthRest(|v|);
  }

  /** With padding exactly the encodings are decoded, and nothing else. */
  lemma {:induction false} PaddedExactly(s: Data, v: Data)
    ensures DecodePadded(s) == Some(v) <==> s == EncodePadded(v)
  {
    PaddedRoundTrip(v);
    if DecodePadded(s) == Some(v) {
      OnlyPadded(s, v);
    }
  }

  lemma {:induction false} OnlyPadded(s: Data, v: Data)
    requires DecodePadded(s) == Some(v)
    ensures s == EncodePadded(v)
  {
    var n := UnpaddedIs(s);
    DecodesExactly(Unpadded(s), v);
    PadsFit(v, n);
  }
}
