/** Decimal integers as text. */
module IntText {
  import opened Options
  import opened Bytes

  const PLUS: Byte := 43
  const MINUS: Byte := 45

  predicate IsDigit(b: Byte) {
    48 <= b as int <= 57
  }

  function Digits(n: nat): (s: Data)
    ensures s != [] && forall k :: 0 <= k < |s| ==> IsDigit(s[k])
  {
    if n < 10 then [(48 + n) as Byte] else Digits(n / 10) + [(48 + n % 10) as Byte]
  }

  function Format(n: int): Data {
    if n < 0 then [MINUS] + Digits(-n) else Digits(n)
  }

  /** The value of a digit string. */
  function Value(s: Data): Option<nat> {
    if s == [] then Some(0)
    else
      var last, rest := s[|s| - 1], Value(s[..|s| - 1]);
      if !IsDigit(last) || rest.None? then None else Some(rest.value * 10 + (last as int - 48))
  }

  /** Base-ten parsing with an optional sign. */
  function Parse(s: Data): Option<int> {
    if s == [] then None
    else if s[0] == PLUS then if |s| == 1 then None else Value(s[1..])
    else if s[0] == MINUS then
      if |s| == 1 || Value(s[1..]).None? then None
      else
        var v: int := Value(s[1..]).value;
        Some(-v)
    else Value(s)
  }

  lemma {:induction false} ValueExactly(s: Data)
    ensures Value(s).Some? <==> forall k :: 0 <= k < |s| ==> 48 <= s[k] as int <= 57
  {
    if s != [] {
      ValueExactly(s[..|s| - 1]);
      assert forall k :: 0 <= k < |s| - 1 ==> s[..|s| - 1][k] == s[k];
    }
  }

  /** What follows an optional sign. */
  function Unsigned(s: Data): Data {
    if s != [] && (s[0] == 43 || s[0] == 45) then s[1..] else s
  }

  /** A number is read exactly from one or more digits after an optional sign. */
  lemma {:induction false} ParsesExactly(s: Data)
    ensures Parse(s).Some? <==> Unsigned(s) != [] && forall k :: 0 <= k < |Unsigned(s)| ==> 48 <= Unsigned(s)[k] as int <= 57
    ensures Parse(s).Some? ==>
      Value(Unsigned(s)).Some? && Parse(s).value == (if s[0] == 45 then -1 else 1) * Value(Unsigned(s)).value
  {
    ValueExactly(Unsigned(s));
  }

  lemma {:induction false} ValueSnoc(s: Data, d: nat)
    requires Value(s).Some? && d < 10
    ensures Value(s + [(48 + d) as Byte]) == Some(Value(s).value * 10 + d)
  {
    assert (s + [(48 + d) as Byte])[..|s|] == s;
  }

  lemma {:induction false} ValueOfDigits(n: nat)
    ensures Value(Digits(n)) == Some(n)
  {
    if n < 10 {
      ValueSnoc([], n);
      assert [] + [(48 + n) as Byte] == Digits(n);
    } else {
      ValueOfDigits(n / 10);
      ValueSnoc(Digits(n / 10), n % 10);
    }
  }

  /** Reading back what was written. */
  lemma {:induction false} ParseFormat(n: int)
    ensures Parse(Format(n)) == Some(n)
  {
    if n < 0 {
      ValueOfDigits(-n);
      assert Format(n)[1..] == Digits(-n);
    } else {
      ValueOfDigits(n);
      assert IsDigit(Digits(n)[0]);
    }
  }

  lemma {:induction false} FormatIsInjective(m: int, n: int)
    requires Format(m) == Format(n)
    ensures m == n
  {
    ParseFormat(m);
    ParseFormat(n);
  }

  predicate IsBlank(b: Byte) {
    b == 32 || 9 <= b as int <= 13
  }

  /** Without leading and trailing blanks. */
  function Trimmed(s: Data): Data
    decreases |s|
  {
    if s != [] && IsBlank(s[0]) then Trimmed(s[1..])
    else if s != [] && IsBlank(s[|s| - 1]) then Trimmed(s[..|s| - 1])
    else s
  }

  /** A text without blanks at its ends, and nothing but blanks around it. */
  ghost predicate StandsIn(t: Data, s: Data, from: nat) {
    var to := from + |t|;
    && to <= |s| && t == s[from..to]
    && (forall k :: 0 <= k < from || to <= k < |s| ==> s[k] in {9, 10, 11, 12, 13, 32})
    && (t != [] ==> t[0] !in {9, 10, 11, 12, 13, 32} && t[|t| - 1] !in {9, 10, 11, 12, 13, 32})
  }

  lemma {:induction false} BlankInFront(t: Data, s: Data, from: nat, b: Byte)
    requires StandsIn(t, s, from) && b in {9, 10, 11, 12, 13, 32}
    ensures StandsIn(t, [b] + s, from + 1)
  {
    assert ([b] + s)[from + 1..from + 1 + |t|] == s[from..from + |t|];
  }

  lemma {:induction false} BlankBehind(t: Data, s: Data, from: nat, b: Byte)
    requires StandsIn(t, s, from) && b in {9, 10, 11, 12, 13, 32}
    ensures StandsIn(t, s + [b], from)
  {
    assert (s + [b])[from..from + |t|] == s[from..from + |t|];
  }

  /** Trimming takes the blanks at both ends and nothing else. */
  lemma {:induction false} TrimmedIs(s: Data) returns (from: nat)
    ensures StandsIn(Trimmed(s), s, from)
    decreases |s|
  {
    if s != [] && IsBlank(s[0]) {
      from := TrimmedIs(s[1..]);
      BlankInFront(Trimmed(s), s[1..], from, s[0]);
      assert [s[0]] + s[1..] == s;
      from := from + 1;
    } else if s != [] && IsBlank(s[|s| - 1]) {
      from := TrimmedIs(s[..|s| - 1]);
      BlankBehind(Trimmed(s), s[..|s| - 1], from, s[|s| - 1]);
      assert s[..|s| - 1] + [s[|s| - 1]] == s;
    } else {
      from := 0;
      assert s[0..|s|] == s;
    }
  }

  lemma {:induction false} FormatIsTrimmed(n: int)
    ensures Format(n) != [] && Trimmed(Format(n)) == Format(n)
    ensures Format(n)[0] == MINUS || IsDigit(Format(n)[0])
  {
    var s := Format(n);
    assert IsDigit(s[|s| - 1]) by {
      if n < 0 { assert s[|s| - 1] == Digits(-n)[|Digits(-n)| - 1]; }
    }
  }

  lemma {:induction false} DigitsBelow(n: nat, k: nat, bound: nat)
    requires n < bound && bound <= Power10(k) && k > 0
    ensures |Digits(n)| <= k
    decreases k
  {
    if n >= 10 && k > 1 {
      DigitsBelow(n / 10, k - 1, Power10(k - 1));
    }
  }

  function Power10(k: nat): nat {
    if k == 0 then 1 else 10 * Power10(k - 1)
  }

  lemma {:induction false} FourMore(k: nat)
    ensures Power10(k + 4) == 10_000 * Power10(k)
  {
    assert Power10(k + 2) == 10 * Power10(k + 1);
    assert Power10(k + 4) == 10 * Power10(k + 3);
  }

  /** A 64-bit number takes at most twenty-one characters. */
  lemma {:induction false} FormatLength(n: int)
    requires -0x8000_0000_0000_0000 <= n <= 0x7fff_ffff_ffff_ffff
    ensures |Format(n)| <= 21
  {
    FourMore(0);
    FourMore(4);
    FourMore(8);
    FourMore(12);
    FourMore(16);
    DigitsBelow(if n < 0 then -n else n, 20, Power10(20));
  }

  lemma {:induction false} FormatHasNoCR(n: int)
    ensures 13 !in Format(n)
  {
  }
}
