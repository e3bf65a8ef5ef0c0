/** Text cells of the CSV formats: the formula escape of v2 and the lossless
    envelope of v3. */
module TextCells {
  import opened Options
  import opened Bytes
  import opened CsvGuard
  import B = Base64

  /** The character classes of the runtime library: which texts starting with a byte
      above 127 need the escape, and which byte strings are valid UTF-8. */
  datatype Classes = Classes(wideNeedsEscape: Data -> bool, isUtf8: Data -> bool)

  const APOSTROPHE: Byte := 39

  /** Formula starters, blanks and control characters; a first character beyond
      ASCII is a matter for the library. */
  predicate NeedsEscape(u: Classes, v: Data) {
    v != [] &&
    var n := v[0] as int;
    if n >= 128 then u.wideNeedsEscape(v)
    else n <= 32 || n == 127 || n == 39 || n == 43 || n == 45 || n == 61 || n == 64
  }

  function Encode(u: Classes, v: Data): Data {
    if NeedsEscape(u, v) then [APOSTROPHE] + v else v
  }

  datatype CellError = NeedlessEscape | MissingEscape | EmptyEnvelope | BadEnvelope

  function Decode(u: Classes, cell: Data): Result<Data, CellError> {
    if cell != [] && cell[0] == APOSTROPHE then
      if NeedsEscape(u, cell[1..]) then Ok(cell[1..]) else Err(NeedlessEscape)
    else if NeedsEscape(u, cell) then Err(MissingEscape)
    else Ok(cell)
  }

  /** The v2 decoder inverts the encoder and accepts nothing but its image. */
  lemma {:induction false} DecodesExactlyTheImage(u: Classes, cell: Data, v: Data)
    ensures Decode(u, cell) == Ok(v) <==> cell == Encode(u, v)
  {
    if cell == Encode(u, v) && NeedsEscape(u, v) {
      assert cell[1..] == v;
    }
    if Decode(u, cell) == Ok(v) && cell != [] && cell[0] == APOSTROPHE {
      assert cell == [APOSTROPHE] + cell[1..];
    }
  }

  /** Every cell is accepted exactly when some text encodes to it. */
  lemma {:induction false} AcceptsExactlyTheImage(u: Classes, cell: Data)
    ensures Decode(u, cell).Ok? <==> exists v :: cell == Encode(u, v)
  {
    if Decode(u, cell).Ok? {
      DecodesExactlyTheImage(u, cell, Decode(u, cell).value);
    }
    if v :| cell == Encode(u, v) {
      DecodesExactlyTheImage(u, cell, v);
    }
  }

  /** No cell starts with a byte a spreadsheet reads as a formula: no plus, minus, equals or
      at sign, no blank and no control character. */
  ghost predicate StartsNoFormula(u: Classes, cell: Data) {
    cell != [] ==>
      var n := cell[0] as int;
      n > 32 && n != 43 && n != 45 && n != 61 && n != 64 && n != 127 && (n >= 128 ==> !u.wideNeedsEscape(cell))
  }

  lemma {:induction false} EncodedIsSafe(u: Classes, v: Data)
    ensures StartsNoFormula(u, Encode(u, v)) && StartsNoFormula(u, EncodeV3(u, v))
  {
    MarkerHasNoCR();
  }

  /** What is escaped, by the first byte: a text that starts a formula or with an apostrophe
      gets one in front; any other text stands for itself. */
  lemma {:induction false} EscapedExactly(u: Classes, v: Data)
    ensures v == [] ==> Encode(u, v) == []
    ensures v != [] && v[0] as int < 128 ==>
      var n := v[0] as int;
      Encode(u, v) == if n <= 32 || n == 39 || n == 43 || n == 45 || n == 61 || n == 64 || n == 127 then [39] + v else v
    ensures v != [] && v[0] as int >= 128 ==> Encode(u, v) == if u.wideNeedsEscape(v) then [39] + v else v
  {
  }

  // ----- version 3 -----

  /** "\x01omni-money-csv-v3-text:" */
  const MARKER: Data :=
    [1, 111, 109, 110, 105, 45, 109, 111, 110, 101, 121, 45, 99, 115, 118, 45, 118, 51, 45, 116, 101, 120, 116, 58]

  predicate Marked(v: Data) {
    |v| >= |MARKER| && v[..|MARKER|] == MARKER
  }

  function EncodeV3(u: Classes, v: Data): Data {
    Encode(u, if CR in v then MARKER + B.Encode(v) else v)
  }

  function DecodeV3(u: Classes, cell: Data): Result<Data, CellError> {
    var decoded := Decode(u, cell);
    if decoded.Err? || !Marked(decoded.value) then decoded
    else
      var payload := decoded.value[|MARKER|..];
      if payload == [] then Err(EmptyEnvelope)
      else
        var raw := B.Decode(payload);
        if raw.None? || !u.isUtf8(raw.value) then Err(BadEnvelope) else Ok(raw.value)
  }

  /** A text without CR is escaped as in version 2; one with a CR goes as an apostrophe, the
      marker and its Base64. */
  lemma {:induction false} EnvelopedExactly(u: Classes, v: Data)
    ensures EncodeV3(u, v) == if 13 in v then [39] + MARKER + B.Encode(v) else Encode(u, v)
  {
    MarkerHasNoCR();
    if 13 in v {
      EscapedExactly(u, MARKER + B.Encode(v));
      assert [39] + (MARKER + B.Encode(v)) == [39] + MARKER + B.Encode(v);
    }
  }

  lemma {:induction false} MarkerIs(k: nat)
    requires k < 23
    ensures |MARKER| == 24 && MARKER[0] == 1 && MARKER[k + 1] as int == "omni-money-csv-v3-text:"[k] as int
  {
  }

  lemma {:induction false} MarkerHasNoCR()
    ensures CR !in MARKER && |MARKER| == 24 && MARKER[0] == 1
  {
  }

  lemma {:induction false} MarkedConcat(payload: Data)
    ensures Marked(MARKER + payload) && (MARKER + payload)[|MARKER|..] == payload
  {
  }

  /** The v3 decoder recovers a text exactly when it is valid UTF-8 holding a CR, or
      holds no CR and does not start with the reserved marker. */
  lemma {:induction false} RecoversExactly(u: Classes, v: Data)
    ensures DecodeV3(u, EncodeV3(u, v)) == Ok(v) <==> if CR in v then u.isUtf8(v) else !Marked(v)
  {
    if CR in v {
      RecoversEnvelope(u, v);
    } else {
      DecodesExactlyTheImage(u, EncodeV3(u, v), v);
      if Marked(v) {
        MarkerHasNoCR();
        var payload := v[|MARKER|..];
        if B.Decode(payload).Some? {
          B.DecodedIsShorter(payload);
        }
      }
    }
  }

  lemma {:induction false} RecoversEnvelope(u: Classes, v: Data)
    requires CR in v
    ensures DecodeV3(u, EncodeV3(u, v)) == if u.isUtf8(v) then Ok(v) else Err(BadEnvelope)
  {
    var envelope := MARKER + B.Encode(v);
    DecodesExactlyTheImage(u, EncodeV3(u, v), envelope);
    MarkedConcat(B.Encode(v));
    B.RoundTrip(v);
    B.EncodedLength(v);
  }

  /** The marker itself is a text the v3 format cannot carry. */
  lemma {:induction false} MarkerIsLost(u: Classes)
    ensures DecodeV3(u, EncodeV3(u, MARKER)) == Err(EmptyEnvelope)
  {
    MarkerHasNoCR();
    DecodesExactlyTheImage(u, EncodeV3(u, MARKER), MARKER);
    MarkedConcat([]);
    assert MARKER + [] == MARKER;
  }

  /** No v3 cell holds a CR, so newline normalisation in the CSV layer cannot alter it. */
  lemma {:induction false} NeverEmitsCR(u: Classes, v: Data)
    ensures CR !in EncodeV3(u, v)
  {
    MarkerHasNoCR();
    B.RoundTrip(v);
    var inner := if CR in v then MARKER + B.Encode(v) else v;
    assert CR !in inner;
  }

  /** A text within the field limit gives a cell within the guard's field limit. */
  lemma {:induction false} FitsTheGuard(u: Classes, v: Data)
    requires |v| <= 8_388_608
    ensures |EncodeV3(u, v)| <= 16_777_344
  {
    MarkerHasNoCR();
    B.EncodedLength(v);
  }
}
