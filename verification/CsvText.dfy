/** What the CSV writer emits, and that the decoder reads it back. */
module CsvText {
  import opened Options
  import opened Bytes
  import opened CsvGuard

  /** A field and whether the writer quotes it. */
  datatype Cell = Cell(value: Data, quoted: bool)

  predicate Special(b: Byte) {
    b == COMMA || b == QUOTE || b == CR || b == LF
  }

  /** The writer quotes at least the fields that need it; archive text holds no CR. */
  predicate Writable(c: Cell) {
    CR !in c.value && (c.quoted || forall k :: 0 <= k < |c.value| ==> !Special(c.value[k]))
  }

  function Doubled(v: Data): Data {
    if v == [] then [] else (if v[0] == QUOTE then [QUOTE, QUOTE] else [v[0]]) + Doubled(v[1..])
  }

  function CellText(c: Cell): Data {
    if c.quoted then [QUOTE] + Doubled(c.value) + [QUOTE] else c.value
  }

  /** Fields separated by commas. */
  function FieldsText(cells: seq<Cell>): Data {
    if cells == [] then []
    else if |cells| == 1 then CellText(cells[0])
    else CellText(cells[0]) + [COMMA] + FieldsText(cells[1..])
  }

  function RowText(cells: seq<Cell>): Data {
    FieldsText(cells) + [LF]
  }

  function FileText(rows: seq<seq<Cell>>): Data {
    if rows == [] then [] else RowText(rows[0]) + FileText(rows[1..])
  }

  function Values(cells: seq<Cell>): seq<Data> {
    seq(|cells|, i requires 0 <= i < |cells| => cells[i].value)
  }

  lemma {:induction false} DecodeConcat(d: Decoder, a: Data, b: Data)
    ensures Decode(d, a + b) == Decode(Decode(d, a), b)
    decreases |a|
  {
    if a == [] {
      assert a + b == b;
    } else {
      assert (a + b)[1..] == a[1..] + b;
      DecodeConcat(Step(d, a[0]), a[1..], b);
    }
  }

  lemma {:induction false} DecodeOne(d: Decoder, b: Byte)
    ensures Decode(d, [b]) == Step(d, b)
  {
    assert [b][1..] == [];
  }

  /** `d` with `v` more in its field and `n` more raw bytes. */
  function Extended(d: Decoder, v: Data, n: nat, mode: Mode): Decoder {
    d.(field := d.field + v, decoded := d.decoded + |v|, raw := d.raw + n, mode := mode)
  }

  lemma {:induction false} ExtendTwice(d: Decoder, v: Data, w: Data, n: nat, m: nat, mode: Mode, last: Mode)
    ensures Extended(Extended(d, v, n, mode), w, m, last) == Extended(d, v + w, n + m, last)
  {
    assert d.field + v + w == d.field + (v + w);
  }

  lemma {:induction false} DecodeQuoted(d: Decoder, v: Data)
    requires d.mode == Quoted && CR !in v
    ensures Decode(d, Doubled(v)) == Extended(d, v, |Doubled(v)|, Quoted)
    decreases |v|
  {
    if v == [] {
      assert d.field + [] == d.field;
    } else {
      var head, tail := v[0], v[1..];
      var first := if head == QUOTE then [QUOTE, QUOTE] else [head];
      assert v == [head] + tail;
      DecodeConcat(d, first, Doubled(tail));
      if head == QUOTE {
        assert [QUOTE, QUOTE] == [QUOTE] + [QUOTE];
        DecodeConcat(d, [QUOTE], [QUOTE]);
        DecodeOne(d, QUOTE);
        DecodeOne(Step(d, QUOTE), QUOTE);
      } else {
        DecodeOne(d, head);
      }
      var next := Extended(d, [head], |first|, Quoted);
      assert Decode(d, first) == next;
      DecodeQuoted(next, tail);
      ExtendTwice(d, [head], tail, |first|, |Doubled(tail)|, Quoted, Quoted);
    }
  }

  lemma {:induction false} DecodePlain(d: Decoder, v: Data)
    requires d.mode == Plain && forall k :: 0 <= k < |v| ==> !Special(v[k])
    ensures Decode(d, v) == Extended(d, v, |v|, Plain)
    decreases |v|
  {
    if v == [] {
      assert d.field + [] == d.field;
    } else {
      assert v == [v[0]] + v[1..];
      var next := Extended(d, [v[0]], 1, Plain);
      assert Step(d, v[0]) == next;
      DecodePlain(next, v[1..]);
      ExtendTwice(d, [v[0]], v[1..], 1, |v[1..]|, Plain, Plain);
    }
  }

  /** Where the decoder stands after a field. */
  ghost predicate AfterCell(d: Decoder, c: Cell, after: Decoder) {
    after == Extended(d, c.value, |CellText(c)|, after.mode) && AtEnd(after)
  }

  lemma {:induction false} DecodeSnoc(d: Decoder, a: Data, b: Byte, mid: Decoder)
    requires Decode(d, a) == mid
    ensures Decode(d, a + [b]) == Step(mid, b)
  {
    DecodeConcat(d, a, [b]);
    DecodeOne(mid, b);
  }

  lemma {:induction false} DecodeCons(d: Decoder, b: Byte, a: Data, after: Decoder)
    requires Decode(Step(d, b), a) == after
    ensures Decode(d, [b] + a) == after
  {
    assert ([b] + a)[1..] == a;
  }

  lemma {:induction false} DecodeQuotedCell(d: Decoder, v: Data)
    requires d.mode == FieldStart && CR !in v
    ensures Decode(d, [QUOTE] + Doubled(v) + [QUOTE]) == Extended(d, v, |Doubled(v)| + 2, Closing)
  {
    var inside := d.(mode := Quoted, raw := d.raw + 1);
    var full := Extended(inside, v, |Doubled(v)|, Quoted);
    QuoteOpens(d);
    DecodeQuoted(inside, v);
    DecodeCons(d, QUOTE, Doubled(v), full);
    DecodeSnoc(d, [QUOTE] + Doubled(v), QUOTE, full);
    QuoteCloses(full);
  }

  lemma {:induction false} QuoteOpens(d: Decoder)
    requires d.mode == FieldStart
    ensures Step(d, QUOTE) == d.(mode := Quoted, raw := d.raw + 1)
  {
  }

  lemma {:induction false} QuoteCloses(d: Decoder)
    requires d.mode == Quoted
    ensures Step(d, QUOTE) == d.(mode := Closing, raw := d.raw + 1)
  {
  }

  lemma {:induction false} PlainStarts(d: Decoder, b: Byte)
    requires d.mode == FieldStart && !Special(b)
    ensures Step(d, b) == Extended(d, [b], 1, Plain)
  {
  }

  lemma {:induction false} DecodePlainCell(d: Decoder, v: Data)
    requires d.mode == FieldStart && v != [] && forall k :: 0 <= k < |v| ==> !Special(v[k])
    ensures Decode(d, v) == Extended(d, v, |v|, Plain)
  {
    var b, tail := v[0], v[1..];
    PlainStarts(d, b);
    DecodePlain(Extended(d, [b], 1, Plain), tail);
    ExtendTwice(d, [b], tail, 1, |tail|, Plain, Plain);
    DecodeCons(d, b, tail, Extended(d, [b] + tail, 1 + |tail|, Plain));
    assert v == [b] + tail;
  }

  lemma {:induction false} DecodeCell(d: Decoder, c: Cell)
    requires d.mode == FieldStart && Writable(c)
    ensures AfterCell(d, c, Decode(d, CellText(c)))
  {
    if c.quoted {
      DecodeQuotedCell(d, c.value);
    } else if c.value == [] {
      assert d.field + [] == d.field;
    } else {
      DecodePlainCell(d, c.value);
    }
  }

  /** Where the decoder stands after the fields of a row. */
  ghost predicate AfterFields(d: Decoder, cells: seq<Cell>, after: Decoder) {
    && AtEnd(after)
    && after.fields + [after.field] == d.fields + Values(cells)
    && after.records == d.records
    && after.raw == d.raw + |FieldsText(cells)|
    && after.carriage == d.carriage
  }

  lemma {:induction false} CommaNext(d: Decoder, c: Cell, after: Decoder)
    requires d.field == [] && AfterCell(d, c, after)
    ensures var next := Step(after, COMMA);
            && next.mode == FieldStart && next.field == [] && next.fields == d.fields + [c.value]
            && next.records == d.records && next.raw == d.raw + |CellText(c)| + 1 && next.carriage == d.carriage
  {
    assert [] + c.value == c.value;
  }

  lemma {:induction false} AfterOneMore(d: Decoder, cells: seq<Cell>, next: Decoder, after: Decoder)
    requires |cells| > 1 && AfterFields(next, cells[1..], after)
    requires next.fields == d.fields + [cells[0].value] && next.records == d.records
    requires next.raw == d.raw + |CellText(cells[0])| + 1 && next.carriage == d.carriage
    ensures AfterFields(d, cells, after)
  {
    assert Values(cells) == [cells[0].value] + Values(cells[1..]);
    assert d.fields + [cells[0].value] + Values(cells[1..]) == d.fields + Values(cells);
  }

  lemma {:induction false} OneCell(d: Decoder, c: Cell, after: Decoder)
    requires d.field == [] && AfterCell(d, c, after)
    ensures AfterFields(d, [c], after)
  {
    assert [] + c.value == c.value;
    assert Values([c]) == [c.value];
  }

  /** The fields of a row, all but the last of which are closed by a comma. */
  lemma {:induction false} DecodeFields(d: Decoder, cells: seq<Cell>)
    requires cells != [] && d.mode == FieldStart && d.field == []
    requires forall k :: 0 <= k < |cells| ==> Writable(cells[k])
    ensures AfterFields(d, cells, Decode(d, FieldsText(cells)))
    decreases |cells|
  {
    var c := cells[0];
    var after := Decode(d, CellText(c));
    DecodeCell(d, c);
    if |cells| == 1 {
      OneCell(d, c, after);
      assert cells == [c];
    } else {
      CommaNext(d, c, after);
      DecodeSnoc(d, CellText(c), COMMA, after);
      DecodeFields(Step(after, COMMA), cells[1..]);
      DecodeConcat(d, CellText(c) + [COMMA], FieldsText(cells[1..]));
      AfterOneMore(d, cells, Step(after, COMMA), Decode(d, FieldsText(cells)));
    }
  }

  lemma {:induction false} DecodeRow(d: Decoder, cells: seq<Cell>)
    requires cells != [] && d == Begin.(records := d.records)
    requires forall k :: 0 <= k < |cells| ==> Writable(cells[k])
    ensures Decode(d, RowText(cells)) == Begin.(records := d.records + [Record(Values(cells), |RowText(cells)|, false)])
  {
    var after := Decode(d, FieldsText(cells));
    DecodeFields(d, cells);
    DecodeSnoc(d, FieldsText(cells), LF, after);
    RowEnds(d, cells, after);
  }

  lemma {:induction false} RowEnds(d: Decoder, cells: seq<Cell>, after: Decoder)
    requires d == Begin.(records := d.records) && AfterFields(d, cells, after)
    ensures Step(after, LF) == Begin.(records := d.records + [Record(Values(cells), |RowText(cells)|, false)])
  {
    assert [] + Values(cells) == Values(cells);
  }

  function RecordsOf(rows: seq<seq<Cell>>): seq<Record> {
    if rows == [] then [] else [Record(Values(rows[0]), |RowText(rows[0])|, false)] + RecordsOf(rows[1..])
  }

  ghost predicate AllWritable(rows: seq<seq<Cell>>) {
    forall i :: 0 <= i < |rows| ==> rows[i] != [] && forall k :: 0 <= k < |rows[i]| ==> Writable(rows[i][k])
  }

  lemma {:induction false} DecodeFile(d: Decoder, rows: seq<seq<Cell>>)
    requires AllWritable(rows) && d == Begin.(records := d.records)
    ensures Decode(d, FileText(rows)) == Begin.(records := d.records + RecordsOf(rows))
    decreases |rows|
  {
    if rows == [] {
      assert d.records + [] == d.records;
    } else {
      var record := Record(Values(rows[0]), |RowText(rows[0])|, false);
      var next := Begin.(records := d.records + [record]);
      DecodeRow(d, rows[0]);
      DecodeFile(next, rows[1..]);
      DecodeConcat(d, RowText(rows[0]), FileText(rows[1..]));
      Reassociate(d.records, record, RecordsOf(rows[1..]));
    }
  }

  lemma {:induction false} Reassociate(a: seq<Record>, r: Record, b: seq<Record>)
    ensures a + [r] + b == a + ([r] + b)
  {
  }

  /** Every file the writer emits from CR-free fields decodes to those fields, row by row. */
  lemma {:induction false} WrittenIsRead(rows: seq<seq<Cell>>)
    requires AllWritable(rows)
    ensures Records(FileText(rows)) == Some(RecordsOf(rows))
  {
    var d := Begin;
    DecodeFile(d, rows);
    assert [] + RecordsOf(rows) == RecordsOf(rows);
  }

  lemma {:induction false} RecordsOfAt(rows: seq<seq<Cell>>, i: nat)
    requires i < |rows|
    ensures |RecordsOf(rows)| == |rows| && RecordsOf(rows)[i] == Record(Values(rows[i]), |RowText(rows[i])|, false)
  {
    if |rows| > 1 {
      RecordsOfAt(rows[1..], if i > 0 then i - 1 else 0);
    }
  }

  /** So a written file passes its importer's guard exactly when its rows are small enough. */
  lemma {:induction false} WrittenPassesGuard(lim: Limits, rows: seq<seq<Cell>>)
    requires AllWritable(rows)
    ensures ConsumeAll(lim, Initial, FileText(rows)).Some? <==>
            forall i :: 0 <= i < |rows| ==>
              |RowText(rows[i])| <= MAX_RECORD_BYTES && |rows[i]| <= MAX_RECORD_FIELDS && FieldsFit(lim, Values(rows[i]))
  {
    WrittenIsRead(rows);
    AcceptedExactlyWithinLimits(lim, FileText(rows));
    RecordsOfLength(rows);
    forall i | 0 <= i < |rows|
      ensures RecordFits(lim, RecordsOf(rows)[i]) <==>
              |RowText(rows[i])| <= MAX_RECORD_BYTES && |rows[i]| <= MAX_RECORD_FIELDS && FieldsFit(lim, Values(rows[i]))
    {
      RecordsOfAt(rows, i);
    }
  }

  lemma {:induction false} RecordsOfLength(rows: seq<seq<Cell>>)
    ensures |RecordsOf(rows)| == |rows|
  {
    if rows != [] { RecordsOfLength(rows[1..]); }
  }
}
