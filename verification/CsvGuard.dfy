/** The byte-at-a-time guard that runs ahead of the CSV parser.

    The reference is a decoder for section 2 of RFC 4180, extended with bare LF
    record ends and with the newline normalisation of quoted fields (CRLF reads as
    LF). It keeps the decoded bytes; the guard keeps only counts. */
module CsvGuard {
  import opened Options
  import opened Bytes

  const LF: Byte := 10
  const CR: Byte := 13
  const QUOTE: Byte := 34
  const COMMA: Byte := 44

  const MAX_RECORD_BYTES: nat := 32 * 1024 * 1024
  const MAX_RECORD_FIELDS: nat := 256
  const MAX_FIELD_BYTES: nat := 8 * 1024 * 1024
  const MAX_GUARD_FIELD_BYTES: nat := MAX_FIELD_BYTES * 2 + 128

  // ----- the reference decoder -----

  datatype Mode =
    | FieldStart   // nothing of the field read yet
    | Plain        // inside an unquoted field
    | Quoted       // inside a quoted field
    | QuotedCR     // inside a quoted field, just after a CR
    | Closing      // after a quote that ends the field or starts a doubled one
    | Ending       // after a CR that must start a CRLF record end
    | Failed

  /** A decoded record; `raw` counts its bytes with the record end, and `carriage`
      says that a quoted field held a CR. */
  datatype Record = Record(fields: seq<Data>, raw: nat, carriage: bool)

  datatype Decoder = Decoder(records: seq<Record>, fields: seq<Data>, field: Data, raw: nat, decoded: nat, carriage: bool, mode: Mode)

  const Begin := Decoder([], [], [], 0, 0, false, FieldStart)

  function Append(d: Decoder, b: Byte, mode: Mode): Decoder {
    d.(field := d.field + [b], decoded := d.decoded + 1, mode := mode)
  }

  function EndField(d: Decoder): Decoder {
    d.(fields := d.fields + [d.field], field := [], mode := FieldStart)
  }

  function EndRecord(d: Decoder): Decoder {
    Begin.(records := d.records + [Record(d.fields + [d.field], d.raw, d.carriage)])
  }

  /** A byte that may end an unquoted or a closed field. */
  function Separate(d: Decoder, b: Byte): Decoder {
    if b == COMMA then EndField(d)
    else if b == LF then EndRecord(d)
    else if b == CR then d.(mode := Ending)
    else d.(mode := Failed)
  }

  function Step(before: Decoder, b: Byte): Decoder {
    var d := before.(raw := before.raw + 1, carriage := before.carriage || before.mode == QuotedCR);
    match d.mode
    case FieldStart =>
      if b == QUOTE then d.(mode := Quoted)
      else if b == COMMA || b == LF || b == CR then Separate(d, b)
      else Append(d, b, Plain)
    case Plain =>
      if b == QUOTE then d.(mode := Failed)
      else if b == COMMA || b == LF || b == CR then Separate(d, b)
      else Append(d, b, Plain)
    case Quoted =>
      if b == QUOTE then d.(mode := Closing) else Append(d, b, if b == CR then QuotedCR else Quoted)
    case QuotedCR =>
      if b == LF && d.field != [] then d.(field := d.field[..|d.field| - 1] + [LF], mode := Quoted)
      else if b == QUOTE then d.(mode := Closing)
      else Append(d, b, if b == CR then QuotedCR else Quoted)
    case Closing =>
      if b == QUOTE then Append(d, b, Quoted) else Separate(d, b)
    case Ending =>
      if b == LF then EndRecord(d) else d.(mode := Failed)
    case Failed => d
  }

  function Decode(d: Decoder, data: Data): Decoder
    decreases |data|
  {
    if data == [] then d else Decode(Step(d, data[0]), data[1..])
  }

  /** The records of a whole input, the last of which may lack its record end. */
  function Records(data: Data): Option<seq<Record>> {
    var d := Decode(Begin, data);
    if AtEnd(d) then Some(Finished(d)) else None
  }

  /** Where an input may end. */
  predicate AtEnd(d: Decoder) {
    d.mode == FieldStart || d.mode == Plain || d.mode == Closing
  }

  function Finished(d: Decoder): seq<Record> {
    if d.raw == 0 then d.records else EndRecord(d).records
  }

  // ----- the guard -----

  datatype Limits = Limits(maxField: nat, rejectQuotedCR: bool)

  datatype Guard = Guard(fieldBytes: int, recordBytes: int, recordDecodedBytes: int, recordFields: int,
                         inQuotes: bool, quotePending: bool, fieldStart: bool, pendingCR: bool)

  /** The state from the first read on. */
  const Initial := Guard(0, 0, 0, 1, false, false, true, false)

  function Add(lim: Limits, g: Guard): Option<Guard> {
    if g.fieldBytes + 1 > lim.maxField || g.recordDecodedBytes + 1 > MAX_RECORD_BYTES then None
    else Some(g.(fieldBytes := g.fieldBytes + 1, recordDecodedBytes := g.recordDecodedBytes + 1))
  }

  function NewRecord(g: Guard): Guard {
    g.(fieldBytes := 0, fieldStart := true, recordBytes := 0, recordDecodedBytes := 0, recordFields := 1)
  }

  function Outside(lim: Limits, g: Guard, b: Byte): Option<Guard> {
    if g.fieldStart && b == QUOTE then Some(g.(inQuotes := true, fieldStart := false))
    else if b == COMMA then
      if g.recordFields + 1 > MAX_RECORD_FIELDS then None
      else Some(g.(recordFields := g.recordFields + 1, fieldBytes := 0, fieldStart := true))
    else if b == LF then Some(NewRecord(g))
    else if b == CR then Some(g.(pendingCR := true))
    else Add(lim, g.(fieldStart := false))
  }

  function Within(lim: Limits, g: Guard, b: Byte): Option<Guard> {
    if g.quotePending then
      if b == QUOTE then Add(lim, g.(quotePending := false))
      else Outside(lim, g.(quotePending := false, inQuotes := false), b)
    else if g.inQuotes then
      if b == CR then Some(g.(pendingCR := true))
      else if b == QUOTE then Some(g.(quotePending := true))
      else Add(lim, g)
    else Outside(lim, g, b)
  }

  /** The effect of one byte; `None` is a refusal. */
  function Consume(lim: Limits, before: Guard, b: Byte): Option<Guard> {
    var g := before.(recordBytes := before.recordBytes + 1);
    if g.recordBytes > MAX_RECORD_BYTES then None
    else if !g.pendingCR then Within(lim, g, b)
    else
      var settled := g.(pendingCR := false);
      if b == LF && !g.inQuotes then Some(NewRecord(settled))
      else if g.inQuotes && lim.rejectQuotedCR then None
      else if b == LF then Add(lim, settled)
      else
        var added := Add(lim, settled);
        if added.None? then None else Within(lim, added.value, b)
  }

  function ConsumeAll(lim: Limits, g: Guard, data: Data): Option<Guard>
    decreases |data|
  {
    if data == [] then Some(g)
    else
      var next := Consume(lim, g, data[0]);
      if next.None? then None else ConsumeAll(lim, next.value, data[1..])
  }

  // ----- the guard counts what the decoder keeps -----

  function Pending(d: Decoder): nat {
    if d.mode == QuotedCR then 1 else 0
  }

  /** The guard's counters are the sizes of what the decoder holds, up to one CR
      that is still pending. */
  ghost predicate Counts(d: Decoder, g: Guard) {
    && g.recordBytes == d.raw
    && g.recordFields == |d.fields| + 1
    && g.fieldBytes == |d.field| - Pending(d)
    && g.recordDecodedBytes == d.decoded - Pending(d)
    && g.inQuotes == (d.mode == Quoted || d.mode == QuotedCR || d.mode == Closing)
    && g.quotePending == (d.mode == Closing)
    && g.pendingCR == (d.mode == QuotedCR || d.mode == Ending)
    && (d.mode == FieldStart ==> g.fieldStart && d.field == [])
    && (d.mode == Plain ==> !g.fieldStart)
    && (d.mode == QuotedCR ==> d.field != [])
    && |d.field| <= d.decoded <= d.raw
  }

  predicate FieldsFit(lim: Limits, fields: seq<Data>) {
    forall k :: 0 <= k < |fields| ==> |fields[k]| <= lim.maxField
  }

  /** What the limits demand of one decoded record. */
  predicate RecordFits(lim: Limits, r: Record) {
    && r.raw <= 33_554_432
    && |r.fields| <= 256
    && FieldsFit(lim, r.fields)
    && (lim.rejectQuotedCR ==> !r.carriage)
  }

  predicate AllFit(lim: Limits, records: seq<Record>) {
    forall k :: 0 <= k < |records| ==> RecordFits(lim, records[k])
  }

  /** What the limits demand of a decoder under way. */
  predicate Fits(lim: Limits, d: Decoder) {
    && AllFit(lim, d.records)
    && d.raw <= MAX_RECORD_BYTES
    && |d.fields| + 1 <= MAX_RECORD_FIELDS
    && FieldsFit(lim, d.fields)
    && |d.field| - Pending(d) <= lim.maxField
    && (lim.rejectQuotedCR ==> !d.carriage)
  }

  lemma {:induction false} FitsSnoc(lim: Limits, fields: seq<Data>, field: Data)
    ensures FieldsFit(lim, fields + [field]) <==> FieldsFit(lim, fields) && |field| <= lim.maxField
  {
    assert FieldsFit(lim, fields + [field]) ==> |(fields + [field])[|fields|]| <= lim.maxField;
    if FieldsFit(lim, fields + [field]) {
      assert forall k :: 0 <= k < |fields| ==> fields[k] == (fields + [field])[k];
    }
  }

  lemma {:induction false} AllFitSnoc(lim: Limits, records: seq<Record>, r: Record)
    ensures AllFit(lim, records + [r]) <==> AllFit(lim, records) && RecordFits(lim, r)
  {
    assert AllFit(lim, records + [r]) ==> RecordFits(lim, (records + [r])[|records|]);
    if AllFit(lim, records + [r]) {
      assert forall k :: 0 <= k < |records| ==> records[k] == (records + [r])[k];
    }
  }

  /** Ending a field or a record keeps what the limits demand, and demands nothing new. */
  lemma {:induction false} SeparateFits(lim: Limits, d: Decoder, b: Byte)
    requires d.mode != QuotedCR && Separate(d, b).mode != Failed
    ensures Fits(lim, Separate(d, b)) <==> Fits(lim, d) && (b == COMMA ==> |d.fields| + 2 <= MAX_RECORD_FIELDS)
  {
    FitsSnoc(lim, d.fields, d.field);
    AllFitSnoc(lim, d.records, Record(d.fields + [d.field], d.raw, d.carriage));
  }

  /** One byte: the guard refuses exactly when the decoder passes a limit, and
      otherwise counts on. */
  ghost predicate Tracks(lim: Limits, d: Decoder, g: Guard, b: Byte) {
    && (Consume(lim, g, b).Some? <==> Fits(lim, Step(d, b)))
    && (Consume(lim, g, b).Some? ==> Counts(Step(d, b), Consume(lim, g, b).value))
  }

  lemma {:induction false} TracksOutside(lim: Limits, d: Decoder, g: Guard, b: Byte)
    requires Counts(d, g) && Fits(lim, d) && (d.mode == FieldStart || d.mode == Plain) && Step(d, b).mode != Failed
    ensures Tracks(lim, d, g, b)
  {
    var e := d.(raw := d.raw + 1);
    if b == COMMA || b == LF || b == CR {
      SeparateFits(lim, e, b);
    }
  }

  lemma {:induction false} TracksQuoted(lim: Limits, d: Decoder, g: Guard, b: Byte)
    requires Counts(d, g) && Fits(lim, d) && d.mode == Quoted
    ensures Tracks(lim, d, g, b)
  {
  }

  lemma {:induction false} TracksQuotedCR(lim: Limits, d: Decoder, g: Guard, b: Byte)
    requires Counts(d, g) && Fits(lim, d) && d.mode == QuotedCR
    ensures Tracks(lim, d, g, b)
  {
  }

  lemma {:induction false} TracksClosing(lim: Limits, d: Decoder, g: Guard, b: Byte)
    requires Counts(d, g) && Fits(lim, d) && d.mode == Closing && Step(d, b).mode != Failed
    ensures Tracks(lim, d, g, b)
  {
    if b != QUOTE {
      SeparateFits(lim, d.(raw := d.raw + 1), b);
    }
  }

  lemma {:induction false} TracksEnding(lim: Limits, d: Decoder, g: Guard, b: Byte)
    requires Counts(d, g) && Fits(lim, d) && d.mode == Ending && Step(d, b).mode != Failed
    ensures Tracks(lim, d, g, b)
  {
    SeparateFits(lim, d.(raw := d.raw + 1), LF);
  }

  lemma {:induction false} GuardTracks(lim: Limits, d: Decoder, g: Guard, b: Byte)
    requires Counts(d, g) && Fits(lim, d) && Step(d, b).mode != Failed
    ensures Tracks(lim, d, g, b)
  {
    match d.mode
    case FieldStart => TracksOutside(lim, d, g, b);
    case Plain => TracksOutside(lim, d, g, b);
    case Quoted => TracksQuoted(lim, d, g, b);
    case QuotedCR => TracksQuotedCR(lim, d, g, b);
    case Closing => TracksClosing(lim, d, g, b);
    case Ending => TracksEnding(lim, d, g, b);
    case Failed => assert false;
  }

  /** A limit once passed stays passed. */
  lemma {:induction false} FitsEarlier(lim: Limits, d: Decoder, b: Byte)
    requires Step(d, b).mode != Failed && Fits(lim, Step(d, b))
    ensures Fits(lim, d)
  {
    var e := d.(raw := d.raw + 1, carriage := d.carriage || d.mode == QuotedCR);
    if d.mode == Ending {
      SeparateFits(lim, e, LF);
      FewerFit(lim, d, e);
    } else if (d.mode == FieldStart || d.mode == Plain || d.mode == Closing) && (b == COMMA || b == LF || b == CR) {
      SeparateFits(lim, e, b);
      FewerFit(lim, d, e);
    }
  }

  lemma {:induction false} FewerFit(lim: Limits, d: Decoder, e: Decoder)
    requires e == d.(raw := e.raw, carriage := e.carriage) && d.raw <= e.raw && (d.carriage ==> e.carriage)
    requires Fits(lim, e)
    ensures Fits(lim, d)
  {
  }

  lemma {:induction false} FailedStays(d: Decoder, data: Data)
    requires d.mode == Failed
    ensures Decode(d, data).mode == Failed
    decreases |data|
  {
    if data != [] {
      FailedStays(Step(d, data[0]), data[1..]);
    }
  }

  lemma {:induction false} FitsThroughout(lim: Limits, d: Decoder, data: Data)
    requires Decode(d, data).mode != Failed && Fits(lim, Decode(d, data))
    ensures Fits(lim, d)
    decreases |data|
  {
    if data != [] {
      var next := Step(d, data[0]);
      if next.mode == Failed { FailedStays(next, data[1..]); }
      FitsThroughout(lim, next, data[1..]);
      FitsEarlier(lim, d, data[0]);
    }
  }

  /** On every input the decoder has not rejected, the guard goes on exactly while
      all limits are kept, and its counters are the decoder's sizes. */
  lemma {:induction false} GuardRefinesDecoder(lim: Limits, d: Decoder, g: Guard, data: Data)
    requires Counts(d, g) && Fits(lim, d) && Decode(d, data).mode != Failed
    ensures ConsumeAll(lim, g, data).Some? <==> Fits(lim, Decode(d, data))
    ensures ConsumeAll(lim, g, data).Some? ==> Counts(Decode(d, data), ConsumeAll(lim, g, data).value)
    decreases |data|
  {
    if data != [] {
      var next := Step(d, data[0]);
      if next.mode == Failed { FailedStays(next, data[1..]); }
      GuardTracks(lim, d, g, data[0]);
      var after := Consume(lim, g, data[0]);
      if after.Some? {
        GuardRefinesDecoder(lim, next, after.value, data[1..]);
      } else if Fits(lim, Decode(d, data)) {
        FitsThroughout(lim, next, data[1..]);
      }
    }
  }

  /** An accepted input passes the guard exactly when no decoded field, no record
      and no field count is above its limit and, where quoted CRs are refused,
      there is none. */
  lemma {:induction false} AcceptedExactlyWithinLimits(lim: Limits, data: Data)
    requires Records(data).Some?
    ensures ConsumeAll(lim, Initial, data).Some? <==> AllFit(lim, Records(data).value)
    ensures ConsumeAll(lim, Initial, data).Some? ==> !ConsumeAll(lim, Initial, data).value.pendingCR
  {
    AcceptedFromStart(lim, data, Begin, Initial);
  }

  lemma {:induction false} AcceptedFromStart(lim: Limits, data: Data, d: Decoder, g: Guard)
    requires d == Begin && g == Initial && Records(data).Some?
    ensures ConsumeAll(lim, Initial, data).Some? <==> AllFit(lim, Records(data).value)
    ensures ConsumeAll(lim, Initial, data).Some? ==> !ConsumeAll(lim, Initial, data).value.pendingCR
  {
    RecordsAreFinished(data, d);
    FitsFromStart(lim, data, d, g);
  }

  lemma {:induction false} RecordsAreFinished(data: Data, d: Decoder)
    requires d == Begin && Records(data).Some?
    ensures AtEnd(Decode(d, data)) && Records(data).value == Finished(Decode(d, data))
  {
  }

  lemma {:induction false} FitsFromStart(lim: Limits, data: Data, d: Decoder, g: Guard)
    requires d == Begin && g == Initial && AtEnd(Decode(d, data))
    ensures ConsumeAll(lim, g, data).Some? <==> AllFit(lim, Finished(Decode(d, data)))
    ensures ConsumeAll(lim, g, data).Some? ==> !ConsumeAll(lim, g, data).value.pendingCR
  {
    AtTheStart(lim, d, g);
    AcceptedFrom(lim, d, g, data);
  }

  lemma {:induction false} AtTheStart(lim: Limits, d: Decoder, g: Guard)
    requires d == Begin && g == Initial
    ensures Counts(d, g) && Fits(lim, d) && NothingHeld(d)
  {
  }

  lemma {:induction false} AcceptedFrom(lim: Limits, d: Decoder, g: Guard, data: Data)
    requires Counts(d, g) && Fits(lim, d) && NothingHeld(d) && AtEnd(Decode(d, data))
    ensures ConsumeAll(lim, g, data).Some? <==> AllFit(lim, Finished(Decode(d, data)))
    ensures ConsumeAll(lim, g, data).Some? ==> !ConsumeAll(lim, g, data).value.pendingCR
  {
    GuardRefinesDecoder(lim, d, g, data);
    NothingUnfinished(d, data);
    FinishedFits(lim, Decode(d, data));
  }

  lemma {:induction false} FinishedFits(lim: Limits, d: Decoder)
    requires AtEnd(d) && NothingHeld(d)
    ensures (Fits(lim, d)) <==> AllFit(lim, Finished(d))
  {
    FitsSnoc(lim, d.fields, d.field);
    AllFitSnoc(lim, d.records, Record(d.fields + [d.field], d.raw, d.carriage));
  }

  /** At the start of a record nothing is held back. */
  predicate NothingHeld(d: Decoder) {
    d.raw == 0 ==> d.fields == [] && d.field == [] && !d.carriage
  }

  lemma {:induction false} NothingUnfinished(d: Decoder, data: Data)
    requires NothingHeld(d)
    ensures NothingHeld(Decode(d, data))
    decreases |data|
  {
    if data != [] {
      NothingUnfinished(Step(d, data[0]), data[1..]);
    }
  }

  // ----- chunks -----

  lemma {:induction false} ConsumeConcat(lim: Limits, g: Guard, a: Data, b: Data)
    ensures ConsumeAll(lim, g, a + b)
         == if ConsumeAll(lim, g, a).None? then None else ConsumeAll(lim, ConsumeAll(lim, g, a).value, b)
    decreases |a|
  {
    if a == [] {
      assert a + b == b;
    } else {
      assert (a + b)[1..] == a[1..] + b;
      var next := Consume(lim, g, a[0]);
      if next.Some? { ConsumeConcat(lim, next.value, a[1..], b); }
    }
  }

  function ConsumeChunks(lim: Limits, g: Guard, chunks: seq<Data>): Option<Guard>
    decreases |chunks|
  {
    if chunks == [] then Some(g)
    else
      var next := ConsumeAll(lim, g, chunks[0]);
      if next.None? then None else ConsumeChunks(lim, next.value, chunks[1..])
  }

  function Joined(chunks: seq<Data>): Data {
    if chunks == [] then [] else chunks[0] + Joined(chunks[1..])
  }

  /** How the input is cut into reads makes no difference. */
  lemma {:induction false} ChunksDoNotMatter(lim: Limits, g: Guard, chunks: seq<Data>)
    ensures ConsumeChunks(lim, g, chunks) == ConsumeAll(lim, g, Joined(chunks))
    decreases |chunks|
  {
    if chunks != [] {
      ConsumeConcat(lim, g, chunks[0], Joined(chunks[1..]));
      var next := ConsumeAll(lim, g, chunks[0]);
      if next.Some? { ChunksDoNotMatter(lim, next.value, chunks[1..]); }
    }
  }

  /** However an accepted input is cut into reads, it passes exactly within the limits. */
  lemma {:induction false} AcceptedInAnyChunks(lim: Limits, chunks: seq<Data>)
    requires Records(Joined(chunks)).Some?
    ensures ConsumeChunks(lim, Initial, chunks).Some? <==> AllFit(lim, Records(Joined(chunks)).value)
  {
    ChunksDoNotMatter(lim, Initial, chunks);
    AcceptedExactlyWithinLimits(lim, Joined(chunks));
  }

  lemma {:induction false} ConsumeOneMore(lim: Limits, g: Guard, data: Data, k: nat)
    requires k < |data| && ConsumeAll(lim, g, data[..k]).Some?
    ensures ConsumeAll(lim, g, data[..k + 1]) == Consume(lim, ConsumeAll(lim, g, data[..k]).value, data[k])
  {
    assert data[..k + 1] == data[..k] + [data[k]];
    ConsumeConcat(lim, g, data[..k], [data[k]]);
    ConsumeSingle(lim, ConsumeAll(lim, g, data[..k]).value, data[k]);
  }

  lemma {:induction false} ConsumeSingle(lim: Limits, g: Guard, b: Byte)
    ensures ConsumeAll(lim, g, [b]) == Consume(lim, g, b)
  {
    assert [b][1..] == [];
  }

  lemma {:induction false} RefusedPrefix(lim: Limits, g: Guard, data: Data, k: nat)
    requires k <= |data| && ConsumeAll(lim, g, data[..k]).None?
    ensures ConsumeAll(lim, g, data).None?
  {
    assert data == data[..k] + data[k..];
    ConsumeConcat(lim, g, data[..k], data[k..]);
  }

  /** At the end of the input a held-back CR is one more byte. */
  function AtEof(lim: Limits, g: Guard): Option<Guard> {
    if !g.pendingCR then Some(g)
    else if g.inQuotes && lim.rejectQuotedCR then None
    else if g.fieldBytes + 1 > lim.maxField then None
    else Some(g.(pendingCR := false, fieldBytes := g.fieldBytes + 1))
  }

  function Started(g: Guard): Guard {
    if g.recordFields == 0 then g.(recordFields := 1) else g
  }

  class FieldLimitReader {
    const lim: Limits
    var fieldBytes: int
    var recordBytes: int
    var recordDecodedBytes: int
    var recordFields: int
    var inQuotes: bool
    var quotePending: bool
    var fieldStart: bool
    var pendingCR: bool

    function State(): Guard
      reads this
    {
      Guard(fieldBytes, recordBytes, recordDecodedBytes, recordFields, inQuotes, quotePending, fieldStart, pendingCR)
    }

    constructor (lim: Limits)
      ensures this.lim == lim && Started(State()) == Initial
    {
      this.lim := lim;
      fieldBytes, recordBytes, recordDecodedBytes, recordFields := 0, 0, 0, 0;
      inQuotes, quotePending, fieldStart, pendingCR := false, false, true, false;
    }

    method AddByte() returns (ok: bool)
      modifies this`fieldBytes, this`recordDecodedBytes
      ensures ok == Add(lim, old(State())).Some?
      ensures ok ==> State() == Add(lim, old(State())).value
    {
      fieldBytes := fieldBytes + 1;
      recordDecodedBytes := recordDecodedBytes + 1;
      return fieldBytes <= lim.maxField && recordDecodedBytes <= MAX_RECORD_BYTES;
    }

    method ConsumeByte(b: Byte) returns (ok: bool)
      modifies this
      ensures ok == Consume(lim, old(State()), b).Some?
      ensures ok ==> State() == Consume(lim, old(State()), b).value
    {
      recordBytes := recordBytes + 1;
      if recordBytes > MAX_RECORD_BYTES {
        return false;
      }
      if pendingCR {
        pendingCR := false;
        if b == LF {
          if inQuotes {
            if lim.rejectQuotedCR {
              return false;
            }
            ok := AddByte();
            return;
          }
          fieldBytes, fieldStart, recordBytes, recordDecodedBytes, recordFields := 0, true, 0, 0, 1;
          return true;
        }
        if inQuotes && lim.rejectQuotedCR {
          return false;
        }
        ok := AddByte();
        if !ok {
          return;
        }
      }
      ok := ConsumeOrdinary(b);
    }

    /** The byte itself, once a held-back CR is settled. */
    method ConsumeOrdinary(b: Byte) returns (ok: bool)
      modifies this
      ensures ok == Within(lim, old(State()), b).Some?
      ensures ok ==> State() == Within(lim, old(State()), b).value
    {
      if quotePending {
        quotePending := false;
        if b == QUOTE {
          ok := AddByte();
          return;
        }
        inQuotes := false;
      }
      if inQuotes {
        if b == CR {
          pendingCR := true;
          return true;
        }
        if b == QUOTE {
          quotePending := true;
          return true;
        }
        ok := AddByte();
        return;
      }
      if fieldStart && b == QUOTE {
        inQuotes, fieldStart := true, false;
        return true;
      }
      if b == COMMA || b == LF {
        if b == COMMA {
          recordFields := recordFields + 1;
          if recordFields > MAX_RECORD_FIELDS {
            return false;
          }
        }
        fieldBytes, fieldStart := 0, true;
        if b == LF {
          recordBytes, recordDecodedBytes, recordFields := 0, 0, 1;
        }
        return true;
      }
      if b == CR {
        pendingCR := true;
        return true;
      }
      fieldStart := false;
      ok := AddByte();
    }

    /** Consumes one chunk from the underlying reader; `n` is how far it got. */
    method Read(chunk: Data, eof: bool) returns (n: nat, ok: bool)
      modifies this
      ensures var r := ConsumeAll(lim, Started(old(State())), chunk);
              if r.None? then !ok
              else if eof then ok == AtEof(lim, r.value).Some? && (ok ==> State() == AtEof(lim, r.value).value)
              else ok && State() == r.value
      ensures ok ==> n == |chunk|
    {
      if recordFields == 0 {
        recordFields := 1;
      }
      ghost var start := State();
      for i := 0 to |chunk|
        invariant ConsumeAll(lim, start, chunk[..i]) == Some(State())
      {
        ConsumeOneMore(lim, start, chunk, i);
        ok := ConsumeByte(chunk[i]);
        if !ok {
          RefusedPrefix(lim, start, chunk, i + 1);
          return i, false;
        }
      }
      assert chunk[..|chunk|] == chunk;
      n := |chunk|;
      if eof && pendingCR {
        if inQuotes && lim.rejectQuotedCR {
          return n, false;
        }
        pendingCR := false;
        fieldBytes := fieldBytes + 1;
        if fieldBytes > lim.maxField {
          return n, false;
        }
      }
      return n, true;
    }
  }
}
