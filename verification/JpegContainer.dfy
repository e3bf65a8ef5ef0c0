/** The JPEG validator, whose loop steps its offset back after entropy-coded data,
    against a generative grammar: start of image, marker segments and scans, end
    of image, nothing else (section B.1.1 of ITU-T T.81). */
module JpegContainer {
  import opened Bytes

  predicate IsRestart(m: Byte) {
    0xd0 <= m as int <= 0xd7
  }

  predicate IsStandalone(m: Byte) {
    m == 0x01 || IsRestart(m)
  }

  /** Bytes that follow 0xff inside entropy-coded data. */
  predicate IsStuffing(m: Byte) {
    m == 0x00 || IsRestart(m)
  }

  /** Markers that start a segment with a length, other than start of scan. */
  predicate IsSegmentMarker(m: Byte) {
    !IsStandalone(m) && m != 0x00 && m != 0xd8 && m != 0xd9 && m != 0xda && m != 0xff
  }

  // ----- the grammar -----

  /** Entropy-coded data: ordinary bytes, and 0xff runs that end in a stuffed zero or a restart. */
  datatype Entropy = Plain(value: Byte) | Stuffed(fill: nat, marker: Byte)

  /** A marker may be preceded by any number of fill bytes; `fill` counts the 0xff bytes. */
  datatype Item =
    | Bare(fill: nat, marker: Byte)
    | Segment(fill: nat, marker: Byte, size: Data, body: Data)
    | Scan(fill: nat, size: Data, body: Data, coded: seq<Entropy>)

  ghost function Fill(n: nat): (d: Data)
    ensures |d| == n && forall i :: 0 <= i < n ==> d[i] == 0xff
  {
    if n == 0 then [] else Fill(n - 1) + [0xff]
  }

  ghost predicate EntropyOk(e: Entropy) {
    match e
    case Plain(b) => b != 0xff
    case Stuffed(fill, m) => fill >= 1 && (m == 0x00 || 0xd0 <= m as int <= 0xd7)
  }

  ghost function EntropyBytes(e: Entropy): Data {
    match e
    case Plain(b) => [b]
    case Stuffed(fill, m) => Fill(fill) + [m]
  }

  ghost predicate CodedOk(es: seq<Entropy>) {
    forall i :: 0 <= i < |es| ==> EntropyOk(es[i])
  }

  ghost function CodedBytes(es: seq<Entropy>): Data {
    if es == [] then [] else EntropyBytes(es[0]) + CodedBytes(es[1..])
  }

  ghost predicate PayloadOk(size: Data, body: Data) {
    |size| == 2 && size[0] as int * 256 + size[1] as int == |body| + 2
  }

  ghost predicate ItemOk(item: Item) {
    && item.fill >= 1
    && match item
       case Bare(_, m) => m == 0x01 || 0xd0 <= m as int <= 0xd7
       case Segment(_, m, size, body) =>
         m != 0x00 && m != 0x01 && m != 0xff && !(0xd0 <= m as int <= 0xda) && PayloadOk(size, body)
       case Scan(_, size, body, coded) => PayloadOk(size, body) && CodedOk(coded)
  }

  ghost function MarkerOf(item: Item): Byte {
    if item.Scan? then 0xda else item.marker
  }

  ghost function PayloadOf(item: Item): Data {
    if item.Bare? then [] else item.size + item.body
  }

  ghost function CodedOf(item: Item): seq<Entropy> {
    if item.Scan? then item.coded else []
  }

  ghost predicate ItemsOk(items: seq<Item>) {
    forall i :: 0 <= i < |items| ==> ItemOk(items[i])
  }

  /** The items' bytes, then the end-of-image marker after `fill` 0xff bytes. */
  ghost function ImageBytes(items: seq<Item>, fill: nat): Data {
    if items == [] then Fill(fill) + [0xd9]
    else (Fill(items[0].fill) + [MarkerOf(items[0])])
         + (PayloadOf(items[0]) + (CodedBytes(CodedOf(items[0])) + ImageBytes(items[1..], fill)))
  }

  ghost predicate IsJpeg(data: Data) {
    && |data| >= 2 && data[0] == 0xff && data[1] == 0xd8
    && exists items, fill: nat :: ItemsOk(items) && fill >= 1 && data[2..] == ImageBytes(items, fill)
  }

  // ----- what the loops accept -----

  /** The first offset that is not a fill byte. */
  ghost function FillEnd(data: Data, offset: nat): (end: nat)
    requires offset <= |data|
    ensures offset <= end <= |data|
    ensures forall i :: offset <= i < end ==> data[i] == 0xff
    ensures end < |data| ==> data[end] != 0xff
    decreases |data| - offset
  {
    if offset < |data| && data[offset] == 0xff then FillEnd(data, offset + 1) else offset
  }

  /** What one marker segment means for the outer loop. */
  datatype Turn = Reject | EndOfImage | Continue(next: nat) | EnterScan(next: nat)

  /** The marker segment at `offset`. */
  ghost function TurnAt(data: Data, offset: nat): (t: Turn)
    requires offset < |data|
    ensures t.Continue? || t.EnterScan? ==> offset < t.next <= |data|
  {
    var at := FillEnd(data, offset);
    if data[offset] != 0xff || at >= |data| then Reject
    else
      var marker, next := data[at], at + 1;
      if marker == 0xd9 then (if next == |data| then EndOfImage else Reject)
      else if marker == 0xd8 || marker == 0x00 then Reject
      else if IsStandalone(marker) then Continue(next)
      else if next + 2 > |data| then Reject
      else
        var length := U16BE(data[next], data[next + 1]);
        if length < 2 || length > |data| - next then Reject
        else if marker == 0xda then EnterScan(next + length)
        else Continue(next + length)
  }

  ghost predicate JpegRest(data: Data, offset: nat)
    decreases |data| - offset, 0
  {
    && offset < |data|
    && match TurnAt(data, offset)
       case Reject => false
       case EndOfImage => true
       case Continue(next) => JpegRest(data, next)
       case EnterScan(next) => ScanRest(data, next)
  }

  ghost predicate ScanRest(data: Data, offset: nat)
    decreases |data| - offset, 1
  {
    && offset < |data|
    && if data[offset] != 0xff then ScanRest(data, offset + 1)
       else
         var at := FillEnd(data, offset);
         && at < |data|
         && if IsStuffing(data[at]) then ScanRest(data, at + 1) else JpegRest(data, offset)
  }

  ghost predicate JpegAccepted(data: Data) {
    |data| >= 4 && data[0] == 0xff && data[1] == 0xd8 && JpegRest(data, 2)
  }

  method ValidateJpeg(data: Data) returns (ok: bool)
    ensures ok == JpegAccepted(data)
  {
    if |data| < 4 || data[0] != 0xff || data[1] != 0xd8 {
      return false;
    }
    ghost var accepted := JpegRest(data, 2);
    var offset := 2;
    while offset < |data|
      invariant 2 <= offset <= |data|
      invariant accepted == JpegRest(data, offset)
      decreases |data| - offset
    {
      var turn := ReadSegment(data, offset);
      match turn {
        case Reject => return false;
        case EndOfImage => return true;
        case Continue(next) => offset := next;
        case EnterScan(next) =>
          var found;
          offset, found := SkipScan(data, next);
          if !found {
            return false;
          }
      }
    }
    return false;
  }

  /** The first half of the outer loop's body: fill bytes, marker, length. */
  method ReadSegment(data: Data, start: nat) returns (turn: Turn)
    requires start < |data|
    ensures turn == TurnAt(data, start)
  {
    if data[start] != 0xff {
      return Reject;
    }
    var offset := SkipFill(data, start);
    if offset >= |data| {
      return Reject;
    }
    var marker := data[offset];
    offset := offset + 1;
    if marker == 0xd9 {
      return if offset != |data| then Reject else EndOfImage;
    }
    if marker == 0xd8 || marker == 0x00 {
      return Reject;
    }
    if marker == 0x01 || (0xd0 <= marker as int <= 0xd7) {
      return Continue(offset);
    }
    if offset + 2 > |data| {
      return Reject;
    }
    var length := U16BE(data[offset], data[offset + 1]);
    if length < 2 || length > |data| - offset {
      return Reject;
    }
    offset := offset + length;
    return if marker != 0xda then Continue(offset) else EnterScan(offset);
  }

  /** The inner loop over entropy-coded data: it stops at the next marker that is
      not part of the data and steps back to where that marker's fill began. */
  method SkipScan(data: Data, start: nat) returns (offset: nat, found: bool)
    requires start <= |data|
    ensures found ==> start <= offset < |data| && ScanRest(data, start) == JpegRest(data, offset)
    ensures !found ==> !ScanRest(data, start)
  {
    ghost var accepted := ScanRest(data, start);
    offset := start;
    while offset < |data|
      invariant start <= offset <= |data|
      invariant accepted == ScanRest(data, offset)
      decreases |data| - offset
    {
      if data[offset] != 0xff {
        offset := offset + 1;
        continue;
      }
      var markerStart := offset;
      offset := SkipFill(data, offset);
      if offset >= |data| {
        return offset, false;
      }
      var scanMarker := data[offset];
      offset := offset + 1;
      if scanMarker == 0x00 || (0xd0 <= scanMarker as int <= 0xd7) {
        continue;
      }
      return markerStart, true;
    }
    return offset, false;
  }

  method SkipFill(data: Data, start: nat) returns (offset: nat)
    requires start <= |data|
    ensures offset == FillEnd(data, start)
  {
    offset := start;
    while offset < |data| && data[offset] == 0xff
      invariant start <= offset <= |data|
      invariant FillEnd(data, offset) == FillEnd(data, start)
    {
      offset := offset + 1;
    }
  }

  // ----- from accepted bytes to the grammar -----

  lemma {:induction false} FillRun(data: Data, offset: nat)
    requires offset <= |data| && FillEnd(data, offset) < |data|
    ensures var at := FillEnd(data, offset);
            data[offset..at + 1] == Fill(at - offset) + [data[at]]
  {
  }

  lemma {:induction false} ScanStep(data: Data, offset: nat) returns (e: Entropy, next: nat)
    requires ScanRest(data, offset)
    requires data[offset] != 0xff || IsStuffing(data[FillEnd(data, offset)])
    ensures offset < next <= |data| && ScanRest(data, next)
    ensures EntropyOk(e) && data[offset..next] == EntropyBytes(e)
  {
    var at := FillEnd(data, offset);
    if data[offset] != 0xff {
      e, next := Plain(data[offset]), offset + 1;
    } else {
      e, next := Stuffed(at - offset, data[at]), at + 1;
      assert at != offset;
      FillRun(data, offset);
    }
  }

  lemma {:induction false} ScanParse(data: Data, offset: nat) returns (es: seq<Entropy>, end: nat)
    requires ScanRest(data, offset)
    ensures offset <= end <= |data| && JpegRest(data, end)
    ensures CodedOk(es) && data[offset..end] == CodedBytes(es)
    decreases |data| - offset
  {
    if data[offset] == 0xff && !IsStuffing(data[FillEnd(data, offset)]) {
      es, end := [], offset;
    } else {
      var e, next := ScanStep(data, offset);
      es, end := ScanParse(data, next);
      Glue(data, offset, next, end);
      CodedCons(e, es);
      es := [e] + es;
    }
  }

  lemma {:induction false} CodedCons(e: Entropy, es: seq<Entropy>)
    requires EntropyOk(e) && CodedOk(es)
    ensures CodedOk([e] + es) && CodedBytes([e] + es) == EntropyBytes(e) + CodedBytes(es)
  {
    assert ([e] + es)[1..] == es;
  }

  /** An item read at `offset`: its head up to `next`, payload up to `mid`, coded data up to `end`. */
  ghost predicate ItemAt(data: Data, offset: nat, item: Item, next: nat, mid: nat, end: nat) {
    && ItemOk(item) && offset < next <= mid <= end <= |data|
    && data[offset..next] == Fill(item.fill) + [MarkerOf(item)]
    && data[next..mid] == PayloadOf(item)
    && data[mid..end] == CodedBytes(CodedOf(item))
  }

  lemma {:induction false} PayloadAt(data: Data, next: nat)
    requires next + 2 <= |data| && 2 <= U16BE(data[next], data[next + 1]) <= |data| - next
    ensures var mid := next + U16BE(data[next], data[next + 1]);
            && PayloadOk(data[next..next + 2], data[next + 2..mid])
            && data[next..mid] == data[next..next + 2] + data[next + 2..mid]
  {
  }

  lemma {:induction false} BareAt(data: Data, offset: nat, at: nat) returns (item: Item)
    requires offset < at < |data| && FillEnd(data, offset) == at && IsStandalone(data[at])
    ensures ItemAt(data, offset, item, at + 1, at + 1, at + 1)
  {
    FillRun(data, offset);
    item := Bare(at - offset, data[at]);
  }

  lemma {:induction false} SegmentAt(data: Data, offset: nat, at: nat, mid: nat, coded: seq<Entropy>, end: nat) returns (item: Item)
    requires offset < at && at + 3 <= |data| && FillEnd(data, offset) == at
    requires IsSegmentMarker(data[at]) || data[at] == 0xda
    requires 2 <= U16BE(data[at + 1], data[at + 2]) == mid - (at + 1) && mid <= end <= |data|
    requires CodedOk(coded) && data[mid..end] == CodedBytes(coded) && (data[at] != 0xda ==> coded == [])
    ensures ItemAt(data, offset, item, at + 1, mid, end)
  {
    FillRun(data, offset);
    PayloadAt(data, at + 1);
    var size, body := data[at + 1..at + 3], data[at + 3..mid];
    item := if data[at] == 0xda then Scan(at - offset, size, body, coded) else Segment(at - offset, data[at], size, body);
  }

  lemma {:induction false} ImageCons(item: Item, items: seq<Item>, fill: nat, data: Data, offset: nat, next: nat, mid: nat, end: nat)
    requires ItemAt(data, offset, item, next, mid, end)
    requires ItemsOk(items) && data[end..] == ImageBytes(items, fill)
    ensures ItemsOk([item] + items) && data[offset..] == ImageBytes([item] + items, fill)
  {
    assert ([item] + items)[1..] == items;
    GlueEnd(data, mid, end);
    GlueEnd(data, next, mid);
    GlueEnd(data, offset, next);
  }

  lemma {:induction false} BareCons(data: Data, offset: nat, at: nat, items: seq<Item>, fill: nat) returns (all: seq<Item>)
    requires offset < at < |data| && FillEnd(data, offset) == at && IsStandalone(data[at])
    requires ItemsOk(items) && data[at + 1..] == ImageBytes(items, fill)
    ensures ItemsOk(all) && data[offset..] == ImageBytes(all, fill)
  {
    var item := BareAt(data, offset, at);
    ImageCons(item, items, fill, data, offset, at + 1, at + 1, at + 1);
    all := [item] + items;
  }

  lemma {:induction false} SegmentCons(data: Data, offset: nat, at: nat, mid: nat, coded: seq<Entropy>, end: nat, items: seq<Item>, fill: nat)
    returns (all: seq<Item>)
    requires offset < at && at + 3 <= |data| && FillEnd(data, offset) == at
    requires IsSegmentMarker(data[at]) || data[at] == 0xda
    requires 2 <= U16BE(data[at + 1], data[at + 2]) == mid - (at + 1) && mid <= end <= |data|
    requires CodedOk(coded) && data[mid..end] == CodedBytes(coded) && (data[at] != 0xda ==> coded == [])
    requires ItemsOk(items) && data[end..] == ImageBytes(items, fill)
    ensures ItemsOk(all) && data[offset..] == ImageBytes(all, fill)
  {
    var item := SegmentAt(data, offset, at, mid, coded, end);
    ImageCons(item, items, fill, data, offset, at + 1, mid, end);
    all := [item] + items;
  }

  /** The marker, and where its length field says it ends. */
  lemma {:induction false} TurnFacts(data: Data, offset: nat)
    requires offset < |data| && (TurnAt(data, offset).Continue? || TurnAt(data, offset).EnterScan?)
    ensures var at, t := FillEnd(data, offset), TurnAt(data, offset);
      && offset < at < |data|
      && (t.EnterScan? <==> data[at] == 0xda)
      && (IsStandalone(data[at]) ==> t == Continue(at + 1))
      && (!IsStandalone(data[at]) ==>
            && (IsSegmentMarker(data[at]) || data[at] == 0xda)
            && at + 3 <= |data| && 2 <= U16BE(data[at + 1], data[at + 2]) == t.next - (at + 1))
  {
    assert FillEnd(data, offset) != offset;
  }

  lemma {:induction false} ParseEnd(data: Data, offset: nat)
    requires offset < |data| && TurnAt(data, offset) == EndOfImage
    ensures FillEnd(data, offset) > offset && data[offset..] == ImageBytes([], FillEnd(data, offset) - offset)
  {
    assert FillEnd(data, offset) != offset;
    FillRun(data, offset);
  }

  lemma {:induction false} ItemCons(data: Data, offset: nat, coded: seq<Entropy>, end: nat, items: seq<Item>, fill: nat) returns (all: seq<Item>)
    requires offset < |data| && (TurnAt(data, offset).Continue? || TurnAt(data, offset).EnterScan?)
    requires TurnAt(data, offset).next <= end <= |data|
    requires CodedOk(coded) && data[TurnAt(data, offset).next..end] == CodedBytes(coded)
    requires TurnAt(data, offset).Continue? ==> coded == [] && end == TurnAt(data, offset).next
    requires ItemsOk(items) && data[end..] == ImageBytes(items, fill)
    ensures ItemsOk(all) && data[offset..] == ImageBytes(all, fill)
  {
    var at, t := FillEnd(data, offset), TurnAt(data, offset);
    TurnFacts(data, offset);
    if IsStandalone(data[at]) {
      all := BareCons(data, offset, at, items, fill);
    } else {
      all := SegmentCons(data, offset, at, t.next, coded, end, items, fill);
    }
  }

  lemma {:induction false} JpegParse(data: Data, offset: nat) returns (items: seq<Item>, fill: nat)
    requires JpegRest(data, offset)
    ensures ItemsOk(items) && fill >= 1 && data[offset..] == ImageBytes(items, fill)
    decreases |data| - offset
  {
    match TurnAt(data, offset)
    case EndOfImage =>
      ParseEnd(data, offset);
      items, fill := [], FillEnd(data, offset) - offset;
    case Continue(next) =>
      items, fill := JpegParse(data, next);
      items := ItemCons(data, offset, [], next, items, fill);
    case EnterScan(mid) =>
      var coded, end := ScanParse(data, mid);
      items, fill := JpegParse(data, end);
      items := ItemCons(data, offset, coded, end, items, fill);
  }

  // ----- from the grammar to accepted bytes -----

  lemma {:induction false} FillThenMarker(data: Data, offset: nat, fill: nat, marker: Byte, rest: Data)
    requires offset <= |data| && fill >= 1 && marker != 0xff
    requires data[offset..] == (Fill(fill) + [marker]) + rest
    ensures offset + fill < |data| && data[offset] == 0xff
    ensures FillEnd(data, offset) == offset + fill && data[offset + fill] == marker
    ensures data[offset + fill + 1..] == rest
  {
    var part := Fill(fill) + [marker];
    StandsAt(data, offset, part, rest);
    assert data[offset + 0] == part[0];
    assert data[offset + fill] == part[fill];
    forall i | offset <= i < offset + fill ensures data[i] == 0xff {
      assert data[offset + (i - offset)] == part[i - offset];
    }
  }

  /** Restart markers after a scan may be read as part of the scan: the language is the same. */
  lemma {:induction false} RestIsScan(data: Data, offset: nat)
    requires JpegRest(data, offset)
    ensures ScanRest(data, offset)
    decreases |data| - offset
  {
    var at := FillEnd(data, offset);
    if IsStuffing(data[at]) {
      RestIsScan(data, at + 1);
    }
  }

  lemma {:induction false} EntropyAccepts(data: Data, offset: nat, e: Entropy, next: nat)
    requires offset <= next <= |data| && EntropyOk(e) && data[offset..next] == EntropyBytes(e)
    ensures ScanRest(data, next) ==> ScanRest(data, offset)
  {
    var head := EntropyBytes(e);
    Glue(data, offset, next, |data|);
    assert data[offset..|data|] == data[offset..] && data[next..|data|] == data[next..];
    if e.Plain? {
      assert data[offset..next][0] == head[0];
    } else {
      FillThenMarker(data, offset, e.fill, e.marker, data[next..]);
    }
  }

  /** The elements of `es` tile `data` from `offset` to `end`. */
  ghost predicate Tiles(data: Data, offset: nat, es: seq<Entropy>, end: nat)
    decreases |es|
  {
    if es == [] then offset == end <= |data|
    else
      var next := offset + |EntropyBytes(es[0])|;
      next <= |data| && EntropyOk(es[0]) && data[offset..next] == EntropyBytes(es[0]) && Tiles(data, next, es[1..], end)
  }

  lemma {:induction false} CodedTiles(data: Data, offset: nat, es: seq<Entropy>, end: nat)
    requires offset <= end <= |data| && CodedOk(es) && data[offset..end] == CodedBytes(es)
    ensures Tiles(data, offset, es, end)
    decreases |es|
  {
    if es != [] {
      assert EntropyOk(es[0]);
      var next := offset + |EntropyBytes(es[0])|;
      Glue(data, offset, next, end);
      SplitConcat(data[offset..next], data[next..end], EntropyBytes(es[0]), CodedBytes(es[1..]));
      CodedTiles(data, next, es[1..], end);
    }
  }

  lemma {:induction false} SplitConcat(a: Data, b: Data, c: Data, d: Data)
    requires a + b == c + d && |a| == |c|
    ensures a == c && b == d
  {
    assert a == (a + b)[..|a|] && b == (a + b)[|a|..];
  }

  lemma {:induction false} CodedAccepts(data: Data, offset: nat, es: seq<Entropy>, end: nat)
    requires Tiles(data, offset, es, end)
    requires JpegRest(data, end)
    ensures ScanRest(data, offset)
    decreases |es|
  {
    if es == [] {
      RestIsScan(data, offset);
    } else {
      var next := offset + |EntropyBytes(es[0])|;
      CodedAccepts(data, next, es[1..], end);
      EntropyAccepts(data, offset, es[0], next);
    }
  }

  lemma {:induction false} RestFromHead(data: Data, offset: nat, at: nat, mid: nat)
    requires offset < at < |data| && data[offset] == 0xff && FillEnd(data, offset) == at
    requires IsStandalone(data[at]) || IsSegmentMarker(data[at]) || data[at] == 0xda
    requires IsStandalone(data[at]) ==> mid == at + 1
    requires !IsStandalone(data[at]) ==> at + 3 <= mid <= |data| && U16BE(data[at + 1], data[at + 2]) == mid - (at + 1)
    ensures if data[at] == 0xda then ScanRest(data, mid) ==> JpegRest(data, offset)
            else JpegRest(data, mid) ==> JpegRest(data, offset)
  {
  }

  /** One item in front of accepted bytes is accepted: first its head, then its payload, then its coded data. */
  lemma {:induction false} ItemAccepts(data: Data, offset: nat, item: Item, tail: Data) returns (end: nat)
    requires offset <= |data| && ItemOk(item)
    requires data[offset..] == (Fill(item.fill) + [MarkerOf(item)]) + (PayloadOf(item) + (CodedBytes(CodedOf(item)) + tail))
    ensures offset < end <= |data| && data[end..] == tail
    ensures (JpegRest(data, end) ==> JpegRest(data, offset))
  {
    FillThenMarker(data, offset, item.fill, MarkerOf(item), PayloadOf(item) + (CodedBytes(CodedOf(item)) + tail));
    end := PayloadAccepts(data, offset, offset + item.fill, item, CodedBytes(CodedOf(item)) + tail, tail);
  }

  lemma {:induction false} PayloadAccepts(data: Data, offset: nat, at: nat, item: Item, rest: Data, tail: Data) returns (end: nat)
    requires offset < at < |data| && data[offset] == 0xff && FillEnd(data, offset) == at
    requires ItemOk(item) && data[at] == MarkerOf(item) && rest == CodedBytes(CodedOf(item)) + tail
    requires data[at + 1..] == PayloadOf(item) + rest
    ensures offset < end <= |data| && data[end..] == tail
    ensures (JpegRest(data, end) ==> JpegRest(data, offset))
  {
    var payload := PayloadOf(item);
    StandsAt(data, at + 1, payload, rest);
    var mid := at + 1 + |payload|;
    if !item.Bare? {
      assert data[at + 1 + 0] == payload[0] && data[at + 1 + 1] == payload[1];
    }
    RestFromHead(data, offset, at, mid);
    end := CodedItemAccepts(data, offset, mid, item.Scan?, CodedOf(item), tail);
  }

  lemma {:induction false} CodedItemAccepts(data: Data, offset: nat, mid: nat, isScan: bool, coded: seq<Entropy>, tail: Data) returns (end: nat)
    requires offset < mid <= |data| && CodedOk(coded) && data[mid..] == CodedBytes(coded) + tail
    requires isScan ==> (ScanRest(data, mid) ==> JpegRest(data, offset))
    requires !isScan ==> coded == [] && (JpegRest(data, mid) ==> JpegRest(data, offset))
    ensures mid <= end <= |data| && data[end..] == tail
    ensures (JpegRest(data, end) ==> JpegRest(data, offset))
  {
    StandsAt(data, mid, CodedBytes(coded), tail);
    end := mid + |CodedBytes(coded)|;
    if isScan && JpegRest(data, end) {
      assert data[mid..end] == CodedBytes(coded);
      CodedTiles(data, mid, coded, end);
      CodedAccepts(data, mid, coded, end);
    }
  }

  lemma {:induction false} JpegAccepts(data: Data, offset: nat, items: seq<Item>, fill: nat)
    requires offset <= |data| && ItemsOk(items) && fill >= 1 && data[offset..] == ImageBytes(items, fill)
    ensures JpegRest(data, offset)
    decreases |items|
  {
    if items == [] {
      assert data[offset..] == (Fill(fill) + [0xd9]) + [];
      FillThenMarker(data, offset, fill, 0xd9, []);
    } else {
      assert ItemOk(items[0]);
      var end := ItemAccepts(data, offset, items[0], ImageBytes(items[1..], fill));
      JpegAccepts(data, end, items[1..], fill);
    }
  }

  /** The JPEG validator accepts exactly the grammar. */
  lemma {:induction false} JpegAcceptedIsJpeg(data: Data)
    ensures JpegAccepted(data) <==> IsJpeg(data)
  {
    if JpegAccepted(data) {
      var items, fill := JpegParse(data, 2);
    }
    if IsJpeg(data) {
      var items, fill: nat :| ItemsOk(items) && fill >= 1 && data[2..] == ImageBytes(items, fill);
      JpegAccepts(data, 2, items, fill);
    }
  }
}
