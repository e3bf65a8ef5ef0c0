/** The single-frame GIF validator against a generative grammar: header, optional
    colour table, extensions around exactly one image, one trailer byte last. */
module GifContainer {
  import opened Bytes

  const GIF87A: Data := [0x47, 0x49, 0x46, 0x38, 0x37, 0x61]
  const GIF89A: Data := [0x47, 0x49, 0x46, 0x38, 0x39, 0x61]

  function Pow2(n: nat): nat {
    if n == 0 then 1 else 2 * Pow2(n - 1)
  }

  /** Bit 7 announces a colour table of 3 * 2^(low three bits + 1) bytes. */
  function TableSize(packed: Byte): nat {
    if packed as int < 128 then 0 else 3 * Pow2(packed as int % 8 + 1)
  }

  /** The same by the low three bits. */
  function TableBytes(packed: Byte): nat {
    if packed as int >= 128 then [6, 12, 24, 48, 96, 192, 384, 768][packed as int % 8] else 0
  }

  lemma {:induction false} TableSizeIs(packed: Byte)
    ensures TableSize(packed) == TableBytes(packed)
  {
    assert Pow2(1) == 2 && Pow2(2) == 4 && Pow2(3) == 8 && Pow2(4) == 16;
    assert Pow2(5) == 32 && Pow2(6) == 64 && Pow2(7) == 128 && Pow2(8) == 256;
  }

  // ----- data sub-blocks -----

  ghost predicate SubBlocksOk(bs: seq<Data>) {
    forall i :: 0 <= i < |bs| ==> 1 <= |bs[i]| <= 255
  }

  /** Each sub-block after its length byte, and a zero length last. */
  ghost function SubBlocksBytes(bs: seq<Data>): Data
    requires SubBlocksOk(bs)
  {
    if bs == [] then [0] else [|bs[0]| as Byte] + bs[0] + SubBlocksBytes(bs[1..])
  }

  /** The offset after the terminator of the sub-blocks at `offset`, or -1. */
  ghost function SkipFrom(data: Data, offset: nat): (end: int)
    ensures end == -1 || offset < end <= |data|
    decreases |data| - offset
  {
    if offset >= |data| then -1
    else
      var n := data[offset] as int;
      if n == 0 then offset + 1
      else if n > |data| - (offset + 1) then -1
      else SkipFrom(data, offset + 1 + n)
  }

  method SkipSubBlocks(data: Data, start: nat) returns (end: int, ok: bool)
    ensures ok <==> SkipFrom(data, start) >= 0
    ensures ok ==> end == SkipFrom(data, start)
  {
    var offset := start;
    while offset < |data|
      invariant start <= offset
      invariant SkipFrom(data, offset) == SkipFrom(data, start)
    {
      var blockLength := data[offset] as int;
      offset := offset + 1;
      if blockLength == 0 {
        return offset, true;
      }
      if blockLength > |data| - offset {
        return 0, false;
      }
      offset := offset + blockLength;
    }
    return 0, false;
  }

  lemma {:induction false} SkipParse(data: Data, offset: nat) returns (bs: seq<Data>)
    requires SkipFrom(data, offset) >= 0
    ensures SubBlocksOk(bs) && data[offset..] == SubBlocksBytes(bs) + data[SkipFrom(data, offset)..]
    decreases |data| - offset
  {
    var n := data[offset] as int;
    if n == 0 {
      bs := [];
    } else {
      var next := offset + 1 + n;
      var rest := SkipParse(data, next);
      var b := data[offset + 1..next];
      bs := [b] + rest;
      assert bs[1..] == rest;
      assert SubBlocksBytes(bs) == [data[offset]] + b + SubBlocksBytes(rest);
      assert data[offset..] == ([data[offset]] + b) + data[next..];
    }
  }

  lemma {:induction false} SkipAccepts(data: Data, offset: nat, bs: seq<Data>, rest: Data)
    requires SubBlocksOk(bs) && offset <= |data| && data[offset..] == SubBlocksBytes(bs) + rest
    ensures SkipFrom(data, offset) >= 0 && data[SkipFrom(data, offset)..] == rest
    decreases |bs|
  {
    if bs == [] {
      StandsAt(data, offset, [0], rest);
      assert data[offset + 0] == 0;
    } else {
      var head := [|bs[0]| as Byte] + bs[0];
      assert data[offset..] == head + (SubBlocksBytes(bs[1..]) + rest);
      StandsAt(data, offset, head, SubBlocksBytes(bs[1..]) + rest);
      assert data[offset + 0] == head[0];
      SkipAccepts(data, offset + |head|, bs[1..], rest);
    }
  }

  // ----- blocks -----

  datatype Block =
    | Extension(introducer: Byte, extensionData: seq<Data>)
    | Image(place: Data, packed: Byte, table: Data, codeSize: Byte, imageData: seq<Data>)

  ghost predicate BlockOk(b: Block) {
    match b
    case Extension(_, bs) => SubBlocksOk(bs)
    case Image(place, packed, table, _, bs) => |place| == 8 && |table| == TableBytes(packed) && SubBlocksOk(bs)
  }

  ghost function BlockHead(b: Block): Data {
    match b
    case Extension(introducer, _) => [0x21, introducer]
    case Image(place, packed, table, codeSize, _) => [0x2c] + place + [packed] + table + [codeSize]
  }

  ghost function BlockData(b: Block): seq<Data> {
    if b.Extension? then b.extensionData else b.imageData
  }

  ghost predicate BlocksOk(bs: seq<Block>) {
    forall i :: 0 <= i < |bs| ==> BlockOk(bs[i]) && SubBlocksOk(BlockData(bs[i]))
  }

  ghost function BlocksBytes(bs: seq<Block>): Data
    requires BlocksOk(bs)
  {
    if bs == [] then [0x3b] else BlockHead(bs[0]) + (SubBlocksBytes(BlockData(bs[0])) + BlocksBytes(bs[1..]))
  }

  ghost function Images(bs: seq<Block>): nat {
    if bs == [] then 0 else (if bs[0].Image? then 1 else 0) + Images(bs[1..])
  }

  ghost predicate IsSingleFrameGif(data: Data) {
    && |data| >= 14
    && (Spells(data[..6], "GIF87a") || Spells(data[..6], "GIF89a"))
    && var start := 13 + TableBytes(data[10]);
    && start <= |data|
    && exists bs :: BlocksOk(bs) && Images(bs) == 1 && data[start..] == BlocksBytes(bs)
  }

  /** What the loop still has to accept at `offset`, having seen `frames` images. */
  ghost predicate GifRest(data: Data, offset: nat, frames: nat)
    decreases |data| - offset
  {
    && offset < |data|
    && match data[offset] as int
       case 0x3b => frames == 1 && offset + 1 == |data|
       case 0x21 =>
         && offset + 2 <= |data|
         && var end := SkipFrom(data, offset + 2);
         && end >= 0 && GifRest(data, end, frames)
       case 0x2c =>
         && frames == 0 && offset + 10 <= |data|
         && var table := offset + 10 + TableSize(data[offset + 9]);
         && table < |data|
         && var end := SkipFrom(data, table + 1);
         && end >= 0 && GifRest(data, end, 1)
       case _ => false
  }

  ghost predicate GifAccepted(data: Data) {
    && |data| >= 14
    && (data[..6] == GIF87A || data[..6] == GIF89A)
    && GifRest(data, 13 + TableSize(data[10]), 0)
  }

  method ValidateGif(data: Data) returns (accepted: bool)
    ensures accepted == GifAccepted(data)
  {
    if |data| < 14 || (data[..6] != GIF87A && data[..6] != GIF89A) {
      return false;
    }
    var offset := 13 + TableSize(data[10]);
    if offset > |data| {
      return false;
    }
    ghost var rest := GifRest(data, offset, 0);
    var frames := 0;
    while offset < |data|
      invariant 0 <= frames <= 1
      invariant rest == GifRest(data, offset, frames)
    {
      var tag := data[offset] as int;
      if tag == 0x3b {
        return frames == 1 && offset + 1 == |data|;
      } else if tag == 0x21 {
        if offset + 2 > |data| {
          return false;
        }
        var next, ok := SkipSubBlocks(data, offset + 2);
        if !ok {
          return false;
        }
        offset := next;
      } else if tag == 0x2c {
        if frames + 1 > 1 || offset + 10 > |data| {
          return false;
        }
        var body := offset + 10 + TableSize(data[offset + 9]);
        if body >= |data| {
          return false;
        }
        var next, ok := SkipSubBlocks(data, body + 1);
        if !ok {
          return false;
        }
        frames := frames + 1;
        offset := next;
      } else {
        return false;
      }
    }
    return false;
  }

  lemma {:induction false} BlocksCons(b: Block, bs: seq<Block>, data: Data, offset: nat, body: nat)
    requires BlockOk(b) && BlocksOk(bs) && offset <= body <= |data|
    requires data[offset..] == BlockHead(b) + data[body..]
    requires data[body..] == SubBlocksBytes(BlockData(b)) + BlocksBytes(bs)
    ensures BlocksOk([b] + bs) && data[offset..] == BlocksBytes([b] + bs)
    ensures Images([b] + bs) == (if b.Image? then 1 else 0) + Images(bs)
  {
    assert ([b] + bs)[1..] == bs;
  }

  lemma {:induction false} ImageHeadAt(data: Data, offset: nat, table: nat)
    requires offset + 10 <= table < |data|
    ensures data[offset] == 0x2c ==>
      data[offset..] == [0x2c] + data[offset + 1..offset + 9] + [data[offset + 9]] + data[offset + 10..table] + [data[table]] + data[table + 1..]
  {
    assert data[offset..] == [data[offset]] + data[offset + 1..offset + 9] + [data[offset + 9]] + data[offset + 10..table]
                             + [data[table]] + data[table + 1..];
  }

  lemma {:induction false} ImageHeadIndex(b: Block)
    requires BlockOk(b) && b.Image?
    ensures |BlockHead(b)| == 11 + TableSize(b.packed) && BlockHead(b)[0] == 0x2c && BlockHead(b)[9] == b.packed
  {
    TableSizeIs(b.packed);
  }

  lemma {:induction false} ExtensionAt(data: Data, offset: nat, parts: seq<Data>, rest: seq<Block>) returns (b: Block)
    requires offset + 2 <= |data| && data[offset] == 0x21 && SubBlocksOk(parts) && BlocksOk(rest)
    requires data[offset + 2..] == SubBlocksBytes(parts) + BlocksBytes(rest)
    ensures b.Extension? && BlocksOk([b] + rest) && data[offset..] == BlocksBytes([b] + rest)
    ensures Images([b] + rest) == Images(rest)
  {
    b := Extension(data[offset + 1], parts);
    GlueEnd(data, offset, offset + 2);
    BlocksCons(b, rest, data, offset, offset + 2);
  }

  lemma {:induction false} ImageAt(data: Data, offset: nat, parts: seq<Data>, rest: seq<Block>) returns (b: Block)
    requires offset + 10 <= |data| && data[offset] == 0x2c && SubBlocksOk(parts) && BlocksOk(rest)
    requires var table := offset + 10 + TableSize(data[offset + 9]);
             table < |data| && data[table + 1..] == SubBlocksBytes(parts) + BlocksBytes(rest)
    ensures b.Image? && BlocksOk([b] + rest) && data[offset..] == BlocksBytes([b] + rest)
    ensures Images([b] + rest) == Images(rest) + 1
  {
    var table := offset + 10 + TableSize(data[offset + 9]);
    b := Image(data[offset + 1..offset + 9], data[offset + 9], data[offset + 10..table], data[table], parts);
    ImageHeadAt(data, offset, table);
    TableSizeIs(data[offset + 9]);
    BlocksCons(b, rest, data, offset, table + 1);
  }

  lemma {:induction false} GifParse(data: Data, offset: nat, frames: nat) returns (bs: seq<Block>)
    requires GifRest(data, offset, frames) && frames <= 1
    ensures BlocksOk(bs) && Images(bs) + frames == 1 && data[offset..] == BlocksBytes(bs)
    decreases |data| - offset
  {
    var tag := data[offset] as int;
    if tag == 0x3b {
      bs := [];
    } else if tag == 0x21 {
      var parts := SkipParse(data, offset + 2);
      bs := GifParse(data, SkipFrom(data, offset + 2), frames);
      var b := ExtensionAt(data, offset, parts, bs);
      bs := [b] + bs;
    } else {
      var body := offset + 10 + TableSize(data[offset + 9]) + 1;
      var parts := SkipParse(data, body);
      bs := GifParse(data, SkipFrom(data, body), 1);
      var b := ImageAt(data, offset, parts, bs);
      bs := [b] + bs;
    }
  }

  lemma {:induction false} HeadAccepts(data: Data, offset: nat, b: Block, rest: Data) returns (body: nat)
    requires BlockOk(b) && SubBlocksOk(BlockData(b)) && offset <= |data|
    requires data[offset..] == BlockHead(b) + (SubBlocksBytes(BlockData(b)) + rest)
    ensures offset < body <= |data| && data[offset] == (if b.Image? then 0x2c else 0x21)
    ensures b.Extension? ==> body == offset + 2
    ensures b.Image? ==> body == offset + 11 + TableSize(b.packed) && data[offset + 9] == b.packed
    ensures SkipFrom(data, body) >= 0 && data[SkipFrom(data, body)..] == rest
  {
    var head := BlockHead(b);
    if b.Image? { ImageHeadIndex(b); }
    StandsAt(data, offset, head, SubBlocksBytes(BlockData(b)) + rest);
    body := offset + |head|;
    assert data[offset + 0] == head[0];
    SkipAccepts(data, body, BlockData(b), rest);
  }

  lemma {:induction false} RestExtension(data: Data, offset: nat, frames: nat)
    requires offset + 2 <= |data| && data[offset] == 0x21
    requires SkipFrom(data, offset + 2) >= 0 && GifRest(data, SkipFrom(data, offset + 2), frames)
    ensures GifRest(data, offset, frames)
  {
  }

  lemma {:induction false} RestImage(data: Data, offset: nat, body: nat, packed: Byte)
    requires offset + 11 <= body <= |data| && data[offset] == 0x2c && data[offset + 9] == packed
    requires body == offset + 11 + TableSize(packed)
    requires SkipFrom(data, body) >= 0 && GifRest(data, SkipFrom(data, body), 1)
    ensures GifRest(data, offset, 0)
  {
  }

  lemma {:induction false} GifAccepts(data: Data, offset: nat, frames: nat, bs: seq<Block>)
    requires offset <= |data| && BlocksOk(bs) && Images(bs) + frames == 1 && data[offset..] == BlocksBytes(bs)
    ensures GifRest(data, offset, frames)
    decreases |bs|
  {
    if bs == [] {
      assert data[offset..][0] == 0x3b && |data[offset..]| == 1;
    } else {
      assert BlockOk(bs[0]) && SubBlocksOk(BlockData(bs[0]));
      var body := HeadAccepts(data, offset, bs[0], BlocksBytes(bs[1..]));
      var end := SkipFrom(data, body);
      if bs[0].Image? {
        GifAccepts(data, end, 1, bs[1..]);
        RestImage(data, offset, body, bs[0].packed);
      } else {
        GifAccepts(data, end, frames, bs[1..]);
        RestExtension(data, offset, frames);
      }
    }
  }

  lemma {:induction false} HeadersAre(head: Data)
    ensures Spells(head, "GIF87a") <==> head == GIF87A
    ensures Spells(head, "GIF89a") <==> head == GIF89A
  {
    SpellsExactly(head, GIF87A, "GIF87a");
    SpellsExactly(head, GIF89A, "GIF89a");
  }

  /** The GIF validator accepts exactly the single-frame files of the grammar. */
  lemma {:induction false} GifAcceptedIsSingleFrame(data: Data)
    ensures GifAccepted(data) <==> IsSingleFrameGif(data)
  {
    if |data| >= 14 {
      TableSizeIs(data[10]);
      HeadersAre(data[..6]);
    }
    if GifAccepted(data) {
      var bs := GifParse(data, 13 + TableSize(data[10]), 0);
    }
    if IsSingleFrameGif(data) {
      var start := 13 + TableSize(data[10]);
      var bs :| BlocksOk(bs) && Images(bs) == 1 && data[start..] == BlocksBytes(bs);
      GifAccepts(data, start, 0, bs);
    }
  }
}
