/** The PNG and WebP container validators, index-moving loops over the bytes,
    against generative grammars: an accepted file is exactly a concatenation of
    well-formed chunks with nothing left over. */
module ChunkedImages {
  import opened Bytes

  /** The four bytes at `offset` are `kind`. */
  predicate KindAt(data: Data, offset: nat, kind: Data)
    requires offset + 4 <= |data|
  {
    data[offset..offset + 4] == kind
  }

  function LengthBE(data: Data, offset: nat): nat
    requires offset + 4 <= |data|
  {
    U32(data[offset], data[offset + 1], data[offset + 2], data[offset + 3])
  }

  function LengthLE(data: Data, offset: nat): nat
    requires offset + 4 <= |data|
  {
    U32(data[offset + 3], data[offset + 2], data[offset + 1], data[offset])
  }

  /** `c` stands at `offset` of `data`. */
  ghost predicate Holds(data: Data, offset: nat, c: Data) {
    offset + |c| <= |data| && forall i :: 0 <= i < |c| ==> data[offset + i] == c[i]
  }

  lemma {:induction false} KindWithin(data: Data, offset: nat, c: Data, at: nat, kind: Data)
    requires Holds(data, offset, c) && at + 4 <= |c|
    ensures KindAt(data, offset + at, kind) == KindAt(c, at, kind)
  {
    var here, there := data[offset + at..offset + at + 4], c[at..at + 4];
    forall i | 0 <= i < 4 ensures here[i] == there[i] {
      assert data[offset + (at + i)] == c[at + i];
    }
    assert here == there;
  }

  lemma {:induction false} LengthWithin(data: Data, offset: nat, c: Data, at: nat)
    requires Holds(data, offset, c) && at + 4 <= |c|
    ensures LengthBE(data, offset + at) == LengthBE(c, at)
    ensures LengthLE(data, offset + at) == LengthLE(c, at)
  {
    assert data[offset + (at + 0)] == c[at + 0] && data[offset + (at + 1)] == c[at + 1];
    assert data[offset + (at + 2)] == c[at + 2] && data[offset + (at + 3)] == c[at + 3];
  }

  lemma {:induction false} SliceHolds(data: Data, offset: nat, next: nat)
    requires offset <= next <= |data|
    ensures Holds(data, offset, data[offset..next])
  {
  }

  // =====  PNG  =====

  const PNG_SIGNATURE: Data := [0x89, 0x50, 0x4e, 0x47, 0x0d, 0x0a, 0x1a, 0x0a]
  const IEND: Data := [0x49, 0x45, 0x4e, 0x44]

  /** A chunk: length, kind, as many bytes as the length says, checksum. */
  ghost predicate IsPngChunk(c: Data) {
    |c| >= 12 && |c| == 12 + ((c[0] as int * 256 + c[1] as int) * 256 + c[2] as int) * 256 + c[3] as int
  }

  ghost predicate IsPngEnd(c: Data) {
    IsPngChunk(c) && Spells(c[4..8], "IEND")
  }

  ghost predicate PngPartsOk(parts: seq<Data>) {
    forall i :: 0 <= i < |parts| ==> IsPngChunk(parts[i]) && !IsPngEnd(parts[i])
  }

  ghost function Tiled(parts: seq<Data>, last: Data): Data {
    if parts == [] then last else parts[0] + Tiled(parts[1..], last)
  }

  /** Chunks other than IEND, then an empty IEND chunk, then nothing. */
  ghost predicate IsPng(data: Data) {
    && |data| >= 8 && data[0] == 0x89 && Spells(data[1..8], "PNG\r\n\U{1A}\n")
    && exists parts, end :: PngPartsOk(parts) && IsPngEnd(end) && |end| == 12 && data[8..] == Tiled(parts, end)
  }

  /** What the loop still has to accept at `offset`. */
  ghost predicate PngRest(data: Data, offset: nat)
    decreases |data| - offset
  {
    && offset + 12 <= |data|
    && var n := LengthBE(data, offset);
    && var end := offset + 12 + n;
    && end <= |data|
    && if KindAt(data, offset + 4, IEND) then n == 0 && end == |data| else PngRest(data, end)
  }

  ghost predicate PngAccepted(data: Data) {
    |data| >= 8 && data[..8] == PNG_SIGNATURE && PngRest(data, 8)
  }

  method ValidatePng(data: Data) returns (ok: bool)
    ensures ok == PngAccepted(data)
  {
    if |data| < 8 || data[..8] != PNG_SIGNATURE {
      return false;
    }
    ghost var accepted := PngRest(data, 8);
    var offset := 8;
    while offset + 12 <= |data|
      invariant 8 <= offset <= |data|
      invariant accepted == PngRest(data, offset)
    {
      var length := LengthBE(data, offset);
      var end := offset + 12 + length;
      if end > |data| {
        return false;
      }
      var isEnd := KindAt(data, offset + 4, IEND);
      offset := end;
      if isEnd {
        return length == 0 && offset == |data|;
      }
    }
    return false;
  }

  /** Whether a chunk is the end, and where it ends, depends on its own bytes only. */
  lemma {:induction false} PngWithin(data: Data, offset: nat, c: Data)
    requires Holds(data, offset, c) && |c| >= 12
    ensures LengthBE(data, offset) == ((c[0] as int * 256 + c[1] as int) * 256 + c[2] as int) * 256 + c[3] as int
    ensures KindAt(data, offset + 4, IEND) <==> Spells(c[4..8], "IEND")
  {
    LengthWithin(data, offset, c, 0);
    KindWithin(data, offset, c, 4, IEND);
    SpellsExactly(c[4..8], IEND, "IEND");
  }

  lemma {:induction false} PngStep(data: Data, offset: nat, next: nat)
    requires offset + 12 <= next <= |data| && next == offset + 12 + LengthBE(data, offset)
    ensures (if KindAt(data, offset + 4, IEND) then LengthBE(data, offset) == 0 && next == |data| else PngRest(data, next))
            == PngRest(data, offset)
  {
  }

  /** One chunk in front of accepted bytes is accepted. */
  lemma {:induction false} PngChunkAccepts(data: Data, offset: nat, c: Data, tail: Data) returns (next: nat)
    requires offset <= |data| && IsPngChunk(c) && data[offset..] == c + tail
    ensures offset < next <= |data| && data[next..] == tail
    ensures !IsPngEnd(c) ==> (PngRest(data, next) ==> PngRest(data, offset))
    ensures IsPngEnd(c) && |c| == 12 && tail == [] ==> PngRest(data, offset)
  {
    StandsAt(data, offset, c, tail);
    PngWithin(data, offset, c);
    next := offset + |c|;
    PngStep(data, offset, next);
  }

  lemma {:induction false} PngParse(data: Data, offset: nat) returns (parts: seq<Data>, end: Data)
    requires PngRest(data, offset)
    ensures PngPartsOk(parts) && IsPngEnd(end) && |end| == 12 && data[offset..] == Tiled(parts, end)
    decreases |data| - offset
  {
    var next := offset + 12 + LengthBE(data, offset);
    var c := data[offset..next];
    SliceHolds(data, offset, next);
    PngWithin(data, offset, c);
    if KindAt(data, offset + 4, IEND) {
      parts, end := [], c;
    } else {
      parts, end := PngParse(data, next);
      GlueEnd(data, offset, next);
      assert ([c] + parts)[1..] == parts;
      parts := [c] + parts;
    }
  }

  lemma {:induction false} PngAccepts(data: Data, offset: nat, parts: seq<Data>, end: Data)
    requires offset <= |data| && PngPartsOk(parts) && IsPngEnd(end) && |end| == 12 && data[offset..] == Tiled(parts, end)
    ensures PngRest(data, offset)
    decreases |parts|
  {
    if parts == [] {
      assert end == end + [];
      var next := PngChunkAccepts(data, offset, end, []);
    } else {
      var next := PngChunkAccepts(data, offset, parts[0], Tiled(parts[1..], end));
      PngAccepts(data, next, parts[1..], end);
    }
  }

  lemma {:induction false} PngStartsExactly(data: Data)
    requires |data| >= 8
    ensures data[..8] == PNG_SIGNATURE <==> data[0] == 0x89 && Spells(data[1..8], "PNG\r\n\U{1A}\n")
  {
    SpellsExactly(data[1..8], PNG_SIGNATURE[1..], "PNG\r\n\U{1A}\n");
    assert data[..8] == [data[0]] + data[1..8] && PNG_SIGNATURE == [0x89] + PNG_SIGNATURE[1..];
  }

  /** The PNG validator accepts exactly the grammar. */
  lemma {:induction false} PngAcceptedIsPng(data: Data)
    ensures PngAccepted(data) <==> IsPng(data)
  {
    if |data| >= 8 { PngStartsExactly(data); }
    if PngAccepted(data) {
      var parts, end := PngParse(data, 8);
    }
    if IsPng(data) {
      var parts, end :| PngPartsOk(parts) && IsPngEnd(end) && |end| == 12 && data[8..] == Tiled(parts, end);
      PngAccepts(data, 8, parts, end);
    }
  }

  // =====  WebP  =====

  const RIFF: Data := [0x52, 0x49, 0x46, 0x46]
  const WEBP: Data := [0x57, 0x45, 0x42, 0x50]
  const ANIM: Data := [0x41, 0x4e, 0x49, 0x4d]
  const ANMF: Data := [0x41, 0x4e, 0x4d, 0x46]
  const VP8X: Data := [0x56, 0x50, 0x38, 0x58]

  /** Bit 1 of the first VP8X byte is the animation flag. */
  predicate HasAnimationFlag(b: Byte) {
    b as int / 2 % 2 == 1
  }

  /** The chunk at `offset`, whose body has `n` bytes, belongs to an animation. */
  predicate AnimatedAt(data: Data, offset: nat, n: nat)
    requires offset + 8 + n <= |data|
  {
    || KindAt(data, offset, ANIM) || KindAt(data, offset, ANMF)
    || (KindAt(data, offset, VP8X) && n >= 1 && HasAnimationFlag(data[offset + 8]))
  }

  /** A chunk: kind, length, as many bytes as the length says, one padding byte if that is odd. */
  ghost predicate IsStillChunk(c: Data) {
    && |c| >= 8
    && var n := c[4] as int + 256 * (c[5] as int + 256 * (c[6] as int + 256 * c[7] as int));
    && |c| == 8 + n + n % 2 && !IsAnimated(c, n)
  }

  /** By name, or an extended header whose first byte has the second lowest bit set. */
  ghost predicate IsAnimated(c: Data, n: nat)
    requires |c| >= 8 + n
  {
    || Spells(c[..4], "ANIM") || Spells(c[..4], "ANMF")
    || (Spells(c[..4], "VP8X") && n >= 1 && c[8] as int % 4 >= 2)
  }

  ghost predicate StillParts(parts: seq<Data>) {
    forall i :: 0 <= i < |parts| ==> IsStillChunk(parts[i])
  }

  /** The size field counts everything after itself, and still chunks tile the rest. */
  ghost predicate IsStillWebP(data: Data) {
    && |data| >= 20
    && Spells(data[..4], "RIFF") && Spells(data[8..12], "WEBP")
    && data[4] as int + 256 * (data[5] as int + 256 * (data[6] as int + 256 * data[7] as int)) + 8 == |data|
    && exists parts :: StillParts(parts) && data[12..] == Tiled(parts, [])
  }

  /** The offset after the chunk at `offset` and its padding, or -1 if the chunk is refused. */
  ghost function RiffNext(data: Data, offset: nat): (next: int)
    requires offset + 8 <= |data|
    ensures next == -1 || offset < next
  {
    var n := LengthLE(data, offset + 4);
    if offset + 8 + n > |data| || AnimatedAt(data, offset, n) then -1 else offset + 8 + n + n % 2
  }

  ghost predicate RiffRest(data: Data, offset: nat)
    decreases |data| - offset
  {
    offset == |data|
    || (offset + 8 <= |data| && RiffNext(data, offset) >= 0 && RiffRest(data, RiffNext(data, offset)))
  }

  ghost predicate WebPAccepted(data: Data) {
    && |data| >= 20
    && KindAt(data, 0, RIFF) && KindAt(data, 8, WEBP)
    && LengthLE(data, 4) + 8 == |data|
    && RiffRest(data, 12)
  }

  method ValidateWebP(data: Data) returns (ok: bool)
    ensures ok == WebPAccepted(data)
  {
    if |data| < 20 || !KindAt(data, 0, RIFF) || !KindAt(data, 8, WEBP) {
      return false;
    }
    if LengthLE(data, 4) + 8 != |data| {
      return false;
    }
    ghost var accepted := RiffRest(data, 12);
    var offset := 12;
    while offset + 8 <= |data|
      invariant 12 <= offset <= |data| + 1
      invariant accepted == RiffRest(data, offset)
    {
      var length := LengthLE(data, offset + 4);
      var end := offset + 8 + length;
      if end > |data| {
        return false;
      }
      if KindAt(data, offset, ANIM) || KindAt(data, offset, ANMF) {
        return false;
      }
      if KindAt(data, offset, VP8X) && length >= 1 && HasAnimationFlag(data[offset + 8]) {
        return false;
      }
      assert RiffNext(data, offset) == end + length % 2;
      offset := end;
      if length % 2 != 0 {
        offset := offset + 1;
      }
    }
    return offset == |data|;
  }

  /** Whether a chunk is still, and where it ends, depends on its own bytes only. */
  lemma {:induction false} RiffWithin(data: Data, offset: nat, c: Data)
    requires Holds(data, offset, c) && |c| >= 8
    ensures LengthLE(data, offset + 4) == LengthLE(c, 4)
    ensures 8 + LengthLE(c, 4) <= |c| ==> AnimatedAt(data, offset, LengthLE(c, 4)) == AnimatedAt(c, 0, LengthLE(c, 4))
  {
    LengthWithin(data, offset, c, 4);
    KindWithin(data, offset, c, 0, ANIM);
    KindWithin(data, offset, c, 0, ANMF);
    KindWithin(data, offset, c, 0, VP8X);
  }

  lemma {:induction false} RiffStep(data: Data, offset: nat, next: nat)
    requires offset + 8 <= |data| && RiffNext(data, offset) == next
    ensures (RiffRest(data, next) ==> RiffRest(data, offset))
  {
  }

  /** One chunk in front of accepted bytes is accepted. */
  lemma {:induction false} RiffChunkAccepts(data: Data, offset: nat, c: Data, tail: Data) returns (next: nat)
    requires offset <= |data| && IsStillChunk(c) && data[offset..] == c + tail
    ensures offset < next <= |data| && data[next..] == tail
    ensures (RiffRest(data, next) ==> RiffRest(data, offset))
  {
    StandsAt(data, offset, c, tail);
    RiffWithin(data, offset, c);
    next := offset + |c|;
    RiffStep(data, offset, next);
  }

  lemma {:induction false} RiffChunkAt(data: Data, offset: nat, next: nat)
    requires offset + 8 <= next <= |data| && RiffNext(data, offset) == next
    ensures IsStillChunk(data[offset..next])
  {
    SliceHolds(data, offset, next);
    RiffWithin(data, offset, data[offset..next]);
  }

  lemma {:induction false} RiffParse(data: Data, offset: nat) returns (parts: seq<Data>)
    requires offset <= |data| && RiffRest(data, offset)
    ensures StillParts(parts) && data[offset..] == Tiled(parts, [])
    decreases |data| - offset
  {
    if offset == |data| {
      parts := [];
    } else {
      var next := RiffNext(data, offset);
      RiffChunkAt(data, offset, next);
      parts := RiffParse(data, next);
      GlueEnd(data, offset, next);
      var c := data[offset..next];
      assert ([c] + parts)[1..] == parts;
      parts := [c] + parts;
    }
  }

  lemma {:induction false} RiffAccepts(data: Data, offset: nat, parts: seq<Data>)
    requires offset <= |data| && StillParts(parts) && data[offset..] == Tiled(parts, [])
    ensures RiffRest(data, offset)
    decreases |parts|
  {
    if parts != [] {
      var next := RiffChunkAccepts(data, offset, parts[0], Tiled(parts[1..], []));
      RiffAccepts(data, next, parts[1..]);
    }
  }

  /** The WebP validator accepts exactly the still files of the grammar. */
  lemma {:induction false} WebPAcceptedIsStillWebP(data: Data)
    ensures WebPAccepted(data) <==> IsStillWebP(data)
  {
    if |data| >= 20 {
      SpellsExactly(data[..4], RIFF, "RIFF");
      SpellsExactly(data[8..12], WEBP, "WEBP");
    }
    if WebPAccepted(data) {
      var parts := RiffParse(data, 12);
    }
    if IsStillWebP(data) {
      var parts :| StillParts(parts) && data[12..] == Tiled(parts, []);
      RiffAccepts(data, 12, parts);
    }
  }
}
