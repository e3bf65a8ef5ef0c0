/** Length-prefixed field streams: what the digests are computed over. */
module FieldStreams {
  import opened Bytes

  /** The `k` low bytes of `n`, most significant first. */
  function BigEndian(n: nat, k: nat): (s: Data)
    ensures |s| == k
  {
    if k == 0 then [] else BigEndian(n / 256, k - 1) + [(n % 256) as Byte]
  }

  function FromBigEndian(s: Data): nat {
    if s == [] then 0 else FromBigEndian(s[..|s| - 1]) * 256 + s[|s| - 1] as int
  }

  function Power256(k: nat): nat {
    if k == 0 then 1 else 256 * Power256(k - 1)
  }

  lemma {:induction false} BigEndianBack(n: nat, k: nat)
    requires n < Power256(k)
    ensures FromBigEndian(BigEndian(n, k)) == n
    decreases k
  {
    if k > 0 {
      BigEndianBack(n / 256, k - 1);
      var s := BigEndian(n, k);
      assert s[..k - 1] == BigEndian(n / 256, k - 1);
    }
  }

  /** A length fits its eight-byte prefix. */
  predicate Prefixable(field: Data) {
    |field| < Power256(8)
  }

  ghost predicate AllPrefixable(fields: seq<Data>) {
    forall i :: 0 <= i < |fields| ==> Prefixable(fields[i])
  }

  function Prefixed(field: Data): Data {
    BigEndian(|field|, 8) + field
  }

  function Stream(fields: seq<Data>): Data {
    if fields == [] then [] else Prefixed(fields[0]) + Stream(fields[1..])
  }

  lemma {:induction false} StreamConcat(a: seq<Data>, b: seq<Data>)
    ensures Stream(a + b) == Stream(a) + Stream(b)
  {
    if a == [] {
      assert a + b == b;
    } else {
      assert (a + b)[1..] == a[1..] + b;
      StreamConcat(a[1..], b);
      assert Prefixed(a[0]) + (Stream(a[1..]) + Stream(b)) == Prefixed(a[0]) + Stream(a[1..]) + Stream(b);
    }
  }

  /** A prefixed field can be told apart from what follows it. */
  lemma {:induction false} PrefixedSplits(f: Data, g: Data, x: Data, y: Data)
    requires Prefixable(f) && Prefixable(g) && Prefixed(f) + x == Prefixed(g) + y
    ensures f == g && x == y
  {
    var s := Prefixed(f) + x;
    assert s[..8] == BigEndian(|f|, 8);
    assert (Prefixed(g) + y)[..8] == BigEndian(|g|, 8);
    BigEndianBack(|f|, 8);
    BigEndianBack(|g|, 8);
    assert s[8..8 + |f|] == f;
    assert (Prefixed(g) + y)[8..8 + |g|] == g;
    assert s[8 + |f|..] == x;
    assert (Prefixed(g) + y)[8 + |g|..] == y;
  }

  /** The stream determines the sequence of fields. */
  lemma {:induction false} StreamDetermines(a: seq<Data>, b: seq<Data>)
    requires AllPrefixable(a) && AllPrefixable(b) && Stream(a) == Stream(b)
    ensures a == b
    decreases |a|
  {
    assert b != [] ==> |Stream(b)| >= 8;
    assert a != [] ==> |Stream(a)| >= 8;
    if a != [] && b != [] {
      PrefixedSplits(a[0], b[0], Stream(a[1..]), Stream(b[1..]));
      StreamDetermines(a[1..], b[1..]);
      assert a == [a[0]] + a[1..] && b == [b[0]] + b[1..];
    }
  }

  /** A hash state, known by the bytes written to it. */
  class Digest {
    var written: Data

    constructor ()
      ensures written == []
    {
      written := [];
    }

    method WriteFields(fields: seq<Data>)
      modifies this
      ensures written == old(written) + Stream(fields)
    {
      ghost var start := written;
      assert start + Stream(fields[..0]) == start;
      for i := 0 to |fields|
        invariant written == start + Stream(fields[..i])
      {
        assert fields[..i + 1] == fields[..i] + [fields[i]];
        StreamConcat(fields[..i], [fields[i]]);
        OneField(fields[i]);
        assert start + Stream(fields[..i]) + Prefixed(fields[i]) == start + (Stream(fields[..i]) + Prefixed(fields[i]));
        written := written + BigEndian(|fields[i]|, 8);
        written := written + fields[i];
        assert written == start + Stream(fields[..i]) + Prefixed(fields[i]);
      }
      assert fields[..|fields|] == fields;
    }
  }

  lemma {:induction false} OneField(field: Data)
    ensures Stream([field]) == Prefixed(field)
  {
    assert [field][1..] == [];
    assert Prefixed(field) + [] == Prefixed(field);
  }

  // ----- fixed-width rows -----

  function Flatten(rows: seq<seq<Data>>): seq<Data> {
    if rows == [] then [] else rows[0] + Flatten(rows[1..])
  }

  ghost predicate Wide(rows: seq<seq<Data>>, width: nat) {
    forall i :: 0 <= i < |rows| ==> |rows[i]| == width
  }

  lemma {:induction false} FlattenConcat(a: seq<seq<Data>>, b: seq<seq<Data>>)
    ensures Flatten(a + b) == Flatten(a) + Flatten(b)
  {
    if a == [] {
      assert a + b == b;
    } else {
      assert (a + b)[1..] == a[1..] + b;
      FlattenConcat(a[1..], b);
      assert a[0] + (Flatten(a[1..]) + Flatten(b)) == a[0] + Flatten(a[1..]) + Flatten(b);
    }
  }

  /** Rows of one width can be told apart in the sequence of their fields. */
  lemma {:induction false} FlattenDetermines(a: seq<seq<Data>>, b: seq<seq<Data>>, width: nat)
    requires width > 0 && Wide(a, width) && Wide(b, width) && Flatten(a) == Flatten(b)
    ensures a == b
    decreases |a|
  {
    assert b != [] ==> |Flatten(b)| >= width;
    assert a != [] ==> |Flatten(a)| >= width;
    if a != [] && b != [] {
      assert a[0] == Flatten(a)[..width] && b[0] == Flatten(b)[..width];
      assert Flatten(a[1..]) == Flatten(a)[width..] && Flatten(b[1..]) == Flatten(b)[width..];
      FlattenDetermines(a[1..], b[1..], width);
      assert a == [a[0]] + a[1..] && b == [b[0]] + b[1..];
    }
  }

  ghost predicate RowsPrefixable(rows: seq<seq<Data>>) {
    forall i :: 0 <= i < |rows| ==> AllPrefixable(rows[i])
  }

  lemma {:induction false} FlattenPrefixable(rows: seq<seq<Data>>)
    requires RowsPrefixable(rows)
    ensures AllPrefixable(Flatten(rows))
  {
    if rows != [] { FlattenPrefixable(rows[1..]); }
  }

  /** The stream of fixed-width rows determines the rows, in their order. */
  lemma {:induction false} RowStreamDetermines(a: seq<seq<Data>>, b: seq<seq<Data>>, width: nat)
    requires width > 0 && Wide(a, width) && Wide(b, width) && RowsPrefixable(a) && RowsPrefixable(b)
    requires Stream(Flatten(a)) == Stream(Flatten(b))
    ensures a == b
  {
    FlattenPrefixable(a);
    FlattenPrefixable(b);
    StreamDetermines(Flatten(a), Flatten(b));
    FlattenDetermines(a, b, width);
  }
}
