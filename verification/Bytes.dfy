/** Bytes, the fixed-width integers stored in them, and facts about concatenation. */
module Bytes {

  newtype Byte = b: int | 0 <= b < 256

  type Data = seq<Byte>

  function U16BE(hi: Byte, lo: Byte): (n: nat)
    ensures n < 0x1_0000
  {
    hi as int * 0x100 + lo as int
  }

  /** The 32-bit number whose bytes, most significant first, are a, b, c, d. */
  function U32(a: Byte, b: Byte, c: Byte, d: Byte): (n: nat)
    ensures n < 0x1_0000_0000
  {
    a as int * 0x100_0000 + b as int * 0x1_0000 + c as int * 0x100 + d as int
  }

  /** `part` stands at `offset` of `data`, followed by `rest`. */
  lemma {:induction false} StandsAt(data: Data, offset: nat, part: Data, rest: Data)
    requires offset <= |data| && data[offset..] == part + rest
    ensures offset + |part| <= |data| && data[offset + |part|..] == rest
    ensures forall i :: 0 <= i < |part| ==> data[offset + i] == part[i]
  {
    forall i | 0 <= i < |part| ensures data[offset + i] == part[i] {
      assert data[offset..][i] == (part + rest)[i];
    }
    assert data[offset..][|part|..] == data[offset + |part|..];
  }

  lemma {:induction false} Glue(data: Data, a: nat, b: nat, c: nat)
    requires a <= b <= c <= |data|
    ensures data[a..c] == data[a..b] + data[b..c]
  {
  }

  lemma {:induction false} GlueEnd(data: Data, a: nat, b: nat)
    requires a <= b <= |data|
    ensures data[a..] == data[a..b] + data[b..]
  {
  }

  /** The bytes are the characters of the word. */
  ghost predicate Spells(text: Data, word: string) {
    |text| == |word| && forall k :: 0 <= k < |word| ==> text[k] as int == word[k] as int
  }

  lemma {:induction false} SpellsExactly(text: Data, name: Data, word: string)
    requires Spells(name, word)
    ensures Spells(text, word) <==> text == name
  {
    if Spells(text, word) {
      assert forall k :: 0 <= k < |word| ==> text[k] as int == name[k] as int;
    }
  }
}
