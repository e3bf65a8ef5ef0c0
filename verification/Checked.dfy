/** Checked 64-bit arithmetic. */
module Checked {
  import opened Options

  const MIN_INT64: int := -0x8000_0000_0000_0000
  const MAX_INT64: int := 0x7fff_ffff_ffff_ffff

  predicate Fits(x: int) {
    MIN_INT64 <= x <= MAX_INT64
  }

  type Int64 = x: int | Fits(x)

  function CheckedAdd(a: Int64, b: Int64): (r: Option<Int64>)
    ensures r == if Fits(a + b) then Some(a + b) else None
  {
    if (b > 0 && a > MAX_INT64 - b) || (b < 0 && a < MIN_INT64 - b) then None
    else
      assert Fits(a) && Fits(b);
      var sum: Int64 := a + b;
      Some(sum)
  }

  function CheckedSub(a: Int64, b: Int64): (r: Option<Int64>)
    ensures r == if Fits(a - b) then Some(a - b) else None
  {
    if (b > 0 && a < MIN_INT64 + b) || (b < 0 && a > MAX_INT64 + b) then None
    else
      assert Fits(a) && Fits(b);
      var difference: Int64 := a - b;
      Some(difference)
  }
}
