// Machine word limits and the little arithmetic several modules share.
module Numbers {

  const MAX_INT64: int := 0x7fff_ffff_ffff_ffff
  const TWO_64: nat := 0x1_0000_0000_0000_0000

  datatype Option<+T> = None | Some(value: T)

  function Max(a: int, b: int): int {
    if a < b then b else a
  }

  function Min(a: int, b: int): int {
    if a < b then a else b
  }

  lemma MulMonotone(a: nat, b: nat, c: nat)
    requires a <= b
    ensures a * c <= b * c
  {}

  lemma DivideMonotone(x: real, y: real, w: real)
    requires x <= y && w > 0.0
    ensures x / w <= y / w
  {}

  /** A mean lies between the bounds of what it averages. */
  lemma MeanBetween(sum: real, count: nat, low: real, high: real)
    requires count > 0 && low * count as real <= sum <= count as real * high
    ensures low <= sum / count as real <= high
  {
    var c := count as real;
    assert low == (low * c) / c && high == (c * high) / c;
    DivideMonotone(low * c, sum, c);
    DivideMonotone(sum, c * high, c);
  }
}
