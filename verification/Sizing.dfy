/** Rounding sizes up to whole LVM extents, in 64-bit arithmetic. */
module Sizing {
  import opened LocalStorage

  const TWO_63: int := 0x8000_0000_0000_0000
  const TWO_64: int := 0x1_0000_0000_0000_0000
  const DEFAULT_EXTENT: int := 4194304

  predicate IsInt64(x: int) {
    -TWO_63 <= x < TWO_63
  }

  /** Two's complement wrap-around. */
  function Wrap64(x: int): int {
    (x + TWO_63) % TWO_64 - TWO_63
  }

  /** Division rounding towards zero. */
  function Quotient(a: int, b: int): int
    requires b > 0
  {
    if a >= 0 then a / b else -(-a / b)
  }

  function AlignSizeToExtent(size: int, extent: int): Result<int> {
    if extent <= 0 then Fail
    else Ok(Wrap64(Quotient(Wrap64(Wrap64(size + extent) - 1), extent) * extent))
  }

  function SafeExtentSize(extent: int): (r: int)
    ensures r > 0
    ensures r != extent ==> extent <= 0 && r == 4 * 1024 * 1024
  {
    if extent > 0 then extent else DEFAULT_EXTENT
  }

  /** What aligning is meant to return. */
  predicate IsLeastMultiple(a: int, size: int, extent: int)
    requires extent > 0
  {
    a % extent == 0 && size <= a < size + extent
  }

  /** The sum in the formula stays within an int64. */
  predicate Alignable(size: int, extent: int) {
    0 <= size && size + extent - 1 < TWO_63
  }

  lemma QuotientBounds(n: int, extent: int)
    requires extent > 0
    ensures var p := Quotient(n, extent) * extent;
            if n >= 0 then p <= n < p + extent else p - extent < n <= p <= 0
  {
    if n >= 0 {
      assert n == extent * (n / extent) + n % extent;
    } else {
      assert -n == extent * (-n / extent) + (-n) % extent;
      assert Quotient(n, extent) * extent == -((-n / extent) * extent);
    }
  }

  lemma Unwrapped(x: int)
    requires IsInt64(x)
    ensures Wrap64(x) == x
  {
  }

  lemma Overflown(x: int)
    requires TWO_63 <= x < TWO_63 + TWO_64
    ensures Wrap64(x) == x - TWO_64
  {
    assert (x + TWO_63) == TWO_64 + (x + TWO_63 - TWO_64);
  }

  /** The sum, and then the rounding down of what it wraps to. */
  lemma AlignedValue(size: int, extent: int)
    requires IsInt64(size) && IsInt64(extent) && extent > 0
    ensures var n := if size + extent - 1 < TWO_63 then size + extent - 1 else size + extent - 1 - TWO_64;
            AlignSizeToExtent(size, extent) == Ok(Quotient(n, extent) * extent)
  {
    var n := if size + extent - 1 < TWO_63 then size + extent - 1 else size + extent - 1 - TWO_64;
    if size + extent >= TWO_63 {
      Overflown(size + extent);
      if size + extent == TWO_63 {
        Underflown();
      } else {
        Unwrapped(size + extent - TWO_64 - 1);
      }
    } else {
      Unwrapped(size + extent);
      Unwrapped(size + extent - 1);
    }
    QuotientBounds(n, extent);
    Unwrapped(Quotient(n, extent) * extent);
  }

  lemma Underflown()
    ensures Wrap64(TWO_63 - TWO_64 - 1) == TWO_63 - 1
  {
  }

  lemma NonZeroMultiple(d: int, extent: int)
    requires extent > 0
    ensures d >= 1 ==> d * extent >= extent
    ensures d <= -1 ==> d * extent <= -extent
  {
  }

  lemma MultipleIsMultiple(q: int, extent: int)
    requires extent > 0
    ensures (q * extent) % extent == 0
  {
    var p := q * extent;
    assert p == extent * (p / extent) + p % extent;
    var d := q - p / extent;
    assert p % extent == d * extent by {
      assert q * extent - (p / extent) * extent == (q - p / extent) * extent;
    }
    NonZeroMultiple(d, extent);
  }

  lemma MultipleInRange(p: int, n: int, extent: int)
    requires extent > 0 && p % extent == 0 && n % extent == 0 && p - extent < n <= p
    ensures p == n
  {
    assert p == extent * (p / extent) && n == extent * (n / extent);
    var d := p / extent - n / extent;
    assert d * extent == p - n by {
      assert (p / extent) * extent - (n / extent) * extent == (p / extent - n / extent) * extent;
    }
    NonZeroMultiple(d, extent);
  }

  /** Aligning yields the least multiple of the extent not below the size exactly when the
      sum does not overflow and is not negative - or negative by a whole number of extents,
      where rounding towards zero and rounding down agree. */
  lemma AlignIsLeastMultiple(size: int, extent: int)
    requires IsInt64(size) && IsInt64(extent) && extent > 0
    ensures IsLeastMultiple(AlignSizeToExtent(size, extent).value, size, extent) <==>
              size + extent - 1 < TWO_63 && (size + extent - 1 >= 0 || (size - 1) % extent == 0)
  {
    AlignedValue(size, extent);
    var sum := size + extent - 1;
    var n := if sum < TWO_63 then sum else sum - TWO_64;
    QuotientBounds(n, extent);
    MultipleIsMultiple(Quotient(n, extent), extent);
    if n < 0 && sum < TWO_63 {
      var p := Quotient(n, extent) * extent;
      SameRemainder(size - 1, extent);
      if n % extent == 0 {
        MultipleInRange(p, n, extent);
      }
    }
  }

  lemma SameRemainder(x: int, extent: int)
    requires extent > 0
    ensures (x + extent) % extent == x % extent
  {
    var q, r := x / extent, x % extent;
    var q', r' := (x + extent) / extent, (x + extent) % extent;
    assert extent * q + r + extent == extent * q' + r';
    var d := q' - q - 1;
    assert r - r' == d * extent by {
      assert extent * q' - extent * q - extent == (q' - q - 1) * extent;
    }
    NonZeroMultiple(d, extent);
  }

  lemma AlignedIsLeastMultiple(size: int, extent: int)
    requires Alignable(size, extent) && IsInt64(extent) && extent > 0
    ensures AlignSizeToExtent(size, extent).Ok? && IsLeastMultiple(AlignSizeToExtent(size, extent).value, size, extent)
    ensures IsInt64(AlignSizeToExtent(size, extent).value) && AlignSizeToExtent(size, extent).value >= 0
  {
    AlignIsLeastMultiple(size, extent);
  }

  /** A request that overflows is aligned to nothing at all, which any check lets pass. */
  lemma OverflowAlignsToNothing(size: int, extent: int)
    requires IsInt64(size) && IsInt64(extent) && extent > 0 && size + extent - 1 >= TWO_63
    ensures AlignSizeToExtent(size, extent).value <= 0 < size
  {
    AlignedValue(size, extent);
    QuotientBounds(size + extent - 1 - TWO_64, extent);
  }

  /** Aligning is monotone. */
  lemma AlignIsMonotone(a: int, b: int, extent: int)
    requires a <= b && Alignable(a, extent) && Alignable(b, extent) && IsInt64(extent) && extent > 0
    ensures AlignSizeToExtent(a, extent).value <= AlignSizeToExtent(b, extent).value
  {
    AlignedIsLeastMultiple(a, extent);
    AlignedIsLeastMultiple(b, extent);
    var p, q := AlignSizeToExtent(a, extent).value, AlignSizeToExtent(b, extent).value;
    if q < p {
      assert q < a + extent - 1 && p - extent < a <= q;
      MultipleInRange(p, q, extent);
    }
  }

  /** Aligning twice is aligning once exactly when there is room to do so, which there
      always is for an extent that divides 2^63. */
  lemma AlignIsIdempotent(size: int, extent: int)
    requires Alignable(size, extent) && IsInt64(extent) && extent > 0
    ensures var a := AlignSizeToExtent(size, extent).value;
            (AlignSizeToExtent(a, extent) == Ok(a) <==> Alignable(a, extent)) && (TWO_63 % extent == 0 ==> Alignable(a, extent))
  {
    AlignedIsLeastMultiple(size, extent);
    var a := AlignSizeToExtent(size, extent).value;
    if Alignable(a, extent) {
      AlignedIsLeastMultiple(a, extent);
      MultipleInRange(AlignSizeToExtent(a, extent).value, a, extent);
    } else {
      OverflowAlignsToNothing(a, extent);
    }
    if TWO_63 % extent == 0 && !Alignable(a, extent) {
      MultipleInRange(TWO_63, a, extent);
    }
  }

  /** An extent of three bytes has no such room at the top. */
  lemma AlignTwiceCanOverflow()
    ensures var a := AlignSizeToExtent(TWO_63 - 4, 3).value;
            Alignable(TWO_63 - 4, 3) && AlignSizeToExtent(a, 3) != Ok(a)
  {
    AlignedIsLeastMultiple(TWO_63 - 4, 3);
    AlignIsIdempotent(TWO_63 - 4, 3);
  }
}
