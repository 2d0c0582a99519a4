/** Rounding up to a multiple of an alignment. */
module Alignments {

  function AlignUp(value: int, alignment: int): (r: int)
    requires alignment > 0
    ensures value <= r < value + alignment && r % alignment == 0
  {
    var q := (value + (alignment - 1)) / alignment;
    MultipleHasNoRemainder(q, alignment);
    QuotientBounds(value + (alignment - 1), alignment);
    q * alignment
  }

  lemma MultipleHasNoRemainder(q: int, a: int)
    requires a > 0
    ensures (q * a) % a == 0
  {
    var d := (q * a) / a - q;
    QuotientBounds(q * a, a);
    assert q * a == (d + q) * a + (q * a) % a;
    assert d * a == -((q * a) % a);
    assert d >= 0 ==> d * a >= 0;
  }

  lemma QuotientBounds(x: int, a: int)
    requires a > 0
    ensures x / a * a == x - x % a && 0 <= x % a < a
  {
  }

  // ----- the mask that the program uses

  /** The bits of `value` that are not set in `mask`. */
  function AndNot(value: nat, mask: nat): (r: nat)
    ensures r <= value
  {
    if value == 0 then 0
    else 2 * AndNot(value / 2, mask / 2) + (if mask % 2 == 0 then value % 2 else 0)
  }

  function Power2(k: nat): (r: nat)
    ensures r > 0
  {
    if k == 0 then 1 else 2 * Power2(k - 1)
  }

  /** Masking out the bits below a power of two rounds down to a multiple of it. */
  lemma {:induction false} MaskRoundsDown(value: nat, k: nat)
    ensures AndNot(value, Power2(k) - 1) == value / Power2(k) * Power2(k)
  {
    if k == 0 {
      NoMask(value);
    } else {
      var a := Power2(k - 1);
      MaskRoundsDown(value / 2, k - 1);
      OneBit(value, a);
      HalfQuotient(value, a);
      Twice(value / 2 / a, a);
    }
  }

  lemma OneBit(value: nat, a: nat)
    requires a > 0
    ensures AndNot(value, 2 * a - 1) == 2 * AndNot(value / 2, a - 1)
  {
    HalfMask(a);
  }

  lemma Twice(q: int, a: int)
    ensures q * (2 * a) == 2 * (q * a)
  {
  }

  lemma {:induction false} NoMask(value: nat)
    ensures AndNot(value, 0) == value
  {
    if value > 0 {
      NoMask(value / 2);
    }
  }

  lemma HalfMask(a: nat)
    requires a > 0
    ensures (2 * a - 1) / 2 == a - 1 && (2 * a - 1) % 2 == 1
  {
  }

  lemma HalfQuotient(value: nat, a: nat)
    requires a > 0
    ensures value / 2 / a == value / (2 * a)
  {
    var q, r := value / 2 / a, value / 2 % a;
    QuotientBounds(value / 2, a);
    assert value == 2 * (q * a) + 2 * r + value % 2;
    assert 0 <= 2 * r + value % 2 < 2 * a;
    QuotientIs(value, 2 * a, q, 2 * r + value % 2);
  }

  lemma QuotientIs(value: int, a: int, q: int, r: int)
    requires a > 0 && value == q * a + r && 0 <= r < a
    ensures value / a == q
  {
    QuotientBounds(value, a);
    var d := value / a - q;
    assert d * a == r - value % a;
    SmallMultiple(d, a);
  }

  lemma SmallMultiple(d: int, a: int)
    requires -a < d * a < a
    ensures d == 0
  {
    assert d >= 1 ==> d * a == a + (d - 1) * a;
    assert d <= -1 ==> d * a == (d + 1) * a - a;
  }

  /** For powers of two the mask agrees with rounding up to a multiple. */
  lemma MaskAlignsUp(value: nat, k: nat)
    ensures var a := Power2(k); AndNot(value + a - 1, a - 1) == AlignUp(value, a)
  {
    MaskRoundsDown(value + Power2(k) - 1, k);
  }
}
