/**
  LegacyDec amounts: integers scaled by 10^18. Multiplying by an int64 is exact and
  RoundInt rounds half to even, which is what the SDK's math library does.
 */
module Decimal {

  const ONE: int := 1_000_000_000_000_000_000
  const HALF: int := 500_000_000_000_000_000

  function RoundMagnitude(d: nat): (r: nat) {
    var q := d / ONE;
    var rest := d % ONE;
    if rest < HALF then q
    else if rest > HALF then q + 1
    else if q % 2 == 0 then q
    else q + 1
  }

  /** LegacyDec.RoundInt. */
  function RoundInt(d: int): (r: int) {
    if d < 0 then 0 - RoundMagnitude(-d) else RoundMagnitude(d)
  }

  function Distance(r: int, d: int): (x: nat) {
    if r * ONE >= d then r * ONE - d else d - r * ONE
  }

  /** The integer nearest to the decimal `d`; of two equally near ones the even one. */
  predicate Nearest(r: int, d: int) {
    2 * Distance(r, d) <= ONE && (2 * Distance(r, d) == ONE ==> r % 2 == 0)
  }

  /** There is exactly one such integer for every decimal, and RoundInt is it. */
  lemma RoundIsNearest(d: int)
    ensures forall r: int :: Nearest(r, d) <==> r == RoundInt(d)
  {
    assert Nearest(RoundInt(d), d);
    forall r: int | Nearest(r, d)
      ensures r == RoundInt(d)
    {
      OnlyOne(r, RoundInt(d), d);
    }
  }

  lemma OnlyOne(a: int, b: int, d: int)
    requires Nearest(a, d) && Nearest(b, d)
    ensures a == b
  {
  }

  /** A decimal rounds to a negative coin exactly below minus one half. */
  lemma RoundsBelowZero(d: int)
    ensures RoundInt(d) < 0 <==> d < -HALF
  {
  }

  lemma MagnitudeMonotone(a: nat, b: nat)
    requires a <= b
    ensures RoundMagnitude(a) <= RoundMagnitude(b)
  {
    if a / ONE < b / ONE {
      assert a / ONE + 1 <= b / ONE;
    }
  }

  /** A dearer amount never rounds to fewer coins. */
  lemma RoundMonotone(a: int, b: int)
    requires a <= b
    ensures RoundInt(a) <= RoundInt(b)
  {
    if a >= 0 {
      MagnitudeMonotone(a, b);
    } else if b < 0 {
      MagnitudeMonotone(-b, -a);
    }
  }

  lemma MulMonotone(x: int, y: int, n: nat)
    requires x <= y
    ensures n * x <= n * y
  {
    assert n * (y - x) >= 0;
  }

  lemma RoundedMulMonotone(n: nat, x: int, y: int)
    requires x <= y
    ensures RoundInt(n * x) <= RoundInt(n * y)
  {
    hide RoundInt;
    MulMonotone(x, y, n);
    RoundMonotone(n * x, n * y);
  }
}
