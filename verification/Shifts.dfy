/**
 Shifts and bit slices of unbounded naturals, and their algebra. The source's ap_uint shifts,
 slices and masks are written with these, so that every width can stay a parameter.
 */
module Shifts {

  /** a << e */
  function Shl(a: nat, e: nat): nat
  {
    if e == 0 then a else 2 * Shl(a, e - 1)
  }

  /** a >> e */
  function Shr(a: nat, e: nat): nat
  {
    if e == 0 then a else Shr(a, e - 1) / 2
  }

  function Pow2(e: nat): nat { Shl(1, e) }

  function Pow8(e: nat): nat
  {
    if e == 0 then 1 else 8 * Pow8(e - 1)
  }

  /** The low `e` bits of `a`. */
  function Low(a: nat, e: nat): nat
  {
    ShrBounds(a, e);
    a - Shl(Shr(a, e), e)
  }

  function Min(a: int, b: int): int { if a < b then a else b }

  lemma {:induction false} ShlPlus(a: nat, b: nat, e: nat)
    ensures Shl(a + b, e) == Shl(a, e) + Shl(b, e)
  {
    if e > 0 { ShlPlus(a, b, e - 1); }
  }

  lemma {:induction false} ShlMonotone(a: nat, b: nat, e: nat)
    ensures a <= b ==> Shl(a, e) <= Shl(b, e)
    ensures a < b ==> Shl(a, e) + Shl(1, e) <= Shl(b, e)
  {
    if e > 0 { ShlMonotone(a, b, e - 1); }
  }

  lemma {:induction false} ShlShl(a: nat, x: nat, y: nat)
    ensures Shl(Shl(a, x), y) == Shl(a, x + y)
  {
    if y > 0 { ShlShl(a, x, y - 1); }
  }

  lemma {:induction false} ShrShr(a: nat, x: nat, y: nat)
    ensures Shr(Shr(a, x), y) == Shr(a, x + y)
  {
    if y > 0 { ShrShr(a, x, y - 1); }
  }

  lemma {:induction false} PowPositive(e: nat)
    ensures Shl(1, e) >= 1
    ensures Pow8(e) == Pow2(3 * e) && Pow8(e) >= 1
  {
    if e > 0 {
      PowPositive(e - 1);
      assert Shl(1, 3 * e) == 2 * Shl(1, 3 * e - 1) == 4 * Shl(1, 3 * e - 2);
    }
  }

  lemma {:induction false} ShrBounds(a: nat, e: nat)
    ensures Shl(Shr(a, e), e) <= a < Shl(Shr(a, e), e) + Shl(1, e)
  {
    if e > 0 {
      ShrBounds(a, e - 1);
      var h := Shr(a, e - 1);
      ShlPlus(h / 2, h / 2, e - 1);
      ShlPlus(h / 2 + h / 2, h % 2, e - 1);
      ShlMonotone(h % 2, 1, e - 1);
      assert Shl(0, e - 1) == 0 by { ShlPlus(0, 0, e - 1); }
    }
  }

  lemma {:induction false} ShrUnique(a: nat, e: nat, q: nat)
    requires Shl(q, e) <= a < Shl(q, e) + Shl(1, e)
    ensures Shr(a, e) == q
  {
    ShrBounds(a, e);
    ShlMonotone(q, Shr(a, e), e);
    ShlMonotone(Shr(a, e), q, e);
  }

  lemma {:induction false} ShrShl(a: nat, e: nat)
    ensures Shr(Shl(a, e), e) == a
  {
    PowPositive(e);
    ShrUnique(Shl(a, e), e, a);
  }

  lemma {:induction false} ShrLess(a: nat, e: nat, q: nat)
    requires a < Shl(q, e)
    ensures Shr(a, e) < q
  {
    ShrBounds(a, e);
    ShlMonotone(q, Shr(a, e), e);
  }

  lemma {:induction false} ShrZero(a: nat, e: nat)
    ensures Shr(a, e) == 0 <==> a < Pow2(e)
  {
    ShrBounds(a, e);
    ShlPlus(0, 0, e);
    ShlMonotone(1, Shr(a, e), e);
  }

  lemma LowBound(a: nat, e: nat)
    ensures Low(a, e) < Pow2(e)
  {
    ShrBounds(a, e);
  }

  lemma LowIdentity(a: nat, e: nat)
    requires a < Pow2(e)
    ensures Low(a, e) == a
  {
    ShrZero(a, e);
    ShlPlus(0, 0, e);
  }

  /** (a & mask(x + y)) >> x  ==  (a >> x) & mask(y) */
  lemma LowShr(a: nat, x: nat, y: nat)
    ensures Shr(Low(a, x + y), x) == Low(Shr(a, x), y)
  {
    var t, q := Shr(a, x + y), Shr(a, x);
    ShrShr(a, x, y);
    ShlShl(t, y, x);
    ShrBounds(a, x);
    ShrBounds(q, y);
    ShlPlus(Low(q, y), Shl(t, y), x);
    ShrUnique(Low(a, x + y), x, Low(q, y));
  }

  /** (a << y) & mask(x + y)  ==  (a & mask(x)) << y */
  lemma {:induction false} LowShl(a: nat, x: nat, y: nat)
    ensures Low(Shl(a, y), x + y) == Shl(Low(a, x), y)
  {
    ShrShr(Shl(a, y), y, x);
    ShrShl(a, y);
    ShlShl(Shr(a, x), x, y);
    ShrBounds(a, x);
    ShlPlus(Low(a, x), Shl(Shr(a, x), x), y);
  }

  lemma LowLow(a: nat, x: nat, y: nat)
    ensures Low(Low(a, x + y), x) == Low(a, x)
  {
    var t, q := Shr(a, x + y), Shr(a, x);
    LowShr(a, x, y);
    ShrShr(a, x, y);
    ShrBounds(q, y);
    ShlPlus(Low(q, y), Shl(t, y), x);
    ShlShl(t, y, x);
  }

  lemma {:induction false} LowOctal(a: nat)
    ensures Low(a, 3) == a % 8 && Shr(a, 3) == a / 8
  {
    assert Shr(a, 3) == Shr(a, 2) / 2 && Shr(a, 2) == Shr(a, 1) / 2 && Shr(a, 1) == Shr(a, 0) / 2;
    var q := Shr(a, 3);
    assert Shl(q, 3) == 2 * Shl(q, 2) && Shl(q, 2) == 2 * Shl(q, 1) && Shl(q, 1) == 2 * Shl(q, 0);
  }
}
