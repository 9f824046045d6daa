/** The binary-search logarithm of include/fpga/log2.h. */
module Log2Search {
  import opened Shifts

  /** `log2<WIDTH>`: on WIDTH-bit words, for every power-of-two WIDTH, the rounded-down logarithm. */
  method Log2(logWidth: nat, input: nat) returns (num: nat)
    requires input < Pow2(Pow2(logWidth))
    ensures input == 0 ==> num == 0
    ensures input > 0 ==> Pow2(num) <= input < Pow2(num + 1)
    ensures num < Pow2(logWidth)
  {
    hide Shl, Shr;
    PowPositive(logWidth);
    Halved(0);
    Halved(logWidth);
    Unshifted(input);
    var width := Pow2(logWidth);
    var word := input;
    num := width - 1;
    var shift := width / 2;
    ghost var k := logWidth;          // the bits examined from now on: 2^k - 1, shift first
    while shift != 0
      invariant if shift == 0 then k == 0 else k > 0 && 2 * shift == Pow2(k)
      invariant Pow2(k) - 1 <= num < width
      invariant word == Shl(input, width - 1 - num) < Pow2(width)
      invariant input > 0 ==> word >= Pow2(width - Pow2(k))
      invariant input == 0 ==> num == Pow2(k) - 1
      decreases shift
    {
      ShiftUp(input, word, width, num, shift);
      Halved(k);
      Halved(k - 1);
      // word & (ap_uint<WIDTH>(-1) << (WIDTH - shift))
      if Shr(word, width - shift) == 0 {
        num := num - shift;
        word := Shl(word, shift);
      }
      k := k - 1;
      shift := shift / 2;
    }
    var e := width - 1 - num;
    ShlShl(1, num, e);
    ShlShl(1, num + 1, e);
    PowPositive(e);
    ShlMonotone(input, Pow2(num), e);
    ShlMonotone(Pow2(num + 1), input, e);
  }

  lemma Halved(e: nat)
    ensures if e == 0 then Pow2(e) == 1 && Pow2(e) / 2 == 0 else Pow2(e) == 2 * Pow2(e - 1) && Pow2(e) / 2 == Pow2(e - 1) > 0
  {
    if e > 0 { PowPositive(e - 1); }
  }

  lemma {:induction false} Unshifted(a: nat)
    ensures Shl(a, 0) == a
  {
  }

  lemma ShiftUp(input: nat, word: nat, width: nat, num: nat, shift: nat)
    requires 2 * shift <= width && shift <= num < width
    requires word == Shl(input, width - 1 - num)
    ensures Shr(word, width - shift) == 0 <==> word < Pow2(width - shift)
    ensures Shl(word, shift) == Shl(input, width - 1 - (num - shift))
    ensures word < Pow2(width - shift) ==> Shl(word, shift) < Pow2(width)
    ensures word >= Pow2(width - 2 * shift) ==> Shl(word, shift) >= Pow2(width - shift)
    ensures input == 0 ==> word == 0 < Pow2(width - shift)
  {
    ShrZero(word, width - shift);
    PowPositive(width - shift);
    ShlPlus(0, 0, width - 1 - num);
    ShlShl(input, width - 1 - num, shift);
    ShlShl(1, width - shift, shift);
    ShlMonotone(word, Pow2(width - shift), shift);
    PowPositive(shift);
    ShlShl(1, width - 2 * shift, shift);
    ShlMonotone(Pow2(width - 2 * shift), word, shift);
  }

  /** What `order_base_2` means: the least exponent whose power of two reaches `n`. */
  ghost predicate IsCeilLog2(n: nat, e: nat)
  {
    n <= Pow2(e) && forall d: nat :: d < e ==> Pow2(d) < n
  }

  lemma {:induction false} Pow2Monotone(a: nat, b: nat)
    requires a <= b
    ensures Pow2(a) <= Pow2(b)
  {
    if a < b { Pow2Monotone(a, b - 1); }
  }

  /** `order_base_2<WIDTH>`: the rounded-up logarithm. */
  method OrderBase2(logWidth: nat, n: nat) returns (order: nat)
    requires n < Pow2(Pow2(logWidth))
    ensures IsCeilLog2(n, order)
  {
    if n > 1 {
      var l := Log2(logWidth, n - 1);
      order := l + 1;
      forall d: nat | d < order ensures Pow2(d) < n { Pow2Monotone(d, l); }
    } else {
      order := 0;
    }
  }

  lemma CeilLog2Unique(n: nat, e: nat, f: nat)
    requires IsCeilLog2(n, e) && IsCeilLog2(n, f)
    ensures e == f
  {
    assert e < f ==> Pow2(e) < n;
    assert f < e ==> Pow2(f) < n;
  }
}
