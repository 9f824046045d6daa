/**
 The 8-bit mask arithmetic on a node's children byte (alloc/buddy/buddy.cpp), and the bit runs it
 stands for in BuddyCache.
 */
module ByteMasks {
  import opened BuddyCache

  function One(j: nat): bv8
    requires j < 8
  {
    if j == 0 then 0x01 else if j == 1 then 0x02 else if j == 2 then 0x04 else if j == 3 then 0x08
    else if j == 4 then 0x10 else if j == 5 then 0x20 else if j == 6 then 0x40 else 0x80
  }

  predicate BitOf(c: bv8, j: nat)
    requires j < 8
  {
    c & One(j) != 0
  }

  /** An ap_uint<8> as its bits, bit 0 first. */
  function Bits(c: bv8): Byte
  {
    seq(8, j requires 0 <= j < 8 => BitOf(c, j))
  }

  function Mask(width: nat): bv8
  {
    if width == 1 then 0x1 else if width == 2 then 0x3 else if width == 4 then 0xF else 0x0
  }

  /** mask << idx in 8 bits: bits beyond the byte are lost. */
  function MaskAt(width: nat, idx: nat): bv8
    requires idx < 8
  {
    Mask(width) << idx
  }

  function GetFree1(c: bv8): nat
  {
    if c & 0x1 == 0 then 0 else if c & 0x2 == 0 then 1 else if c & 0x4 == 0 then 2
    else if c & 0x8 == 0 then 3 else if c & 0x10 == 0 then 4 else if c & 0x20 == 0 then 5
    else if c & 0x40 == 0 then 6 else 7
  }

  function GetFree2(c: bv8): nat
  {
    if c & 0x3 == 0 then 0 else if c & 0xC == 0 then 2 else if c & 0x30 == 0 then 4 else 6
  }

  function GetFree4(c: bv8): nat
  {
    if c & 0xF == 0 then 0 else 4
  }

  function FreeIndex(c: bv8, width: nat): nat
    requires width in {1, 2, 4}
  {
    if width == 1 then GetFree1(c) else if width == 2 then GetFree2(c) else GetFree4(c)
  }

  lemma MaskBit(width: nat, idx: nat, j: nat)
    requires width in {1, 2, 4} && idx < 8 && j < 8
    ensures BitOf(MaskAt(width, idx), j) <==> idx <= j < idx + width
  {
    var m := MaskAt(width, idx);
    match idx {
      case 0 => assert m == Mask(width);
      case 1 => assert m == Mask(width) << 1;
      case 2 => assert m == Mask(width) << 2;
      case 3 => assert m == Mask(width) << 3;
      case 4 => assert m == Mask(width) << 4;
      case 5 => assert m == Mask(width) << 5;
      case 6 => assert m == Mask(width) << 6;
      case 7 => assert m == Mask(width) << 7;
    }
  }

  lemma AndBit(a: bv8, b: bv8, m: bv8)
    requires m in {0x01, 0x02, 0x04, 0x08, 0x10, 0x20, 0x40, 0x80}
    ensures (a & b) & m != 0 <==> a & m != 0 && b & m != 0
    ensures (a | b) & m != 0 <==> a & m != 0 || b & m != 0
    ensures (a & !b) & m != 0 <==> a & m != 0 && b & m == 0
  {
  }

  lemma OneIn(j: nat)
    requires j < 8
    ensures One(j) in {0x01, 0x02, 0x04, 0x08, 0x10, 0x20, 0x40, 0x80}
  {
  }

  lemma OpBit(a: bv8, b: bv8, j: nat)
    requires j < 8
    ensures BitOf(a & b, j) <==> BitOf(a, j) && BitOf(b, j)
    ensures BitOf(a | b, j) <==> BitOf(a, j) || BitOf(b, j)
    ensures BitOf(a & !b, j) <==> BitOf(a, j) && !BitOf(b, j)
  {
    hide One;
    OneIn(j);
    AndBit(a, b, One(j));
  }

  /** The bits of c & m, c | m and c & ~m, for the mask m of a run. */
  lemma MaskedBit(c: bv8, m: bv8, width: nat, idx: nat, j: nat)
    requires width in {1, 2, 4} && idx < 8 && j < 8 && m == MaskAt(width, idx)
    ensures BitOf(c & m, j) <==> BitOf(c, j) && idx <= j < idx + width
    ensures BitOf(c | m, j) <==> BitOf(c, j) || idx <= j < idx + width
    ensures BitOf(c & !m, j) <==> BitOf(c, j) && !(idx <= j < idx + width)
  {
    hide BitOf, MaskAt;
    MaskBit(width, idx, j);
    OpBit(c, m, j);
  }

  lemma SomeBit(c: bv8)
    ensures c != 0 <==> exists j: nat :: j < 8 && BitOf(c, j)
  {
    assert c == 0 || BitOf(c, 0) || BitOf(c, 1) || BitOf(c, 2) || BitOf(c, 3)
      || BitOf(c, 4) || BitOf(c, 5) || BitOf(c, 6) || BitOf(c, 7);
  }

  /** The overlap test of `test_valid_bits` and `get_valid_free_line`. */
  lemma TestIsAnySet(c: bv8, width: nat, idx: nat)
    requires width in {1, 2, 4} && idx < 8
    ensures c & MaskAt(width, idx) != 0 <==> AnySet(Bits(c), idx, width)
  {
    hide BitOf, MaskAt, Bits, Mask, One;
    var m := MaskAt(width, idx);
    var x := c & m;
    SomeBit(x);
    if x != 0 {
      var j: nat :| j < 8 && BitOf(x, j);
      MaskedBit(c, m, width, idx, j);
      BitsAt(c, j);
    } else if AnySet(Bits(c), idx, width) {
      var j :| idx <= j < idx + width && j < 8 && Bits(c)[j];
      MaskedBit(c, m, width, idx, j);
      BitsAt(c, j);
    }
  }

  lemma BitsAt(c: bv8, j: nat)
    requires j < 8
    ensures Bits(c)[j] <==> BitOf(c, j)
  {
    hide BitOf;
  }

  /** `set_clear_bits` */
  lemma MaskedIsSetClear(c: bv8, width: nat, idx: nat)
    requires width in {1, 2, 4} && idx < 8
    ensures Bits(c | MaskAt(width, idx)) == SetClear(Bits(c), idx, width, true)
    ensures Bits(c & !MaskAt(width, idx)) == SetClear(Bits(c), idx, width, false)
  {
    hide BitOf, MaskAt;
    var m := MaskAt(width, idx);
    var on, off := c | m, c & !m;
    forall j: nat | j < 8
      ensures BitOf(on, j) == if idx <= j < idx + width then true else BitOf(c, j)
      ensures BitOf(off, j) == if idx <= j < idx + width then false else BitOf(c, j)
    {
      MaskedBit(c, m, width, idx, j);
    }
    SetClearIs(c, on, width, idx, true);
    SetClearIs(c, off, width, idx, false);
  }

  lemma SetClearIs(c: bv8, x: bv8, width: nat, idx: nat, on: bool)
    requires forall j: nat :: j < 8 ==> BitOf(x, j) == if idx <= j < idx + width then on else BitOf(c, j)
    ensures Bits(x) == SetClear(Bits(c), idx, width, on)
  {
    hide BitOf;
  }

  /** The `get_free_*bit` cascades. */
  lemma CascadeIsGetFree(c: bv8, width: nat)
    requires width in {1, 2, 4}
    ensures FreeIndex(c, width) == GetFree(Bits(c), width)
  {
    hide AnySet;
    if width == 2 {
      TestIsAnySet(c, 2, 0);
      TestIsAnySet(c, 2, 2);
      TestIsAnySet(c, 2, 4);
      assert MaskAt(2, 0) == 0x3 && MaskAt(2, 2) == 0xC && MaskAt(2, 4) == 0x30;
    } else if width == 4 {
      TestIsAnySet(c, 4, 0);
      assert MaskAt(4, 0) == 0xF;
    }
  }
}
