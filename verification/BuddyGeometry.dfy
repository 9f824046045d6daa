/**
 Order, tag, index and address arithmetic of the buddy allocator, for every ORDER_MAX,
 BUDDY_MIN_SHIFT and associativity.
 */
module BuddyGeometry {
  import opened Shifts
  import opened BuddyTree

  datatype Config = Config(orderMax: nat, minShift: nat, setSize: nat) {
    /** (idx, ap_uint<ORDER_MAX-3>(0)) needs ORDER_MAX > 3; addr_to_idx reads up to two bits below the shift. */
    predicate Valid() { orderMax >= 4 && minShift >= 2 && setSize >= 1 }
    /** LEVEL_MAX, with ORDER_MAX padded up to a multiple of three */
    function Levels(): nat { (orderMax + 2) / 3 }
    function PadBits(): nat { 3 * Levels() - orderMax }
    function MaxShift(): nat { orderMax + minShift }
  }

  /** A multiple of the width, for the three widths there are. */
  predicate Aligned(j: nat, width: nat)
  {
    (width == 2 ==> j % 2 == 0) && (width == 4 ==> j % 4 == 0)
  }

  function OrderToLevel(c: Config, order: nat): nat
    requires order < c.orderMax
  {
    (c.orderMax - 1 - order) / 3
  }

  function OrderToWidth(c: Config, order: nat): nat
    requires order < c.orderMax
  {
    Shl(1, 2 - (c.orderMax - 1 - order) % 3)
  }

  function AddrToTag(c: Config, addr: nat, level: nat): nat
    requires c.Valid() && level < c.Levels()
  {
    var unit := Low(Shr(addr, c.minShift), c.orderMax);
    Shl(Shr(unit, c.orderMax - 3 * level), c.orderMax - 3 * level)
  }

  function AddrToIdx(c: Config, addr: nat, level: nat): nat
    requires c.Valid() && level < c.Levels()
  {
    Shr(Low(Shl(addr, 3 * level), c.MaxShift()), c.MaxShift() - 3)
  }

  /** Bitwise or of two naturals. */
  function BitOr(a: nat, b: nat): nat
    decreases a + b
  {
    if a == 0 && b == 0 then 0
    else 2 * BitOr(a / 2, b / 2) + (if a % 2 == 1 || b % 2 == 1 then 1 else 0)
  }

  function ParentTagIdxToTag(c: Config, tag: nat, level: nat, idx: nat): nat
    requires c.Valid()
  {
    BitOr(tag, Shr(Shl(idx, c.orderMax - 3), 3 * level))
  }

  function TagToAddr(c: Config, tag: nat): nat
  {
    Shl(tag, c.minShift)
  }

  function MetaBase(level: nat): nat { Pow8(level) / 7 }

  /** `tag_level_to_drambuddy`; level 0, which the source only asserts away, gets offset 0. */
  function MetaAddr(c: Config, base: nat, tag: nat, level: nat): nat
    requires level <= c.Levels()
  {
    base + Shr(Shl(tag, c.PadBits()), 3 * (c.Levels() - level)) + MetaBase(level)
  }

  /** BUDDY_META_SIZE */
  function MetaSize(c: Config): nat { MetaBase(c.Levels()) }

  // ---------- meaning of tags and addresses in terms of tree nodes

  ghost predicate Node(c: Config, l: nat, k: nat)
  {
    l < c.Levels() && k < Pow8(l)
  }

  /** The tag of node `k` of level `l`. */
  function NodeTag(c: Config, l: nat, k: nat): nat
    requires c.Valid() && l < c.Levels()
  {
    Shl(k, c.orderMax - 3 * l)
  }

  /** log2 of the bytes covered by one cell of level `l`. */
  function CellShift(c: Config, l: nat): nat
    requires c.Valid() && l < c.Levels()
  {
    c.MaxShift() - 3 * (l + 1)
  }

  /** The node of level `d` an address falls into, that is, the cell of level d - 1. */
  function NodeAt(c: Config, addr: nat, d: nat): nat
    requires c.Valid() && d <= c.Levels()
  {
    Shr(Low(addr, c.MaxShift()), c.MaxShift() - 3 * d)
  }

  lemma NodeTagInjective(c: Config, l: nat, k: nat, k': nat)
    requires c.Valid() && l < c.Levels() && NodeTag(c, l, k) == NodeTag(c, l, k')
    ensures k == k'
  {
    ShrShl(k, c.orderMax - 3 * l);
    ShrShl(k', c.orderMax - 3 * l);
  }

  /** The tag slice of an address names the node the address falls into. */
  lemma {:induction false} AddrToTagIsNode(c: Config, addr: nat, l: nat)
    requires c.Valid() && l < c.Levels()
    ensures AddrToTag(c, addr, l) == NodeTag(c, l, NodeAt(c, addr, l))
    ensures NodeAt(c, addr, l) < Pow8(l)
  {
    var n, s := c.orderMax, c.minShift;
    LowShr(addr, s, n);
    ShrShr(Low(addr, c.MaxShift()), s, n - 3 * l);
    NodeAtBound(c, addr, l);
  }

  lemma {:induction false} NodeAtBound(c: Config, addr: nat, d: nat)
    requires c.Valid() && d <= c.Levels()
    ensures NodeAt(c, addr, d) < Pow8(d)
  {
    var m := c.MaxShift();
    PowPositive(d);
    LowBound(addr, m);
    ShlShl(1, 3 * d, m - 3 * d);
    ShrLess(Low(addr, m), m - 3 * d, Pow8(d));
  }

  /** The index slice of an address is the last octal digit of the cell it falls into. */
  lemma AddrToIdxIsDigit(c: Config, addr: nat, l: nat)
    requires c.Valid() && l < c.Levels()
    ensures AddrToIdx(c, addr, l) == NodeAt(c, addr, l + 1) % 8
    ensures NodeAt(c, addr, l + 1) / 8 == NodeAt(c, addr, l)
  {
    var m := c.MaxShift();
    var x := m - 3 * (l + 1);
    LowShl(addr, m - 3 * l, 3 * l);
    var a := Low(addr, m - 3 * l);
    ShrShr(Shl(a, 3 * l), 3 * l, x);
    ShrShl(a, 3 * l);
    assert AddrToIdx(c, addr, l) == Shr(a, x);
    LowShr(addr, x, 3);
    LowShr(addr, x, 3 * (l + 1));
    LowLow(Shr(addr, x), 3, 3 * l);
    LowOctal(NodeAt(c, addr, l + 1));
    ShrShr(Low(addr, m), x, 3);
  }

  /** Or-ing in low bits is adding them. */
  lemma {:induction false} BitOrDisjoint(a: nat, b: nat, e: nat)
    requires b < Pow2(e)
    ensures BitOr(Shl(a, e), b) == Shl(a, e) + b
  {
    if e == 0 {
      BitOrZero(a);
    } else {
      BitOrDisjoint(a, b / 2, e - 1);
    }
  }

  lemma {:induction false} BitOrZero(a: nat)
    ensures BitOr(a, 0) == a
  {
    if a > 0 { BitOrZero(a / 2); }
  }

  /** Or-ing the shifted index into the parent's tag is adding it. */
  lemma {:induction false} ParentTagIdx(c: Config, l: nat, k: nat, idx: nat)
    requires c.Valid() && l < c.Levels() && idx < 8
    ensures ParentTagIdxToTag(c, NodeTag(c, l, k), l, idx)
         == NodeTag(c, l, k) + Shr(Shl(idx, c.orderMax - 3), 3 * l)
  {
    var n := c.orderMax;
    PowPositive(1);
    ShlShl(1, 3, n - 3);
    ShlMonotone(idx, 8, n - 3);
    PowPositive(n - 3);
    ShlShl(1, n - 3 * l, 3 * l);
    ShrLess(Shl(idx, n - 3), 3 * l, Pow2(n - 3 * l));
    BitOrDisjoint(k, Shr(Shl(idx, n - 3), 3 * l), n - 3 * l);
  }

  lemma OctalChild(k: nat, idx: nat, e: nat)
    ensures Shl(8 * k + idx, e) == Shl(k, e + 3) + Shl(idx, e)
  {
    ShlPlus(8 * k, idx, e);
    ShlShl(k, 3, e);
    assert Shl(k, 3) == 2 * Shl(k, 2) && Shl(k, 2) == 2 * Shl(k, 1) && Shl(k, 1) == 2 * Shl(k, 0);
  }

  /** The parent's tag and the index rebuild the child's tag. */
  lemma ChildTag(c: Config, l: nat, k: nat, idx: nat)
    requires c.Valid() && l + 1 < c.Levels() && idx < 8
    ensures ParentTagIdxToTag(c, NodeTag(c, l, k), l, idx) == NodeTag(c, l + 1, 8 * k + idx)
  {
    var e := c.orderMax - 3 * (l + 1);
    ParentTagIdx(c, l, k, idx);
    ShlShl(idx, e, 3 * l);
    ShrShl(Shl(idx, e), 3 * l);
    OctalChild(k, idx, e);
  }

  /** On the level of the request the finished tag is the block's address, padding included. */
  lemma {:induction false} BlockAddress(c: Config, l: nat, k: nat, idx: nat)
    requires c.Valid() && l < c.Levels() && idx < 8
    requires l + 1 == c.Levels() ==> Low(idx, c.PadBits()) == 0
    ensures TagToAddr(c, ParentTagIdxToTag(c, NodeTag(c, l, k), l, idx)) == Shl(8 * k + idx, CellShift(c, l))
  {
    var n, s := c.orderMax, c.minShift;
    if l + 1 < c.Levels() {
      ChildTag(c, l, k, idx);
      ShlShl(8 * k + idx, n - 3 * (l + 1), s);
    } else {
      var p := c.PadBits();
      var i := Shr(idx, p);
      ParentTagIdx(c, l, k, idx);
      ShlShl(i, p, n - 3);
      ShrShl(i, 3 * l);
      ShlPlus(NodeTag(c, l, k), i, s);
      ShlShl(k, n - 3 * l, s);
      ShlShl(i, p, s - p);
      OctalChild(k, idx, CellShift(c, l));
    }
  }

  /** `free`'s decomposition of an address inverts the tag chain that produced it. */
  lemma NodeAtInverts(c: Config, l: nat, j: nat)
    requires c.Valid() && l < c.Levels() && j < Pow8(l + 1)
    ensures NodeAt(c, Shl(j, CellShift(c, l)), l + 1) == j
    ensures Shl(j + 1, CellShift(c, l)) <= Pow2(c.MaxShift())
  {
    var x := CellShift(c, l);
    PowPositive(l + 1);
    ShlShl(1, 3 * (l + 1), x);
    ShlMonotone(j + 1, Pow8(l + 1), x);
    PowPositive(x);
    ShlMonotone(j, j + 1, x);
    LowIdentity(Shl(j, x), c.MaxShift());
    ShrShl(j, x);
  }

  lemma {:induction false} NodeAtUp(c: Config, addr: nat, d: nat, e: nat)
    requires c.Valid() && d <= e <= c.Levels()
    ensures NodeAt(c, addr, d) == Up(NodeAt(c, addr, e), e - d)
    decreases e
  {
    if d < e {
      AddrToIdxIsDigit(c, addr, e - 1);
      NodeAtUp(c, addr, d, e - 1);
    }
  }

  /** Width times cell size at the order's level is 2^order units, whether or not ORDER_MAX is padded. */
  lemma OrderSize(c: Config, order: nat)
    requires c.Valid() && order < c.orderMax
    ensures var l := OrderToLevel(c, order);
      && l < c.Levels()
      && Shl(OrderToWidth(c, order), CellShift(c, l)) == Pow2(order + c.minShift)
      && OrderToWidth(c, order) in {1, 2, 4}
  {
    var l := OrderToLevel(c, order);
    var e := 2 - (c.orderMax - 1 - order) % 3;
    assert Shl(1, 0) == 1 && Shl(1, 1) == 2 * Shl(1, 0) && Shl(1, 2) == 2 * Shl(1, 1);
    ShlShl(1, e, CellShift(c, l));
    assert e + CellShift(c, l) == order + c.minShift;
  }

  /** On the last level every width, hence every index the allocator picks, is a multiple of the padding. */
  lemma LastLevelIndex(c: Config, order: nat, idx: nat)
    requires c.Valid() && order < c.orderMax && OrderToLevel(c, order) + 1 == c.Levels()
    requires Aligned(idx, OrderToWidth(c, order))
    ensures Low(idx, c.PadBits()) == 0
  {
    var p, e := c.PadBits(), 2 - (c.orderMax - 1 - order) % 3;
    assert e == p + order;
    assert Shl(1, 2) == 2 * Shl(1, 1) && Shl(1, 1) == 2 * Shl(1, 0);
    EvenLow(idx, e);
    LowLow(idx, p, order);
    ShlPlus(0, 0, p);
    ShrShl(0, p);
  }

  lemma EvenLow(a: nat, e: nat)
    requires e <= 2 && Aligned(a, Pow2(e))
    ensures Low(a, e) == 0
  {
    if e == 1 {
      var h := a / 2;
      assert Shl(1, 1) == 2 * Shl(1, 0) && Shr(a, 1) == Shr(a, 0) / 2 && Shl(h, 1) == 2 * Shl(h, 0);
    } else if e == 2 {
      var h := a / 4;
      assert Shl(1, 2) == 2 * Shl(1, 1) && Shl(1, 1) == 2 * Shl(1, 0);
      assert Shr(a, 2) == Shr(a, 1) / 2 && Shr(a, 1) == Shr(a, 0) / 2;
      assert Shl(h, 2) == 2 * Shl(h, 1) && Shl(h, 1) == 2 * Shl(h, 0);
    }
  }

  // ---------- metadata layout

  lemma {:induction false} MetaBaseStep(l: nat)
    ensures Pow8(l) % 7 == 1
    ensures MetaBase(l) + Pow8(l) == MetaBase(l + 1)
  {
    if l > 0 { MetaBaseStep(l - 1); }
  }

  lemma {:induction false} MetaBaseMonotone(l: nat, m: nat)
    requires l < m
    ensures MetaBase(l) + Pow8(l) <= MetaBase(m)
    decreases m
  {
    MetaBaseStep(m - 1);
    if l + 1 < m { MetaBaseMonotone(l, m - 1); }
  }

  lemma MetaAddrOfNode(c: Config, base: nat, l: nat, k: nat)
    requires c.Valid() && l < c.Levels()
    ensures MetaAddr(c, base, NodeTag(c, l, k), l) == base + k + MetaBase(l)
  {
    ShlShl(k, c.orderMax - 3 * l, c.PadBits());
    ShrShl(k, 3 * (c.Levels() - l));
  }

  /** Different nodes have different metadata bytes, all inside the metadata area ... */
  lemma MetaAddrInjective(c: Config, base: nat, l: nat, k: nat, l': nat, k': nat)
    requires c.Valid() && Node(c, l, k) && Node(c, l', k')
    ensures base <= MetaAddr(c, base, NodeTag(c, l, k), l) < base + MetaSize(c)
    ensures MetaAddr(c, base, NodeTag(c, l, k), l) == MetaAddr(c, base, NodeTag(c, l', k'), l')
      ==> l == l' && k == k'
  {
    MetaAddrOfNode(c, base, l, k);
    MetaAddrOfNode(c, base, l', k');
    MetaBaseMonotone(l, c.Levels());
    if l < l' { MetaBaseMonotone(l, l'); }
    if l' < l { MetaBaseMonotone(l', l); }
  }

  /** ... and every byte of the area belongs to some node. */
  lemma {:induction false} MetaAddrOnto(c: Config, base: nat, offset: nat, levels: nat) returns (l: nat, k: nat)
    requires c.Valid() && levels <= c.Levels() && offset < MetaBase(levels)
    ensures l < levels && Node(c, l, k) && MetaAddr(c, base, NodeTag(c, l, k), l) == base + offset
  {
    MetaBaseStep(levels - 1);
    if offset >= MetaBase(levels - 1) {
      l, k := levels - 1, offset - MetaBase(levels - 1);
      MetaAddrOfNode(c, base, l, k);
    } else {
      l, k := MetaAddrOnto(c, base, offset, levels - 1);
    }
  }

  // ---------- blocks as byte ranges

  ghost predicate InTree(c: Config, B: Block)
  {
    && WellFormed(B) && B.level < c.Levels()
    && B.cell + B.width <= Pow8(B.level + 1)
    && Aligned(B.cell, B.width)
    && B.width in {1, 2, 4}
  }

  function Start(c: Config, B: Block): nat
    requires c.Valid() && B.level < c.Levels()
  {
    Shl(B.cell, CellShift(c, B.level))
  }

  function Size(c: Config, B: Block): nat
    requires c.Valid() && B.level < c.Levels()
  {
    Shl(B.width, CellShift(c, B.level))
  }

  lemma {:induction false} UpIsShift(j: nat, d: nat)
    ensures Up(j, d) == Shr(j, 3 * d)
  {
    if d > 0 {
      UpIsShift(j / 8, d - 1);
      LowOctal(j);
      ShrShr(j, 3, 3 * (d - 1));
    }
  }

  /** A cell lies inside the byte range of its ancestor. */
  lemma CellInside(c: Config, j: nat, m: nat, l: nat)
    requires c.Valid() && l <= m < c.Levels()
    ensures var u := Up(j, m - l);
      && Shl(u, CellShift(c, l)) <= Shl(j, CellShift(c, m))
      && Shl(j + 1, CellShift(c, m)) <= Shl(u + 1, CellShift(c, l))
  {
    var d, x := m - l, CellShift(c, m);
    var u := Up(j, d);
    UpIsShift(j, d);
    ShrBounds(j, 3 * d);
    ShlShl(u, 3 * d, x);
    ShlShl(u + 1, 3 * d, x);
    ShlPlus(u, 1, 3 * d);
    ShlMonotone(Shl(u, 3 * d), j, x);
    ShlMonotone(j + 1, Shl(u + 1, 3 * d), x);
  }

  /** Blocks that share no tree cell share no byte. */
  lemma ApartRanges(c: Config, A: Block, B: Block)
    requires c.Valid() && InTree(c, A) && InTree(c, B) && A.level <= B.level && !Overlap(A, B)
    ensures Start(c, A) + Size(c, A) <= Start(c, B) || Start(c, B) + Size(c, B) <= Start(c, A)
  {
    hide Shl;
    var x, y := CellShift(c, A.level), CellShift(c, B.level);
    assert Min(A.level, B.level) == A.level;
    ShlPlus(A.cell, A.width, x);
    ShlPlus(B.cell, B.width, y);
    if A.level == B.level {
      var j := if A.cell <= B.cell then B.cell else A.cell;
      assert !(Touches(A, A.level, j) && Touches(B, A.level, j));
      ShlMonotone(A.cell + A.width, B.cell, y);
      ShlMonotone(B.cell + B.width, A.cell, y);
    } else {
      var u := Up(B.cell, B.level - A.level);
      assert Touches(B, A.level, u);
      assert !Touches(A, A.level, u);
      BlockInside(c, B, A.level);
      ShlMonotone(A.cell + A.width, u, x);
      ShlMonotone(u + 1, A.cell, x);
    }
  }

  lemma {:induction false} BlockInside(c: Config, B: Block, l: nat)
    requires c.Valid() && WellFormed(B) && l < B.level < c.Levels()
    ensures var u := Up(B.cell, B.level - l);
      && Shl(u, CellShift(c, l)) <= Shl(B.cell, CellShift(c, B.level))
      && Shl(B.cell + B.width, CellShift(c, B.level)) <= Shl(u + 1, CellShift(c, l))
  {
    CellInside(c, B.cell, B.level, l);
    CellInside(c, B.cell + B.width - 1, B.level, l);
    assert Up(B.cell, B.level - l) == Up(B.cell / 8, B.level - l - 1);
  }

  /** log2 of a block's size */
  function LogSize(c: Config, B: Block): nat
    requires c.Valid() && B.level < c.Levels()
  {
    CellShift(c, B.level) + if B.width == 1 then 0 else if B.width == 2 then 1 else 2
  }

  /** Blocks lie inside the managed range and start at a multiple of their size. */
  lemma BlockPlacement(c: Config, B: Block)
    requires c.Valid() && InTree(c, B)
    ensures Start(c, B) + Size(c, B) <= Pow2(c.MaxShift())
    ensures Size(c, B) == Pow2(LogSize(c, B)) && Low(Start(c, B), LogSize(c, B)) == 0
  {
    var x := CellShift(c, B.level);
    NodeAtInverts(c, B.level, B.cell + B.width - 1);
    ShlPlus(B.cell, B.width, x);
    var w := if B.width == 1 then 0 else if B.width == 2 then 1 else 2;
    var q := B.cell / B.width;
    assert Shl(1, 2) == 2 * Shl(1, 1) && Shl(1, 1) == 2 * Shl(1, 0);
    assert Shl(q, 2) == 2 * Shl(q, 1) && Shl(q, 1) == 2 * Shl(q, 0);
    ShlShl(1, w, x);
    ShlShl(q, w, x);
    ShrShl(q, w + x);
  }
}
