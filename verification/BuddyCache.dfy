/**
 The BRAM cache of tree nodes over the DRAM metadata area: one combined view, and what writing,
 filling and flushing a line do to it.
 */
module BuddyCache {
  import opened Shifts
  import opened BuddyTree
  import opened BuddyGeometry

  /** An ap_uint<8>, bit 0 first. */
  type Byte = s: seq<bool> | |s| == 8 witness [false, false, false, false, false, false, false, false]
  const ZERO: Byte := [false, false, false, false, false, false, false, false]
  const FULL: Byte := [true, true, true, true, true, true, true, true]

  datatype Line = Line(valid: bool, tag: nat, children: Byte)
  datatype CacheSet = CacheSet(lines: seq<Line>, counter: nat)
  datatype Store = Store(sets: seq<CacheSet>, dram: seq<Byte>)

  /** Some bit of [idx, idx + width) is set; bits beyond the byte do not exist. */
  predicate AnySet(b: Byte, idx: nat, width: nat)
  {
    exists j :: idx <= j < idx + width && j < 8 && b[j]
  }

  /** children |= mask << idx, or children &= ~(mask << idx) */
  function SetClear(b: Byte, idx: nat, width: nat, on: bool): Byte
  {
    seq(8, j requires 0 <= j < 8 => if idx <= j < idx + width then on else b[j])
  }

  /** `get_free_1bit`, `get_free_2bit`, `get_free_4bit`: the first free aligned run, else the last one. */
  function GetFree(b: Byte, width: nat): (idx: nat)
    requires width in {1, 2, 4}
    ensures idx + width <= 8 && Aligned(idx, width)
    ensures forall i: nat :: i < idx && Aligned(i, width) ==> AnySet(b, i, width)
    ensures AnySet(b, idx, width) ==> forall i: nat :: i + width <= 8 && Aligned(i, width) ==> AnySet(b, i, width)
    ensures !AnySet(b, 0, width) ==> idx == 0
  {
    if width == 4 then
      if !AnySet(b, 0, 4) then 0 else 4
    else if width == 2 then
      if !AnySet(b, 0, 2) then 0 else if !AnySet(b, 2, 2) then 2 else if !AnySet(b, 4, 2) then 4 else 6
    else
      if !b[0] then 0 else if !b[1] then 1 else if !b[2] then 2 else if !b[3] then 3
      else if !b[4] then 4 else if !b[5] then 5 else if !b[6] then 6 else 7
  }

  /** A valid line with a free aligned run of this width. */
  ghost predicate HasRoom(line: Line, width: nat)
  {
    line.valid && exists i: nat :: i + width <= 8 && Aligned(i, width) && !AnySet(line.children, i, width)
  }

  ghost predicate SetHasRoom(lines: seq<Line>, width: nat)
  {
    exists a :: 0 <= a < |lines| && HasRoom(lines[a], width)
  }

  /** The first valid line with this tag, or the number of lines. */
  ghost function Slot(lines: seq<Line>, tag: nat): nat
  {
    if lines == [] then 0
    else if lines[0].valid && lines[0].tag == tag then 0
    else 1 + Slot(lines[1..], tag)
  }

  lemma {:induction false} SlotFinds(lines: seq<Line>, tag: nat)
    ensures Slot(lines, tag) <= |lines|
    ensures Slot(lines, tag) < |lines| ==> lines[Slot(lines, tag)].valid && lines[Slot(lines, tag)].tag == tag
    ensures forall a :: 0 <= a < Slot(lines, tag) ==> !(lines[a].valid && lines[a].tag == tag)
  {
    if lines != [] {
      SlotFinds(lines[1..], tag);
      assert forall a :: 1 <= a < |lines| ==> lines[a] == lines[1..][a - 1];
    }
  }

  /** Slot is the only candidate when tags are not repeated. */
  lemma {:induction false} SlotIs(lines: seq<Line>, tag: nat, a: nat)
    requires a < |lines| && lines[a].valid && lines[a].tag == tag
    requires forall b :: 0 <= b < |lines| && b != a && lines[b].valid ==> lines[b].tag != tag
    ensures Slot(lines, tag) == a
  {
    SlotFinds(lines, tag);
  }

  lemma {:induction false} SlotNone(lines: seq<Line>, tag: nat)
    requires forall b :: 0 <= b < |lines| && lines[b].valid ==> lines[b].tag != tag
    ensures Slot(lines, tag) == |lines|
  {
    SlotFinds(lines, tag);
  }

  /** (1<<3*i) < BUDDY_SET_SIZE ? (1<<3*i) : BUDDY_SET_SIZE */
  function SetSize(c: Config, l: nat): nat
  {
    if Pow8(l) < c.setSize then Pow8(l) else c.setSize
  }

  ghost predicate Shape(c: Config, base: nat, st: Store)
  {
    && c.Valid()
    && |st.sets| == c.Levels()
    && (forall l :: 0 <= l < c.Levels() ==> |st.sets[l].lines| == SetSize(c, l) && st.sets[l].counter < SetSize(c, l))
    && base + MetaSize(c) <= |st.dram|
  }

  /** The node a tag stands for. */
  function TagNode(c: Config, l: nat, tag: nat): nat
    requires c.Valid() && l < c.Levels()
  {
    Shr(tag, c.orderMax - 3 * l)
  }

  ghost predicate GoodLine(c: Config, l: nat, line: Line)
    requires c.Valid() && l < c.Levels()
  {
    line.valid ==>
      && Node(c, l, TagNode(c, l, line.tag)) && line.tag == NodeTag(c, l, TagNode(c, l, line.tag))
      && (l > 0 ==> line.children != ZERO)
  }

  ghost predicate GoodLines(c: Config, l: nat, lines: seq<Line>)
    requires c.Valid() && l < c.Levels()
  {
    && (forall a :: 0 <= a < |lines| ==> GoodLine(c, l, lines[a]))
    && (forall a, b :: 0 <= a < b < |lines| && lines[a].valid && lines[b].valid ==> lines[a].tag != lines[b].tag)
  }

  /** At most one valid line per node, and below level 0 no valid line is empty. */
  ghost predicate Coherent(c: Config, base: nat, st: Store)
  {
    Shape(c, base, st) && forall l :: 0 <= l < c.Levels() ==> GoodLines(c, l, st.sets[l].lines)
  }

  ghost predicate Cached(c: Config, base: nat, st: Store, l: nat, k: nat)
    requires Shape(c, base, st) && Node(c, l, k)
  {
    Slot(st.sets[l].lines, NodeTag(c, l, k)) < |st.sets[l].lines|
  }

  /** The combined view: the cached line if there is a valid one, else the DRAM byte. */
  ghost function View(c: Config, base: nat, st: Store, l: nat, k: nat): Byte
    requires Shape(c, base, st) && Node(c, l, k)
  {
    SlotFinds(st.sets[l].lines, NodeTag(c, l, k));
    MetaAddrInjective(c, base, l, k, l, k);
    if Cached(c, base, st, l, k) then st.sets[l].lines[Slot(st.sets[l].lines, NodeTag(c, l, k))].children
    else st.dram[MetaAddr(c, base, NodeTag(c, l, k), l)]
  }

  /** st' shows the byte `b` at node k of level l and agrees with st everywhere else. */
  ghost predicate ViewBecomes(c: Config, base: nat, st: Store, st': Store, l: nat, k: nat, b: Byte)
    requires Shape(c, base, st) && Shape(c, base, st') && Node(c, l, k)
  {
    forall l', k' :: Node(c, l', k') ==>
      View(c, base, st', l', k') == if l' == l && k' == k then b else View(c, base, st, l', k')
  }

  ghost predicate SameView(c: Config, base: nat, st: Store, st': Store)
    requires Shape(c, base, st) && Shape(c, base, st')
  {
    forall l, k :: Node(c, l, k) ==> View(c, base, st', l, k) == View(c, base, st, l, k)
  }

  function WithLine(st: Store, l: nat, a: nat, line: Line): Store
    requires l < |st.sets| && a < |st.sets[l].lines|
  {
    st.(sets := st.sets[l := st.sets[l].(lines := st.sets[l].lines[a := line])])
  }

  lemma LineNode(c: Config, base: nat, st: Store, l: nat, a: nat) returns (k: nat)
    requires Coherent(c, base, st) && l < c.Levels() && a < |st.sets[l].lines| && st.sets[l].lines[a].valid
    ensures Node(c, l, k) && st.sets[l].lines[a].tag == NodeTag(c, l, k)
    ensures Slot(st.sets[l].lines, NodeTag(c, l, k)) == a
    ensures View(c, base, st, l, k) == st.sets[l].lines[a].children
  {
    assert GoodLines(c, l, st.sets[l].lines);
    assert GoodLine(c, l, st.sets[l].lines[a]);
    k := TagNode(c, l, st.sets[l].lines[a].tag);
    SlotIs(st.sets[l].lines, NodeTag(c, l, k), a);
  }

  /** Writing a line: the node it already holds, or, in an empty place, a node that is not cached. */
  lemma PutLine(c: Config, base: nat, st: Store, l: nat, a: nat, k: nat, b: Byte)
    requires Coherent(c, base, st) && Node(c, l, k) && a < |st.sets[l].lines|
    requires if st.sets[l].lines[a].valid then st.sets[l].lines[a].tag == NodeTag(c, l, k)
             else !Cached(c, base, st, l, k)
    requires l > 0 ==> b != ZERO
    ensures var st' := WithLine(st, l, a, Line(true, NodeTag(c, l, k), b));
      Coherent(c, base, st') && ViewBecomes(c, base, st, st', l, k, b)
  {
    hide Shl, Shr, MetaAddr;
    var tag := NodeTag(c, l, k);
    var lines := st.sets[l].lines;
    var lines' := lines[a := Line(true, tag, b)];
    var st' := WithLine(st, l, a, Line(true, tag, b));
    SlotFinds(lines, tag);
    ShrShl(k, c.orderMax - 3 * l);
    assert GoodLines(c, l, lines);
    assert forall x :: 0 <= x < |lines| && x != a && lines[x].valid ==> lines[x].tag != tag;
    SlotIs(lines', tag, a);
    assert GoodLines(c, l, lines');
    forall l', k' | Node(c, l', k') && !(l' == l && k' == k)
      ensures View(c, base, st', l', k') == View(c, base, st, l', k')
    {
      if l' == l { OtherSlot(c, l, lines, a, k, k', Line(true, tag, b)); }
    }
  }

  /** Replacing one line does not move the slot of another node. */
  lemma OtherSlot(c: Config, l: nat, lines: seq<Line>, a: nat, k: nat, k': nat, line: Line)
    requires c.Valid() && l < c.Levels() && a < |lines| && k' != k && GoodLines(c, l, lines)
    requires lines[a].valid ==> lines[a].tag == NodeTag(c, l, k)
    requires line.valid ==> line.tag == NodeTag(c, l, k)
    ensures Slot(lines[a := line], NodeTag(c, l, k')) == Slot(lines, NodeTag(c, l, k'))
    ensures Slot(lines, NodeTag(c, l, k')) != a
  {
    var tag' := NodeTag(c, l, k');
    if NodeTag(c, l, k) == tag' { NodeTagInjective(c, l, k, k'); }
    SlotFinds(lines, tag');
    SlotFinds(lines[a := line], tag');
    var s, s' := Slot(lines, tag'), Slot(lines[a := line], tag');
    if s < |lines| { assert lines[a := line][s] == lines[s]; }
    if s' < |lines| { assert lines[s'] == lines[a := line][s']; }
  }

  /** Giving up a line and writing `b` to its DRAM byte; a plain flush writes the line's own byte. */
  lemma DropLine(c: Config, base: nat, st: Store, l: nat, a: nat, k: nat, b: Byte, tag0: nat, b0: Byte)
    requires Coherent(c, base, st) && Node(c, l, k) && a < |st.sets[l].lines|
    requires st.sets[l].lines[a].valid && st.sets[l].lines[a].tag == NodeTag(c, l, k)
    ensures base <= MetaAddr(c, base, NodeTag(c, l, k), l) < base + MetaSize(c)
    ensures var st' := WithLine(st, l, a, Line(false, tag0, b0))
                        .(dram := st.dram[MetaAddr(c, base, NodeTag(c, l, k), l) := b]);
      Coherent(c, base, st') && ViewBecomes(c, base, st, st', l, k, b)
  {
    hide Shl, Shr, MetaAddr;
    var tag := NodeTag(c, l, k);
    var lines := st.sets[l].lines;
    MetaAddrInjective(c, base, l, k, l, k);
    var st' := WithLine(st, l, a, Line(false, tag0, b0)).(dram := st.dram[MetaAddr(c, base, tag, l) := b]);
    assert GoodLines(c, l, lines);
    SlotNone(lines[a := Line(false, tag0, b0)], tag);
    forall l', k' | Node(c, l', k') && !(l' == l && k' == k)
      ensures View(c, base, st', l', k') == View(c, base, st, l', k')
    {
      MetaAddrInjective(c, base, l', k', l, k);
      if l' == l { OtherSlot(c, l, lines, a, k, k', Line(false, tag0, b0)); }
    }
  }

  /** Writing the DRAM byte of a node that is not cached. */
  lemma WriteMeta(c: Config, base: nat, st: Store, l: nat, k: nat, b: Byte)
    requires Coherent(c, base, st) && Node(c, l, k) && !Cached(c, base, st, l, k)
    ensures base <= MetaAddr(c, base, NodeTag(c, l, k), l) < base + MetaSize(c)
    ensures var st' := st.(dram := st.dram[MetaAddr(c, base, NodeTag(c, l, k), l) := b]);
      Coherent(c, base, st') && ViewBecomes(c, base, st, st', l, k, b)
  {
    MetaAddrInjective(c, base, l, k, l, k);
    var st' := st.(dram := st.dram[MetaAddr(c, base, NodeTag(c, l, k), l) := b]);
    forall l', k' | Node(c, l', k') && !(l' == l && k' == k)
      ensures View(c, base, st', l', k') == View(c, base, st, l', k')
    {
      MetaAddrInjective(c, base, l', k', l, k);
    }
  }

  // ---------- the view as a function of the live blocks

  lemma {:induction false} CellNode(c: Config, l: nat, j: nat)
    requires l < c.Levels()
    ensures j < Pow8(l + 1) <==> Node(c, l, j / 8)
  {
  }

  ghost predicate Bit(c: Config, base: nat, st: Store, l: nat, j: nat)
    requires Shape(c, base, st) && l < c.Levels() && j < Pow8(l + 1)
  {
    CellNode(c, l, j);
    View(c, base, st, l, j / 8)[j % 8]
  }

  /**
   The view shows exactly the bits of the live blocks, plus a path from the root to node k of
   level d. Between operations d is 0 and the path is empty.
   */
  ghost predicate Shows(c: Config, base: nat, st: Store, live: set<Block>, d: nat, k: nat)
    requires Shape(c, base, st)
  {
    forall l, j :: 0 <= l < c.Levels() && 0 <= j < Pow8(l + 1) ==>
      (Bit(c, base, st, l, j) <==> Occupied(live, l, j) || OnPath(d, k, l, j))
  }

  lemma {:induction false} BitsBecome(c: Config, base: nat, st: Store, st': Store, l: nat, k: nat, b: Byte, l': nat, j: nat)
    requires Shape(c, base, st) && Shape(c, base, st') && Node(c, l, k)
    requires ViewBecomes(c, base, st, st', l, k, b)
    requires l' < c.Levels() && j < Pow8(l' + 1)
    ensures Bit(c, base, st', l', j) == if l' == l && j / 8 == k then b[j % 8] else Bit(c, base, st, l', j)
  {
    CellNode(c, l', j);
  }

  lemma ShowsKept(c: Config, base: nat, st: Store, st': Store, live: set<Block>, d: nat, k: nat)
    requires Shape(c, base, st) && Shape(c, base, st') && SameView(c, base, st, st')
    requires Shows(c, base, st, live, d, k)
    ensures Shows(c, base, st', live, d, k)
  {
    forall i, j | 0 <= i < c.Levels() && 0 <= j < Pow8(i + 1)
      ensures Bit(c, base, st', i, j) <==> Occupied(live, i, j) || OnPath(d, k, i, j)
    {
      CellNode(c, i, j);
      assert Bit(c, base, st, i, j) <==> Occupied(live, i, j) || OnPath(d, k, i, j);
    }
  }

  /** A node's byte holds a set bit exactly when a live block sets one there (off the path). */
  lemma NodeBits(c: Config, base: nat, st: Store, live: set<Block>, d: nat, k: nat, l: nat, n: nat)
    requires Shape(c, base, st) && Shows(c, base, st, live, d, k) && Node(c, l, n) && d <= l
    ensures forall i :: 0 <= i < 8 ==> (View(c, base, st, l, n)[i] <==> Occupied(live, l, 8 * n + i))
    ensures View(c, base, st, l, n) != ZERO <==> InUse(live, l, n)
  {
    var v := View(c, base, st, l, n);
    forall i | 0 <= i < 8 ensures v[i] <==> Occupied(live, l, 8 * n + i) {
      ShownBit(c, base, st, live, d, k, l, n, i);
    }
    ByteInUse(live, l, n, v);
  }

  lemma ShownBit(c: Config, base: nat, st: Store, live: set<Block>, d: nat, k: nat, l: nat, n: nat, i: nat)
    requires Shape(c, base, st) && Shows(c, base, st, live, d, k) && Node(c, l, n) && d <= l && i < 8
    ensures View(c, base, st, l, n)[i] <==> Occupied(live, l, 8 * n + i)
  {
    CellNode(c, l, 8 * n + i);
    assert Bit(c, base, st, l, 8 * n + i) <==> Occupied(live, l, 8 * n + i) || OnPath(d, k, l, 8 * n + i);
  }

  lemma ByteInUse(live: set<Block>, l: nat, n: nat, v: Byte)
    requires forall i :: 0 <= i < 8 ==> (v[i] <==> Occupied(live, l, 8 * n + i))
    ensures v != ZERO <==> InUse(live, l, n)
  {
    if v != ZERO {
      var i :| 0 <= i < 8 && v[i];
      assert Occupied(live, l, 8 * n + i) && (8 * n + i) / 8 == n;
    }
    if InUse(live, l, n) {
      var j: nat :| Occupied(live, l, j) && j / 8 == n;
      assert v[j % 8] by { assert j == 8 * n + j % 8; }
    }
  }

  /** Marking one bit of the node at the end of the path lengthens the path. */
  lemma ShowsLongerPath(c: Config, base: nat, st: Store, st': Store, live: set<Block>, d: nat, k: nat, idx: nat)
    requires Shape(c, base, st) && Shape(c, base, st') && Node(c, d, k) && idx < 8
    requires ViewBecomes(c, base, st, st', d, k, SetClear(View(c, base, st, d, k), idx, 1, true))
    requires Shows(c, base, st, live, d, k)
    ensures Shows(c, base, st', live, d + 1, 8 * k + idx)
  {
    var b := SetClear(View(c, base, st, d, k), idx, 1, true);
    forall l, j | 0 <= l < c.Levels() && 0 <= j < Pow8(l + 1)
      ensures Bit(c, base, st', l, j) <==> Occupied(live, l, j) || OnPath(d + 1, 8 * k + idx, l, j)
    {
      BitsBecome(c, base, st, st', d, k, b, l, j);
      PathStep(d, k, idx, l, j);
      assert Bit(c, base, st, l, j) <==> Occupied(live, l, j) || OnPath(d, k, l, j);
    }
  }

  /** Marking the block's own cells in the node at the end of the path makes the block live. */
  lemma ShowsNewBlock(c: Config, base: nat, st: Store, st': Store, live: set<Block>, B: Block)
    requires Shape(c, base, st) && Shape(c, base, st') && WellFormed(B) && Node(c, B.level, B.cell / 8)
    requires ViewBecomes(c, base, st, st', B.level, B.cell / 8,
               SetClear(View(c, base, st, B.level, B.cell / 8), B.cell % 8, B.width, true))
    requires Shows(c, base, st, live, B.level, B.cell / 8)
    ensures Shows(c, base, st', live + {B}, 0, 0)
  {
    var b := SetClear(View(c, base, st, B.level, B.cell / 8), B.cell % 8, B.width, true);
    forall l, j | 0 <= l < c.Levels() && 0 <= j < Pow8(l + 1)
      ensures Bit(c, base, st', l, j) <==> Occupied(live + {B}, l, j) || OnPath(0, 0, l, j)
    {
      BitsBecome(c, base, st, st', B.level, B.cell / 8, b, l, j);
      BlockBits(B, l, j);
      OccupiedWith(live, B, l, j);
      assert Bit(c, base, st, l, j) <==> Occupied(live, l, j) || OnPath(B.level, B.cell / 8, l, j);
    }
  }

  lemma OccupiedWith(live: set<Block>, B: Block, l: nat, j: nat)
    ensures Occupied(live + {B}, l, j) <==> Occupied(live, l, j) || Touches(B, l, j)
  {
    if Touches(B, l, j) { assert B in live + {B}; }
    if Occupied(live, l, j) {
      var A :| A in live && Touches(A, l, j);
      assert A in live + {B};
    }
  }

  /** At a node in use the path to it adds nothing. */
  lemma ShowsPathForFree(c: Config, base: nat, st: Store, live: set<Block>, d: nat, k: nat)
    requires Shape(c, base, st) && Apart(live) && (d == 0 || InUse(live, d, k))
    ensures Shows(c, base, st, live, 0, 0) <==> Shows(c, base, st, live, d, k)
  {
    if d > 0 { PathAbsorbed(live, d, k); }
    assert forall l, j :: 0 <= l < c.Levels() && 0 <= j < Pow8(l + 1) ==>
      (Occupied(live, l, j) || OnPath(0, 0, l, j) <==> Occupied(live, l, j) || OnPath(d, k, l, j));
  }

  /** Clearing a freed run's cells leaves the path to its node. */
  lemma ShowsWithoutCells(c: Config, base: nat, st: Store, st': Store, live: set<Block>, B: Block)
    requires Shape(c, base, st) && Shape(c, base, st') && Node(c, B.level, B.cell / 8)
    requires Apart(live) && WellFormed(B) && Marked(live, B) && !Under(live, B)
    requires ViewBecomes(c, base, st, st', B.level, B.cell / 8,
               SetClear(View(c, base, st, B.level, B.cell / 8), B.cell % 8, B.width, false))
    requires Shows(c, base, st, live, 0, 0)
    ensures Shows(c, base, st', Remaining(live, B), B.level, B.cell / 8)
  {
    var b := SetClear(View(c, base, st, B.level, B.cell / 8), B.cell % 8, B.width, false);
    forall l, j | 0 <= l < c.Levels() && 0 <= j < Pow8(l + 1)
      ensures Bit(c, base, st', l, j) <==> Occupied(Remaining(live, B), l, j) || OnPath(B.level, B.cell / 8, l, j)
    {
      BitsBecome(c, base, st, st', B.level, B.cell / 8, b, l, j);
      RemainingBits(live, B, l, j);
      assert Bit(c, base, st, l, j) <==> Occupied(live, l, j) || OnPath(0, 0, l, j);
    }
  }

  /** Merging: clearing the parent's bit of an empty node shortens the path. */
  lemma ShowsShorterPath(c: Config, base: nat, st: Store, st': Store, live: set<Block>, B: Block, d: nat, j0: nat)
    requires Shape(c, base, st) && Shape(c, base, st') && Node(c, d, j0 / 8)
    requires Apart(live) && WellFormed(B) && Marked(live, B) && d < B.level && Touches(B, d, j0)
    requires !InUse(Remaining(live, B), d + 1, j0)
    requires ViewBecomes(c, base, st, st', d, j0 / 8, SetClear(View(c, base, st, d, j0 / 8), j0 % 8, 1, false))
    requires Shows(c, base, st, Remaining(live, B), d + 1, j0)
    ensures Shows(c, base, st', Remaining(live, B), d, j0 / 8)
  {
    var b := SetClear(View(c, base, st, d, j0 / 8), j0 % 8, 1, false);
    EmptyNodeClearsParent(live, B, d, j0);
    forall l, j | 0 <= l < c.Levels() && 0 <= j < Pow8(l + 1)
      ensures Bit(c, base, st', l, j) <==> Occupied(Remaining(live, B), l, j) || OnPath(d, j0 / 8, l, j)
    {
      BitsBecome(c, base, st, st', d, j0 / 8, b, l, j);
      PathStep(d, j0 / 8, j0 % 8, l, j);
      assert Bit(c, base, st, l, j) <==> Occupied(Remaining(live, B), l, j) || OnPath(d + 1, j0, l, j);
    }
  }
}
