/** The buddy allocator of alloc/buddy/buddy.cpp as a class over its cache sets and DRAM bytes. */
module BuddyAllocator {
  import opened Shifts
  import opened BuddyTree
  import opened BuddyGeometry
  import opened BuddyCache
  import opened Log2Search

  const SUCCESS: nat := 0
  const FAILED: nat := 1

  /** The block an (order, address) pair names; the mask of an unaligned address is cut off at the byte. */
  function BlockOf(c: Config, order: nat, addr: nat): Block
    requires c.Valid() && order < c.orderMax
  {
    var l := OrderToLevel(c, order);
    var cell := NodeAt(c, addr, l + 1);
    Block(l, cell, Min(OrderToWidth(c, order), 8 - cell % 8))
  }

  predicate TestValidBits(line: Line, width: nat, idx: nat)
  {
    line.valid && AnySet(line.children, idx, width)
  }

  /** Some cached line on the way up from the request's level has room: the run itself, or one cell above. */
  ghost predicate RoomCached(sets: seq<CacheSet>, reqLevel: nat, width: nat)
  {
    reqLevel < |sets| &&
    exists l :: 0 <= l <= reqLevel && SetHasRoom(sets[l].lines, if l == reqLevel then width else 1)
  }

  /** The lookup ends on the deepest level with room ... */
  ghost predicate DeepestRoom(sets: seq<CacheSet>, reqLevel: nat, width: nat, s: nat)
  {
    && s <= reqLevel < |sets| && SetHasRoom(sets[s].lines, if s == reqLevel then width else 1)
    && (forall l :: s < l <= reqLevel ==> !SetHasRoom(sets[l].lines, if l == reqLevel then width else 1))
  }

  /** ... at its first line with room, and there at the first free run. */
  ghost predicate FirstRoom(lines: seq<Line>, width: nat, a: nat, idx: nat)
  {
    && a < |lines| && (forall i :: 0 <= i < a ==> !HasRoom(lines[i], width))
    && lines[a].valid && idx + width <= 8 && Aligned(idx, width) && !AnySet(lines[a].children, idx, width)
    && (forall i: nat :: i < idx && Aligned(i, width) ==> AnySet(lines[a].children, i, width))
  }

  /** The block lies first under the given cell of level s, which was clear, and below bits that were set already. */
  ghost predicate SplitAt(live: set<Block>, B: Block, s: nat, cell: nat)
  {
    && s <= B.level && B.cell == Pow8(B.level - s) * cell && Up(B.cell, B.level - s) == cell
    && (forall l: nat, j: nat :: l < s && Touches(B, l, j) ==> Occupied(live, l, j))
    && (forall j: nat :: Touches(B, s, j) ==> !Occupied(live, s, j))
  }

  /** The cell the lookup chooses. */
  ghost predicate Chooses(c: Config, sets: seq<CacheSet>, reqLevel: nat, width: nat, s: nat, a: nat, cell: nat)
    requires c.Valid() && |sets| == c.Levels()
  {
    && DeepestRoom(sets, reqLevel, width, s) && a < |sets[s].lines|
    && var k := TagNode(c, s, sets[s].lines[a].tag);
       cell >= 8 * k && FirstRoom(sets[s].lines, if s == reqLevel then width else 1, a, cell - 8 * k)
  }

  /** The line a set gives up for a new node: the first invalid one, else the next one round robin. */
  ghost predicate GivesUp(s: CacheSet, a: nat)
  {
    a < |s.lines| &&
    if s.lines[a].valid then a == s.counter && (forall i :: 0 <= i < |s.lines| ==> s.lines[i].valid)
    else forall i :: 0 <= i < a ==> s.lines[i].valid
  }

  /** No line but one has changed. */
  ghost predicate OneLine(before: CacheSet, after: CacheSet, a: nat)
  {
    a < |before.lines| == |after.lines| && forall i :: 0 <= i < |before.lines| && i != a ==> after.lines[i] == before.lines[i]
  }

  /** The set gave up that line; the counter moved on if the line was in use. */
  ghost predicate Evicted(before: CacheSet, after: CacheSet, a: nat)
  {
    && OneLine(before, after, a) && GivesUp(before, a)
    && after.counter == if !before.lines[a].valid then before.counter else if a + 1 == |before.lines| then 0 else a + 1
  }

  ghost predicate Renewed(before: CacheSet, after: CacheSet)
  {
    exists a :: Evicted(before, after, a)
  }

  /** What `alloc` does to the cache: one line of the level it starts on, and one line given up on every level below. */
  ghost predicate CacheAfter(before: seq<CacheSet>, after: seq<CacheSet>, s: nat, a: nat, reqLevel: nat)
  {
    |after| == |before| && forall l :: 0 <= l < |before| ==>
      if l < s || l > reqLevel then after[l] == before[l]
      else if l == s then OneLine(before[l], after[l], a) && after[l].counter == before[l].counter
      else Renewed(before[l], after[l])
  }

  /** The nodes on the way from level s down to the block are left in the cache, unless they became full. */
  ghost predicate PathCached(c: Config, base: nat, st: Store, B: Block, s: nat)
    requires Shape(c, base, st)
  {
    forall l :: s <= l <= B.level ==> CachedUnlessFull(c, base, st, l, PathNode(B, l))
  }

  ghost function PathNode(B: Block, l: nat): nat
    requires l <= B.level
  {
    Up(B.cell, B.level - l) / 8
  }

  /** What `alloc` does: to which cell of which line the block goes, and what is in the cache afterwards. */
  ghost predicate AllocatedAt(c: Config, base: nat, before: seq<CacheSet>, live: set<Block>, st: Store, B: Block)
    requires Shape(c, base, st) && |before| == c.Levels()
  {
    exists s, a, cell ::
      && Chooses(c, before, B.level, B.width, s, a, cell) && SplitAt(live, B, s, cell)
      && CacheAfter(before, st.sets, s, a, B.level) && PathCached(c, base, st, B, s)
  }

  /** `free` gives up a line only when its node, below the root, became empty; no line takes another node. */
  ghost predicate OnlyEmptied(c: Config, base: nat, before: CacheSet, st: Store, l: nat)
    requires Shape(c, base, st) && l < c.Levels()
  {
    var after := st.sets[l];
    && |after.lines| == |before.lines| && after.counter == before.counter
    && forall a :: 0 <= a < |before.lines| ==>
         && (after.lines[a].valid ==> before.lines[a].valid && after.lines[a].tag == before.lines[a].tag)
         && (before.lines[a].valid && !after.lines[a].valid ==> EmptyNode(c, base, st, l, TagNode(c, l, before.lines[a].tag)))
  }

  ghost predicate EmptyNode(c: Config, base: nat, st: Store, l: nat, k: nat)
    requires Shape(c, base, st)
  {
    l > 0 && Node(c, l, k) && View(c, base, st, l, k) == ZERO
  }

  ghost predicate OnlyEmptiedAll(c: Config, base: nat, before: seq<CacheSet>, st: Store)
    requires Shape(c, base, st) && |before| == c.Levels()
  {
    forall l :: 0 <= l < c.Levels() ==> OnlyEmptied(c, base, before[l], st, l)
  }

  /** On the levels above l every node left in the cache stays there. */
  ghost predicate KeptAbove(c: Config, base: nat, st: Store, st': Store, l: nat)
    requires Shape(c, base, st) && Shape(c, base, st')
  {
    forall m: nat, n: nat :: m < l && CachedUnlessFull(c, base, st, m, n) ==> CachedUnlessFull(c, base, st', m, n)
  }

  /** The node of level m on the way down from node k of level l. */
  ghost function WayNode(k: nat, l: nat, m: nat): nat
    requires l <= m
  {
    FirstBelow(k, m - l)
  }

  ghost predicate WayCached(c: Config, base: nat, st: Store, k: nat, l: nat, end: nat)
    requires Shape(c, base, st)
  {
    forall m :: l <= m < end ==> CachedUnlessFull(c, base, st, m, WayNode(k, l, m))
  }

  /** On the levels from l to `end` one line each was given up, and nothing else changed. */
  ghost predicate EvictedFrom(before: seq<CacheSet>, after: seq<CacheSet>, l: nat, end: nat)
  {
    |after| == |before| && forall m :: 0 <= m < |before| ==>
      if l <= m < end then Renewed(before[m], after[m]) else after[m] == before[m]
  }

  /** A node used by `alloc` is left in the cache, unless it became full. */
  ghost predicate CachedUnlessFull(c: Config, base: nat, st: Store, l: nat, k: nat)
    requires Shape(c, base, st)
  {
    Node(c, l, k) && (Cached(c, base, st, l, k) <==> View(c, base, st, l, k) != FULL)
  }

  /** Outside the metadata area nothing is written. */
  ghost predicate OnlyMeta(c: Config, base: nat, before: seq<Byte>, after: seq<Byte>)
  {
    |before| == |after| &&
    forall x :: 0 <= x < |before| && !(base <= x < base + MetaSize(c)) ==> before[x] == after[x]
  }

  lemma {:induction false} CellsInTree(c: Config, l: nat, k: nat, idx: nat, w: nat)
    requires c.Valid() && Node(c, l, k) && w in {1, 2, 4} && idx + w <= 8 && Aligned(idx, w)
    ensures InTree(c, Block(l, 8 * k + idx, w)) && (8 * k + idx) % 8 == idx
    ensures 8 * k + idx < Pow8(l + 1) && Min(w, 8 - idx) == w
  {
    AlignedSum(k, idx, w);
    assert Pow8(l + 1) == 8 * Pow8(l);
  }

  lemma AlignedSum(k: nat, idx: nat, w: nat)
    requires idx < 8 && w in {1, 2, 4} && Aligned(idx, w)
    ensures Aligned(8 * k + idx, w) && (8 * k + idx) % 8 == idx
  {
    var x := 8 * k + idx;
    assert x % 8 == idx;
    if w == 2 {
      EvenParts(x);
      EvenParts(idx);
    } else if w == 4 {
      EvenParts(x);
      EvenParts(idx);
    }
  }

  lemma EvenParts(x: nat)
    ensures x % 8 % 2 == x % 2 && x % 8 % 4 == x % 4
  {
    var q, r := x / 8, x % 8;
    assert x == 2 * (4 * q) + r && x == 4 * (2 * q) + r;
    ModPlus(4 * q, r, 2);
    ModPlus(2 * q, r, 4);
  }

  lemma ModPlus(q: nat, r: nat, m: nat)
    requires m in {2, 4}
    ensures (m * q + r) % m == r % m
  {
  }

  /** `BlockOf` recovers a block from its order and start address. */
  lemma BlockOfStart(c: Config, order: nat, k: nat, idx: nat)
    requires c.Valid() && order < c.orderMax
    requires var l, w := OrderToLevel(c, order), OrderToWidth(c, order);
      l < c.Levels() && k < Pow8(l) && w in {1, 2, 4} && idx + w <= 8 && Aligned(idx, w)
    ensures var l, w := OrderToLevel(c, order), OrderToWidth(c, order);
      var B := Block(l, 8 * k + idx, w);
      && InTree(c, B)
      && BlockOf(c, order, Start(c, B)) == B
      && TagToAddr(c, ParentTagIdxToTag(c, NodeTag(c, l, k), l, idx)) == Start(c, B)
      && Size(c, B) == Pow2(order + c.minShift)
  {
    hide Shl, Shr, Low, BitOr, NodeTag, ParentTagIdxToTag, NodeAt;
    var l, w := OrderToLevel(c, order), OrderToWidth(c, order);
    OrderSize(c, order);
    CellsInTree(c, l, k, idx, w);
    NodeAtInverts(c, l, 8 * k + idx);
    if l + 1 == c.Levels() { LastLevelIndex(c, order, idx); }
    BlockAddress(c, l, k, idx);
  }

  /** Some cell of the run a request names is in use, by whatever block. */
  ghost predicate RunMarked(c: Config, live: set<Block>, order: nat, addr: nat)
    requires c.Valid() && order < c.orderMax
  {
    Marked(live, BlockOf(c, order, addr))
  }

  lemma LiveIsMarked(c: Config, live: set<Block>, order: nat, addr: nat)
    requires c.Valid() && order < c.orderMax && BlockOf(c, order, addr) in live && OrderToWidth(c, order) > 0
    ensures RunMarked(c, live, order, addr)
  {
    var B := BlockOf(c, order, addr);
    assert Touches(B, B.level, B.cell);
    assert Occupied(live, B.level, B.cell);
  }

  /** A run of another width inside a live block is marked, and is no live block. */
  lemma PartOfBlock(c: Config, live: set<Block>, A: Block, order: nat, addr: nat)
    requires c.Valid() && order < c.orderMax && OrderToWidth(c, order) > 0 && Apart(live) && A in live
    requires var B := BlockOf(c, order, addr); B.level == A.level && B.cell == A.cell && B.width != A.width
    ensures RunMarked(c, live, order, addr) && BlockOf(c, order, addr) !in live
  {
    var B := BlockOf(c, order, addr);
    assert Touches(A, A.level, A.cell) && Touches(B, A.level, A.cell);
    assert Occupied(live, A.level, A.cell);
    assert Min(A.level, B.level) == A.level;
    assert Overlap(A, B);
  }

  /** Right after construction for a 30-bit space, order 13 at address 0 is such a request: half of the reserved block. */
  lemma ReservedHalfMarked(setSize: nat)
    requires setSize >= 1
    ensures var c := Config(22, 8, setSize);
      var R := Block(OrderToLevel(c, 14), 0, OrderToWidth(c, 14));
      && IsCeilLog2(Shr(MetaSize(c), c.minShift), 14) && RunMarked(c, {R}, 13, 0) && BlockOf(c, 13, 0) != R
      && !Under({R}, BlockOf(c, 13, 0)) && Remaining({R}, BlockOf(c, 13, 0)) == {Block(2, 1, 1)}
  {
    hide Shl, Shr;
    var c := Config(22, 8, setSize);
    ConfiguredSpacesCovered(22, setSize);
    var R := Block(OrderToLevel(c, 14), 0, OrderToWidth(c, 14));
    OrderSize(c, 13);
    OrderSize(c, 14);
    Pow2Small();
    ShlPlus(0, 0, CellShift(c, 2));
    PowPositive(3);
    NodeAtInverts(c, 2, 0);
    PartOfBlock(c, {R}, R, 13, 0);
    HalfLeft(R, BlockOf(c, 13, 0));
  }

  lemma HalfLeft(R: Block, B: Block)
    requires R == Block(2, 0, 2) && B == Block(2, 0, 1)
    ensures Remaining({R}, B) == {Block(2, 1, 1)}
  {
    MeetsAt(R, B);
  }

  /**
   Freeing a live block with another order: one of a deeper level is refused; on its own level a
   run no wider leaves the rest of the block; one of a higher level clears bits above the block.
   */
  lemma WrongOrder(c: Config, live: set<Block>, A: Block, order: nat)
    requires c.Valid() && order < c.orderMax && Apart(live) && A in live && InTree(c, A)
    ensures var l, B := OrderToLevel(c, order), BlockOf(c, order, Start(c, A));
      && (RunMarked(c, live, order, Start(c, A)) <==> l <= A.level)
      && (l < A.level ==> Under(live, B))
      && (l == A.level && B.width <= A.width ==> !Under(live, B))
  {
    hide Shl, Shr, NodeAt, Overlap;
    var l, B := OrderToLevel(c, order), BlockOf(c, order, Start(c, A));
    OrderSize(c, order);
    NodeAtInverts(c, A.level, A.cell);
    if l <= A.level {
      NodeAtUp(c, Start(c, A), l + 1, A.level + 1);
      assert Touches(A, l, B.cell) && Occupied(live, l, B.cell) && InRun(B, B.cell);
      if l == A.level && B.width <= A.width { NothingUnder(live, A, B); }
    } else {
      NodeAtUp(c, Start(c, A), A.level + 1, l + 1);
      forall j | InRun(B, j) && Occupied(live, l, j) ensures false {
        SameNodeUp(B.cell, j, l - A.level);
        var C :| C in live && Touches(C, l, j);
        TouchesUp(C, l, j, A.level);
        BothTouch(C, A, A.cell);
      }
    }
  }

  /** Nothing lies under a run inside a live block of its level. */
  lemma NothingUnder(live: set<Block>, A: Block, B: Block)
    requires Apart(live) && A in live && A.level == B.level && A.cell <= B.cell && B.cell + B.width <= A.cell + A.width
    ensures !Under(live, B)
  {
    forall C | C in live && C.level > B.level ensures !InRun(B, Up(C.cell, C.level - B.level)) {
      if InRun(B, Up(C.cell, C.level - B.level)) { BothTouch(C, A, Up(C.cell, C.level - B.level)); }
    }
  }

  lemma Pow2Small()
    ensures Shl(1, 0) == 1 && Shl(1, 1) == 2
  {
  }

  /** If a cell of the run is in use, every level of its path shows a set bit where `free` looks for one. */
  lemma MarkedRunTests(c: Config, base: nat, st: Store, live: set<Block>, order: nat, addr: nat, l: nat)
    requires Shape(c, base, st) && Shows(c, base, st, live, 0, 0) && Apart(live) && order < c.orderMax
    requires RunMarked(c, live, order, addr) && l <= OrderToLevel(c, order) < c.Levels()
    ensures Node(c, l, NodeAt(c, addr, l))
    ensures AnySet(View(c, base, st, l, NodeAt(c, addr, l)), AddrToIdx(c, addr, l),
                   if l == OrderToLevel(c, order) then OrderToWidth(c, order) else 1)
  {
    hide Shows, View, NodeAt, AddrToIdx, AddrToTag, NodeTag, Apart;
    var B := BlockOf(c, order, addr);
    AddrToTagIsNode(c, addr, l);
    AddrToIdxIsDigit(c, addr, l);
    AddrToIdxIsDigit(c, addr, B.level);
    var j :| B.cell <= j < B.cell + B.width && Occupied(live, B.level, j);
    var n := NodeAt(c, addr, l);
    NodeBits(c, base, st, live, 0, 0, l, n);
    if l == B.level {
      assert j == 8 * n + (j - 8 * n) && View(c, base, st, l, n)[j - 8 * n];
    } else {
      var u := NodeAt(c, addr, l + 1);
      OccupiedUp(live, B.level, j, l);
      SameNodeUp(B.cell, j, B.level - l);
      NodeAtUp(c, addr, l + 1, B.level + 1);
      assert u == 8 * n + u % 8 && View(c, base, st, l, n)[u % 8];
    }
  }

  lemma OccupiedUp(live: set<Block>, m: nat, j: nat, l: nat)
    requires Apart(live) && Occupied(live, m, j) && l <= m
    ensures Occupied(live, l, Up(j, m - l))
  {
    var A :| A in live && Touches(A, m, j);
    TouchesUp(A, m, j, l);
  }

  class Buddy {
    const c: Config
    const base: nat
    const metaOrder: nat
    var sets: seq<CacheSet>
    var freeLines: seq<Line>
    var dram: seq<Byte>
    /** The blocks in use; of a block freed in part, the cells it has left. */
    ghost var live: set<Block>

    ghost function St(): Store reads this { Store(sets, dram) }

    /** The block reserved for the metadata itself. */
    function Reserved(): Block
      requires metaOrder < c.orderMax
    {
      Block(OrderToLevel(c, metaOrder), 0, OrderToWidth(c, metaOrder))
    }

    /** The tree is that of the live blocks. */
    ghost predicate Consistent()
      reads this
    {
      && Coherent(c, base, St())
      && |freeLines| == c.Levels() && metaOrder < c.orderMax && IsCeilLog2(Shr(MetaSize(c), c.minShift), metaOrder)
      && Apart(live) && (forall B :: B in live ==> InTree(c, B))
      && Shows(c, base, St(), live, 0, 0)
    }

    /** ... and the reserved block is one of them. */
    ghost predicate Valid()
      reads this
    {
      Consistent() && Reserved() in live
    }

    constructor (config: Config, managedBase: nat, memory: seq<Byte>)
      requires config.Valid() && managedBase + MetaSize(config) <= |memory|
      requires Shr(MetaSize(config), config.minShift) < Pow2(Pow2(5))
      requires forall x :: managedBase <= x < managedBase + MetaSize(config) ==> memory[x] == ZERO
      ensures Valid() && c == config && base == managedBase && dram == memory
      ensures live == {Reserved()} && Size(c, Reserved()) == Pow2(metaOrder + c.minShift) && Start(c, Reserved()) == 0
      ensures IsCeilLog2(Shr(MetaSize(c), c.minShift), metaOrder)
      ensures forall l :: 0 <= l < c.Levels() ==> |sets[l].lines| == Min(Pow8(l), c.setSize) && sets[l].counter == 0
    {
      hide Shl, Shr, Shows, GoodLines, View, BlockOf, ParentTagIdxToTag, NodeTag;
      c := config;
      base := managedBase;
      var order := OrderBase2(5, Shr(MetaSize(config), config.minShift));
      MetaOrderFits(config, order);
      OrderSize(config, order);
      metaOrder := order;
      var metaLevel, metaWidth := OrderToLevel(config, order), OrderToWidth(config, order);
      var empty := Line(false, 0, ZERO);
      var ss: seq<CacheSet> := [];
      for i := 0 to config.Levels()
        invariant |ss| == i
        invariant forall l :: 0 <= l < i ==> ss[l] == InitialSet(config, metaLevel, metaWidth, l)
      {
        PowPositive(i);
        var lines := seq(SetSize(config, i), _ => empty);
        if i <= metaLevel {
          lines := lines[0 := Line(true, 0, SetClear(ZERO, 0, if i == metaLevel then metaWidth else 1, true))];
        }
        ss := ss + [CacheSet(lines, 0)];
      }
      sets := ss;
      freeLines := seq(config.Levels(), _ => empty);
      dram := memory;
      live := {Block(metaLevel, 0, metaWidth)};
      new;
      InitialShows(c, base, Store(ss, memory), metaLevel, metaWidth);
      BlockOfStart(c, metaOrder, 0, 0) by { PowPositive(metaLevel); }
      ShlPlus(0, 0, CellShift(c, metaLevel));
    }

    /** `tag_in_cache` */
    method TagInCache(l: nat, tag: nat) returns (hit: bool, a: nat)
      requires l < |sets|
      ensures a == Slot(sets[l].lines, tag) && (hit <==> a < |sets[l].lines|)
    {
      hit, a := false, 0;
      SlotFinds(sets[l].lines, tag);
      while a < |sets[l].lines|
        invariant !hit && a <= Slot(sets[l].lines, tag)
      {
        hit := sets[l].lines[a].valid && sets[l].lines[a].tag == tag;
        if hit { break; }
        a := a + 1;
      }
    }

    /** `get_valid_free_set` with `get_valid_free_line` */
    method GetValidFreeSet(l: nat, width: nat) returns (found: bool, a: nat, idx: nat)
      requires l < |sets| && width in {1, 2, 4}
      ensures found <==> SetHasRoom(sets[l].lines, width)
      ensures found ==> FirstRoom(sets[l].lines, width, a, idx)
    {
      found, a, idx := false, 0, 0;
      while a < |sets[l].lines|
        invariant !found && a <= |sets[l].lines|
        invariant forall i :: 0 <= i < a ==> !HasRoom(sets[l].lines[i], width)
      {
        var line := sets[l].lines[a];
        if line.valid {
          idx := GetFree(line.children, width);
          found := !AnySet(line.children, idx, width);
          assert found <==> HasRoom(line, width);
        }
        if found { break; }
        a := a + 1;
      }
    }

    /** `choose_line`: an invalid line if there is one, else the next one round robin. */
    method ChooseLine(l: nat) returns (noFlush: bool, a: nat)
      requires Shape(c, base, St()) && l < c.Levels()
      modifies this`sets
      ensures |sets| == |old(sets)| && forall i :: 0 <= i < |sets| ==> sets[i].lines == old(sets)[i].lines
      ensures Shape(c, base, St())
      ensures a < |sets[l].lines|
      ensures noFlush <==> !sets[l].lines[a].valid
      ensures !noFlush ==> forall i :: 0 <= i < |sets[l].lines| ==> sets[l].lines[i].valid
      ensures noFlush ==> sets == old(sets) && forall i :: 0 <= i < a ==> sets[l].lines[i].valid
      ensures !noFlush ==> a == old(sets)[l].counter && sets[l].counter == if a + 1 == |sets[l].lines| then 0 else a + 1
      ensures forall i :: 0 <= i < |sets| && i != l ==> sets[i] == old(sets)[i]
    {
      noFlush, a := false, 0;
      PowPositive(l);
      while a < |sets[l].lines|
        invariant !noFlush && a <= |sets[l].lines|
        invariant forall i :: 0 <= i < a ==> sets[l].lines[i].valid
      {
        if !sets[l].lines[a].valid {
          noFlush := true;
          return;
        }
        a := a + 1;
      }
      a := sets[l].counter;
      var next := if a + 1 >= |sets[l].lines| then 0 else a + 1;
      sets := sets[l := sets[l].(counter := next)];
    }

    /** `flush_line`: the combined view does not change. */
    method FlushLine(l: nat, a: nat)
      requires Coherent(c, base, St()) && l < c.Levels() && a < |sets[l].lines| && sets[l].lines[a].valid
      modifies this`sets, this`dram
      ensures Coherent(c, base, St()) && SameView(c, base, old(St()), St())
      ensures sets == old(sets)[l := old(sets)[l].(lines := old(sets)[l].lines[a := Line(false, 0, ZERO)])]
      ensures OnlyMeta(c, base, old(dram), dram)
    {
      ghost var st := St();
      ghost var k := LineNode(c, base, st, l, a);
      var line := sets[l].lines[a];
      DropLine(c, base, st, l, a, k, line.children, 0, ZERO);
      dram := dram[MetaAddr(c, base, line.tag, l) := line.children];
      sets := sets[l := sets[l].(lines := sets[l].lines[a := Line(false, 0, ZERO)])];
    }

    /** Marks a run of bits in a loaded line, names the child, and flushes the line if it became full. */
    method MarkLine(l: nat, a: nat, width: nat, idx: nat, ghost st: Store, ghost k: nat) returns (tag: nat)
      requires Coherent(c, base, st) && Node(c, l, k) && a < |st.sets[l].lines| && width > 0 && idx < 8
      requires if st.sets[l].lines[a].valid then st.sets[l].lines[a].tag == NodeTag(c, l, k)
               else !Cached(c, base, st, l, k)
      requires St() == WithLine(st, l, a, Line(true, NodeTag(c, l, k), View(c, base, st, l, k)))
      modifies this`sets, this`dram
      ensures Coherent(c, base, St())
      ensures ViewBecomes(c, base, st, St(), l, k, SetClear(View(c, base, st, l, k), idx, width, true))
      ensures tag == ParentTagIdxToTag(c, NodeTag(c, l, k), l, idx)
      ensures OnlyMeta(c, base, old(dram), dram)
      ensures a < |sets[l].lines| && (sets[l].lines[a].valid <==> SetClear(View(c, base, st, l, k), idx, width, true) != FULL)
      ensures |sets| == |st.sets| && OneLine(st.sets[l], sets[l], a) && sets[l].counter == st.sets[l].counter
      ensures forall i :: 0 <= i < |sets| && i != l ==> sets[i] == st.sets[i]
      ensures CachedUnlessFull(c, base, St(), l, k)
    {
      ghost var b := SetClear(View(c, base, st, l, k), idx, width, true);
      assert b[idx];
      PutLine(c, base, st, l, a, k, b);
      var line := sets[l].lines[a];
      sets := sets[l := sets[l].(lines := sets[l].lines[a := line.(children := SetClear(line.children, idx, width, true))])];
      ghost var st1 := WithLine(st, l, a, Line(true, NodeTag(c, l, k), b));
      assert sets == st1.sets by {
        assert forall i :: 0 <= i < |sets| && i != l ==> sets[i] == st.sets[i];
        assert sets[l].lines == st1.sets[l].lines;
      }
      tag := ParentTagIdxToTag(c, line.tag, l, idx);
      if sets[l].lines[a].children == FULL {
        FlushLine(l, a);
      }
      MarkedLineCached(c, base, st, St(), l, a, k);
    }

    /** The lookup loop of `alloc`: the deepest cached line with room, from the request's level up. */
    method FindLine(reqLevel: nat, width: nat) returns (found: bool, start: nat, a: nat, idx: nat)
      requires |sets| == c.Levels() && reqLevel < c.Levels() && width in {1, 2, 4}
      ensures found <==> RoomCached(sets, reqLevel, width)
      ensures found ==> DeepestRoom(sets, reqLevel, width, start)
      ensures found ==> FirstRoom(sets[start].lines, if start == reqLevel then width else 1, a, idx)
    {
      found, a, idx, start := false, 0, 0, reqLevel + 1;
      while !found && start > 0
        invariant start <= reqLevel + 1
        invariant forall l :: start < l <= reqLevel ==> !SetHasRoom(sets[l].lines, if l == reqLevel then width else 1)
        invariant start <= reqLevel && !found ==> !SetHasRoom(sets[start].lines, if start == reqLevel then width else 1)
        invariant found ==> DeepestRoom(sets, reqLevel, width, start)
        invariant found ==> FirstRoom(sets[start].lines, if start == reqLevel then width else 1, a, idx)
        decreases !found, start
      {
        start := start - 1;
        found, a, idx := GetValidFreeSet(start, if start == reqLevel then width else 1);
      }
    }

    /** Picks a line of a set for a new node, flushing the one it held. */
    method MakeRoom(l: nat) returns (a: nat)
      requires Coherent(c, base, St()) && l < c.Levels()
      modifies this`sets, this`dram
      ensures Coherent(c, base, St()) && SameView(c, base, old(St()), St()) && OnlyMeta(c, base, old(dram), dram)
      ensures a < |sets[l].lines| && !sets[l].lines[a].valid
      ensures |sets| == |old(sets)| && Evicted(old(sets)[l], sets[l], a)
      ensures forall i :: 0 <= i < |sets| && i != l ==> sets[i] == old(sets)[i]
    {
      ghost var before := St();
      var noFlush;
      noFlush, a := ChooseLine(l);
      SameLinesSameView(c, base, before, St());
      if !noFlush { FlushLine(l, a); }
    }

    /** One round of `alloc`'s downward loop: makes room, loads node k of level l and marks its first bits. */
    method LoadLine(l: nat, tag: nat, width: nat, ghost k: nat) returns (child: nat, ghost st: Store)
      requires Coherent(c, base, St()) && Apart(live) && Node(c, l, k) && l > 0 && width in {1, 2, 4}
      requires tag == NodeTag(c, l, k) && FreeCell(live, l - 1, k) && Shows(c, base, St(), live, l, k)
      modifies this`sets, this`dram
      ensures Coherent(c, base, St()) && OnlyMeta(c, base, old(dram), dram)
      ensures child == ParentTagIdxToTag(c, tag, l, 0)
      ensures Shape(c, base, st) && Shows(c, base, st, live, l, k)
      ensures ViewBecomes(c, base, st, St(), l, k, SetClear(View(c, base, st, l, k), 0, width, true))
      ensures KeptAbove(c, base, old(St()), St(), l)
      ensures |sets| == |old(sets)| && Renewed(old(sets)[l], sets[l]) && CachedUnlessFull(c, base, St(), l, k)
      ensures forall i :: 0 <= i < |sets| && i != l ==> sets[i] == old(sets)[i]
    {
      ghost var before := St();
      var a := MakeRoom(l);
      st := St();
      ShowsKept(c, base, before, st, live, l, k);
      FreshNodeEmpty(c, base, st, live, l, k);
      MetaAddrInjective(c, base, l, k, l, k);
      var byte := dram[MetaAddr(c, base, tag, l)];
      assert byte == ZERO;
      sets := sets[l := sets[l].(lines := sets[l].lines[a := Line(true, tag, byte)])];
      // the source ignores whether get_valid_free_line succeeds: the node is empty
      var idx := GetFree(byte, width);
      assert idx == 0;
      child := MarkLine(l, a, width, 0, st, k);
      assert Evicted(before.sets[l], sets[l], a);
      OtherLevelsKept(c, base, before, st, St(), l, k);
    }

    /** The downward loop of `alloc`, from the free cell k of level l - 1. */
    method Descend(order: nat, l: nat, tag0: nat, ghost k: nat) returns (tag: nat, ghost B: Block)
      requires Coherent(c, base, St()) && Apart(live)
      requires order < c.orderMax && OrderToWidth(c, order) in {1, 2, 4}
      requires 0 < l <= OrderToLevel(c, order) < c.Levels() && Node(c, l, k) && tag0 == NodeTag(c, l, k)
      requires FreeCell(live, l - 1, k) && Shows(c, base, St(), live, l, k)
      modifies this`sets, this`dram
      ensures Coherent(c, base, St()) && OnlyMeta(c, base, old(dram), dram)
      ensures Finished(c, order, live, B) && TagToAddr(c, tag) == Start(c, B)
      ensures Shows(c, base, St(), live + {B}, 0, 0)
      ensures B.level == OrderToLevel(c, order) && B.width == OrderToWidth(c, order) && B.cell == FirstBelow(k, B.level - l + 1)
      ensures EvictedFrom(old(sets), sets, l, B.level + 1)
      ensures KeptAbove(c, base, old(St()), St(), l) && WayCached(c, base, St(), k, l, B.level + 1)
    {
      hide Shows, GoodLines, ViewBecomes, View, FreeCell, CachedUnlessFull, Evicted, EvictedFrom, KeptAbove, WayCached, FirstBelow;
      var reqLevel, width := OrderToLevel(c, order), OrderToWidth(c, order);
      tag := tag0;
      ghost var kk := k;
      ghost var st;
      var i := l;
      FirstBelowStep(k, 0);
      NoStep(c, base, St(), k, l);
      while i < reqLevel
        invariant l <= i <= reqLevel && Coherent(c, base, St()) && OnlyMeta(c, base, old(dram), dram)
        invariant kk == FirstBelow(k, i - l) && EvictedFrom(old(sets), sets, l, i)
        invariant KeptAbove(c, base, old(St()), St(), l) && WayCached(c, base, St(), k, l, i)
        invariant Node(c, i, kk) && tag == NodeTag(c, i, kk)
        invariant FreeCell(live, i - 1, kk) && Shows(c, base, St(), live, i, kk)
      {
        ghost var before := St();
        tag, st := LoadLine(i, tag, 1, kk);
        OneStep(c, base, old(St()), before, St(), k, l, i);
        ShowsLongerPath(c, base, st, St(), live, i, kk, 0);
        ChildTag(c, i, kk, 0);
        FreeDown(live, i - 1, kk, 0);
        FirstBelowStep(k, i - l);
        kk := 8 * kk;
        i := i + 1;
      }
      ghost var before := St();
      tag, st := LoadLine(reqLevel, tag, width, kk);
      OneStep(c, base, old(St()), before, St(), k, l, reqLevel);
      FirstBelowStep(k, reqLevel - l);
      B := Block(reqLevel, 8 * kk, width);
      NewBlockInFreeNode(c, base, st, St(), live, order, kk);
    }

    /** `alloc` */
    method Alloc(order: nat) returns (stat: nat, addr: nat)
      requires Consistent()
      modifies this`sets, this`dram, this`live
      ensures Consistent() && (old(Valid()) ==> Valid()) && OnlyMeta(c, base, old(dram), dram)
      ensures stat in {SUCCESS, FAILED}
      ensures stat == SUCCESS <==>
        order < c.orderMax - 1 && RoomCached(old(sets), OrderToLevel(c, order), OrderToWidth(c, order))
      ensures stat == FAILED ==> live == old(live) && addr == 0 && dram == old(dram) && sets == old(sets)
      ensures stat == SUCCESS ==>
        var B := BlockOf(c, order, addr);
        && live == old(live) + {B} && B !in old(live)
        && InTree(c, B) && Start(c, B) == addr && Size(c, B) == Pow2(order + c.minShift)
        && AllocatedAt(c, base, old(sets), old(live), St(), B)
    {
      hide Shows, ViewBecomes, FreeCell, Shl, Shr, BitOr, Low, Cached, RoomCached, DeepestRoom, SplitAt, FirstBelow, Chooses,
        CacheAfter, PathCached, InUse, NodeTag, View, GoodLines, IsCeilLog2, Apart;
      if order >= c.orderMax - 1 { return FAILED, 0; }
      var reqLevel, width := OrderToLevel(c, order), OrderToWidth(c, order);
      OrderSize(c, order);
      var found, start, a, idx := FindLine(reqLevel, width);
      if !found { return FAILED, 0; }

      ghost var st := St();
      ghost var k := FoundRun(c, base, st, live, start, a, idx, if start == reqLevel then width else 1);
      FirstBelowStep(8 * k + idx, 0);
      var tag;
      ghost var B;
      tag, B := Place(order, start, a, idx, k);
      FirstUnder(live, B, start, 8 * k + idx);
      ChoosesCell(c, st.sets, reqLevel, width, start, a, k, idx);
      assert AllocatedAt(c, base, st.sets, live, St(), B);
      addr := TagToAddr(c, tag);
      stat := SUCCESS;
      live := live + {B};
    }

    /** The rest of `alloc`: marks the run found, or the cell above, and goes down from there. */
    method Place(order: nat, start: nat, a: nat, idx: nat, ghost k: nat) returns (tag: nat, ghost B: Block)
      requires Coherent(c, base, St()) && Apart(live) && Shows(c, base, St(), live, start, k)
      requires order < c.orderMax && OrderToWidth(c, order) in {1, 2, 4}
      requires start <= OrderToLevel(c, order) < c.Levels() && Node(c, start, k) && a < |sets[start].lines|
      requires sets[start].lines[a].valid && sets[start].lines[a].tag == NodeTag(c, start, k)
      requires View(c, base, St(), start, k) == sets[start].lines[a].children
      requires var w := if start == OrderToLevel(c, order) then OrderToWidth(c, order) else 1;
        idx + w <= 8 && Aligned(idx, w) && forall j :: 8 * k + idx <= j < 8 * k + idx + w ==> FreeCell(live, start, j)
      modifies this`sets, this`dram
      ensures Coherent(c, base, St()) && OnlyMeta(c, base, old(dram), dram)
      ensures Finished(c, order, live, B) && TagToAddr(c, tag) == Start(c, B) && Shows(c, base, St(), live + {B}, 0, 0)
      ensures B.level == OrderToLevel(c, order) && B.width == OrderToWidth(c, order)
      ensures B.cell == FirstBelow(8 * k + idx, B.level - start)
      ensures CacheAfter(old(sets), sets, start, a, B.level) && PathCached(c, base, St(), B, start)
    {
      hide Shows, ViewBecomes, FreeCell, Shl, Shr, BitOr, Low, CachedUnlessFull, Evicted, OneLine, FirstBelow, CacheAfter,
        PathCached, KeptAbove, WayCached, EvictedFrom, NodeTag, View, GoodLines;
      ghost var st := St();
      ghost var cell := 8 * k + idx;
      var reqLevel, width := OrderToLevel(c, order), OrderToWidth(c, order);
      FirstBelowStep(cell, 0);
      SameLine(st, start, a);
      tag := MarkLine(start, a, if start == reqLevel then width else 1, idx, st, k);
      ghost var mid := St();
      NoStep(c, base, mid, cell, start + 1);
      if start == reqLevel {
        B := Block(reqLevel, cell, width);
        NewBlock(c, base, st, mid, live, order, k, idx);
      } else {
        ShowsLongerPath(c, base, st, mid, live, start, k, idx);
        ChildTag(c, start, k, idx);
        tag, B := Descend(order, start + 1, tag, cell);
        KeptThere(c, base, mid, St(), start + 1, start, k);
      }
      CacheAfterBoth(st.sets, mid.sets, sets, start, a, reqLevel);
      PathIsCached(c, base, St(), B, start, cell);
    }

    /** The frees `free` answers rightly: of a live block, or of a run no part of which is in use. */
    ghost predicate MatchingFree(order: nat, addr: nat)
      requires c.Valid()
      reads this
    {
      order < c.orderMax - 1 ==> BlockOf(c, order, addr) in live || !RunMarked(c, live, order, addr)
    }

    /**
     `free`, of any request: it succeeds exactly when some cell of the run is in use. That is right
     exactly for a matching free. Of any other run the bits are cleared under the blocks that use them:
     the tree is then that of the cells they have left, unless one lies on a deeper level; then it is
     that of no set of blocks at all.
     */
    method Free(order: nat, addr: nat) returns (stat: nat)
      requires Consistent()
      modifies this`sets, this`dram, this`live, this`freeLines
      ensures Coherent(c, base, St()) && OnlyMeta(c, base, old(dram), dram) && stat in {SUCCESS, FAILED}
      ensures stat == SUCCESS <==> order < c.orderMax - 1 && RunMarked(c, old(live), order, addr)
      ensures (stat == SUCCESS <==> order < c.orderMax - 1 && BlockOf(c, order, addr) in old(live))
        <==> old(MatchingFree(order, addr))
      ensures Shows(c, base, St(), if stat == SUCCESS then old(live) - {BlockOf(c, order, addr)} else old(live), 0, 0)
        <==> old(MatchingFree(order, addr))
      ensures stat == SUCCESS ==> live == Remaining(old(live), BlockOf(c, order, addr))
      ensures stat == SUCCESS && BlockOf(c, order, addr) in old(live) ==> live == old(live) - {BlockOf(c, order, addr)}
      ensures stat == SUCCESS ==> (Consistent() <==> !Under(old(live), BlockOf(c, order, addr)))
      ensures stat == SUCCESS ==> (ShowsBlocks(c, base, St()) <==> !Under(old(live), BlockOf(c, order, addr)))
      ensures stat == FAILED ==> Consistent() && live == old(live) && dram == old(dram) && sets == old(sets)
      ensures stat == SUCCESS ==> OnlyEmptiedAll(c, base, old(sets), St())
      ensures old(Valid()) && stat == SUCCESS && !Under(old(live), BlockOf(c, order, addr)) ==>
        (Valid() <==> !Meets(Reserved(), BlockOf(c, order, addr)))
      ensures old(Valid()) && old(MatchingFree(order, addr)) ==>
        (Valid() <==> stat == FAILED || BlockOf(c, order, addr) != Reserved())
    {
      hide Shows, View, GoodLines, Shl, Shr, Low, NodeAt, AddrToIdx, InTree, RunMarked;
      if order >= c.orderMax - 1 { return FAILED; }
      OrderSize(c, order);
      ghost var B := BlockOf(c, order, addr);
      if B in live { LiveIsMarked(c, live, order, addr); }
      var validReq, inCache, nr := CheckRequest(order, addr);
      if !validReq { return FAILED; }
      ghost var live0 := live;
      ghost var st := St();
      ClearPath(order, addr, inCache, nr);
      Freed(c, base, st, St(), live, order, addr);
      if old(Valid()) { ReservedLeft(live, Reserved(), B); }
      live := Remaining(live, B);
      stat := SUCCESS;
    }

    /** First loop of `free`: checks the request up to the root, reading what is not cached. */
    method CheckRequest(order: nat, addr: nat) returns (validReq: bool, inCache: seq<bool>, nr: seq<nat>)
      requires Consistent() && order < c.orderMax - 1
      requires OrderToLevel(c, order) < c.Levels() && OrderToWidth(c, order) > 0
      modifies this`freeLines
      ensures |nr| == |inCache| == |freeLines| == c.Levels()
      ensures validReq <==> RunMarked(c, live, order, addr)
      ensures validReq ==> forall l :: 0 <= l <= OrderToLevel(c, order) ==>
        Looked(c, base, St(), addr, l, inCache[l], nr[l], freeLines[l])
    {
      hide Shows, GoodLines, Shl, Shr, Low, InTree, NodeAt, AddrToIdx, AddrToTag, RunMarked;
      var reqLevel, width := OrderToLevel(c, order), OrderToWidth(c, order);
      nr := seq(c.Levels(), _ => 0);
      inCache := seq(c.Levels(), _ => true);
      validReq := false;
      var i: int := reqLevel;
      while i >= 0
        invariant -1 <= i <= reqLevel && |nr| == |inCache| == |freeLines| == c.Levels()
        invariant forall l :: i < l <= reqLevel ==> Looked(c, base, St(), addr, l, inCache[l], nr[l], freeLines[l])
        invariant i < reqLevel ==> validReq && RunMarked(c, live, order, addr)
        decreases i
      {
        var widthI := if i == reqLevel then width else 1;
        var idx, tag := AddrToIdx(c, addr, i), AddrToTag(c, addr, i);
        AddrToTagIsNode(c, addr, i);
        MetaAddrInjective(c, base, i, NodeAt(c, addr, i), i, NodeAt(c, addr, i));
        SlotFinds(sets[i].lines, tag);
        var hit, a := TagInCache(i, tag);
        inCache, nr := inCache[i := hit], nr[i := a];
        if hit {
          validReq := TestValidBits(sets[i].lines[a], widthI, idx);
        } else {
          freeLines := freeLines[i := Line(true, tag, dram[MetaAddr(c, base, tag, i)])];
          validReq := TestValidBits(freeLines[i], widthI, idx);
        }
        assert validReq <==> AnySet(View(c, base, St(), i, NodeAt(c, addr, i)), idx, widthI);
        if RunMarked(c, live, order, addr) {
          MarkedRunTests(c, base, St(), live, order, addr, i);
        } else {
          ClearRangeFails(c, base, St(), live, order, addr);
        }
        if !validReq { break; }
        i := i - 1;
      }
    }

    /** Second loop of `free`: clears the block's bits; a node left empty clears its parent's bit in turn. */
    method ClearPath(order: nat, addr: nat, inCache: seq<bool>, nr: seq<nat>)
      requires Consistent() && order < c.orderMax - 1 && OrderToLevel(c, order) < c.Levels() && RunMarked(c, live, order, addr)
      requires |nr| == |inCache| == c.Levels()
      requires forall l :: 0 <= l <= OrderToLevel(c, order) ==>
        Looked(c, base, St(), addr, l, inCache[l], nr[l], freeLines[l])
      modifies this`sets, this`dram, this`freeLines
      ensures Coherent(c, base, St()) && OnlyMeta(c, base, old(dram), dram) && |freeLines| == c.Levels()
      ensures !Under(live, BlockOf(c, order, addr)) ==> Shows(c, base, St(), Remaining(live, BlockOf(c, order, addr)), 0, 0)
      ensures RunCleared(c, base, St(), order, addr) && DeeperKept(c, base, old(St()), St(), OrderToLevel(c, order))
      ensures OnlyEmptiedAll(c, base, old(sets), St())
    {
      hide Clearing, RunMarked, Remaining, Under, Shows, ViewBecomes, View, GoodLines, Looked, Cached, NodeAt, AddrToIdx, OnlyEmptied,
        Shl, Shr, Low, InTree, Apart;
      var reqLevel, width := OrderToLevel(c, order), OrderToWidth(c, order);
      var cont := true;
      var i: int := reqLevel;
      StartClearing(c, base, St(), live, order, addr);
      while i >= 0 && cont
        invariant -1 <= i <= reqLevel && |freeLines| == c.Levels()
        invariant Coherent(c, base, St()) && OnlyMeta(c, base, old(dram), dram)
        invariant forall l :: 0 <= l <= i ==>
          Looked(c, base, St(), addr, l, inCache[l], nr[l], freeLines[l]) && sets[l] == old(sets)[l]
        invariant Clearing(c, base, old(St()), St(), live, order, addr, i, cont)
        decreases i
      {
        ghost var st := St();
        ghost var noted := freeLines;
        AddrToTagIsNode(c, addr, i);
        NodeAtBound(c, addr, i);
        cont := ClearBits(i, addr, inCache[i], nr[i], if i == reqLevel then width else 1);
        StepClearing(c, base, old(St()), st, St(), live, order, addr, i, cont);
        forall l | 0 <= l < i ensures Looked(c, base, St(), addr, l, inCache[l], nr[l], freeLines[l]) {
          LookedKept(c, base, st, St(), addr, l, inCache[l], nr[l], noted[l], i);
        }
        i := i - 1;
      }
      EndClearing(c, base, old(St()), St(), live, order, addr, i, cont);
    }

    /** One round of `free`'s second loop: clears the bits of one level in the cache or in DRAM. */
    method ClearBits(l: nat, addr: nat, hit: bool, a: nat, width: nat) returns (cont: bool)
      requires Coherent(c, base, St()) && l < c.Levels() && |freeLines| == c.Levels()
      requires Node(c, l, NodeAt(c, addr, l))
      requires Looked(c, base, St(), addr, l, hit, a, freeLines[l])
      modifies this`sets, this`dram, this`freeLines
      ensures Coherent(c, base, St()) && OnlyMeta(c, base, old(dram), dram)
      ensures |freeLines| == c.Levels()
      ensures forall i :: 0 <= i < c.Levels() && i != l ==>
        sets[i] == old(sets)[i] && freeLines[i] == old(freeLines)[i]
      ensures var k := NodeAt(c, addr, l);
        var b := SetClear(View(c, base, old(St()), l, k), AddrToIdx(c, addr, l), width, false);
        ViewBecomes(c, base, old(St()), St(), l, k, b) && (cont <==> b == ZERO)
      ensures OnlyEmptied(c, base, old(sets)[l], St(), l)
    {
      ghost var st := St();
      ghost var k := NodeAt(c, addr, l);
      var idx := AddrToIdx(c, addr, l);
      AddrToTagIsNode(c, addr, l);
      ShrShl(k, c.orderMax - 3 * l);
      if hit {
        var line := sets[l].lines[a];
        var b := SetClear(line.children, idx, width, false);
        cont := b == ZERO;
        if cont && l > 0 {
          DropLine(c, base, st, l, a, k, b, 0, b);
          dram := dram[MetaAddr(c, base, line.tag, l) := b];
          sets := sets[l := sets[l].(lines := sets[l].lines[a := Line(false, 0, b)])];
        } else {
          PutLine(c, base, st, l, a, k, b);
          sets := sets[l := sets[l].(lines := sets[l].lines[a := line.(children := b)])];
        }
      } else {
        var b := SetClear(freeLines[l].children, idx, width, false);
        cont := b == ZERO;
        WriteMeta(c, base, st, l, k, b);
        dram := dram[MetaAddr(c, base, freeLines[l].tag, l) := b];
        freeLines := freeLines[l := Line(false, freeLines[l].tag, b)];
      }
    }
  }

  /** The first cell `d` levels below cell k. */
  ghost function FirstBelow(k: nat, d: nat): nat { Pow8(d) * k }

  lemma FirstBelowStep(k: nat, d: nat)
    ensures FirstBelow(k, 0) == k && FirstBelow(k, d + 1) == 8 * FirstBelow(k, d)
  {
  }

  lemma NoStep(c: Config, base: nat, st: Store, k: nat, l: nat)
    requires Shape(c, base, st)
    ensures EvictedFrom(st.sets, st.sets, l, l) && KeptAbove(c, base, st, st, l) && WayCached(c, base, st, k, l, l)
  {
  }

  /** One round of the downward loop. */
  lemma OneStep(c: Config, base: nat, st0: Store, st: Store, st': Store, k: nat, l: nat, i: nat)
    requires Shape(c, base, st0) && Shape(c, base, st) && Shape(c, base, st') && l <= i < c.Levels()
    requires EvictedFrom(st0.sets, st.sets, l, i) && KeptAbove(c, base, st0, st, l) && WayCached(c, base, st, k, l, i)
    requires KeptAbove(c, base, st, st', i) && CachedUnlessFull(c, base, st', i, FirstBelow(k, i - l))
    requires Renewed(st.sets[i], st'.sets[i])
    requires forall m :: 0 <= m < c.Levels() && m != i ==> st'.sets[m] == st.sets[m]
    ensures EvictedFrom(st0.sets, st'.sets, l, i + 1) && KeptAbove(c, base, st0, st', l) && WayCached(c, base, st', k, l, i + 1)
  {
    hide CachedUnlessFull, Renewed, FirstBelow;
  }

  /** The marked line and the lines given up below it. */
  lemma CacheAfterBoth(before: seq<CacheSet>, mid: seq<CacheSet>, after: seq<CacheSet>, s: nat, a: nat, reqLevel: nat)
    requires |before| == |mid| && s <= reqLevel < |before| && OneLine(before[s], mid[s], a) && mid[s].counter == before[s].counter
    requires forall i :: 0 <= i < |before| && i != s ==> mid[i] == before[i]
    requires EvictedFrom(mid, after, s + 1, reqLevel + 1)
    ensures CacheAfter(before, after, s, a, reqLevel)
  {
    hide Renewed, OneLine;
  }

  lemma KeptThere(c: Config, base: nat, st: Store, st': Store, l: nat, m: nat, n: nat)
    requires Shape(c, base, st) && Shape(c, base, st') && m < l
    requires KeptAbove(c, base, st, st', l) && CachedUnlessFull(c, base, st, m, n)
    ensures CachedUnlessFull(c, base, st', m, n)
  {
  }

  lemma PathIsCached(c: Config, base: nat, st: Store, B: Block, s: nat, cell: nat)
    requires Shape(c, base, st) && s <= B.level && B.cell == FirstBelow(cell, B.level - s)
    requires CachedUnlessFull(c, base, st, s, cell / 8) && WayCached(c, base, st, cell, s + 1, B.level + 1)
    ensures PathCached(c, base, st, B, s)
  {
    hide CachedUnlessFull, FirstBelow;
    forall l | s <= l <= B.level ensures CachedUnlessFull(c, base, st, l, PathNode(B, l)) {
      PathNodes(B, s, cell, l);
      if l > s { assert CachedUnlessFull(c, base, st, l, WayNode(cell, s + 1, l)); }
    }
  }

  lemma ChoosesCell(c: Config, sets: seq<CacheSet>, reqLevel: nat, width: nat, s: nat, a: nat, k: nat, idx: nat)
    requires c.Valid() && |sets| == c.Levels() && Node(c, s, k) && DeepestRoom(sets, reqLevel, width, s)
    requires FirstRoom(sets[s].lines, if s == reqLevel then width else 1, a, idx)
    requires sets[s].lines[a].tag == NodeTag(c, s, k)
    ensures Chooses(c, sets, reqLevel, width, s, a, 8 * k + idx)
  {
    hide DeepestRoom, Shr, Shl, AnySet, HasRoom;
    ShrShl(k, c.orderMax - 3 * s);
  }

  lemma {:induction false} UpFirst(k: nat, d: nat, e: nat)
    requires e <= d
    ensures Up(FirstBelow(k, d), e) == FirstBelow(k, d - e)
  {
    hide FirstBelow;
    if e > 0 {
      FirstBelowStep(k, d - 1);
      UpFirst(k, d - 1, e - 1);
    }
  }

  lemma OtherLevelsKept(c: Config, base: nat, st0: Store, st: Store, st': Store, l: nat, k: nat)
    requires Shape(c, base, st0) && Shape(c, base, st) && Shape(c, base, st') && Node(c, l, k)
    requires SameView(c, base, st0, st) && exists b :: ViewBecomes(c, base, st, st', l, k, b)
    requires forall i :: 0 <= i < c.Levels() && i != l ==> st'.sets[i] == st0.sets[i]
    ensures KeptAbove(c, base, st0, st', l)
  {
    hide View;
    var b :| ViewBecomes(c, base, st, st', l, k, b);
    forall m: nat, n: nat | m < l && CachedUnlessFull(c, base, st0, m, n) ensures CachedUnlessFull(c, base, st', m, n) {
      assert View(c, base, st', m, n) == View(c, base, st0, m, n);
    }
  }

  /** A block first under a free cell of a node in use splits there. */
  lemma FirstUnder(live: set<Block>, B: Block, s: nat, cell: nat)
    requires Apart(live) && WellFormed(B) && s <= B.level && B.cell == FirstBelow(cell, B.level - s)
    requires s == 0 || InUse(live, s, cell / 8)
    requires if s == B.level then forall j :: InRun(B, j) ==> FreeCell(live, s, j) else FreeCell(live, s, cell)
    ensures SplitAt(live, B, s, cell)
  {
    hide InUse, Occupied, Overlap;
    UpFirst(cell, B.level - s, B.level - s);
    FirstBelowStep(cell, 0);
    forall l: nat, j: nat | l < s && Touches(B, l, j) ensures Occupied(live, l, j) {
      UpUp(B.cell, B.level - s, s - l);
      Siblings(cell / 8, cell % 8, cell % 8, s - l);
      PathAbsorbed(live, s, cell / 8);
      assert OnPath(s, cell / 8, l, j);
    }
    forall j: nat | Touches(B, s, j) ensures !Occupied(live, s, j) { FreeIsClear(live, s, j); }
  }

  lemma FreeIsClear(live: set<Block>, l: nat, j: nat)
    requires FreeCell(live, l, j)
    ensures !Occupied(live, l, j)
  {
    forall A | A in live ensures !Touches(A, l, j) {
      assert !Touches(A, Min(l, A.level), Up(j, l - Min(l, A.level)));
    }
  }

  /** The nodes on the path of such a block. */
  lemma PathNodes(B: Block, s: nat, cell: nat, l: nat)
    requires s <= l <= B.level && B.cell == FirstBelow(cell, B.level - s)
    ensures PathNode(B, l) == if l == s then cell / 8 else FirstBelow(cell, l - s - 1)
  {
    hide FirstBelow;
    UpFirst(cell, B.level - s, B.level - l);
    if l == s { FirstBelowStep(cell, 0); } else { FirstBelowStep(cell, l - s - 1); }
  }

  /** Whether a line just marked is still in the cache. */
  lemma MarkedLineCached(c: Config, base: nat, st: Store, st': Store, l: nat, a: nat, k: nat)
    requires Coherent(c, base, st) && Coherent(c, base, st') && Node(c, l, k) && a < |st.sets[l].lines|
    requires if st.sets[l].lines[a].valid then st.sets[l].lines[a].tag == NodeTag(c, l, k) else !Cached(c, base, st, l, k)
    requires OneLine(st.sets[l], st'.sets[l], a)
    requires st'.sets[l].lines[a].valid ==> st'.sets[l].lines[a].tag == NodeTag(c, l, k)
    requires st'.sets[l].lines[a].valid <==> View(c, base, st', l, k) != FULL
    ensures CachedUnlessFull(c, base, st', l, k)
  {
    hide View;
    SlotFinds(st.sets[l].lines, NodeTag(c, l, k));
    SlotFinds(st'.sets[l].lines, NodeTag(c, l, k));
    assert GoodLines(c, l, st.sets[l].lines);
  }

  /** The bits of the request's run are clear. */
  ghost predicate RunCleared(c: Config, base: nat, st: Store, order: nat, addr: nat)
    requires Shape(c, base, st) && order < c.orderMax && OrderToLevel(c, order) < c.Levels()
  {
    var l := OrderToLevel(c, order);
    NodeAtBound(c, addr, l);
    !AnySet(View(c, base, st, l, NodeAt(c, addr, l)), AddrToIdx(c, addr, l), OrderToWidth(c, order))
  }

  /** Clearing the run's own level clears it, and clearing another level leaves it. */
  lemma RunStaysCleared(c: Config, base: nat, st: Store, st': Store, order: nat, addr: nat, l: nat)
    requires Shape(c, base, st) && Shape(c, base, st') && order < c.orderMax && l <= OrderToLevel(c, order) < c.Levels()
    requires Node(c, l, NodeAt(c, addr, l))
    requires var k := NodeAt(c, addr, l);
      var w := if l == OrderToLevel(c, order) then OrderToWidth(c, order) else 1;
      ViewBecomes(c, base, st, st', l, k, SetClear(View(c, base, st, l, k), AddrToIdx(c, addr, l), w, false))
    requires l < OrderToLevel(c, order) ==> RunCleared(c, base, st, order, addr)
    ensures RunCleared(c, base, st', order, addr)
  {
    hide View, NodeAt, AddrToIdx;
    NodeAtBound(c, addr, OrderToLevel(c, order));
  }

  /** Below level m the nodes show what they showed before. */
  ghost predicate DeeperKept(c: Config, base: nat, st: Store, st': Store, m: nat)
    requires Shape(c, base, st) && Shape(c, base, st')
  {
    forall l, k :: m < l && Node(c, l, k) ==> View(c, base, st', l, k) == View(c, base, st, l, k)
  }

  /** What the second loop of `free` has achieved before it looks at level i. */
  ghost predicate Clearing(c: Config, base: nat, st0: Store, st: Store, live: set<Block>, order: nat, addr: nat, i: int, cont: bool)
    requires Shape(c, base, st0) && Shape(c, base, st) && order < c.orderMax && -1 <= i <= OrderToLevel(c, order) < c.Levels()
  {
    var reqLevel, rest := OrderToLevel(c, order), Remaining(live, BlockOf(c, order, addr));
    && DeeperKept(c, base, st0, st, reqLevel) && OnlyEmptiedAll(c, base, st0.sets, st)
    && if i == reqLevel then cont && Shows(c, base, st, live, 0, 0)
       else
         && RunCleared(c, base, st, order, addr)
         && (!Under(live, BlockOf(c, order, addr)) ==>
               if cont then Shows(c, base, st, rest, i + 1, NodeAt(c, addr, i + 1)) && !InUse(rest, i + 1, NodeAt(c, addr, i + 1))
               else Shows(c, base, st, rest, 0, 0))
  }

  lemma StartClearing(c: Config, base: nat, st: Store, live: set<Block>, order: nat, addr: nat)
    requires Shape(c, base, st) && order < c.orderMax && OrderToLevel(c, order) < c.Levels() && Shows(c, base, st, live, 0, 0)
    ensures Clearing(c, base, st, st, live, order, addr, OrderToLevel(c, order), true)
  {
    hide DeeperKept, OnlyEmptiedAll, Shows;
    NothingChanged(c, base, st, OrderToLevel(c, order));
    NothingEmptied(c, base, st);
  }

  lemma StepClearing(c: Config, base: nat, st0: Store, st: Store, st': Store, live: set<Block>, order: nat, addr: nat, i: nat, empty: bool)
    requires Shape(c, base, st0) && Shape(c, base, st) && Shape(c, base, st') && order < c.orderMax
    requires i <= OrderToLevel(c, order) < c.Levels() && Node(c, i, NodeAt(c, addr, i))
    requires Apart(live) && RunMarked(c, live, order, addr) && Clearing(c, base, st0, st, live, order, addr, i, true)
    requires var k := NodeAt(c, addr, i);
      var w := if i == OrderToLevel(c, order) then OrderToWidth(c, order) else 1;
      var b := SetClear(View(c, base, st, i, k), AddrToIdx(c, addr, i), w, false);
      ViewBecomes(c, base, st, st', i, k, b) && (empty <==> b == ZERO)
    requires st.sets[i] == st0.sets[i] && OnlyEmptied(c, base, st0.sets[i], st', i)
    requires forall l :: 0 <= l < c.Levels() && l != i ==> st'.sets[l] == st.sets[l]
    ensures Clearing(c, base, st0, st', live, order, addr, i - 1, empty)
  {
    hide DeeperKept, OnlyEmptied, OnlyEmptiedAll, RunCleared, Shows, ViewBecomes, View, NodeAt, AddrToIdx, Under, Remaining, RunMarked,
      Apart, InUse, SetClear;
    RunStaysCleared(c, base, st, st', order, addr, i);
    DeeperStays(c, base, st0, st, st', OrderToLevel(c, order), i, NodeAt(c, addr, i));
    OneLevelEmptied(c, base, st0.sets, st, st', i, NodeAt(c, addr, i));
    if !Under(live, BlockOf(c, order, addr)) { StepUp(c, base, st, st', live, order, addr, i, empty); }
  }

  lemma EndClearing(c: Config, base: nat, st0: Store, st: Store, live: set<Block>, order: nat, addr: nat, i: int, cont: bool)
    requires Shape(c, base, st0) && Shape(c, base, st) && order < c.orderMax && -1 <= i <= OrderToLevel(c, order) < c.Levels()
    requires Apart(live) && Clearing(c, base, st0, st, live, order, addr, i, cont) && (cont ==> i == -1)
    ensures RunCleared(c, base, st, order, addr) && DeeperKept(c, base, st0, st, OrderToLevel(c, order))
    ensures OnlyEmptiedAll(c, base, st0.sets, st)
    ensures !Under(live, BlockOf(c, order, addr)) ==> Shows(c, base, st, Remaining(live, BlockOf(c, order, addr)), 0, 0)
  {
    hide DeeperKept, OnlyEmptiedAll, RunCleared, Shows, Under, Remaining, InUse, Apart;
    var rest := Remaining(live, BlockOf(c, order, addr));
    RemainingApart(live, BlockOf(c, order, addr));
    if cont && !Under(live, BlockOf(c, order, addr)) { ShowsPathForFree(c, base, st, rest, 0, NodeAt(c, addr, 0)); }
  }

  lemma NothingEmptied(c: Config, base: nat, st: Store)
    requires Shape(c, base, st)
    ensures OnlyEmptiedAll(c, base, st.sets, st)
  {
  }

  lemma OneLevelEmptied(c: Config, base: nat, before: seq<CacheSet>, st: Store, st': Store, l: nat, k: nat)
    requires Shape(c, base, st) && Shape(c, base, st') && |before| == c.Levels() && Node(c, l, k)
    requires OnlyEmptiedAll(c, base, before, st) && st.sets[l] == before[l] && OnlyEmptied(c, base, before[l], st', l)
    requires exists b :: ViewBecomes(c, base, st, st', l, k, b)
    requires forall i :: 0 <= i < c.Levels() && i != l ==> st'.sets[i] == st.sets[i]
    ensures OnlyEmptiedAll(c, base, before, st')
  {
    hide View, TagNode;
    var b :| ViewBecomes(c, base, st, st', l, k, b);
    forall i | 0 <= i < c.Levels() && i != l ensures OnlyEmptied(c, base, before[i], st', i) {
      assert OnlyEmptied(c, base, before[i], st, i);
    }
  }

  lemma NothingChanged(c: Config, base: nat, st: Store, m: nat)
    requires Shape(c, base, st)
    ensures DeeperKept(c, base, st, st, m)
  {
  }

  lemma DeeperStays(c: Config, base: nat, st0: Store, st: Store, st': Store, m: nat, l: nat, k: nat)
    requires Shape(c, base, st0) && Shape(c, base, st) && Shape(c, base, st') && l <= m && Node(c, l, k)
    requires DeeperKept(c, base, st0, st, m) && exists b :: ViewBecomes(c, base, st, st', l, k, b)
    ensures DeeperKept(c, base, st0, st', m)
  {
    hide View;
    var b :| ViewBecomes(c, base, st, st', l, k, b);
  }

  /** The tree is that of some set of blocks. */
  ghost predicate ShowsBlocks(c: Config, base: nat, st: Store)
    requires Shape(c, base, st)
  {
    exists blocks :: Apart(blocks) && Shows(c, base, st, blocks, 0, 0)
  }

  /** A run cleared above a block leaves a set bit below a clear one, as no set of blocks does. */
  lemma StrayHidesDeeper(c: Config, base: nat, st: Store, st': Store, live: set<Block>, order: nat, addr: nat)
    requires Shape(c, base, st) && Shape(c, base, st') && order < c.orderMax && OrderToLevel(c, order) < c.Levels()
    requires Apart(live) && (forall B :: B in live ==> InTree(c, B)) && Shows(c, base, st, live, 0, 0)
    requires Under(live, BlockOf(c, order, addr)) && RunCleared(c, base, st', order, addr)
    requires DeeperKept(c, base, st, st', OrderToLevel(c, order))
    ensures !ShowsBlocks(c, base, st')
  {
    hide View, NodeAt, AddrToIdx, Shows, Apart;
    var l := OrderToLevel(c, order);
    var B := BlockOf(c, order, addr);
    var A :| A in live && A.level > l && InRun(B, Up(A.cell, A.level - l));
    var j, i := Up(A.cell, A.level - l), Up(A.cell, A.level - l - 1);
    if ShowsBlocks(c, base, st') {
      var blocks :| Apart(blocks) && Shows(c, base, st', blocks, 0, 0);
      UpParent(A.cell, A.level - l - 1);
      assert Touches(A, l + 1, i);
      UpBound(c, A, l);
      NodeBits(c, base, st, live, 0, 0, l + 1, j);
      NodeBits(c, base, st', blocks, 0, 0, l + 1, j);
      assert InUse(live, l + 1, j) by { assert Occupied(live, l + 1, i) && i / 8 == j; }
      UsedNodeHasBit(blocks, l, j);
      ClearedCell(c, base, st', order, addr, j);
      NodeBits(c, base, st', blocks, 0, 0, l, j / 8);
    }
  }

  lemma UpBound(c: Config, A: Block, l: nat)
    requires InTree(c, A) && l < A.level
    ensures Node(c, l + 1, Up(A.cell, A.level - l))
  {
    UpSmall(A.cell, A.level - l, l + 1);
  }

  lemma {:induction false} UpSmall(j: nat, d: nat, l: nat)
    requires j < Pow8(d + l)
    ensures Up(j, d) < Pow8(l)
  {
    if d > 0 { UpSmall(j / 8, d - 1, l); }
  }

  lemma ClearedCell(c: Config, base: nat, st: Store, order: nat, addr: nat, j: nat)
    requires Shape(c, base, st) && order < c.orderMax && OrderToLevel(c, order) < c.Levels()
    requires RunCleared(c, base, st, order, addr) && InRun(BlockOf(c, order, addr), j)
    ensures Node(c, OrderToLevel(c, order), j / 8) && !View(c, base, st, OrderToLevel(c, order), j / 8)[j % 8]
  {
    hide View, NodeAt, AddrToIdx, Shl, Shr;
    var l := OrderToLevel(c, order);
    NodeAtBound(c, addr, l);
    AddrToIdxIsDigit(c, addr, l);
  }

  /** What a successful free of a run in use makes of the tree. */
  lemma Freed(c: Config, base: nat, st: Store, st': Store, live: set<Block>, order: nat, addr: nat)
    requires Shape(c, base, st) && Shape(c, base, st') && order < c.orderMax && OrderToLevel(c, order) < c.Levels()
    requires Apart(live) && (forall B :: B in live ==> InTree(c, B)) && Shows(c, base, st, live, 0, 0)
    requires var B := BlockOf(c, order, addr);
      && RunMarked(c, live, order, addr) && RunCleared(c, base, st', order, addr)
      && DeeperKept(c, base, st, st', OrderToLevel(c, order))
      && (!Under(live, B) ==> Shows(c, base, st', Remaining(live, B), 0, 0))
    ensures var B := BlockOf(c, order, addr);
      && Apart(Remaining(live, B)) && (forall A :: A in Remaining(live, B) ==> InTree(c, A))
      && (B in live ==> !Under(live, B) && Remaining(live, B) == live - {B})
      && (Shows(c, base, st', live - {B}, 0, 0) <==> B in live)
      && (Under(live, B) ==> !ShowsBlocks(c, base, st'))
  {
    hide RunMarked, RunCleared, DeeperKept, Remaining, Under, View, Shows, Apart, ShowsBlocks;
    var B := BlockOf(c, order, addr);
    RemainingApart(live, B);
    forall X | X in Remaining(live, B) ensures InTree(c, X) { var A := RemainingPart(live, B, X); }
    if B in live {
      RemainingOfLive(live, B);
    } else {
      StrayHidesBlock(c, base, st', live, order, addr);
      assert live - {B} == live;
    }
    if Under(live, B) { StrayHidesDeeper(c, base, st, st', live, order, addr); }
  }

  /** The reserved block stays exactly if the run is off it. */
  lemma ReservedLeft(live: set<Block>, R: Block, B: Block)
    requires Apart(live) && R in live
    ensures R in Remaining(live, B) <==> !Meets(R, B)
  {
    hide Meets, Remaining;
    if R in Remaining(live, B) {
      var A := RemainingPart(live, B, R);
      if A != R { BothTouch(A, R, R.cell); }
    }
    if !Meets(R, B) { KeptRemains(live, B, R); }
    MeetsAt(R, B);
  }

  /** Where a cell in use has its bit cleared, the tree is no longer that of the live blocks. */
  lemma StrayHidesBlock(c: Config, base: nat, st: Store, live: set<Block>, order: nat, addr: nat)
    requires Shape(c, base, st) && order < c.orderMax && OrderToLevel(c, order) < c.Levels()
    requires Apart(live) && RunMarked(c, live, order, addr) && RunCleared(c, base, st, order, addr)
    ensures !Shows(c, base, st, live, 0, 0)
  {
    hide View, NodeAt, AddrToIdx, RunMarked, Shows, Apart;
    if Shows(c, base, st, live, 0, 0) { MarkedRunTests(c, base, st, live, order, addr, OrderToLevel(c, order)); }
  }

  /** What the first loop of `free` has noted about the node an address passes at level `l`. */
  ghost predicate Looked(c: Config, base: nat, st: Store, addr: nat, l: nat, hit: bool, a: nat, line: Line)
    requires Shape(c, base, st) && l < c.Levels()
  {
    var k := NodeAt(c, addr, l);
    && Node(c, l, k)
    && if hit then a < |st.sets[l].lines| && a == Slot(st.sets[l].lines, NodeTag(c, l, k))
         && st.sets[l].lines[a].valid && st.sets[l].lines[a].tag == NodeTag(c, l, k)
       else !Cached(c, base, st, l, k) && line == Line(true, NodeTag(c, l, k), View(c, base, st, l, k))
  }

  lemma LookedKept(c: Config, base: nat, st: Store, st': Store, addr: nat, l: nat, hit: bool, a: nat, line: Line, m: nat)
    requires Shape(c, base, st) && Shape(c, base, st') && l < c.Levels() && m < c.Levels() && m != l
    requires Looked(c, base, st, addr, l, hit, a, line) && st'.sets[l] == st.sets[l]
    requires Node(c, m, NodeAt(c, addr, m))
    requires exists b :: ViewBecomes(c, base, st, st', m, NodeAt(c, addr, m), b)
    ensures Looked(c, base, st', addr, l, hit, a, line)
  {
    hide NodeAt, GoodLines;
    var b :| ViewBecomes(c, base, st, st', m, NodeAt(c, addr, m), b);
    assert View(c, base, st', l, NodeAt(c, addr, l)) == View(c, base, st, l, NodeAt(c, addr, l));
  }

  ghost function InitialSet(c: Config, metaLevel: nat, metaWidth: nat, l: nat): CacheSet
  {
    PowPositive(l);
    var lines := seq(SetSize(c, l), _ => Line(false, 0, ZERO));
    CacheSet(if l <= metaLevel && c.setSize > 0
             then lines[0 := Line(true, 0, SetClear(ZERO, 0, if l == metaLevel then metaWidth else 1, true))] else lines, 0)
  }

  lemma InitialShows(c: Config, base: nat, st: Store, metaLevel: nat, metaWidth: nat)
    requires c.Valid() && metaLevel < c.Levels() && metaWidth in {1, 2, 4}
    requires |st.sets| == c.Levels() && base + MetaSize(c) <= |st.dram|
    requires forall l :: 0 <= l < c.Levels() ==> st.sets[l] == InitialSet(c, metaLevel, metaWidth, l)
    requires forall x :: base <= x < base + MetaSize(c) ==> st.dram[x] == ZERO
    ensures Coherent(c, base, st) && Shows(c, base, st, {Block(metaLevel, 0, metaWidth)}, 0, 0)
  {
    var B := Block(metaLevel, 0, metaWidth);
    forall l | 0 <= l < c.Levels()
      ensures |st.sets[l].lines| == SetSize(c, l) && st.sets[l].counter < SetSize(c, l)
      ensures GoodLines(c, l, st.sets[l].lines)
    {
      InitialLines(c, metaLevel, metaWidth, l);
    }
    forall l, j | 0 <= l < c.Levels() && 0 <= j < Pow8(l + 1)
      ensures Bit(c, base, st, l, j) <==> Occupied({B}, l, j) || OnPath(0, 0, l, j)
    {
      CellNode(c, l, j);
      InitialView(c, base, st, metaLevel, metaWidth, l, j / 8);
      OccupiedWith({}, B, l, j);
      assert {} + {B} == {B};
      if l < metaLevel { UpZero(metaLevel - l); }
    }
  }

  lemma InitialView(c: Config, base: nat, st: Store, metaLevel: nat, metaWidth: nat, l: nat, k: nat)
    requires Shape(c, base, st) && Node(c, l, k) && metaLevel < c.Levels() && metaWidth in {1, 2, 4}
    requires st.sets[l] == InitialSet(c, metaLevel, metaWidth, l)
    requires forall x :: base <= x < base + MetaSize(c) ==> st.dram[x] == ZERO
    ensures View(c, base, st, l, k) ==
      if l <= metaLevel && k == 0 then SetClear(ZERO, 0, if l == metaLevel then metaWidth else 1, true) else ZERO
  {
    hide Shl, Shr;
    InitialLines(c, metaLevel, metaWidth, l);
    MetaAddrInjective(c, base, l, k, l, k);
    if k != 0 && NodeTag(c, l, k) == NodeTag(c, l, 0) { NodeTagInjective(c, l, k, 0); }
    ShlPlus(0, 0, c.orderMax - 3 * l);
    SlotFinds(st.sets[l].lines, NodeTag(c, l, k));
  }

  lemma InitialLines(c: Config, metaLevel: nat, metaWidth: nat, l: nat)
    requires c.Valid() && l < c.Levels() && metaWidth in {1, 2, 4}
    ensures var s := InitialSet(c, metaLevel, metaWidth, l);
      && |s.lines| == SetSize(c, l) >= 1 && s.counter == 0 && GoodLines(c, l, s.lines)
      && (l <= metaLevel ==> s.lines[0] == Line(true, 0, SetClear(ZERO, 0, if l == metaLevel then metaWidth else 1, true)))
      && (forall a :: 0 <= a < |s.lines| && (a > 0 || l > metaLevel) ==> !s.lines[a].valid)
  {
    PowPositive(l);
    ShlPlus(0, 0, c.orderMax - 3 * l);
    ShrShl(0, c.orderMax - 3 * l);
    assert SetClear(ZERO, 0, if l == metaLevel then metaWidth else 1, true)[0];
  }

  lemma {:induction false} UpZero(d: nat)
    ensures Up(0, d) == 0
  {
    if d > 0 { UpZero(d - 1); }
  }

  /** The reserved order is always a legal order. */
  lemma MetaOrderFits(c: Config, order: nat)
    requires c.Valid() && IsCeilLog2(Shr(MetaSize(c), c.minShift), order)
    ensures order < c.orderMax
  {
    hide Shl, Shr;
    var m, s, n := MetaSize(c), c.minShift, c.orderMax;
    ShrShr(m, 2, s - 2);
    ShrBounds(Shr(m, 2), s - 2);
    GrowShl(Shr(m, s), s - 2);
    Quarter(m);
    PowPositive(c.Levels());
    Pow2Monotone(3 * c.Levels(), n + 2);
    EightFold(n - 1);
    assert Shr(m, s) <= Pow2(n - 1);
    var d: nat := n - 1;
    assert d < order ==> Pow2(d) < Shr(m, s);
  }

  lemma {:induction false} Quarter(a: nat)
    ensures 4 * Shr(a, 2) <= a
  {
    assert Shr(a, 2) == Shr(a, 1) / 2 && Shr(a, 1) == Shr(a, 0) / 2;
  }

  lemma EightFold(e: nat)
    ensures Pow2(e + 3) == 8 * Pow2(e)
  {
    assert Shl(1, e + 3) == 2 * Shl(1, e + 2) && Shl(1, e + 2) == 2 * Shl(1, e + 1);
  }

  lemma {:induction false} GrowShl(a: nat, e: nat)
    ensures a <= Shl(a, e)
  {
    if e > 0 { GrowShl(a, e - 1); }
  }

  /** When the truncating shift of LENGTH_TO_ORDER leaves room: it drops nothing that matters, or everything. */
  predicate Covers(c: Config)
  {
    c.minShift + 6 <= 3 * c.Levels() || c.minShift + 3 > 3 * c.Levels()
  }

  /** The metadata size lies between a power of two and the next: 8^(Levels-1) plus less than twice 8^(Levels-2). */
  lemma MetaBetween(c: Config)
    requires c.Valid()
    ensures var m, e := MetaSize(c), 3 * c.Levels() - 3;
      && Pow2(e) + Pow2(e - 3) <= m < Pow2(e) + Pow2(e - 2) && Pow2(e) < m < Pow2(e + 1)
  {
    hide Shl, Pow8;
    var l := c.Levels();
    MetaBaseStep(l - 2);
    MetaBaseStep(l - 1);
    BelowPow(l - 2);
    PowPositive(l - 1);
    PowPositive(l - 2);
    Doubled(3 * l - 6);
    Doubled(3 * l - 5);
    Doubled(3 * l - 4);
    Doubled(3 * l - 3);
  }

  lemma {:induction false} BelowPow(l: nat)
    ensures MetaBase(l) < Pow8(l)
  {
    if l > 0 {
      MetaBaseStep(l - 1);
      BelowPow(l - 1);
    }
  }

  lemma Doubled(e: nat)
    ensures Pow2(e + 1) == 2 * Pow2(e)
  {
  }

  /** What is left of the metadata size after the shift: nothing, a power of two, or more than one. */
  lemma ShiftedMeta(c: Config)
    requires c.Valid()
    ensures var q, s, e := Shr(MetaSize(c), c.minShift), c.minShift, 3 * c.Levels() - 3;
      && (s > e ==> q == 0)
      && (e - 2 <= s <= e ==> q == Pow2(e - s))
      && (s + 3 <= e ==> Pow2(e - s) < q < Pow2(e - s + 1))
  {
    hide Shl, Shr;
    var m, s, e := MetaSize(c), c.minShift, 3 * c.Levels() - 3;
    MetaBetween(c);
    if s > e {
      Pow2Monotone(e + 1, s);
      ShrZero(m, s);
    } else if e - 2 <= s {
      Pow2Monotone(e - 2, s);
      ShlShl(1, e - s, s);
      ShlPlus(Pow2(e - s), 1, s);
      ShrUnique(m, s, Pow2(e - s));
    } else {
      Pow2Monotone(s, e - 3);
      ShlShl(1, e - s, s);
      ShlPlus(Pow2(e - s), 1, s);
      ShlShl(1, e - s + 1, s);
      ShrLess(m, s, Pow2(e - s + 1));
      ShrBounds(m, s);
      ShlMonotone(Shr(m, s), Pow2(e - s), s);
    }
  }

  lemma CeilOfPower(e: nat)
    ensures IsCeilLog2(Pow2(e), e)
  {
    forall d: nat | d < e ensures Pow2(d) < Pow2(e) {
      Pow2Monotone(d + 1, e);
      Doubled(d);
      PowPositive(d);
    }
  }

  /** Exactly when the block the constructor reserves covers the metadata area. */
  lemma ReservedCoversMeta(c: Config, order: nat)
    requires c.Valid() && IsCeilLog2(Shr(MetaSize(c), c.minShift), order)
    ensures MetaSize(c) <= Pow2(order + c.minShift) <==> Covers(c)
  {
    hide Shl, Shr, IsCeilLog2;
    var q, s, e := Shr(MetaSize(c), c.minShift), c.minShift, 3 * c.Levels() - 3;
    MetaBetween(c);
    ShiftedMeta(c);
    if s > e {
      CeilOfNothing();
      CeilLog2Unique(0, order, 0);
      Pow2Monotone(e + 1, s);
    } else if e - 2 <= s {
      CeilOfPower(e - s);
      CeilLog2Unique(q, order, e - s);
    } else {
      CeilBetween(q, e - s);
      CeilLog2Unique(q, order, e - s + 1);
    }
  }

  lemma CeilOfNothing()
    ensures IsCeilLog2(0, 0)
  {
  }

  lemma CeilBetween(q: nat, e: nat)
    requires Pow2(e) < q <= Pow2(e + 1)
    ensures IsCeilLog2(q, e + 1)
  {
    forall d: nat | d < e + 1 ensures Pow2(d) < q { Pow2Monotone(d, e); }
  }

  /** Both configured address spaces (BUDDY_MAX_SHIFT 30 and 32) are covered, with order 14. */
  lemma ConfiguredSpacesCovered(orderMax: nat, setSize: nat)
    requires orderMax in {22, 24} && setSize >= 1
    ensures var c := Config(orderMax, 8, setSize);
      c.Valid() && Covers(c) && IsCeilLog2(Shr(MetaSize(c), 8), 14) && MetaSize(c) <= Pow2(14 + 8)
  {
    hide Shl, Shr, IsCeilLog2;
    var c := Config(orderMax, 8, setSize);
    ShiftedMeta(c);
    CeilBetween(Shr(MetaSize(c), 8), 13);
    ReservedCoversMeta(c, 14);
  }

  /** A space where it reserves too little: 73 bytes of metadata, 64 reserved. */
  lemma SmallSpaceNotCovered()
    ensures var c := Config(8, 4, 2);
      c.Valid() && !Covers(c) && IsCeilLog2(Shr(MetaSize(c), 4), 2) && MetaSize(c) > Pow2(2 + 4)
  {
    hide Shl, Shr, IsCeilLog2;
    var c := Config(8, 4, 2);
    ShiftedMeta(c);
    CeilOfPower(2);
    ReservedCoversMeta(c, 2);
  }

  lemma SameLine(st: Store, l: nat, a: nat)
    requires l < |st.sets| && a < |st.sets[l].lines|
    ensures WithLine(st, l, a, st.sets[l].lines[a]) == st
  {
    var lines := st.sets[l].lines;
    assert lines[a := lines[a]] == lines;
    assert st.sets[l := st.sets[l]] == st.sets;
  }

  lemma SameLinesSameView(c: Config, base: nat, st: Store, st': Store)
    requires Coherent(c, base, st) && Shape(c, base, st') && st.dram == st'.dram
    requires forall l :: 0 <= l < c.Levels() ==> st'.sets[l].lines == st.sets[l].lines
    ensures Coherent(c, base, st') && SameView(c, base, st, st')
  {
  }

  /** A clear run found in a valid line is free of every live block, and the path to it is marked. */
  lemma FoundIsFree(c: Config, base: nat, st: Store, live: set<Block>, l: nat, k: nat, idx: nat, width: nat)
    requires Coherent(c, base, st) && Shows(c, base, st, live, 0, 0) && Apart(live) && Node(c, l, k)
    requires (l > 0 ==> View(c, base, st, l, k) != ZERO) && idx + width <= 8
    requires !AnySet(View(c, base, st, l, k), idx, width)
    ensures forall j :: 8 * k + idx <= j < 8 * k + idx + width ==> FreeCell(live, l, j)
    ensures Shows(c, base, st, live, l, k)
  {
    hide Shows, View, GoodLines, FreeCell, InUse;
    NodeBits(c, base, st, live, 0, 0, l, k);
    forall j | 8 * k + idx <= j < 8 * k + idx + width ensures FreeCell(live, l, j) {
      var i := j - 8 * k;
      assert !View(c, base, st, l, k)[i];
      ClearBitIsFree(live, l, k, i);
    }
    ShowsPathForFree(c, base, st, live, l, k);
  }

  /** The node the lookup ends in, with the run found in it. */
  lemma FoundRun(c: Config, base: nat, st: Store, live: set<Block>, l: nat, a: nat, idx: nat, width: nat) returns (k: nat)
    requires Coherent(c, base, st) && Shows(c, base, st, live, 0, 0) && Apart(live) && l < c.Levels()
    requires FirstRoom(st.sets[l].lines, width, a, idx)
    ensures Node(c, l, k) && st.sets[l].lines[a].tag == NodeTag(c, l, k) && View(c, base, st, l, k) == st.sets[l].lines[a].children
    ensures forall j :: 8 * k + idx <= j < 8 * k + idx + width ==> FreeCell(live, l, j)
    ensures Shows(c, base, st, live, l, k) && (l == 0 || InUse(live, l, k))
  {
    hide Shows, View, FreeCell, NodeTag;
    k := LineNode(c, base, st, l, a);
    assert GoodLines(c, l, st.sets[l].lines);
    FoundIsFree(c, base, st, live, l, k, idx, width);
    NodeBits(c, base, st, live, 0, 0, l, k);
  }

  /** The node below a free cell is empty, and hence not cached. */
  lemma FreshNodeEmpty(c: Config, base: nat, st: Store, live: set<Block>, l: nat, k: nat)
    requires Coherent(c, base, st) && Apart(live) && Node(c, l, k) && l > 0
    requires Shows(c, base, st, live, l, k) && FreeCell(live, l - 1, k)
    ensures View(c, base, st, l, k) == ZERO && !Cached(c, base, st, l, k)
  {
    NodeBits(c, base, st, live, l, k, l, k);
    forall i | 0 <= i < 8 ensures !View(c, base, st, l, k)[i] {
      FreeDown(live, l - 1, k, i);
    }
    SlotFinds(st.sets[l].lines, NodeTag(c, l, k));
    assert GoodLines(c, l, st.sets[l].lines);
  }

  ghost predicate Finished(c: Config, order: nat, live: set<Block>, B: Block)
  {
    && c.Valid() && order < c.orderMax && InTree(c, B) && B == BlockOf(c, order, Start(c, B))
    && B !in live && Apart(live + {B}) && Size(c, B) == Pow2(order + c.minShift)
  }

  lemma NewBlock(c: Config, base: nat, st: Store, st': Store, live: set<Block>, order: nat, k: nat, idx: nat)
    requires Shape(c, base, st) && Shape(c, base, st') && Apart(live) && order < c.orderMax
    requires var l, w := OrderToLevel(c, order), OrderToWidth(c, order);
      && Node(c, l, k) && idx + w <= 8 && w in {1, 2, 4} && Aligned(idx, w)
      && ViewBecomes(c, base, st, st', l, k, SetClear(View(c, base, st, l, k), idx, w, true))
      && Shows(c, base, st, live, l, k)
      && forall j :: 8 * k + idx <= j < 8 * k + idx + w ==> FreeCell(live, l, j)
    ensures var l, w := OrderToLevel(c, order), OrderToWidth(c, order);
      var B := Block(l, 8 * k + idx, w);
      && Finished(c, order, live, B) && Shows(c, base, st', live + {B}, 0, 0)
      && TagToAddr(c, ParentTagIdxToTag(c, NodeTag(c, l, k), l, idx)) == Start(c, B)
  {
    var l, w := OrderToLevel(c, order), OrderToWidth(c, order);
    var B := Block(l, 8 * k + idx, w);
    BlockOfStart(c, order, k, idx);
    FreeCellsMakeBlock(live, B);
    ShowsNewBlock(c, base, st, st', live, B);
  }

  lemma NewBlockInFreeNode(c: Config, base: nat, st: Store, st': Store, live: set<Block>, order: nat, k: nat)
    requires Shape(c, base, st) && Shape(c, base, st') && Apart(live) && order < c.orderMax
    requires var l, w := OrderToLevel(c, order), OrderToWidth(c, order);
      && Node(c, l, k) && w in {1, 2, 4} && l > 0
      && ViewBecomes(c, base, st, st', l, k, SetClear(View(c, base, st, l, k), 0, w, true))
      && Shows(c, base, st, live, l, k) && FreeCell(live, l - 1, k)
    ensures var l, w := OrderToLevel(c, order), OrderToWidth(c, order);
      var B := Block(l, 8 * k, w);
      && Finished(c, order, live, B) && Shows(c, base, st', live + {B}, 0, 0)
      && TagToAddr(c, ParentTagIdxToTag(c, NodeTag(c, l, k), l, 0)) == Start(c, B)
  {
    hide Shows, ViewBecomes, View, FreeCell, NodeTag, ParentTagIdxToTag, Start, BlockOf, Shl, Shr;
    var l, w := OrderToLevel(c, order), OrderToWidth(c, order);
    forall j | 8 * k <= j < 8 * k + w ensures FreeCell(live, l, j) {
      FreeDown(live, l - 1, k, j - 8 * k);
    }
    NewBlock(c, base, st, st', live, order, k, 0);
  }

  /** A range none of whose cells is marked fails the very first bit test. */
  lemma ClearRangeFails(c: Config, base: nat, st: Store, live: set<Block>, order: nat, addr: nat)
    requires Shape(c, base, st) && Shows(c, base, st, live, 0, 0) && order < c.orderMax
    requires OrderToLevel(c, order) < c.Levels()
    requires !RunMarked(c, live, order, addr)
    ensures var l := OrderToLevel(c, order);
      && Node(c, l, NodeAt(c, addr, l))
      && !AnySet(View(c, base, st, l, NodeAt(c, addr, l)), AddrToIdx(c, addr, l), OrderToWidth(c, order))
  {
    hide Shows, View, NodeAt, AddrToIdx, AddrToTag, NodeTag;
    var l := OrderToLevel(c, order);
    AddrToTagIsNode(c, addr, l);
    AddrToIdxIsDigit(c, addr, l);
    var n := NodeAt(c, addr, l);
    var B := BlockOf(c, order, addr);
    NodeBits(c, base, st, live, 0, 0, l, n);
    forall i | B.cell % 8 <= i < B.cell % 8 + OrderToWidth(c, order) && i < 8
      ensures !View(c, base, st, l, n)[i]
    {
      assert !Occupied(live, l, 8 * n + i);
    }
  }

  /** What one round of `free`'s second loop achieves on the view. */
  lemma StepUp(c: Config, base: nat, st: Store, st': Store, live: set<Block>, order: nat, addr: nat, l: nat, empty: bool)
    requires Shape(c, base, st) && Shape(c, base, st') && order < c.orderMax && l <= OrderToLevel(c, order) < c.Levels()
    requires Apart(live) && RunMarked(c, live, order, addr) && !Under(live, BlockOf(c, order, addr))
    requires Node(c, l, NodeAt(c, addr, l))
    requires var k := NodeAt(c, addr, l);
      var w := if l == OrderToLevel(c, order) then OrderToWidth(c, order) else 1;
      var b := SetClear(View(c, base, st, l, k), AddrToIdx(c, addr, l), w, false);
      ViewBecomes(c, base, st, st', l, k, b) && (empty <==> b == ZERO)
    requires if l == OrderToLevel(c, order) then Shows(c, base, st, live, 0, 0)
      else
        && Shows(c, base, st, Remaining(live, BlockOf(c, order, addr)), l + 1, NodeAt(c, addr, l + 1))
        && !InUse(Remaining(live, BlockOf(c, order, addr)), l + 1, NodeAt(c, addr, l + 1))
    ensures var rest := Remaining(live, BlockOf(c, order, addr));
      if empty then Shows(c, base, st', rest, l, NodeAt(c, addr, l)) && !InUse(rest, l, NodeAt(c, addr, l))
      else Shows(c, base, st', rest, 0, 0)
  {
    var B := BlockOf(c, order, addr);
    var k := NodeAt(c, addr, l);
    AddrToIdxIsDigit(c, addr, l);
    if l == B.level {
      CutRun(View(c, base, st, l, k), B.cell % 8, OrderToWidth(c, order));
      ShowsWithoutCells(c, base, st, st', live, B);
    } else {
      NodeAtUp(c, addr, l + 1, B.level + 1);
      ShowsShorterPath(c, base, st, st', live, B, l, NodeAt(c, addr, l + 1));
    }
    RemainingApart(live, B);
    NodeBits(c, base, st', Remaining(live, B), l, k, l, k);
    if !empty { ShowsPathForFree(c, base, st', Remaining(live, B), l, k); }
  }

  /** A mask shifted past the end of the byte acts like the run cut off there. */
  lemma CutRun(b: Byte, idx: nat, width: nat)
    requires idx < 8
    ensures SetClear(b, idx, width, false) == SetClear(b, idx, Min(width, 8 - idx), false)
  {
  }
}
