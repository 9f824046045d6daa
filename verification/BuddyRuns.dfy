/** What clients of the buddy allocator rely on, over whole runs of requests. */
module BuddyRuns {
  import opened Shifts
  import opened BuddyTree
  import opened BuddyGeometry
  import opened BuddyCache
  import opened BuddyAllocator
  import opened Log2Search

  ghost predicate DisjointBytes(c: Config, A: Block, B: Block)
    requires c.Valid() && InTree(c, A) && InTree(c, B)
  {
    Start(c, A) + Size(c, A) <= Start(c, B) || Start(c, B) + Size(c, B) <= Start(c, A)
  }

  /** Live blocks share no byte, lie in the managed range and are aligned to their size. */
  lemma LiveBlocksSafe(c: Config, live: set<Block>, A: Block, B: Block)
    requires c.Valid() && Apart(live) && A in live && B in live && InTree(c, A) && InTree(c, B)
    ensures A != B ==> DisjointBytes(c, A, B)
    ensures Start(c, A) + Size(c, A) <= Pow2(c.MaxShift())
    ensures Size(c, A) == Pow2(LogSize(c, A)) && Low(Start(c, A), LogSize(c, A)) == 0
  {
    BlockPlacement(c, A);
    if A != B {
      if A.level <= B.level { ApartRanges(c, A, B); } else { ApartRanges(c, B, A); }
    }
  }

  /** When the reserved block covers the metadata area, no live block holds a byte of it. */
  lemma LiveBlocksOffMetadata(c: Config, live: set<Block>, R: Block, B: Block)
    requires c.Valid() && Apart(live) && R in live && B in live && B != R && InTree(c, R) && InTree(c, B)
    requires Start(c, R) == 0 && MetaSize(c) <= Size(c, R)
    ensures Start(c, B) >= MetaSize(c)
  {
    LiveBlocksSafe(c, live, R, B);
    PowPositive(LogSize(c, B));
    BlockPlacement(c, B);
  }

  /** The tree is a function of the live blocks: two stores that show the same blocks look the same. */
  lemma SameLiveSameView(c: Config, base: nat, st: Store, st': Store, live: set<Block>)
    requires Shape(c, base, st) && Shape(c, base, st')
    requires Shows(c, base, st, live, 0, 0) && Shows(c, base, st', live, 0, 0)
    ensures SameView(c, base, st, st')
  {
    forall l, k | Node(c, l, k) ensures View(c, base, st, l, k) == View(c, base, st', l, k) {
      NodeBits(c, base, st, live, 0, 0, l, k);
      NodeBits(c, base, st', live, 0, 0, l, k);
      assert forall i :: 0 <= i < 8 ==> View(c, base, st, l, k)[i] == View(c, base, st', l, k)[i];
    }
  }

  /** A clear bit means that the child node is empty, in DRAM as well, and that no valid line holds it. */
  lemma {:induction false} ClearBitMeansEmpty(c: Config, base: nat, st: Store, live: set<Block>, l: nat, j: nat)
    requires Coherent(c, base, st) && Apart(live) && Shows(c, base, st, live, 0, 0)
    requires l + 1 < c.Levels() && j < Pow8(l + 1) && !Bit(c, base, st, l, j)
    ensures View(c, base, st, l + 1, j) == ZERO && !Cached(c, base, st, l + 1, j)
  {
    hide GoodLines, Bit, View, Cached, InUse, Occupied, Apart;
    assert Bit(c, base, st, l, j) <==> Occupied(live, l, j) || OnPath(0, 0, l, j);
    UsedNodeHasBit(live, l, j);
    NodeBits(c, base, st, live, 0, 0, l + 1, j);
    EmptyNotCached(c, base, st, l + 1, j);
  }

  lemma EmptyNotCached(c: Config, base: nat, st: Store, l: nat, k: nat)
    requires Coherent(c, base, st) && Node(c, l, k) && l > 0 && View(c, base, st, l, k) == ZERO
    ensures !Cached(c, base, st, l, k)
  {
    SlotFinds(st.sets[l].lines, NodeTag(c, l, k));
    assert GoodLines(c, l, st.sets[l].lines);
  }

  /** One more block changes bits on the path from the root to it and nowhere else. */
  lemma {:induction false} ChangesOnePath(c: Config, base: nat, st: Store, st': Store, live: set<Block>, B: Block, l: nat, j: nat)
    requires Shape(c, base, st) && Shape(c, base, st') && l < c.Levels() && j < Pow8(l + 1)
    requires Shows(c, base, st, live, 0, 0) && Shows(c, base, st', live + {B}, 0, 0)
    ensures Bit(c, base, st', l, j) <==> Bit(c, base, st, l, j) || Touches(B, l, j)
  {
    hide Bit;
    OccupiedWith(live, B, l, j);
    assert Bit(c, base, st, l, j) <==> Occupied(live, l, j) || OnPath(0, 0, l, j);
    assert Bit(c, base, st', l, j) <==> Occupied(live + {B}, l, j) || OnPath(0, 0, l, j);
  }

  /** Freeing the block just allocated succeeds and restores the exact tree, whatever was evicted. */
  method AllocThenFree(b: Buddy, order: nat) returns (stat: nat, stat': nat)
    requires b.Valid()
    modifies b
    ensures b.Valid() && b.live == old(b.live)
    ensures stat == SUCCESS <==>
      order < b.c.orderMax - 1 && RoomCached(old(b.sets), OrderToLevel(b.c, order), OrderToWidth(b.c, order))
    ensures stat == SUCCESS ==> stat' == SUCCESS
    ensures SameView(b.c, b.base, old(b.St()), b.St())
  {
    ghost var before := b.St();
    ghost var live0 := b.live;
    var addr;
    stat, addr := b.Alloc(order);
    stat' := FAILED;
    if stat == SUCCESS {
      stat' := b.Free(order, addr);
      assert b.live == live0;
    }
    SameLiveSameView(b.c, b.base, before, b.St(), b.live);
  }

  datatype Owned = Owned(order: nat, addr: nat)
  datatype Op = AllocOp(order: nat) | FreeOp(which: nat)

  ghost function Named(c: Config, o: Owned): Block
    requires c.Valid()
  {
    if o.order < c.orderMax then BlockOf(c, o.order, o.addr) else Block(0, 0, 0)
  }

  ghost function AllNamed(c: Config, owned: seq<Owned>): set<Block>
    requires c.Valid()
  {
    set i | 0 <= i < |owned| :: Named(c, owned[i])
  }

  /** The address and order the client holds are those of the block they name. */
  ghost predicate Fits(c: Config, o: Owned)
    requires c.Valid()
  {
    && o.order < c.orderMax - 1 && InTree(c, Named(c, o))
    && Start(c, Named(c, o)) == o.addr && Size(c, Named(c, o)) == Pow2(o.order + c.minShift)
  }

  /** The client's list names every live block once, but for the reserved one. */
  ghost predicate Holds(c: Config, live: set<Block>, R: Block, owned: seq<Owned>)
    requires c.Valid()
  {
    && (forall i :: 0 <= i < |owned| ==> Fits(c, owned[i]) && Named(c, owned[i]) != R)
    && (forall i, j :: 0 <= i < j < |owned| ==> Named(c, owned[i]) != Named(c, owned[j]))
    && live == {R} + AllNamed(c, owned)
  }

  /** The byte ranges of two holdings do not meet. */
  ghost predicate Separate(c: Config, o: Owned, p: Owned)
  {
    || o.addr + Pow2(o.order + c.minShift) <= p.addr
    || p.addr + Pow2(p.order + c.minShift) <= o.addr
  }

  /** Inside the managed range, aligned, and off the metadata area if the reserved block covers that. */
  ghost predicate Placed(c: Config, o: Owned)
    requires c.Valid()
  {
    && o.addr + Pow2(o.order + c.minShift) <= Pow2(c.MaxShift())
    && Low(o.addr, o.order + c.minShift) == 0
    && (Covers(c) ==> o.addr >= MetaSize(c))
  }

  /**
   Any run of allocations and frees of what was allocated, in any order: no free ever fails, the
   blocks held are pairwise disjoint, aligned byte ranges inside the managed space, off the metadata
   area whenever the reserved block covers it, and no byte outside the metadata area was written.
   */
  method Run(b: Buddy, ops: seq<Op>) returns (owned: seq<Owned>, freesOk: bool, trace: seq<seq<Owned>>)
    requires b.Valid() && b.live == {b.Reserved()}
    modifies b
    ensures b.Valid() && freesOk && OnlyMeta(b.c, b.base, old(b.dram), b.dram)
    ensures Holds(b.c, b.live, b.Reserved(), owned)
    ensures |trace| == |ops| + 1 && trace[0] == [] && trace[|ops|] == owned
    ensures forall n :: 0 <= n < |ops| ==> Takes(ops[n], trace[n], trace[n + 1])
    ensures owned == [] ==> b.live == old(b.live) && SameView(b.c, b.base, old(b.St()), b.St())
    ensures forall i, j :: 0 <= i < j < |owned| ==> Separate(b.c, owned[i], owned[j])
    ensures forall i :: 0 <= i < |owned| ==> Placed(b.c, owned[i])
  {
    hide GoodLines, Shows, Named, Fits, Separate, Placed, InTree, Takes;
    owned, freesOk, trace := [], true, [[]];
    ghost var start := b.St();
    ghost var R := b.Reserved();
    assert AllNamed(b.c, owned) == {};
    for n := 0 to |ops|
      invariant b.Valid() && freesOk && OnlyMeta(b.c, b.base, old(b.dram), b.dram)
      invariant Holds(b.c, b.live, R, owned)
      invariant |trace| == n + 1 && trace[0] == [] && trace[n] == owned
      invariant forall i :: 0 <= i < n ==> Takes(ops[i], trace[i], trace[i + 1])
    {
      owned, freesOk := RunOne(b, ops[n], owned, freesOk);
      trace := trace + [owned];
    }
    if owned == [] {
      assert b.live == {R};
      SameLiveSameView(b.c, b.base, start, b.St(), b.live);
    }
    ReservedPlace(b);
    HeldSafe(b.c, b.live, R, owned);
  }

  /** The reserved block starts the space, and covers the metadata area when the configuration is right. */
  lemma ReservedPlace(b: Buddy)
    requires b.Valid()
    ensures var R := b.Reserved();
      InTree(b.c, R) && Start(b.c, R) == 0 && (Covers(b.c) <==> MetaSize(b.c) <= Size(b.c, R))
  {
    hide Shows, GoodLines, Shr, IsCeilLog2, Covers, MetaBase, Apart;
    OrderSize(b.c, b.metaOrder);
    ReservedCoversMeta(b.c, b.metaOrder);
    ShlPlus(0, 0, CellShift(b.c, OrderToLevel(b.c, b.metaOrder)));
  }

  /** What one operation does to the holdings: an allocation adds its block if it succeeds, a free takes its one away. */
  ghost predicate Takes(op: Op, owned: seq<Owned>, owned': seq<Owned>)
  {
    match op
    case AllocOp(order) => owned' == owned || (|owned'| == |owned| + 1 && owned' == owned + [Owned(order, owned'[|owned|].addr)])
    case FreeOp(i) => owned' == if i < |owned| then owned[..i] + owned[i + 1..] else owned
  }

  /** One operation; an allocation fails only where no cached line has room. */
  method RunOne(b: Buddy, op: Op, owned: seq<Owned>, freesOk: bool) returns (owned': seq<Owned>, freesOk': bool)
    requires b.Valid() && Holds(b.c, b.live, b.Reserved(), owned)
    modifies b
    ensures b.Valid() && freesOk' == freesOk && OnlyMeta(b.c, b.base, old(b.dram), b.dram)
    ensures Holds(b.c, b.live, b.Reserved(), owned') && Takes(op, owned, owned')
    ensures op.AllocOp? ==>
      (owned' != owned <==>
        op.order < b.c.orderMax - 1 && RoomCached(old(b.sets), OrderToLevel(b.c, op.order), OrderToWidth(b.c, op.order)))
  {
    hide AllocatedAt, OnlyEmptiedAll, ShowsBlocks, Shows, RunMarked, Remaining, Under, RoomCached, Meets;
    owned', freesOk' := owned, freesOk;
    ghost var live := b.live;
    match op
    case AllocOp(order) =>
      var stat, addr := b.Alloc(order);
      if stat == SUCCESS {
        HoldsMore(b.c, live, b.Reserved(), owned, Owned(order, addr));
        owned' := owned + [Owned(order, addr)];
      }
    case FreeOp(i) =>
      if i < |owned| {
        assert Fits(b.c, owned[i]) && Named(b.c, owned[i]) in AllNamed(b.c, owned);
        var stat := b.Free(owned[i].order, owned[i].addr);
        freesOk' := freesOk && stat == SUCCESS;
        HoldsLess(b.c, live, b.Reserved(), owned, i);
        owned' := owned[..i] + owned[i + 1..];
      }
  }

  lemma HoldsMore(c: Config, live: set<Block>, R: Block, owned: seq<Owned>, o: Owned)
    requires c.Valid() && Holds(c, live, R, owned) && Fits(c, o) && Named(c, o) !in live
    ensures Holds(c, live + {Named(c, o)}, R, owned + [o])
  {
    hide Named, Fits;
    var more := owned + [o];
    assert AllNamed(c, more) == AllNamed(c, owned) + {Named(c, o)} by {
      assert forall i :: 0 <= i < |owned| ==> more[i] == owned[i];
      assert more[|owned|] == o;
    }
    assert forall i :: 0 <= i < |owned| ==> Named(c, owned[i]) in AllNamed(c, owned);
  }

  lemma HoldsLess(c: Config, live: set<Block>, R: Block, owned: seq<Owned>, n: nat)
    requires c.Valid() && Holds(c, live, R, owned) && n < |owned|
    ensures Holds(c, live - {Named(c, owned[n])}, R, owned[..n] + owned[n + 1..])
  {
    hide Named, Fits;
    var less := owned[..n] + owned[n + 1..];
    assert forall i :: 0 <= i < |less| ==> less[i] == owned[if i < n then i else i + 1];
    assert AllNamed(c, less) == AllNamed(c, owned) - {Named(c, owned[n])} by {
      forall i | 0 <= i < |owned| && i != n ensures Named(c, owned[i]) in AllNamed(c, less) {
        assert less[if i < n then i else i - 1] == owned[i];
      }
    }
  }

  lemma HeldSeparate(c: Config, live: set<Block>, o: Owned, p: Owned)
    requires c.Valid() && Apart(live) && Fits(c, o) && Fits(c, p)
    requires Named(c, o) in live && Named(c, p) in live && Named(c, o) != Named(c, p)
    ensures Separate(c, o, p)
  {
    LiveBlocksSafe(c, live, Named(c, o), Named(c, p));
  }

  lemma HeldPlaced(c: Config, live: set<Block>, R: Block, o: Owned)
    requires c.Valid() && Apart(live) && Fits(c, o) && R in live && InTree(c, R)
    requires Named(c, o) in live && Named(c, o) != R
    requires Covers(c) ==> Start(c, R) == 0 && MetaSize(c) <= Size(c, R)
    ensures Placed(c, o)
  {
    var B := Named(c, o);
    LiveBlocksSafe(c, live, B, B);
    Pow2Injective(LogSize(c, B), o.order + c.minShift);
    Pow2Injective(o.order + c.minShift, LogSize(c, B));
    if Covers(c) { LiveBlocksOffMetadata(c, live, R, B); }
  }

  lemma HeldSafe(c: Config, live: set<Block>, R: Block, owned: seq<Owned>)
    requires c.Valid() && Apart(live) && Holds(c, live, R, owned) && InTree(c, R)
    requires Covers(c) ==> Start(c, R) == 0 && MetaSize(c) <= Size(c, R)
    ensures forall i, j :: 0 <= i < j < |owned| ==> Separate(c, owned[i], owned[j])
    ensures forall i :: 0 <= i < |owned| ==> Placed(c, owned[i])
  {
    hide Named, Fits, Separate, Placed;
    forall i | 0 <= i < |owned| ensures Placed(c, owned[i]) && Named(c, owned[i]) in live {
      assert Named(c, owned[i]) in AllNamed(c, owned);
      HeldPlaced(c, live, R, owned[i]);
    }
    forall i, j | 0 <= i < j < |owned| ensures Separate(c, owned[i], owned[j]) {
      assert Named(c, owned[i]) in live && Named(c, owned[j]) in live;
      HeldSeparate(c, live, owned[i], owned[j]);
    }
  }

  lemma {:induction false} Pow2Injective(a: nat, b: nat)
    ensures a < b ==> Pow2(a) < Pow2(b)
    ensures Pow2(a) == Pow2(b) ==> a <= b
    decreases a
  {
    PowPositive(a);
    PowPositive(b);
    if a > 0 && b > 0 { Pow2Injective(a - 1, b - 1); }
  }

  // ---------- the request handler's address offset

  const PA_WIDTH: nat := 32

  /** ret.addr += buddy_managed_base, on PA_WIDTH bits */
  function ToUser(base: nat, addr: nat): nat { (addr + base) % 0x1_0000_0000 }

  /** req.addr -= buddy_managed_base, on PA_WIDTH bits */
  function FromUser(base: nat, addr: nat): nat { (addr - base) % 0x1_0000_0000 }

  const BUDDY_ALLOC: nat := 0
  const BUDDY_FREE: nat := 1

  /** `handler` */
  method Handle(b: Buddy, opcode: nat, order: nat, addr: nat) returns (stat: nat, ret: nat)
    requires b.Consistent() && b.c.MaxShift() <= PA_WIDTH && addr < 0x1_0000_0000
    modifies b
    ensures OnlyMeta(b.c, b.base, old(b.dram), b.dram)
    ensures opcode != BUDDY_FREE || stat == FAILED ==> b.Consistent() && (old(b.Valid()) ==> b.Valid())
    ensures stat == FAILED ==> b.live == old(b.live) && ret == 0 && b.dram == old(b.dram) && b.sets == old(b.sets)
    ensures opcode == BUDDY_ALLOC ==>
      (stat == SUCCESS <==>
        order < b.c.orderMax - 1 && RoomCached(old(b.sets), OrderToLevel(b.c, order), OrderToWidth(b.c, order)))
    ensures opcode == BUDDY_ALLOC && stat == SUCCESS ==>
      order < b.c.orderMax - 1 && var B := BlockOf(b.c, order, FromUser(b.base, ret));
      && b.live == old(b.live) + {B} && B !in old(b.live)
      && Size(b.c, B) == Pow2(order + b.c.minShift) && ret == (Start(b.c, B) + b.base) % 0x1_0000_0000
      && (old(b.Valid()) ==> B != b.Reserved()) && b.MatchingFree(order, FromUser(b.base, ret))
      && AllocatedAt(b.c, b.base, old(b.sets), old(b.live), b.St(), B)
    ensures opcode !in {BUDDY_ALLOC, BUDDY_FREE} ==> stat == FAILED
    ensures opcode == BUDDY_FREE ==>
      var a := FromUser(b.base, addr);
      && (stat == SUCCESS <==> order < b.c.orderMax - 1 && RunMarked(b.c, old(b.live), order, a))
      && (stat == SUCCESS ==> b.live == Remaining(old(b.live), BlockOf(b.c, order, a)))
      && (stat == SUCCESS ==> (b.Consistent() <==> !Under(old(b.live), BlockOf(b.c, order, a))))
      && (old(b.Valid()) && old(b.MatchingFree(order, a)) && stat == SUCCESS ==> (b.Valid() <==> BlockOf(b.c, order, a) != b.Reserved()))
  {
    hide Shows, GoodLines, Apart, Shl, Shr, Low, NodeAt, RoomCached, Remaining, Under, RunMarked, BlockOf, IsCeilLog2, Start, Size,
      Meets, FromUser, InTree, Covers, AllocatedAt, OnlyEmptiedAll;
    if opcode == BUDDY_ALLOC {
      stat, ret := b.Alloc(order);
      if stat == SUCCESS {
        StartSmall(b.c, BlockOf(b.c, order, ret));
        UserRoundTrip(b.base, ret);
      }
      ret := ToUser(b.base, ret);
      if stat == FAILED { ret := 0; }
    } else if opcode == BUDDY_FREE {
      stat := b.Free(order, FromUser(b.base, addr));
      ret := 0;
    } else {
      stat, ret := FAILED, 0;
    }
  }

  lemma StartSmall(c: Config, B: Block)
    requires c.Valid() && InTree(c, B) && c.MaxShift() <= PA_WIDTH
    ensures Start(c, B) < 0x1_0000_0000
  {
    hide Shl, Start, Size;
    BlockPlacement(c, B);
    PowPositive(LogSize(c, B));
    Pow2Small(c.MaxShift());
  }

  lemma UserRoundTrip(base: nat, addr: nat)
    requires addr < 0x1_0000_0000
    ensures FromUser(base, ToUser(base, addr)) == addr
  {
  }

  lemma Pow2Small(e: nat)
    requires e <= 32
    ensures Pow2(e) <= 0x1_0000_0000
  {
    Pow2Monotone(e, 32);
    assert Shl(1, 8) == 256;
    ShlShl(1, 8, 8);
    assert Shl(256, 8) == 65536;
    ShlShl(1, 16, 8);
    assert Shl(65536, 8) == 16777216;
    ShlShl(1, 24, 8);
    assert Shl(16777216, 8) == 4294967296;
  }
}
