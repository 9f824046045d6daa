/**
 Descriptor chains: what one transfer hands to the DMA engine, and what the engine reads out of it
 (host/pcie_xdma/xdma/libxdma.c).
 */
module XdmaChain {

  import opened XdmaSplit

  const MAX_DESC: nat := 2048           // XDMA_TRANSFER_MAX_DESC
  const MAX_EXTRA_ADJ: nat := 15
  const MAGIC: nat := 0xAD4B            // the upper half of DESC_MAGIC
  const STOPPED: nat := 1
  const COMPLETED: nat := 2
  const EOP: nat := 16
  const LAST_FLAGS: nat := STOPPED + COMPLETED + EOP
  const DESC_SIZE: nat := 32
  const PAGE: nat := 0x1000
  const U64: nat := 0x1_0000_0000_0000_0000

  /** The control word by its fields: bits 31..16, 15..12, 11..8 and 7..0. */
  datatype Control = Control(magic: nat, reserved: nat, extraAdj: nat, flags: nat)

  /** A hardware descriptor; each 64-bit address is held in two 32-bit halves in the source. */
  datatype Desc = Desc(control: Control, bytes: nat, src: nat, dst: nat, next: nat)

  /** The engine's fixed settings: bus address of its descriptor array, direction, fixed endpoint address. */
  datatype Setup = Setup(bus: nat, toDevice: bool, nonIncr: bool)

  ghost predicate GoodSetup(u: Setup)
  {
    u.bus % PAGE == 0 && u.bus + MAX_DESC * DESC_SIZE <= U64
  }

  function BusOf(u: Setup, i: nat): nat { u.bus + i * DESC_SIZE }

  function Min(a: nat, b: nat): nat { if a < b then a else b }

  // ---------- the chain of one transfer

  /** Endpoint address of the piece after `done` bytes. */
  function EpAt(u: Setup, ep: nat, done: nat): nat
  {
    if u.nonIncr then ep else (ep + done) % U64
  }

  /** Descriptors left in the page of bus address `next`, after the one at `next`: an unsigned difference. */
  function AfterInPage(next: nat): nat
  {
    var left := (PAGE - next % PAGE) / DESC_SIZE;
    if left == 0 then U32 - 1 else left - 1
  }

  function ExtraAdj(u: Setup, n: nat, i: nat): nat
  {
    if i + 1 < n then Min(Min(n - i - 2, MAX_EXTRA_ADJ), AfterInPage(BusOf(u, i + 1))) else 0
  }

  ghost function DescOf(u: Setup, rs: seq<Range>, ep: nat, i: nat): Desc
    requires i < |rs|
  {
    var host, e := rs[i].addr, EpAt(u, ep, Total(rs[..i]));
    Desc(Control(MAGIC, 0, ExtraAdj(u, |rs|, i), if i + 1 == |rs| then LAST_FLAGS else 0),
         rs[i].len,
         if u.toDevice then host else e,
         if u.toDevice then e else host,
         if i + 1 == |rs| then 0 else BusOf(u, i + 1))
  }

  ghost function Chain(u: Setup, rs: seq<Range>, ep: nat): seq<Desc>
  {
    seq(|rs|, i requires 0 <= i < |rs| => DescOf(u, rs, ep, i))
  }

  // ---------- what the engine does with a chain

  /**
   `path` is the order in which an engine started on descriptor 0 fetches: each next pointer is followed,
   up to a zero one. Descriptor i of the array lies 32 * i bytes behind its bus address.
   */
  ghost predicate Follows(u: Setup, ds: seq<Desc>, path: seq<nat>)
  {
    && path != [] && path[0] == 0
    && (forall k :: 0 <= k < |path| ==> path[k] < |ds|)
    && (forall k :: 0 <= k < |path| - 1 ==>
         ds[path[k]].next != 0 && ds[path[k]].next == u.bus + 32 * path[k + 1])
    && ds[path[|path| - 1]].next == 0
  }

  ghost predicate Counting(path: seq<nat>, n: nat)
  {
    |path| == n && forall k :: 0 <= k < n ==> path[k] == k
  }

  lemma {:induction false} FollowsUpTo(u: Setup, rs: seq<Range>, ep: nat, path: seq<nat>, k: nat)
    requires Follows(u, Chain(u, rs, ep), path) && k < |path|
    ensures k < |rs| && path[k] == k
  {
    if k > 0 {
      FollowsUpTo(u, rs, ep, path, k - 1);
      assert Chain(u, rs, ep)[path[k - 1]].next == u.bus + 32 * path[k];
    }
  }

  /** Following the next pointers visits every descriptor once, in order, and there is no other way to follow them. */
  lemma WalkVisitsAll(u: Setup, rs: seq<Range>, ep: nat, path: seq<nat>)
    requires GoodSetup(u) && rs != []
    ensures Follows(u, Chain(u, rs, ep), path) <==> Counting(path, |rs|)
  {
    if Follows(u, Chain(u, rs, ep), path) {
      forall k | 0 <= k < |path| ensures path[k] == k < |rs| { FollowsUpTo(u, rs, ep, path, k); }
      StopsAtTheEnd(u, rs, ep, |path| - 1);
    }
  }

  /** The stop flags are on the descriptor where the walk ends, and on no other. */
  lemma StopsAtTheEnd(u: Setup, rs: seq<Range>, ep: nat, i: nat)
    requires i < |rs|
    ensures var d := Chain(u, rs, ep)[i];
      && d.control.magic == 0xAD4B && d.control.reserved == 0
      && d.control.flags == (if i == |rs| - 1 then 1 + 2 + 16 else 0)
      && d.next == if i == |rs| - 1 then 0 else u.bus + 32 * (i + 1)
  {
    assert i + 1 != |rs| ==> Chain(u, rs, ep)[i].next >= DESC_SIZE;
  }

  function PageOf(addr: nat): nat { addr / PAGE }

  /** Two descriptors of the array lie in one page. */
  predicate SamePage(u: Setup, i: nat, j: nat) { PageOf(u.bus + 32 * i) == PageOf(u.bus + 32 * j) }

  /**
   The engine may fetch the next descriptor and `extraAdj` more in one burst. The burst stays inside
   the array and inside the page of the next descriptor, and one more would leave either or exceed 15.
   */
  lemma BurstFits(u: Setup, rs: seq<Range>, ep: nat, i: nat)
    requires GoodSetup(u) && i < |rs| <= MAX_DESC
    ensures var e := Chain(u, rs, ep)[i].control.extraAdj;
      && (i + 1 == |rs| ==> e == 0)
      && (i + 1 < |rs| ==>
           && e <= MAX_EXTRA_ADJ && i + 1 + e < |rs|
           && SamePage(u, i + 1, i + 1 + e)
           && (e == MAX_EXTRA_ADJ || i + 2 + e == |rs| || !SamePage(u, i + 1, i + 2 + e)))
  {
    hide AfterInPage, PageOf, BusOf, EpAt, Total;
    if i + 1 < |rs| {
      var next, m := BusOf(u, i + 1), Min(|rs| - i - 2, MAX_EXTRA_ADJ);
      var e := Min(m, AfterInPage(next));
      assert Chain(u, rs, ep)[i].control.extraAdj == e;
      BusFrom(u, i + 1, e);
      BusFrom(u, i + 1, e + 1);
      LargestInPage(next, m);
    }
  }

  lemma BusFrom(u: Setup, i: nat, e: nat)
    requires GoodSetup(u)
    ensures BusOf(u, i + e) == BusOf(u, i) + e * DESC_SIZE && BusOf(u, i) % DESC_SIZE == 0
    ensures BusOf(u, i) == u.bus + 32 * i && BusOf(u, i + e) == u.bus + 32 * (i + e)
  {
    assert u.bus == DESC_SIZE * (128 * (u.bus / PAGE));
    assert BusOf(u, i) == DESC_SIZE * (128 * (u.bus / PAGE) + i);
  }

  lemma LargestInPage(next: nat, m: nat)
    requires next % DESC_SIZE == 0
    ensures var e := Min(m, AfterInPage(next));
      && e <= m && PageOf(next + e * DESC_SIZE) == PageOf(next)
      && (e == m || PageOf(next + (e + 1) * DESC_SIZE) != PageOf(next))
  {
    hide AfterInPage, PageOf;
    PageEnd(next, Min(m, AfterInPage(next)));
    PageEnd(next, Min(m, AfterInPage(next)) + 1);
  }

  lemma PageEnd(next: nat, e: nat)
    requires next % DESC_SIZE == 0
    ensures e <= AfterInPage(next) <==> PageOf(next + e * DESC_SIZE) == PageOf(next)
  {
    var off := next % PAGE;
    assert off % DESC_SIZE == 0;
    assert next == PageOf(next) * PAGE + off;
  }

  // ---------- the bytes it moves

  /** One byte moved between a host address and an endpoint address. */
  datatype Move = Move(host: nat, ep: nat)

  ghost function MovesOf(u: Setup, d: Desc): seq<Move>
  {
    var host, e := if u.toDevice then d.src else d.dst, if u.toDevice then d.dst else d.src;
    seq(d.bytes, k requires 0 <= k < d.bytes => Move(host + k, if u.nonIncr then e else (e + k) % U64))
  }

  ghost function Moves(u: Setup, ds: seq<Desc>): seq<Move>
  {
    if ds == [] then [] else Moves(u, ds[..|ds| - 1]) + MovesOf(u, ds[|ds| - 1])
  }

  /** Host bytes in the given order against consecutive endpoint bytes (or the one fixed endpoint address). */
  ghost function Expected(u: Setup, host: seq<nat>, ep: nat): seq<Move>
  {
    seq(|host|, j requires 0 <= j < |host| => Move(host[j], if u.nonIncr then ep else (ep + j) % U64))
  }

  lemma EpAtStep(u: Setup, ep: nat, a: nat, b: nat)
    requires ep < U64
    ensures EpAt(u, EpAt(u, ep, a), b) == EpAt(u, ep, a + b) && EpAt(u, ep, a) < U64
    ensures EpAt(u, ep, 0) == ep
  {
  }

  lemma ExpectedJoin(u: Setup, a: seq<nat>, b: seq<nat>, ep: nat)
    requires ep < U64
    ensures Expected(u, a + b, ep) == Expected(u, a, ep) + Expected(u, b, EpAt(u, ep, |a|))
  {
    forall j | 0 <= j < |a| + |b|
      ensures Expected(u, a + b, ep)[j] == (Expected(u, a, ep) + Expected(u, b, EpAt(u, ep, |a|)))[j]
    {
      if j >= |a| { EpAtStep(u, ep, |a|, j - |a|); }
    }
  }

  lemma {:induction false} MovesJoin(u: Setup, a: seq<Desc>, b: seq<Desc>)
    ensures Moves(u, a + b) == Moves(u, a) + Moves(u, b)
    decreases |b|
  {
    if b == [] {
      assert a + b == a;
    } else {
      var m := |b| - 1;
      assert (a + b)[..|a + b| - 1] == a + b[..m];
      MovesJoin(u, a, b[..m]);
    }
  }

  lemma DescMoves(u: Setup, rs: seq<Range>, ep: nat, i: nat)
    requires ep < U64 && i < |rs|
    ensures MovesOf(u, DescOf(u, rs, ep, i)) == Expected(u, BytesOf(rs[i]), EpAt(u, ep, Total(rs[..i])))
  {
    hide ExtraAdj;
    EpAtStep(u, ep, Total(rs[..i]), 0);
  }

  lemma {:induction false} PrefixMoves(u: Setup, rs: seq<Range>, ep: nat, n: nat)
    requires ep < U64 && n <= |rs|
    ensures Moves(u, Chain(u, rs, ep)[..n]) == Expected(u, HostBytes(rs[..n]), ep)
  {
    hide DescOf, MovesOf, EpAt, Total, BytesOf;
    if n > 0 {
      var m := n - 1;
      var c := Chain(u, rs, ep);
      PrefixMoves(u, rs, ep, m);
      assert c[..n][..m] == c[..m] && rs[..n][..m] == rs[..m];
      DescMoves(u, rs, ep, m);
      HostBytesLength(rs[..m]);
      ExpectedJoin(u, HostBytes(rs[..m]), BytesOf(rs[m]), ep);
    }
  }

  /** A chain moves exactly the host bytes of its ranges, each once and in order, to consecutive endpoint addresses. */
  lemma {:induction false} ChainMoves(u: Setup, rs: seq<Range>, ep: nat)
    requires ep < U64
    ensures Moves(u, Chain(u, rs, ep)) == Expected(u, HostBytes(rs), ep)
  {
    PrefixMoves(u, rs, ep, |rs|);
    assert Chain(u, rs, ep)[..|rs|] == Chain(u, rs, ep) && rs[..|rs|] == rs;
  }
}
