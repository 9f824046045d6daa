/**
 What a whole submit moves and reports (host/pcie_xdma/xdma/libxdma.c).
 */
module XdmaResults {

  import opened XdmaSplit
  import opened XdmaChain
  import opened XdmaSubmit

  lemma {:induction false} TransfersMove(u: Setup, rs: seq<Range>, ep: nat)
    requires ep < U64
    ensures AllMoves(u, TransfersOf(u, rs, ep)) == Expected(u, HostBytes(rs), ep)
    decreases |rs|
  {
    hide Chain, Moves, EpAt, HostBytes, Expected;
    if rs == [] {
      NothingMoves(u, ep);
    } else {
      var b := Batch(rs);
      var rest, next := rs[|b|..], EpAt(u, ep, Total(b));
      EpAtStep(u, ep, Total(b), 0);
      TransfersMove(u, rest, next);
      ChainMoves(u, b, ep);
      assert rs == b + rest;
      HostBytesJoin(b, rest);
      HostBytesLength(b);
      ExpectedJoin(u, HostBytes(b), HostBytes(rest), ep);
      var ts := TransfersOf(u, rs, ep);
      assert ts[0].descs == Chain(u, b, ep) && ts[1..] == TransfersOf(u, rest, next);
    }
  }

  lemma NothingMoves(u: Setup, ep: nat)
    ensures Expected(u, HostBytes([]), ep) == []
  {
  }

  /**
   For every scatter list, the descriptors of one submit move every host byte of the list exactly
   once and in order, byte j to endpoint address ep + j (or all to the one fixed address).
   */
  lemma {:induction false} SubmitMoves(u: Setup, sg: seq<Range>, blen: nat, ep: nat)
    requires blen >= 1 && ep < U64
    ensures AllMoves(u, TransfersOf(u, SplitAll(sg, blen), ep)) == Expected(u, HostBytes(sg), ep)
  {
    hide *;
    SplitAllKeeps(sg, blen);
    TransfersMove(u, SplitAll(sg, blen), ep);
  }

  lemma {:induction false} AllMovesJoin(u: Setup, a: seq<Transfer>, b: seq<Transfer>)
    ensures AllMoves(u, a + b) == AllMoves(u, a) + AllMoves(u, b)
  {
    hide Moves;
    if a == [] {
      assert a + b == b;
    } else {
      AllMovesJoin(u, a[1..], b);
      assert (a + b)[1..] == a[1..] + b;
    }
  }

  /** However a submit ends, what was queued moves a prefix of that, and all of it when it is done. */
  lemma {:induction false} QueuedMoves(u: Setup, sg: seq<Range>, blen: nat, ep: nat, rv: Result, queued: seq<Transfer>,
                    outcome: nat -> Outcome)
    requires blen >= 1 && ep < U64 && Answers(rv, queued, TransfersOf(u, SplitAll(sg, blen), ep), outcome)
    ensures AllMoves(u, queued) <= Expected(u, HostBytes(sg), ep)
    ensures rv.Done? ==> AllMoves(u, queued) == Expected(u, HostBytes(sg), ep)
  {
    hide Expected, HostBytes, TransfersOf, SplitAll, AllMoves;
    var all := TransfersOf(u, SplitAll(sg, blen), ep);
    SubmitMoves(u, sg, blen, ep);
    AllMovesJoin(u, queued, all[|queued|..]);
    assert queued + all[|queued|..] == all;
  }

  /** Every outcome completing gives `Done`, and any other outcome of a queued transfer gives an error. */
  lemma DoneWhenAllComplete(rv: Result, queued: seq<Transfer>, all: seq<Transfer>, outcome: nat -> Outcome)
    requires Answers(rv, queued, all, outcome)
    ensures rv.Done? <==> forall k :: 0 <= k < |all| ==> outcome(k) == Completed
  {
    if rv.Done? {
      forall k | 0 <= k < |all| ensures outcome(k) == Completed {
        assert k < |queued| - 1 ==> outcome(k) == Completed;
      }
    } else if rv.Busy? {
      assert |queued| < |all| && outcome(|queued|) != Completed;
    } else {
      assert |queued| - 1 < |all| && outcome(|queued| - 1) != Completed;
    }
  }

  // ---------- sizes

  /** A chain over pieces of limited length, with the engine's limits. */
  ghost predicate IsChain(u: Setup, t: Transfer, blen: nat)
  {
    exists rs: seq<Range>, ep: nat ::
      1 <= |rs| <= MAX_DESC && Limited(rs, blen) && ep < U64 && t == TransferOf(u, rs, ep)
  }

  /** Every transfer is one chain of 1 to MAX_DESC limited pieces, and every one but the last is full. */
  lemma {:induction false} TransfersAreChains(u: Setup, rs: seq<Range>, ep: nat, blen: nat, k: nat)
    requires Limited(rs, blen) && ep < U64 && k < |TransfersOf(u, rs, ep)|
    ensures var ts := TransfersOf(u, rs, ep);
      && IsChain(u, ts[k], blen)
      && (k + 1 < |ts| ==> |ts[k].descs| == MAX_DESC)
    decreases |rs|
  {
    hide EpAt, DescOf, Total;
    var b := Batch(rs);
    var next := EpAt(u, ep, Total(b));
    EpAtStep(u, ep, Total(b), 0);
    if k == 0 {
      assert TransfersOf(u, rs, ep)[0] == TransferOf(u, b, ep);
      assert |b| < MAX_DESC ==> rs[|b|..] == [];
    } else {
      TransfersAreChains(u, rs[|b|..], next, blen, k - 1);
      assert TransfersOf(u, rs, ep)[1..] == TransfersOf(u, rs[|b|..], next);
    }
  }

  // ---------- the returned total

  ghost function Bytes(ts: seq<Transfer>): nat
  {
    if ts == [] then 0 else Bytes(ts[..|ts| - 1]) + LengthOf(ts[|ts| - 1].descs)
  }

  ghost function LengthOf(ds: seq<Desc>): nat
  {
    if ds == [] then 0 else LengthOf(ds[..|ds| - 1]) + ds[|ds| - 1].bytes
  }

  /** A transfer's 32-bit `len` holds its bytes. */
  ghost predicate Fits(t: Transfer)
  {
    LengthOf(t.descs) < U32
  }

  lemma {:induction false} ChainLength(u: Setup, rs: seq<Range>, ep: nat, n: nat)
    requires n <= |rs|
    ensures LengthOf(Chain(u, rs, ep)[..n]) == Total(rs[..n])
  {
    hide EpAt, ExtraAdj;
    if n > 0 {
      ChainLength(u, rs, ep, n - 1);
      assert Chain(u, rs, ep)[..n][..n - 1] == Chain(u, rs, ep)[..n - 1];
      assert rs[..n][..n - 1] == rs[..n - 1];
    }
  }

  lemma {:induction false} TransferLength(u: Setup, rs: seq<Range>, ep: nat)
    ensures var t := TransferOf(u, rs, ep); LengthOf(t.descs) == Total(rs) && t.len == Total(rs) % U32
  {
    hide DescOf;
    ChainLength(u, rs, ep, |rs|);
    assert rs[..|rs|] == rs && Chain(u, rs, ep)[..|rs|] == Chain(u, rs, ep);
  }

  ghost predicate Wrapped(t: Transfer)
  {
    t.len == LengthOf(t.descs) % U32
  }

  lemma {:induction false} ReportedIs(ts: seq<Transfer>)
    requires forall k :: 0 <= k < |ts| ==> Wrapped(ts[k])
    ensures Reported(ts) <= Bytes(ts)
    ensures Reported(ts) == Bytes(ts) <==> forall k :: 0 <= k < |ts| ==> Fits(ts[k])
  {
    hide LengthOf;
    if ts != [] {
      var m := |ts| - 1;
      ReportedIs(ts[..m]);
      assert Wrapped(ts[m]);
      assert forall k :: 0 <= k < m ==> ts[..m][k] == ts[k];
    }
  }

  lemma {:induction false} BytesJoin(a: seq<Transfer>, b: seq<Transfer>)
    ensures Bytes(a + b) == Bytes(a) + Bytes(b)
    decreases |b|
  {
    hide LengthOf;
    if b == [] {
      assert a + b == a;
    } else {
      var m := |b| - 1;
      assert (a + b)[..|a + b| - 1] == a + b[..m];
      BytesJoin(a, b[..m]);
    }
  }

  lemma {:induction false} TransfersTotal(u: Setup, rs: seq<Range>, ep: nat)
    ensures var ts := TransfersOf(u, rs, ep);
      && Bytes(ts) == Total(rs)
      && forall k :: 0 <= k < |ts| ==> Wrapped(ts[k])
    decreases |rs|
  {
    hide LengthOf, EpAt, Chain;
    if rs != [] {
      var b := Batch(rs);
      var rest, next := rs[|b|..], EpAt(u, ep, Total(b));
      var first := TransferOf(u, b, ep);
      TransfersTotal(u, rest, next);
      TransferLength(u, b, ep);
      BytesJoin([first], TransfersOf(u, rest, next));
      assert [first][..0] == [];
      assert rs == b + rest;
      HostBytesJoin(b, rest);
    }
  }

  // ---------- the same on the input

  /** Pieces k * MAX_DESC and on, as many as one transfer takes. */
  ghost function Group(rs: seq<Range>, k: nat): seq<Range>
    requires k * MAX_DESC <= |rs|
  {
    rs[k * MAX_DESC..Min(|rs|, (k + 1) * MAX_DESC)]
  }

  /** No group of MAX_DESC consecutive pieces has 2^32 bytes. */
  ghost predicate GroupsFit(rs: seq<Range>)
  {
    forall k: nat :: k * MAX_DESC < |rs| ==> Total(Group(rs, k)) < U32
  }

  /** Transfer k takes group k. */
  lemma {:induction false} TransferGroup(u: Setup, rs: seq<Range>, ep: nat, k: nat)
    ensures k < |TransfersOf(u, rs, ep)| <==> k * MAX_DESC < |rs|
    ensures k * MAX_DESC < |rs| ==> LengthOf(TransfersOf(u, rs, ep)[k].descs) == Total(Group(rs, k))
    decreases k
  {
    hide Chain, EpAt, Total, LengthOf, Group;
    if rs != [] {
      var b := Batch(rs);
      var next := EpAt(u, ep, Total(b));
      var ts := TransfersOf(u, rs, ep);
      if k == 0 {
        TransferLength(u, b, ep);
        FirstGroup(rs);
      } else {
        TransferGroup(u, rs[|b|..], next, k - 1);
        assert ts[1..] == TransfersOf(u, rs[|b|..], next);
        if k * MAX_DESC < |rs| { LaterGroup(rs, k - 1); }
      }
    }
  }

  lemma FirstGroup(rs: seq<Range>)
    ensures Group(rs, 0) == Batch(rs)
  {
  }

  lemma LaterGroup(rs: seq<Range>, k: nat)
    requires k * MAX_DESC + MAX_DESC <= |rs|
    ensures Group(rs[MAX_DESC..], k) == Group(rs, k + 1)
  {
    var a, rest := k * MAX_DESC, rs[MAX_DESC..];
    var b := Min(|rest|, a + MAX_DESC);
    assert rest[a..b] == rs[a + MAX_DESC..b + MAX_DESC];
  }

  lemma {:induction false} FitsAreGroups(u: Setup, rs: seq<Range>, ep: nat)
    ensures (forall k :: 0 <= k < |TransfersOf(u, rs, ep)| ==> Fits(TransfersOf(u, rs, ep)[k])) <==> GroupsFit(rs)
  {
    hide TransfersOf, LengthOf, Total, Group;
    var ts := TransfersOf(u, rs, ep);
    forall k: nat
      ensures k < |ts| <==> k * MAX_DESC < |rs|
      ensures k < |ts| ==> (Fits(ts[k]) <==> Total(Group(rs, k)) < U32)
    {
      TransferGroup(u, rs, ep, k);
    }
  }

  /**
   A submit that is done returns the sum of the entry lengths exactly when no group of MAX_DESC
   consecutive cuts has 2^32 bytes or more, the range of a transfer's `len` field.
   */
  lemma {:induction false} ReturnedTotal(u: Setup, sg: seq<Range>, blen: nat, ep: nat, rv: Result, queued: seq<Transfer>,
                      outcome: nat -> Outcome)
    requires blen >= 1 && Answers(rv, queued, TransfersOf(u, SplitAll(sg, blen), ep), outcome) && rv.Done?
    ensures rv.bytes == Total(sg) <==> GroupsFit(SplitAll(sg, blen))
    ensures Total(sg) < U32 ==> rv.bytes == Total(sg)
  {
    hide SplitAll, TransfersOf, Fits, Wrapped, HostBytes, Total, GroupsFit;
    FitsAreGroups(u, SplitAll(sg, blen), ep);
    TransfersTotal(u, SplitAll(sg, blen), ep);
    SplitAllKeeps(sg, blen);
    ReportedIs(queued);
    if Total(sg) < U32 {
      forall k | 0 <= k < |queued| ensures Fits(queued[k]) { PartFits(queued, k); }
    }
  }

  /** Two entries of 2^31 bytes: 18 cuts in one transfer, whose length field wraps. A submit that is done returns 0. */
  lemma {:induction false} TotalLost(u: Setup, ep: nat, rv: Result, queued: seq<Transfer>, outcome: nat -> Outcome)
    requires var cuts := SplitAll([Range(0, 0x8000_0000), Range(0x8000_0000, 0x8000_0000)], DEFAULT_BLEN_MAX);
      Answers(rv, queued, TransfersOf(u, cuts, ep), outcome) && rv.Done?
    ensures var sg := [Range(0, 0x8000_0000), Range(0x8000_0000, 0x8000_0000)];
      && Countable(sg, DEFAULT_BLEN_MAX) && !GroupsFit(SplitAll(sg, DEFAULT_BLEN_MAX))
      && Total(sg) == U32 && rv.bytes == 0
  {
    hide Split, Chain, EpAt, GroupsFit;
    var sg := [Range(0, 0x8000_0000), Range(0x8000_0000, 0x8000_0000)];
    var cuts := SplitAll(sg, DEFAULT_BLEN_MAX);
    TwoEntries(sg, DEFAULT_BLEN_MAX);
    SplitAllKeeps(sg, DEFAULT_BLEN_MAX);
    SplitExact(sg[0], DEFAULT_BLEN_MAX);
    SplitExact(sg[1], DEFAULT_BLEN_MAX);
    ReturnedTotal(u, sg, DEFAULT_BLEN_MAX, ep, rv, queued, outcome);
    OneBatch(u, cuts, ep);
  }

  lemma {:induction false} TwoEntries(sg: seq<Range>, blen: nat)
    requires blen >= 1 && |sg| == 2
    ensures SplitAll(sg, blen) == Split(sg[0], blen) + Split(sg[1], blen) && Total(sg) == sg[0].len + sg[1].len
    ensures MissingOf(sg, blen) == Missing(sg[0], blen) + Missing(sg[1], blen)
    ensures SpareOf(sg, blen) == Spare(sg[0], blen) + Spare(sg[1], blen)
  {
    hide Missing, Spare, Split;
    OneEntry(sg[0], blen);
    OneEntrySums(sg[0], blen);
    assert sg[..|sg| - 1] == [sg[0]];
  }

  lemma {:induction false} OneEntrySums(r: Range, blen: nat)
    requires blen >= 1
    ensures Total([r]) == r.len && MissingOf([r], blen) == Missing(r, blen) && SpareOf([r], blen) == Spare(r, blen)
  {
    hide Missing, Spare;
    var none := [r][..0];
    assert none == [] && Total(none) == 0 && MissingOf(none, blen) == 0 && SpareOf(none, blen) == 0;
  }

  lemma {:induction false} OneBatch(u: Setup, rs: seq<Range>, ep: nat)
    requires 0 < |rs| <= MAX_DESC
    ensures TransfersOf(u, rs, ep) == [TransferOf(u, rs, ep)]
    ensures Reported(TransfersOf(u, rs, ep)) == Total(rs) % U32
  {
    hide Chain, EpAt, Total;
    assert Batch(rs) == rs;
    var t := TransferOf(u, rs, ep);
    assert [t][..0] == [];
  }

  lemma {:induction false} PartFits(ts: seq<Transfer>, k: nat)
    requires k < |ts| && Bytes(ts) < U32
    ensures Fits(ts[k])
  {
    if k < |ts| - 1 { PartFits(ts[..|ts| - 1], k); }
  }

  /** Each transfer of a submit: a walk over its chain, its stop flags and bursts, and its descriptor lengths. */
  lemma {:induction false} EveryTransfer(u: Setup, sg: seq<Range>, blen: nat, ep: nat, k: nat)
    requires GoodSetup(u) && blen >= 1 && ep < U64 && k < |TransfersOf(u, SplitAll(sg, blen), ep)|
    ensures var ds := TransfersOf(u, SplitAll(sg, blen), ep)[k].descs;
      && 1 <= |ds| <= MAX_DESC
      && (forall path :: Follows(u, ds, path) <==> Counting(path, |ds|))
      && (forall i :: 0 <= i < |ds| ==>
           && 1 <= ds[i].bytes <= blen
           && ds[i].control.flags == (if i + 1 == |ds| then LAST_FLAGS else 0)
           && i + 1 + ds[i].control.extraAdj <= |ds|
           && ds[i].control.extraAdj <= MAX_EXTRA_ADJ
           && ds[i].next == (if i + 1 == |ds| then 0 else u.bus + 32 * (i + 1))
           && (i + 1 < |ds| ==> SamePage(u, i + 1, i + 1 + ds[i].control.extraAdj)))
  {
    hide TransfersOf, SplitAll, Follows, Counting, SamePage, BusOf, ExtraAdj, EpAt;
    SplitAllKeeps(sg, blen);
    TransfersAreChains(u, SplitAll(sg, blen), ep, blen, k);
    var t := TransfersOf(u, SplitAll(sg, blen), ep)[k];
    var rs: seq<Range>, e: nat :| 1 <= |rs| <= MAX_DESC && Limited(rs, blen) && e < U64 && t == TransferOf(u, rs, e);
    forall path ensures Follows(u, t.descs, path) <==> Counting(path, |rs|) { WalkVisitsAll(u, rs, e, path); }
    forall i | 0 <= i < |rs|
      ensures t.descs[i].control.flags == if i + 1 == |rs| then LAST_FLAGS else 0
      ensures i + 1 + t.descs[i].control.extraAdj <= |rs| && t.descs[i].control.extraAdj <= MAX_EXTRA_ADJ
      ensures t.descs[i].next == if i + 1 == |rs| then 0 else u.bus + 32 * (i + 1)
      ensures i + 1 < |rs| ==> SamePage(u, i + 1, i + 1 + t.descs[i].control.extraAdj)
    {
      BurstFits(u, rs, e, i);
      StopsAtTheEnd(u, rs, e, i);
    }
  }
}
