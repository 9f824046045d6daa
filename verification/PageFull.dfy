/** A chain that fills up: a run that needs a new bucket, and what it leaves when the allocator has none. */
module PageFull {
  import opened HashWords
  import opened PageTable
  import opened PageTableMap
  import opened PagePermissions

  /** SETs of n keys of chain 0. */
  function FillSets(n: nat): seq<Request>
  {
    seq(n, i requires 0 <= i < n => Request(1024 * (i + 1), 64 * (i + 1), MAPPING_SET))
  }

  /** Eight of them, then a read of the eighth key. */
  function FullRun(): seq<Request> { FillSets(8) + [Request(8192, 0, MAPPING_READ)] }

  /** The first bucket of chain 0 holds the first n keys, in its first n slots. */
  ghost predicate Filled(links: seq<Link>, n: nat)
    requires n <= SLOTS
  {
    && |links| == 1 && links[0].addr == 0 && !links[0].hb.chained
    && (forall i :: 0 <= i < SLOTS ==>
          links[0].hb.slots[i] == if i < n then Slot(1024 * (i + 1), 64 * (i + 1), false, true) else EMPTY)
  }

  /** The n-th SET: no bucket is needed while there is a free slot, and a full bucket without the key leads to none. */
  lemma NextSet(t: Tables, n: nat, o: Pi)
    requires Sized(t) && n <= SLOTS && Filled(t.chains[0], n)
    requires o == WithHash(Forge(Request(1024 * (n + 1), 64 * (n + 1), MAPPING_SET), READ_CHANNEL))
    ensures n == SLOTS <==> NeedsBucket(Looked(t, o))
    ensures n < SLOTS ==> Filled(Exec(t, o, NoBucket).0.chains[0], n + 1)
  {
    hide CompareBram, BramAfterSet;
    var links := t.chains[0];
    var hb := links[0].hb;
    assert Head(o) == 0;
    assert Find(hb, o.input) == SLOTS && FindSpace(hb) == n;
    var p1 := CompareBram(o, t.bram[BramIndex(o)]);
    assert Walk(links, 0, p1, false) == S1Step(p1, false, 0, hb).pi;
  }

  /** The words of the first n SETs, and chain 0 after them. */
  lemma {:induction false} FillUpChain(n: nat) returns (ws: seq<Pi>, outs: seq<Outcome>, t: Tables)
    requires n <= SLOTS
    ensures |ws| == n && ws == Words(FillSets(n), OnReadChannel(n)) && outs == NoBuckets(n) && AllHashed(ws) && AllOrigins(ws)
    ensures AllocatorOk(ws, outs) && t == RunAlone(ws, outs).tables && Filled(t.chains[0], n)
    decreases n
  {
    hide Exec, Looked, RunAlone, AllocatorOk, Filled, Words, InitialTables, LatestSet, LatestPermit;
    if n == 0 {
      ws, outs, t := [], [], InitialTables();
      NothingFilled();
    } else {
      ws, outs, t := FillUpChain(n - 1);
      var r := Request(1024 * n, 64 * n, MAPPING_SET);
      var o := WithHash(Forge(r, READ_CHANNEL));
      NextSet(t, n - 1, o);
      RunStep(ws, outs, o, NoBucket);
      ws, outs, t := ws + [o], outs + [NoBucket], Exec(t, o, NoBucket).0;
      WordsPush(FillSets(n - 1), OnReadChannel(n - 1), r);
      assert FillSets(n) == FillSets(n - 1) + [r] && OnReadChannel(n) == OnReadChannel(n - 1) + [READ_CHANNEL];
    }
  }

  lemma NothingFilled()
    ensures Words(FillSets(0), OnReadChannel(0)) == [] && NoBuckets(0) == []
    ensures RunAlone([], []).tables == InitialTables() && Filled(InitialTables().chains[0], 0) && AllocatorOk([], [])
  {
  }

  /**
   After seven SETs of keys of one chain the eighth needs a bucket. Refused one, it reports failure,
   and the read after it returns its value all the same.
   */
  lemma FailedSetRead()
    ensures var ws, outs := Words(FullRun(), OnReadChannel(9)), NoBuckets(9);
      && AllHashed(ws) && AllOrigins(ws) && AllocatorOk(ws[..7], outs[..7])
      && NeedsBucket(Looked(RunAlone(ws[..7], outs[..7]).tables, ws[7]))
      && var replies := RunAlone(ws, outs).replies;
         replies[7].status == FAILURE && replies[8].status == SUCCEED && replies[8].address == 512
  {
    hide Exec, Looked, RunAlone, AllocatorOk, GoodTables, Filled, LatestSet, LatestPermit;
    var ws, outs, t := FillUpChain(7);
    RunIsMap(ws, outs);
    var o := WithHash(Forge(Request(8192, 512, MAPPING_SET), READ_CHANNEL));
    var g := WithHash(Forge(Request(8192, 0, MAPPING_READ), READ_CHANNEL));
    NextSet(t, 7, o);
    FailedSetStaysReadable(t, o, g);
    RunStep(ws, outs, o, NoBucket);
    RunStep(ws + [o], outs + [NoBucket], g, NoBucket);
    var all := ws + [o] + [g];
    assert Words(FullRun(), OnReadChannel(9)) == all;
    assert NoBuckets(9) == outs + [NoBucket] + [NoBucket];
    assert all[..7] == ws && NoBuckets(9)[..7] == outs;
  }
}
