/**
 Write permission over whole runs of the page table: what a write-intent GET is granted, when that is
 what the latest SET gave, and the runs in which it is not.
 */
module PagePermissions {
  import opened HashWords
  import opened PageTable
  import opened PageTableMap

  /** The permission the latest SET of a key gave. */
  ghost predicate LatestPermit(reqs: seq<Pi>, key: nat)
  {
    reqs != [] &&
    var last := reqs[|reqs| - 1];
    if last.op == SET && last.input == key then last.perm else LatestPermit(reqs[..|reqs| - 1], key)
  }

  /** A GET of this key copies its pair from DRAM into BRAM. */
  ghost predicate Copies(t: Tables, o: Pi, key: nat)
    requires Sized(t) && o == Origin(o)
  {
    var p := Looked(t, o);
    o.input == key && Refills(p) && p.hbDram.slots[p.slotDram].key == key
  }

  /** The permission bit a copy keeps: that of the pair it overwrites. */
  predicate KeptBit(t: Tables, o: Pi)
    requires Sized(t)
  {
    var hb := t.bram[BramIndex(o)];
    hb.slots[SpaceOrFirst(hb)].perm
  }

  /** The permission BRAM was last told for a key, by a SET or by a copy. */
  ghost predicate SaidPermit(reqs: seq<Pi>, outs: seq<Outcome>, key: nat)
    requires |reqs| == |outs| && AllOrigins(reqs)
    decreases |reqs|
  {
    reqs != [] &&
    var n := |reqs| - 1;
    var before := RunAlone(reqs[..n], outs[..n]).tables;
    if reqs[n].op == SET && reqs[n].input == key then reqs[n].perm
    else if Copies(before, reqs[n], key) then KeptBit(before, reqs[n])
    else SaidPermit(reqs[..n], outs[..n], key)
  }

  /** Some GET copied the key into BRAM after its latest SET. */
  ghost predicate CopiedSince(reqs: seq<Pi>, outs: seq<Outcome>, key: nat)
    requires |reqs| == |outs| && AllOrigins(reqs)
    decreases |reqs|
  {
    reqs != [] &&
    var n := |reqs| - 1;
    if reqs[n].op == SET && reqs[n].input == key then false
    else Copies(RunAlone(reqs[..n], outs[..n]).tables, reqs[n], key) || CopiedSince(reqs[..n], outs[..n], key)
  }

  lemma {:induction false} SaidWithoutCopy(reqs: seq<Pi>, outs: seq<Outcome>, key: nat)
    requires |reqs| == |outs| && AllOrigins(reqs) && !CopiedSince(reqs, outs, key)
    ensures SaidPermit(reqs, outs, key) <==> LatestPermit(reqs, key)
    decreases |reqs|
  {
    hide Copies, RunAlone;
    if reqs != [] {
      var n := |reqs| - 1;
      if !(reqs[n].op == SET && reqs[n].input == key) { SaidWithoutCopy(reqs[..n], outs[..n], key); }
    }
  }

  /** After any run the permission DRAM holds for a key is that of its latest SET. */
  lemma {:induction false} RunPermits(reqs: seq<Pi>, outs: seq<Outcome>, key: nat)
    requires |reqs| == |outs| && AllHashed(reqs) && AllOrigins(reqs) && AllocatorOk(reqs, outs) && key != 0
    ensures Permits(RunAlone(reqs, outs).tables, key) <==> LatestPermit(reqs, key)
    decreases |reqs|
  {
    hide GoodBram, GoodChains, Exec, BucketOk, Permits;
    if reqs == [] {
      NoInitialPermit(key);
    } else {
      var n := |reqs| - 1;
      RunPermits(reqs[..n], outs[..n], key);
      RunIsMap(reqs[..n], outs[..n]);
      ExecPermits(RunAlone(reqs[..n], outs[..n]).tables, reqs[n], outs[n], key);
    }
  }

  lemma NoInitialPermit(key: nat)
    requires key != 0
    ensures !Permits(InitialTables(), key)
  {
    var h := key % 1024;
    assert InitialTables().chains[h] == [Link(h, ZERO)];
    NoPermit([Link(h, ZERO)], key);
  }

  // ---------- what BRAM holds of a key

  /** If BRAM holds the key, it is with this permission. */
  ghost predicate BramSays(t: Tables, key: nat, perm: bool)
    requires Sized(t)
  {
    var hb := t.bram[key % 64];
    Find(hb, key) < SLOTS ==> hb.slots[Find(hb, key)].perm == perm
  }

  /** Writing another pair into a bucket leaves what it says of the key. */
  lemma {:induction false} OtherPair(t: Tables, hb: Bucket, s: nat, pair: Slot, key: nat)
    requires GoodTables(t) && key != 0 && s < SLOTS && pair.key != key
    requires hb.slots == t.bram[key % 64].slots[s := pair]
    ensures Find(hb, key) < SLOTS ==>
      Find(t.bram[key % 64], key) == Find(hb, key) && hb.slots[Find(hb, key)] == t.bram[key % 64].slots[Find(hb, key)]
  {
    hide GoodChains;
    var was := t.bram[key % 64];
    var f := Find(hb, key);
    assert GoodBram(t, key % 64);
    if f < SLOTS {
      assert f != s && was.slots[f].key == key;
      var g := Find(was, key);
      assert was.slots[g].key == key;
    }
  }

  /** One request: a SET of the key says its own permission, a copy says what it finds, the rest changes nothing. */
  lemma ExecSays(t: Tables, o: Pi, out: Outcome, key: nat, perm: bool)
    requires GoodTables(t) && Hashed(o) && BucketOk(t, o, out) && key != 0
    requires if o.op == SET && o.input == key then perm == o.perm
             else if Copies(t, o, key) then perm == KeptBit(t, o)
             else BramSays(t, key, perm)
    ensures BramSays(Exec(t, o, out).0, key, perm)
  {
    hide Looked, GoodBram, GoodChains, ChainAfter;
    var t' := Exec(t, o, out).0;
    var b := BramIndex(o);
    if key % 64 == b {
      if o.op == SET {
        var s, pair := BramAfterSetIs(t, o);
        if o.input == key { NewestFound(t, t'.bram[b], s, pair, key); } else { OtherPair(t, t'.bram[b], s, pair, key); }
      } else if Refills(Looked(t, o)) {
        var p := Looked(t, o);
        RefillSource(t, o);
        var from, s := p.hbDram.slots[p.slotDram], SpaceOrFirst(p.hbBram);
        var pair := Slot(from.key, from.val, p.hbBram.slots[s].perm, true);
        if from.key == key { NewestFound(t, t'.bram[b], s, pair, key); } else { OtherPair(t, t'.bram[b], s, pair, key); }
      }
    }
  }

  lemma {:induction false} NewestFound(t: Tables, hb: Bucket, s: nat, pair: Slot, key: nat)
    requires Sized(t) && s < SLOTS && pair.key == key && hb.slots == t.bram[key % 64].slots[s := pair]
    requires forall i :: 0 <= i < SLOTS && t.bram[key % 64].slots[i].key == key ==> s <= i
    ensures Find(hb, key) == s
  {
    assert forall i :: 0 <= i < s ==> hb.slots[i] == t.bram[key % 64].slots[i];
    assert hb.slots[s] == pair;
  }

  /** After any run, if BRAM holds a key, it is with the permission it was last told. */
  lemma {:induction false} RunSays(reqs: seq<Pi>, outs: seq<Outcome>, key: nat)
    requires |reqs| == |outs| && AllHashed(reqs) && AllOrigins(reqs) && AllocatorOk(reqs, outs) && key != 0
    ensures BramSays(RunAlone(reqs, outs).tables, key, SaidPermit(reqs, outs, key))
    decreases |reqs|
  {
    hide GoodBram, GoodChains, Exec, BucketOk, Copies, BramSays, KeptBit;
    if reqs == [] {
      NothingSaid(key);
    } else {
      var n := |reqs| - 1;
      RunIsMap(reqs[..n], outs[..n]);
      RunSays(reqs[..n], outs[..n], key);
      ExecSays(RunAlone(reqs[..n], outs[..n]).tables, reqs[n], outs[n], key, SaidPermit(reqs, outs, key));
    }
  }

  lemma NothingSaid(key: nat)
    requires key != 0
    ensures BramSays(InitialTables(), key, false)
  {
    assert InitialTables().bram[key % 64] == ZERO;
  }

  // ---------- what a write-intent GET is granted

  /** Reply n of a run is the one of request n on the tables before it. */
  lemma {:induction false} ReplyAt(reqs: seq<Pi>, outs: seq<Outcome>, n: nat)
    requires |reqs| == |outs| && AllOrigins(reqs) && n < |reqs|
    ensures AllOrigins(reqs[..n])
    ensures RunAlone(reqs, outs).replies[n] == Exec(RunAlone(reqs[..n], outs[..n]).tables, reqs[n], outs[n]).1
    ensures AllocatorOk(reqs, outs) ==> AllocatorOk(reqs[..n], outs[..n])
  {
    hide Exec, BucketOk;
    var m := n + 1;
    RunPrefix(reqs, outs, n);
    RunPrefix(reqs, outs, m);
    var rs, os := reqs[..m], outs[..m];
    assert rs[..n] == reqs[..n] && os[..n] == outs[..n] && rs[n] == reqs[n];
  }

  /** BRAM holds the key, and was last told that it is writable. */
  ghost predicate CachedWritable(reqs: seq<Pi>, outs: seq<Outcome>, key: nat)
    requires |reqs| == |outs| && AllOrigins(reqs)
  {
    Find(RunAlone(reqs, outs).tables.bram[key % 64], key) < SLOTS && SaidPermit(reqs, outs, key)
  }

  /**
   In every run a write-intent GET is granted exactly when the latest SET of its key was writable or
   BRAM holds the key and was last told so; and then it returns that SET's value. So it is answered as
   the latest SET demands unless a read-only key is cached under a kept bit.
   */
  lemma {:induction false} WriteGetGranted(reqs: seq<Pi>, outs: seq<Outcome>, n: nat)
    requires |reqs| == |outs| && AllHashed(reqs) && AllOrigins(reqs) && AllocatorOk(reqs, outs)
    requires n < |reqs| && reqs[n].op == GET && reqs[n].perm && reqs[n].input != 0
    ensures AllOrigins(reqs[..n])
    ensures var r, key := RunAlone(reqs, outs).replies[n], reqs[n].input;
      && (r.status == SUCCEED <==> LatestPermit(reqs[..n], key) || CachedWritable(reqs[..n], outs[..n], key))
      && (r.status == SUCCEED ==> LatestSet(reqs[..n], key) == Some(r.address))
  {
    hide Exec, BucketOk, GoodTables, RunAlone, SaidPermit, LatestPermit, LatestSet, Value;
    ReplyAt(reqs, outs, n);
    var key := reqs[n].input;
    var rs, os := reqs[..n], outs[..n];
    var t := RunAlone(rs, os).tables;
    RunIsMap(rs, os);
    RunPermits(rs, os, key);
    ExecWriteGet(t, reqs[n], outs[n]);
    RunSays(rs, os, key);
  }

  /** When no GET copied the key since its latest SET, a write-intent GET is granted exactly if that SET was writable. */
  lemma {:induction false} WriteGetWithoutCopy(reqs: seq<Pi>, outs: seq<Outcome>, n: nat)
    requires |reqs| == |outs| && AllHashed(reqs) && AllOrigins(reqs) && AllocatorOk(reqs, outs)
    requires n < |reqs| && reqs[n].op == GET && reqs[n].perm && reqs[n].input != 0 && AllOrigins(reqs[..n])
    requires !CopiedSince(reqs[..n], outs[..n], reqs[n].input)
    ensures RunAlone(reqs, outs).replies[n].status == SUCCEED <==> LatestPermit(reqs[..n], reqs[n].input)
  {
    hide RunAlone, SaidPermit, LatestPermit, CopiedSince, BucketOk;
    WriteGetGranted(reqs, outs, n);
    SaidWithoutCopy(reqs[..n], outs[..n], reqs[n].input);
  }

  // ---------- a stale permission

  ghost predicate FullBucket(hb: Bucket) { FindSpace(hb) == SLOTS }

  /**
   A read that misses a full BRAM bucket whose first slot is writable puts the key there and keeps the
   bit: the write request that follows is granted, whatever the key's own SET said.
   */
  lemma StaleGrant(t: Tables, g: Pi, out: Outcome, w: Pi, out': Outcome)
    requires GoodTables(t) && Hashed(g) && g.op == GET && !g.perm && g.input != 0
    requires Hashed(w) && w.op == GET && w.perm && w.input == g.input
    requires var hb := t.bram[BramIndex(g)]; Find(hb, g.input) == SLOTS && FullBucket(hb) && hb.slots[0].perm
    requires Value(t, g.input).Some?
    ensures Exec(Exec(t, g, out).0, w, out').1.status == SUCCEED
    ensures Permits(Exec(t, g, out).0, g.input) <==> Permits(t, g.input)
  {
    hide Looked, GoodBram, GoodChains, Lookup, ChainPermits;
    var t' := Exec(t, g, out).0;
    ReadCopies(t, g);
    ExecKeepsGood(t, g, out);
    ExecWriteGet(t', w, out');
    assert t'.bram[BramIndex(g)].slots[0].key == g.input;
    assert Find(t'.bram[BramIndex(g)], g.input) == 0;
    assert t'.chains == t.chains;
  }

  /** A read that misses BRAM copies its pair. */
  lemma ReadCopies(t: Tables, g: Pi)
    requires GoodTables(t) && Hashed(g) && g.op == GET && !g.perm && g.input != 0
    requires Find(t.bram[BramIndex(g)], g.input) == SLOTS && Value(t, g.input).Some?
    ensures Copies(t, g, g.input) && Looked(t, g).hbBram == t.bram[BramIndex(g)]
  {
    hide GoodBram, Walk, S1Step, KeysOk, Linked, DistinctAddrs, Lookup, CompareBram;
    var links := t.chains[Head(g)];
    var p1 := CompareBram(g, t.bram[BramIndex(g)]);
    ComparedFacts(g, t.bram[BramIndex(g)]);
    assert GoodChain(Head(g), links);
    var there, i, s := LookupWhere(links, g.input);
    if there {
      WalkHit(links, 0, p1, false, i);
    } else {
      LookupAbsent(links, g.input);
    }
  }

  /**
   A write-intent GET that misses BRAM and that DRAM refuses writes BRAM all the same, but not its
   pair: an empty one goes over the first slot, or over a free one.
   */
  lemma RefusedWriteEvicts(t: Tables, w: Pi, out: Outcome)
    requires GoodTables(t) && Hashed(w) && w.op == GET && w.perm && w.input != 0
    requires Find(t.bram[BramIndex(w)], w.input) == SLOTS && Value(t, w.input).Some? && !Permits(t, w.input)
    ensures var hb := t.bram[BramIndex(w)];
      var s := SpaceOrFirst(hb);
      && Exec(t, w, out).1.status == FAILURE
      && Exec(t, w, out).0.bram[BramIndex(w)].slots == hb.slots[s := Slot(0, 0, hb.slots[s].perm, true)]
  {
    hide GoodBram, Walk, S1Step, KeysOk, Linked, DistinctAddrs, Lookup, CompareBram, ChainPermits;
    var links := t.chains[Head(w)];
    var p1 := CompareBram(w, t.bram[BramIndex(w)]);
    ComparedFacts(w, t.bram[BramIndex(w)]);
    assert GoodChain(Head(w), links);
    var there, i, s := LookupWhere(links, w.input);
    if there {
      PermitAt(Head(w), links, i, s, w.input);
      WalkHit(links, 0, p1, false, i);
      EmptyPair(t, w, out);
    } else {
      LookupAbsent(links, w.input);
    }
  }

  /** With nothing noted from DRAM, a refill writes an empty pair. */
  lemma EmptyPair(t: Tables, w: Pi, out: Outcome)
    requires Sized(t) && w == Origin(w) && w.op == GET
    requires var p := Looked(t, w); Refills(p) && p.hbDram == ZERO && p.hbBram == t.bram[BramIndex(w)]
    ensures var hb := t.bram[BramIndex(w)];
      var s := SpaceOrFirst(hb);
      Exec(t, w, out).0.bram[BramIndex(w)].slots == hb.slots[s := Slot(0, 0, hb.slots[s].perm, true)]
  {
    hide Looked;
  }

  // ---------- a run that grants writing to a read-only key

  /** Seven read-only SETs of keys of BRAM bucket 0. */
  function ReadOnlySets(n: nat): seq<Request>
  {
    seq(n, i requires 0 <= i < n => Request(64 * (i + 1), 64 * (i + 1), MAPPING_SET))
  }

  function OnReadChannel(n: nat): seq<nat> { seq(n, _ => READ_CHANNEL) }
  function NoBuckets(n: nat): seq<Outcome> { seq(n, _ => NoBucket) }

  /** ... then a writable SET of an eighth key, a read of the first key and a write request for it. */
  function EvictionRun(): seq<Request>
  {
    ReadOnlySets(7) + [Request(512, 512, MAPPING_SET_WRITABLE), Request(64, 0, MAPPING_READ), Request(64, 0, MAPPING_WRITE)]
  }

  ghost predicate Untouched(t: Tables, h: nat)
    requires Sized(t) && h < 1024
  {
    t.chains[h] == [Link(h, ZERO)]
  }

  /** A SET of a key on an empty chain goes to the first free BRAM slot and to its chain's bucket. */
  lemma FirstSet(t: Tables, o: Pi)
    requires Sized(t) && Hashed(o) && o.op == SET && 0 < o.input < 1024
    requires Untouched(t, o.input) && Find(t.bram[BramIndex(o)], o.input) == SLOTS
    ensures !NeedsBucket(Looked(t, o))
    ensures var t' := Exec(t, o, NoBucket).0;
      && t'.bram[BramIndex(o)].slots ==
           t.bram[BramIndex(o)].slots[SpaceOrFirst(t.bram[BramIndex(o)]) := Slot(o.input, o.length, o.perm, true)]
      && (forall h: nat :: h < 1024 && h != o.input ==> t'.chains[h] == t.chains[h])
  {
    hide Looked, ChainAfter;
    FirstSetLooked(t, o);
  }

  /** It misses BRAM and takes the empty bucket's first slot. */
  lemma FirstSetLooked(t: Tables, o: Pi)
    requires Sized(t) && Hashed(o) && o.op == SET && 0 < o.input < 1024
    requires Untouched(t, o.input) && Find(t.bram[BramIndex(o)], o.input) == SLOTS
    ensures var p := Looked(t, o); p.slotDram == 0 && !p.flags.hitBram && p.hbBram == t.bram[BramIndex(o)]
  {
    hide CompareBram, S1Step;
    ComparedFacts(o, t.bram[BramIndex(o)]);
    var links := t.chains[Head(o)];
    assert Find(ZERO, o.input) == SLOTS && FindSpace(ZERO) == 0;
    var p1 := CompareBram(o, t.bram[BramIndex(o)]);
    StepMiss(p1, false, links[0].addr, links[0].hb);
  }

  /** Slot i of BRAM bucket 0 holds the i-th key read-only, for the first n; the chains of the later keys are empty. */
  ghost predicate AfterSets(t: Tables, n: nat)
    requires Sized(t) && n <= SLOTS
  {
    && (forall i :: 0 <= i < SLOTS ==>
          t.bram[0].slots[i] == if i < n then Slot(64 * (i + 1), 64 * (i + 1), false, true) else EMPTY)
    && (forall i :: n < i <= 8 ==> Untouched(t, 64 * i))
  }

  lemma {:induction false} RunStep(reqs: seq<Pi>, outs: seq<Outcome>, o: Pi, out: Outcome)
    requires |reqs| == |outs| && AllOrigins(reqs) && o == Origin(o)
    ensures AllOrigins(reqs + [o])
    ensures var before, after := RunAlone(reqs, outs), RunAlone(reqs + [o], outs + [out]);
      && after.tables == Exec(before.tables, o, out).0 && after.replies == before.replies + [Exec(before.tables, o, out).1]
      && (AllocatorOk(reqs + [o], outs + [out]) <==> AllocatorOk(reqs, outs) && BucketOk(before.tables, o, out))
    ensures forall key :: LatestSet(reqs + [o], key) == if o.op == SET && o.input == key then Some(o.length) else LatestSet(reqs, key)
    ensures forall key :: LatestPermit(reqs + [o], key) <==> if o.op == SET && o.input == key then o.perm else LatestPermit(reqs, key)
  {
    hide Exec, BucketOk;
    assert (reqs + [o])[..|reqs|] == reqs && (outs + [out])[..|reqs|] == outs;
  }

  /** The words of the n SETs, and what the tables are after them. */
  lemma {:induction false} FillUp(n: nat) returns (ws: seq<Pi>, outs: seq<Outcome>, t: Tables)
    requires n <= SLOTS
    ensures |ws| == n && ws == Words(ReadOnlySets(n), OnReadChannel(n)) && outs == NoBuckets(n) && AllHashed(ws) && AllOrigins(ws)
    ensures AllocatorOk(ws, outs) && t == RunAlone(ws, outs).tables && AfterSets(t, n)
    ensures (n > 0 ==> LatestSet(ws, 64) == Some(64)) && !LatestPermit(ws, 64)
    decreases n
  {
    hide Exec, Looked, RunAlone, AllocatorOk, AfterSets, LatestSet, LatestPermit, Words, InitialTables, BucketOk;
    if n == 0 {
      ws, outs, t := [], [], InitialTables();
      NoSets();
    } else {
      ws, outs, t := FillUp(n - 1);
      var r := Request(64 * n, 64 * n, MAPPING_SET);
      var o := WithHash(Forge(r, READ_CHANNEL));
      OneSet(t, n, o);
      RunStep(ws, outs, o, NoBucket);
      ws, outs, t := ws + [o], outs + [NoBucket], Exec(t, o, NoBucket).0;
      WordsPush(ReadOnlySets(n - 1), OnReadChannel(n - 1), r);
      assert ReadOnlySets(n) == ReadOnlySets(n - 1) + [r] && OnReadChannel(n) == OnReadChannel(n - 1) + [READ_CHANNEL];
    }
  }

  lemma NoSets()
    ensures Words(ReadOnlySets(0), OnReadChannel(0)) == [] && NoBuckets(0) == [] && !LatestPermit([], 64)
    ensures RunAlone([], []).tables == InitialTables() && AfterSets(InitialTables(), 0) && AllocatorOk([], [])
  {
  }

  lemma WordsPush(rs: seq<Request>, channels: seq<nat>, r: Request)
    requires |rs| == |channels|
    ensures Words(rs + [r], channels + [READ_CHANNEL]) == Words(rs, channels) + [WithHash(Forge(r, READ_CHANNEL))]
  {
  }

  lemma OneSet(t: Tables, n: nat, o: Pi)
    requires Sized(t) && 0 < n <= SLOTS && AfterSets(t, n - 1)
    requires o == WithHash(Forge(Request(64 * n, 64 * n, MAPPING_SET), READ_CHANNEL))
    ensures BucketOk(t, o, NoBucket) && AfterSets(Exec(t, o, NoBucket).0, n)
  {
    hide Exec, Looked;
    assert Untouched(t, 64 * n);
    assert Find(t.bram[0], 64 * n) == SLOTS && SpaceOrFirst(t.bram[0]) == n - 1;
    FirstSet(t, o);
    var t' := Exec(t, o, NoBucket).0;
    forall i | n < i <= 8 ensures Untouched(t', 64 * i) { assert Untouched(t, 64 * i); }
  }

  /** At the end of that run the write request is granted, although the latest SET of its key was read-only. */
  lemma ReadOnlyKeyWritten()
    ensures var ws, outs := Words(EvictionRun(), OnReadChannel(10)), NoBuckets(10);
      && AllHashed(ws) && AllOrigins(ws) && AllocatorOk(ws, outs)
      && EvictionRun()[9] == Request(64, 0, MAPPING_WRITE) && RunAlone(ws, outs).replies[9].status == SUCCEED
      && !LatestPermit(ws[..9], 64)
  {
    hide Exec, Looked, RunAlone, AllocatorOk, GoodTables, LatestSet, LatestPermit;
    var ws, outs, t := FillUp(7);
    var o := WithHash(Forge(Request(512, 512, MAPPING_SET_WRITABLE), READ_CHANNEL));
    var g := WithHash(Forge(Request(64, 0, MAPPING_READ), READ_CHANNEL));
    var w := WithHash(Forge(Request(64, 0, MAPPING_WRITE), READ_CHANNEL));
    assert Untouched(t, 64 * 8);
    assert Find(t.bram[0], 512) == SLOTS && SpaceOrFirst(t.bram[0]) == 0;
    FirstSet(t, o);
    RunStep(ws, outs, o, NoBucket);
    var ws8, outs8, t8 := ws + [o], outs + [NoBucket], Exec(t, o, NoBucket).0;
    RunIsMap(ws8, outs8);
    assert t8.bram[0].slots[0] == Slot(512, 512, true, true);
    assert Find(t8.bram[0], 64) == SLOTS && FullBucket(t8.bram[0]);
    StaleGrant(t8, g, NoBucket, w, NoBucket);
    NeverAsks(t8, g);
    RunStep(ws8, outs8, g, NoBucket);
    NeverAsks(Exec(t8, g, NoBucket).0, w);
    RunStep(ws8 + [g], outs8 + [NoBucket], w, NoBucket);
    var all := ws8 + [g] + [w];
    assert Words(EvictionRun(), OnReadChannel(10)) == all;
    assert NoBuckets(10) == outs8 + [NoBucket] + [NoBucket];
    assert all[..9] == ws8 + [g];
  }

  lemma NeverAsks(t: Tables, g: Pi)
    requires Sized(t) && g == Origin(g) && g.op == GET
    ensures BucketOk(t, g, NoBucket)
  {
    hide Looked;
  }

  // ---------- key 0

  ghost predicate GoodRun(reqs: seq<Pi>, outs: seq<Outcome>)
  {
    |reqs| == |outs| && AllHashed(reqs) && AllOrigins(reqs) && AllocatorOk(reqs, outs)
  }

  ghost predicate IsRead(o: Pi, key: nat) { o.op == GET && !o.perm && o.input == key }

  /** Reply n of the run is the value of the latest SET of the key, or a failure if there was none. */
  ghost predicate AnswersLatest(reqs: seq<Pi>, outs: seq<Outcome>, n: nat)
    requires |reqs| == |outs| && AllOrigins(reqs) && n < |reqs|
  {
    var r := RunAlone(reqs, outs).replies[n];
    match LatestSet(reqs[..n], reqs[n].input)
    case Some(v) => r.status == SUCCEED && r.address == v
    case None => r.status == FAILURE && r.address == 0
  }

  /** Every read of the key in every run returns the latest SET. */
  ghost predicate AlwaysRight(key: nat)
  {
    forall reqs, outs, n :: GoodRun(reqs, outs) && 0 <= n < |reqs| && IsRead(reqs[n], key) ==> AnswersLatest(reqs, outs, n)
  }

  /** That holds of every key but 0, and of 0 it does not: the empty table answers a read of address 0. */
  lemma RightButForZero(key: nat)
    ensures AlwaysRight(key) <==> key != 0
  {
    hide RunAlone, LatestSet, AllocatorOk;
    if key == 0 {
      var g := WithHash(Forge(Request(0, 0, MAPPING_READ), READ_CHANNEL));
      ZeroKeyRead(g);
      assert [g][..0] == [];
      assert GoodRun([g], [NoBucket]) && IsRead([g][0], 0) && !AnswersLatest([g], [NoBucket], 0);
    } else {
      forall reqs, outs, n | GoodRun(reqs, outs) && 0 <= n < |reqs| && IsRead(reqs[n], key)
        ensures AnswersLatest(reqs, outs, n)
      {
        GetReturnsLatestSet(reqs, outs, n);
      }
    }
  }

  /** A read of address 0 succeeds on the empty table: the comparison ignores the bitmap. */
  lemma ZeroKeyRead(g: Pi)
    requires Hashed(g) && g.op == GET && !g.perm && g.input == 0
    ensures AllOrigins([g]) && LatestSet([], 0) == None && AllocatorOk([g], [NoBucket])
    ensures var r := RunAlone([g], [NoBucket]).replies[0]; r.status == SUCCEED && r.address == 0
  {
    hide Exec, RunAlone, InitialTables, Looked;
    var t := InitialTables();
    NoSets();
    NeverAsks(t, g);
    RunStep([], [], g, NoBucket);
    assert [] + [g] == [g] && [] + [NoBucket] == [NoBucket];
    assert Find(ZERO, 0) == 0;
    ZeroSlot(BramIndex(g));
    BramHitAnswers(t, g);
  }

  lemma ZeroSlot(b: nat)
    requires b < 64
    ensures InitialTables().bram[b] == ZERO
  {
  }
}
