/**
 What every request leaves in BRAM and what its reply says, in every run, also after the allocator
 refused a bucket.
 */
module PageBram {
  import opened HashWords
  import opened PageTable
  import opened PageTableMap

  // ---------- keys are marked

  /** Every key of the bucket is in a marked slot, so that no later pair takes its place for a free one. */
  ghost predicate KeysMarked(hb: Bucket)
  {
    forall s :: 0 <= s < SLOTS && hb.slots[s].key != 0 ==> hb.slots[s].used
  }

  ghost predicate BramMarked(t: Tables)
    requires Sized(t)
  {
    forall b :: 0 <= b < 64 ==> KeysMarked(t.bram[b])
  }

  /** fill_S1 leaves alone what compare_bram found. */
  lemma LookedBram(t: Tables, o: Pi)
    requires Sized(t) && o == Origin(o)
    ensures var p, hb := Looked(t, o), t.bram[BramIndex(o)];
      && p.hbBram == hb && Origin(p) == o
      && (p.flags.hitBram <==> Find(hb, o.input) < SLOTS) && (p.flags.missBram <==> !p.flags.hitBram)
      && (o.op == SET && p.flags.hitBram ==> p.slot == Find(hb, o.input))
  {
    hide Walk, S1Step;
  }

  /** The bucket a SET writes back: its own slot if it has one, else the first free one, else the first. */
  lemma SetWrites(t: Tables, o: Pi)
    requires Sized(t) && o == Origin(o) && o.op == SET && KeysMarked(t.bram[BramIndex(o)])
    ensures var hb, hb' := t.bram[BramIndex(o)], BramAfterSet(Looked(t, o));
      var f := Find(hb, o.input);
      var s := if f < SLOTS then f else if FindSpace(hb) < SLOTS then FindSpace(hb) else 0;
      && (o.input != 0 ==> hb' == hb.(slots := hb.slots[s := Slot(o.input, o.length, o.perm, true)]))
      && hb'.slots[s].key == o.input && (forall i :: 0 <= i < SLOTS && i != s ==> hb'.slots[i] == hb.slots[i])
      && KeysMarked(hb')
  {
    hide Looked;
    LookedBram(t, o);
  }

  /** The bucket a refill writes back. */
  lemma RefillWrites(t: Tables, o: Pi)
    requires Sized(t) && o == Origin(o) && o.op == GET && Refills(Looked(t, o)) && KeysMarked(t.bram[BramIndex(o)])
    ensures var hb, hb' := t.bram[BramIndex(o)], BramAfterRefill(Looked(t, o));
      var s := if FindSpace(hb) < SLOTS then FindSpace(hb) else 0;
      && Find(hb, o.input) == SLOTS && hb'.slots[s].used && hb'.slots[s].perm == hb.slots[s].perm
      && (forall i :: 0 <= i < SLOTS && i != s ==> hb'.slots[i] == hb.slots[i])
      && KeysMarked(hb')
  {
    hide Looked;
    LookedBram(t, o);
  }

  lemma ExecMarks(t: Tables, o: Pi, out: Outcome)
    requires Sized(t) && o == Origin(o) && BramMarked(t)
    ensures BramMarked(Exec(t, o, out).0)
  {
    hide Looked, KeysMarked, BramAfterSet, BramAfterRefill, ChainAfter;
    if o.op == SET {
      SetWrites(t, o);
    } else if Refills(Looked(t, o)) {
      RefillWrites(t, o);
    }
  }

  /** After every run, whatever the allocator answered, every key in BRAM is in a marked slot. */
  lemma {:induction false} RunMarks(reqs: seq<Pi>, outs: seq<Outcome>)
    requires |reqs| == |outs| && AllOrigins(reqs)
    ensures BramMarked(RunAlone(reqs, outs).tables)
    decreases |reqs|
  {
    hide Exec, KeysMarked, InitialTables;
    if reqs == [] {
      NothingMarked();
    } else {
      var n := |reqs| - 1;
      RunMarks(reqs[..n], outs[..n]);
      ExecMarks(RunAlone(reqs[..n], outs[..n]).tables, reqs[n], outs[n]);
    }
  }

  lemma NothingMarked()
    ensures BramMarked(InitialTables())
  {
  }

  // ---------- what stays cached

  /** A request changes at most its own BRAM bucket, and there no pair of another key but the first one of a full bucket. */
  ghost predicate OthersStay(hb: Bucket, hb': Bucket, key: nat)
  {
    && hb'.chained == hb.chained && hb'.next == hb.next
    && (forall s :: 0 <= s < SLOTS && hb.slots[s].used ==> hb'.slots[s].used)
    && (forall s :: 0 <= s < SLOTS && hb.slots[s].key != 0 && hb.slots[s].key != key && hb'.slots[s] != hb.slots[s] ==>
          s == 0 && FindSpace(hb) == SLOTS && Find(hb, key) == SLOTS)
  }

  /**
   While its bucket has a free slot or the key itself, a SET or a copy keeps every other pair in its
   slot with value and permission; a full bucket without the key loses its first pair and no other.
   */
  lemma OthersKept(t: Tables, o: Pi, out: Outcome)
    requires Sized(t) && o == Origin(o) && BramMarked(t)
    ensures var t' := Exec(t, o, out).0;
      && (forall b :: 0 <= b < 64 && b != BramIndex(o) ==> t'.bram[b] == t.bram[b])
      && OthersStay(t.bram[BramIndex(o)], t'.bram[BramIndex(o)], o.input)
  {
    hide Looked, ChainAfter, BramAfterRefill, BramAfterSet, OthersStay;
    assert KeysMarked(t.bram[BramIndex(o)]);
    if o.op == SET {
      SetOthers(t, o);
    } else if Refills(Looked(t, o)) {
      RefillOthers(t, o);
    } else {
      SameBucket(t.bram[BramIndex(o)], o.input);
    }
  }

  lemma SetOthers(t: Tables, o: Pi)
    requires Sized(t) && o == Origin(o) && o.op == SET && KeysMarked(t.bram[BramIndex(o)])
    ensures OthersStay(t.bram[BramIndex(o)], BramAfterSet(Looked(t, o)), o.input)
  {
    hide Looked;
    LookedBram(t, o);
  }

  lemma RefillOthers(t: Tables, o: Pi)
    requires Sized(t) && o == Origin(o) && o.op == GET && Refills(Looked(t, o)) && KeysMarked(t.bram[BramIndex(o)])
    ensures OthersStay(t.bram[BramIndex(o)], BramAfterRefill(Looked(t, o)), o.input)
  {
    hide Looked;
    LookedBram(t, o);
  }

  lemma SameBucket(hb: Bucket, key: nat)
    ensures OthersStay(hb, hb, key)
  {
  }

  /** A SET leaves its pair in BRAM with its value and permission, first of its key. */
  lemma SetCaches(t: Tables, o: Pi, out: Outcome)
    requires Sized(t) && o == Origin(o) && o.op == SET && o.input != 0 && BramMarked(t)
    ensures var hb' := Exec(t, o, out).0.bram[BramIndex(o)];
      Find(hb', o.input) < SLOTS && hb'.slots[Find(hb', o.input)] == Slot(o.input, o.length, o.perm, true)
  {
    hide Looked, ChainAfter, BramAfterSet;
    SetWrites(t, o);
  }

  /** A read of a key leaves it in BRAM with its value if it has one, and BRAM as it was if it has none or BRAM had it. */
  lemma ReadCaches(t: Tables, g: Pi, out: Outcome)
    requires GoodTables(t) && Hashed(g) && g.op == GET && !g.perm && g.input != 0
    ensures var hb, t' := t.bram[BramIndex(g)], Exec(t, g, out).0;
      var hb' := t'.bram[BramIndex(g)];
      && t'.chains == t.chains
      && (Find(hb, g.input) < SLOTS || Value(t, g.input) == None ==> t'.bram == t.bram)
      && (Value(t, g.input).Some? ==>
            Find(hb', g.input) < SLOTS && hb'.slots[Find(hb', g.input)].val == Value(t, g.input).value)
  {
    hide GoodBram, GoodChains, Looked, BramAfterRefill, Value;
    var hb := t.bram[BramIndex(g)];
    assert Exec(t, g, out).0.chains == t.chains;
    if Find(hb, g.input) < SLOTS {
      BramRight(t, g);
      HitAnswered(g, hb);
      LookedBram(t, g);
    } else {
      ReadRefills(t, g);
    }
  }

  /** A read that misses BRAM copies its pair, if it has one. */
  lemma ReadRefills(t: Tables, g: Pi)
    requires GoodTables(t) && Hashed(g) && g.op == GET && !g.perm && g.input != 0 && Find(t.bram[BramIndex(g)], g.input) == SLOTS
    ensures Refills(Looked(t, g)) <==> Value(t, g.input).Some?
    ensures Refills(Looked(t, g)) ==> var hb' := BramAfterRefill(Looked(t, g));
      Find(hb', g.input) < SLOTS && hb'.slots[Find(hb', g.input)].val == Value(t, g.input).value
  {
    hide GoodBram, Walk, S1Step, KeysOk, Linked, DistinctAddrs, Lookup, CompareBram;
    var links, hb := t.chains[Head(g)], t.bram[BramIndex(g)];
    var p1 := CompareBram(g, hb);
    ComparedFacts(g, hb);
    assert GoodChain(Head(g), links);
    var there, i, s := LookupWhere(links, g.input);
    if there {
      WalkHit(links, 0, p1, false, i);
      KeyAt(Head(g), links, i, s, g.input);
    } else {
      var j := WalkMiss(links, 0, p1, false);
      LookupAbsent(links, g.input);
    }
  }

  lemma {:induction false} HitAnswered(g: Pi, hb: Bucket)
    requires g == Origin(g) && g.op == GET && !g.perm && Find(hb, g.input) < SLOTS
    ensures Answered(CompareBram(g, hb))
  {
  }

  lemma BramRight(t: Tables, g: Pi)
    requires GoodTables(t) && Hashed(g) && g.input != 0 && Find(t.bram[BramIndex(g)], g.input) < SLOTS
    ensures var hb := t.bram[BramIndex(g)]; Value(t, g.input) == Some(hb.slots[Find(hb, g.input)].val)
  {
    hide GoodChains, Value;
    assert GoodBram(t, BramIndex(g));
    assert t.bram[BramIndex(g)].slots[Find(t.bram[BramIndex(g)], g.input)].key == g.input;
  }

  // ---------- replies

  /** The chain holds the key. */
  ghost predicate InChain(links: seq<Link>, key: nat)
  {
    exists i :: 0 <= i < |links| && Find(links[i].hb, key) < SLOTS
  }

  /** Some slot of the chain is free. */
  ghost predicate ChainRoom(links: seq<Link>)
  {
    exists i :: 0 <= i < |links| && FindSpace(links[i].hb) < SLOTS
  }

  /** A SET needs a bucket exactly if its chain neither holds the key nor has a free slot. */
  lemma NeedsBucketExactly(t: Tables, o: Pi)
    requires Sized(t) && GoodChains(t.chains) && Hashed(o) && o.op == SET
    ensures NeedsBucket(Looked(t, o)) <==> !InChain(t.chains[Head(o)], o.input) && !ChainRoom(t.chains[Head(o)])
  {
    hide Walk, S1Step, KeysOk, Linked, DistinctAddrs, CompareBram;
    var links := t.chains[Head(o)];
    var p1 := CompareBram(o, t.bram[BramIndex(o)]);
    assert GoodChain(Head(o), links);
    var there, i, s := LookupWhere(links, o.input);
    if there {
      WalkHit(links, 0, p1, false, i);
    } else {
      var j := WalkMiss(links, 0, p1, false);
    }
  }

  function Put(links: seq<Link>, j: nat, s: nat, pair: Slot): seq<Link>
    requires j < |links| && s < SLOTS
  {
    links[j := Link(links[j].addr, links[j].hb.(slots := links[j].hb.slots[s := pair]))]
  }

  /** The pair replaces the key in the first bucket that holds it. */
  ghost predicate OverKey(links: seq<Link>, links': seq<Link>, j: nat, pair: Slot)
  {
    && j < |links| && (forall i :: 0 <= i < j ==> Find(links[i].hb, pair.key) == SLOTS)
    && Find(links[j].hb, pair.key) < SLOTS && links' == Put(links, j, Find(links[j].hb, pair.key), pair)
  }

  /** The pair takes the first free slot of the first bucket that has one. */
  ghost predicate IntoSpace(links: seq<Link>, links': seq<Link>, j: nat, pair: Slot)
  {
    && j < |links| && (forall i :: 0 <= i < j ==> FindSpace(links[i].hb) == SLOTS)
    && FindSpace(links[j].hb) < SLOTS && links' == Put(links, j, FindSpace(links[j].hb), pair)
  }

  /** The pair is alone in a new bucket behind the last. */
  ghost predicate NewLast(links: seq<Link>, links': seq<Link>, bucket: nat, pair: Slot)
  {
    && links != []
    && var m := |links| - 1;
       links' == links[m := Link(links[m].addr, links[m].hb.(chained := true, next := bucket))]
         + [Link(bucket, ZERO.(slots := ZERO.slots[0 := pair]))]
  }

  /**
   Where a SET writes in DRAM: over the key if the chain holds it, else into the first free slot, else
   into a new bucket. A refused SET writes nothing there.
   */
  ghost predicate Placed(links: seq<Link>, links': seq<Link>, out: Outcome, pair: Slot)
  {
    if InChain(links, pair.key) then exists j :: OverKey(links, links', j, pair)
    else if ChainRoom(links) then exists j :: IntoSpace(links, links', j, pair)
    else if out == NoBucket then links' == links
    else NewLast(links, links', out.bucket, pair)
  }

  /** A SET changes its own chain so, and no other. */
  lemma SetPlace(t: Tables, o: Pi, out: Outcome)
    requires Sized(t) && GoodChains(t.chains) && Hashed(o) && o.op == SET
    ensures Placed(t.chains[Head(o)], Exec(t, o, out).0.chains[Head(o)], out, Slot(o.input, o.length, o.perm, true))
    ensures forall h :: 0 <= h < 1024 && h != Head(o) ==> Exec(t, o, out).0.chains[h] == t.chains[h]
  {
    hide Looked, ChainAfter, Placed;
    SetPlaced(t, o, out);
  }

  lemma SetPlaced(t: Tables, o: Pi, out: Outcome)
    requires Sized(t) && GoodChains(t.chains) && Hashed(o) && o.op == SET
    ensures Placed(t.chains[Head(o)], ChainAfter(t.chains[Head(o)], Looked(t, o), out), out, Slot(o.input, o.length, o.perm, true))
  {
    hide Walk, S1Step, KeysOk, Linked, CompareBram, InChain, ChainRoom, OverKey, IntoSpace, NewLast, ChainAfter;
    var links := t.chains[Head(o)];
    var p1 := CompareBram(o, t.bram[BramIndex(o)]);
    var p := Looked(t, o);
    var links', pair := ChainAfter(links, p, out), Slot(o.input, o.length, o.perm, true);
    assert GoodChain(Head(o), links);
    var there, i, s := LookupWhere(links, o.input);
    InChainIs(links, o.input, there, i);
    if there {
      WalkHit(links, 0, p1, false, i);
      PutOver(links, p, out, i, o);
      assert OverKey(links, links', i, pair);
    } else {
      var j := WalkMiss(links, 0, p1, false);
      ChainRoomIs(links, j);
      PutNew(links, p, out, j, o);
      assert ChainRoom(links) ==> IntoSpace(links, links', j, pair);
    }
  }

  lemma {:induction false} InChainIs(links: seq<Link>, key: nat, there: bool, i: nat)
    requires there ==> i < |links| && Find(links[i].hb, key) < SLOTS
    requires !there ==> forall k :: 0 <= k < |links| ==> Find(links[k].hb, key) == SLOTS
    ensures InChain(links, key) <==> there
  {
  }

  lemma ChainRoomIs(links: seq<Link>, j: nat)
    requires j < |links| && (forall i :: 0 <= i < j ==> FindSpace(links[i].hb) == SLOTS)
    requires FindSpace(links[j].hb) == SLOTS ==> j + 1 == |links|
    ensures ChainRoom(links) <==> FindSpace(links[j].hb) < SLOTS
  {
  }

  /** fill_S2's DRAM write for a key found in bucket j. */
  lemma PutOver(links: seq<Link>, p: Pi, out: Outcome, j: nat, o: Pi)
    requires DistinctAddrs(links) && j < |links| && o.op == SET && Origin(p) == o
    requires Find(links[j].hb, o.input) < SLOTS && forall i :: 0 <= i < j ==> Find(links[i].hb, o.input) == SLOTS
    requires p.slotDram == Find(links[j].hb, o.input) && p.hbDram == links[j].hb && p.hbDramAddr == links[j].addr
    ensures OverKey(links, ChainAfter(links, p, out), j, Slot(o.input, o.length, o.perm, true))
  {
    hide WriteLink;
    WriteLinkAt(links, j, DramAfterSet(p));
  }

  /** ... and for one not found. */
  lemma PutNew(links: seq<Link>, p: Pi, out: Outcome, j: nat, o: Pi)
    requires DistinctAddrs(links) && j < |links| && o.op == SET && Origin(p) == o && -1 <= p.slotDram < SLOTS
    requires p.hbDram == links[j].hb && p.hbDramAddr == links[j].addr
    requires forall i :: 0 <= i < j ==> FindSpace(links[i].hb) == SLOTS
    requires p.slotDram >= 0 ==> p.slotDram == FindSpace(links[j].hb) < SLOTS
    requires p.slotDram == -1 ==> j + 1 == |links| && FindSpace(links[j].hb) == SLOTS
    ensures var links', pair := ChainAfter(links, p, out), Slot(o.input, o.length, o.perm, true);
      if p.slotDram >= 0 then IntoSpace(links, links', j, pair)
      else if out == NoBucket then links' == links
      else NewLast(links, links', out.bucket, pair)
  {
    hide WriteLink;
    if p.slotDram >= 0 {
      WriteLinkAt(links, j, DramAfterSet(p));
    } else if out.NewAt? {
      WriteLinkAt(links, j, p.hbDram.(chained := true, next := out.bucket));
    }
  }

  /**
   The reply to a SET: it fails exactly if it needs a bucket and gets none, and it names the value it
   replaced, or 0.
   */
  lemma SetReply(t: Tables, o: Pi, out: Outcome)
    requires GoodTables(t) && Hashed(o) && o.op == SET && o.input != 0
    ensures var r, links := Exec(t, o, out).1, t.chains[Head(o)];
      && (r.status == FAILURE <==> !InChain(links, o.input) && !ChainRoom(links) && out == NoBucket)
      && r.status in {SUCCEED, FAILURE}
      && r.address == match Value(t, o.input) case Some(v) => v case None => 0
  {
    NeedsBucketExactly(t, o);
    hide Walk, S1Step, KeysOk, Linked, DistinctAddrs, Lookup, CompareBram, InChain, ChainRoom;
    var links := t.chains[Head(o)];
    var p1 := CompareBram(o, t.bram[BramIndex(o)]);
    assert GoodChain(Head(o), links);
    var there, i, s := LookupWhere(links, o.input);
    if there {
      WalkHit(links, 0, p1, false, i);
      KeyAt(Head(o), links, i, s, o.input);
    } else {
      var j := WalkMiss(links, 0, p1, false);
      LookupAbsent(links, o.input);
    }
  }

  /** A request of any other opcode than the four changes nothing, and is answered from DRAM like a read. */
  lemma UnknownReply(t: Tables, r: Request, ch: nat, out: Outcome)
    requires GoodTables(t) && r.opcode !in {MAPPING_READ, MAPPING_WRITE, MAPPING_SET, MAPPING_SET_WRITABLE} && r.address != 0
    ensures var o := WithHash(Forge(r, ch));
      && Exec(t, o, out).0 == t
      && var reply := Exec(t, o, out).1;
         match Value(t, r.address)
         case Some(v) => reply.status == SUCCEED && reply.address == v
         case None => reply.status == FAILURE && reply.address == 0
  {
    hide Walk, S1Step, KeysOk, Linked, DistinctAddrs, Lookup, CompareBram;
    var o := WithHash(Forge(r, ch));
    var links := t.chains[Head(o)];
    var p1 := CompareBram(o, t.bram[BramIndex(o)]);
    assert GoodChain(Head(o), links);
    var there, i, s := LookupWhere(links, o.input);
    if there {
      WalkHit(links, 0, p1, false, i);
      KeyAt(Head(o), links, i, s, o.input);
    } else {
      var j := WalkMiss(links, 0, p1, false);
      LookupAbsent(links, o.input);
    }
    assert t.chains[Head(o) := links] == t.chains;
  }

  /** BRAM alone answers a GET whose key it has, if the permission bit suffices. */
  ghost predicate FromBram(hb: Bucket, o: Pi)
  {
    var f := Find(hb, o.input);
    o.op == GET && f < SLOTS && (o.perm ==> hb.slots[f].perm)
  }

  /** The internal status: 1 for a hit in BRAM, 16 for one in DRAM, where a GET answered by BRAM does not look. */
  lemma HitBits(t: Tables, o: Pi, out: Outcome)
    requires Sized(t) && GoodChains(t.chains) && Hashed(o)
    ensures var hb, links := t.bram[BramIndex(o)], t.chains[Head(o)];
      Exec(t, o, out).1.internal ==
        (if Find(hb, o.input) < SLOTS then 1 else 0) + (if !FromBram(hb, o) && InChain(links, o.input) then 16 else 0)
  {
    hide Walk, S1Step, KeysOk, Linked, DistinctAddrs;
    var hb, links := t.bram[BramIndex(o)], t.chains[Head(o)];
    var p1 := CompareBram(o, hb);
    assert Answered(p1) <==> FromBram(hb, o);
    assert GoodChain(Head(o), links);
    if !Answered(p1) {
      var there, i, s := LookupWhere(links, o.input);
      if there {
        WalkHit(links, 0, p1, false, i);
      } else {
        var j := WalkMiss(links, 0, p1, false);
      }
    }
  }
}
