/** The two tables together are a map from keys to values; BRAM is a cache of part of it. */
module PageTableMap {
  import opened HashWords
  import opened PageTable

  datatype Option = None | Some(value: nat)

  /** The value a chain holds for a key. */
  ghost function Lookup(links: seq<Link>, key: nat): Option
  {
    if links == [] then None
    else
      var f := Find(links[0].hb, key);
      if f < SLOTS then Some(links[0].hb.slots[f].val) else Lookup(links[1..], key)
  }

  ghost function Value(t: Tables, key: nat): Option
    requires Sized(t)
  {
    Lookup(t.chains[key % 1024], key)
  }

  function SlotAt(links: seq<Link>, i: nat, s: nat): Slot
    requires i < |links| && s < SLOTS
  {
    links[i].hb.slots[s]
  }

  /** Every bucket but the last is flagged as chained and points to its successor. */
  ghost predicate Linked(links: seq<Link>)
  {
    forall i :: 0 <= i < |links| ==>
      && (links[i].hb.chained <==> i + 1 < |links|)
      && (i + 1 < |links| ==> links[i].hb.next == links[i + 1].addr)
  }

  ghost predicate DistinctAddrs(links: seq<Link>)
  {
    && (forall i :: 0 <= i < |links| ==> links[i].addr < BUCKETS)
    && (forall i, j :: 0 <= i < j < |links| ==> links[i].addr != links[j].addr)
  }

  /** Keys sit in marked slots of their own chain, each non-zero key once. */
  ghost predicate KeysOk(h: nat, links: seq<Link>)
  {
    && (forall i, s :: 0 <= i < |links| && 0 <= s < SLOTS && SlotAt(links, i, s).key != 0 ==>
          SlotAt(links, i, s).used && SlotAt(links, i, s).key % 1024 == h)
    && (forall i, s, i', s' ::
          0 <= i < |links| && 0 <= s < SLOTS && 0 <= i' < |links| && 0 <= s' < SLOTS
          && SlotAt(links, i, s).key != 0 && SlotAt(links, i, s).key == SlotAt(links, i', s').key
          ==> i == i' && s == s')
  }

  ghost predicate GoodChain(h: nat, links: seq<Link>)
  {
    links != [] && links[0].addr == h && Linked(links) && DistinctAddrs(links) && KeysOk(h, links)
  }

  /** Non-zero keys of a BRAM bucket: of its own index, each once, with the value DRAM holds. */
  ghost predicate GoodBram(t: Tables, b: nat)
    requires Sized(t) && b < 64
  {
    && (forall s :: 0 <= s < SLOTS && t.bram[b].slots[s].key != 0 ==>
          && t.bram[b].slots[s].key % 64 == b
          && Value(t, t.bram[b].slots[s].key) == Some(t.bram[b].slots[s].val))
    && (forall s, s' :: 0 <= s < s' < SLOTS && t.bram[b].slots[s].key != 0 ==>
          t.bram[b].slots[s].key != t.bram[b].slots[s'].key)
  }

  /** No bucket belongs to two chains. */
  ghost predicate DisjointChains(chains: seq<seq<Link>>)
  {
    forall h, i, h', i' ::
      0 <= h < |chains| && 0 <= i < |chains[h]| && 0 <= h' < |chains| && 0 <= i' < |chains[h']| && h != h'
      ==> chains[h][i].addr != chains[h'][i'].addr
  }

  ghost predicate GoodChains(chains: seq<seq<Link>>)
  {
    |chains| == 1024 && DisjointChains(chains) && forall h :: 0 <= h < 1024 ==> GoodChain(h, chains[h])
  }

  ghost predicate GoodTables(t: Tables)
  {
    Sized(t) && GoodChains(t.chains) && forall b :: 0 <= b < 64 ==> GoodBram(t, b)
  }

  predicate FreshBucket(chains: seq<seq<Link>>, bucket: nat)
  {
    bucket < BUCKETS && forall h, i :: 0 <= h < |chains| && 0 <= i < |chains[h]| ==> chains[h][i].addr != bucket
  }

  // ---------- lookups by position

  lemma {:induction false} LookupAt(links: seq<Link>, i: nat, s: nat, key: nat)
    requires i < |links| && s < SLOTS && SlotAt(links, i, s).key == key
    requires forall i', s' :: 0 <= i' < |links| && 0 <= s' < SLOTS && SlotAt(links, i', s').key == key ==> i' == i && s' == s
    ensures Lookup(links, key) == Some(SlotAt(links, i, s).val)
  {
    var f := Find(links[0].hb, key);
    if f < SLOTS {
      assert SlotAt(links, 0, f).key == key;
    } else {
      assert i > 0;
      var rest := links[1..];
      assert forall i', s' :: 0 <= i' < |rest| && 0 <= s' < SLOTS ==> SlotAt(rest, i', s') == SlotAt(links, i' + 1, s');
      LookupAt(rest, i - 1, s, key);
    }
  }

  lemma {:induction false} LookupAbsent(links: seq<Link>, key: nat)
    requires forall i, s :: 0 <= i < |links| && 0 <= s < SLOTS ==> SlotAt(links, i, s).key != key
    ensures Lookup(links, key) == None
  {
    if links != [] {
      var f := Find(links[0].hb, key);
      assert f < SLOTS ==> SlotAt(links, 0, f).key != key;
      var rest := links[1..];
      assert forall i', s' :: 0 <= i' < |rest| && 0 <= s' < SLOTS ==> SlotAt(rest, i', s') == SlotAt(links, i' + 1, s');
      LookupAbsent(rest, key);
    }
  }

  lemma LookupWhere(links: seq<Link>, key: nat) returns (there: bool, i: nat, s: nat)
    ensures there ==> i < |links| && s < SLOTS && SlotAt(links, i, s).key == key
    ensures there ==> forall i', s' :: 0 <= i' < i && 0 <= s' < SLOTS ==> SlotAt(links, i', s').key != key
    ensures there ==> s == Find(links[i].hb, key)
    ensures forall i' :: 0 <= i' < |links| && (there ==> i' < i) ==> Find(links[i'].hb, key) == SLOTS
    ensures !there ==> forall i', s' :: 0 <= i' < |links| && 0 <= s' < SLOTS ==> SlotAt(links, i', s').key != key
  {
    there, i, s := false, 0, 0;
    while i < |links|
      invariant i <= |links| && !there
      invariant forall i', s' :: 0 <= i' < i && 0 <= s' < SLOTS ==> SlotAt(links, i', s').key != key
      invariant forall i' :: 0 <= i' < i ==> Find(links[i'].hb, key) == SLOTS
    {
      s := Find(links[i].hb, key);
      if s < SLOTS { there := true; return; }
      assert forall s' :: 0 <= s' < SLOTS ==> SlotAt(links, i, s').key != key;
      i := i + 1;
    }
  }

  /** The chain holds the key with the permission bit set. */
  ghost predicate ChainPermits(links: seq<Link>, key: nat)
  {
    exists i, s :: 0 <= i < |links| && 0 <= s < SLOTS && SlotAt(links, i, s).key == key && SlotAt(links, i, s).perm
  }

  lemma PermitAt(h: nat, links: seq<Link>, i: nat, s: nat, key: nat)
    requires KeysOk(h, links) && key != 0 && i < |links| && s < SLOTS && SlotAt(links, i, s).key == key
    ensures ChainPermits(links, key) <==> SlotAt(links, i, s).perm
  {
  }

  lemma NoPermit(links: seq<Link>, key: nat)
    requires forall i, s :: 0 <= i < |links| && 0 <= s < SLOTS ==> SlotAt(links, i, s).key != key
    ensures !ChainPermits(links, key)
  {
  }

  /** Where the keys are unchanged but for one slot, only that slot's keys can look different. */
  lemma {:induction false} SameElsewhere(links: seq<Link>, links': seq<Link>, h: nat, i: nat, s: nat, key: nat)
    requires |links'| >= |links| && i < |links'| && s < SLOTS && key != 0 && KeysOk(h, links) && KeysOk(h, links')
    requires forall j, r :: 0 <= j < |links| && 0 <= r < SLOTS && !(j == i && r == s) ==>
      SlotAt(links', j, r) == SlotAt(links, j, r)
    requires forall j, r :: |links| <= j < |links'| && 0 <= r < SLOTS && !(j == i && r == s) ==>
      SlotAt(links', j, r).key == 0
    requires SlotAt(links', i, s).key != key && (i < |links| ==> SlotAt(links, i, s).key != key)
    ensures Lookup(links', key) == Lookup(links, key) && (ChainPermits(links', key) <==> ChainPermits(links, key))
  {
    hide ChainPermits;
    var there, j, r := LookupWhere(links, key);
    if there {
      LookupAt(links, j, r, key);
      PermitAt(h, links, j, r, key);
      assert SlotAt(links', j, r) == SlotAt(links, j, r);
      LookupAt(links', j, r, key);
      PermitAt(h, links', j, r, key);
    } else {
      LookupAbsent(links, key);
      NoPermit(links, key);
      LookupAbsent(links', key);
      NoPermit(links', key);
    }
  }

  lemma {:induction false} KeyAt(h: nat, links: seq<Link>, i: nat, s: nat, key: nat)
    requires GoodChain(h, links) && key != 0 && i < |links| && s < SLOTS && SlotAt(links, i, s).key == key
    ensures Lookup(links, key) == Some(SlotAt(links, i, s).val)
  {
    LookupAt(links, i, s, key);
  }

  // ---------- what the walk of fill_S1 finds

  /** A key in the chain: the walk stops at its first bucket with everything there. */
  lemma {:induction false} WalkHit(links: seq<Link>, from: nat, pi: Pi, found: bool, j: nat)
    requires Linked(links) && DistinctAddrs(links) && from <= j < |links| && -1 <= pi.slotDram < SLOTS
    requires Find(links[j].hb, pi.input) < SLOTS
    requires forall i :: from <= i < j ==> Find(links[i].hb, pi.input) == SLOTS
    ensures var r, s := Walk(links, from, pi, found), Find(links[j].hb, pi.input);
      && r.flags.hitDram && r.flags.hitBram == pi.flags.hitBram && r.flags.missBram == pi.flags.missBram
      && (!(pi.op == GET && pi.perm && !links[j].hb.slots[s].perm) ==>
            && r.status == SUCCEED && r.output == links[j].hb.slots[s].val
            && r.slotDram == s && r.hbDram == links[j].hb && r.hbDramAddr == links[j].addr)
      && (pi.op == GET && pi.perm && !links[j].hb.slots[s].perm ==>
            r.status == FAILURE && r.output == 0 && r.hbDram == pi.hbDram)
      && (pi.op == GET && pi.hbDram == ZERO ==> (r.hbDram == links[j].hb && r.slotDram == s) || r.hbDram == ZERO)
    decreases j - from
  {
    hide S1Step;
    if from < j {
      StepMiss(pi, found, links[from].addr, links[from].hb);
      var st := S1Step(pi, found, links[from].addr, links[from].hb);
      WalkHit(links, from + 1, st.pi, st.found, j);
    } else {
      StepHit(pi, found, links[from].addr, links[from].hb);
    }
  }

  /** One bucket with the key. */
  lemma {:induction false} StepHit(pi: Pi, found: bool, addr: nat, hb: Bucket)
    requires -1 <= pi.slotDram < SLOTS && Find(hb, pi.input) < SLOTS && addr < BUCKETS
    ensures var r, s := S1Step(pi, found, addr, hb), Find(hb, pi.input);
      && r.done && r.pi.flags.hitDram
      && (!(pi.op == GET && pi.perm && !hb.slots[s].perm) ==>
            && r.pi.status == SUCCEED && r.pi.output == hb.slots[s].val
            && r.pi.slotDram == s && r.pi.hbDram == hb && r.pi.hbDramAddr == addr)
      && (pi.op == GET && pi.perm && !hb.slots[s].perm ==>
            r.pi.status == FAILURE && r.pi.output == 0 && r.pi.hbDram == pi.hbDram)
  {
    assert addr % BUCKETS == addr;
  }

  /** One bucket without the key. */
  lemma {:induction false} StepMiss(pi: Pi, found: bool, addr: nat, hb: Bucket)
    requires -1 <= pi.slotDram < SLOTS && Find(hb, pi.input) == SLOTS && addr < BUCKETS
    ensures var r := S1Step(pi, found, addr, hb);
      && r.done == !hb.chained && (found ==> r.found)
      && r.pi.flags == (if r.done then pi.flags.(missDram := true) else pi.flags)
      && (r.done ==> r.pi.status == FAILURE && r.pi.output == 0)
      && (pi.op != SET && !r.done ==> r.pi == pi)
      && (pi.op == SET && found ==> r.pi.slotDram == pi.slotDram && r.pi.hbDram == pi.hbDram && r.pi.hbDramAddr == pi.hbDramAddr)
      && (pi.op == SET && r.found && !found ==>
            r.pi.slotDram == FindSpace(hb) < SLOTS && r.pi.hbDram == hb && r.pi.hbDramAddr == addr)
      && (pi.op == SET && !r.found ==>
            FindSpace(hb) == SLOTS && r.pi.slotDram == -1 && (r.done ==> r.pi.hbDram == hb && r.pi.hbDramAddr == addr))
  {
    assert addr % BUCKETS == addr;
  }

  /** A key not in the chain: a SET is left with the first free slot, or with the last bucket and none. */
  lemma {:induction false} WalkMiss(links: seq<Link>, from: nat, pi: Pi, found: bool) returns (j: nat)
    requires Linked(links) && DistinctAddrs(links) && from < |links| && -1 <= pi.slotDram < SLOTS
    requires forall i :: from <= i < |links| ==> Find(links[i].hb, pi.input) == SLOTS
    ensures var r := Walk(links, from, pi, found);
      && r.flags == pi.flags.(missDram := true) && r.status == FAILURE && r.output == 0
      && (pi.op == SET && found ==> r.slotDram == pi.slotDram && r.hbDram == pi.hbDram && r.hbDramAddr == pi.hbDramAddr)
      && (pi.op == SET && !found ==>
            && j < |links| && r.hbDram == links[j].hb && r.hbDramAddr == links[j].addr
            && from <= j && (forall i :: from <= i < j ==> FindSpace(links[i].hb) == SLOTS)
            && (r.slotDram >= 0 ==> r.slotDram == FindSpace(links[j].hb) < SLOTS)
            && (r.slotDram == -1 ==> j + 1 == |links| && FindSpace(links[j].hb) == SLOTS))
    decreases |links| - from
  {
    hide S1Step;
    StepMiss(pi, found, links[from].addr, links[from].hb);
    var st := S1Step(pi, found, links[from].addr, links[from].hb);
    j := from;
    if from + 1 < |links| {
      var k := WalkMiss(links, from + 1, st.pi, st.found);
      if !st.found { j := k; }
    }
  }

  // ---------- what fill_S2 writes

  lemma WriteLinkAt(links: seq<Link>, j: nat, hb: Bucket)
    requires DistinctAddrs(links) && j < |links|
    ensures WriteLink(links, links[j].addr, hb) == links[j := Link(links[j].addr, hb)]
  {
  }

  /** What a SET may do to a chain: the pair is in, every other key is as before, the chain is still good. */
  ghost predicate SetIn(h: nat, links: seq<Link>, links': seq<Link>, key: nat, val: nat, perm: bool)
  {
    && GoodChain(h, links')
    && (key != 0 ==> Lookup(links', key) == Some(val) && (ChainPermits(links', key) <==> perm))
    && (forall k: nat :: k != 0 && k != key ==> Lookup(links', k) == Lookup(links, k))
    && (forall k: nat :: k != 0 && k != key ==> (ChainPermits(links', k) <==> ChainPermits(links, k)))
  }

  /** Writing a pair over its old slot or over an unmarked one. */
  lemma PutPair(h: nat, links: seq<Link>, j: nat, s: nat, pair: Slot)
    requires GoodChain(h, links) && j < |links| && s < SLOTS && pair.used && (pair.key != 0 ==> pair.key % 1024 == h)
    requires SlotAt(links, j, s).key == pair.key ||
      (SlotAt(links, j, s).key == 0 && forall i, r :: 0 <= i < |links| && 0 <= r < SLOTS ==> SlotAt(links, i, r).key != pair.key)
    ensures var hb := links[j].hb;
      SetIn(h, links, links[j := Link(links[j].addr, hb.(slots := hb.slots[s := pair]))], pair.key, pair.val, pair.perm)
  {
    hide ChainPermits, Lookup;
    var hb := links[j].hb;
    var links' := links[j := Link(links[j].addr, hb.(slots := hb.slots[s := pair]))];
    assert forall i, r :: 0 <= i < |links| && 0 <= r < SLOTS && !(i == j && r == s) ==> SlotAt(links', i, r) == SlotAt(links, i, r);
    assert SlotAt(links', j, s) == pair;
    if pair.key != 0 {
      LookupAt(links', j, s, pair.key);
      PermitAt(h, links', j, s, pair.key);
    }
    forall k: nat | k != 0 && k != pair.key
      ensures Lookup(links', k) == Lookup(links, k) && (ChainPermits(links', k) <==> ChainPermits(links, k))
    {
      SameElsewhere(links, links', h, j, s, k);
    }
  }

  /** Extending the chain by a added bucket that holds the pair. */
  lemma Extend(h: nat, links: seq<Link>, n: nat, pair: Slot)
    requires GoodChain(h, links) && pair.used && (pair.key != 0 ==> pair.key % 1024 == h)
    requires n < BUCKETS && forall i :: 0 <= i < |links| ==> links[i].addr != n
    requires forall i, r :: 0 <= i < |links| && 0 <= r < SLOTS ==> SlotAt(links, i, r).key != pair.key
    ensures var last := links[|links| - 1];
      SetIn(h, links, links[|links| - 1 := Link(last.addr, last.hb.(chained := true, next := n))]
                      + [Link(n, ZERO.(slots := ZERO.slots[0 := pair]))], pair.key, pair.val, pair.perm)
  {
    var m := |links| - 1;
    var added := Link(n, ZERO.(slots := ZERO.slots[0 := pair]));
    var links' := links[m := Link(links[m].addr, links[m].hb.(chained := true, next := n))] + [added];
    ExtendLinked(links, n, pair);
    ExtendKeys(h, links, n, pair);
    hide ChainPermits;
    if pair.key != 0 {
      LookupAt(links', m + 1, 0, pair.key);
      PermitAt(h, links', m + 1, 0, pair.key);
    }
    forall k: nat | k != 0 && k != pair.key
      ensures Lookup(links', k) == Lookup(links, k) && (ChainPermits(links', k) <==> ChainPermits(links, k))
    {
      SameElsewhere(links, links', h, m + 1, 0, k);
    }
  }

  lemma ExtendLinked(links: seq<Link>, n: nat, pair: Slot)
    requires links != [] && Linked(links) && DistinctAddrs(links)
    requires n < BUCKETS && forall i :: 0 <= i < |links| ==> links[i].addr != n
    ensures var last := links[|links| - 1];
      var links' := links[|links| - 1 := Link(last.addr, last.hb.(chained := true, next := n))]
                      + [Link(n, ZERO.(slots := ZERO.slots[0 := pair]))];
      links'[0].addr == links[0].addr && Linked(links') && DistinctAddrs(links')
  {
    var m := |links| - 1;
    var added := Link(n, ZERO.(slots := ZERO.slots[0 := pair]));
    var links' := links[m := Link(links[m].addr, links[m].hb.(chained := true, next := n))] + [added];
    assert forall i :: 0 <= i <= m ==> links'[i].addr == links[i].addr;
    assert forall i :: 0 <= i < m ==> links'[i] == links[i];
    assert links'[m + 1] == added;
  }

  lemma ExtendKeys(h: nat, links: seq<Link>, n: nat, pair: Slot)
    requires links != [] && KeysOk(h, links) && pair.used && (pair.key != 0 ==> pair.key % 1024 == h)
    requires forall i, r :: 0 <= i < |links| && 0 <= r < SLOTS ==> SlotAt(links, i, r).key != pair.key
    ensures var last := links[|links| - 1];
      var links' := links[|links| - 1 := Link(last.addr, last.hb.(chained := true, next := n))]
                      + [Link(n, ZERO.(slots := ZERO.slots[0 := pair]))];
      && KeysOk(h, links') && SlotAt(links', |links|, 0) == pair
      && (forall i, r :: 0 <= i < |links| && 0 <= r < SLOTS ==> SlotAt(links', i, r) == SlotAt(links, i, r))
      && (forall i, r :: |links| <= i < |links'| && 0 < r < SLOTS ==> SlotAt(links', i, r) == EMPTY)
  {
    var m := |links| - 1;
    var added := Link(n, ZERO.(slots := ZERO.slots[0 := pair]));
    var links' := links[m := Link(links[m].addr, links[m].hb.(chained := true, next := n))] + [added];
    assert forall i, r :: 0 <= i < |links| && 0 <= r < SLOTS ==> SlotAt(links', i, r) == SlotAt(links, i, r);
    assert forall i, r :: |links| <= i < |links'| && 0 < r < SLOTS ==> SlotAt(links', i, r) == EMPTY;
    assert SlotAt(links', m + 1, 0) == pair;
  }

  /** The request hashes to itself, as compute_hash makes it. */
  ghost predicate Hashed(o: Pi) { o == Origin(o) && o.hash == o.input }

  ghost predicate BucketOk(t: Tables, o: Pi, out: Outcome)
    requires Sized(t) && o == Origin(o)
  {
    NeedsBucket(Looked(t, o)) ==> out.NewAt? && FreshBucket(t.chains, out.bucket)
  }

  /** A SET changes its own chain as it should, however the pair found its place. */
  lemma SetChain(t: Tables, o: Pi, out: Outcome)
    requires Sized(t) && GoodChains(t.chains) && Hashed(o) && o.op == SET && BucketOk(t, o, out)
    ensures SetIn(Head(o), t.chains[Head(o)], ChainAfter(t.chains[Head(o)], Looked(t, o), out), o.input, o.length, o.perm)
  {
    hide CompareBram, S1Step, Walk, SetIn, KeysOk, Linked, DistinctAddrs, Lookup, WriteLink;
    var h := Head(o);
    var links := t.chains[h];
    var p1 := CompareBram(o, t.bram[BramIndex(o)]);
    var p := Looked(t, o);
    var pair := Slot(o.input, o.length, o.perm, true);
    assert GoodChain(h, links);
    var there, i, s := LookupWhere(links, o.input);
    if there {
      WalkHit(links, 0, p1, false, i);
      WriteLinkAt(links, i, DramAfterSet(p));
      PutPair(h, links, i, s, pair);
    } else {
      var j := WalkMiss(links, 0, p1, false);
      if p.slotDram >= 0 {
        WriteLinkAt(links, j, DramAfterSet(p));
        UnmarkedIsZero(h, links, j, p.slotDram);
        PutPair(h, links, j, p.slotDram, pair);
      } else {
        WriteLinkAt(links, j, p.hbDram.(chained := true, next := out.bucket));
        Extend(h, links, out.bucket, pair);
      }
    }
  }

  lemma UnmarkedIsZero(h: nat, links: seq<Link>, j: nat, s: nat)
    requires KeysOk(h, links) && j < |links| && s < SLOTS && !links[j].hb.slots[s].used
    ensures SlotAt(links, j, s).key == 0
  {
    assert !SlotAt(links, j, s).used;
  }

  // ---------- one whole request

  lemma ChainAfterAddrs(links: seq<Link>, p: Pi, out: Outcome)
    requires -1 <= p.slotDram < SLOTS
    ensures var links' := ChainAfter(links, p, out);
      && |links| <= |links'| <= |links| + 1
      && (forall i :: 0 <= i < |links| ==> links'[i].addr == links[i].addr)
      && (|links'| > |links| ==> NeedsBucket(p) && out.NewAt? && links'[|links|].addr == out.bucket)
  {
  }

  /** The chains stay good, and the map changes at a SET's key only. */
  lemma ExecChains(t: Tables, o: Pi, out: Outcome)
    requires Sized(t) && GoodChains(t.chains) && Hashed(o) && BucketOk(t, o, out)
    ensures var t' := Exec(t, o, out).0;
      && GoodChains(t'.chains)
      && forall key: nat :: key != 0 ==>
           Value(t', key) == if o.op == SET && key == o.input then Some(o.length) else Value(t, key)
  {
    hide GoodChain, Lookup, Looked;
    var h, p := Head(o), Looked(t, o);
    var t' := Exec(t, o, out).0;
    var links' := ChainAfter(t.chains[h], p, out);
    ChainAfterAddrs(t.chains[h], p, out);
    if o.op == SET {
      SetChain(t, o, out);
    } else {
      assert t'.chains == t.chains;
    }
  }

  /** BRAM stays a part of the map. */
  lemma ExecBram(t: Tables, o: Pi, out: Outcome, b: nat)
    requires GoodTables(t) && Hashed(o) && BucketOk(t, o, out) && b < 64
    ensures GoodBram(Exec(t, o, out).0, b)
  {
    var t' := Exec(t, o, out).0;
    ExecChains(t, o, out);
    assert GoodBram(t, b);
    if b != BramIndex(o) {
      OtherBucket(t, t', o, b);
    } else if o.op == SET {
      SetBucket(t, t', o, out);
    } else if Refills(Looked(t, o)) {
      RefillBucket(t, t', o);
    }
  }

  lemma OtherBucket(t: Tables, t': Tables, o: Pi, b: nat)
    requires Sized(t) && Sized(t') && b < 64 && b != BramIndex(o) && o.hash == o.input
    requires t'.bram[b] == t.bram[b] && GoodBram(t, b)
    requires forall key: nat :: key != 0 && key != o.input ==> Value(t', key) == Value(t, key)
    ensures GoodBram(t', b)
  {
    hide Value;
  }

  /** Putting one pair into a BRAM bucket keeps it part of the map. */
  lemma PutInBucket(t: Tables, t': Tables, b: nat, s: nat, pair: Slot)
    requires Sized(t) && Sized(t') && b < 64 && s < SLOTS && GoodBram(t, b)
    requires t'.bram[b].slots == t.bram[b].slots[s := pair]
    requires pair.key != 0 ==> pair.key % 64 == b && Value(t', pair.key) == Some(pair.val)
    requires forall i :: 0 <= i < SLOTS && i != s && t.bram[b].slots[i].key != 0 ==> t.bram[b].slots[i].key != pair.key
    requires forall key: nat :: key != 0 && key != pair.key ==> Value(t', key) == Value(t, key)
    ensures GoodBram(t', b)
  {
    hide Value;
    var hb, hb' := t.bram[b], t'.bram[b];
    assert forall i :: 0 <= i < SLOTS && i != s ==> hb'.slots[i] == hb.slots[i];
    assert hb'.slots[s] == pair;
  }

  lemma BramAfterSetIs(t: Tables, o: Pi) returns (s: nat, pair: Slot)
    requires Sized(t) && Hashed(o) && o.op == SET
    ensures s < SLOTS && BramAfterSet(Looked(t, o)).slots == t.bram[BramIndex(o)].slots[s := pair]
    ensures pair.key == o.input && pair.val == o.length && pair.perm == o.perm
    ensures forall i :: 0 <= i < SLOTS && t.bram[BramIndex(o)].slots[i].key == o.input ==> s <= i
    ensures Find(t.bram[BramIndex(o)], o.input) < SLOTS ==> s == Find(t.bram[BramIndex(o)], o.input)
  {
    hide Walk, S1Step;
    var hb := t.bram[BramIndex(o)];
    var p := Looked(t, o);
    var f := Find(hb, o.input);
    if f < SLOTS {
      s, pair := f, Slot(o.input, o.length, o.perm, hb.slots[f].used);
    } else {
      s, pair := SpaceOrFirst(hb), Slot(o.input, o.length, o.perm, true);
    }
  }

  lemma SetBucket(t: Tables, t': Tables, o: Pi, out: Outcome)
    requires GoodTables(t) && Sized(t') && Hashed(o) && o.op == SET
    requires t'.bram == t.bram[BramIndex(o) := BramAfterSet(Looked(t, o))]
    requires forall key: nat :: key != 0 ==> Value(t', key) == if key == o.input then Some(o.length) else Value(t, key)
    ensures GoodBram(t', BramIndex(o))
  {
    hide Value, GoodChains, Looked;
    var b := BramIndex(o);
    assert GoodBram(t, b);
    var s, pair := BramAfterSetIs(t, o);
    assert forall i :: 0 <= i < SLOTS && i != s && t.bram[b].slots[i].key != 0 ==> t.bram[b].slots[i].key != o.input;
    PutInBucket(t, t', b, s, pair);
  }

  lemma {:induction false} ComparedFacts(o: Pi, hb: Bucket)
    requires o == Origin(o)
    ensures var p := CompareBram(o, hb);
      && p.hbBram == hb && p.hbDram == ZERO && !p.flags.hitDram
      && (p.flags.missBram <==> Find(hb, o.input) == SLOTS) && (p.flags.hitBram <==> !p.flags.missBram)
  {
  }

  /** The pair a refill copies into BRAM is the chain's own, or an empty one. */
  lemma RefillSource(t: Tables, o: Pi)
    requires GoodTables(t) && Hashed(o) && o.op == GET && Refills(Looked(t, o))
    ensures var p := Looked(t, o); var from := p.hbDram.slots[p.slotDram];
      from.key == 0 || (from.key == o.input && Value(t, o.input) == Some(from.val))
    ensures Find(t.bram[BramIndex(o)], o.input) == SLOTS && Looked(t, o).hbBram == t.bram[BramIndex(o)]
  {
    hide GoodBram, Walk, S1Step, KeysOk, Linked, DistinctAddrs, Lookup, CompareBram;
    var links := t.chains[Head(o)];
    var p1 := CompareBram(o, t.bram[BramIndex(o)]);
    ComparedFacts(o, t.bram[BramIndex(o)]);
    assert GoodChain(Head(o), links);
    var there, i, s := LookupWhere(links, o.input);
    if there {
      WalkHit(links, 0, p1, false, i);
      if o.input != 0 { KeyAt(Head(o), links, i, s, o.input); }
    } else {
      var j := WalkMiss(links, 0, p1, false);
    }
  }

  lemma RefillBucket(t: Tables, t': Tables, o: Pi)
    requires GoodTables(t) && Sized(t') && Hashed(o) && o.op == GET && Refills(Looked(t, o))
    requires t'.bram == t.bram[BramIndex(o) := BramAfterRefill(Looked(t, o))]
    requires forall key: nat :: key != 0 ==> Value(t', key) == Value(t, key)
    ensures GoodBram(t', BramIndex(o))
  {
    hide Value, GoodChains, Walk, Looked;
    RefillSource(t, o);
    var b := BramIndex(o);
    assert GoodBram(t, b);
    var p := Looked(t, o);
    var s, from := SpaceOrFirst(t.bram[b]), p.hbDram.slots[p.slotDram];
    PutInBucket(t, t', b, s, Slot(from.key, from.val, t.bram[b].slots[s].perm, true));
  }

  /** A read-intent GET answers with the map's value, or fails. */
  lemma ExecGet(t: Tables, o: Pi, out: Outcome)
    requires GoodTables(t) && Hashed(o) && o.op == GET && !o.perm && o.input != 0
    ensures var r := Exec(t, o, out).1;
      match Value(t, o.input)
      case Some(v) => r.status == SUCCEED && r.address == v
      case None => r.status == FAILURE && r.address == 0
  {
    hide Walk, S1Step;
    var hb := t.bram[BramIndex(o)];
    var f := Find(hb, o.input);
    if f < SLOTS {
      assert GoodBram(t, BramIndex(o));
      assert hb.slots[f].key == o.input;
    } else {
      var links := t.chains[Head(o)];
      var p1 := CompareBram(o, hb);
      assert GoodChain(Head(o), links);
      var there, i, s := LookupWhere(links, o.input);
      if there {
        WalkHit(links, 0, p1, false, i);
        KeyAt(Head(o), links, i, s, o.input);
      } else {
        var j := WalkMiss(links, 0, p1, false);
        LookupAbsent(links, o.input);
      }
    }
  }

  /** BRAM holds the key with the permission bit set. */
  ghost predicate BramPermits(hb: Bucket, key: nat)
  {
    Find(hb, key) < SLOTS && hb.slots[Find(hb, key)].perm
  }

  /**
   A write-intent GET is granted exactly when one of the two tables permits it: a refusal by BRAM is
   looked up again in DRAM, a grant by BRAM is not. Granted or not, the value is the map's.
   */
  lemma ExecWriteGet(t: Tables, o: Pi, out: Outcome)
    requires GoodTables(t) && Hashed(o) && o.op == GET && o.perm && o.input != 0
    ensures var r := Exec(t, o, out).1;
      && (r.status == SUCCEED <==>
            BramPermits(t.bram[BramIndex(o)], o.input) || ChainPermits(t.chains[Head(o)], o.input))
      && (r.status == SUCCEED ==> Value(t, o.input) == Some(r.address))
      && (r.status != SUCCEED ==> r.status == FAILURE && r.address == 0)
  {
    hide Walk, S1Step, KeysOk, Linked, DistinctAddrs, Lookup, ChainPermits;
    var hb := t.bram[BramIndex(o)];
    var links := t.chains[Head(o)];
    var p1 := CompareBram(o, hb);
    assert GoodChain(Head(o), links) && GoodBram(t, BramIndex(o));
    if !Answered(p1) {
      var there, i, s := LookupWhere(links, o.input);
      if there {
        WalkHit(links, 0, p1, false, i);
        KeyAt(Head(o), links, i, s, o.input);
        PermitAt(Head(o), links, i, s, o.input);
      } else {
        var j := WalkMiss(links, 0, p1, false);
        NoPermit(links, o.input);
      }
    }
  }

  /** Right after a SET, a write-intent GET of its key is granted exactly if the SET gave the permission. */
  lemma SetGrants(t: Tables, o: Pi, out: Outcome, g: Pi, out': Outcome)
    requires GoodTables(t) && Hashed(o) && o.op == SET && o.input != 0 && BucketOk(t, o, out)
    requires Hashed(g) && g.op == GET && g.perm && g.input == o.input
    ensures Exec(Exec(t, o, out).0, g, out').1.status == SUCCEED <==> o.perm
  {
    hide Looked, KeysOk, Linked, DistinctAddrs, Lookup, ChainPermits, ChainAfter, GoodBram, DisjointChains;
    var t' := Exec(t, o, out).0;
    ExecKeepsGood(t, o, out);
    ExecWriteGet(t', g, out');
    SetChain(t, o, out);
    var s, pair := BramAfterSetIs(t, o);
    var hb, hb' := t.bram[BramIndex(o)], t'.bram[BramIndex(o)];
    assert hb'.slots[s] == pair && forall i :: 0 <= i < SLOTS && i != s ==> hb'.slots[i] == hb.slots[i];
    assert Find(hb', o.input) == s;
  }

  /** DRAM holds the key with the permission bit set. */
  ghost predicate Permits(t: Tables, key: nat)
    requires Sized(t)
  {
    ChainPermits(t.chains[key % 1024], key)
  }

  /** The permission DRAM holds changes at a SET's key only. */
  lemma ExecPermits(t: Tables, o: Pi, out: Outcome, key: nat)
    requires Sized(t) && GoodChains(t.chains) && Hashed(o) && BucketOk(t, o, out) && key != 0
    ensures Permits(Exec(t, o, out).0, key) <==> if o.op == SET && key == o.input then o.perm else Permits(t, key)
  {
    hide GoodChain, Lookup, Looked, ChainPermits, DisjointChains;
    if o.op == SET {
      SetChain(t, o, out);
    } else {
      assert Exec(t, o, out).0.chains == t.chains;
    }
  }

  /** Every request keeps the tables good. */
  lemma ExecKeepsGood(t: Tables, o: Pi, out: Outcome)
    requires GoodTables(t) && Hashed(o) && BucketOk(t, o, out)
    ensures GoodTables(Exec(t, o, out).0)
  {
    hide GoodBram, GoodChains, Exec;
    ExecChains(t, o, out);
    forall b | 0 <= b < 64 ensures GoodBram(Exec(t, o, out).0, b) { ExecBram(t, o, out, b); }
  }

  /**
   The other side: if the allocator fails a SET that needs a bucket, the SET reports failure, yet the
   pair is in BRAM alone and a following GET returns it.
   */
  lemma FailedSetStaysReadable(t: Tables, o: Pi, g: Pi)
    requires GoodTables(t) && Hashed(o) && o.op == SET && o.input != 0 && NeedsBucket(Looked(t, o))
    requires Hashed(g) && g.op == GET && !g.perm && g.input == o.input
    ensures var r := Exec(t, o, NoBucket);
      && r.1.status == FAILURE && Value(r.0, o.input) == None && !GoodTables(r.0)
      && Exec(r.0, g, NoBucket).1.status == SUCCEED && Exec(r.0, g, NoBucket).1.address == o.length
  {
    hide Walk, S1Step, KeysOk, Looked, GoodChains, Lookup, ChainAfter;
    NeedsBucketAbsent(t, o);
    FailedLeavesChain(t, o);
    var b := BramIndex(o);
    var t' := Exec(t, o, NoBucket).0;
    assert t'.chains == t.chains && Value(t', o.input) == None;
    var s, pair := BramAfterSetIs(t, o);
    var hb' := t'.bram[b];
    assert hb'.slots[s] == pair;
    assert !GoodBram(t', b);
    var f := Find(hb', o.input);
    assert f <= s && hb'.slots[f].key == o.input;
    assert forall i :: 0 <= i < s ==> hb'.slots[i] == t.bram[b].slots[i];
    BramHitAnswers(t', g);
  }

  lemma FailedLeavesChain(t: Tables, o: Pi)
    requires Sized(t) && o == Origin(o) && o.op == SET && NeedsBucket(Looked(t, o))
    ensures ChainAfter(t.chains[Head(o)], Looked(t, o), NoBucket) == t.chains[Head(o)]
  {
  }

  lemma NeedsBucketAbsent(t: Tables, o: Pi)
    requires GoodTables(t) && Hashed(o) && o.op == SET && NeedsBucket(Looked(t, o))
    ensures Value(t, o.input) == None
  {
    hide Walk, S1Step, KeysOk;
    var links := t.chains[Head(o)];
    assert GoodChain(Head(o), links);
    var there, i, s := LookupWhere(links, o.input);
    if there {
      WalkHit(links, 0, CompareBram(o, t.bram[BramIndex(o)]), false, i);
    } else {
      LookupAbsent(links, o.input);
    }
  }

  lemma BramHitAnswers(t: Tables, g: Pi)
    requires Sized(t) && Hashed(g) && g.op == GET && !g.perm
    requires Find(t.bram[BramIndex(g)], g.input) < SLOTS
    ensures var r, hb := Exec(t, g, NoBucket).1, t.bram[BramIndex(g)];
      r.status == SUCCEED && r.address == hb.slots[Find(hb, g.input)].val
  {
  }

  // ---------- whole runs

  /** The value of the latest SET of a key. */
  ghost function LatestSet(reqs: seq<Pi>, key: nat): Option
  {
    if reqs == [] then None
    else
      var last := reqs[|reqs| - 1];
      if last.op == SET && last.input == key then Some(last.length) else LatestSet(reqs[..|reqs| - 1], key)
  }

  /** Along the run every bucket the table asks for is granted, and is one it does not use yet. */
  ghost predicate AllocatorOk(reqs: seq<Pi>, outs: seq<Outcome>)
    requires |reqs| == |outs| && AllOrigins(reqs)
    decreases |reqs|
  {
    reqs == [] ||
      var n := |reqs| - 1;
      && AllocatorOk(reqs[..n], outs[..n])
      && BucketOk(RunAlone(reqs[..n], outs[..n]).tables, reqs[n], outs[n])
  }

  ghost predicate AllHashed(reqs: seq<Pi>)
  {
    forall i :: 0 <= i < |reqs| ==> Hashed(reqs[i])
  }

  /** After any run the tables are the map of latest SETs, with BRAM part of it. */
  lemma {:induction false} RunIsMap(reqs: seq<Pi>, outs: seq<Outcome>)
    requires |reqs| == |outs| && AllHashed(reqs) && AllOrigins(reqs) && AllocatorOk(reqs, outs)
    ensures var t := RunAlone(reqs, outs).tables;
      GoodTables(t) && forall key: nat :: key != 0 ==> Value(t, key) == LatestSet(reqs, key)
    decreases |reqs|
  {
    hide GoodBram, GoodChains, Exec, BucketOk;
    if reqs == [] {
      InitialGood();
    } else {
      var n := |reqs| - 1;
      RunIsMap(reqs[..n], outs[..n]);
      var before := RunAlone(reqs[..n], outs[..n]).tables;
      ExecChains(before, reqs[n], outs[n]);
      ExecKeepsGood(before, reqs[n], outs[n]);
    }
  }

  lemma InitialGood()
    ensures GoodTables(InitialTables()) && forall key: nat :: key != 0 ==> Value(InitialTables(), key) == None
  {
    hide Lookup;
    var t := InitialTables();
    forall h | 0 <= h < 1024 ensures GoodChain(h, t.chains[h]) {
      assert t.chains[h] == [Link(h, ZERO)];
    }
    forall key: nat | key != 0 ensures Value(t, key) == None {
      LookupAbsent(t.chains[key % 1024], key);
    }
  }

  /** A read-intent GET returns the value of the latest SET of its key before it, and fails if there was none. */
  lemma {:induction false} GetReturnsLatestSet(reqs: seq<Pi>, outs: seq<Outcome>, n: nat)
    requires |reqs| == |outs| && AllHashed(reqs) && AllOrigins(reqs) && AllocatorOk(reqs, outs)
    requires n < |reqs| && reqs[n].op == GET && !reqs[n].perm && reqs[n].input != 0
    ensures var r := RunAlone(reqs, outs).replies[n];
      match LatestSet(reqs[..n], reqs[n].input)
      case Some(v) => r.status == SUCCEED && r.address == v
      case None => r.status == FAILURE && r.address == 0
  {
    hide GoodTables, Exec, BucketOk, LatestSet, Value;
    var m := n + 1;
    RunPrefix(reqs, outs, n);
    RunPrefix(reqs, outs, m);
    var rs, os := reqs[..m], outs[..m];
    assert rs[..n] == reqs[..n] && os[..n] == outs[..n] && rs[n] == reqs[n];
    assert RunAlone(rs, os).replies[n] == Exec(RunAlone(rs[..n], os[..n]).tables, rs[n], os[n]).1;
    RunIsMap(reqs[..n], outs[..n]);
    ExecGet(RunAlone(reqs[..n], outs[..n]).tables, reqs[n], outs[n]);
  }

  // ---------- in terms of the mapping requests themselves

  const MAPPING_READ: nat := 0
  const MAPPING_WRITE: nat := 1
  const MAPPING_SET: nat := 2
  const MAPPING_SET_WRITABLE: nat := 0x82

  /** The pipeline words of a list of requests, as remux and compute_hash make them. */
  ghost function Words(rs: seq<Request>, channels: seq<nat>): seq<Pi>
    requires |rs| == |channels|
  {
    seq(|rs|, i requires 0 <= i < |rs| => WithHash(Forge(rs[i], channels[i])))
  }

  /** The value the latest SET request gave to an address. */
  ghost function LatestMapping(rs: seq<Request>, address: nat): Option
  {
    if rs == [] then None
    else
      var last := rs[|rs| - 1];
      if last.opcode in {MAPPING_SET, MAPPING_SET_WRITABLE} && last.address == address then Some(last.length)
      else LatestMapping(rs[..|rs| - 1], address)
  }

  lemma {:induction false} LatestAgrees(rs: seq<Request>, channels: seq<nat>, address: nat)
    requires |rs| == |channels|
    ensures LatestSet(Words(rs, channels), address) == LatestMapping(rs, address)
  {
    if rs != [] {
      var n := |rs| - 1;
      LatestAgrees(rs[..n], channels[..n], address);
      assert Words(rs, channels)[..n] == Words(rs[..n], channels[..n]);
    }
  }

  /**
   For every list of mapping requests, a read of a non-zero address returns, on its own channel, what
   the latest SET of that address mapped it to, and fails if there was none.
   */
  lemma {:induction false} ReadReturnsLatestMapping(rs: seq<Request>, channels: seq<nat>, outs: seq<Outcome>, n: nat)
    requires |rs| == |channels| == |outs| && AllOrigins(Words(rs, channels)) && AllocatorOk(Words(rs, channels), outs)
    requires n < |rs| && rs[n].opcode == MAPPING_READ && rs[n].address != 0
    ensures var r := RunAlone(Words(rs, channels), outs).replies[n];
      && r.channel == channels[n]
      && match LatestMapping(rs[..n], rs[n].address) {
           case Some(pa) => r.status == SUCCEED && r.address == pa
           case None => r.status == FAILURE && r.address == 0
         }
  {
    hide RunAlone, AllocatorOk, LatestSet, LatestMapping;
    var ws := Words(rs, channels);
    assert AllHashed(ws);
    GetReturnsLatestSet(ws, outs, n);
    assert ws[..n] == Words(rs[..n], channels[..n]);
    LatestAgrees(rs[..n], channels[..n], rs[n].address);
    ReplyChannel(ws, outs, n);
  }

  /** A write request right after a SET of its address is granted exactly if the SET was the writable one. */
  lemma WriteAfterSet(t: Tables, r: Request, ch: nat, out: Outcome, g: Request, ch': nat, out': Outcome)
    requires GoodTables(t) && r.opcode in {MAPPING_SET, MAPPING_SET_WRITABLE} && r.address != 0
    requires BucketOk(t, WithHash(Forge(r, ch)), out) && g.opcode == MAPPING_WRITE && g.address == r.address
    ensures var t' := Exec(t, WithHash(Forge(r, ch)), out).0;
      Exec(t', WithHash(Forge(g, ch')), out').1.status == SUCCEED <==> r.opcode == MAPPING_SET_WRITABLE
  {
    hide Exec, GoodTables, BucketOk;
    SetGrants(t, WithHash(Forge(r, ch)), out, WithHash(Forge(g, ch')), out');
  }

  lemma {:induction false} ReplyChannel(reqs: seq<Pi>, outs: seq<Outcome>, n: nat)
    requires |reqs| == |outs| && AllOrigins(reqs) && n < |reqs|
    ensures RunAlone(reqs, outs).replies[n].channel == reqs[n].channel
  {
    hide Exec, AllocatorOk;
    var m := n + 1;
    RunPrefix(reqs, outs, m);
    var rs, os := reqs[..m], outs[..m];
    var before := RunAlone(rs[..n], os[..n]).tables;
    assert RunAlone(rs, os).replies[n] == Exec(before, rs[n], os[n]).1;
    ExecChannel(before, rs[n], os[n]);
  }

  lemma ExecChannel(t: Tables, o: Pi, out: Outcome)
    requires Sized(t) && o == Origin(o)
    ensures Exec(t, o, out).1.channel == o.channel
  {
    hide Looked;
    assert Origin(Looked(t, o)) == o;
  }

  lemma {:induction false} RunPrefix(reqs: seq<Pi>, outs: seq<Outcome>, n: nat)
    requires |reqs| == |outs| && n <= |reqs| && AllOrigins(reqs)
    ensures AllOrigins(reqs[..n])
    ensures RunAlone(reqs[..n], outs[..n]).replies == RunAlone(reqs, outs).replies[..n]
    ensures AllocatorOk(reqs, outs) ==> AllocatorOk(reqs[..n], outs[..n])
    decreases |reqs|
  {
    hide BucketOk, Exec;
    if n == |reqs| {
      assert reqs[..n] == reqs && outs[..n] == outs;
    } else {
      var m := |reqs| - 1;
      RunPrefix(reqs[..m], outs[..m], n);
      assert reqs[..m][..n] == reqs[..n] && outs[..m][..n] == outs[..n];
    }
  }
}
