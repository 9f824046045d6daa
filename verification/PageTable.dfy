/**
 The hashed page table of mm/paging_hashed/hls_mapping, one request at a time: what each pipeline
 stage does to a request, and the effect of a whole request on the two tables.
 */
module PageTable {
  import opened HashWords

  const GET: nat := 1
  const SET: nat := 2
  const UNKNOWN: nat := 3
  const SUCCEED: nat := 0
  const FAILURE: nat := 1
  const READ_CHANNEL: nat := 0
  const WRITE_CHANNEL: nat := 1

  datatype Request = Request(address: nat, length: nat, opcode: nat)
  datatype Reply = Reply(channel: nat, address: nat, status: nat, internal: nat)

  /** pi_state, bit by bit */
  datatype Flags = Flags(hitBram: bool, hitDram: bool, missBram: bool, missDram: bool, noPerm: bool)
  const NO_FLAGS: Flags := Flags(false, false, false, false, false)

  /** struct pipeline_info; `perm` is bit 7 of the opcode. */
  datatype Pi = Pi(
    input: nat, length: nat, op: nat, perm: bool, channel: nat, hash: nat,
    hbBram: Bucket, hbDram: Bucket, hbDramAddr: nat, slot: nat, slotDram: int,
    flags: Flags, output: nat, status: nat)

  /** remux: how a mapping request becomes a pipeline word. */
  function Forge(r: Request, channel: nat): Pi
  {
    var (op, perm) :=
      if r.opcode == 0 then (GET, false)
      else if r.opcode == 1 then (GET, true)
      else if r.opcode == 2 then (SET, false)
      else if r.opcode == 0x82 then (SET, true)
      else (UNKNOWN, false);
    Pi(r.address, r.length, op, perm, channel, 0, ZERO, ZERO, 0, 0, 0, NO_FLAGS, 0, SUCCEED)
  }

  /** compute_hash */
  function WithHash(pi: Pi): Pi { pi.(hash := pi.input) }

  /** The request fields alone: what a pipeline word looked like when it left compute_hash. */
  function Origin(pi: Pi): Pi
  {
    Pi(pi.input, pi.length, pi.op, pi.perm, pi.channel, pi.hash, ZERO, ZERO, 0, 0, 0, NO_FLAGS, 0, SUCCEED)
  }

  function BramIndex(pi: Pi): nat { pi.hash % 64 }
  function Head(pi: Pi): nat { pi.hash % 1024 }

  /** compare_bram */
  function CompareBram(pi: Pi, hb: Bucket): (r: Pi)
    ensures r.slot < SLOTS && r.slotDram == pi.slotDram && Origin(r) == Origin(pi)
  {
    var i := Find(hb, pi.input);
    if i < SLOTS then
      if pi.op == GET && pi.perm && !hb.slots[i].perm then
        pi.(hbBram := hb, flags := NO_FLAGS.(hitBram := true, noPerm := true), slot := 0, status := FAILURE, output := 0)
      else
        pi.(hbBram := hb, flags := NO_FLAGS.(hitBram := true), slot := i, status := SUCCEED, output := hb.slots[i].val)
    else
      pi.(hbBram := hb, flags := NO_FLAGS.(missBram := true), slot := 0, status := FAILURE, output := 0)
  }

  /** fill_S1 sends a GET that BRAM answered straight on. */
  predicate Answered(pi: Pi)
  {
    pi.op == GET && pi.flags == NO_FLAGS.(hitBram := true)
  }

  datatype S1Result = S1Result(pi: Pi, found: bool, done: bool, next: nat)

  /** fill_S1, FILL_READ_DATA: what one bucket of the chain does to the request. */
  function S1Step(pi: Pi, found: bool, addr: nat, hb: Bucket): (r: S1Result)
    requires -1 <= pi.slotDram < SLOTS
    ensures -1 <= r.pi.slotDram < SLOTS && r.pi.slot == pi.slot && r.pi.hbBram == pi.hbBram
    ensures pi.op != SET && pi.slotDram >= 0 ==> r.pi.slotDram >= 0
    ensures r.pi.flags.hitBram == pi.flags.hitBram && r.pi.flags.missBram == pi.flags.missBram
    ensures Origin(r.pi) == Origin(pi)
    ensures !r.done ==> hb.chained && r.next == hb.next
  {
    var i := Find(hb, pi.input);
    var a := addr % BUCKETS;
    if i < SLOTS then
      var p := pi.(flags := pi.flags.(hitDram := true));
      if pi.op == GET && pi.perm && !hb.slots[i].perm then
        S1Result(p.(flags := p.flags.(noPerm := true), slotDram := 0, status := FAILURE, output := 0), found, true, 0)
      else
        S1Result(p.(slotDram := i, hbDram := hb, hbDramAddr := a, status := SUCCEED, output := hb.slots[i].val), found, true, 0)
    else
      var s := FindSpace(hb);
      var p :=
        if pi.op == SET && !found then
          if s < SLOTS then pi.(hbDram := hb, hbDramAddr := a, slotDram := s) else pi.(slotDram := -1)
        else pi;
      var f := found || (pi.op == SET && s < SLOTS);
      if !hb.chained then
        var q := if f then p else p.(hbDram := hb, hbDramAddr := a);
        S1Result(q.(flags := q.flags.(missDram := true), status := FAILURE, output := 0), f, true, 0)
      else
        S1Result(p, f, false, hb.next)
  }

  /** A bucket in a chain: its number and its contents. */
  datatype Link = Link(addr: nat, hb: Bucket)

  /** fill_S1's walk along a chain, from its i-th bucket. */
  function Walk(links: seq<Link>, i: nat, pi: Pi, found: bool): (r: Pi)
    requires i < |links| && -1 <= pi.slotDram < SLOTS
    ensures -1 <= r.slotDram < SLOTS && r.slot == pi.slot && r.hbBram == pi.hbBram && Origin(r) == Origin(pi)
    ensures pi.op != SET && pi.slotDram >= 0 ==> r.slotDram >= 0
    ensures r.flags.hitBram == pi.flags.hitBram && r.flags.missBram == pi.flags.missBram
    decreases |links| - i
  {
    var s := S1Step(pi, found, links[i].addr, links[i].hb);
    if s.done || i + 1 == |links| then s.pi else Walk(links, i + 1, s.pi, s.found)
  }

  /** Everything fill_S1 does to a request, given its chain. */
  function AfterS1(pi: Pi, links: seq<Link>): (r: Pi)
    requires links != [] && -1 <= pi.slotDram < SLOTS && pi.slot < SLOTS
    ensures -1 <= r.slotDram < SLOTS && r.slot < SLOTS && Origin(r) == Origin(pi)
    ensures pi.op != SET && pi.slotDram >= 0 ==> r.slotDram >= 0
  {
    if Answered(pi) then pi else Walk(links, 0, pi, false)
  }

  /** find_empty_slot: slot 0 when the bucket is full */
  function SpaceOrFirst(hb: Bucket): (i: nat)
    ensures i < SLOTS
  {
    var s := FindSpace(hb);
    if s < SLOTS then s else 0
  }

  /** fill_S2, SET: the BRAM bucket written back. */
  function BramAfterSet(pi: Pi): Bucket
    requires pi.slot < SLOTS
  {
    var hb := pi.hbBram;
    if pi.flags.hitBram then
      hb.(slots := hb.slots[pi.slot := Slot(pi.input, pi.length, pi.perm, hb.slots[pi.slot].used)])
    else
      hb.(slots := hb.slots[SpaceOrFirst(hb) := Slot(pi.input, pi.length, pi.perm, true)])
  }

  /** fill_S2, GET that missed BRAM and hit DRAM: key and value are copied, the permission bit is not. */
  function BramAfterRefill(pi: Pi): Bucket
    requires 0 <= pi.slotDram < SLOTS
  {
    var hb, from := pi.hbBram, pi.hbDram.slots[pi.slotDram];
    var s := SpaceOrFirst(hb);
    hb.(slots := hb.slots[s := Slot(from.key, from.val, hb.slots[s].perm, true)])
  }

  /** fill_S2, SET: the DRAM bucket with the pair in its chosen slot. */
  function DramAfterSet(pi: Pi): Bucket
    requires 0 <= pi.slotDram < SLOTS
  {
    pi.hbDram.(slots := pi.hbDram.slots[pi.slotDram := Slot(pi.input, pi.length, pi.perm, true)])
  }

  /** fill_S2: the first contents of a newly allocated bucket. */
  function NewBucket(pi: Pi): Bucket
  {
    ZERO.(slots := ZERO.slots[0 := Slot(pi.input, pi.length, pi.perm, true)])
  }

  predicate Refills(pi: Pi)
  {
    pi.op == GET && pi.flags.missBram && pi.flags.hitDram
  }

  /** The bucket allocator's answer, as a bucket number. */
  datatype Outcome = NoBucket | NewAt(bucket: nat)

  datatype Tables = Tables(bram: seq<Bucket>, chains: seq<seq<Link>>)

  predicate Sized(t: Tables)
  {
    |t.bram| == 64 && |t.chains| == 1024 && forall h :: 0 <= h < 1024 ==> t.chains[h] != []
  }

  function WriteLink(links: seq<Link>, addr: nat, hb: Bucket): seq<Link>
  {
    seq(|links|, i requires 0 <= i < |links| => if links[i].addr == addr then Link(addr, hb) else links[i])
  }

  /** A request after compare_bram and fill_S1. */
  function Looked(t: Tables, o: Pi): (r: Pi)
    requires Sized(t) && o == Origin(o)
    ensures -1 <= r.slotDram < SLOTS && r.slot < SLOTS && Origin(r) == o
    ensures o.op != SET ==> r.slotDram >= 0
  {
    AfterS1(CompareBram(o, t.bram[BramIndex(o)]), t.chains[Head(o)])
  }

  function NeedsBucket(pi: Pi): bool { pi.op == SET && pi.slotDram == -1 }

  /** fill_S2 on the chain: what a request leaves of it. */
  function ChainAfter(links: seq<Link>, p: Pi, out: Outcome): seq<Link>
    requires -1 <= p.slotDram < SLOTS
  {
    if p.op != SET then links
    else if p.slotDram >= 0 then WriteLink(links, p.hbDramAddr, DramAfterSet(p))
    else if out.NoBucket? then links
    else WriteLink(links, p.hbDramAddr, p.hbDram.(chained := true, next := out.bucket)) + [Link(out.bucket, NewBucket(p))]
  }

  /** fill_S2 on the request itself, as far as the reply shows it. */
  function ReplyOf(p: Pi): Reply
  {
    Reply(p.channel, p.output, p.status, (if p.flags.hitBram then 1 else 0) + (if p.flags.hitDram then 16 else 0))
  }

  function StatusAfter(p: Pi, out: Outcome): nat
  {
    if p.op != SET then p.status else if NeedsBucket(p) && out.NoBucket? then FAILURE else SUCCEED
  }

  /** One request executed alone: new tables and reply. */
  function Exec(t: Tables, o: Pi, out: Outcome): (r: (Tables, Reply))
    requires Sized(t) && o == Origin(o)
    ensures Sized(r.0)
  {
    var p := Looked(t, o);
    var bram :=
      if p.op == SET then t.bram[BramIndex(o) := BramAfterSet(p)]
      else if Refills(p) then t.bram[BramIndex(o) := BramAfterRefill(p)]
      else t.bram;
    var chains := t.chains[Head(o) := ChainAfter(t.chains[Head(o)], p, out)];
    (Tables(bram, chains), ReplyOf(p.(status := StatusAfter(p, out))))
  }

  function InitialTables(): (t: Tables)
    ensures Sized(t)
  {
    Tables(seq(64, _ => ZERO), seq(1024, h requires 0 <= h < 1024 => [Link(h, ZERO)]))
  }

  ghost predicate AllOrigins(reqs: seq<Pi>)
  {
    forall i :: 0 <= i < |reqs| ==> reqs[i] == Origin(reqs[i])
  }

  datatype RunResult = RunResult(tables: Tables, replies: seq<Reply>)

  /** One-at-a-time execution of a list of requests from zeroed tables. */
  ghost function RunAlone(reqs: seq<Pi>, outs: seq<Outcome>): (r: RunResult)
    requires |reqs| == |outs| && AllOrigins(reqs)
    ensures Sized(r.tables) && |r.replies| == |reqs|
    decreases |reqs|
  {
    if reqs == [] then RunResult(InitialTables(), [])
    else
      var n := |reqs| - 1;
      var before := RunAlone(reqs[..n], outs[..n]);
      var step := Exec(before.tables, reqs[n], outs[n]);
      RunResult(step.0, before.replies + [step.1])
  }
}
