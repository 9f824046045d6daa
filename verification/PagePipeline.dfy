/**
 The page table as it really runs: stages that share FIFOs, two memories and a reservation table,
 called in any order. Reads and the bucket allocator answer whenever the environment likes; writes
 take effect when issued.
 */
module PagePipeline {
  import opened HashWords
  import opened PageTable
  import opened PageTableMap
  import opened PageBram
  import opened Reservation

  datatype RbState = RbIdle | RbCheck | RbResp
  datatype S1State = S1Idle | S1Send | S1Read
  datatype S2State = S2Idle | S2Recv | S2Write
  datatype AllocRet = AllocOk(addr: nat) | AllocFail

  /** Requests outside, and the FIFOs up to read_bram. */
  datatype Front = Front(rdReq: seq<Request>, wrReq: seq<Request>, q1: seq<Pi>, q2: seq<Pi>)
  /** read_bram's registers, PI_1, and the FIFOs to the reservation table and to BRAM. */
  datatype Fetch = Fetch(rb: RbState, index: nat, q3: seq<Pi>, resvReq: seq<nat>, resvRes: seq<nat>, cmd: seq<nat>, data: seq<Bucket>)
  /** The reservation table as the queue it stands for, and the pops on their way; `tail` is answered but not popped. */
  datatype Table = Table(resv: seq<nat>, pops: nat, tail: seq<nat>)
  /** fill_S1's registers and its DRAM FIFOs; it stands at bucket `pos` of the chain. */
  datatype Walker = Walker(state: S1State, pi: Pi, addr: nat, found: bool, cmd: seq<nat>, data: seq<Bucket>, pos: nat)
  /** fill_S2's registers and its allocator FIFOs; `out` is the allocation it is about to use. */
  datatype Filler = Filler(state: S2State, pi: Pi, newHb: Bucket, asked: nat, ret: seq<AllocRet>, out: Outcome)
  datatype Memory = Memory(bram: seq<Bucket>, dram: map<nat, Bucket>)
  datatype Output = Output(rd: seq<Reply>, wr: seq<Reply>)
  /**
   The requests in the order remux took them, the allocator's answers in the order it gave them, and
   the one-at-a-time run of the requests fill_S2 has finished.
   */
  datatype Spec = Spec(hist: seq<Pi>, answers: seq<AllocRet>, outs: seq<Outcome>, t: Tables, replies: seq<Reply>, answered: nat)

  function Mem(dram: map<nat, Bucket>, addr: nat): Bucket
  {
    if addr in dram then dram[addr] else ZERO
  }

  ghost function Origins(s: seq<Pi>): seq<Pi>
  {
    seq(|s|, i requires 0 <= i < |s| => Origin(s[i]))
  }

  ghost function Hashes(s: seq<Pi>): seq<Pi>
  {
    seq(|s|, i requires 0 <= i < |s| => WithHash(s[i]))
  }

  ghost function Indices(s: seq<Pi>): seq<nat>
  {
    seq(|s|, i requires 0 <= i < |s| => BramIndex(s[i]))
  }

  ghost function InS1(w: Walker): seq<Pi> { if w.state == S1Idle then [] else [w.pi] }
  ghost function InS2(f: Filler): seq<Pi> { if f.state == S2Idle then [] else [f.pi] }

  /** Requests that entered read_bram and are not answered yet, oldest first, as they came in. */
  ghost function Flight(q6: seq<Pi>, s2: seq<Pi>, q5: seq<Pi>, s1: seq<Pi>, q4: seq<Pi>, q3: seq<Pi>): seq<Pi>
  {
    Origins(q6) + Origins(s2) + Origins(q5) + Origins(s1) + Origins(q4) + q3
  }

  // ---------- the invariant, part by part

  /** Nothing is lost, duplicated or overtaken. */
  ghost predicate HistOk(hist: seq<Pi>, answered: nat, flight: seq<Pi>, q2: seq<Pi>, q1: seq<Pi>)
  {
    && answered <= |hist| && AllHashed(hist)
    && hist[answered..] == flight + q2 + Hashes(q1)
    && (forall i :: 0 <= i < |q1| ==> q1[i] == Origin(q1[i]))
  }

  /** The newest flight member has no reservation yet. */
  ghost predicate Waiting(f: Fetch)
  {
    f.rb == RbCheck || (f.rb == RbResp && f.resvRes != [RESV_SUCCESS])
  }

  /** Each flight member but a waiting one holds its own entry of the reservation queue, in order. */
  ghost predicate Reserved(table: Table, flight: seq<Pi>, waiting: bool)
  {
    && |table.tail| == table.pops && Distinct(table.resv) && |table.resv| < ENTRIES && (waiting ==> flight != [])
    && table.resv == table.tail + Indices(if waiting then flight[..|flight| - 1] else flight)
  }

  /** read_bram's talk with the reservation table; BRAM reads under way are current. */
  ghost predicate FetchOk(f: Fetch, bram: seq<Bucket>)
    requires |bram| == 64
  {
    && (f.rb != RbIdle ==> f.q3 != [] && f.index == BramIndex(f.q3[|f.q3| - 1]))
    && (f.rb == RbResp ==> (f.resvReq == [f.index] && f.resvRes == []) || (f.resvReq == [] && |f.resvRes| == 1))
    && (f.rb != RbResp ==> f.resvReq == [] && f.resvRes == [])
    && |f.q3| == |f.data| + |f.cmd| + (if f.rb == RbIdle then 0 else 1)
    && (forall i :: 0 <= i < |f.cmd| ==> f.cmd[i] == BramIndex(f.q3[|f.data| + i]))
    && (forall i :: 0 <= i < |f.data| ==> f.data[i] == bram[BramIndex(f.q3[i])])
  }

  ghost predicate ComparedOk(q4: seq<Pi>, bram: seq<Bucket>)
    requires |bram| == 64
  {
    forall i :: 0 <= i < |q4| ==> q4[i] == CompareBram(Origin(q4[i]), bram[BramIndex(q4[i])])
  }

  /** Walking on from where fill_S1 stands leads to the right result. */
  ghost predicate WalkOk(w: Walker, t: Tables)
    requires Sized(t)
  {
    var links := t.chains[Head(w.pi)];
    && (w.state != S1Read ==> w.cmd == [] && w.data == [])
    && (w.state != S1Idle ==>
          && w.pos < |links| && w.addr == links[w.pos].addr && -1 <= w.pi.slotDram < SLOTS
          && Walk(links, w.pos, w.pi, w.found) == Looked(t, Origin(w.pi)))
    && (w.state == S1Read ==> (w.cmd == [w.addr] && w.data == []) || (w.cmd == [] && w.data == [links[w.pos].hb]))
  }

  ghost predicate LookedOk(q5: seq<Pi>, t: Tables)
    requires Sized(t)
  {
    forall i :: 0 <= i < |q5| ==> q5[i] == Looked(t, Origin(q5[i]))
  }

  /** The allocator hands out 64-byte aligned addresses of buckets the table does not use. */
  predicate RetOk(base: nat, ret: AllocRet, chains: seq<seq<Link>>)
  {
    ret.AllocOk? ==>
      ret.addr < ADDR_SPACE && (ret.addr - base) % 64 == 0 && FreshBucket(chains, ChainPointer(base, ret.addr))
  }

  /** fill_S2's request, its half-done writes and its allocation. */
  ghost predicate FillOk(f: Filler, base: nat, mem: Memory, t: Tables)
    requires Sized(t) && |mem.bram| == 64
  {
    var p := Looked(t, Origin(f.pi));
    && (f.state != S2Recv ==> f.asked == 0 && f.ret == [])
    && (f.state != S2Idle ==> p.op == SET && mem.bram[BramIndex(f.pi)] == BramAfterSet(p))
    && (f.state == S2Recv ==>
          && p.slotDram == -1 && f.pi == p.(hbBram := BramAfterSet(p)) && f.newHb == NewBucket(p)
          && ((f.asked == 1 && f.ret == []) || (f.asked == 0 && |f.ret| == 1 && RetOk(base, f.ret[0], t.chains))))
    && (f.state == S2Write && p.slotDram >= 0 ==>
          f.out == NoBucket && f.pi == p.(hbBram := BramAfterSet(p), hbDram := DramAfterSet(p)))
    && (f.state == S2Write && p.slotDram == -1 ==>
          && f.out.NewAt? && FreshBucket(t.chains, f.out.bucket) && Mem(mem.dram, DmAddr(base, f.out.bucket)) == NewBucket(p)
          && f.pi == p.(hbBram := BramAfterSet(p), hbDram := p.hbDram.(chained := true, next := f.out.bucket)))
  }

  /** Outside fill_S2's half-done request, memory is the tables of the finished ones. */
  ghost predicate MemOk(base: nat, mem: Memory, f: Filler, t: Tables)
    requires Sized(t)
  {
    && |mem.bram| == 64
    && (forall b :: 0 <= b < 64 && !(f.state != S2Idle && b == BramIndex(f.pi)) ==> mem.bram[b] == t.bram[b])
    && DramHolds(base, mem.dram, t.chains)
  }

  ghost predicate DramHolds(base: nat, dram: map<nat, Bucket>, chains: seq<seq<Link>>)
  {
    forall h, i :: 0 <= h < |chains| && 0 <= i < |chains[h]| ==>
      Mem(dram, DmAddr(base, chains[h][i].addr)) == chains[h][i].hb
  }

  /** What is finished is what one-at-a-time execution gives. */
  ghost predicate SpecOk(s: Spec)
  {
    && |s.outs| <= |s.hist| && AllOrigins(s.hist[..|s.outs|])
    && RunAlone(s.hist[..|s.outs|], s.outs) == RunResult(s.t, s.replies)
    && GoodChains(s.t.chains)
    && (AllocFail !in s.answers ==> AllocatorOk(s.hist[..|s.outs|], s.outs))
  }

  /** A bucket number for an answered address, or none. */
  function OutcomeOf(base: nat, ret: AllocRet): Outcome
  {
    if ret.AllocOk? then NewAt(ChainPointer(base, ret.addr)) else NoBucket
  }

  datatype Planned = Planned(outs: seq<Outcome>, asked: nat)

  /** One-at-a-time execution with these allocator answers: each request that needs a bucket takes the next one. */
  ghost function Plan(base: nat, reqs: seq<Pi>, answers: seq<AllocRet>): (r: Planned)
    requires AllOrigins(reqs)
    ensures |r.outs| == |reqs|
    decreases |reqs|
  {
    if reqs == [] then Planned([], 0)
    else
      var n := |reqs| - 1;
      var before := Plan(base, reqs[..n], answers);
      if !NeedsBucket(Looked(RunAlone(reqs[..n], before.outs).tables, reqs[n])) then before.(outs := before.outs + [NoBucket])
      else
        Planned(before.outs + [if before.asked < |answers| then OutcomeOf(base, answers[before.asked]) else NoBucket],
                before.asked + 1)
  }

  /** An answer the filler has and that no finished request used. */
  predicate Pending(f: Filler)
  {
    (f.state == S2Recv && f.ret != []) || (f.state == S2Write && f.out.NewAt?)
  }

  /** The finished requests used the allocator's answers in turn, and the filler holds the one left over. */
  ghost predicate AskOk(base: nat, s: Spec, f: Filler)
  {
    && |s.outs| <= |s.hist| && AllOrigins(s.hist[..|s.outs|])
    && var plan := Plan(base, s.hist[..|s.outs|], s.answers);
       && s.outs == plan.outs && |s.answers| == plan.asked + (if Pending(f) then 1 else 0)
       && (f.state == S2Recv && f.ret != [] ==> f.ret == [s.answers[|s.answers| - 1]])
       && (f.state == S2Write && f.out.NewAt? ==> f.out == OutcomeOf(base, s.answers[|s.answers| - 1]))
  }

  /** The replies that go out on one channel. */
  ghost function OnChannel(replies: seq<Reply>, channel: nat): seq<Reply>
  {
    if replies == [] then []
    else
      var last := replies[|replies| - 1];
      OnChannel(replies[..|replies| - 1], channel) + (if last.channel == channel then [last] else [])
  }

  ghost predicate RepliesOk(q6: seq<Pi>, s: Spec, out: Output)
  {
    && s.answered + |q6| == |s.replies| == |s.outs|
    && (forall i :: 0 <= i < |q6| ==> ReplyOf(q6[i]) == s.replies[s.answered + i])
    && out.rd == OnChannel(s.replies[..s.answered], READ_CHANNEL)
    && out.wr == OnChannel(s.replies[..s.answered], WRITE_CHANNEL)
  }

  class Pipeline {
    const base: nat
    var front: Front
    var fetch: Fetch
    var table: Table
    var q4: seq<Pi>
    var s1: Walker
    var q5: seq<Pi>
    var s2: Filler
    var q6: seq<Pi>
    var mem: Memory
    var out: Output
    /** History: no stage reads it. */
    var spec: Spec

    ghost function InFlight(): seq<Pi>
      reads this
    {
      Flight(q6, InS2(s2), q5, InS1(s1), q4, fetch.q3)
    }

    ghost predicate Inv()
      reads this
    {
      && Sized(spec.t) && SpecOk(spec) && RepliesOk(q6, spec, out)
      && HistOk(spec.hist, spec.answered, InFlight(), front.q2, front.q1)
      && Reserved(table, InFlight(), Waiting(fetch))
      && FetchOk(fetch, spec.t.bram) && ComparedOk(q4, spec.t.bram)
      && WalkOk(s1, spec.t) && LookedOk(q5, spec.t)
      && MemOk(base, mem, s2, spec.t) && FillOk(s2, base, mem, spec.t) && AskOk(base, spec, s2)
    }

    constructor (b: nat)
      ensures Inv() && base == b && spec.hist == [] && front == Front([], [], [], []) && out == Output([], []) && spec.answers == []
    {
      var none := Forge(Request(0, 0, 0), 0);
      base := b;
      front := Front([], [], [], []);
      fetch := Fetch(RbIdle, 0, [], [], [], [], []);
      table := Table([], 0, []);
      q4, q5, q6 := [], [], [];
      s1 := Walker(S1Idle, none, 0, false, [], [], 0);
      s2 := Filler(S2Idle, none, ZERO, 0, [], NoBucket);
      mem := Memory(seq(64, _ => ZERO), map[]);
      out := Output([], []);
      spec := Spec([], [], [], InitialTables(), [], 0);
      new;
      InitialGood();
    }

    /** The environment: a request arrives on one of the two channels. */
    method Arrive(r: Request, channel: nat)
      requires Inv()
      modifies this`front
      ensures Inv()
      ensures front == if channel == READ_CHANNEL then old(front).(rdReq := old(front).rdReq + [r])
                       else old(front).(wrReq := old(front).wrReq + [r])
    {
      hide AskOk, HistOk, Reserved, FetchOk, ComparedOk, WalkOk, LookedOk, MemOk, FillOk, SpecOk, RepliesOk, Flight;
      front := if channel == READ_CHANNEL then front.(rdReq := front.rdReq + [r]) else front.(wrReq := front.wrReq + [r]);
    }

    /** remux: the read channel first */
    method Remux()
      requires Inv()
      modifies this`front, this`spec
      ensures Inv()
      ensures spec == old(spec).(hist := spec.hist)
      ensures Taken(old(front), old(spec.hist), spec.hist)
      ensures front == Remuxed(old(front))
    {
      hide AskOk, HistOk, Reserved, FetchOk, ComparedOk, WalkOk, LookedOk, MemOk, FillOk, SpecOk, Flight;
      var info;
      if front.rdReq != [] {
        info := Forge(front.rdReq[0], READ_CHANNEL);
        front := front.(rdReq := front.rdReq[1..]);
      } else if front.wrReq != [] {
        info := Forge(front.wrReq[0], WRITE_CHANNEL);
        front := front.(wrReq := front.wrReq[1..]);
      } else {
        return;
      }
      HistPush(spec.hist, spec.answered, InFlight(), front.q2, front.q1, info);
      SpecPush(spec, WithHash(info));
      AskPush(base, spec, s2, WithHash(info));
      front := front.(q1 := front.q1 + [info]);
      spec := spec.(hist := spec.hist + [WithHash(info)]);
    }

    method ComputeHash()
      requires Inv()
      modifies this`front
      ensures Inv()
      ensures var f := old(front);
        front == if f.q1 == [] then f else f.(q1 := f.q1[1..], q2 := f.q2 + [WithHash(f.q1[0])])
    {
      hide AskOk, HistOk, Reserved, FetchOk, ComparedOk, WalkOk, LookedOk, MemOk, FillOk, SpecOk, RepliesOk, Flight;
      if front.q1 == [] { return; }
      HistHash(spec.hist, spec.answered, InFlight(), front.q2, front.q1);
      front := front.(q1 := front.q1[1..], q2 := front.q2 + [WithHash(front.q1[0])]);
    }

    /** read_bram */
    method ReadBram()
      requires Inv()
      modifies this`front, this`fetch
      ensures Inv()
      ensures old(fetch.rb) == RbIdle && old(front.q2) != [] ==>
        front == old(front).(q2 := old(front.q2)[1..]) && fetch == Entered(old(fetch), old(front.q2)[0])
      ensures old(fetch.rb) == RbIdle && old(front.q2) == [] ==> front == old(front) && fetch == old(fetch)
      ensures old(fetch.rb) != RbIdle ==> front == old(front) && fetch == Answer(old(fetch))
    {
      hide AskOk, HistOk, Reserved, FetchOk, ComparedOk, WalkOk, LookedOk, MemOk, FillOk, SpecOk, RepliesOk, Flight, Answer, Entered;
      match fetch.rb
      case RbIdle => if front.q2 != [] { EnterReadBram(); }
      case RbCheck => AskReservation();
      case RbResp => if fetch.resvRes != [] { TakeAnswer(); } else { NoAnswer(fetch); }
    }

    method EnterReadBram()
      requires Inv() && fetch.rb == RbIdle && front.q2 != []
      modifies this`front, this`fetch
      ensures Inv()
      ensures front == old(front).(q2 := old(front.q2)[1..]) && fetch == Entered(old(fetch), old(front.q2)[0])
    {
      hide AskOk, HistOk, Reserved, ComparedOk, WalkOk, LookedOk, MemOk, FillOk, SpecOk, RepliesOk, Flight;
      var pi := front.q2[0];
      HistEnter(spec.hist, spec.answered, InFlight(), front.q2, front.q1);
      ReservedEnter(table, InFlight(), pi);
      FlightPush(q6, InS2(s2), q5, InS1(s1), q4, fetch.q3, pi);
      front := front.(q2 := front.q2[1..]);
      fetch := fetch.(q3 := fetch.q3 + [pi], index := BramIndex(pi), rb := RbCheck);
    }

    method AskReservation()
      requires Inv() && fetch.rb == RbCheck
      modifies this`fetch
      ensures Inv() && fetch == Answer(old(fetch))
    {
      hide AskOk, HistOk, Reserved, ComparedOk, WalkOk, LookedOk, MemOk, FillOk, SpecOk, RepliesOk, Flight;
      fetch := fetch.(resvReq := fetch.resvReq + [fetch.index], rb := RbResp);
    }

    method TakeAnswer()
      requires Inv() && fetch.rb == RbResp && fetch.resvRes != []
      modifies this`fetch
      ensures Inv() && fetch == Answer(old(fetch))
    {
      hide AskOk, HistOk, Reserved, ComparedOk, WalkOk, LookedOk, MemOk, FillOk, SpecOk, RepliesOk, Flight;
      if fetch.resvRes[0] != RESV_SUCCESS {
        fetch := fetch.(resvRes := fetch.resvRes[1..], rb := RbCheck);
      } else {
        fetch := fetch.(resvRes := fetch.resvRes[1..], rb := RbIdle, cmd := fetch.cmd + [fetch.index]);
      }
    }

    /** address_reservation_table */
    method ReservationTable()
      requires Inv()
      modifies this`table, this`fetch
      ensures Inv()
      ensures var popped := if old(table.pops) > 0 then Popped(old(table)) else old(table);
        table == Granted(popped, old(fetch)) && fetch == Told(popped, old(fetch))
    {
      hide AskOk, HistOk, Reserved, FetchOk, ComparedOk, WalkOk, LookedOk, MemOk, FillOk, SpecOk, RepliesOk, Flight, Popped;
      if table.pops > 0 { PopEntry(); }
      if fetch.resvReq != [] { ReserveEntry(); }
    }

    method PopEntry()
      requires Inv() && table.pops > 0
      modifies this`table
      ensures Inv() && table == Popped(old(table))
    {
      hide AskOk, HistOk, FetchOk, ComparedOk, WalkOk, LookedOk, MemOk, FillOk, SpecOk, RepliesOk, Flight;
      ReservedPop(table, InFlight(), Waiting(fetch));
      table := Popped(table);
    }

    method ReserveEntry()
      requires Inv() && fetch.resvReq != []
      modifies this`table, this`fetch
      ensures Inv() && table == Granted(old(table), old(fetch)) && fetch == Told(old(table), old(fetch))
    {
      hide AskOk, HistOk, ComparedOk, WalkOk, LookedOk, MemOk, FillOk, SpecOk, RepliesOk, Flight;
      FlightLast(q6, InS2(s2), q5, InS1(s1), q4, fetch.q3);
      var r := Reserve(table.resv, fetch.resvReq[0]);
      if r.1 == RESV_SUCCESS { ReservedGrant(table, InFlight()); }
      table := table.(resv := r.0);
      fetch := fetch.(resvReq := fetch.resvReq[1..], resvRes := fetch.resvRes + [r.1]);
      assert fetch.resvRes == [r.1];
    }

    /** BRAM answers its oldest read. */
    method ServeBram()
      requires Inv()
      modifies this`fetch
      ensures Inv()
      ensures old(fetch.cmd) != [] ==>
        fetch == old(fetch).(cmd := old(fetch.cmd)[1..], data := fetch.data) && |fetch.data| == |old(fetch.data)| + 1
    {
      hide AskOk, HistOk, ComparedOk, WalkOk, LookedOk, FillOk, SpecOk, RepliesOk, Flight, Reserved, FetchOk;
      if fetch.cmd == [] { return; }
      FetchIndex(fetch, spec.t.bram);
      if s2.state != S2Idle {
        FetchReserved(fetch, spec.t.bram);
        AllClear(table, Waiting(fetch), q6, s2.pi, q5, InS1(s1), q4, fetch.q3, |fetch.data| + |fetch.cmd|);
      }
      FetchServe(fetch, spec.t.bram);
      fetch := fetch.(cmd := fetch.cmd[1..], data := fetch.data + [mem.bram[fetch.cmd[0]]]);
    }

    /** compare_bram */
    method CompareStage()
      requires Inv()
      modifies this`fetch, this`q4
      ensures Inv()
      ensures old(fetch.q3) != [] && old(fetch.data) != [] ==>
        && fetch == old(fetch).(q3 := old(fetch.q3)[1..], data := old(fetch.data)[1..])
        && q4 == old(q4) + [CompareBram(old(fetch.q3)[0], old(fetch.data)[0])]
    {
      hide AskOk, HistOk, WalkOk, LookedOk, MemOk, FillOk, SpecOk, RepliesOk, Flight, Reserved, FetchOk, CompareBram, ComparedOk;
      if fetch.q3 == [] || fetch.data == [] { return; }
      var pi := CompareBram(fetch.q3[0], fetch.data[0]);
      FlightOrigins(spec.hist, spec.answered, q6, InS2(s2), q5, InS1(s1), q4, fetch.q3, front.q2, front.q1);
      FlightCompare(q6, InS2(s2), q5, InS1(s1), q4, fetch.q3, pi);
      FetchTake(fetch, spec.t.bram);
      ComparedPush(q4, spec.t.bram, pi);
      fetch := fetch.(q3 := fetch.q3[1..], data := fetch.data[1..]);
      q4 := q4 + [pi];
    }

    /** fill_S1 */
    method FillS1()
      requires Inv()
      modifies this`q4, this`s1, this`q5
      ensures Inv()
      ensures WalkMoves(old(q4), old(s1), old(q5), q4, s1, q5)
    {
      hide AskOk, HistOk, Reserved, FetchOk, ComparedOk, WalkOk, LookedOk, MemOk, FillOk, SpecOk, RepliesOk, Flight, Started, Sent, Stepped;
      match s1.state
      case S1Idle => if q4 != [] { StartWalk(); }
      case S1Send => SendWalk();
      case S1Read => if s1.data != [] { StepWalk(); }
    }

    method StartWalk()
      requires Inv() && s1.state == S1Idle && q4 != []
      modifies this`q4, this`s1, this`q5
      ensures Inv() && q4 == old(q4)[1..] && Started(old(s1), old(q5), old(q4)[0], s1, q5)
    {
      hide AskOk, HistOk, MemOk, FillOk, SpecOk, RepliesOk, Flight, Reserved, FetchOk, CompareBram, ComparedOk, LookedOk, WalkOk, Walk;
      var pi := q4[0];
      FlightStart(q6, InS2(s2), q5, q4, fetch.q3);
      ComparedTake(q4, spec.t);
      if Answered(pi) {
        LookedPush(q5, spec.t, pi);
        q5 := q5 + [pi];
      } else {
        WalkStart(s1, spec, pi);
        s1 := Walker(S1Send, pi, Head(pi), false, s1.cmd, s1.data, 0);
      }
      q4 := q4[1..];
    }

    method SendWalk()
      requires Inv() && s1.state == S1Send
      modifies this`s1
      ensures Inv() && s1 == Sent(old(s1))
    {
      hide AskOk, HistOk, MemOk, FillOk, SpecOk, RepliesOk, Flight, Reserved, FetchOk, ComparedOk, LookedOk, Walk, Looked;
      s1 := Sent(s1);
    }

    /** DRAM answers fill_S1's read. */
    method ServeDram()
      requires Inv()
      modifies this`s1
      ensures Inv()
      ensures old(s1.cmd) != [] ==>
        s1 == old(s1).(cmd := old(s1.cmd)[1..], data := old(s1.data) + [Mem(mem.dram, DmAddr(base, old(s1.cmd)[0]))])
    {
      hide AskOk, HistOk, FillOk, SpecOk, RepliesOk, Flight, Reserved, FetchOk, ComparedOk, LookedOk, Walk, Looked;
      if s1.cmd == [] { return; }
      assert 0 <= Head(s1.pi) < |spec.t.chains|;
      s1 := s1.(cmd := s1.cmd[1..], data := s1.data + [Mem(mem.dram, DmAddr(base, s1.cmd[0]))]);
    }

    method StepWalk()
      requires Inv() && s1.state == S1Read && s1.data != []
      modifies this`s1, this`q5
      ensures Inv() && Stepped(old(s1), old(q5), s1, q5)
    {
      hide AskOk, HistOk, MemOk, FillOk, SpecOk, RepliesOk, Flight, Reserved, FetchOk, ComparedOk, LookedOk, WalkOk, Walk, S1Step;
      WalkData(s1, spec.t);
      var r := S1Step(s1.pi, s1.found, s1.addr, s1.data[0]);
      WalkStep(s1, spec);
      if r.done {
        FlightDone(q6, InS2(s2), q5, s1.pi, r.pi, q4, fetch.q3);
        LookedPush(q5, spec.t, r.pi);
        q5 := q5 + [r.pi];
        s1 := s1.(state := S1Idle, pi := r.pi, found := r.found, data := []);
      } else {
        FlightSame(q6, InS2(s2), q5, s1.pi, r.pi, q4, fetch.q3);
        s1 := Walker(S1Send, r.pi, r.next, r.found, s1.cmd, s1.data[1..], s1.pos + 1);
      }
    }

    /** fill_S2 */
    method FillS2()
      requires Inv()
      modifies this`q5, this`s2, this`q6, this`mem, this`spec
      ensures Inv() && spec.hist == old(spec.hist) && spec.answers == old(spec.answers)
      ensures FillMoves(base, old(q5), old(s2), old(q6), q5, s2, q6)
    {
      hide AskOk, HistOk, Reserved, FetchOk, ComparedOk, WalkOk, LookedOk, MemOk, FillOk, SpecOk, RepliesOk, Flight, Begun, OneMore;
      match s2.state
      case S2Idle =>
        if q5 != [] {
          if q5[0].op == SET { BeginSet(); } else { PassOn(); }
        }
      case S2Recv =>
        if s2.ret != [] {
          if s2.ret[0].AllocOk? { TakeBucket(s2.ret[0].addr); } else { GiveUp(); }
        }
      case S2Write => WriteBack();
    }

    /** A SET writes BRAM, and then either needs a new DRAM bucket or has its slot. */
    method BeginSet()
      requires Inv() && s2.state == S2Idle && q5 != [] && q5[0].op == SET
      modifies this`q5, this`s2, this`mem
      ensures Inv() && q5 == old(q5)[1..] && Begun(old(q5)[0], s2)
    {
      hide AskOk, HistOk, SpecOk, RepliesOk, Flight, Reserved, FetchOk, ComparedOk, WalkOk, LookedOk, MemOk, FillOk, Looked;
      var pi := q5[0];
      LookedTake(q5, spec.t);
      AskIdle(base, spec, s2);
      var hb := BramAfterSet(pi);
      FlightFill(q6, q5, pi.(hbBram := hb), InS1(s1), q4, fetch.q3);
      BeginWork(base, mem, s2, spec.t, pi);
      mem := mem.(bram := mem.bram[BramIndex(pi) := hb]);
      if pi.slotDram == -1 {
        s2 := Filler(S2Recv, pi.(hbBram := hb), NewBucket(pi), s2.asked + 1, s2.ret, s2.out);
      } else {
        FlightFill(q6, q5, pi.(hbBram := hb, hbDram := DramAfterSet(pi)), InS1(s1), q4, fetch.q3);
        s2 := s2.(state := S2Write, pi := pi.(hbBram := hb, hbDram := DramAfterSet(pi)), out := NoBucket);
      }
      q5 := q5[1..];
    }

    /** Everything but a SET is done at once, a GET perhaps after refilling BRAM. */
    method PassOn()
      requires Inv() && s2.state == S2Idle && q5 != [] && q5[0].op != SET
      modifies this`q5, this`q6, this`mem, this`spec
      ensures Inv() && spec.hist == old(spec.hist) && spec.answers == old(spec.answers) && q5 == old(q5)[1..] && OneMore(old(q6), q6)
    {
      hide AskOk, HistOk, SpecOk, RepliesOk, Flight, Reserved, FetchOk, ComparedOk, WalkOk, LookedOk, MemOk, FillOk, Looked, Exec;
      var pi := q5[0];
      LookedTake(q5, spec.t);
      var done := pi;
      if Refills(pi) {
        done := pi.(hbBram := BramAfterRefill(pi));
      }
      FinishPass(done);
      PassMem(base, mem, s2, spec.t, pi);
      if Refills(pi) {
        mem := mem.(bram := mem.bram[BramIndex(pi) := BramAfterRefill(pi)]);
      }
      q5 := q5[1..];
      q6 := q6 + [done];
      spec := Committed(spec, Origin(pi), NoBucket);
    }

    /** Finishing it leaves everything behind it untouched, and its reply is the one-at-a-time one. */
    lemma FinishPass(done: Pi)
      requires Inv() && s2.state == S2Idle && q5 != [] && q5[0].op != SET
      requires done == if Refills(q5[0]) then q5[0].(hbBram := BramAfterRefill(q5[0])) else q5[0]
      ensures q5[0] == Looked(spec.t, Origin(q5[0]))
      ensures Flight(q6 + [done], InS2(s2), q5[1..], InS1(s1), q4, fetch.q3) == InFlight()
      ensures var spec' := Committed(spec, Origin(q5[0]), NoBucket);
        && Hashed(Origin(q5[0])) && Sized(spec'.t) && SpecOk(spec') && RepliesOk(q6 + [done], spec', out) && AskOk(base, spec', s2)
        && FetchOk(fetch, spec'.t.bram) && ComparedOk(q4, spec'.t.bram) && WalkOk(s1, spec'.t) && LookedOk(q5[1..], spec'.t)
    {
      hide AskOk, HistOk, SpecOk, RepliesOk, Flight, Reserved, FetchOk, ComparedOk, WalkOk, LookedOk, MemOk, FillOk, Looked, Exec;
      var pi := q5[0];
      LookedTake(q5, spec.t);
      FlightFill(q6, q5, done, InS1(s1), q4, fetch.q3);
      FlightOut(q6, done, q5[1..], InS1(s1), q4, fetch.q3);
      NextInLine(spec.hist, spec.answered, q6, done, q5[1..], InS1(s1), q4, fetch.q3, front.q2, front.q1);
      ReplyNext(q6, spec, out, done, NoBucket);
      AskPass(base, spec, s2, pi);
      CommitSpec(spec, Origin(pi), NoBucket);
      FetchReserved(fetch, spec.t.bram);
      AllClear(table, Waiting(fetch), q6, done, q5[1..], InS1(s1), q4, fetch.q3, |fetch.data| + |fetch.cmd|);
      CommitOthers(spec.t, Origin(pi), NoBucket, q5[1..], s1, q4, fetch);
    }

    /** The allocator's answer: any fresh aligned bucket, or failure. */
    method ServeAlloc(ret: AllocRet)
      requires Inv() && RetOk(base, ret, spec.t.chains)
      modifies this`s2, this`spec
      ensures Inv()
      ensures old(s2.asked) == 0 ==> s2 == old(s2) && spec == old(spec)
      ensures old(s2.asked) > 0 ==> spec == old(spec).(answers := old(spec.answers) + [ret]) && s2 == old(s2).(asked := old(s2.asked) - 1, ret := old(s2.ret) + [ret])
    {
      hide AskOk, HistOk, SpecOk, RepliesOk, Flight, Reserved, FetchOk, ComparedOk, WalkOk, LookedOk, Looked, RetOk;
      if s2.asked == 0 { return; }
      AskNothing(s2, base, mem, spec.t);
      AskServed(base, spec, s2, ret);
      SpecServed(spec, ret);
      RepliesServed(q6, spec, out, ret);
      spec := spec.(answers := spec.answers + [ret]);
      s2 := s2.(asked := s2.asked - 1, ret := s2.ret + [ret]);
    }

    /** ALLOC_RECV_RET, success: the new bucket is written before anything points to it. */
    method TakeBucket(addr: nat)
      requires Inv() && s2.state == S2Recv && s2.ret != [] && s2.ret[0] == AllocOk(addr)
      modifies this`s2, this`mem
      ensures Inv() && s2.state == S2Write && s2.out == NewAt(ChainPointer(base, addr))
    {
      hide AskOk, HistOk, SpecOk, RepliesOk, Flight, Reserved, FetchOk, ComparedOk, WalkOk, LookedOk, FillOk, MemOk, Looked;
      var pi := s2.pi.(hbDram := s2.pi.hbDram.(chained := true, next := ChainPointer(base, addr)));
      FlightFillSame(q6, s2.pi, pi, q5, InS1(s1), q4, fetch.q3);
      NewBucketWork(base, mem, s2, spec, addr);
      AskTaken(base, spec, s2, addr);
      mem := mem.(dram := mem.dram[DmAddr(base, AllocTrans(base, addr)) := s2.newHb]);
      s2 := s2.(state := S2Write, pi := pi, ret := s2.ret[1..], out := NewAt(ChainPointer(base, addr)));
    }

    /** ALLOC_RECV_RET, failure: the SET is answered as failed, though BRAM has the pair. */
    method GiveUp()
      requires Inv() && s2.state == S2Recv && s2.ret != [] && s2.ret[0].AllocFail?
      modifies this`s2, this`q6, this`spec
      ensures Inv() && spec.hist == old(spec.hist) && spec.answers == old(spec.answers) && OneMore(old(q6), q6) && s2.state == S2Idle
    {
      hide AskOk, HistOk, SpecOk, RepliesOk, Flight, Reserved, FetchOk, ComparedOk, WalkOk, LookedOk, FillOk, MemOk, Looked, Exec;
      var pi := s2.pi.(status := FAILURE);
      FlightFillSame(q6, s2.pi, pi, q5, InS1(s1), q4, fetch.q3);
      FillStatus(base, mem, s2, spec.t);
      AskRefused(base, spec, s2);
      FinishSet(NoBucket, pi);
      GiveUpMem(base, mem, s2, spec.t);
      q6 := q6 + [pi];
      spec := Committed(spec, Origin(pi), NoBucket);
      s2 := s2.(state := S2Idle, ret := s2.ret[1..], pi := pi);
    }

    /** ALLOC_WRITE_DATA */
    method WriteBack()
      requires Inv() && s2.state == S2Write
      modifies this`s2, this`q6, this`mem, this`spec
      ensures Inv() && spec.hist == old(spec.hist) && spec.answers == old(spec.answers) && OneMore(old(q6), q6) && s2.state == S2Idle
    {
      hide AskOk, HistOk, SpecOk, RepliesOk, Flight, Reserved, FetchOk, ComparedOk, WalkOk, LookedOk, FillOk, MemOk, Looked, Exec;
      var pi := s2.pi.(status := SUCCEED);
      FlightFillSame(q6, s2.pi, pi, q5, InS1(s1), q4, fetch.q3);
      FillStatus(base, mem, s2, spec.t);
      FinishSet(s2.out, pi);
      WriteMem(base, mem, s2, spec);
      mem := mem.(dram := mem.dram[DmAddr(base, pi.hbDramAddr) := pi.hbDram]);
      q6 := q6 + [pi];
      spec := Committed(spec, Origin(pi), s2.out);
      s2 := s2.(state := S2Idle, pi := pi);
    }

    /** Finishing a SET leaves everything behind it untouched, and its reply is the one-at-a-time one. */
    lemma FinishSet(o: Outcome, pi: Pi)
      requires Inv() && s2.state != S2Idle && Origin(pi) == Origin(s2.pi)
      requires var p := Looked(spec.t, Origin(s2.pi));
        && pi == s2.pi.(status := StatusAfter(p, o))
        && (if s2.state == S2Write then o == s2.out else s2.ret == [AllocFail] && o == NoBucket)
      ensures Flight(q6 + [pi], [], q5, InS1(s1), q4, fetch.q3) == InFlight()
      ensures Hashed(Origin(pi)) && Sized(Committed(spec, Origin(pi), o).t) && SpecOk(Committed(spec, Origin(pi), o))
      ensures RepliesOk(q6 + [pi], Committed(spec, Origin(pi), o), out)
      ensures forall g: Filler :: !Pending(g) ==> AskOk(base, Committed(spec, Origin(pi), o), g)
      ensures var t := Committed(spec, Origin(pi), o).t;
        FetchOk(fetch, t.bram) && ComparedOk(q4, t.bram) && WalkOk(s1, t) && LookedOk(q5, t)
    {
      hide AskOk, HistOk, SpecOk, RepliesOk, Flight, Reserved, FetchOk, ComparedOk, WalkOk, LookedOk, MemOk, Looked, Exec;
      FlightFillSame(q6, s2.pi, pi, q5, InS1(s1), q4, fetch.q3);
      FlightOut(q6, pi, q5, InS1(s1), q4, fetch.q3);
      NextInLine(spec.hist, spec.answered, q6, pi, q5, InS1(s1), q4, fetch.q3, front.q2, front.q1);
      ReplyNext(q6, spec, out, pi, o);
      AskNext(base, mem, spec, s2, o);
      CommitSpec(spec, Origin(pi), o);
      FetchReserved(fetch, spec.t.bram);
      AllClear(table, Waiting(fetch), q6, pi, q5, InS1(s1), q4, fetch.q3, |fetch.data| + |fetch.cmd|);
      CommitOthers(spec.t, Origin(pi), o, q5, s1, q4, fetch);
    }

    /** demux */
    method Demux()
      requires Inv()
      modifies this`q6, this`table, this`out, this`spec
      ensures Inv()
      ensures spec == old(spec).(answered := spec.answered)
      ensures old(q6) != [] ==>
        q6 == old(q6)[1..] && table == old(table).(pops := old(table.pops) + 1, tail := old(table.tail) + [BramIndex(old(q6)[0])])
    {
      hide AskOk, SpecOk, Flight, FetchOk, ComparedOk, WalkOk, LookedOk, FillOk, MemOk, HistOk, Reserved, RepliesOk;
      if q6 == [] { return; }
      var pi := q6[0];
      ghost var rest := Flight(q6[1..], InS2(s2), q5, InS1(s1), q4, fetch.q3);
      FlightLeave(q6, InS2(s2), q5, InS1(s1), q4, fetch.q3);
      HistLeave(spec.hist, spec.answered, Origin(pi), rest, front.q2, front.q1);
      FetchReserved(fetch, spec.t.bram);
      ReservedLeave(table, Origin(pi), rest, Waiting(fetch));
      var reply := ReplyOf(pi);
      RepliesLeave(q6, spec, out);
      SpecAnswered(spec);
      AskAnswered(base, spec, s2);
      table := table.(pops := table.pops + 1, tail := table.tail + [BramIndex(pi)]);
      if pi.channel == READ_CHANNEL {
        out := out.(rd := out.rd + [reply]);
      } else if pi.channel == WRITE_CHANNEL {
        out := out.(wr := out.wr + [reply]);
      }
      q6 := q6[1..];
      spec := spec.(answered := spec.answered + 1);
    }
  }

  // ---------- what one call does to its stage's registers and FIFOs

  function Remuxed(f: Front): Front
  {
    if f.rdReq != [] then f.(rdReq := f.rdReq[1..], q1 := f.q1 + [Forge(f.rdReq[0], READ_CHANNEL)])
    else if f.wrReq != [] then f.(wrReq := f.wrReq[1..], q1 := f.q1 + [Forge(f.wrReq[0], WRITE_CHANNEL)])
    else f
  }

  function Entered(f: Fetch, pi: Pi): Fetch
  {
    f.(q3 := f.q3 + [pi], index := BramIndex(pi), rb := RbCheck)
  }

  /** read_bram, past its idle state */
  function Answer(f: Fetch): Fetch
  {
    if f.rb == RbCheck then f.(resvReq := f.resvReq + [f.index], rb := RbResp)
    else if f.resvRes == [] then f
    else if f.resvRes[0] != RESV_SUCCESS then f.(resvRes := f.resvRes[1..], rb := RbCheck)
    else f.(resvRes := f.resvRes[1..], rb := RbIdle, cmd := f.cmd + [f.index])
  }

  lemma NoAnswer(f: Fetch)
    requires f.rb == RbResp && f.resvRes == []
    ensures Answer(f) == f
  {
  }

  function Popped(table: Table): Table
  {
    Table(if table.resv == [] then [] else table.resv[1..], if table.pops == 0 then 0 else table.pops - 1,
          if table.tail == [] then [] else table.tail[1..])
  }

  function Granted(table: Table, f: Fetch): Table
  {
    if f.resvReq == [] then table else table.(resv := Reserve(table.resv, f.resvReq[0]).0)
  }

  function Told(table: Table, f: Fetch): Fetch
  {
    if f.resvReq == [] then f
    else f.(resvReq := f.resvReq[1..], resvRes := f.resvRes + [Reserve(table.resv, f.resvReq[0]).1])
  }

  /** fill_S1 took `pi`: straight on, or to the start of its chain. */
  ghost predicate Started(w: Walker, q5: seq<Pi>, pi: Pi, w': Walker, q5': seq<Pi>)
  {
    if Answered(pi) then w' == w && q5' == q5 + [pi]
    else w' == Walker(S1Send, pi, Head(pi), false, w.cmd, w.data, 0) && q5' == q5
  }

  function Sent(w: Walker): Walker
  {
    w.(state := S1Read, cmd := w.cmd + [w.addr])
  }

  /** fill_S1 looked at one bucket: it is done, or one bucket further. */
  ghost predicate Stepped(w: Walker, q5: seq<Pi>, w': Walker, q5': seq<Pi>)
  {
    if w'.state == S1Idle then |q5'| == |q5| + 1 && q5' == q5 + [w'.pi]
    else w'.state == S1Send && w'.pos == w.pos + 1 && Origin(w'.pi) == Origin(w.pi) && q5' == q5
  }

  /** fill_S2 took a SET: it waits for a bucket, or goes on to write. */
  ghost predicate Begun(pi: Pi, f: Filler)
  {
    if pi.slotDram == -1 then f.state == S2Recv && f.asked == 1 && f.ret == [] else f.state == S2Write
  }

  /** A call of fill_S1 */
  ghost predicate WalkMoves(q4: seq<Pi>, w: Walker, q5: seq<Pi>, q4': seq<Pi>, w': Walker, q5': seq<Pi>)
  {
    match w.state
    case S1Idle => q4 != [] ==> q4' == q4[1..] && Started(w, q5, q4[0], w', q5')
    case S1Send => q4' == q4 && q5' == q5 && w' == Sent(w)
    case S1Read => w.data != [] ==> q4' == q4 && Stepped(w, q5, w', q5')
  }

  /** A call of fill_S2 */
  ghost predicate FillMoves(base: nat, q5: seq<Pi>, f: Filler, q6: seq<Pi>, q5': seq<Pi>, f': Filler, q6': seq<Pi>)
  {
    match f.state
    case S2Idle =>
      q5 != [] ==> q5' == q5[1..] && if q5[0].op == SET then q6' == q6 && Begun(q5[0], f') else OneMore(q6, q6') && f' == f
    case S2Recv =>
      f.ret != [] ==> q5' == q5 && if f.ret[0].AllocOk? then q6' == q6 && f'.state == S2Write && f'.out == OutcomeOf(base, f.ret[0]) else OneMore(q6, q6') && f'.state == S2Idle
    case S2Write => q5' == q5 && OneMore(q6, q6') && f'.state == S2Idle
  }

  ghost predicate OneMore(q: seq<Pi>, q': seq<Pi>)
  {
    |q'| == |q| + 1 && q'[..|q|] == q
  }

  // ---------- positions in flight

  lemma FlightParts(q6: seq<Pi>, s2: seq<Pi>, q5: seq<Pi>, s1: seq<Pi>, q4: seq<Pi>, q3: seq<Pi>)
    ensures var f := Flight(q6, s2, q5, s1, q4, q3);
      var a := |q6|; var b := a + |s2|; var c := b + |q5|; var d := c + |s1|; var e := d + |q4|;
      && |f| == e + |q3|
      && (forall i :: 0 <= i < |q6| ==> f[i] == Origin(q6[i]))
      && (|s2| == 1 ==> f[a] == Origin(s2[0]))
      && (forall i :: 0 <= i < |q5| ==> f[b + i] == Origin(q5[i]))
      && (|s1| == 1 ==> f[c] == Origin(s1[0]))
      && (forall i :: 0 <= i < |q4| ==> f[d + i] == Origin(q4[i]))
      && (forall i :: 0 <= i < |q3| ==> f[e + i] == q3[i])
  {
  }

  /** Two reserved flight members never share a BRAM index. */
  lemma FlightApart(table: Table, flight: seq<Pi>, waiting: bool, i: nat, j: nat)
    requires Reserved(table, flight, waiting) && i != j
    requires i < |flight| && j < |flight| && (waiting ==> i < |flight| - 1 && j < |flight| - 1)
    ensures BramIndex(flight[i]) != BramIndex(flight[j])
  {
    var n := |table.tail|;
    assert table.resv[n + i] == BramIndex(flight[i]) && table.resv[n + j] == BramIndex(flight[j]);
  }

  /** Everything reserved behind request x has another BRAM index; n says how much of PI_1 is reserved. */
  ghost predicate Clear(x: Pi, q5: seq<Pi>, s1: seq<Pi>, q4: seq<Pi>, q3: seq<Pi>, n: nat)
    requires n <= |q3|
  {
    && (forall i :: 0 <= i < |q5| ==> BramIndex(q5[i]) != BramIndex(x))
    && (|s1| == 1 ==> BramIndex(s1[0]) != BramIndex(x))
    && (forall i :: 0 <= i < |q4| ==> BramIndex(q4[i]) != BramIndex(x))
    && (forall i :: 0 <= i < n ==> BramIndex(q3[i]) != BramIndex(x))
  }

  lemma AllClear(table: Table, waiting: bool, q6: seq<Pi>, x: Pi, q5: seq<Pi>, s1: seq<Pi>, q4: seq<Pi>, q3: seq<Pi>, n: nat)
    requires Reserved(table, Flight(q6, [x], q5, s1, q4, q3), waiting)
    requires n <= |q3| && (waiting ==> n < |q3|)
    ensures Clear(x, q5, s1, q4, q3, n)
  {
    var f := Flight(q6, [x], q5, s1, q4, q3);
    FlightParts(q6, [x], q5, s1, q4, q3);
    hide Flight, Reserved;
    var a := |q6|;
    var b := a + 1; var c := b + |q5|; var d := c + |s1|; var e := d + |q4|;
    forall i | 0 <= i < |q5| ensures BramIndex(q5[i]) != BramIndex(x) { FlightApart(table, f, waiting, a, b + i); }
    if |s1| == 1 { FlightApart(table, f, waiting, a, c); }
    forall i | 0 <= i < |q4| ensures BramIndex(q4[i]) != BramIndex(x) { FlightApart(table, f, waiting, a, d + i); }
    forall i | 0 <= i < n ensures BramIndex(q3[i]) != BramIndex(x) { FlightApart(table, f, waiting, a, e + i); }
  }

  // ---------- one lemma per kind of move

  lemma HistPush(hist: seq<Pi>, answered: nat, flight: seq<Pi>, q2: seq<Pi>, q1: seq<Pi>, info: Pi)
    requires HistOk(hist, answered, flight, q2, q1) && info == Origin(info)
    ensures HistOk(hist + [WithHash(info)], answered, flight, q2, q1 + [info])
  {
    var h := hist + [WithHash(info)];
    assert h[answered..] == hist[answered..] + [WithHash(info)];
    assert Hashes(q1 + [info]) == Hashes(q1) + [WithHash(info)];
  }

  lemma SpecPush(s: Spec, x: Pi)
    requires SpecOk(s)
    ensures SpecOk(s.(hist := s.hist + [x]))
  {
    assert (s.hist + [x])[..|s.outs|] == s.hist[..|s.outs|];
  }

  lemma AskPush(base: nat, s: Spec, f: Filler, x: Pi)
    requires AskOk(base, s, f)
    ensures AskOk(base, s.(hist := s.hist + [x]), f)
  {
    assert (s.hist + [x])[..|s.outs|] == s.hist[..|s.outs|];
  }

  lemma HistHash(hist: seq<Pi>, answered: nat, flight: seq<Pi>, q2: seq<Pi>, q1: seq<Pi>)
    requires HistOk(hist, answered, flight, q2, q1) && q1 != []
    ensures HistOk(hist, answered, flight, q2 + [WithHash(q1[0])], q1[1..])
  {
    assert Hashes(q1) == [WithHash(q1[0])] + Hashes(q1[1..]);
    assert flight + q2 + Hashes(q1) == flight + (q2 + [WithHash(q1[0])]) + Hashes(q1[1..]);
  }

  lemma FlightPush(q6: seq<Pi>, s2: seq<Pi>, q5: seq<Pi>, s1: seq<Pi>, q4: seq<Pi>, q3: seq<Pi>, x: Pi)
    ensures Flight(q6, s2, q5, s1, q4, q3 + [x]) == Flight(q6, s2, q5, s1, q4, q3) + [x]
  {
  }

  /** A request enters read_bram. */
  lemma HistEnter(hist: seq<Pi>, answered: nat, flight: seq<Pi>, q2: seq<Pi>, q1: seq<Pi>)
    requires HistOk(hist, answered, flight, q2, q1) && q2 != []
    ensures HistOk(hist, answered, flight + [q2[0]], q2[1..], q1)
  {
    assert flight + q2 == (flight + [q2[0]]) + q2[1..];
  }

  lemma ReservedEnter(table: Table, flight: seq<Pi>, x: Pi)
    requires Reserved(table, flight, false)
    ensures Reserved(table, flight + [x], true)
  {
    assert (flight + [x])[..|flight|] == flight;
  }

  lemma ReservedPop(table: Table, flight: seq<Pi>, waiting: bool)
    requires Reserved(table, flight, waiting) && table.pops > 0
    ensures table.resv != [] && table.tail != []
    ensures Reserved(Table(table.resv[1..], table.pops - 1, table.tail[1..]), flight, waiting)
  {
    var rest := Indices(if waiting then flight[..|flight| - 1] else flight);
    assert (table.tail + rest)[1..] == table.tail[1..] + rest;
  }

  lemma ReservedGrant(table: Table, flight: seq<Pi>)
    requires Reserved(table, flight, true)
    requires Reserve(table.resv, BramIndex(flight[|flight| - 1])).1 == RESV_SUCCESS
    ensures Reserved(table.(resv := Reserve(table.resv, BramIndex(flight[|flight| - 1])).0), flight, false)
  {
    var n := |flight| - 1;
    assert Indices(flight) == Indices(flight[..n]) + [BramIndex(flight[n])];
  }

  lemma FlightLast(q6: seq<Pi>, s2: seq<Pi>, q5: seq<Pi>, s1: seq<Pi>, q4: seq<Pi>, q3: seq<Pi>)
    requires q3 != []
    ensures var f := Flight(q6, s2, q5, s1, q4, q3); f != [] && f[|f| - 1] == q3[|q3| - 1]
  {
  }

  lemma FetchIndex(f: Fetch, bram: seq<Bucket>)
    requires |bram| == 64 && FetchOk(f, bram) && f.cmd != []
    ensures |f.data| < |f.q3| && f.cmd[0] == BramIndex(f.q3[|f.data|]) < 64
  {
  }

  /** Everything whose BRAM read was issued is reserved. */
  lemma FetchReserved(f: Fetch, bram: seq<Bucket>)
    requires |bram| == 64 && FetchOk(f, bram)
    ensures |f.data| + |f.cmd| <= |f.q3| && (Waiting(f) ==> |f.data| + |f.cmd| < |f.q3|)
  {
  }

  lemma FetchServe(f: Fetch, bram: seq<Bucket>)
    requires |bram| == 64 && FetchOk(f, bram) && f.cmd != [] && f.cmd[0] < 64
    ensures FetchOk(f.(cmd := f.cmd[1..], data := f.data + [bram[f.cmd[0]]]), bram)
  {
  }

  lemma FetchTake(f: Fetch, bram: seq<Bucket>)
    requires |bram| == 64 && FetchOk(f, bram) && f.data != []
    ensures f.q3 != [] && f.data[0] == bram[BramIndex(f.q3[0])]
    ensures FetchOk(f.(q3 := f.q3[1..], data := f.data[1..]), bram)
  {
  }

  /** What waits in PI_1 is still as it came in. */
  lemma FlightOrigins(hist: seq<Pi>, answered: nat, q6: seq<Pi>, s2: seq<Pi>, q5: seq<Pi>, s1: seq<Pi>, q4: seq<Pi>, q3: seq<Pi>, q2: seq<Pi>, q1: seq<Pi>)
    requires HistOk(hist, answered, Flight(q6, s2, q5, s1, q4, q3), q2, q1)
    ensures forall i :: 0 <= i < |q3| ==> Hashed(q3[i])
  {
    var f := Flight(q6, s2, q5, s1, q4, q3);
    FlightParts(q6, s2, q5, s1, q4, q3);
    hide Flight;
    forall i | 0 <= i < |q3| ensures Hashed(q3[i]) {
      var n := |f| - |q3| + i;
      assert hist[answered..][n] == f[n] == q3[i];
      assert Hashed(hist[answered + n]);
    }
  }

  lemma OriginsPush(q: seq<Pi>, x: Pi)
    ensures Origins(q + [x]) == Origins(q) + [Origin(x)]
  {
  }

  lemma OriginsTake(q: seq<Pi>)
    requires q != []
    ensures Origins(q) == [Origin(q[0])] + Origins(q[1..])
  {
  }

  lemma FlightCompare(q6: seq<Pi>, s2: seq<Pi>, q5: seq<Pi>, s1: seq<Pi>, q4: seq<Pi>, q3: seq<Pi>, pi: Pi)
    requires q3 != [] && Origin(pi) == q3[0]
    ensures Flight(q6, s2, q5, s1, q4 + [pi], q3[1..]) == Flight(q6, s2, q5, s1, q4, q3)
  {
    OriginsPush(q4, pi);
    hide Origins;
    assert q3 == [q3[0]] + q3[1..];
    assert Origins(q6) + Origins(s2) + Origins(q5) + Origins(s1) + (Origins(q4) + [Origin(pi)]) + q3[1..]
        == Origins(q6) + Origins(s2) + Origins(q5) + Origins(s1) + Origins(q4) + ([q3[0]] + q3[1..]);
  }

  /** From the FIFO into fill_S1, or past it. */
  lemma FlightStart(q6: seq<Pi>, s2: seq<Pi>, q5: seq<Pi>, q4: seq<Pi>, q3: seq<Pi>)
    requires q4 != []
    ensures Flight(q6, s2, q5, [q4[0]], q4[1..], q3) == Flight(q6, s2, q5, [], q4, q3)
    ensures Flight(q6, s2, q5 + [q4[0]], [], q4[1..], q3) == Flight(q6, s2, q5, [], q4, q3)
  {
    OriginsTake(q4);
    OriginsPush(q5, q4[0]);
    OriginsPush([], q4[0]);
    assert [] + [q4[0]] == [q4[0]] && Origins([]) == [];
    hide Origins;
    var x, r := [Origin(q4[0])], Origins(q4[1..]);
    var a := Origins(q6) + Origins(s2) + Origins(q5);
    assert a + [] + (x + r) + q3 == a + x + r + q3;
    assert Origins(q6) + Origins(s2) + (Origins(q5) + x) + [] + r + q3 == a + x + r + q3;
  }

  lemma FlightDone(q6: seq<Pi>, s2: seq<Pi>, q5: seq<Pi>, x: Pi, y: Pi, q4: seq<Pi>, q3: seq<Pi>)
    requires Origin(x) == Origin(y)
    ensures Flight(q6, s2, q5 + [y], [], q4, q3) == Flight(q6, s2, q5, [x], q4, q3)
  {
    OriginsPush(q5, y);
    OriginsPush([], x);
    assert [] + [x] == [x] && Origins([]) == [];
    hide Origins;
    assert Origins(q6) + Origins(s2) + (Origins(q5) + [Origin(y)]) + [] + Origins(q4) + q3
        == Origins(q6) + Origins(s2) + Origins(q5) + [Origin(x)] + Origins(q4) + q3;
  }

  lemma FlightSame(q6: seq<Pi>, s2: seq<Pi>, q5: seq<Pi>, x: Pi, y: Pi, q4: seq<Pi>, q3: seq<Pi>)
    requires Origin(x) == Origin(y)
    ensures Flight(q6, s2, q5, [y], q4, q3) == Flight(q6, s2, q5, [x], q4, q3)
  {
    assert Origins([x]) == Origins([y]);
  }

  lemma ComparedPush(q4: seq<Pi>, bram: seq<Bucket>, pi: Pi)
    requires |bram| == 64 && ComparedOk(q4, bram) && pi == CompareBram(Origin(pi), bram[BramIndex(pi)])
    ensures ComparedOk(q4 + [pi], bram)
  {
    hide CompareBram;
  }

  lemma ComparedTake(q4: seq<Pi>, t: Tables)
    requires Sized(t) && ComparedOk(q4, t.bram) && q4 != []
    ensures ComparedOk(q4[1..], t.bram)
    ensures var pi := q4[0]; pi.slot < SLOTS && pi.slotDram == 0 && Looked(t, Origin(pi)) == AfterS1(pi, t.chains[Head(pi)])
  {
    hide Walk, CompareBram;
    assert q4[0] == CompareBram(Origin(q4[0]), t.bram[BramIndex(q4[0])]);
  }

  lemma LookedPush(q5: seq<Pi>, t: Tables, pi: Pi)
    requires Sized(t) && LookedOk(q5, t) && pi == Looked(t, Origin(pi))
    ensures LookedOk(q5 + [pi], t)
  {
    hide Looked;
  }

  lemma WalkStart(w: Walker, s: Spec, pi: Pi)
    requires Sized(s.t) && SpecOk(s) && WalkOk(w, s.t) && w.state == S1Idle
    requires pi.slot < SLOTS && pi.slotDram == 0 && !Answered(pi) && Looked(s.t, Origin(pi)) == AfterS1(pi, s.t.chains[Head(pi)])
    ensures WalkOk(Walker(S1Send, pi, Head(pi), false, w.cmd, w.data, 0), s.t)
  {
    hide Walk, RunAlone, AllocatorOk, Linked, DistinctAddrs, KeysOk;
    assert GoodChain(Head(pi), s.t.chains[Head(pi)]);
  }

  lemma WalkData(w: Walker, t: Tables)
    requires Sized(t) && WalkOk(w, t) && w.state == S1Read && w.data != []
    ensures -1 <= w.pi.slotDram < SLOTS && w.cmd == []
  {
    hide Walk, Looked;
  }

  /** One bucket further along the chain, or the end of the walk. */
  lemma WalkStep(w: Walker, s: Spec)
    requires Sized(s.t) && SpecOk(s) && WalkOk(w, s.t) && w.state == S1Read && w.data != []
    requires -1 <= w.pi.slotDram < SLOTS
    ensures var r := S1Step(w.pi, w.found, w.addr, w.data[0]);
      && Origin(r.pi) == Origin(w.pi)
      && (r.done ==> r.pi == Looked(s.t, Origin(r.pi)) && WalkOk(w.(state := S1Idle, pi := r.pi, found := r.found, data := []), s.t))
      && (!r.done ==> WalkOk(Walker(S1Send, r.pi, r.next, r.found, w.cmd, w.data[1..], w.pos + 1), s.t))
  {
    hide RunAlone, AllocatorOk, DistinctAddrs, KeysOk, Looked, S1Step;
    var links := s.t.chains[Head(w.pi)];
    assert GoodChain(Head(w.pi), links);
  }

  // ---------- fill_S2

  /** With no answer at hand the filler may begin, and wait. */
  lemma AskIdle(base: nat, s: Spec, f: Filler)
    requires AskOk(base, s, f) && !Pending(f)
    ensures forall g: Filler :: !Pending(g) ==> AskOk(base, s, g)
  {
    hide Plan;
  }

  lemma LookedTake(q5: seq<Pi>, t: Tables)
    requires Sized(t) && LookedOk(q5, t) && q5 != []
    ensures q5[0] == Looked(t, Origin(q5[0])) && -1 <= q5[0].slotDram < SLOTS && q5[0].slot < SLOTS
    ensures q5[0].op != SET ==> q5[0].slotDram >= 0
    ensures LookedOk(q5[1..], t)
  {
    hide AfterS1, CompareBram;
    assert Looked(t, Origin(q5[0])).slot < SLOTS;
  }

  /** From the FIFO into fill_S2. */
  lemma FlightFill(q6: seq<Pi>, q5: seq<Pi>, x: Pi, s1: seq<Pi>, q4: seq<Pi>, q3: seq<Pi>)
    requires q5 != [] && Origin(x) == Origin(q5[0])
    ensures Flight(q6, [x], q5[1..], s1, q4, q3) == Flight(q6, [], q5, s1, q4, q3)
  {
    OriginsTake(q5);
    OriginsPush([], x);
    assert [] + [x] == [x] && Origins([]) == [];
    hide Origins;
    assert Origins(q6) + [Origin(x)] + Origins(q5[1..]) == Origins(q6) + [] + ([Origin(q5[0])] + Origins(q5[1..]));
  }

  lemma FlightFillSame(q6: seq<Pi>, x: Pi, y: Pi, q5: seq<Pi>, s1: seq<Pi>, q4: seq<Pi>, q3: seq<Pi>)
    requires Origin(x) == Origin(y)
    ensures Flight(q6, [y], q5, s1, q4, q3) == Flight(q6, [x], q5, s1, q4, q3)
  {
    assert Origins([x]) == Origins([y]);
  }

  /** Out of fill_S2. */
  lemma FlightOut(q6: seq<Pi>, x: Pi, q5: seq<Pi>, s1: seq<Pi>, q4: seq<Pi>, q3: seq<Pi>)
    ensures Flight(q6 + [x], [], q5, s1, q4, q3) == Flight(q6, [x], q5, s1, q4, q3)
  {
    OriginsPush(q6, x);
    OriginsPush([], x);
    assert [] + [x] == [x] && Origins([]) == [];
    hide Origins;
    assert (Origins(q6) + [Origin(x)]) + [] == Origins(q6) + [Origin(x)];
  }

  /** The request in fill_S2 is the oldest one not finished. */
  lemma NextInLine(hist: seq<Pi>, answered: nat, q6: seq<Pi>, x: Pi, q5: seq<Pi>, s1: seq<Pi>, q4: seq<Pi>, q3: seq<Pi>, q2: seq<Pi>, q1: seq<Pi>)
    requires HistOk(hist, answered, Flight(q6, [x], q5, s1, q4, q3), q2, q1)
    ensures answered + |q6| < |hist| && hist[answered + |q6|] == Origin(x) && Hashed(Origin(x))
  {
    var f := Flight(q6, [x], q5, s1, q4, q3);
    FlightParts(q6, [x], q5, s1, q4, q3);
    hide Flight;
    assert hist[answered..][|q6|] == f[|q6|] == Origin(x);
    assert Hashed(hist[answered + |q6|]);
  }

  function Committed(s: Spec, o: Pi, out: Outcome): Spec
    requires Sized(s.t) && o == Origin(o)
  {
    var r := Exec(s.t, o, out);
    s.(outs := s.outs + [out], t := r.0, replies := s.replies + [r.1])
  }

  ghost predicate FreshIfUsed(t: Tables, o: Pi, out: Outcome)
    requires Sized(t) && o == Origin(o)
  {
    NeedsBucket(Looked(t, o)) && out.NewAt? ==> FreshBucket(t.chains, out.bucket)
  }

  lemma ExecKeepsChains(t: Tables, o: Pi, out: Outcome)
    requires Sized(t) && GoodChains(t.chains) && Hashed(o) && FreshIfUsed(t, o, out)
    ensures GoodChains(Exec(t, o, out).0.chains)
  {
    hide GoodChains, Looked;
    if BucketOk(t, o, out) {
      ExecChains(t, o, out);
    } else {
      assert Exec(t, o, out).0.chains == t.chains;
    }
  }

  /** Finishing the next request extends the one-at-a-time run by it. */
  lemma CommitSpec(s: Spec, o: Pi, out: Outcome)
    requires Sized(s.t) && SpecOk(s) && |s.outs| < |s.hist| && s.hist[|s.outs|] == o && Hashed(o)
    requires FreshIfUsed(s.t, o, out) && (AllocFail !in s.answers && NeedsBucket(Looked(s.t, o)) ==> out.NewAt?)
    ensures Sized(Committed(s, o, out).t) && SpecOk(Committed(s, o, out))
  {
    hide GoodChains, Looked, Exec, FreshBucket;
    var n := |s.outs|;
    var reqs, outs := s.hist[..n + 1], s.outs + [out];
    assert reqs[..n] == s.hist[..n] && outs[..n] == s.outs && reqs[n] == o;
    ExecKeepsChains(s.t, o, out);
    assert AllOrigins(reqs) by {
      forall i | 0 <= i < |reqs| ensures reqs[i] == Origin(reqs[i]) {
        if i < n { assert s.hist[..n][i] == reqs[i]; }
      }
    }
  }

  /** What fill_S2 hands to demux carries the one-at-a-time reply. */
  lemma ReplyNext(q6: seq<Pi>, s: Spec, out: Output, done: Pi, o: Outcome)
    requires Sized(s.t) && RepliesOk(q6, s, out)
    requires var p := Looked(s.t, Origin(done)); ReplyOf(done) == ReplyOf(p.(status := StatusAfter(p, o)))
    ensures |s.outs| == s.answered + |q6|
    ensures RepliesOk(q6 + [done], Committed(s, Origin(done), o), out)
  {
    hide Looked;
    var c := Committed(s, Origin(done), o);
    assert c.replies[..s.answered] == s.replies[..s.answered];
  }

  /** The BRAM index is the low part of the DRAM index. */
  lemma HeadIndex(pi: Pi)
    ensures Head(pi) % 64 == BramIndex(pi)
  {
  }

  /** A request changes its own BRAM bucket and its own chain only. */
  lemma ExecLocal(t: Tables, o: Pi, out: Outcome, x: Pi)
    requires Sized(t) && o == Origin(o) && BramIndex(x) != BramIndex(o)
    ensures var t' := Exec(t, o, out).0;
      && t'.bram[BramIndex(x)] == t.bram[BramIndex(x)] && t'.chains[Head(x)] == t.chains[Head(x)]
      && Looked(t', Origin(x)) == Looked(t, Origin(x))
  {
    hide AfterS1, CompareBram, ChainAfter, BramAfterSet, BramAfterRefill, ReplyOf, StatusAfter;
    HeadIndex(x);
    HeadIndex(o);
  }

  lemma CommitOthers(t: Tables, o: Pi, out: Outcome, q5: seq<Pi>, w: Walker, q4: seq<Pi>, f: Fetch)
    requires Sized(t) && o == Origin(o)
    requires FetchOk(f, t.bram) && ComparedOk(q4, t.bram) && WalkOk(w, t) && LookedOk(q5, t)
    requires |f.data| + |f.cmd| <= |f.q3| && Clear(o, q5, InS1(w), q4, f.q3, |f.data| + |f.cmd|)
    ensures var t' := Exec(t, o, out).0;
      FetchOk(f, t'.bram) && ComparedOk(q4, t'.bram) && WalkOk(w, t') && LookedOk(q5, t')
  {
    hide Exec, Looked, CompareBram, Walk;
    var t' := Exec(t, o, out).0;
    forall i | 0 <= i < |q5| ensures q5[i] == Looked(t', Origin(q5[i])) { ExecLocal(t, o, out, q5[i]); }
    forall i | 0 <= i < |q4| ensures q4[i] == CompareBram(Origin(q4[i]), t'.bram[BramIndex(q4[i])]) {
      ExecLocal(t, o, out, q4[i]);
    }
    forall i | 0 <= i < |f.data| ensures f.data[i] == t'.bram[BramIndex(f.q3[i])] { ExecLocal(t, o, out, f.q3[i]); }
    if w.state != S1Idle { ExecLocal(t, o, out, w.pi); }
  }

  /** A SET whose chain walk is over: BRAM is written, DRAM is not yet. */
  lemma BeginWork(base: nat, mem: Memory, f: Filler, t: Tables, pi: Pi)
    requires Sized(t) && MemOk(base, mem, f, t) && FillOk(f, base, mem, t) && f.state == S2Idle
    requires pi == Looked(t, Origin(pi)) && -1 <= pi.slotDram < SLOTS && pi.slot < SLOTS && pi.op == SET
    ensures f.asked == 0 && f.ret == [] && |mem.bram| == 64
    ensures var hb := BramAfterSet(pi);
      var mem' := mem.(bram := mem.bram[BramIndex(pi) := hb]);
      if pi.slotDram == -1 then
        var f' := Filler(S2Recv, pi.(hbBram := hb), NewBucket(pi), f.asked + 1, f.ret, f.out);
        MemOk(base, mem', f', t) && FillOk(f', base, mem', t)
      else
        var f' := f.(state := S2Write, pi := pi.(hbBram := hb, hbDram := DramAfterSet(pi)), out := NoBucket);
        MemOk(base, mem', f', t) && FillOk(f', base, mem', t)
  {
    hide Looked, DramHolds;
  }

  /** Anything but a SET: memory after it is the tables after it. */
  lemma PassMem(base: nat, mem: Memory, f: Filler, t: Tables, pi: Pi)
    requires Sized(t) && MemOk(base, mem, f, t) && FillOk(f, base, mem, t) && f.state == S2Idle
    requires pi == Looked(t, Origin(pi)) && 0 <= pi.slotDram < SLOTS && pi.op != SET
    ensures |mem.bram| == 64 && FreshIfUsed(t, Origin(pi), NoBucket)
    ensures var t' := Exec(t, Origin(pi), NoBucket).0;
      var mem' := if Refills(pi) then mem.(bram := mem.bram[BramIndex(pi) := BramAfterRefill(pi)]) else mem;
      MemOk(base, mem', f, t') && FillOk(f, base, mem', t')
  {
    hide Looked, DramHolds;
    assert Exec(t, Origin(pi), NoBucket).0.chains == t.chains;
  }

  lemma AskNothing(f: Filler, base: nat, mem: Memory, t: Tables)
    requires Sized(t) && |mem.bram| == 64 && FillOk(f, base, mem, t) && f.asked > 0
    ensures f.state == S2Recv && f.asked == 1 && f.ret == []
  {
    hide Looked;
  }

  /** Answers that no finished request reached make no difference to them. */
  lemma {:induction false} PlanMore(base: nat, reqs: seq<Pi>, answers: seq<AllocRet>, ret: AllocRet)
    requires AllOrigins(reqs) && Plan(base, reqs, answers).asked <= |answers|
    ensures Plan(base, reqs, answers + [ret]) == Plan(base, reqs, answers)
    decreases |reqs|
  {
    hide RunAlone, Looked, OutcomeOf;
    if reqs != [] { PlanMore(base, reqs[..|reqs| - 1], answers, ret); }
  }

  lemma AskServed(base: nat, s: Spec, f: Filler, ret: AllocRet)
    requires AskOk(base, s, f) && f.state == S2Recv && f.ret == []
    ensures f.asked == 1 ==> AskOk(base, s.(answers := s.answers + [ret]), f.(asked := f.asked - 1, ret := f.ret + [ret]))
  {
    hide Plan, AllOrigins;
    PlanMore(base, s.hist[..|s.outs|], s.answers, ret);
  }

  lemma SpecServed(s: Spec, ret: AllocRet)
    requires SpecOk(s)
    ensures SpecOk(s.(answers := s.answers + [ret]))
  {
    hide RunAlone, AllocatorOk, GoodChains;
  }

  lemma RepliesServed(q6: seq<Pi>, s: Spec, out: Output, ret: AllocRet)
    requires RepliesOk(q6, s, out)
    ensures RepliesOk(q6, s.(answers := s.answers + [ret]), out)
  {
    hide OnChannel;
  }

  /** Writing the new bucket disturbs no chain. */
  lemma NewBucketWork(base: nat, mem: Memory, f: Filler, s: Spec, addr: nat)
    requires Sized(s.t) && SpecOk(s) && MemOk(base, mem, f, s.t) && FillOk(f, base, mem, s.t)
    requires f.state == S2Recv && f.ret != [] && f.ret[0] == AllocOk(addr)
    ensures var mem' := mem.(dram := mem.dram[DmAddr(base, AllocTrans(base, addr)) := f.newHb]);
      var pi := f.pi.(hbDram := f.pi.hbDram.(chained := true, next := ChainPointer(base, addr)));
      var f' := f.(state := S2Write, pi := pi, ret := f.ret[1..], out := NewAt(ChainPointer(base, addr)));
      MemOk(base, mem', f', s.t) && FillOk(f', base, mem', s.t)
  {
    hide Looked, RunAlone, AllocatorOk, Linked, KeysOk, AllocTrans, ChainPointer, DmAddr;
    ChainPointerRoundTrip(base, addr);
    var n := ChainPointer(base, addr);
    forall h, i | 0 <= h < |s.t.chains| && 0 <= i < |s.t.chains[h]|
      ensures DmAddr(base, s.t.chains[h][i].addr) != addr
    {
      assert GoodChain(h, s.t.chains[h]);
      if DmAddr(base, s.t.chains[h][i].addr) == addr { DmAddrInjective(base, s.t.chains[h][i].addr, n); }
    }
  }

  lemma AskTaken(base: nat, s: Spec, f: Filler, addr: nat)
    requires AskOk(base, s, f) && f.state == S2Recv && f.ret != [] && f.ret[0] == AllocOk(addr)
    ensures forall pi :: AskOk(base, s, f.(state := S2Write, pi := pi, ret := f.ret[1..], out := NewAt(ChainPointer(base, addr))))
  {
    hide Plan;
  }

  /** Anything but a SET takes no answer. */
  lemma AskPass(base: nat, s: Spec, f: Filler, pi: Pi)
    requires Sized(s.t) && SpecOk(s) && AskOk(base, s, f) && f.state == S2Idle
    requires |s.outs| < |s.hist| && s.hist[|s.outs|] == Origin(pi) && pi.op != SET
    ensures !NeedsBucket(Looked(s.t, Origin(pi)))
    ensures AskOk(base, Committed(s, Origin(pi), NoBucket), f)
  {
    hide RunAlone, AllocatorOk, GoodChains, Exec, AfterS1, CompareBram;
    assert Origin(Looked(s.t, Origin(pi))) == Origin(pi);
    PlanNext(base, s, NoBucket);
  }

  lemma AskRefused(base: nat, s: Spec, f: Filler)
    requires AskOk(base, s, f) && f.state == S2Recv && f.ret != [] && f.ret[0].AllocFail?
    ensures f.ret == [AllocFail]
  {
    hide Plan;
  }

  /** What fill_S2 has decided for its request is what the answers give it. */
  lemma AskNext(base: nat, mem: Memory, s: Spec, f: Filler, out: Outcome)
    requires Sized(s.t) && SpecOk(s) && MemOk(base, mem, f, s.t) && FillOk(f, base, mem, s.t) && AskOk(base, s, f)
    requires (f.state == S2Write && out == f.out) || (f.state == S2Recv && f.ret == [AllocFail] && out == NoBucket)
    requires |s.outs| < |s.hist| && s.hist[|s.outs|] == Origin(f.pi)
    ensures AllocFail !in s.answers && NeedsBucket(Looked(s.t, Origin(f.pi))) ==> out.NewAt?
    ensures forall g: Filler :: !Pending(g) ==> AskOk(base, Committed(s, Origin(f.pi), out), g)
  {
    hide RunAlone, Looked, AllocatorOk, GoodChains, DramHolds, Exec;
    var plan := Plan(base, s.hist[..|s.outs|], s.answers);
    PlanNext(base, s, out);
  }

  /** Finishing the next request with the outcome planned for it. */
  lemma {:induction false} PlanNext(base: nat, s: Spec, out: Outcome)
    requires Sized(s.t) && SpecOk(s) && |s.outs| < |s.hist| && s.hist[|s.outs|] == Origin(s.hist[|s.outs|])
    requires s.outs == Plan(base, s.hist[..|s.outs|], s.answers).outs
    requires var k := Plan(base, s.hist[..|s.outs|], s.answers).asked;
      if NeedsBucket(Looked(s.t, s.hist[|s.outs|])) then k < |s.answers| && out == OutcomeOf(base, s.answers[k]) else out == NoBucket
    ensures AllOrigins(s.hist[..|s.outs| + 1])
    ensures var p, k := Plan(base, s.hist[..|s.outs| + 1], s.answers), Plan(base, s.hist[..|s.outs|], s.answers).asked;
      p == Planned(s.outs + [out], if NeedsBucket(Looked(s.t, s.hist[|s.outs|])) then k + 1 else k)
  {
    hide RunAlone, Looked, AllocatorOk, GoodChains, OutcomeOf;
    var n := |s.outs|;
    var reqs := s.hist[..n + 1];
    assert reqs[..n] == s.hist[..n] && reqs[n] == s.hist[n];
    assert AllOrigins(reqs) by {
      forall i | 0 <= i < |reqs| ensures reqs[i] == Origin(reqs[i]) {
        if i < n { assert s.hist[..n][i] == reqs[i]; }
      }
    }
  }

  lemma FillStatus(base: nat, mem: Memory, f: Filler, t: Tables)
    requires Sized(t) && MemOk(base, mem, f, t) && FillOk(f, base, mem, t)
    ensures var p := Looked(t, Origin(f.pi));
      && (f.state == S2Recv ==> StatusAfter(p, NoBucket) == FAILURE)
      && (f.state == S2Write ==> StatusAfter(p, f.out) == SUCCEED)
  {
    hide Looked;
  }

  /** A SET given up leaves the chains alone. */
  lemma GiveUpMem(base: nat, mem: Memory, f: Filler, t: Tables)
    requires Sized(t) && MemOk(base, mem, f, t) && FillOk(f, base, mem, t)
    requires f.state == S2Recv && f.ret != []
    ensures var t' := Exec(t, Origin(f.pi), NoBucket).0;
      var f' := f.(state := S2Idle, ret := f.ret[1..], pi := f.pi.(status := FAILURE));
      MemOk(base, mem, f', t') && FillOk(f', base, mem, t')
  {
    hide Looked, DramHolds;
    assert Exec(t, Origin(f.pi), NoBucket).0.chains == t.chains;
  }

  /** A SET aims at a bucket of its own chain. */
  lemma SetTarget(t: Tables, o: Pi) returns (j: nat)
    requires Sized(t) && GoodChains(t.chains) && o == Origin(o) && o.op == SET
    ensures j < |t.chains[Head(o)]| && Looked(t, o).hbDramAddr == t.chains[Head(o)][j].addr
  {
    hide CompareBram, S1Step, Walk, KeysOk;
    var links := t.chains[Head(o)];
    var p1 := CompareBram(o, t.bram[BramIndex(o)]);
    assert GoodChain(Head(o), links);
    var there, i, s := LookupWhere(links, o.input);
    if there {
      WalkHit(links, 0, p1, false, i);
      j := i;
    } else {
      j := WalkMiss(links, 0, p1, false);
    }
  }

  /** The last write of a SET makes memory the tables after it. */
  lemma WriteMem(base: nat, mem: Memory, f: Filler, s: Spec)
    requires Sized(s.t) && SpecOk(s) && MemOk(base, mem, f, s.t) && FillOk(f, base, mem, s.t) && f.state == S2Write
    ensures var t' := Exec(s.t, Origin(f.pi), f.out).0;
      var mem' := mem.(dram := mem.dram[DmAddr(base, f.pi.hbDramAddr) := f.pi.hbDram]);
      var f' := f.(state := S2Idle, pi := f.pi.(status := SUCCEED));
      MemOk(base, mem', f', t') && FillOk(f', base, mem', t')
  {
    hide Looked, RunAlone, AllocatorOk, Linked, KeysOk, DmAddr, DramHolds, ChainAfter;
    var o := Origin(f.pi);
    var t' := Exec(s.t, o, f.out).0;
    WriteDram(base, mem.dram, s.t, o, f.out, f.pi.hbDram);
  }

  lemma WriteDram(base: nat, dram: map<nat, Bucket>, t: Tables, o: Pi, out: Outcome, hb: Bucket)
    requires Sized(t) && GoodChains(t.chains) && DramHolds(base, dram, t.chains) && o == Origin(o) && o.op == SET
    requires var p := Looked(t, o);
      if p.slotDram >= 0 then hb == DramAfterSet(p)
      else
        && out.NewAt? && hb == p.hbDram.(chained := true, next := out.bucket)
        && FreshBucket(t.chains, out.bucket) && Mem(dram, DmAddr(base, out.bucket)) == NewBucket(p)
    ensures var p := Looked(t, o);
      DramHolds(base, dram[DmAddr(base, p.hbDramAddr) := hb], t.chains[Head(o) := ChainAfter(t.chains[Head(o)], p, out)])
  {
    hide Looked, Linked, KeysOk, DmAddr, DramAfterSet, NewBucket;
    var j := SetTarget(t, o);
    var p, h0 := Looked(t, o), Head(o);
    var links := t.chains[h0];
    var links' := ChainAfter(links, p, out);
    var chains': seq<seq<Link>> := t.chains[h0 := links'];
    var dram' := dram[DmAddr(base, p.hbDramAddr) := hb];
    assert GoodChain(h0, links);
    forall h, i | 0 <= h < |chains'| && 0 <= i < |chains'[h]|
      ensures Mem(dram', DmAddr(base, chains'[h][i].addr)) == chains'[h][i].hb
    {
      assert GoodChain(h, t.chains[h]);
      var a := chains'[h][i].addr;
      if h == h0 && i < |links| { assert links'[i].addr == links[i].addr; }
      if a != p.hbDramAddr {
        if DmAddr(base, a) == DmAddr(base, p.hbDramAddr) { DmAddrInjective(base, a, p.hbDramAddr); }
      }
      if h != h0 || i < |links| {
        assert Mem(dram, DmAddr(base, t.chains[h][i].addr)) == t.chains[h][i].hb;
      }
    }
  }

  // ---------- demux

  lemma FlightLeave(q6: seq<Pi>, s2: seq<Pi>, q5: seq<Pi>, s1: seq<Pi>, q4: seq<Pi>, q3: seq<Pi>)
    requires q6 != []
    ensures Flight(q6, s2, q5, s1, q4, q3) == [Origin(q6[0])] + Flight(q6[1..], s2, q5, s1, q4, q3)
    ensures q3 != [] ==> Flight(q6[1..], s2, q5, s1, q4, q3) != []
  {
    OriginsTake(q6);
    hide Origins;
    var a := Origins(q6[1..]);
    assert [Origin(q6[0])] + a + Origins(s2) + Origins(q5) + Origins(s1) + Origins(q4) + q3
        == [Origin(q6[0])] + (a + Origins(s2) + Origins(q5) + Origins(s1) + Origins(q4) + q3);
  }

  lemma HistLeave(hist: seq<Pi>, answered: nat, x: Pi, rest: seq<Pi>, q2: seq<Pi>, q1: seq<Pi>)
    requires HistOk(hist, answered, [x] + rest, q2, q1)
    ensures HistOk(hist, answered + 1, rest, q2, q1)
  {
    assert ([x] + rest) + q2 + Hashes(q1) == [x] + (rest + q2 + Hashes(q1));
    assert hist[answered + 1..] == hist[answered..][1..];
  }

  lemma IndicesCons(x: Pi, v: seq<Pi>)
    ensures Indices([x] + v) == [BramIndex(x)] + Indices(v)
  {
    hide BramIndex;
  }

  lemma ReservedLeave(table: Table, x: Pi, rest: seq<Pi>, waiting: bool)
    requires Reserved(table, [x] + rest, waiting) && (waiting ==> rest != [])
    ensures Reserved(table.(pops := table.pops + 1, tail := table.tail + [BramIndex(x)]), rest, waiting)
  {
    hide Indices, Distinct, BramIndex;
    var v := if waiting then rest[..|rest| - 1] else rest;
    assert (if waiting then ([x] + rest)[..|rest|] else [x] + rest) == [x] + v;
    IndicesCons(x, v);
    assert table.tail + ([BramIndex(x)] + Indices(v)) == (table.tail + [BramIndex(x)]) + Indices(v);
  }

  lemma RepliesLeave(q6: seq<Pi>, s: Spec, out: Output)
    requires RepliesOk(q6, s, out) && q6 != []
    ensures var r := ReplyOf(q6[0]);
      var out' := if q6[0].channel == READ_CHANNEL then out.(rd := out.rd + [r])
                  else if q6[0].channel == WRITE_CHANNEL then out.(wr := out.wr + [r]) else out;
      RepliesOk(q6[1..], s.(answered := s.answered + 1), out')
  {
    var n := s.answered;
    assert s.replies[..n + 1][..n] == s.replies[..n];
    assert s.replies[..n + 1][n] == ReplyOf(q6[0]);
  }

  lemma AskAnswered(base: nat, s: Spec, f: Filler)
    requires AskOk(base, s, f)
    ensures AskOk(base, s.(answered := s.answered + 1), f)
  {
    hide Plan;
  }

  lemma SpecAnswered(s: Spec)
    requires SpecOk(s)
    ensures SpecOk(s.(answered := s.answered + 1))
  {
  }

  // ---------- any interleaving

  datatype Step =
    | Arrives(r: Request, channel: nat) | DoRemux | DoHash | DoReadBram | DoTable | BramAnswers | DoCompare
    | DoFillS1 | DramAnswers | DoFillS2 | AllocAnswers(ret: AllocRet) | DoDemux

  // ---------- what was asked

  /** Pipeline words on each of the two channels, in order, and how many words there are in all. */
  datatype PerChannel = PerChannel(rd: seq<Pi>, wr: seq<Pi>, total: nat)

  /** The words remux and compute_hash make of the requests of one channel. */
  ghost function WordsOn(rs: seq<Request>, channel: nat): seq<Pi>
  {
    seq(|rs|, i requires 0 <= i < |rs| => WithHash(Forge(rs[i], channel)))
  }

  /** The words of one channel among those remux took. */
  ghost function HistOn(hist: seq<Pi>, channel: nat): seq<Pi>
  {
    if hist == [] then []
    else
      var last := hist[|hist| - 1];
      HistOn(hist[..|hist| - 1], channel) + (if last.channel == channel then [last] else [])
  }

  /** Everything asked so far: what remux took and what still waits, channel by channel. */
  ghost function Asked(hist: seq<Pi>, f: Front): PerChannel
  {
    PerChannel(HistOn(hist, READ_CHANNEL) + WordsOn(f.rdReq, READ_CHANNEL),
               HistOn(hist, WRITE_CHANNEL) + WordsOn(f.wrReq, WRITE_CHANNEL),
               |hist| + |f.rdReq| + |f.wrReq|)
  }

  ghost function Joined(a: PerChannel, b: PerChannel): PerChannel { PerChannel(a.rd + b.rd, a.wr + b.wr, a.total + b.total) }

  /** The request that arrives on a channel in one step, if any; all but the read channel count as the write channel. */
  ghost function Arriving(step: Step, channel: nat): seq<Request>
  {
    if step.Arrives? && (step.channel == READ_CHANNEL <==> channel == READ_CHANNEL) then [step.r] else []
  }

  /** The requests that arrive on a channel along a schedule. */
  ghost function Arrived(schedule: seq<Step>, channel: nat): seq<Request>
  {
    if schedule == [] then []
    else Arrived(schedule[..|schedule| - 1], channel) + Arriving(schedule[|schedule| - 1], channel)
  }

  ghost function OfRequests(rd: seq<Request>, wr: seq<Request>): PerChannel
  {
    PerChannel(WordsOn(rd, READ_CHANNEL), WordsOn(wr, WRITE_CHANNEL), |rd| + |wr|)
  }

  ghost function NewWords(step: Step): PerChannel
  {
    OfRequests(Arriving(step, READ_CHANNEL), Arriving(step, WRITE_CHANNEL))
  }

  ghost function AllWords(schedule: seq<Step>): PerChannel
  {
    OfRequests(Arrived(schedule, READ_CHANNEL), Arrived(schedule, WRITE_CHANNEL))
  }

  lemma WordsOnJoin(a: seq<Request>, b: seq<Request>, channel: nat)
    ensures WordsOn(a + b, channel) == WordsOn(a, channel) + WordsOn(b, channel)
    ensures WordsOn([], channel) == []
  {
  }

  lemma {:induction false} HistOnPush(hist: seq<Pi>, x: Pi, channel: nat)
    ensures HistOn(hist + [x], channel) == HistOn(hist, channel) + (if x.channel == channel then [x] else [])
  {
    assert (hist + [x])[..|hist|] == hist;
  }

  /** remux took the oldest waiting request, the read channel first. */
  ghost predicate Taken(f: Front, hist: seq<Pi>, hist': seq<Pi>)
  {
    if f.rdReq != [] then hist' == hist + [WithHash(Forge(f.rdReq[0], READ_CHANNEL))]
    else if f.wrReq != [] then hist' == hist + [WithHash(Forge(f.wrReq[0], WRITE_CHANNEL))]
    else hist' == hist
  }

  /** remux moves the oldest waiting word of a channel to the end of its history. */
  lemma RemuxAsks(hist: seq<Pi>, f: Front, hist': seq<Pi>)
    requires Taken(f, hist, hist')
    ensures Asked(hist', Remuxed(f)) == Asked(hist, f) && hist <= hist'
  {
    hide HistOn;
    if f.rdReq != [] {
      var x := WithHash(Forge(f.rdReq[0], READ_CHANNEL));
      HistOnPush(hist, x, READ_CHANNEL);
      HistOnPush(hist, x, WRITE_CHANNEL);
      assert WordsOn(f.rdReq, READ_CHANNEL) == [x] + WordsOn(f.rdReq[1..], READ_CHANNEL);
    } else if f.wrReq != [] {
      var x := WithHash(Forge(f.wrReq[0], WRITE_CHANNEL));
      HistOnPush(hist, x, READ_CHANNEL);
      HistOnPush(hist, x, WRITE_CHANNEL);
      assert WordsOn(f.wrReq, WRITE_CHANNEL) == [x] + WordsOn(f.wrReq[1..], WRITE_CHANNEL);
    }
  }

  lemma ArriveAsks(hist: seq<Pi>, f: Front, step: Step)
    requires step.Arrives?
    ensures var f' := if step.channel == READ_CHANNEL then f.(rdReq := f.rdReq + [step.r]) else f.(wrReq := f.wrReq + [step.r]);
      Asked(hist, f') == Joined(Asked(hist, f), NewWords(step))
  {
    hide HistOn;
    WordsOnJoin(f.rdReq, [step.r], READ_CHANNEL);
    WordsOnJoin(f.wrReq, [step.r], WRITE_CHANNEL);
  }

  lemma SameAsked(hist: seq<Pi>, f: Front, f': Front, step: Step)
    requires f'.rdReq == f.rdReq && f'.wrReq == f.wrReq && !step.Arrives?
    ensures Asked(hist, f') == Joined(Asked(hist, f), NewWords(step))
  {
    hide HistOn;
  }

  /**
   One call of one stage, or one move of the environment; the allocator never answers with a bucket in
   use. What was asked grows by the arriving request and by nothing else.
   */
  method Move(p: Pipeline, step: Step)
    requires p.Inv()
    modifies p
    ensures p.Inv() && old(p.spec.hist) <= p.spec.hist && Answers(old(p.spec.answers), step, p.spec.answers)
    ensures Asked(p.spec.hist, p.front) == Joined(old(Asked(p.spec.hist, p.front)), NewWords(step))
  {
    hide AskOk, HistOk, Reserved, FetchOk, ComparedOk, WalkOk, LookedOk, MemOk, FillOk, SpecOk, RepliesOk, Flight, Asked, Joined,
      NewWords, Taken, WalkMoves, FillMoves;
    ghost var hist, front := p.spec.hist, p.front;
    MoveOne(p, step);
    if step.Arrives? {
      ArriveAsks(hist, front, step);
    } else if step.DoRemux? {
      RemuxAsks(hist, front, p.spec.hist);
      SameAsked(hist, front, front, step);
    } else {
      SameAsked(hist, front, p.front, step);
    }
  }

  /** The answers grow by the one that comes in this step, if the table asked for it, and by nothing else. */
  ghost predicate Answers(answers: seq<AllocRet>, step: Step, answers': seq<AllocRet>)
  {
    answers' == answers || (step.AllocAnswers? && answers' == answers + [step.ret])
  }

  /** The stages' registers and the FIFOs between them. */
  datatype Registers = Registers(base: nat, front: Front, fetch: Fetch, table: Table, q4: seq<Pi>, s1: Walker, q5: seq<Pi>, s2: Filler, q6: seq<Pi>)

  ghost function RegistersOf(p: Pipeline): Registers
    reads p
  {
    Registers(p.base, p.front, p.fetch, p.table, p.q4, p.s1, p.q5, p.s2, p.q6)
  }

  /** What a step does to them. */
  ghost predicate Moves(step: Step, r: Registers, r': Registers)
  {
    && (!step.Arrives? && !step.DoRemux? ==> r'.front.rdReq == r.front.rdReq && r'.front.wrReq == r.front.wrReq)
    && match step {
      case Arrives(x, channel) =>
        r'.front == if channel == READ_CHANNEL then r.front.(rdReq := r.front.rdReq + [x]) else r.front.(wrReq := r.front.wrReq + [x])
      case DoRemux => r'.front == Remuxed(r.front)
      case DoHash =>
        r.front.q1 != [] ==> r'.front == r.front.(q1 := r.front.q1[1..], q2 := r.front.q2 + [WithHash(r.front.q1[0])])
      case DoReadBram =>
        && (r.fetch.rb != RbIdle ==> r'.fetch == Answer(r.fetch))
        && (r.fetch.rb == RbIdle && r.front.q2 != [] ==> r'.fetch == Entered(r.fetch, r.front.q2[0]))
      case DoTable =>
        var popped := if r.table.pops > 0 then Popped(r.table) else r.table;
        r'.table == Granted(popped, r.fetch) && r'.fetch == Told(popped, r.fetch)
      case BramAnswers => r.fetch.cmd != [] ==> r'.fetch.cmd == r.fetch.cmd[1..] && |r'.fetch.data| == |r.fetch.data| + 1
      case DoCompare =>
        r.fetch.q3 != [] && r.fetch.data != [] ==> r'.q4 == r.q4 + [CompareBram(r.fetch.q3[0], r.fetch.data[0])]
      case DoFillS1 => WalkMoves(r.q4, r.s1, r.q5, r'.q4, r'.s1, r'.q5)
      case DramAnswers => r.s1.cmd != [] ==> r'.s1.cmd == r.s1.cmd[1..] && |r'.s1.data| == |r.s1.data| + 1
      case DoFillS2 => FillMoves(r.base, r.q5, r.s2, r.q6, r'.q5, r'.s2, r'.q6)
      case AllocAnswers(ret) => true
      case DoDemux => r.q6 != [] ==> r'.q6 == r.q6[1..]
    }
  }

  /** The call itself: each step is a call of its stage, with what that does. */
  method MoveOne(p: Pipeline, step: Step)
    requires p.Inv()
    modifies p
    ensures p.Inv()
    ensures !step.DoRemux? ==> p.spec.hist == old(p.spec.hist)
    ensures step.DoRemux? ==> Taken(old(p.front), old(p.spec.hist), p.spec.hist)
    ensures Answers(old(p.spec.answers), step, p.spec.answers)
    ensures Moves(step, old(RegistersOf(p)), RegistersOf(p))
  {
    hide AskOk, HistOk, Reserved, FetchOk, ComparedOk, WalkOk, LookedOk, MemOk, FillOk, SpecOk, RepliesOk, Flight,
      Remuxed, Answer, Entered, Popped, Granted, Told, WalkMoves, FillMoves;
    match step
    case Arrives(r, channel) => p.Arrive(r, channel);
    case DoRemux => p.Remux();
    case DoHash => p.ComputeHash();
    case DoReadBram => p.ReadBram();
    case DoTable => p.ReservationTable();
    case BramAnswers => p.ServeBram();
    case DoCompare => p.CompareStage();
    case DoFillS1 => p.FillS1();
    case DramAnswers => p.ServeDram();
    case DoFillS2 => p.FillS2();
    case AllocAnswers(ret) => if RetOk(p.base, ret, p.spec.t.chains) { p.ServeAlloc(ret); }
    case DoDemux => p.Demux();
  }

  /**
   Whatever the order of steps: on each channel, what remux took followed by what waits is what
   arrived there, in order; and the replies that have left each channel are, in the order remux took
   the requests, those of one-at-a-time execution with the same allocator answers. When the pipeline
   is empty every request taken has its reply.
   */
  method RunPipeline(base: nat, schedule: seq<Step>) returns (p: Pipeline)
    ensures p.Inv() && fresh(p)
    ensures Asked(p.spec.hist, p.front) == AllWords(schedule)
    ensures InOrder(p.base, p.spec, p.out)
    ensures p.base == base && AnsweredIn(schedule, p.spec.answers)
    ensures AllocAnswers(AllocFail) !in schedule ==> AllLatest(p.spec, p.out)
    ensures p.InFlight() == [] && p.front.q1 == [] && p.front.q2 == [] ==> p.spec.answered == |p.spec.hist|
  {
    hide AskOk, HistOk, Reserved, FetchOk, ComparedOk, WalkOk, LookedOk, MemOk, FillOk, SpecOk, RepliesOk, Flight, InOrder,
      HistOn, NewWords, Joined, AllLatest;
    p := new Pipeline(base);
    NothingAsked(schedule);
    for i := 0 to |schedule|
      invariant p.Inv()
      invariant fresh(p)
      invariant p.base == base && Asked(p.spec.hist, p.front) == AllWords(schedule[..i])
      invariant AnsweredIn(schedule[..i], p.spec.answers)
    {
      Move(p, schedule[i]);
      OneMoreStep(schedule, i);
    }
    assert schedule[..|schedule|] == schedule;
    AllAnswered(p);
    if AllocAnswers(AllocFail) !in schedule { AllAreLatest(p); }
  }

  /** Every answer of the allocator is one of the schedule's. */
  ghost predicate AnsweredIn(schedule: seq<Step>, answers: seq<AllocRet>)
  {
    forall a :: a in answers ==> AllocAnswers(a) in schedule
  }

  lemma NothingAsked(schedule: seq<Step>)
    ensures Asked([], Front([], [], [], [])) == AllWords(schedule[..0])
  {
  }

  lemma OneMoreStep(schedule: seq<Step>, i: nat)
    requires i < |schedule|
    ensures AllWords(schedule[..i + 1]) == Joined(AllWords(schedule[..i]), NewWords(schedule[i]))
  {
    hide WordsOn, Arriving;
    assert schedule[..i + 1][..i] == schedule[..i];
    WordsOnJoin(Arrived(schedule[..i], READ_CHANNEL), Arriving(schedule[i], READ_CHANNEL), READ_CHANNEL);
    WordsOnJoin(Arrived(schedule[..i], WRITE_CHANNEL), Arriving(schedule[i], WRITE_CHANNEL), WRITE_CHANNEL);
  }

  /**
   What has left each channel is, in the order of the history, the replies of one-at-a-time execution
   in which the requests that need a bucket take the allocator's answers in turn.
   */
  ghost predicate InOrder(base: nat, s: Spec, out: Output)
  {
    && s.answered <= |s.outs| <= |s.hist| && AllOrigins(s.hist[..|s.outs|])
    && s.outs == Plan(base, s.hist[..|s.outs|], s.answers).outs
    && var alone := RunAlone(s.hist[..|s.outs|], s.outs).replies[..s.answered];
       out == Output(OnChannel(alone, READ_CHANNEL), OnChannel(alone, WRITE_CHANNEL))
  }

  lemma AllAnswered(p: Pipeline)
    requires p.Inv()
    ensures InOrder(p.base, p.spec, p.out)
    ensures p.InFlight() == [] && p.front.q1 == [] && p.front.q2 == [] ==> p.spec.answered == |p.spec.hist|
  {
    hide Plan, Reserved, FetchOk, ComparedOk, WalkOk, LookedOk, MemOk, FillOk, Flight;
  }

  /** In every reachable state each key in BRAM is in a marked slot, also in the bucket of a half-done SET. */
  lemma MemoryMarked(p: Pipeline)
    requires p.Inv()
    ensures |p.mem.bram| == 64 && forall b :: 0 <= b < 64 ==> KeysMarked(p.mem.bram[b])
  {
    hide AskOk, HistOk, Reserved, FetchOk, ComparedOk, WalkOk, LookedOk, RepliesOk, Flight, RunAlone, KeysMarked, GoodChains,
      AllocatorOk, Looked, BramAfterSet, DramHolds;
    RunMarks(p.spec.hist[..|p.spec.outs|], p.spec.outs);
    if p.s2.state != S2Idle {
      SetWrites(p.spec.t, Origin(p.s2.pi));
    }
  }

  // ---------- the replies of one channel

  ghost function OutOn(out: Output, channel: nat): seq<Reply>
  {
    if channel == READ_CHANNEL then out.rd else out.wr
  }

  ghost predicate SameChannels(hist: seq<Pi>, replies: seq<Reply>)
  {
    |replies| == |hist| && forall i :: 0 <= i < |hist| ==> replies[i].channel == hist[i].channel
  }

  /** The k-th reply of a channel answers the k-th request of the channel. */
  lemma {:induction false} NthReply(hist: seq<Pi>, replies: seq<Reply>, channel: nat, k: nat) returns (n: nat)
    requires SameChannels(hist, replies) && k < |OnChannel(replies, channel)|
    ensures |OnChannel(replies, channel)| == |HistOn(hist, channel)|
    ensures n < |hist| && |HistOn(hist[..n], channel)| == k
    ensures OnChannel(replies, channel)[k] == replies[n] && HistOn(hist, channel)[k] == hist[n] && hist[n].channel == channel
    decreases |hist|
  {
    var m := |hist| - 1;
    SameCounts(hist[..m], replies[..m], channel);
    if k == |OnChannel(replies[..m], channel)| {
      n := m;
    } else {
      n := NthReply(hist[..m], replies[..m], channel, k);
      assert hist[..m][..n] == hist[..n];
    }
  }

  lemma {:induction false} SameCounts(hist: seq<Pi>, replies: seq<Reply>, channel: nat)
    requires SameChannels(hist, replies)
    ensures |OnChannel(replies, channel)| == |HistOn(hist, channel)|
    decreases |hist|
  {
    if hist != [] {
      var m := |hist| - 1;
      SameCounts(hist[..m], replies[..m], channel);
    }
  }

  lemma {:induction false} HistOnPrefix(hist: seq<Pi>, n: nat, channel: nat)
    requires n <= |hist|
    ensures HistOn(hist[..n], channel) <= HistOn(hist, channel)
    decreases |hist|
  {
    if n == |hist| {
      assert hist[..n] == hist;
    } else {
      HistOnPrefix(hist[..|hist| - 1], n, channel);
      assert hist[..|hist| - 1][..n] == hist[..n];
    }
  }

  lemma AnsweredChannels(p: Pipeline)
    requires p.Inv()
    ensures p.spec.answered <= |p.spec.outs| == |p.spec.replies| <= |p.spec.hist|
    ensures SameChannels(p.spec.hist[..p.spec.answered], p.spec.replies[..p.spec.answered])
  {
    hide AskOk, Reserved, FetchOk, ComparedOk, WalkOk, LookedOk, MemOk, FillOk, HistOk, Flight, RunAlone, GoodChains, AllocatorOk;
    AllAnswered(p);
    var s := p.spec;
    var reqs := s.hist[..|s.outs|];
    forall i | 0 <= i < s.answered ensures s.replies[i].channel == s.hist[i].channel {
      ReplyChannel(reqs, s.outs, i);
    }
  }

  /** Request n is the k-th of its channel, and reply k there is what it should be. */
  ghost predicate IsLatest(s: Spec, out: Output, channel: nat, k: nat, n: nat)
    requires k < |OutOn(out, channel)|
  {
    && n < s.answered <= |s.hist| && |HistOn(s.hist[..n], channel)| == k
    && k < |HistOn(s.hist, channel)| && HistOn(s.hist, channel)[k] == s.hist[n]
    && var o, r := s.hist[n], OutOn(out, channel)[k];
       && r.channel == channel
       && (o.op == GET && !o.perm && o.input != 0 ==>
             match LatestSet(s.hist[..n], o.input)
             case Some(v) => r.status == SUCCEED && r.address == v
             case None => r.status == FAILURE && r.address == 0)
  }

  /**
   The k-th reply that has left a channel answers the k-th request of that channel: a read-intent GET of
   a non-zero key returned the value of the latest SET of that key taken before it, and failed if there
   was none.
   */
  ghost predicate AllLatest(s: Spec, out: Output)
  {
    forall channel, k :: channel in {READ_CHANNEL, WRITE_CHANNEL} && 0 <= k < |OutOn(out, channel)| ==> HasLatest(s, out, channel, k)
  }

  ghost predicate HasLatest(s: Spec, out: Output, channel: nat, k: nat)
    requires k < |OutOn(out, channel)|
  {
    exists n: nat :: IsLatest(s, out, channel, k, n)
  }

  /** So it is as long as the allocator never refused. */
  lemma AllAreLatest(p: Pipeline)
    requires p.Inv() && AllocFail !in p.spec.answers
    ensures AllLatest(p.spec, p.out)
  {
    hide IsLatest, AskOk, HistOk, Reserved, FetchOk, ComparedOk, WalkOk, LookedOk, MemOk, FillOk, SpecOk, RepliesOk, Flight;
    forall channel, k | channel in {READ_CHANNEL, WRITE_CHANNEL} && 0 <= k < |OutOn(p.out, channel)|
      ensures HasLatest(p.spec, p.out, channel, k)
    {
      var n := RepliesAreLatest(p, channel, k);
    }
  }

  /**
   The same for one reply, with the place n of its request in the history.
   */
  lemma RepliesAreLatest(p: Pipeline, channel: nat, k: nat) returns (n: nat)
    requires p.Inv() && AllocFail !in p.spec.answers && channel in {READ_CHANNEL, WRITE_CHANNEL} && k < |OutOn(p.out, channel)|
    ensures IsLatest(p.spec, p.out, channel, k, n)
  {
    hide AskOk, Reserved, FetchOk, ComparedOk, WalkOk, LookedOk, MemOk, FillOk, Flight, LatestSet, RunAlone, GoodChains, BucketOk,
      OnChannel, HistOn;
    var s := p.spec;
    AnsweredChannels(p);
    var a := s.answered;
    n := NthReply(s.hist[..a], s.replies[..a], channel, k);
    assert s.hist[..a][..n] == s.hist[..n];
    HistOnPrefix(s.hist, a, channel);
    var reqs := s.hist[..|s.outs|];
    assert AllHashed(reqs);
    assert reqs[..n] == s.hist[..n];
    var o := s.hist[n];
    if o.op == GET && !o.perm && o.input != 0 { GetReturnsLatestSet(reqs, s.outs, n); }
  }
}
