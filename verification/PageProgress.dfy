/** The page-table pipeline answers: whatever state it is in, calling the stages empties it. */
module PageProgress {
  import opened HashWords
  import opened PageTable
  import opened PageTableMap
  import opened Reservation
  import opened PagePipeline

  // ---------- how much is left to do: every request is worth less the further it has come

  ghost function FrontWork(f: Front): nat
  {
    20 * (|f.rdReq| + |f.wrReq|) + 19 * |f.q1| + 18 * |f.q2|
  }

  /** A refused reservation costs more than an open one: only a released entry pays for it. */
  ghost function FetchWork(f: Fetch): nat
  {
    12 * |f.q3| + |f.cmd| +
    match f.rb
    case RbIdle => 0
    case RbCheck => 4
    case RbResp => if f.resvReq != [] then 3 else if f.resvRes == [RESV_SUCCESS] then 2 else 6
  }

  ghost function WalkWork(w: Walker): nat { if w.state == S1Idle then 0 else 10 }

  ghost function FillWork(f: Filler): nat
  {
    match f.state
    case S2Idle => 0
    case S2Recv => if f.ret == [] then 8 else 7
    case S2Write => 6
  }

  ghost function Work(p: Pipeline): nat
    reads p
  {
    FrontWork(p.front) + FetchWork(p.fetch) + 11 * |p.q4| + WalkWork(p.s1) + 9 * |p.q5| + FillWork(p.s2)
    + 5 * |p.q6| + 4 * p.table.pops
  }

  lemma FillSteps(base: nat, q5: seq<Pi>, f: Filler, q6: seq<Pi>, q5': seq<Pi>, f': Filler, q6': seq<Pi>)
    requires FillMoves(base, q5, f, q6, q5', f', q6')
    requires f.state != S2Idle || q5 != []
    requires f.state == S2Recv ==> f.ret != []
    ensures 9 * |q5'| + FillWork(f') + 5 * |q6'| < 9 * |q5| + FillWork(f) + 5 * |q6|
  {
  }

  lemma WalkSteps(q4: seq<Pi>, w: Walker, q5: seq<Pi>, q4': seq<Pi>, w': Walker, q5': seq<Pi>, t: Tables)
    requires Sized(t) && WalkMoves(q4, w, q5, q4', w', q5')
    requires w.state != S1Idle || q4 != []
    requires w.state != S1Idle ==> w.pos < |t.chains[Head(w.pi)]|
    requires w.state == S1Read ==> w.data != []
    requires w.state == S1Send ==> w.data == []
    ensures var a, b := 11 * |q4'| + WalkWork(w') + 9 * |q5'|, 11 * |q4| + WalkWork(w) + 9 * |q5|;
      a < b || (a == b && WalkLeft(w', t) < WalkLeft(w, t))
  {
    assert w'.state != S1Idle && w.state == S1Read ==> Head(w'.pi) == Head(w.pi) by {
      assert Origin(w'.pi) == Origin(w.pi) ==> w'.pi.hash == w.pi.hash;
    }
  }

  lemma ServedWalk(w: Walker, w': Walker, t: Tables)
    requires Sized(t) && w.state == S1Read && w.data == [] && w.pos < |t.chains[Head(w.pi)]|
    requires w' == w.(cmd := w'.cmd, data := w'.data) && w'.data != []
    ensures WalkWork(w') == WalkWork(w) && WalkLeft(w', t) < WalkLeft(w, t)
  {
  }

  /** Asking, being answered, and entering. */
  lemma FetchSteps(f: Fetch, table: Table)
    requires f.resvReq != [] ==> |f.resvReq| == 1 && f.resvRes == [] && f.rb == RbResp
    requires f.rb == RbResp && f.resvReq == [] ==> |f.resvRes| == 1
    ensures f.rb != RbIdle && f.resvReq == [] ==> FetchWork(Answer(f)) < FetchWork(f)
    ensures FetchWork(Told(table, f)) <= FetchWork(f) + 3
    ensures table.resv == [] && f.resvReq != [] ==> FetchWork(Told(table, f)) < FetchWork(f)
    ensures f.rb == RbIdle ==> forall pi :: FetchWork(Entered(f, pi)) == FetchWork(f) + 16
  {
  }

  /** Moves fill_S1 has left on the chain, whose length bounds them. */
  ghost function WalkLeft(w: Walker, t: Tables): nat
    requires Sized(t)
  {
    var n := |t.chains[Head(w.pi)]|;
    if w.state == S1Idle || w.pos >= n then 0
    else 3 * (n - w.pos) + if w.state == S1Send then 2 else if w.data == [] then 1 else 0
  }

  /** Everything asked: what remux took and what waits, channel by channel. */
  ghost function AskedOf(p: Pipeline): PerChannel
    reads p
  {
    Asked(p.spec.hist, p.front)
  }

  /** What was asked stays asked, and what was taken or answered stays so. */
  ghost predicate Kept(s: Spec, asked: PerChannel, s': Spec, asked': PerChannel)
  {
    asked' == asked && s.hist <= s'.hist && s.answers <= s'.answers
  }

  ghost predicate Emptied(p: Pipeline)
    reads p
  {
    && p.front == Front([], [], [], []) && p.fetch.q3 == [] && p.q4 == [] && p.s1.state == S1Idle && p.q5 == []
    && p.s2.state == S2Idle && p.q6 == []
  }

  /** Something behind read_bram is under way. */
  predicate Behind(p: Pipeline)
    reads p
  {
    p.q6 != [] || p.s2.state != S2Idle || p.q5 != [] || p.s1.state != S1Idle || p.q4 != [] || p.table.pops > 0
    || p.fetch.cmd != [] || p.fetch.data != []
  }

  // ---------- the stages behind read_bram

  method AdvanceFill(p: Pipeline, ret: AllocRet)
    requires RetOk(p.base, ret, p.spec.t.chains)
    requires p.Inv() && (p.s2.state != S2Idle || p.q5 != [])
    modifies p
    ensures p.Inv() && Work(p) < old(Work(p)) && Kept(old(p.spec), old(AskedOf(p)), p.spec, AskedOf(p))
    ensures Answers(old(p.spec.answers), AllocAnswers(ret), p.spec.answers)
  {
    hide AskOk, HistOk, Reserved, FetchOk, ComparedOk, WalkOk, LookedOk, MemOk, FillOk, SpecOk, RepliesOk, Flight, RetOk,
      FrontWork, FetchWork, WalkWork, FillMoves;
    FillReady(p);
    if p.s2.state == S2Recv && p.s2.ret == [] {
      p.ServeAlloc(ret);
    } else {
      hide FillWork;
      ghost var q5, s2, q6 := p.q5, p.s2, p.q6;
      p.FillS2();
      FillSteps(p.base, q5, s2, q6, p.q5, p.s2, p.q6);
    }
  }

  lemma FillReady(p: Pipeline)
    requires p.Inv()
    ensures p.s2.state == S2Recv && p.s2.ret == [] ==> p.s2.asked == 1
  {
    hide AskOk, HistOk, Reserved, FetchOk, ComparedOk, WalkOk, LookedOk, MemOk, SpecOk, RepliesOk, Flight, Looked;
  }

  method AdvanceWalk(p: Pipeline)
    requires p.Inv() && (p.s1.state != S1Idle || p.q4 != [])
    modifies p
    ensures p.Inv() && p.spec.answers == old(p.spec.answers) && Kept(old(p.spec), old(AskedOf(p)), p.spec, AskedOf(p))
    ensures Work(p) < old(Work(p)) || (Work(p) == old(Work(p)) && WalkLeft(p.s1, p.spec.t) < old(WalkLeft(p.s1, p.spec.t)))
  {
    hide AskOk, HistOk, Reserved, FetchOk, ComparedOk, WalkOk, LookedOk, MemOk, FillOk, SpecOk, RepliesOk, Flight,
      FrontWork, FetchWork, FillWork, WalkWork, WalkMoves, WalkLeft;
    WalkReady(p);
    ghost var q4, s1, q5 := p.q4, p.s1, p.q5;
    if p.s1.state == S1Read && p.s1.data == [] {
      p.ServeDram();
      ServedWalk(s1, p.s1, p.spec.t);
    } else {
      p.FillS1();
      WalkSteps(q4, s1, q5, p.q4, p.s1, p.q5, p.spec.t);
    }
  }

  lemma WalkReady(p: Pipeline)
    requires p.Inv()
    ensures p.s1.state != S1Idle ==> p.s1.pos < |p.spec.t.chains[Head(p.s1.pi)]|
    ensures p.s1.state == S1Send ==> p.s1.data == []
    ensures p.s1.state == S1Read && p.s1.data == [] ==> |p.s1.cmd| == 1
  {
    hide AskOk, HistOk, Reserved, FetchOk, ComparedOk, LookedOk, MemOk, FillOk, SpecOk, RepliesOk, Flight, Looked, Walk;
  }

  method AdvanceBack(p: Pipeline, ret: AllocRet)
    requires RetOk(p.base, ret, p.spec.t.chains)
    requires p.Inv() && Behind(p)
    modifies p
    ensures p.Inv() && Kept(old(p.spec), old(AskedOf(p)), p.spec, AskedOf(p))
    ensures Answers(old(p.spec.answers), AllocAnswers(ret), p.spec.answers)
    ensures Work(p) < old(Work(p)) || (Work(p) == old(Work(p)) && WalkLeft(p.s1, p.spec.t) < old(WalkLeft(p.s1, p.spec.t)))
  {
    hide AskOk, HistOk, Reserved, FetchOk, ComparedOk, WalkOk, LookedOk, MemOk, FillOk, SpecOk, RepliesOk, Flight,
      FrontWork, FillWork, WalkWork, WalkLeft, CompareBram;
    FetchReserved(p.fetch, p.spec.t.bram);
    if p.q6 != [] { p.Demux(); }
    else if p.s2.state != S2Idle || p.q5 != [] { AdvanceFill(p, ret); }
    else if p.s1.state != S1Idle || p.q4 != [] { AdvanceWalk(p); }
    else if p.table.pops > 0 { AdvancePop(p); }
    else if p.fetch.cmd != [] { p.ServeBram(); }
    else { p.CompareStage(); }
  }

  /** A released entry is progress even if the reservation behind it is refused once more. */
  method AdvancePop(p: Pipeline)
    requires p.Inv() && p.table.pops > 0
    modifies p
    ensures p.Inv() && p.spec.answers == old(p.spec.answers) && Kept(old(p.spec), old(AskedOf(p)), p.spec, AskedOf(p)) && Work(p) < old(Work(p))
  {
    hide AskOk, HistOk, Reserved, FetchOk, ComparedOk, WalkOk, LookedOk, MemOk, FillOk, SpecOk, RepliesOk, Flight,
      FrontWork, FetchWork, FillWork, WalkWork, WalkLeft, Told;
    ReserveTalk(p.fetch, p.spec.t.bram);
    FetchSteps(p.fetch, Popped(p.table));
    p.ReservationTable();
  }

  lemma ReserveTalk(f: Fetch, bram: seq<Bucket>)
    requires |bram| == 64 && FetchOk(f, bram)
    ensures f.resvReq != [] ==> |f.resvReq| == 1 && f.resvRes == [] && f.rb == RbResp
    ensures f.rb == RbResp && f.resvReq == [] ==> |f.resvRes| == 1
  {
  }

  // ---------- read_bram and the stages before it, once nothing is behind

  lemma ReservationFree(p: Pipeline)
    requires p.Inv() && !Behind(p)
    ensures p.fetch.resvReq != [] ==> p.table.resv == []
    ensures |p.fetch.q3| == if p.fetch.rb == RbIdle then 0 else 1
  {
    hide AskOk, HistOk, ComparedOk, WalkOk, LookedOk, MemOk, FillOk, SpecOk, RepliesOk;
    if p.fetch.resvReq != [] {
      assert |p.InFlight()| == 1;
    }
  }

  method AdvanceFront(p: Pipeline)
    requires p.Inv() && !Behind(p) && !Emptied(p)
    modifies p
    ensures p.Inv() && p.spec.answers == old(p.spec.answers) && Kept(old(p.spec), old(AskedOf(p)), p.spec, AskedOf(p)) && Work(p) < old(Work(p))
  {
    hide AskOk, HistOk, Reserved, FetchOk, ComparedOk, WalkOk, LookedOk, MemOk, FillOk, SpecOk, RepliesOk, Flight,
      FetchWork, FillWork, WalkWork, WalkLeft, Told, Answer, Entered;
    ReservationFree(p);
    ReserveTalk(p.fetch, p.spec.t.bram);
    FetchSteps(p.fetch, p.table);
    if p.fetch.rb == RbResp && p.fetch.resvReq != [] {
      p.ReservationTable();
    } else if p.fetch.rb != RbIdle || p.front.q2 != [] {
      p.ReadBram();
    } else if p.front.q1 != [] {
      p.ComputeHash();
    } else {
      ghost var hist, front := p.spec.hist, p.front;
      p.Remux();
      RemuxAsks(hist, front, p.spec.hist);
    }
  }

  /** An environment that answers the allocator's requests, told how many it answered and what is in use. */
  type Allocator = (nat, seq<seq<Link>>) -> AllocRet

  /** It never answers with a bucket in use. */
  ghost predicate Sound(base: nat, alloc: Allocator)
  {
    forall k: nat, chains: seq<seq<Link>> :: RetOk(base, alloc(k, chains), chains)
  }

  /** The answers after the first n came from this environment. */
  ghost predicate AnsweredBy(alloc: Allocator, n: nat, answers: seq<AllocRet>)
  {
    forall i :: n <= i < |answers| ==> Gives(alloc, i, answers[i])
  }

  ghost predicate Gives(alloc: Allocator, k: nat, ret: AllocRet)
  {
    exists chains :: ret == alloc(k, chains)
  }

  lemma OneMoreAnswer(alloc: Allocator, n: nat, answers: seq<AllocRet>, chains: seq<seq<Link>>, answers': seq<AllocRet>)
    requires AnsweredBy(alloc, n, answers) && Answers(answers, AllocAnswers(alloc(|answers|, chains)), answers')
    ensures AnsweredBy(alloc, n, answers')
  {
    forall i | n <= i < |answers'| ensures Gives(alloc, i, answers'[i]) {
      if i == |answers| { assert answers'[i] == alloc(i, chains); } else { assert answers'[i] == answers[i]; }
    }
  }

  /**
   From any state, with the memories and the allocator answering, the stages empty the pipeline: no
   reservation blocks for ever, every chain walk ends, and every request has its reply, the one that
   one-at-a-time execution in remux order gives with the allocator's answers. What was taken and what
   was waiting is then, on each channel, the history.
   */
  method Drain(p: Pipeline, alloc: Allocator)
    requires p.Inv() && Sound(p.base, alloc)
    modifies p
    ensures p.Inv() && p.front == Front([], [], [], []) && p.InFlight() == []
    ensures old(p.spec.hist) <= p.spec.hist && AllTaken(p.spec, old(AskedOf(p))) && AllOut(p.base, p.spec, p.out)
    ensures old(p.spec.answers) <= p.spec.answers && AnsweredBy(alloc, |old(p.spec.answers)|, p.spec.answers)
    ensures AllocFail !in p.spec.answers ==> AllLatest(p.spec, p.out)
  {
    hide AskOk, HistOk, Reserved, FetchOk, ComparedOk, WalkOk, LookedOk, MemOk, FillOk, SpecOk, RepliesOk, Flight, Work, WalkLeft,
      AllTaken, AllOut, AllLatest, RetOk;
    while Behind(p) || !(p.front == Front([], [], [], []) && p.fetch.q3 == [])
      invariant p.Inv() && Kept(old(p.spec), old(AskedOf(p)), p.spec, AskedOf(p))
      invariant AnsweredBy(alloc, |old(p.spec.answers)|, p.spec.answers)
      decreases Work(p), WalkLeft(p.s1, p.spec.t)
    {
      ghost var answers := p.spec.answers;
      if Behind(p) {
        var chains := p.spec.t.chains;
        AdvanceBack(p, alloc(|p.spec.answers|, chains));
        OneMoreAnswer(alloc, |old(p.spec.answers)|, answers, chains, p.spec.answers);
      } else {
        AdvanceFront(p);
      }
    }
    AllReplied(p);
    if AllocFail !in p.spec.answers { AllAreLatest(p); }
  }

  /** On each channel remux took exactly what was asked, and it took nothing else. */
  ghost predicate AllTaken(s: Spec, asked: PerChannel)
  {
    HistOn(s.hist, READ_CHANNEL) == asked.rd && HistOn(s.hist, WRITE_CHANNEL) == asked.wr && |s.hist| == asked.total
  }

  /**
   Every request has its reply, on its own channel, in the order of the requests there; every answer of
   the allocator was used, each by the next request that needed a bucket.
   */
  ghost predicate AllOut(base: nat, s: Spec, out: Output)
  {
    && AllOrigins(s.hist) && Plan(base, s.hist, s.answers) == Planned(s.outs, |s.answers|)
    && |s.outs| == |s.hist|
    && var replies := RunAlone(s.hist, s.outs).replies;
       && out == Output(OnChannel(replies, READ_CHANNEL), OnChannel(replies, WRITE_CHANNEL))
       && |out.rd| == |HistOn(s.hist, READ_CHANNEL)| && |out.wr| == |HistOn(s.hist, WRITE_CHANNEL)|
  }

  lemma AllReplied(p: Pipeline)
    requires p.Inv() && p.front == Front([], [], [], []) && p.fetch.q3 == [] && !Behind(p)
    ensures p.InFlight() == [] && AllOut(p.base, p.spec, p.out) && AllTaken(p.spec, AskedOf(p))
  {
    hide Plan, Reserved, FetchOk, ComparedOk, WalkOk, LookedOk, MemOk, FillOk, RunAlone, AllocatorOk, GoodChains, OnChannel, HistOn;
    assert p.InFlight() == [];
    AllAnswered(p);
    AnsweredChannels(p);
    var s := p.spec;
    assert s.hist[..|s.outs|] == s.hist && s.hist[..s.answered] == s.hist && s.replies[..s.answered] == s.replies;
    SameCounts(s.hist, s.replies, READ_CHANNEL);
    SameCounts(s.hist, s.replies, WRITE_CHANNEL);
  }

  /**
   The whole pipeline: after any interleaving, letting the stages run on gives each request that
   arrived on a channel exactly one reply on it, in the order of arrival; together they are the replies
   of one-at-a-time execution of some merge of the two streams of requests, with the allocator's answers
   in the order they came. Unless one of them was a refusal, reads return the latest mapping.
   */
  method ServeAll(base: nat, schedule: seq<Step>, alloc: Allocator) returns (p: Pipeline)
    requires Sound(base, alloc)
    ensures p.Inv() && AllTaken(p.spec, AllWords(schedule)) && AllOut(base, p.spec, p.out)
    ensures |p.out.rd| == |Arrived(schedule, READ_CHANNEL)| && |p.out.wr| == |Arrived(schedule, WRITE_CHANNEL)|
    ensures exists n :: 0 <= n <= |p.spec.answers| && AnsweredBy(alloc, n, p.spec.answers) && AnsweredIn(schedule, p.spec.answers[..n])
    ensures AllocFail !in p.spec.answers ==> AllLatest(p.spec, p.out)
  {
    hide AskOk, HistOk, Reserved, FetchOk, ComparedOk, WalkOk, LookedOk, MemOk, FillOk, SpecOk, RepliesOk, Flight,
      HistOn, Arrived, RunAlone, OnChannel, AllLatest, Plan;
    p := RunPipeline(base, schedule);
    Drain(p, alloc);
  }
}
