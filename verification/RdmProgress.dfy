/** The RDM pipeline comes to its end: whatever state it is in, calling the stages empties it. */
module RdmProgress {
  import opened RdmStages
  import opened RdmReplies
  import opened RdmPipeline
  import opened RdmResults

  /** Items of a stream still to be taken from its FIFO. */
  ghost function ToTake<T>(f: Fifo<T>, whole: seq<T>): nat
  {
    if f.taken < |whole| then |whole| - f.taken else 0
  }

  /** Items of a stream still to be put into its FIFO. */
  ghost function ToPut<T>(f: Fifo<T>, whole: seq<T>): nat
  {
    if |f.log| < |whole| then |whole| - |f.log| else 0
  }

  ghost function Unsent(r: Rdm): nat
    reads r
  {
    ToPut(r.net, r.e.wire) + ToPut(r.allocRet, r.e.allocRets) + ToPut(r.mapRet, r.e.mapRets) + ToPut(r.rdData, r.e.rdData)
  }

  // Moves left between one stage and the next

  ghost function ParserWork(p: ParserUnit, e: Env): nat { ToTake(p.pi, EndParser(e).pis) + ToTake(p.d, EndParser(e).ds) }
  ghost function AllocWork(a: AllocUnit, e: Env): nat { ToTake(a.pi, EndAlloc(e).pis) + ToTake(a.d, EndAlloc(e).ds) }
  ghost function MapWork(m: MapUnit, e: Env): nat
  {
    2 * ToTake(m.pi, EndMap(e).pis) + ToTake(m.rdCmd, EndMap(e).rdCmds)
    + ToTake(m.wrCmd, EndMap(e).wrCmds) + ToTake(m.wrData, EndMap(e).wrData)
  }
  ghost function AccessWork(x: AccessUnit, e: Env): nat
  {
    ToTake(x.d, EndReplies(e)) + if x.reg.state == AccessApp then 1 else 0
  }

  /** How many moves the stages have left. */
  ghost function Work(r: Rdm): nat
    reads r
  {
    ToTake(r.net, r.e.wire) + ParserWork(r.parser, r.e) + ToTake(r.allocRet, r.e.allocRets) + AllocWork(r.alloc, r.e)
    + ToTake(r.mapRet, r.e.mapRets) + MapWork(r.map_, r.e) + ToTake(r.rdData, r.e.rdData) + AccessWork(r.access, r.e)
  }

  lemma TookOne<T>(f: Fifo<T>, whole: seq<T>)
    requires Along(f, whole) && !f.Empty()
    ensures ToTake(f.Took(), whole) == ToTake(f, whole) - 1 && ToPut(f.Took(), whole) == ToPut(f, whole)
  {
  }

  lemma FedOne<T>(f: Fifo<T>, whole: seq<T>)
    requires |f.log| < |whole|
    ensures ToTake(Fed(f, whole), whole) == ToTake(f, whole) && ToPut(Fed(f, whole), whole) == ToPut(f, whole) - 1
  {
  }

  /** The environment sends one more item. */
  method SendNext(r: Rdm)
    requires r.Inv() && !r.AllSent()
    modifies r
    ensures r.Inv() && Unsent(r) + Work(r) < old(Unsent(r) + Work(r))
  {
    hide AllocOk, MapOk, AccessOk, WrOk, ParserOk, ParserWork, AllocWork, MapWork, AccessWork, ToTake, ToPut, Fed;
    SentWithin(r);
    if |r.net.log| < |r.e.wire| { FedOne(r.net, r.e.wire); r.Deliver(0); }
    else if |r.allocRet.log| < |r.e.allocRets| { FedOne(r.allocRet, r.e.allocRets); r.Deliver(1); }
    else if |r.mapRet.log| < |r.e.mapRets| { FedOne(r.mapRet, r.e.mapRets); r.Deliver(2); }
    else { FedOne(r.rdData, r.e.rdData); r.Deliver(3); }
  }

  lemma SentWithin(r: Rdm)
    requires r.Inv()
    ensures |r.net.log| <= |r.e.wire| && |r.allocRet.log| <= |r.e.allocRets|
    ensures |r.mapRet.log| <= |r.e.mapRets| && |r.rdData.log| <= |r.e.rdData|
  {
    hide ParserAll, AllocAll, MapAll, AccessAll, EndParser, EndAlloc, EndMap, EndReplies, WrOk;
  }

  method StepParse(r: Rdm)
    requires r.Inv() && !r.net.Empty()
    modifies r
    ensures r.Inv() && Unsent(r) + Work(r) < old(Unsent(r) + Work(r))
  {
    hide AllocOk, MapOk, AccessOk, WrOk, ParserAll, ParserStep, AllocWork, MapWork, AccessWork, ToTake, ToPut, EndParser;
    TookOne(r.net, r.e.wire);
    SameParserWork(r.parser, r.net.log[r.net.taken], r.e);
    r.Parse();
  }

  lemma SameParserWork(p: ParserUnit, d: Flit, e: Env)
    ensures ParserWork(ParserNext(p, d), e) == ParserWork(p, e)
  {
    hide ParserStep, EndParser;
  }

  method StepAlloc(r: Rdm)
    requires r.Inv() && r.CanAlloc()
    modifies r
    ensures r.Inv() && Unsent(r) + Work(r) < old(Unsent(r) + Work(r))
  {
    hide ParserOk, MapOk, AccessOk, WrOk, AllocAll, AllocTakePi, AllocTakeFlit, AllocTakeRet, AllocWork, MapWork, AccessWork, ToTake, ToPut, EndParser, EndAlloc;
    match r.alloc.reg.state {
      case AllocIdle => TookOne(r.parser.pi, EndParser(r.e).pis);
      case AllocStream => TookOne(r.parser.d, EndParser(r.e).ds);
      case AllocWait => TookOne(r.allocRet, r.e.allocRets);
    }
    SameAllocWork(r.alloc, r.e);
    r.AllocAddress();
  }

  lemma SameAllocWork(a: AllocUnit, e: Env)
    ensures forall reg, out :: AllocWork(AllocNext(a, reg, out), e) == AllocWork(a, e)
  {
    hide EndAlloc;
  }

  method StepMap(r: Rdm)
    requires r.Inv() && r.CanMap()
    modifies r
    ensures r.Inv() && Unsent(r) + Work(r) < old(Unsent(r) + Work(r))
  {
    hide ParserOk, AllocOk, AccessOk, WrOk, MapAll, MapTakePi, MapTakeFlit, MapTakeRet, ParserWork, MapWork, AccessWork, ToTake, ToPut, EndAlloc, EndMap;
    match r.map_.reg.state {
      case MapIdle => TookOne(r.alloc.pi, EndAlloc(r.e).pis);
      case MapWait => TookOne(r.mapRet, r.e.mapRets);
      case MapStream => TookOne(r.alloc.d, EndAlloc(r.e).ds);
    }
    SameMapWork(r.map_, r.e);
    r.MapStage();
  }

  lemma SameMapWork(m: MapUnit, e: Env)
    ensures forall reg, out :: MapWork(MapNext(m, reg, out), e) == MapWork(m, e)
  {
    hide EndMap;
  }

  method StepAccess(r: Rdm)
    requires r.Inv() && r.CanAccess()
    modifies r
    ensures r.Inv() && Unsent(r) + Work(r) < old(Unsent(r) + Work(r))
  {
    hide ParserOk, AllocOk, MapOk, WrOk, AccessAll, ReplyHeader, ParserWork, AllocWork, ToTake, ToPut, EndMap, EndReplies, AccessWork;
    match r.access.reg.state {
      case AccessIdle => TookOne(r.map_.pi, EndMap(r.e).pis);
      case AccessApp =>
      case AccessRead => TookOne(r.rdData, r.e.rdData);
    }
    AccessWorkAfter(r.access, r.e);
    r.AccessStage();
  }

  lemma AccessWorkAfter(x: AccessUnit, e: Env)
    ensures forall reg, out :: AccessWork(AccessNext(x, reg, out), e) <= AccessWork(x, e) + 1
    ensures forall reg: Access, out :: reg.state != AccessApp ==> AccessWork(AccessNext(x, reg, out), e) <= AccessWork(x, e)
    ensures x.reg.state == AccessApp ==>
      forall reg: Access, out :: reg.state != AccessApp ==> AccessWork(AccessNext(x, reg, out), e) < AccessWork(x, e)
  {
    hide EndReplies;
  }

  /** reply or one of the DRAM pipes makes a move. */
  method StepOutput(r: Rdm)
    requires r.Inv() && (!r.access.d.Empty() || !r.map_.rdCmd.Empty() || r.CanWrite())
    modifies r
    ensures r.Inv() && Unsent(r) + Work(r) < old(Unsent(r) + Work(r))
  {
    hide ParserOk, AllocOk, AccessAll, WrAll, MapAll, ParserWork, AllocWork, ToTake, ToPut, EndAlloc, EndMap, EndReplies, EndWr, ToDm;
    if !r.access.d.Empty() {
      TookOne(r.access.d, EndReplies(r.e));
      r.ReplyStage();
    } else if !r.map_.rdCmd.Empty() {
      TookOne(r.map_.rdCmd, EndMap(r.e).rdCmds);
      r.RdPipeStage();
    } else {
      if r.wr.reg.busy { TookOne(r.map_.wrData, EndMap(r.e).wrData); } else { TookOne(r.map_.wrCmd, EndMap(r.e).wrCmds); }
      r.WrPipeStage();
    }
  }

  /** From any state the stages run to the end, and then everything has left the pipeline. */
  method Finish(r: Rdm)
    requires r.Inv()
    modifies r
    ensures r.Inv() && Complete(r)
  {
    hide Work, Unsent, Complete;
    while !(r.AllSent() && r.Stuck())
      invariant r.Inv()
      decreases Unsent(r) + Work(r)
    {
      if !r.AllSent() { SendNext(r); }
      else if !r.net.Empty() { StepParse(r); }
      else if r.CanAlloc() { StepAlloc(r); }
      else if r.CanMap() { StepMap(r); }
      else if r.CanAccess() { StepAccess(r); }
      else { StepOutput(r); }
    }
    AllOut(r);
  }

  /**
   The whole pipeline: after any interleaving, letting the stages run on gives every well-formed
   request its reply packet, in order, and nothing else; the allocator and the mapping were asked for
   just what the requests need.
   */
  method Serve(ks: seq<Packet>, e: Env, schedule: seq<Call>) returns (r: Rdm)
    requires AllWellFormed(ks) && Answers(e, ks)
    ensures r.toNet == Replies(Finished(ks, e), e.rdData)
    ensures r.dmRdCmds == DmCmds(Commands(Finished(ks, e), READ))
    ensures r.alloc.reqs == CountAllocs(ks) && r.map_.reqs == MapRequests(AfterAlloc(ks, e))
    ensures NoneAfterRefusal(Finished(ks, e)) ==>
      && |Finished(ks, e)| == |ks|
      && r.wr.cmds == DmCmds(Commands(Finished(ks, e), WRITE)) && r.wr.data == Wanted(ks, Finished(ks, e))
  {
    hide EndReplies, EndMap, EndWr, DmCmds, Replies, Commands, Wanted;
    r := RunRdm(e, schedule);
    Finish(r);
    RepliesInOrder(ks, e);
    if NoneAfterRefusal(Finished(ks, e)) { WritesPaired(ks, e); }
  }
}
