/**
 The RDM stages as they really run: called in any order, talking over FIFOs, with the allocator, the
 mapping IP and the datamover answering whenever they like.
 */
module RdmPipeline {
  import opened RdmStages
  import opened RdmReplies

  /** Everything the environment is going to send: packets, allocator and mapping answers, DRAM data. */
  datatype Env = Env(wire: seq<Flit>, allocRets: seq<AllocRet>, mapRets: seq<MapRet>, rdData: seq<Data>)

  const NO_FLIT: Flit := Flit(Data(0, 0, 0, 0, 0), false)
  const NO_PI: Pi := Pi(0, 0, 0, 0, 0, true, true, 0, 0, 0, NO_FLIT, NO_FLIT)
  const PARSER0: Parser := Parser(EthHeader, 1, 0, NO_FLIT, 0, 0)
  const ALLOC0: Alloc := Alloc(AllocIdle, NO_PI, 0x1000)
  const MAP0: Map := Map(MapIdle, NO_PI)
  const ACCESS0: Access := Access(AccessIdle, NO_PI, 0)
  const WR0: WrPipe := WrPipe(false, 0, 0)

  // ---------- what each stage will have produced in the end

  ghost function EndParser(e: Env): ParserOut { ParserAll(PARSER0, e.wire) }
  ghost function EndAlloc(e: Env): AllocOut { AllocAll(ALLOC0, EndParser(e).pis, EndParser(e).ds, e.allocRets) }
  ghost function EndMap(e: Env): MapOut { MapAll(MAP0, EndAlloc(e).pis, EndAlloc(e).ds, e.mapRets) }
  ghost function EndWr(e: Env): WrOut { WrAll(WR0, EndMap(e).wrCmds, EndMap(e).wrData) }
  ghost function EndReplies(e: Env): seq<Flit>
  {
    KnownToAccess(e);
    AccessAll(ACCESS0, EndMap(e).pis, e.rdData)
  }

  ghost function DmCmds(cmds: seq<Cmd>): seq<DmCmd>
  {
    seq(|cmds|, i requires 0 <= i < |cmds| => ToDm(cmds[i]))
  }

  ghost predicate AllKnown(pis: seq<Pi>)
  {
    forall i :: 0 <= i < |pis| ==> Known(pis[i])
  }

  /** alloc_address lets only the three known requests through ... */
  lemma {:induction false} AllocKnown(a: Alloc, pis: seq<Pi>, ds: seq<Flit>, rets: seq<AllocRet>)
    requires a.state == AllocWait ==> Known(a.pi)
    ensures AllKnown(AllocAll(a, pis, ds, rets).pis)
    decreases |pis| + |ds| + |rets|
  {
    match a.state
    case AllocIdle => if pis != [] { AllocKnown(AllocTakePi(a, pis[0]).0, pis[1..], ds, rets); }
    case AllocStream => if ds != [] { AllocKnown(AllocTakeFlit(a, ds[0]).0, pis, ds[1..], rets); }
    case AllocWait => if rets != [] { AllocKnown(AllocTakeRet(a, rets[0]).0, pis, ds, rets[1..]); }
  }

  lemma {:induction false} MapKnown(m: Map, pis: seq<Pi>, ds: seq<Flit>, rets: seq<MapRet>)
    requires (m.state == MapWait ==> Known(m.pi)) && AllKnown(pis)
    ensures AllKnown(MapAll(m, pis, ds, rets).pis)
    decreases |pis| + |ds| + |rets|
  {
    match m.state
    case MapIdle => if pis != [] { assert Known(pis[0]); MapKnown(MapTakePi(m, pis[0]).0, pis[1..], ds, rets); }
    case MapWait => if rets != [] { MapKnown(MapTakeRet(m, rets[0]).0, pis, ds, rets[1..]); }
    case MapStream => if ds != [] { MapKnown(MapTakeFlit(m, ds[0]).0, pis, ds[1..], rets); }
  }

  /** ... so access never meets an opcode that would hold it in its header state. */
  lemma KnownToAccess(e: Env)
    ensures AllKnown(EndMap(e).pis)
  {
    AllocKnown(ALLOC0, EndParser(e).pis, EndParser(e).ds, e.allocRets);
    MapKnown(MAP0, EndAlloc(e).pis, EndAlloc(e).ds, e.mapRets);
  }

  ghost function AllocsIn(pis: seq<Pi>): nat
  {
    if pis == [] then 0 else (if pis[0].op == ALLOC then 1 else 0) + AllocsIn(pis[1..])
  }

  /** Whatever comes in, alloc_address asks the allocator at most once for each ALLOC, and for nothing else. */
  lemma {:induction false} OnlyAllocsAsk(a: Alloc, pis: seq<Pi>, ds: seq<Flit>, rets: seq<AllocRet>)
    ensures AllocAll(a, pis, ds, rets).reqs <= AllocsIn(pis)
    decreases |pis| + |ds| + |rets|
  {
    match a.state
    case AllocIdle => if pis != [] { OnlyAllocsAsk(AllocTakePi(a, pis[0]).0, pis[1..], ds, rets); }
    case AllocStream => if ds != [] { OnlyAllocsAsk(AllocTakeFlit(a, ds[0]).0, pis, ds[1..], rets); }
    case AllocWait => if rets != [] { OnlyAllocsAsk(AllocTakeRet(a, rets[0]).0, pis, ds, rets[1..]); }
  }

  // ---------- FIFOs and stages

  /** A FIFO as the log of all that was written to it and the number of items read. */
  datatype Fifo<T> = Fifo(log: seq<T>, taken: nat)
  {
    predicate Ok() { taken <= |log| }
    predicate Empty() { taken >= |log| }
    function Put(x: T): Fifo<T> { this.(log := log + [x]) }
    function PutAll(xs: seq<T>): Fifo<T> { this.(log := log + xs) }
    function Took(): Fifo<T> { this.(taken := taken + 1) }
  }

  /** The FIFO with the next item of what the environment is to send, if there is one. */
  function Fed<T>(f: Fifo<T>, whole: seq<T>): Fifo<T>
  {
    if |f.log| < |whole| then f.Put(whole[|f.log|]) else f
  }

  /** What was written is a part, from the start, of all that is going to be written. */
  ghost predicate Along<T>(f: Fifo<T>, whole: seq<T>)
  {
    f.Ok() && f.log <= whole
  }

  datatype ParserUnit = ParserUnit(reg: Parser, pi: Fifo<Pi>, d: Fifo<Flit>)
  datatype AllocUnit = AllocUnit(reg: Alloc, reqs: nat, pi: Fifo<Pi>, d: Fifo<Flit>)
  datatype MapUnit = MapUnit(reg: Map, reqs: seq<MapReq>, pi: Fifo<Pi>, rdCmd: Fifo<Cmd>, wrCmd: Fifo<Cmd>, wrData: Fifo<Data>)
  datatype AccessUnit = AccessUnit(reg: Access, d: Fifo<Flit>)
  datatype WrUnit = WrUnit(reg: WrPipe, cmds: seq<DmCmd>, data: seq<Flit>)

  ghost predicate ParserOk(p: ParserUnit, net: Fifo<Flit>, e: Env)
  {
    && Along(net, e.wire) && p.pi.Ok() && p.d.Ok()
    && var r := ParserAll(p.reg, e.wire[net.taken..]);
       EndParser(e) == ParserOut(p.pi.log + r.pis, p.d.log + r.ds)
  }

  ghost predicate AllocOk(a: AllocUnit, pi: Fifo<Pi>, d: Fifo<Flit>, ret: Fifo<AllocRet>, e: Env)
  {
    && Along(pi, EndParser(e).pis) && Along(d, EndParser(e).ds) && Along(ret, e.allocRets) && a.pi.Ok() && a.d.Ok()
    && var r := AllocAll(a.reg, EndParser(e).pis[pi.taken..], EndParser(e).ds[d.taken..], e.allocRets[ret.taken..]);
       EndAlloc(e) == AllocOut(a.pi.log + r.pis, a.d.log + r.ds, a.reqs + r.reqs)
  }

  ghost predicate MapOk(m: MapUnit, pi: Fifo<Pi>, d: Fifo<Flit>, ret: Fifo<MapRet>, e: Env)
  {
    && Along(pi, EndAlloc(e).pis) && Along(d, EndAlloc(e).ds) && Along(ret, e.mapRets)
    && m.pi.Ok() && m.rdCmd.Ok() && m.wrCmd.Ok() && m.wrData.Ok()
    && var r := MapAll(m.reg, EndAlloc(e).pis[pi.taken..], EndAlloc(e).ds[d.taken..], e.mapRets[ret.taken..]);
       EndMap(e) == MapOut(m.pi.log + r.pis, m.reqs + r.reqs, m.rdCmd.log + r.rdCmds, m.wrCmd.log + r.wrCmds, m.wrData.log + r.wrData)
  }

  ghost predicate AccessOk(x: AccessUnit, pi: Fifo<Pi>, rdData: Fifo<Data>, e: Env)
  {
    && Along(pi, EndMap(e).pis) && Along(rdData, e.rdData) && x.d.Ok()
    && AllKnown(EndMap(e).pis) && (x.reg.state == AccessApp ==> Known(x.reg.pi))
    && EndReplies(e) == x.d.log + AccessAll(x.reg, EndMap(e).pis[pi.taken..], e.rdData[rdData.taken..])
  }

  ghost predicate WrOk(w: WrUnit, cmd: Fifo<Cmd>, data: Fifo<Data>, e: Env)
  {
    && Along(cmd, EndMap(e).wrCmds) && Along(data, EndMap(e).wrData)
    && var r := WrAll(w.reg, EndMap(e).wrCmds[cmd.taken..], EndMap(e).wrData[data.taken..]);
       EndWr(e) == WrOut(w.cmds + r.cmds, w.data + r.data)
  }

  class Rdm {
    const e: Env
    var net: Fifo<Flit>
    var allocRet: Fifo<AllocRet>
    var mapRet: Fifo<MapRet>
    var rdData: Fifo<Data>
    var parser: ParserUnit
    var alloc: AllocUnit
    var map_: MapUnit
    var access: AccessUnit
    var wr: WrUnit
    var dmRdCmds: seq<DmCmd>
    var toNet: seq<Flit>

    ghost predicate Inv()
      reads this
    {
      && ParserOk(parser, net, e)
      && AllocOk(alloc, parser.pi, parser.d, allocRet, e)
      && MapOk(map_, alloc.pi, alloc.d, mapRet, e)
      && AccessOk(access, map_.pi, rdData, e)
      && WrOk(wr, map_.wrCmd, map_.wrData, e)
      && dmRdCmds == DmCmds(map_.rdCmd.log[..map_.rdCmd.taken])
      && toNet == access.d.log[..access.d.taken]
    }

    /** alloc_address finds what it waits for. */
    predicate CanAlloc()
      reads this
    {
      match alloc.reg.state
      case AllocIdle => !parser.pi.Empty()
      case AllocStream => !parser.d.Empty()
      case AllocWait => !allocRet.Empty()
    }

    predicate CanMap()
      reads this
    {
      match map_.reg.state
      case MapIdle => !alloc.pi.Empty()
      case MapWait => !mapRet.Empty()
      case MapStream => !alloc.d.Empty()
    }

    predicate CanAccess()
      reads this
    {
      match access.reg.state
      case AccessIdle => !map_.pi.Empty()
      case AccessApp => true
      case AccessRead => !rdData.Empty()
    }

    predicate CanWrite()
      reads this
    {
      if wr.reg.busy then !map_.wrData.Empty() else !map_.wrCmd.Empty()
    }

    /** Everything the environment has to send was sent. */
    predicate AllSent()
      reads this
    {
      |net.log| == |e.wire| && |allocRet.log| == |e.allocRets| && |mapRet.log| == |e.mapRets| && |rdData.log| == |e.rdData|
    }

    /** No stage finds what it waits for. */
    predicate Stuck()
      reads this
    {
      net.Empty() && !CanAlloc() && !CanMap() && !CanAccess() && access.d.Empty() && map_.rdCmd.Empty() && !CanWrite()
    }

    constructor (env: Env)
      ensures Inv() && e == env
    {
      e := env;
      net, allocRet, mapRet, rdData := Fifo([], 0), Fifo([], 0), Fifo([], 0), Fifo([], 0);
      parser := ParserUnit(PARSER0, Fifo([], 0), Fifo([], 0));
      alloc := AllocUnit(ALLOC0, 0, Fifo([], 0), Fifo([], 0));
      map_ := MapUnit(MAP0, [], Fifo([], 0), Fifo([], 0), Fifo([], 0), Fifo([], 0));
      access := AccessUnit(ACCESS0, Fifo([], 0));
      wr := WrUnit(WR0, [], []);
      dmRdCmds, toNet := [], [];
      new;
      InitialOk(e);
    }

    /** The environment delivers its next packet unit, allocator answer, mapping answer or DRAM word. */
    method Deliver(which: nat)
      requires Inv()
      modifies this`net, this`allocRet, this`mapRet, this`rdData
      ensures Inv()
      ensures net == if which == 0 then Fed(old(net), e.wire) else old(net)
      ensures allocRet == if which == 1 then Fed(old(allocRet), e.allocRets) else old(allocRet)
      ensures mapRet == if which == 2 then Fed(old(mapRet), e.mapRets) else old(mapRet)
      ensures rdData == if which > 2 then Fed(old(rdData), e.rdData) else old(rdData)
    {
      hide ParserAll, AllocAll, MapAll, AccessAll, WrAll, EndParser, EndAlloc, EndMap, EndReplies, EndWr;
      if which == 0 {
        net := Fed(net, e.wire);
      } else if which == 1 {
        allocRet := Fed(allocRet, e.allocRets);
      } else if which == 2 {
        mapRet := Fed(mapRet, e.mapRets);
      } else {
        rdData := Fed(rdData, e.rdData);
      }
    }

    /** parser */
    method Parse()
      requires Inv()
      modifies this`net, this`parser
      ensures Inv()
      ensures if old(net).Empty() then net == old(net) && parser == old(parser)
        else net == old(net).Took() && parser == ParserNext(old(parser), old(net.log[net.taken]))
    {
      hide AllocAll, MapAll, AccessAll, WrAll, EndParser, EndAlloc, EndMap, EndReplies, EndWr, MapOk, AccessOk, WrOk, ParserStep;
      if net.Empty() { return; }
      ParserMove(parser, net, e);
      parser := ParserNext(parser, net.log[net.taken]);
      net := net.Took();
    }

    /** alloc_address */
    method AllocAddress()
      requires Inv()
      modifies this`parser, this`allocRet, this`alloc
      ensures Inv()
      ensures !old(CanAlloc()) ==> parser == old(parser) && allocRet == old(allocRet) && alloc == old(alloc)
      ensures old(CanAlloc()) ==>
        match old(alloc.reg.state)
        case AllocIdle =>
          var r := AllocTakePi(old(alloc.reg), old(parser.pi.log[parser.pi.taken]));
          alloc == AllocNext(old(alloc), r.0, r.1) && parser == old(parser).(pi := old(parser.pi).Took()) && allocRet == old(allocRet)
        case AllocStream =>
          var r := AllocTakeFlit(old(alloc.reg), old(parser.d.log[parser.d.taken]));
          alloc == AllocNext(old(alloc), r.0, r.1) && parser == old(parser).(d := old(parser.d).Took()) && allocRet == old(allocRet)
        case AllocWait =>
          var r := AllocTakeRet(old(alloc.reg), old(allocRet.log[allocRet.taken]));
          alloc == AllocNext(old(alloc), r.0, r.1) && parser == old(parser) && allocRet == old(allocRet).Took()
    {
      hide ParserAll, AllocAll, MapAll, AccessAll, WrAll, EndParser, EndAlloc, EndMap, EndReplies, EndWr,
        AccessOk, WrOk, AllocTakePi, AllocTakeFlit, AllocTakeRet;
      AllocMove(alloc, parser.pi, parser.d, allocRet, e);
      match alloc.reg.state
      case AllocIdle =>
        if parser.pi.Empty() { return; }
        var r := AllocTakePi(alloc.reg, parser.pi.log[parser.pi.taken]);
        parser := parser.(pi := parser.pi.Took());
        alloc := AllocNext(alloc, r.0, r.1);
      case AllocStream =>
        if parser.d.Empty() { return; }
        var r := AllocTakeFlit(alloc.reg, parser.d.log[parser.d.taken]);
        parser := parser.(d := parser.d.Took());
        alloc := AllocNext(alloc, r.0, r.1);
      case AllocWait =>
        if allocRet.Empty() { return; }
        var r := AllocTakeRet(alloc.reg, allocRet.log[allocRet.taken]);
        allocRet := allocRet.Took();
        alloc := AllocNext(alloc, r.0, r.1);
    }

    /** map */
    method MapStage()
      requires Inv()
      modifies this`alloc, this`mapRet, this`map_
      ensures Inv()
      ensures !old(CanMap()) ==> alloc == old(alloc) && mapRet == old(mapRet) && map_ == old(map_)
      ensures old(CanMap()) ==>
        match old(map_.reg.state)
        case MapIdle =>
          var r := MapTakePi(old(map_.reg), old(alloc.pi.log[alloc.pi.taken]));
          map_ == MapNext(old(map_), r.0, r.1) && alloc == old(alloc).(pi := old(alloc.pi).Took()) && mapRet == old(mapRet)
        case MapWait =>
          var r := MapTakeRet(old(map_.reg), old(mapRet.log[mapRet.taken]));
          map_ == MapNext(old(map_), r.0, r.1) && alloc == old(alloc) && mapRet == old(mapRet).Took()
        case MapStream =>
          var r := MapTakeFlit(old(map_.reg), old(alloc.d.log[alloc.d.taken]));
          map_ == MapNext(old(map_), r.0, r.1) && alloc == old(alloc).(d := old(alloc.d).Took()) && mapRet == old(mapRet)
    {
      hide ParserAll, AllocAll, MapAll, AccessAll, WrAll, EndParser, EndAlloc, EndMap, EndReplies, EndWr,
        ParserOk, MapTakePi, MapTakeFlit, MapTakeRet;
      MapMove(map_, alloc.pi, alloc.d, mapRet, e);
      match map_.reg.state
      case MapIdle =>
        if alloc.pi.Empty() { return; }
        var r := MapTakePi(map_.reg, alloc.pi.log[alloc.pi.taken]);
        alloc := alloc.(pi := alloc.pi.Took());
        map_ := MapNext(map_, r.0, r.1);
      case MapWait =>
        if mapRet.Empty() { return; }
        var r := MapTakeRet(map_.reg, mapRet.log[mapRet.taken]);
        mapRet := mapRet.Took();
        map_ := MapNext(map_, r.0, r.1);
      case MapStream =>
        if alloc.d.Empty() { return; }
        var r := MapTakeFlit(map_.reg, alloc.d.log[alloc.d.taken]);
        alloc := alloc.(d := alloc.d.Took());
        map_ := MapNext(map_, r.0, r.1);
    }

    /** access */
    method AccessStage()
      requires Inv()
      modifies this`map_, this`rdData, this`access
      ensures Inv()
      ensures !old(CanAccess()) ==> map_ == old(map_) && rdData == old(rdData) && access == old(access)
      ensures old(CanAccess()) ==>
        match old(access.reg.state)
        case AccessIdle =>
          var r := AccessTakePi(old(access.reg), old(map_.pi.log[map_.pi.taken]));
          access == AccessNext(old(access), r.0, r.1) && map_ == old(map_).(pi := old(map_.pi).Took()) && rdData == old(rdData)
        case AccessApp =>
          var r := AccessSendApp(old(access.reg));
          access == AccessNext(old(access), r.0, r.1) && map_ == old(map_) && rdData == old(rdData)
        case AccessRead =>
          var r := AccessTakeData(old(access.reg), old(rdData.log[rdData.taken]));
          access == AccessNext(old(access), r.0, r.1) && map_ == old(map_) && rdData == old(rdData).Took()
    {
      hide ParserAll, AllocAll, MapAll, AccessAll, WrAll, EndParser, EndAlloc, EndMap, EndReplies, EndWr,
        ParserOk, AllocOk, WrOk, AccessTakePi, AccessSendApp, AccessTakeData;
      AccessMove(access, map_.pi, rdData, e);
      match access.reg.state
      case AccessIdle =>
        if map_.pi.Empty() { return; }
        var r := AccessTakePi(access.reg, map_.pi.log[map_.pi.taken]);
        map_ := map_.(pi := map_.pi.Took());
        access := AccessNext(access, r.0, r.1);
      case AccessApp =>
        var r := AccessSendApp(access.reg);
        access := AccessNext(access, r.0, r.1);
      case AccessRead =>
        if rdData.Empty() { return; }
        var r := AccessTakeData(access.reg, rdData.log[rdData.taken]);
        rdData := rdData.Took();
        access := AccessNext(access, r.0, r.1);
    }

    /** reply */
    method ReplyStage()
      requires Inv()
      modifies this`access, this`toNet
      ensures Inv()
      ensures if old(access.d).Empty() then access == old(access) && toNet == old(toNet)
        else access == old(access).(d := old(access.d).Took()) && toNet == old(toNet) + [old(access.d.log[access.d.taken])]
    {
      hide ParserOk, AllocOk, MapOk, WrOk, AccessAll, EndMap, EndReplies;
      if access.d.Empty() { return; }
      toNet := toNet + [access.d.log[access.d.taken]];
      access := access.(d := access.d.Took());
    }

    /** DRAM_rd_pipe, command side */
    method RdPipeStage()
      requires Inv()
      modifies this`map_, this`dmRdCmds
      ensures Inv()
      ensures old(map_.rdCmd).Empty() ==> map_ == old(map_) && dmRdCmds == old(dmRdCmds)
      ensures !old(map_.rdCmd).Empty() ==>
        && map_ == old(map_).(rdCmd := old(map_.rdCmd).Took())
        && dmRdCmds == old(dmRdCmds) + [ToDm(old(map_.rdCmd.log[map_.rdCmd.taken]))]
    {
      hide ParserOk, AllocOk, AccessOk, WrOk, MapAll, EndAlloc, EndMap, ToDm;
      if map_.rdCmd.Empty() { return; }
      var n := map_.rdCmd.taken;
      dmRdCmds := dmRdCmds + [ToDm(map_.rdCmd.log[n])];
      assert map_.rdCmd.log[..n + 1] == map_.rdCmd.log[..n] + [map_.rdCmd.log[n]];
      map_ := map_.(rdCmd := map_.rdCmd.Took());
    }

    /** DRAM_wr_pipe */
    method WrPipeStage()
      requires Inv()
      modifies this`map_, this`wr
      ensures Inv()
      ensures !old(CanWrite()) ==> map_ == old(map_) && wr == old(wr)
      ensures old(CanWrite() && !wr.reg.busy) ==>
        var r := WrTakeCmd(old(wr.reg), old(map_.wrCmd.log[map_.wrCmd.taken]));
        wr == WrNext(old(wr), r.0, r.1) && map_ == old(map_).(wrCmd := old(map_.wrCmd).Took())
      ensures old(CanWrite() && wr.reg.busy) ==>
        var r := WrTakeData(old(wr.reg), old(map_.wrData.log[map_.wrData.taken]));
        wr == WrNext(old(wr), r.0, r.1) && map_ == old(map_).(wrData := old(map_.wrData).Took())
    {
      hide ParserOk, AllocOk, AccessOk, MapAll, WrAll, EndAlloc, EndMap, EndWr, WrTakeCmd, WrTakeData;
      WrMove(wr, map_.wrCmd, map_.wrData, e);
      if !wr.reg.busy {
        if map_.wrCmd.Empty() { return; }
        var r := WrTakeCmd(wr.reg, map_.wrCmd.log[map_.wrCmd.taken]);
        map_ := map_.(wrCmd := map_.wrCmd.Took());
        wr := WrNext(wr, r.0, r.1);
      } else {
        if map_.wrData.Empty() { return; }
        var r := WrTakeData(wr.reg, map_.wrData.log[map_.wrData.taken]);
        map_ := map_.(wrData := map_.wrData.Took());
        wr := WrNext(wr, r.0, r.1);
      }
    }
  }

  // ---------- the stages' moves

  function ParserNext(p: ParserUnit, d: Flit): ParserUnit
  {
    var r := ParserStep(p.reg, d);
    ParserUnit(r.0, p.pi.PutAll(r.1.pis), p.d.PutAll(r.1.ds))
  }

  function AllocNext(a: AllocUnit, reg: Alloc, r: AllocOut): AllocUnit
  {
    AllocUnit(reg, a.reqs + r.reqs, a.pi.PutAll(r.pis), a.d.PutAll(r.ds))
  }

  function MapNext(m: MapUnit, reg: Map, r: MapOut): MapUnit
  {
    MapUnit(reg, m.reqs + r.reqs, m.pi.PutAll(r.pis), m.rdCmd.PutAll(r.rdCmds), m.wrCmd.PutAll(r.wrCmds), m.wrData.PutAll(r.wrData))
  }

  function AccessNext(x: AccessUnit, reg: Access, out: seq<Flit>): AccessUnit
  {
    AccessUnit(reg, x.d.PutAll(out))
  }

  function WrNext(w: WrUnit, reg: WrPipe, r: WrOut): WrUnit
  {
    WrUnit(reg, w.cmds + r.cmds, w.data + r.data)
  }

  lemma InitialOk(e: Env)
    ensures ParserOk(ParserUnit(PARSER0, Fifo([], 0), Fifo([], 0)), Fifo([], 0), e)
    ensures AllocOk(AllocUnit(ALLOC0, 0, Fifo([], 0), Fifo([], 0)), Fifo([], 0), Fifo([], 0), Fifo([], 0), e)
    ensures MapOk(MapUnit(MAP0, [], Fifo([], 0), Fifo([], 0), Fifo([], 0), Fifo([], 0)), Fifo([], 0), Fifo([], 0), Fifo([], 0), e)
    ensures AccessOk(AccessUnit(ACCESS0, Fifo([], 0)), Fifo([], 0), Fifo([], 0), e)
    ensures WrOk(WrUnit(WR0, [], []), Fifo([], 0), Fifo([], 0), e)
  {
    KnownToAccess(e);
    hide ParserAll, AllocAll, MapAll, AccessAll, WrAll;
  }

  /** The next item of a FIFO is the next of all that will ever be in it. */
  lemma NextItem<T>(f: Fifo<T>, whole: seq<T>)
    requires Along(f, whole) && !f.Empty()
    ensures whole[f.taken..] != [] && whole[f.taken..][0] == f.log[f.taken]
    ensures whole[f.taken..][1..] == whole[f.taken + 1..] && Along(f.Took(), whole)
  {
  }

  lemma AllocMove(a: AllocUnit, pi: Fifo<Pi>, d: Fifo<Flit>, ret: Fifo<AllocRet>, e: Env)
    requires AllocOk(a, pi, d, ret, e)
    ensures a.pi.log <= EndAlloc(e).pis && a.d.log <= EndAlloc(e).ds
    ensures a.reg.state == AllocIdle && !pi.Empty() ==>
      var r := AllocTakePi(a.reg, pi.log[pi.taken]); var b := AllocNext(a, r.0, r.1);
      AllocOk(b, pi.Took(), d, ret, e) && b.pi.log <= EndAlloc(e).pis && b.d.log <= EndAlloc(e).ds
    ensures a.reg.state == AllocStream && !d.Empty() ==>
      var r := AllocTakeFlit(a.reg, d.log[d.taken]); var b := AllocNext(a, r.0, r.1);
      AllocOk(b, pi, d.Took(), ret, e) && b.pi.log <= EndAlloc(e).pis && b.d.log <= EndAlloc(e).ds
    ensures a.reg.state == AllocWait && !ret.Empty() ==>
      var r := AllocTakeRet(a.reg, ret.log[ret.taken]); var b := AllocNext(a, r.0, r.1);
      AllocOk(b, pi, d, ret.Took(), e) && b.pi.log <= EndAlloc(e).pis && b.d.log <= EndAlloc(e).ds
  {
    hide EndParser, EndAlloc, AllocTakePi, AllocTakeFlit, AllocTakeRet;
    if !pi.Empty() { NextItem(pi, EndParser(e).pis); }
    if !d.Empty() { NextItem(d, EndParser(e).ds); }
    if !ret.Empty() { NextItem(ret, e.allocRets); }
  }

  ghost predicate MapAlong(m: MapUnit, e: Env)
  {
    m.pi.log <= EndMap(e).pis && m.rdCmd.log <= EndMap(e).rdCmds && m.wrCmd.log <= EndMap(e).wrCmds && m.wrData.log <= EndMap(e).wrData
  }

  /** One step of map leaves its whole output as it was going to be. */
  lemma MapStep(m: MapUnit, reg: Map, r: MapOut, rest: MapOut, all: MapOut)
    requires m.pi.Ok() && m.rdCmd.Ok() && m.wrCmd.Ok() && m.wrData.Ok()
    requires var x := JoinMap(r, rest);
      all == MapOut(m.pi.log + x.pis, m.reqs + x.reqs, m.rdCmd.log + x.rdCmds, m.wrCmd.log + x.wrCmds, m.wrData.log + x.wrData)
    ensures var n := MapNext(m, reg, r);
      && n.reg == reg && n.pi.Ok() && n.rdCmd.Ok() && n.wrCmd.Ok() && n.wrData.Ok()
      && n.pi.taken == m.pi.taken && n.rdCmd.taken == m.rdCmd.taken && n.wrCmd.taken == m.wrCmd.taken && n.wrData.taken == m.wrData.taken
      && n.pi.log <= all.pis && n.rdCmd.log <= all.rdCmds && n.wrCmd.log <= all.wrCmds && n.wrData.log <= all.wrData
      && all == MapOut(n.pi.log + rest.pis, n.reqs + rest.reqs, n.rdCmd.log + rest.rdCmds, n.wrCmd.log + rest.wrCmds, n.wrData.log + rest.wrData)
  {
  }

  lemma MapMove(m: MapUnit, pi: Fifo<Pi>, d: Fifo<Flit>, ret: Fifo<MapRet>, e: Env)
    requires MapOk(m, pi, d, ret, e)
    ensures m.reg.state == MapIdle && !pi.Empty() ==>
      var r := MapTakePi(m.reg, pi.log[pi.taken]); var n := MapNext(m, r.0, r.1);
      MapOk(n, pi.Took(), d, ret, e) && MapAlong(n, e)
    ensures m.reg.state == MapWait && !ret.Empty() ==>
      var r := MapTakeRet(m.reg, ret.log[ret.taken]); var n := MapNext(m, r.0, r.1);
      MapOk(n, pi, d, ret.Took(), e) && MapAlong(n, e)
    ensures m.reg.state == MapStream && !d.Empty() ==>
      var r := MapTakeFlit(m.reg, d.log[d.taken]); var n := MapNext(m, r.0, r.1);
      MapOk(n, pi, d.Took(), ret, e) && MapAlong(n, e)
  {
    hide EndAlloc, EndMap, MapTakePi, MapTakeFlit, MapTakeRet, JoinMap, MapNext;
    var ps, ds, rs := EndAlloc(e).pis[pi.taken..], EndAlloc(e).ds[d.taken..], e.mapRets[ret.taken..];
    match m.reg.state
    case MapIdle =>
      if !pi.Empty() {
        NextItem(pi, EndAlloc(e).pis);
        var r := MapTakePi(m.reg, ps[0]);
        MapStep(m, r.0, r.1, MapAll(r.0, ps[1..], ds, rs), EndMap(e));
      }
    case MapWait =>
      if !ret.Empty() {
        NextItem(ret, e.mapRets);
        var r := MapTakeRet(m.reg, rs[0]);
        MapStep(m, r.0, r.1, MapAll(r.0, ps, ds, rs[1..]), EndMap(e));
      }
    case MapStream =>
      if !d.Empty() {
        NextItem(d, EndAlloc(e).ds);
        var r := MapTakeFlit(m.reg, ds[0]);
        MapStep(m, r.0, r.1, MapAll(r.0, ps, ds[1..], rs), EndMap(e));
      }
  }

  lemma AccessMove(x: AccessUnit, pi: Fifo<Pi>, rdData: Fifo<Data>, e: Env)
    requires AccessOk(x, pi, rdData, e)
    ensures x.reg.state == AccessIdle && !pi.Empty() ==>
      var r := AccessTakePi(x.reg, pi.log[pi.taken]); AccessOk(AccessNext(x, r.0, r.1), pi.Took(), rdData, e)
    ensures x.reg.state == AccessApp ==>
      var r := AccessSendApp(x.reg); AccessOk(AccessNext(x, r.0, r.1), pi, rdData, e)
    ensures x.reg.state == AccessRead && !rdData.Empty() ==>
      var r := AccessTakeData(x.reg, rdData.log[rdData.taken]); AccessOk(AccessNext(x, r.0, r.1), pi, rdData.Took(), e)
  {
    hide EndMap, EndReplies, ReplyHeader;
    if !pi.Empty() {
      NextItem(pi, EndMap(e).pis);
      assert Known(EndMap(e).pis[pi.taken]);
    }
    if !rdData.Empty() { NextItem(rdData, e.rdData); }
  }

  lemma WrMove(w: WrUnit, cmd: Fifo<Cmd>, data: Fifo<Data>, e: Env)
    requires WrOk(w, cmd, data, e)
    ensures !w.reg.busy && !cmd.Empty() ==>
      var r := WrTakeCmd(w.reg, cmd.log[cmd.taken]); WrOk(WrNext(w, r.0, r.1), cmd.Took(), data, e)
    ensures w.reg.busy && !data.Empty() ==>
      var r := WrTakeData(w.reg, data.log[data.taken]); WrOk(WrNext(w, r.0, r.1), cmd, data.Took(), e)
  {
    hide EndMap, EndWr, WrTakeCmd, WrTakeData;
    if !cmd.Empty() { NextItem(cmd, EndMap(e).wrCmds); }
    if !data.Empty() { NextItem(data, EndMap(e).wrData); }
  }

  lemma ParserMove(p: ParserUnit, net: Fifo<Flit>, e: Env)
    requires ParserOk(p, net, e) && !net.Empty()
    ensures var p' := ParserNext(p, net.log[net.taken]);
      && ParserOk(p', net.Took(), e)
      && p'.pi.log <= EndParser(e).pis && p'.d.log <= EndParser(e).ds
  {
    hide EndParser, ParserStep;
    assert e.wire[net.taken..][0] == net.log[net.taken];
    assert e.wire[net.taken..][1..] == e.wire[net.taken + 1..];
  }
}
