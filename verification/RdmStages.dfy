/**
 The stages of the RDM request pipeline (app/rdma/rdm_mapping/top.cpp), each as its registers and
 one step, and as the whole output it produces from the input still to come.
 */
module RdmStages {

  const READ: nat := 0
  const WRITE: nat := 1
  const ALLOC: nat := 3
  const REPLY_WRITE: nat := 4
  const REPLY_ALLOC: nat := 5
  const REPLY_ALLOC_ERROR: nat := 6
  const REPLY_READ: nat := 7
  const REPLY_READ_ERROR: nat := 8
  const MAPPING_GET: nat := 0
  const MAPPING_SET: nat := 2
  const U64: nat := 0x1_0000_0000_0000_0000

  /** A 512-bit word: bits 7..0, 71..8, 135..72, 199..136 and the rest. */
  datatype Data = Data(op: nat, addr: nat, len: nat, num: nat, rest: nat)
  /** One unit of an AXI stream. */
  datatype Flit = Flit(data: Data, last: bool)

  datatype Pi = Pi(
    op: nat, va: nat, length: nat, units: nat, pa: nat, mapOk: bool,
    allocOk: bool, allocPa: nat, allocVa: nat, num: nat, eth: Flit, app: Flit)

  datatype AllocRet = AllocRet(ok: bool, addr: nat)
  datatype MapReq = MapReq(opcode: nat, address: nat, length: nat)
  datatype MapRet = MapRet(ok: bool, address: nat)
  datatype Cmd = Cmd(address: nat, length: nat, units: nat)
  /** The datamover command fields that depend on the request: 23-bit byte count, 32-bit address. */
  datatype DmCmd = DmCmd(address: nat, btt: nat)

  /** round_up on unsigned long: ((x - 1) | (y - 1)) + 1 for a power of two y */
  function RoundUp(x: nat, y: nat): nat
    requires y > 0
  {
    (x + (y - 1)) / y * y % U64
  }

  function ToDm(c: Cmd): DmCmd { DmCmd(c.address % 0x1_0000_0000, c.length % 0x80_0000) }

  // ---------- parser

  datatype ParserState = EthHeader | AppHeader | Payload
  datatype Parser = Parser(state: ParserState, packets: nat, num: nat, eth: Flit, units: nat, offset: nat)
  datatype ParserOut = ParserOut(pis: seq<Pi>, ds: seq<Flit>)

  function ParseApp(eth: Flit, num: nat, app: Flit): Pi
  {
    var length := RoundUp(app.data.len, 64);
    Pi(app.data.op, app.data.addr, length, RoundUp(length, 64) / 64, 0, true, true, 0, 0, num, eth, app)
  }

  function ParserStep(p: Parser, d: Flit): (Parser, ParserOut)
  {
    match p.state
    case EthHeader =>
      (p.(state := AppHeader, num := p.packets, packets := p.packets + 1, eth := d, offset := 0), ParserOut([], []))
    case AppHeader =>
      var pi := ParseApp(p.eth, p.num, d);
      (p.(state := if pi.op == WRITE then Payload else EthHeader, units := pi.units), ParserOut([pi], []))
    case Payload =>
      if d.last then (p.(state := EthHeader), ParserOut([], [d]))
      else if p.offset + 1 == p.units then (p.(state := EthHeader), ParserOut([], [d.(last := true)]))
      else (p.(offset := p.offset + 1), ParserOut([], [d]))
  }

  function ParserAll(p: Parser, ins: seq<Flit>): ParserOut
    decreases |ins|
  {
    if ins == [] then ParserOut([], [])
    else
      var r := ParserStep(p, ins[0]);
      var rest := ParserAll(r.0, ins[1..]);
      ParserOut(r.1.pis + rest.pis, r.1.ds + rest.ds)
  }

  // ---------- alloc_address

  datatype AllocState = AllocIdle | AllocStream | AllocWait
  datatype Alloc = Alloc(state: AllocState, pi: Pi, nextVa: nat)
  datatype AllocOut = AllocOut(pis: seq<Pi>, ds: seq<Flit>, reqs: nat)

  /** rdm_alloc_va: the address handed out is nextVa. */
  function BumpVa(va: nat, length: nat): nat { (va + RoundUp(length, 0x1000)) % U64 }

  function AllocTakePi(a: Alloc, pi: Pi): (Alloc, AllocOut)
  {
    var b := a.(pi := pi);
    if pi.op == ALLOC then (b.(state := AllocWait), AllocOut([], [], 1))
    else if pi.op == READ then (b, AllocOut([pi], [], 0))
    else if pi.op == WRITE then (b.(state := AllocStream), AllocOut([pi], [], 0))
    else (b, AllocOut([], [], 0))
  }

  function AllocTakeFlit(a: Alloc, d: Flit): (Alloc, AllocOut)
  {
    (if d.last then a.(state := AllocIdle) else a, AllocOut([], [d], 0))
  }

  function AllocTakeRet(a: Alloc, ret: AllocRet): (Alloc, AllocOut)
  {
    if ret.ok then
      var pi := a.pi.(allocOk := true, allocPa := ret.addr, allocVa := a.nextVa);
      (Alloc(AllocIdle, pi, BumpVa(a.nextVa, pi.length)), AllocOut([pi], [], 0))
    else
      var pi := a.pi.(allocOk := false, allocPa := 0, allocVa := 0);
      (a.(state := AllocIdle, pi := pi), AllocOut([pi], [], 0))
  }

  function JoinAlloc(x: AllocOut, y: AllocOut): AllocOut { AllocOut(x.pis + y.pis, x.ds + y.ds, x.reqs + y.reqs) }

  function AllocAll(a: Alloc, pis: seq<Pi>, ds: seq<Flit>, rets: seq<AllocRet>): AllocOut
    decreases |pis| + |ds| + |rets|
  {
    match a.state
    case AllocIdle =>
      if pis == [] then AllocOut([], [], 0)
      else var r := AllocTakePi(a, pis[0]); JoinAlloc(r.1, AllocAll(r.0, pis[1..], ds, rets))
    case AllocStream =>
      if ds == [] then AllocOut([], [], 0)
      else var r := AllocTakeFlit(a, ds[0]); JoinAlloc(r.1, AllocAll(r.0, pis, ds[1..], rets))
    case AllocWait =>
      if rets == [] then AllocOut([], [], 0)
      else var r := AllocTakeRet(a, rets[0]); JoinAlloc(r.1, AllocAll(r.0, pis, ds, rets[1..]))
  }

  // ---------- map

  datatype MapState = MapIdle | MapWait | MapStream
  datatype Map = Map(state: MapState, pi: Pi)
  datatype MapOut = MapOut(pis: seq<Pi>, reqs: seq<MapReq>, rdCmds: seq<Cmd>, wrCmds: seq<Cmd>, wrData: seq<Data>)
  const NO_MAP: MapOut := MapOut([], [], [], [], [])

  function MapTakePi(m: Map, pi: Pi): (Map, MapOut)
  {
    var n := m.(pi := pi);
    if pi.op == ALLOC && !pi.allocOk then (n, NO_MAP.(pis := [pi]))
    else
      (n.(state := MapWait),
       NO_MAP.(reqs := [if pi.op == ALLOC then MapReq(MAPPING_SET, pi.allocVa, pi.allocPa) else MapReq(MAPPING_GET, pi.va, 0)]))
  }

  function MapTakeRet(m: Map, ret: MapRet): (Map, MapOut)
  {
    var pi := if ret.ok then m.pi.(mapOk := true, pa := ret.address) else m.pi.(mapOk := false);
    var cmd := Cmd(ret.address, m.pi.length, m.pi.units);
    (Map(if pi.op == WRITE then MapStream else MapIdle, pi),
     NO_MAP.(pis := [pi],
             rdCmds := if ret.ok && pi.op == READ then [cmd] else [],
             wrCmds := if ret.ok && pi.op == WRITE then [cmd] else []))
  }

  function MapTakeFlit(m: Map, d: Flit): (Map, MapOut)
  {
    (if d.last then m.(state := MapIdle) else m, NO_MAP.(wrData := [d.data]))
  }

  function JoinMap(x: MapOut, y: MapOut): MapOut
  {
    MapOut(x.pis + y.pis, x.reqs + y.reqs, x.rdCmds + y.rdCmds, x.wrCmds + y.wrCmds, x.wrData + y.wrData)
  }

  function MapAll(m: Map, pis: seq<Pi>, ds: seq<Flit>, rets: seq<MapRet>): MapOut
    decreases |pis| + |ds| + |rets|
  {
    match m.state
    case MapIdle =>
      if pis == [] then NO_MAP
      else var r := MapTakePi(m, pis[0]); JoinMap(r.1, MapAll(r.0, pis[1..], ds, rets))
    case MapWait =>
      if rets == [] then NO_MAP
      else var r := MapTakeRet(m, rets[0]); JoinMap(r.1, MapAll(r.0, pis, ds, rets[1..]))
    case MapStream =>
      if ds == [] then NO_MAP
      else var r := MapTakeFlit(m, ds[0]); JoinMap(r.1, MapAll(r.0, pis, ds[1..], rets))
  }

  // ---------- access

  datatype AccessState = AccessIdle | AccessApp | AccessRead
  datatype Access = Access(state: AccessState, pi: Pi, offset: nat)

  /** The application header of the reply. */
  function ReplyHeader(pi: Pi): Flit
  {
    var h := pi.app.data.(num := pi.num);
    if pi.op == ALLOC then
      if pi.allocOk then Flit(h.(op := REPLY_ALLOC, addr := pi.allocVa, len := pi.allocPa), true)
      else Flit(h.(op := REPLY_ALLOC_ERROR, addr := 0, len := 0), true)
    else if pi.op == READ then
      if pi.mapOk then Flit(h.(op := REPLY_READ), false) else Flit(h.(op := REPLY_READ_ERROR), true)
    else if pi.op == WRITE then Flit(h.(op := REPLY_WRITE), true)
    else Flit(h, pi.app.last)
  }

  function AccessTakePi(x: Access, pi: Pi): (Access, seq<Flit>)
  {
    (Access(AccessApp, pi, 0), [pi.eth])
  }

  /** Sends the header; an opcode that is none of the three leaves the stage where it is. */
  function AccessSendApp(x: Access): (Access, seq<Flit>)
  {
    var next := if x.pi.op == READ && x.pi.mapOk then AccessRead
                else if x.pi.op in {ALLOC, READ, WRITE} then AccessIdle else AccessApp;
    (x.(state := next), [ReplyHeader(x.pi)])
  }

  function AccessTakeData(x: Access, d: Data): (Access, seq<Flit>)
  {
    if x.offset + 1 == x.pi.units then (x.(state := AccessIdle, offset := x.offset + 1), [Flit(d, true)])
    else (x.(offset := x.offset + 1), [Flit(d, false)])
  }

  predicate Known(pi: Pi) { pi.op in {ALLOC, READ, WRITE} }

  function AccessAll(x: Access, pis: seq<Pi>, data: seq<Data>): seq<Flit>
    requires x.state == AccessApp ==> Known(x.pi)
    requires forall i :: 0 <= i < |pis| ==> Known(pis[i])
    decreases |pis| + |data|, x.state == AccessApp
  {
    match x.state
    case AccessIdle =>
      if pis == [] then [] else var r := AccessTakePi(x, pis[0]); r.1 + AccessAll(r.0, pis[1..], data)
    case AccessApp =>
      var r := AccessSendApp(x); r.1 + AccessAll(r.0, pis, data)
    case AccessRead =>
      if data == [] then [] else var r := AccessTakeData(x, data[0]); r.1 + AccessAll(r.0, pis, data[1..])
  }

  // ---------- DRAM_wr_pipe

  datatype WrPipe = WrPipe(busy: bool, written: nat, units: nat)
  datatype WrOut = WrOut(cmds: seq<DmCmd>, data: seq<Flit>)

  function WrTakeCmd(w: WrPipe, c: Cmd): (WrPipe, WrOut)
  {
    (WrPipe(true, 0, c.units), WrOut([ToDm(c)], []))
  }

  function WrTakeData(w: WrPipe, d: Data): (WrPipe, WrOut)
  {
    var n := w.written + 1;
    (WrPipe(n != w.units, n, w.units), WrOut([], [Flit(d, n == w.units)]))
  }

  function WrAll(w: WrPipe, cmds: seq<Cmd>, data: seq<Data>): WrOut
    decreases |cmds| + |data|
  {
    if !w.busy then
      if cmds == [] then WrOut([], [])
      else
        var r := WrTakeCmd(w, cmds[0]);
        var rest := WrAll(r.0, cmds[1..], data);
        WrOut(r.1.cmds + rest.cmds, r.1.data + rest.data)
    else if data == [] then WrOut([], [])
    else
      var r := WrTakeData(w, data[0]);
      var rest := WrAll(r.0, cmds, data[1..]);
      WrOut(r.1.cmds + rest.cmds, r.1.data + rest.data)
  }
}
