/** What the RDM stages, put in a row, answer to a list of request packets. */
module RdmReplies {
  import opened RdmStages

  datatype Packet = Packet(eth: Flit, app: Flit, data: seq<Flit>)

  function Units(k: Packet): nat { RoundUp(RoundUp(k.app.data.len, 64), 64) / 64 }

  /** A request the pipeline is built for; the length fits the datamover's 23 bits. */
  ghost predicate WellFormed(k: Packet)
  {
    && k.app.data.op in {READ, WRITE, ALLOC} && !k.eth.last
    && 1 <= k.app.data.len < 0x80_0000
    && (k.app.data.op == WRITE ==> |k.data| == Units(k) && forall i :: 0 <= i < |k.data| - 1 ==> !k.data[i].last)
    && (k.app.data.op != WRITE ==> k.data == [])
  }

  ghost predicate AllWellFormed(ks: seq<Packet>)
  {
    forall i :: 0 <= i < |ks| ==> WellFormed(ks[i])
  }

  ghost function Flits(k: Packet): seq<Flit> { [k.eth, k.app] + k.data }

  ghost function Wire(ks: seq<Packet>): seq<Flit>
  {
    if ks == [] then [] else Flits(ks[0]) + Wire(ks[1..])
  }

  /** The data units of a packet, the last one marked. */
  ghost function Framed(ds: seq<Flit>): seq<Flit>
  {
    seq(|ds|, i requires 0 <= i < |ds| => ds[i].(last := i + 1 == |ds|))
  }

  ghost function AllData(ks: seq<Packet>): seq<Flit>
  {
    if ks == [] then [] else Framed(ks[0].data) + AllData(ks[1..])
  }

  lemma UnitsPositive(k: Packet)
    requires 1 <= k.app.data.len < 0x80_0000
    ensures Units(k) >= 1
    ensures var r := RoundUp(k.app.data.len, 64);
      && RoundUp(r, 64) == r == 64 * Units(k) <= 0x80_0000
      && k.app.data.len <= r < k.app.data.len + 64
  {
  }

  // ---------- parser

  ghost function Parsed(ks: seq<Packet>, num: nat): seq<Pi>
  {
    if ks == [] then [] else [ParseApp(ks[0].eth, num, ks[0].app)] + Parsed(ks[1..], num + 1)
  }

  lemma {:induction false} ParsePayload(p: Parser, ds: seq<Flit>, rest: seq<Flit>) returns (q: Parser)
    requires p.state == Payload && ds != [] && p.units == p.offset + |ds|
    requires forall i :: 0 <= i < |ds| - 1 ==> !ds[i].last
    ensures q.state == EthHeader && q.packets == p.packets
    ensures var r := ParserAll(q, rest); ParserAll(p, ds + rest) == ParserOut(r.pis, Framed(ds) + r.ds)
    decreases |ds|
  {
    var s := ParserStep(p, ds[0]);
    assert (ds + rest)[1..] == ds[1..] + rest;
    if |ds| == 1 {
      q := s.0;
      assert ds + rest == [ds[0]] + rest;
      assert Framed(ds) == [ds[0].(last := true)];
    } else {
      q := ParsePayload(s.0, ds[1..], rest);
      assert Framed(ds) == [ds[0]] + Framed(ds[1..]);
      assert [ds[0]] + (Framed(ds[1..]) + ParserAll(q, rest).ds) == Framed(ds) + ParserAll(q, rest).ds;
    }
  }

  lemma ParsePacket(p: Parser, k: Packet, rest: seq<Flit>) returns (q: Parser)
    requires p.state == EthHeader && WellFormed(k)
    ensures q.state == EthHeader && q.packets == p.packets + 1
    ensures var r := ParserAll(q, rest);
      ParserAll(p, Flits(k) + rest) == ParserOut([ParseApp(k.eth, p.packets, k.app)] + r.pis, Framed(k.data) + r.ds)
  {
    UnitsPositive(k);
    var s1 := ParserStep(p, k.eth);
    var s2 := ParserStep(s1.0, k.app);
    var ins := Flits(k) + rest;
    assert ins[1..] == [k.app] + (k.data + rest);
    assert ins[1..][1..] == k.data + rest;
    if k.app.data.op == WRITE {
      q := ParsePayload(s2.0, k.data, rest);
    } else {
      q := s2.0;
      assert k.data + rest == rest;
    }
  }

  lemma {:induction false} ParseWire(p: Parser, ks: seq<Packet>)
    requires p.state == EthHeader && AllWellFormed(ks)
    ensures ParserAll(p, Wire(ks)) == ParserOut(Parsed(ks, p.packets), AllData(ks))
    decreases |ks|
  {
    if ks != [] {
      var q := ParsePacket(p, ks[0], Wire(ks[1..]));
      ParseWire(q, ks[1..]);
    }
  }

  // ---------- alloc_address

  ghost function CountAllocs(ks: seq<Packet>): nat
  {
    if ks == [] then 0 else (if ks[0].app.data.op == ALLOC then 1 else 0) + CountAllocs(ks[1..])
  }

  /** Requests after alloc_address: each ALLOC takes the next allocator answer and the next virtual address. */
  ghost function Allocated(ks: seq<Packet>, num: nat, va: nat, rets: seq<AllocRet>): seq<Pi>
    requires |rets| >= CountAllocs(ks)
  {
    if ks == [] then []
    else
      var pi := ParseApp(ks[0].eth, num, ks[0].app);
      if pi.op != ALLOC then [pi] + Allocated(ks[1..], num + 1, va, rets)
      else if rets[0].ok then
        [pi.(allocOk := true, allocPa := rets[0].addr, allocVa := va)]
        + Allocated(ks[1..], num + 1, BumpVa(va, pi.length), rets[1..])
      else [pi.(allocOk := false)] + Allocated(ks[1..], num + 1, va, rets[1..])
  }

  /** One packet's payload passes through whole. */
  lemma {:induction false} AllocPayload(a: Alloc, ds: seq<Flit>, pis: seq<Pi>, rest: seq<Flit>, rets: seq<AllocRet>)
    requires a.state == AllocStream && ds != [] && forall i :: 0 <= i < |ds| ==> (ds[i].last <==> i + 1 == |ds|)
    ensures var r := AllocAll(a.(state := AllocIdle), pis, rest, rets);
      AllocAll(a, pis, ds + rest, rets) == AllocOut(r.pis, ds + r.ds, r.reqs)
    decreases |ds|
  {
    assert (ds + rest)[1..] == ds[1..] + rest && ds == [ds[0]] + ds[1..];
    var r := AllocAll(a.(state := AllocIdle), pis, rest, rets);
    if |ds| == 1 {
      assert ds + rest == [ds[0]] + rest;
    } else {
      AllocPayload(a, ds[1..], pis, rest, rets);
      assert [ds[0]] + (ds[1..] + r.ds) == ds + r.ds;
    }
  }

  lemma {:induction false} AllocHeadRead(a: Alloc, pi: Pi, pis: seq<Pi>, ds: seq<Flit>, rets: seq<AllocRet>)
    requires a.state == AllocIdle && pi.op == READ
    ensures var r := AllocAll(a.(pi := pi), pis, ds, rets);
      AllocAll(a, [pi] + pis, ds, rets) == AllocOut([pi] + r.pis, r.ds, r.reqs)
  {
    assert ([pi] + pis)[1..] == pis;
  }

  lemma {:induction false} AllocHeadWrite(a: Alloc, pi: Pi, pis: seq<Pi>, fd: seq<Flit>, ds: seq<Flit>, rets: seq<AllocRet>)
    requires a.state == AllocIdle && pi.op == WRITE
    requires fd != [] && forall i :: 0 <= i < |fd| ==> (fd[i].last <==> i + 1 == |fd|)
    ensures var r := AllocAll(a.(pi := pi), pis, ds, rets);
      AllocAll(a, [pi] + pis, fd + ds, rets) == AllocOut([pi] + r.pis, fd + r.ds, r.reqs)
  {
    assert ([pi] + pis)[1..] == pis;
    AllocPayload(AllocTakePi(a, pi).0, fd, pis, ds, rets);
  }

  lemma {:induction false} AllocHeadAlloc(a: Alloc, pi: Pi, pis: seq<Pi>, ds: seq<Flit>, rets: seq<AllocRet>)
    requires a.state == AllocIdle && pi.op == ALLOC && rets != []
    ensures var t := AllocTakeRet(Alloc(AllocWait, pi, a.nextVa), rets[0]); var r := AllocAll(t.0, pis, ds, rets[1..]);
      AllocAll(a, [pi] + pis, ds, rets) == AllocOut(t.1.pis + r.pis, r.ds, 1 + r.reqs)
  {
    var all := [pi] + pis;
    assert all[1..] == pis;
    var s := AllocTakePi(a, pi);
    var t := AllocTakeRet(s.0, rets[0]);
    var r := AllocAll(t.0, pis, ds, rets[1..]);
    AllocTwoSteps(a, all, ds, rets);
    hide AllocAll;
    assert JoinAlloc(s.1, JoinAlloc(t.1, r)) == AllocOut(t.1.pis + r.pis, r.ds, 1 + r.reqs);
  }

  lemma {:induction false} AllocTwoSteps(a: Alloc, pis: seq<Pi>, ds: seq<Flit>, rets: seq<AllocRet>)
    requires a.state == AllocIdle && pis != [] && pis[0].op == ALLOC && rets != []
    ensures var s := AllocTakePi(a, pis[0]); var t := AllocTakeRet(s.0, rets[0]);
      AllocAll(a, pis, ds, rets) == JoinAlloc(s.1, JoinAlloc(t.1, AllocAll(t.0, pis[1..], ds, rets[1..])))
  {
    hide JoinAlloc, AllocTakeRet, BumpVa;
  }

  lemma {:induction false} AllocList(a: Alloc, ks: seq<Packet>, num: nat, rets: seq<AllocRet>)
    requires a.state == AllocIdle && AllWellFormed(ks) && |rets| >= CountAllocs(ks)
    ensures AllocAll(a, Parsed(ks, num), AllData(ks), rets)
         == AllocOut(Allocated(ks, num, a.nextVa, rets), AllData(ks), CountAllocs(ks))
    decreases |ks|
  {
    if ks != [] {
      hide AllocAll, RoundUp, BumpVa, Framed;
      var k := ks[0];
      var pi := ParseApp(k.eth, num, k.app);
      var pis, ds := Parsed(ks[1..], num + 1), AllData(ks[1..]);
      UnitsPositive(k);
      FramedLast(k.data);
      if pi.op == WRITE {
        AllocHeadWrite(a, pi, pis, Framed(k.data), ds, rets);
        AllocList(a.(pi := pi), ks[1..], num + 1, rets);
      } else {
        assert Framed(k.data) + ds == ds;
        if pi.op == READ {
          AllocHeadRead(a, pi, pis, ds, rets);
          AllocList(a.(pi := pi), ks[1..], num + 1, rets);
        } else {
          AllocHeadAlloc(a, pi, pis, ds, rets);
          AllocList(AllocTakeRet(Alloc(AllocWait, pi, a.nextVa), rets[0]).0, ks[1..], num + 1, rets[1..]);
        }
      }
    }
  }

  lemma FramedLast(ds: seq<Flit>)
    ensures |Framed(ds)| == |ds| && forall i :: 0 <= i < |ds| ==> (Framed(ds)[i].last <==> i + 1 == |ds|)
  {
  }

  // ---------- map

  predicate Maps(pi: Pi) { !(pi.op == ALLOC && !pi.allocOk) }

  ghost function CountMaps(pis: seq<Pi>): nat
  {
    if pis == [] then 0 else (if Maps(pis[0]) then 1 else 0) + CountMaps(pis[1..])
  }

  function WithMap(pi: Pi, ret: MapRet): Pi
  {
    if ret.ok then pi.(mapOk := true, pa := ret.address) else pi.(mapOk := false)
  }

  /** Requests after map: each takes the next mapping answer, except an ALLOC that already failed. */
  ghost function Mapped(pis: seq<Pi>, rets: seq<MapRet>): seq<Pi>
    requires |rets| >= CountMaps(pis)
  {
    if pis == [] then []
    else if Maps(pis[0]) then [WithMap(pis[0], rets[0])] + Mapped(pis[1..], rets[1..])
    else [pis[0]] + Mapped(pis[1..], rets)
  }

  ghost function MapRequests(pis: seq<Pi>): seq<MapReq>
  {
    if pis == [] then []
    else if !Maps(pis[0]) then MapRequests(pis[1..])
    else if pis[0].op == ALLOC then [MapReq(MAPPING_SET, pis[0].allocVa, pis[0].allocPa)] + MapRequests(pis[1..])
    else [MapReq(MAPPING_GET, pis[0].va, 0)] + MapRequests(pis[1..])
  }

  /** Memory commands for the requests of one kind whose mapping succeeded. */
  ghost function Commands(pis: seq<Pi>, op: nat): seq<Cmd>
  {
    if pis == [] then []
    else if pis[0].op == op && pis[0].mapOk then [Cmd(pis[0].pa, pis[0].length, pis[0].units)] + Commands(pis[1..], op)
    else Commands(pis[1..], op)
  }

  ghost function Words(ds: seq<Flit>): seq<Data>
  {
    seq(|ds|, i requires 0 <= i < |ds| => ds[i].data)
  }

  lemma {:induction false} MapPayload(m: Map, ds: seq<Flit>, pis: seq<Pi>, rest: seq<Flit>, rets: seq<MapRet>)
    requires m.state == MapStream && ds != [] && forall i :: 0 <= i < |ds| ==> (ds[i].last <==> i + 1 == |ds|)
    ensures var r := MapAll(m.(state := MapIdle), pis, rest, rets);
      MapAll(m, pis, ds + rest, rets) == r.(wrData := Words(ds) + r.wrData)
    decreases |ds|
  {
    hide MapAll;
    assert (ds + rest)[1..] == ds[1..] + rest && ds == [ds[0]] + ds[1..];
    MapFlit(m, pis, ds + rest, rets);
    var r := MapAll(m.(state := MapIdle), pis, rest, rets);
    assert Words(ds) == [ds[0].data] + Words(ds[1..]);
    if |ds| == 1 {
      assert ds[1..] + rest == rest;
    } else {
      MapPayload(m, ds[1..], pis, rest, rets);
      assert [ds[0].data] + (Words(ds[1..]) + r.wrData) == Words(ds) + r.wrData;
    }
  }

  lemma MapFlit(m: Map, pis: seq<Pi>, ds: seq<Flit>, rets: seq<MapRet>)
    requires m.state == MapStream && ds != []
    ensures var r := MapAll(if ds[0].last then m.(state := MapIdle) else m, pis, ds[1..], rets);
      MapAll(m, pis, ds, rets) == r.(wrData := [ds[0].data] + r.wrData)
  {
  }

  /** What alloc_address leaves of a list of packets: the same requests, WRITEs with their payload. */
  ghost predicate Matches(ks: seq<Packet>, pis: seq<Pi>)
  {
    |pis| == |ks| && forall i :: 0 <= i < |ks| ==> pis[i].op == ks[i].app.data.op
  }

  function OneRequest(pi: Pi): MapReq
  {
    if pi.op == ALLOC then MapReq(MAPPING_SET, pi.allocVa, pi.allocPa) else MapReq(MAPPING_GET, pi.va, 0)
  }

  /** One mapped request: its request, its commands and its own word, before the payload. */
  lemma MapOne(m: Map, pis: seq<Pi>, ds: seq<Flit>, rets: seq<MapRet>)
    requires m.state == MapIdle && pis != [] && Maps(pis[0]) && rets != []
    ensures var pi := WithMap(pis[0], rets[0]);
      var rest := MapAll(Map(if pi.op == WRITE then MapStream else MapIdle, pi), pis[1..], ds, rets[1..]);
      MapAll(m, pis, ds, rets) ==
        MapOut([pi] + rest.pis, [OneRequest(pis[0])] + rest.reqs,
               Commands([pi], READ) + rest.rdCmds, Commands([pi], WRITE) + rest.wrCmds, rest.wrData)
  {
    var s := MapTakePi(m, pis[0]);
    var t := MapTakeRet(s.0, rets[0]);
    var rest := MapAll(t.0, pis[1..], ds, rets[1..]);
    assert MapAll(m, pis, ds, rets) == JoinMap(s.1, JoinMap(t.1, rest)) by { hide MapTakePi, MapTakeRet, JoinMap; MapTwoSteps(m, pis, ds, rets); }
    hide MapAll;
    var pi := WithMap(pis[0], rets[0]);
    assert s.1 == NO_MAP.(reqs := [OneRequest(pis[0])]);
    assert t.1 == NO_MAP.(pis := [pi], rdCmds := Commands([pi], READ), wrCmds := Commands([pi], WRITE)) by {
      assert [pi][1..] == [];
    }
    JoinTwo(OneRequest(pis[0]), t.1, rest);
  }

  lemma {:induction false} MapTwoSteps(m: Map, pis: seq<Pi>, ds: seq<Flit>, rets: seq<MapRet>)
    requires m.state == MapIdle && pis != [] && Maps(pis[0]) && rets != []
    ensures var s := MapTakePi(m, pis[0]); var t := MapTakeRet(s.0, rets[0]);
      MapAll(m, pis, ds, rets) == JoinMap(s.1, JoinMap(t.1, MapAll(t.0, pis[1..], ds, rets[1..])))
  {
    hide JoinMap;
  }

  lemma JoinTwo(req: MapReq, x: MapOut, y: MapOut)
    requires x.reqs == [] && x.wrData == []
    ensures JoinMap(NO_MAP.(reqs := [req]), JoinMap(x, y)) ==
      MapOut(x.pis + y.pis, [req] + y.reqs, x.rdCmds + y.rdCmds, x.wrCmds + y.wrCmds, y.wrData)
  {
  }

  lemma {:induction false} MapList(m: Map, ks: seq<Packet>, pis: seq<Pi>, rets: seq<MapRet>)
    requires m.state == MapIdle && AllWellFormed(ks) && Matches(ks, pis) && |rets| >= CountMaps(pis)
    ensures var done := Mapped(pis, rets);
      MapAll(m, pis, AllData(ks), rets)
        == MapOut(done, MapRequests(pis), Commands(done, READ), Commands(done, WRITE), Words(AllData(ks)))
    decreases |ks|
  {
    if ks != [] {
      hide RoundUp, Words, Framed;
      var k, pi, ds := ks[0], pis[0], AllData(ks[1..]);
      UnitsPositive(k);
      FramedLast(k.data);
      assert Matches(ks[1..], pis[1..]);
      WordsJoin(Framed(k.data), ds);
      if !Maps(pi) {
        assert Framed(k.data) + ds == ds;
        MapList(m.(pi := pi), ks[1..], pis[1..], rets);
        SkipMap(m, pis, ds, rets);
      } else {
        hide MapAll, Commands, Matches;
        var done := WithMap(pi, rets[0]);
        var n := Map(if pi.op == WRITE then MapStream else MapIdle, done);
        MapOne(m, pis, AllData(ks), rets);
        if pi.op == WRITE {
          MapPayload(n, Framed(k.data), pis[1..], ds, rets[1..]);
        } else {
          assert Framed(k.data) + ds == ds;
        }
        MapList(n.(state := MapIdle), ks[1..], pis[1..], rets[1..]);
        assert MapRequests(pis) == [OneRequest(pi)] + MapRequests(pis[1..]);
        CommandsSplit(done, Mapped(pis[1..], rets[1..]), READ);
        CommandsSplit(done, Mapped(pis[1..], rets[1..]), WRITE);
      }
    }
  }

  lemma WordsJoin(a: seq<Flit>, b: seq<Flit>)
    ensures Words(a + b) == Words(a) + Words(b) && Words([]) == []
  {
  }

  lemma {:induction false} SkipMap(m: Map, pis: seq<Pi>, ds: seq<Flit>, rets: seq<MapRet>)
    requires m.state == MapIdle && pis != [] && !Maps(pis[0])
    ensures var rest := MapAll(m.(pi := pis[0]), pis[1..], ds, rets);
      MapAll(m, pis, ds, rets) == rest.(pis := [pis[0]] + rest.pis)
  {
  }

  lemma {:induction false} CommandsSplit(pi: Pi, rest: seq<Pi>, op: nat)
    ensures Commands([pi] + rest, op) == Commands([pi], op) + Commands(rest, op)
  {
    assert ([pi] + rest)[1..] == rest;
    assert [pi][1..] == [];
  }

  // ---------- access

  ghost predicate Reads(pi: Pi) { pi.op == READ && pi.mapOk }

  ghost function DataUnits(pis: seq<Pi>): nat
  {
    if pis == [] then 0 else (if Reads(pis[0]) then pis[0].units else 0) + DataUnits(pis[1..])
  }

  /** The first n words as stream units, the last one marked. */
  ghost function Run(data: seq<Data>, n: nat): seq<Flit>
    requires n <= |data|
  {
    seq(n, i requires 0 <= i < n => Flit(data[i], i + 1 == n))
  }

  /** One reply packet: the Ethernet header, the application header, and for a good READ its data units. */
  ghost function ReplyPacket(pi: Pi, data: seq<Data>): seq<Flit>
    requires Reads(pi) ==> |data| >= pi.units
  {
    [pi.eth, ReplyHeader(pi)] +
    if Reads(pi) then Run(data, pi.units) else []
  }

  ghost function Replies(pis: seq<Pi>, data: seq<Data>): seq<Flit>
    requires |data| >= DataUnits(pis)
  {
    if pis == [] then []
    else ReplyPacket(pis[0], data) + Replies(pis[1..], if Reads(pis[0]) then data[pis[0].units..] else data)
  }

  lemma {:induction false} AccessPayload(x: Access, n: nat, pis: seq<Pi>, data: seq<Data>) returns (y: Access)
    requires x.state == AccessRead && x.offset + n == x.pi.units && 0 < n <= |data|
    requires forall i :: 0 <= i < |pis| ==> Known(pis[i])
    ensures y.state == AccessIdle
    ensures AccessAll(x, pis, data)
         == Run(data, n) + AccessAll(y, pis, data[n..])
    decreases n
  {
    var s := AccessTakeData(x, data[0]);
    var out := Run(data, n);
    if n == 1 {
      y := s.0;
      assert out == [Flit(data[0], true)];
    } else {
      y := AccessPayload(s.0, n - 1, pis, data[1..]);
      assert data[1..][n - 1..] == data[n..];
      assert out == [Flit(data[0], false)] + Run(data[1..], n - 1);
    }
  }

  /** The two header units. */
  lemma {:induction false} AccessHead(x: Access, pis: seq<Pi>, data: seq<Data>)
    requires x.state == AccessIdle && pis != [] && forall i :: 0 <= i < |pis| ==> Known(pis[i])
    ensures var t := AccessSendApp(AccessTakePi(x, pis[0]).0);
      && t.0.state != AccessApp
      && AccessAll(x, pis, data) == [pis[0].eth, ReplyHeader(pis[0])] + AccessAll(t.0, pis[1..], data)
  {
    hide ReplyHeader;
    var pi := pis[0];
    var t := AccessSendApp(AccessTakePi(x, pi).0);
    var rest := AccessAll(t.0, pis[1..], data);
    assert AccessAll(x, pis, data) == [pi.eth] + ([ReplyHeader(pi)] + rest);
    assert [pi.eth] + ([ReplyHeader(pi)] + rest) == [pi.eth, ReplyHeader(pi)] + rest;
  }

  lemma {:induction false} AccessList(x: Access, pis: seq<Pi>, data: seq<Data>)
    requires x.state == AccessIdle && |data| >= DataUnits(pis)
    requires forall i :: 0 <= i < |pis| ==> Known(pis[i]) && (Reads(pis[i]) ==> pis[i].units > 0)
    ensures AccessAll(x, pis, data) == Replies(pis, data)
    decreases |pis|
  {
    hide ReplyHeader, Run;
    if pis != [] {
      hide AccessAll;
      var pi := pis[0];
      var t := AccessSendApp(AccessTakePi(x, pi).0);
      AccessHead(x, pis, data);
      if Reads(pi) {
        var y := AccessPayload(t.0, pi.units, pis[1..], data);
        AccessList(y, pis[1..], data[pi.units..]);
      } else {
        AccessList(t.0, pis[1..], data);
      }
    }
  }
}
