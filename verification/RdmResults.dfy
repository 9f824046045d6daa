/** The main results on the RDM pipeline: replies, memory commands and data for any interleaving. */
module RdmResults {
  import opened RdmStages
  import opened RdmReplies
  import opened RdmPipeline

  datatype Call = Delivers(which: nat) | DoParse | DoAlloc | DoMap | DoAccess | DoReply | DoRdPipe | DoWrPipe

  /** All that the stages in a row produce has left the pipeline. */
  ghost predicate Complete(r: Rdm)
    reads r
  {
    && r.toNet == EndReplies(r.e) && r.wr.cmds == EndWr(r.e).cmds && r.wr.data == EndWr(r.e).data
    && r.dmRdCmds == DmCmds(EndMap(r.e).rdCmds)
    && r.alloc.reqs == EndAlloc(r.e).reqs && r.map_.reqs == EndMap(r.e).reqs
  }

  /**
   Whatever the order of calls, what has left the pipeline so far is a beginning of what the stages
   in a row produce from the same inputs, and it is all of it once everything was sent and no stage can move.
   */
  method RunRdm(e: Env, schedule: seq<Call>) returns (r: Rdm)
    ensures r.Inv() && r.e == e && fresh(r)
    ensures r.toNet <= EndReplies(e) && r.wr.cmds <= EndWr(e).cmds && r.wr.data <= EndWr(e).data
    ensures r.dmRdCmds <= DmCmds(EndMap(e).rdCmds)
    ensures r.alloc.reqs <= EndAlloc(e).reqs && r.map_.reqs <= EndMap(e).reqs
    ensures r.AllSent() && r.Stuck() ==> Complete(r)
  {
    r := new Rdm(e);
    for i := 0 to |schedule|
      invariant r.Inv() && r.e == e && fresh(r)
    {
      MoveRdm(r, schedule[i]);
    }
    SoFar(r);
    if r.AllSent() && r.Stuck() { AllOut(r); }
  }

  method MoveRdm(r: Rdm, call: Call)
    requires r.Inv()
    modifies r
    ensures r.Inv()
  {
    match call
    case Delivers(which) => r.Deliver(which);
    case DoParse => r.Parse();
    case DoAlloc => r.AllocAddress();
    case DoMap => r.MapStage();
    case DoAccess => r.AccessStage();
    case DoReply => r.ReplyStage();
    case DoRdPipe => r.RdPipeStage();
    case DoWrPipe => r.WrPipeStage();
  }

  lemma SoFar(r: Rdm)
    requires r.Inv()
    ensures r.toNet <= EndReplies(r.e) && r.wr.cmds <= EndWr(r.e).cmds && r.wr.data <= EndWr(r.e).data
    ensures r.dmRdCmds <= DmCmds(EndMap(r.e).rdCmds)
    ensures r.alloc.reqs <= EndAlloc(r.e).reqs && r.map_.reqs <= EndMap(r.e).reqs
  {
    hide ParserOk, EndMap, EndReplies, EndWr, AccessAll, WrAll, AllocAll, MapAll, ToDm, EndAlloc;
  }

  lemma AllOut(r: Rdm)
    requires r.Inv() && r.AllSent() && r.Stuck()
    ensures Complete(r)
  {
    hide EndParser, EndAlloc, EndMap, EndReplies, EndWr;
    assert r.parser.pi.log == EndParser(r.e).pis;
    assert r.alloc.pi.log == EndAlloc(r.e).pis && r.alloc.d.log == EndAlloc(r.e).ds;
    assert r.map_.pi.log == EndMap(r.e).pis;
  }

  // ---------- replies

  ghost function AfterAlloc(ks: seq<Packet>, e: Env): seq<Pi>
    requires |e.allocRets| >= CountAllocs(ks)
  {
    Allocated(ks, 1, 0x1000, e.allocRets)
  }

  /** The environment answers everything the packets lead to. */
  ghost predicate Answers(e: Env, ks: seq<Packet>)
  {
    && e.wire == Wire(ks)
    && |e.allocRets| >= CountAllocs(ks)
    && |e.mapRets| >= CountMaps(AfterAlloc(ks, e))
    && |e.rdData| >= DataUnits(Mapped(AfterAlloc(ks, e), e.mapRets))
  }

  ghost function Finished(ks: seq<Packet>, e: Env): seq<Pi>
    requires Answers(e, ks)
  {
    Mapped(AfterAlloc(ks, e), e.mapRets)
  }

  /** A request keeps, through the stages, its packet's headers, its number and its size. */
  ghost predicate Same(pi: Pi, k: Packet, num: nat)
  {
    pi.op == k.app.data.op && pi.num == num && pi.eth == k.eth && pi.app == k.app
    && pi.va == k.app.data.addr && pi.length == 64 * Units(k) && pi.units == Units(k)
  }

  lemma {:induction false} AllocatedSame(ks: seq<Packet>, num: nat, va: nat, rets: seq<AllocRet>)
    requires AllWellFormed(ks) && |rets| >= CountAllocs(ks)
    ensures var pis := Allocated(ks, num, va, rets);
      |pis| == |ks| && forall i :: 0 <= i < |ks| ==> Same(pis[i], ks[i], num + i)
    decreases |ks|
  {
    if ks != [] {
      var k := ks[0];
      UnitsPositive(k);
      var pi := ParseApp(k.eth, num, k.app);
      if pi.op != ALLOC { AllocatedSame(ks[1..], num + 1, va, rets); }
      else if rets[0].ok { AllocatedSame(ks[1..], num + 1, BumpVa(va, pi.length), rets[1..]); }
      else { AllocatedSame(ks[1..], num + 1, va, rets[1..]); }
      var pis := Allocated(ks, num, va, rets);
      forall i | 0 <= i < |ks| ensures Same(pis[i], ks[i], num + i) {
        if i > 0 { assert ks[i] == ks[1..][i - 1]; }
      }
    }
  }

  lemma {:induction false} MappedSame(pis: seq<Pi>, rets: seq<MapRet>)
    requires |rets| >= CountMaps(pis)
    ensures var done := Mapped(pis, rets);
      |done| == |pis| && forall i :: 0 <= i < |pis| ==> done[i] == pis[i].(mapOk := done[i].mapOk, pa := done[i].pa)
    decreases |pis|
  {
    if pis != [] {
      MappedSame(pis[1..], if Maps(pis[0]) then rets[1..] else rets);
      var done := Mapped(pis, rets);
      forall i | 0 < i < |pis| ensures done[i] == pis[i].(mapOk := done[i].mapOk, pa := done[i].pa) {
        assert pis[i] == pis[1..][i - 1];
      }
    }
  }

  lemma FinishedSame(ks: seq<Packet>, e: Env)
    requires AllWellFormed(ks) && Answers(e, ks)
    ensures var pis := Finished(ks, e);
      |pis| == |ks| && forall i :: 0 <= i < |ks| ==> Same(pis[i], ks[i], i + 1)
  {
    AllocatedSame(ks, 1, 0x1000, e.allocRets);
    MappedSame(AfterAlloc(ks, e), e.mapRets);
  }

  /** The stages in a row answer each packet by itself: one reply packet per request, in order. */
  lemma {:induction false} RepliesInOrder(ks: seq<Packet>, e: Env)
    requires AllWellFormed(ks) && Answers(e, ks)
    ensures EndReplies(e) == Replies(Finished(ks, e), e.rdData)
    ensures EndMap(e).rdCmds == Commands(Finished(ks, e), READ) && EndMap(e).wrCmds == Commands(Finished(ks, e), WRITE)
    ensures EndMap(e).wrData == Words(AllData(ks))
    ensures EndAlloc(e).reqs == CountAllocs(ks) && EndMap(e).reqs == MapRequests(AfterAlloc(ks, e))
  {
    ParseWire(PARSER0, ks);
    AllocList(ALLOC0, ks, 1, e.allocRets);
    AllocatedSame(ks, 1, 0x1000, e.allocRets);
    MapList(MAP0, ks, AfterAlloc(ks, e), e.mapRets);
    FinishedSame(ks, e);
    var pis := Finished(ks, e);
    forall i | 0 <= i < |pis| ensures Known(pis[i]) && pis[i].units > 0 {
      assert Same(pis[i], ks[i], i + 1);
      UnitsPositive(ks[i]);
    }
    KnownToAccess(e);
    AccessList(ACCESS0, pis, e.rdData);
  }

  /** Of a reply packet only the last unit carries `last`, and a good READ has exactly its data units. */
  lemma ReplyShape(pi: Pi, k: Packet, num: nat, data: seq<Data>)
    requires WellFormed(k) && Same(pi, k, num) && (Reads(pi) ==> |data| >= pi.units)
    ensures var r := ReplyPacket(pi, data);
      && |r| == (if Reads(pi) then 2 + Units(k) else 2)
      && r[0] == k.eth && r[1].data.num == num
      && (forall i :: 0 <= i < |r| ==> (r[i].last <==> i + 1 == |r|))
      && (Reads(pi) ==> forall i :: 0 <= i < Units(k) ==> r[i + 2].data == data[i])
    ensures ReplyPacket(pi, data)[1].data.op ==
      if pi.op == ALLOC then (if pi.allocOk then REPLY_ALLOC else REPLY_ALLOC_ERROR)
      else if pi.op == READ then (if pi.mapOk then REPLY_READ else REPLY_READ_ERROR) else REPLY_WRITE
    ensures var h, q := ReplyPacket(pi, data)[1].data, k.app.data;
      && h.rest == q.rest
      && (pi.op != ALLOC ==> h.addr == q.addr && h.len == q.len)
      && (pi.op == ALLOC ==> if pi.allocOk then h.addr == pi.allocVa && h.len == pi.allocPa else h.addr == 0 && h.len == 0)
  {
    UnitsPositive(k);
  }

  /** The room `rdm_alloc_va` sets aside covers the length and fills whole pages. */
  lemma BumpRoom(va: nat, length: nat)
    requires length <= 0x80_0000 && va + 0x80_0000 < U64
    ensures va + length <= BumpVa(va, length) <= va + 0x80_0000 && (va % 0x1000 == 0 ==> BumpVa(va, length) % 0x1000 == 0)
  {
    var n, r := (length + 0xFFF) / 0x1000, (length + 0xFFF) % 0x1000;
    assert length + 0xFFF == n * 0x1000 + r;
    assert length <= n * 0x1000 <= length + 0xFFF && n * 0x1000 <= 0x80_0000;
    assert RoundUp(length, 0x1000) == n * 0x1000;
    if va % 0x1000 == 0 {
      assert va == va / 0x1000 * 0x1000;
      assert BumpVa(va, length) == (va / 0x1000 + n) * 0x1000;
    }
  }

  ghost predicate Obtained(pi: Pi) { pi.op == ALLOC && pi.allocOk }

  /** The virtual ranges of the successful ALLOCs are page aligned, start at `va` or above, and never meet. */
  ghost predicate Rising(pis: seq<Pi>, va: nat)
  {
    && (forall i :: 0 <= i < |pis| && Obtained(pis[i]) ==> pis[i].allocVa >= va && pis[i].allocVa % 0x1000 == 0)
    && (forall i, j :: 0 <= i < j < |pis| && Obtained(pis[i]) && Obtained(pis[j]) ==>
          pis[i].allocVa + pis[i].length <= pis[j].allocVa)
  }

  lemma RisingMore(pi: Pi, rest: seq<Pi>, va: nat, next: nat)
    requires va <= next && Rising(rest, next)
    requires Obtained(pi) ==> pi.allocVa == va && va % 0x1000 == 0 && va + pi.length <= next
    ensures Rising([pi] + rest, va)
  {
    var pis := [pi] + rest;
    assert forall i :: 0 < i < |pis| ==> pis[i] == rest[i - 1];
  }

  /** Short of 2^64 bytes in all, no two ALLOCs get virtual ranges that meet. */
  lemma {:induction false} AllocatedApart(ks: seq<Packet>, num: nat, va: nat, rets: seq<AllocRet>)
    requires AllWellFormed(ks) && |rets| >= CountAllocs(ks) && va % 0x1000 == 0 && va + |ks| * 0x80_0000 < U64
    ensures Rising(Allocated(ks, num, va, rets), va)
    decreases |ks|
  {
    if ks != [] {
      hide RoundUp, BumpVa, Rising;
      var pi := ParseApp(ks[0].eth, num, ks[0].app);
      UnitsPositive(ks[0]);
      if pi.op != ALLOC {
        AllocatedApart(ks[1..], num + 1, va, rets);
        RisingMore(pi, Allocated(ks[1..], num + 1, va, rets), va, va);
      } else if rets[0].ok {
        var next := BumpVa(va, pi.length);
        BumpRoom(va, pi.length);
        AllocatedApart(ks[1..], num + 1, next, rets[1..]);
        RisingMore(pi.(allocOk := true, allocPa := rets[0].addr, allocVa := va), Allocated(ks[1..], num + 1, next, rets[1..]), va, next);
      } else {
        AllocatedApart(ks[1..], num + 1, va, rets[1..]);
        RisingMore(pi.(allocOk := false), Allocated(ks[1..], num + 1, va, rets[1..]), va, va);
      }
    } else {
      assert Rising([], va);
    }
  }

  /** The datamover gets the mapped address, and the request's size exactly up to a length of 2^23 - 64 ... */
  lemma ByteCount(k: Packet, pa: nat)
    requires WellFormed(k)
    ensures var c := Cmd(pa, 64 * Units(k), Units(k));
      && c.units > 0 && (pa < 0x1_0000_0000 ==> ToDm(c).address == pa)
      && (ToDm(c).btt == 64 * c.units <==> k.app.data.len <= 0x80_0000 - 64)
  {
    UnitsPositive(k);
  }

  /** ... for the 63 lengths above it rounds up to 2^23, which the 23-bit field drops to 0. */
  lemma ByteCountLost(eth: Flit, num: nat, app: Flit)
    requires 0x80_0000 - 64 < app.data.len < 0x80_0000
    ensures var pi := ParseApp(eth, num, app);
      pi.units == 0x2_0000 && ToDm(Cmd(pi.pa, pi.length, pi.units)).btt == 0
  {
    assert (app.data.len + 63) / 64 == 0x2_0000;
    assert RoundUp(app.data.len, 64) == 0x80_0000;
    assert RoundUp(0x80_0000, 64) == 0x80_0000;
  }

  // ---------- WRITE data

  ghost function UnitSum(cmds: seq<Cmd>): nat
  {
    if cmds == [] then 0 else cmds[0].units + UnitSum(cmds[1..])
  }

  /** Words cut into runs of the commands' sizes, the last word of each run marked. */
  ghost function Cut(cmds: seq<Cmd>, words: seq<Data>): seq<Flit>
    requires UnitSum(cmds) <= |words|
  {
    if cmds == [] then []
    else
      var n := cmds[0].units;
      Run(words, n) + Cut(cmds[1..], words[n..])
  }

  lemma {:induction false} WrRun(w: WrPipe, n: nat, cmds: seq<Cmd>, words: seq<Data>) returns (v: WrPipe)
    requires w.busy && 0 < n <= |words| && w.written + n == w.units
    ensures !v.busy
    ensures var rest := WrAll(v, cmds, words[n..]);
      WrAll(w, cmds, words) ==
        WrOut(rest.cmds, Run(words, n) + rest.data)
    decreases n
  {
    var s := WrTakeData(w, words[0]);
    var out := Run(words, n);
    if n == 1 {
      v := s.0;
      assert out == [Flit(words[0], true)];
    } else {
      v := WrRun(s.0, n - 1, cmds, words[1..]);
      var tail := words[1..];
      assert tail[n - 1..] == words[n..];
      assert out == [Flit(words[0], false)] + Run(tail, n - 1);
    }
  }

  /** DRAM_wr_pipe hands the data words out in the order they come, by the commands' unit counts. */
  lemma {:induction false} WrCuts(w: WrPipe, cmds: seq<Cmd>, words: seq<Data>)
    requires !w.busy && UnitSum(cmds) <= |words| && forall i :: 0 <= i < |cmds| ==> cmds[i].units > 0
    ensures WrAll(w, cmds, words) == WrOut(DmCmds(cmds), Cut(cmds, words))
    decreases |cmds|
  {
    if cmds != [] {
      hide WrAll, ToDm, WrTakeData, Run;
      WrCommand(w, cmds, words);
      var n := cmds[0].units;
      var v := WrRun(WrTakeCmd(w, cmds[0]).0, n, cmds[1..], words);
      WrCuts(v, cmds[1..], words[n..]);
      assert DmCmds(cmds) == [ToDm(cmds[0])] + DmCmds(cmds[1..]);
    }
  }

  lemma {:induction false} WrCommand(w: WrPipe, cmds: seq<Cmd>, words: seq<Data>)
    requires !w.busy && cmds != []
    ensures var rest := WrAll(WrTakeCmd(w, cmds[0]).0, cmds[1..], words);
      WrAll(w, cmds, words) == WrOut([ToDm(cmds[0])] + rest.cmds, rest.data)
  {
    hide ToDm;
  }

  ghost predicate Written(pi: Pi) { pi.op == WRITE && pi.mapOk }
  ghost predicate Refused(pi: Pi) { pi.op == WRITE && !pi.mapOk }

  /** The payload that belongs in memory: that of the WRITEs whose mapping succeeded. */
  ghost function Wanted(ks: seq<Packet>, pis: seq<Pi>): seq<Flit>
    requires |ks| == |pis|
  {
    if ks == [] then [] else (if Written(pis[0]) then Framed(ks[0].data) else []) + Wanted(ks[1..], pis[1..])
  }

  /** No WRITE succeeds after one was refused. */
  ghost predicate NoneAfterRefusal(pis: seq<Pi>)
  {
    forall i, j :: 0 <= i < j < |pis| && Refused(pis[i]) ==> !Written(pis[j])
  }

  lemma {:induction false} NoCommands(pis: seq<Pi>)
    requires forall i :: 0 <= i < |pis| ==> !Written(pis[i])
    ensures Commands(pis, WRITE) == []
  {
    if pis != [] { NoCommands(pis[1..]); }
  }

  lemma {:induction false} NothingWanted(ks: seq<Packet>, pis: seq<Pi>)
    requires |ks| == |pis| && forall i :: 0 <= i < |pis| ==> !Written(pis[i])
    ensures Wanted(ks, pis) == []
  {
    if pis != [] { NothingWanted(ks[1..], pis[1..]); }
  }

  /** What a list of packets and their finished requests have to do with each other. */
  ghost predicate Fit(ks: seq<Packet>, pis: seq<Pi>)
  {
    |ks| == |pis| && AllWellFormed(ks) && forall i :: 0 <= i < |ks| ==> pis[i].op == ks[i].app.data.op && pis[i].units == Units(ks[i])
  }

  lemma FitTail(ks: seq<Packet>, pis: seq<Pi>)
    requires Fit(ks, pis) && ks != []
    ensures Fit(ks[1..], pis[1..])
  {
  }

  lemma FitHead(ks: seq<Packet>, pis: seq<Pi>)
    requires Fit(ks, pis) && (ks != [] || pis != [])
    ensures |ks| == |pis| > 0 && pis[0].op == ks[0].app.data.op && pis[0].units == Units(ks[0]) && Units(ks[0]) > 0
    ensures |ks[0].data| == if pis[0].op == WRITE then Units(ks[0]) else 0
  {
    UnitsPositive(ks[0]);
  }

  lemma {:induction false} EnoughWords(ks: seq<Packet>, pis: seq<Pi>)
    requires Fit(ks, pis)
    ensures UnitSum(Commands(pis, WRITE)) <= |AllData(ks)|
    ensures forall i :: 0 <= i < |Commands(pis, WRITE)| ==> Commands(pis, WRITE)[i].units > 0
    decreases |ks|
  {
    if ks != [] {
      hide Units, RoundUp, Fit;
      FitHead(ks, pis);
      FitTail(ks, pis);
      EnoughWords(ks[1..], pis[1..]);
    }
  }

  lemma {:induction false} CutIsWanted(ks: seq<Packet>, pis: seq<Pi>)
    requires Fit(ks, pis) && NoneAfterRefusal(pis)
    ensures UnitSum(Commands(pis, WRITE)) <= |AllData(ks)|
    ensures Cut(Commands(pis, WRITE), Words(AllData(ks))) == Wanted(ks, pis)
    decreases |ks|
  {
    EnoughWords(ks, pis);
    if ks != [] {
      var k, ds := ks[0], AllData(ks[1..]);
      FitTail(ks, pis);
      if Refused(pis[0]) {
        assert forall j :: 0 < j < |pis| ==> !Written(pis[j]);
        NoCommands(pis);
        NothingWanted(ks, pis);
      } else {
        assert NoneAfterRefusal(pis[1..]);
        CutIsWanted(ks[1..], pis[1..]);
        var words := Words(AllData(ks));
        if Written(pis[0]) {
          var n := Units(k);
          assert words[n..] == Words(ds);
          assert Run(words, n) == Framed(k.data);
        } else {
          assert Framed(k.data) + ds == ds;
        }
      }
    }
  }

  // ---------- the other side: a WRITE that succeeds after a refused one

  lemma {:induction false} CutWords(cmds: seq<Cmd>, words: seq<Data>)
    requires UnitSum(cmds) <= |words|
    ensures |Cut(cmds, words)| == UnitSum(cmds)
    ensures forall i :: 0 <= i < UnitSum(cmds) ==> Cut(cmds, words)[i].data == words[i]
    decreases |cmds|
  {
    if cmds != [] { CutWords(cmds[1..], words[cmds[0].units..]); }
  }

  lemma {:induction false} SomeCommand(ks: seq<Packet>, pis: seq<Pi>, b: nat)
    requires Fit(ks, pis) && b < |pis| && Written(pis[b])
    ensures UnitSum(Commands(pis, WRITE)) > 0
    decreases |ks|
  {
    hide Units, RoundUp, Fit;
    FitHead(ks, pis);
    FitTail(ks, pis);
    if b > 0 && !Written(pis[0]) { SomeCommand(ks[1..], pis[1..], b - 1); }
  }

  /** A data unit of the input: unit `unit` of packet `packet`. */
  datatype Place = Place(packet: nat, unit: nat)

  ghost function PlacesOf(packet: nat, n: nat): seq<Place>
  {
    seq(n, i requires 0 <= i < n => Place(packet, i))
  }

  /** Where the data units of a list of packets come from, in order. */
  ghost function AllPlaces(ks: seq<Packet>, from: nat): seq<Place>
  {
    if ks == [] then [] else PlacesOf(from, |ks[0].data|) + AllPlaces(ks[1..], from + 1)
  }

  /** Where those that belong in memory come from. */
  ghost function WantedPlaces(ks: seq<Packet>, pis: seq<Pi>, from: nat): seq<Place>
    requires |ks| == |pis|
  {
    if ks == [] then []
    else (if Written(pis[0]) then PlacesOf(from, |ks[0].data|) else []) + WantedPlaces(ks[1..], pis[1..], from + 1)
  }

  /** Where the first refused packet's data stands in the data stream: within what later commands will take. */
  lemma {:induction false} RefusedPosition(ks: seq<Packet>, pis: seq<Pi>, a: nat, b: nat, from: nat) returns (n: nat)
    requires Fit(ks, pis) && a < b < |pis| && Refused(pis[a]) && Written(pis[b])
    requires forall i :: 0 <= i < a ==> !Refused(pis[i])
    ensures n < UnitSum(Commands(pis, WRITE)) && n < |AllData(ks)| && ks[a].data != []
    ensures AllData(ks)[n].data == ks[a].data[0].data
    ensures n < |AllPlaces(ks, from)| && AllPlaces(ks, from)[n] == Place(from + a, 0)
    decreases |ks|
  {
    hide Units, RoundUp, Fit;
    FitHead(ks, pis);
    FitTail(ks, pis);
    if a == 0 {
      n := 0;
      SomeCommand(ks, pis, b);
    } else {
      n := RefusedPosition(ks[1..], pis[1..], a - 1, b - 1, from + 1);
      if Written(pis[0]) { n := n + Units(ks[0]); }
    }
  }

  /** No word of a refused payload also occurs in a payload that is to be written. */
  ghost predicate TellApart(ks: seq<Packet>, pis: seq<Pi>)
    requires |ks| == |pis|
  {
    forall a, b, i, j ::
      (0 <= a < |ks| && 0 <= b < |ks| && Refused(pis[a]) && Written(pis[b])
       && 0 <= i < |ks[a].data| && 0 <= j < |ks[b].data|)
      ==> ks[a].data[i].data != ks[b].data[j].data
  }

  lemma {:induction false} WantedFrom(ks: seq<Packet>, pis: seq<Pi>, n: nat) returns (b: nat, j: nat)
    requires |ks| == |pis| && n < |Wanted(ks, pis)|
    ensures b < |ks| && Written(pis[b]) && j < |ks[b].data| && Wanted(ks, pis)[n].data == ks[b].data[j].data
    decreases |ks|
  {
    var m := if Written(pis[0]) then |ks[0].data| else 0;
    if n < m {
      b, j := 0, n;
    } else {
      b, j := WantedFrom(ks[1..], pis[1..], n - m);
      b := b + 1;
    }
  }

  lemma FinishedFit(ks: seq<Packet>, e: Env)
    requires AllWellFormed(ks) && Answers(e, ks)
    ensures Fit(ks, Finished(ks, e))
  {
    FinishedSame(ks, e);
    var pis := Finished(ks, e);
    forall i | 0 <= i < |ks| ensures pis[i].op == ks[i].app.data.op && pis[i].units == Units(ks[i]) {
      assert Same(pis[i], ks[i], i + 1);
    }
  }

  /** A refused WRITE still streams its payload; if a WRITE succeeds later, that payload reaches memory in its place. */
  lemma RefusedDataWritten(ks: seq<Packet>, e: Env, a: nat, b: nat) returns (n: nat)
    requires AllWellFormed(ks) && Answers(e, ks) && |Finished(ks, e)| == |ks|
    requires a < b < |ks| && Refused(Finished(ks, e)[a]) && Written(Finished(ks, e)[b])
    requires forall i :: 0 <= i < a ==> !Refused(Finished(ks, e)[i])
    ensures n < |EndWr(e).data| && ks[a].data != [] && EndWr(e).data[n].data == ks[a].data[0].data
  {
    var pis := Finished(ks, e);
    FinishedFit(ks, e);
    RepliesInOrder(ks, e);
    EnoughWords(ks, pis);
    n := RefusedPosition(ks, pis, a, b, 0);
    var words := Words(AllData(ks));
    WrCuts(WR0, Commands(pis, WRITE), words);
    CutWords(Commands(pis, WRITE), words);
  }

  lemma {:induction false} FirstRefused(pis: seq<Pi>, a: nat) returns (c: nat)
    requires a < |pis| && Refused(pis[a])
    ensures c <= a && Refused(pis[c]) && forall i :: 0 <= i < c ==> !Refused(pis[i])
    decreases a
  {
    c := a;
    if i :| 0 <= i < a && Refused(pis[i]) { c := FirstRefused(pis, i); }
  }

  ghost predicate PlaceIn(ks: seq<Packet>, from: nat, p: Place)
  {
    from <= p.packet < from + |ks| && p.unit < |ks[p.packet - from].data|
  }

  lemma {:induction false} AsManyPlaces(ks: seq<Packet>, from: nat)
    ensures |AllPlaces(ks, from)| == |AllData(ks)|
    decreases |ks|
  {
    if ks != [] { AsManyPlaces(ks[1..], from + 1); }
  }

  /** The j-th unit of the stream is the one its place names. */
  lemma {:induction false} PlaceHolds(ks: seq<Packet>, from: nat, j: nat)
    requires j < |AllData(ks)| == |AllPlaces(ks, from)|
    ensures var p := AllPlaces(ks, from)[j];
      PlaceIn(ks, from, p) && AllData(ks)[j].data == ks[p.packet - from].data[p.unit].data
    decreases |ks|
  {
    var n := |ks[0].data|;
    if j >= n {
      AsManyPlaces(ks[1..], from + 1);
      PlaceHolds(ks[1..], from + 1, j - n);
    }
  }

  lemma {:induction false} WantedPlaceWritten(ks: seq<Packet>, pis: seq<Pi>, from: nat, n: nat)
    requires |ks| == |pis| && n < |WantedPlaces(ks, pis, from)|
    ensures var p := WantedPlaces(ks, pis, from)[n]; from <= p.packet < from + |ks| && Written(pis[p.packet - from])
    decreases |ks|
  {
    var m := if Written(pis[0]) then |ks[0].data| else 0;
    if n >= m { WantedPlaceWritten(ks[1..], pis[1..], from + 1, n - m); }
  }

  /** The write pipe takes the units in order, and as many as the commands ask for. */
  ghost function TakenPlaces(ks: seq<Packet>, pis: seq<Pi>, from: nat): seq<Place>
    requires UnitSum(Commands(pis, WRITE)) <= |AllPlaces(ks, from)|
  {
    AllPlaces(ks, from)[..UnitSum(Commands(pis, WRITE))]
  }

  lemma {:induction false} NothingTaken(ks: seq<Packet>, pis: seq<Pi>, from: nat)
    requires |ks| == |pis| && forall i :: 0 <= i < |pis| ==> !Written(pis[i])
    ensures UnitSum(Commands(pis, WRITE)) == 0 && WantedPlaces(ks, pis, from) == []
  {
    NoCommands(pis);
    NoneWanted(ks, pis, from);
  }

  lemma {:induction false} NoneWanted(ks: seq<Packet>, pis: seq<Pi>, from: nat)
    requires |ks| == |pis| && forall i :: 0 <= i < |pis| ==> !Written(pis[i])
    ensures WantedPlaces(ks, pis, from) == []
    decreases |ks|
  {
    if ks != [] { NoneWanted(ks[1..], pis[1..], from + 1); }
  }

  lemma {:induction false} TakenAreWanted(ks: seq<Packet>, pis: seq<Pi>, from: nat)
    requires Fit(ks, pis) && NoneAfterRefusal(pis)
    ensures UnitSum(Commands(pis, WRITE)) <= |AllPlaces(ks, from)|
    ensures TakenPlaces(ks, pis, from) == WantedPlaces(ks, pis, from)
    decreases |ks|
  {
    hide Units, RoundUp, Fit;
    if ks == [] {
      FitTailNone(ks, pis);
    } else {
      FitHead(ks, pis);
      FitTail(ks, pis);
      if Refused(pis[0]) {
        assert forall j :: 0 < j < |pis| ==> !Written(pis[j]);
        NothingTaken(ks, pis, from);
      } else {
        assert NoneAfterRefusal(pis[1..]);
        TakenAreWanted(ks[1..], pis[1..], from + 1);
        var n := |ks[0].data|;
        assert AllPlaces(ks, from)[n..] == AllPlaces(ks[1..], from + 1);
        assert Written(pis[0]) ==> PlacesOf(from, n) == AllPlaces(ks, from)[..n];
      }
    }
  }

  lemma FitTailNone(ks: seq<Packet>, pis: seq<Pi>)
    requires Fit(ks, pis) && ks == []
    ensures pis == []
  {
  }

  /**
   The j-th word that reaches memory is unit j of the stream of all WRITE payloads, refused ones
   included; that is the stream of the payloads to be written exactly when no WRITE succeeds after a
   refused one.
   */
  lemma {:induction false} WritesPairedExactly(ks: seq<Packet>, e: Env)
    requires AllWellFormed(ks) && Answers(e, ks)
    ensures var pis := Finished(ks, e);
      && |pis| == |ks| && |EndWr(e).data| == UnitSum(Commands(pis, WRITE)) <= |AllPlaces(ks, 0)|
      && (forall j :: 0 <= j < |EndWr(e).data| ==>
            var p := TakenPlaces(ks, pis, 0)[j];
            PlaceIn(ks, 0, p) && EndWr(e).data[j].data == ks[p.packet].data[p.unit].data)
      && (TakenPlaces(ks, pis, 0) == WantedPlaces(ks, pis, 0) <==> NoneAfterRefusal(pis))
  {
    hide EndWr, Finished, AllData, AllPlaces, WantedPlaces, NoneAfterRefusal, Answers, Commands, Fit;
    var pis := Finished(ks, e);
    FinishedFit(ks, e);
    FinishedSame(ks, e);
    WrittenWords(ks, e);
    AsManyPlaces(ks, 0);
    forall j | 0 <= j < |EndWr(e).data|
      ensures var p := AllPlaces(ks, 0)[j];
        PlaceIn(ks, 0, p) && EndWr(e).data[j].data == ks[p.packet].data[p.unit].data
    {
      PlaceHolds(ks, 0, j);
    }
    TakenExactly(ks, pis);
  }

  /** The words that reach memory are the first of the data stream, as many as the commands ask for. */
  lemma {:induction false} WrittenWords(ks: seq<Packet>, e: Env)
    requires AllWellFormed(ks) && Answers(e, ks)
    ensures |EndWr(e).data| == UnitSum(Commands(Finished(ks, e), WRITE)) <= |AllData(ks)|
    ensures forall j :: 0 <= j < |EndWr(e).data| ==> EndWr(e).data[j].data == AllData(ks)[j].data
  {
    hide AllData, Answers, Finished, Commands, DmCmds, Cut;
    var pis := Finished(ks, e);
    FinishedFit(ks, e);
    RepliesInOrder(ks, e);
    EnoughWords(ks, pis);
    var words := Words(AllData(ks));
    WrCuts(WR0, Commands(pis, WRITE), words);
    CutWords(Commands(pis, WRITE), words);
  }

  lemma {:induction false} TakenExactly(ks: seq<Packet>, pis: seq<Pi>)
    requires Fit(ks, pis) && UnitSum(Commands(pis, WRITE)) <= |AllPlaces(ks, 0)|
    ensures TakenPlaces(ks, pis, 0) == WantedPlaces(ks, pis, 0) <==> NoneAfterRefusal(pis)
  {
    hide Units, RoundUp, AllWellFormed, Commands, AllPlaces, WantedPlaces, UnitSum;
    if NoneAfterRefusal(pis) {
      TakenAreWanted(ks, pis, 0);
    } else {
      var a, b :| 0 <= a < b < |pis| && Refused(pis[a]) && Written(pis[b]);
      var c := FirstRefused(pis, a);
      var n := RefusedPosition(ks, pis, c, b, 0);
      if n < |WantedPlaces(ks, pis, 0)| { WantedPlaceWritten(ks, pis, 0, n); }
    }
  }

  /** A WRITE of one word. */
  ghost function OneWord(word: Data): Packet
  {
    var head := Data(WRITE, 0, 64, 0, 0);
    Packet(Flit(head, false), Flit(head, false), [Flit(word, true)])
  }

  /** What parser, alloc_address and map make of it, as packet `num`. */
  ghost function WordRequest(word: Data, num: nat, mapOk: bool, pa: nat): Pi
  {
    var k := OneWord(word);
    ParseApp(k.eth, num, k.app).(mapOk := mapOk, pa := pa)
  }

  lemma WordFits(word: Data, num: nat)
    ensures var pi := WordRequest(word, num, true, 0);
      && WellFormed(OneWord(word)) && pi.op == WRITE && pi.length == 64 && pi.units == 1
      && Framed(OneWord(word).data) == [Flit(word, true)] && PlacesOf(num, |OneWord(word).data|) == [Place(num, 0)]
  {
    UnitsPositive(OneWord(word));
  }

  lemma TwoRequests(a: Data, b: Data, pa: nat, e: Env)
    requires e == Env(Wire([OneWord(a), OneWord(b)]), [], [MapRet(false, 0), MapRet(true, pa)], [])
    ensures var ks := [OneWord(a), OneWord(b)];
      && CountAllocs(ks) == 0 && AfterAlloc(ks, e) == [WordRequest(a, 1, true, 0), WordRequest(b, 2, true, 0)]
      && Answers(e, ks) && Finished(ks, e) == [WordRequest(a, 1, false, 0), WordRequest(b, 2, true, pa)]
  {
    hide RoundUp;
    WordFits(a, 1);
    WordFits(b, 2);
    var ks := [OneWord(a), OneWord(b)];
    var pis := [WordRequest(a, 1, true, 0), WordRequest(b, 2, true, 0)];
    assert ks[1..] == [OneWord(b)] && ks[1..][1..] == [];
    assert Allocated(ks[1..][1..], 3, 0x1000, e.allocRets) == [];
    assert Allocated(ks[1..], 2, 0x1000, e.allocRets) == [pis[1]];
    assert pis[1..] == [WordRequest(b, 2, true, 0)] && pis[1..][1..] == [];
    assert e.mapRets[1..] == [MapRet(true, pa)];
    assert CountMaps(pis[1..]) == 1 && CountMaps(pis) == 2;
    var done := [WordRequest(a, 1, false, 0), WordRequest(b, 2, true, pa)];
    assert Mapped(pis[1..], e.mapRets[1..]) == [done[1]];
    assert done[1..] == [done[1]] && done[1..][1..] == [];
    assert DataUnits(done[1..][1..]) == 0 && DataUnits(done[1..]) == 0;
    assert DataUnits(done) == DataUnits(done[1..]);
  }

  lemma TwoPayloads(a: Data, b: Data, pa: nat)
    ensures var ks := [OneWord(a), OneWord(b)];
      var pis := [WordRequest(a, 1, false, 0), WordRequest(b, 2, true, pa)];
      && Commands(pis, WRITE) == [Cmd(pa, 64, 1)] && UnitSum(Commands(pis, WRITE)) == 1
      && AllData(ks) == [Flit(a, true), Flit(b, true)] && Wanted(ks, pis) == [Flit(b, true)]
      && AllPlaces(ks, 0) == [Place(0, 0), Place(1, 0)] && WantedPlaces(ks, pis, 0) == [Place(1, 0)]
  {
    hide RoundUp;
    WordFits(a, 0);
    WordFits(b, 1);
    var ks := [OneWord(a), OneWord(b)];
    var pis := [WordRequest(a, 1, false, 0), WordRequest(b, 2, true, pa)];
    assert ks[1..] == [OneWord(b)] && ks[1..][1..] == [];
    assert pis[1..] == [pis[1]] && pis[1..][1..] == [];
    OnePayload(ks[1], pis[1], 1);
    assert [Cmd(pa, 64, 1)][1..] == [];
  }

  lemma {:induction false} OnePayload(k: Packet, pi: Pi, from: nat)
    requires Written(pi)
    ensures AllData([k]) == Framed(k.data) == Wanted([k], [pi]) && Commands([pi], WRITE) == [Cmd(pi.pa, pi.length, pi.units)]
    ensures AllPlaces([k], from) == PlacesOf(from, |k.data|) == WantedPlaces([k], [pi], from)
  {
    hide Framed, PlacesOf;
    var ks, pis := [k][1..], [pi][1..];
    assert ks == [] && pis == [];
    assert AllData(ks) == [] && Wanted(ks, pis) == [] && Commands(pis, WRITE) == [];
    assert AllPlaces(ks, from + 1) == [] && WantedPlaces(ks, pis, from + 1) == [];
  }

  /** Two of them, the first refused by the mapping: memory gets the first one's word at the second one's address. */
  lemma RefusedWordWritten(a: Data, b: Data, pa: nat)
    ensures var ks := [OneWord(a), OneWord(b)];
      var e := Env(Wire(ks), [], [MapRet(false, 0), MapRet(true, pa)], []);
      && AllWellFormed(ks) && Answers(e, ks) && !NoneAfterRefusal(Finished(ks, e)) && |Finished(ks, e)| == 2
      && EndWr(e) == WrOut([ToDm(Cmd(pa, 64, 1))], [Flit(a, true)])
      && Wanted(ks, Finished(ks, e)) == [Flit(b, true)]
      && UnitSum(Commands(Finished(ks, e), WRITE)) == 1 && |AllPlaces(ks, 0)| == 2
      && TakenPlaces(ks, Finished(ks, e), 0) == [Place(0, 0)] && WantedPlaces(ks, Finished(ks, e), 0) == [Place(1, 0)]
  {
    hide EndMap, ToDm, RoundUp, AllData, AllPlaces, Wanted, WantedPlaces, Commands, Answers, Allocated, Mapped, WrAll;
    var ks := [OneWord(a), OneWord(b)];
    var e := Env(Wire(ks), [], [MapRet(false, 0), MapRet(true, pa)], []);
    WordFits(a, 1);
    WordFits(b, 2);
    TwoRequests(a, b, pa, e);
    TwoPayloads(a, b, pa);
    RepliesInOrder(ks, e);
    var cmds, words := [Cmd(pa, 64, 1)], [a, b];
    assert Words(AllData(ks)) == words;
    WrCuts(WR0, cmds, words);
    assert cmds[1..] == [] && Cut(cmds[1..], words[1..]) == [];
    assert Run(words, 1) == [Flit(a, true)];
    var pis := Finished(ks, e);
    assert Refused(pis[0]) && Written(pis[1]);
  }

  /** So for payloads that can be told apart by their words, exactly then does memory get what it should. */
  lemma {:induction false} WritesPairedByWords(ks: seq<Packet>, e: Env)
    requires AllWellFormed(ks) && Answers(e, ks) && |Finished(ks, e)| == |ks| && TellApart(ks, Finished(ks, e))
    ensures EndWr(e).data == Wanted(ks, Finished(ks, e)) <==> NoneAfterRefusal(Finished(ks, e))
  {
    var pis := Finished(ks, e);
    FinishedFit(ks, e);
    if NoneAfterRefusal(pis) {
      WritesPaired(ks, e);
    } else {
      var a, b :| 0 <= a < b < |pis| && Refused(pis[a]) && Written(pis[b]);
      var c := FirstRefused(pis, a);
      var n := RefusedDataWritten(ks, e, c, b);
      if n < |Wanted(ks, pis)| {
        var d, j := WantedFrom(ks, pis, n);
        assert ks[c].data[0].data != ks[d].data[j].data;
      }
    }
  }

  /** Unless a WRITE succeeds after a refused one, every write command gets exactly its own packet's data. */
  lemma {:induction false} WritesPaired(ks: seq<Packet>, e: Env)
    requires AllWellFormed(ks) && Answers(e, ks) && NoneAfterRefusal(Finished(ks, e))
    ensures |Finished(ks, e)| == |ks|
    ensures EndWr(e) == WrOut(DmCmds(Commands(Finished(ks, e), WRITE)), Wanted(ks, Finished(ks, e)))
  {
    var pis := Finished(ks, e);
    RepliesInOrder(ks, e);
    FinishedFit(ks, e);
    CutIsWanted(ks, pis);
    EnoughWords(ks, pis);
    WrCuts(WR0, Commands(pis, WRITE), Words(AllData(ks)));
  }
}
