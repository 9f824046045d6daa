/** Which answer of the environment each request gets, and what of it reaches the commands and the replies. */
module RdmAnswers {
  import opened RdmStages
  import opened RdmReplies
  import opened RdmPipeline
  import opened RdmResults

  /** The pages one allocation takes: as few as hold its data units. */
  function Pages(k: Packet): nat { (64 * Units(k) + 0xFFF) / 0x1000 }

  lemma FewestPages(k: Packet)
    requires 1 <= k.app.data.len < 0x80_0000
    ensures 0x1000 * Pages(k) - 0x1000 < 64 * Units(k) <= 0x1000 * Pages(k)
    ensures BumpVa(0, 64 * Units(k)) == 0x1000 * Pages(k)
  {
    UnitsPositive(k);
    hide Units;
    var x := 64 * Units(k);
    var q, r := (x + 0xFFF) / 0x1000, (x + 0xFFF) % 0x1000;
    assert x + 0xFFF == q * 0x1000 + r;
    assert q * 0x1000 <= 0x80_0000 + 0xFFF;
  }

  /** The pages handed out to the successful ALLOCs of a list of packets. */
  ghost function PagesTaken(ks: seq<Packet>, rets: seq<AllocRet>): nat
    requires |rets| >= CountAllocs(ks)
  {
    if ks == [] then 0
    else if ks[0].app.data.op != ALLOC then PagesTaken(ks[1..], rets)
    else (if rets[0].ok then Pages(ks[0]) else 0) + PagesTaken(ks[1..], rets[1..])
  }

  lemma {:induction false} AllocsBefore(ks: seq<Packet>, i: nat)
    requires i < |ks|
    ensures CountAllocs(ks[..i]) + (if ks[i].app.data.op == ALLOC then 1 else 0) <= CountAllocs(ks)
  {
    if i > 0 {
      AllocsBefore(ks[1..], i - 1);
      assert ks[..i][1..] == ks[1..][..i - 1] && ks[..i][0] == ks[0];
    }
  }

  lemma BumpAdds(va: nat, start: nat, pages: nat, k: Packet)
    requires va == (start + 0x1000 * pages) % U64 && 1 <= k.app.data.len < 0x80_0000
    ensures BumpVa(va, 64 * Units(k)) == (start + 0x1000 * (pages + Pages(k))) % U64
  {
    hide Units, Pages;
    FewestPages(k);
    var n, x := 0x1000 * Pages(k), start + 0x1000 * pages;
    assert RoundUp(64 * Units(k), 0x1000) == n by { assert BumpVa(0, 64 * Units(k)) == n; UnitsPositive(k); }
    assert x == x / U64 * U64 + va;
    AddMod(va, x / U64, n);
  }

  lemma AddMod(a: nat, q: nat, n: nat)
    ensures (a + n) % U64 == (q * U64 + a + n) % U64
  {
  }

  /** The i-th packet, if an ALLOC, takes the allocator's next answer and the pages after those handed out before. */
  lemma {:induction false} AllocAnswered(ks: seq<Packet>, num: nat, start: nat, pages: nat, rets: seq<AllocRet>, i: nat)
    requires AllWellFormed(ks) && |rets| >= CountAllocs(ks) && i < |ks| && ks[i].app.data.op == ALLOC
    ensures CountAllocs(ks[..i]) < |rets|
    ensures var pis := Allocated(ks, num, (start + 0x1000 * pages) % U64, rets);
      var ret := rets[CountAllocs(ks[..i])];
      && |pis| == |ks| && (pis[i].allocOk <==> ret.ok)
      && (ret.ok ==> pis[i].allocPa == ret.addr && pis[i].allocVa == (start + 0x1000 * (pages + PagesTaken(ks[..i], rets))) % U64)
    decreases |ks|
  {
    hide Units, RoundUp, BumpVa, Pages;
    var va := (start + 0x1000 * pages) % U64;
    AllocatedSame(ks, num, va, rets);
    AllocsBefore(ks, i);
    if i > 0 {
      var before := ks[..i];
      assert before[1..] == ks[1..][..i - 1] && before[0] == ks[0];
      if ks[0].app.data.op != ALLOC {
        AllocAnswered(ks[1..], num + 1, start, pages, rets, i - 1);
      } else if rets[0].ok {
        AllocLength(ks[0], num);
        BumpAdds(va, start, pages, ks[0]);
        AllocAnswered(ks[1..], num + 1, start, pages + Pages(ks[0]), rets[1..], i - 1);
      } else {
        AllocAnswered(ks[1..], num + 1, start, pages, rets[1..], i - 1);
      }
    }
  }

  lemma AllocLength(k: Packet, num: nat)
    requires 1 <= k.app.data.len < 0x80_0000
    ensures ParseApp(k.eth, num, k.app).length == 64 * Units(k)
  {
    UnitsPositive(k);
  }

  lemma {:induction false} MapsBefore(pis: seq<Pi>, i: nat)
    requires i < |pis|
    ensures CountMaps(pis[..i]) + (if Maps(pis[i]) then 1 else 0) <= CountMaps(pis)
  {
    if i > 0 {
      MapsBefore(pis[1..], i - 1);
      assert pis[..i][1..] == pis[1..][..i - 1] && pis[..i][0] == pis[0];
    }
  }

  /** The i-th request, if it maps, takes the mapping IP's next answer, and sent the request at that place. */
  lemma {:induction false} MapAnswered(pis: seq<Pi>, rets: seq<MapRet>, i: nat)
    requires |rets| >= CountMaps(pis) && i < |pis| && Maps(pis[i])
    ensures CountMaps(pis[..i]) < |rets| && |Mapped(pis, rets)| == |pis|
    ensures var n := CountMaps(pis[..i]);
      var done := Mapped(pis, rets)[i];
      && (done.mapOk <==> rets[n].ok) && (rets[n].ok ==> done.pa == rets[n].address)
      && n < |MapRequests(pis)|
      && MapRequests(pis)[n] ==
           if pis[i].op == ALLOC then MapReq(MAPPING_SET, pis[i].allocVa, pis[i].allocPa) else MapReq(MAPPING_GET, pis[i].va, 0)
    decreases |pis|
  {
    MappedSame(pis, rets);
    MapsBefore(pis, i);
    if i > 0 {
      var before := pis[..i];
      assert before[1..] == pis[1..][..i - 1] && before[0] == pis[0];
      MapAnswered(pis[1..], if Maps(pis[0]) then rets[1..] else rets, i - 1);
    }
  }

  /** A mapped request's memory command stands behind those of the requests before it. */
  lemma {:induction false} CommandAt(pis: seq<Pi>, op: nat, i: nat)
    requires i < |pis| && pis[i].op == op && pis[i].mapOk
    ensures var c := |Commands(pis[..i], op)|;
      c < |Commands(pis, op)| && Commands(pis, op)[c] == Cmd(pis[i].pa, pis[i].length, pis[i].units)
    decreases |pis|
  {
    if i > 0 {
      CommandAt(pis[1..], op, i - 1);
      assert pis[..i][1..] == pis[1..][..i - 1] && pis[..i][0] == pis[0];
    }
  }

  /** The number of the mapping answer that request i gets. */
  ghost function MapNumber(ks: seq<Packet>, e: Env, i: nat): nat
    requires |e.allocRets| >= CountAllocs(ks) && i <= |AfterAlloc(ks, e)|
  {
    CountMaps(AfterAlloc(ks, e)[..i])
  }

  /** An ALLOC is answered with the allocator's next answer, and asks for the mapping of just that address. */
  lemma AllocGets(ks: seq<Packet>, e: Env, i: nat)
    requires AllWellFormed(ks) && Answers(e, ks) && i < |ks| && ks[i].app.data.op == ALLOC
    ensures |Finished(ks, e)| == |AfterAlloc(ks, e)| == |ks| && CountAllocs(ks[..i]) < |e.allocRets|
    ensures var pi, ret := Finished(ks, e)[i], e.allocRets[CountAllocs(ks[..i])];
      var va := (0x1000 + 0x1000 * PagesTaken(ks[..i], e.allocRets)) % U64;
      && (pi.allocOk <==> ret.ok) && (ret.ok ==> pi.allocPa == ret.addr && pi.allocVa == va)
      && (ret.ok ==> var n := MapNumber(ks, e, i);
            n < |EndMap(e).reqs| && EndMap(e).reqs[n] == MapReq(MAPPING_SET, va, ret.addr))
  {
    hide Allocated, Mapped, CountMaps, CountAllocs, PagesTaken, MapRequests, EndMap, WellFormed;
    AllocsBefore(ks, i);
    RepliesInOrder(ks, e);
    FinishedSame(ks, e);
    AllocatedSame(ks, 1, 0x1000, e.allocRets);
    AllocAnswered(ks, 1, 0x1000, 0, e.allocRets, i);
    var pis := AfterAlloc(ks, e);
    MappedSame(pis, e.mapRets);
    assert Same(pis[i], ks[i], i + 1);
    if Maps(pis[i]) { MapAnswered(pis, e.mapRets, i); }
  }

  /**
   A READ or WRITE is answered with the mapping IP's next answer to the address it names; if that is a
   success, its memory command goes to the address of the answer, with its own size.
   */
  lemma AccessGets(ks: seq<Packet>, e: Env, i: nat)
    requires AllWellFormed(ks) && Answers(e, ks) && i < |ks| && ks[i].app.data.op in {READ, WRITE}
    ensures |Finished(ks, e)| == |AfterAlloc(ks, e)| == |ks| && MapNumber(ks, e, i) < |e.mapRets|
    ensures var n := MapNumber(ks, e, i);
      var pi, op, ret := Finished(ks, e)[i], ks[i].app.data.op, e.mapRets[n];
      var cmds := if op == READ then EndMap(e).rdCmds else EndMap(e).wrCmds;
      && n < |EndMap(e).reqs| && EndMap(e).reqs[n] == MapReq(MAPPING_GET, ks[i].app.data.addr, 0)
      && (pi.mapOk <==> ret.ok)
      && (ret.ok ==> var c := |Commands(Finished(ks, e)[..i], op)|;
            && c < |cmds| && cmds[c] == Cmd(ret.address, 64 * Units(ks[i]), Units(ks[i]))
            && DmCmds(cmds)[c] == DmCmd(ret.address % 0x1_0000_0000, 64 * Units(ks[i]) % 0x80_0000))
  {
    hide Allocated, Mapped, CountMaps, CountAllocs, MapRequests, Commands, EndMap, WellFormed, Units;
    RepliesInOrder(ks, e);
    FinishedSame(ks, e);
    AllocatedSame(ks, 1, 0x1000, e.allocRets);
    var pis, done := AfterAlloc(ks, e), Finished(ks, e);
    MappedSame(pis, e.mapRets);
    assert Same(pis[i], ks[i], i + 1) && Same(done[i], ks[i], i + 1);
    MapAnswered(pis, e.mapRets, i);
    if done[i].mapOk { CommandAt(done, ks[i].app.data.op, i); }
  }
}
