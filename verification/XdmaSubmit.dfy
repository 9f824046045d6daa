/**
 One submit: transfers of at most MAX_DESC descriptors, built one after another in the engine's
 descriptor array (host/pcie_xdma/xdma/libxdma.c).
 */
module XdmaSubmit {

  import opened XdmaSplit
  import opened XdmaChain

  /** What becomes of a transfer: the engine refuses to queue it, or ends it in one of three ways. */
  datatype Outcome = Refused | Completed | Failed | TimedOut
  datatype Result = Done(bytes: nat) | Busy | IoError | Restart

  /** What was queued for the engine: the descriptors, and the 32-bit `len` field. */
  datatype Transfer = Transfer(descs: seq<Desc>, len: nat)

  // ---------- the transfers a list of pieces is to become

  function BatchSize(n: nat): nat { Min(n, MAX_DESC) }

  ghost function Batch(rs: seq<Range>): seq<Range> { rs[..BatchSize(|rs|)] }

  ghost function TransferOf(u: Setup, rs: seq<Range>, ep: nat): Transfer
  {
    Transfer(Chain(u, rs, ep), Total(rs) % U32)
  }

  ghost function TransfersOf(u: Setup, rs: seq<Range>, ep: nat): seq<Transfer>
    decreases |rs|
  {
    if rs == [] then []
    else
      var b := Batch(rs);
      [TransferOf(u, b, ep)] + TransfersOf(u, rs[|b|..], EpAt(u, ep, Total(b)))
  }

  ghost function AllMoves(u: Setup, ts: seq<Transfer>): seq<Move>
  {
    if ts == [] then [] else Moves(u, ts[0].descs) + AllMoves(u, ts[1..])
  }

  /** What `done` adds up to. */
  ghost function Reported(ts: seq<Transfer>): nat
  {
    if ts == [] then 0 else Reported(ts[..|ts| - 1]) + ts[|ts| - 1].len
  }

  // ---------- the engine

  class Request {
    const sdesc: array<Range>
    const swDescCnt: nat
    var swDescIdx: nat
    var epAddr: nat

    ghost predicate Valid()
      reads this, sdesc
    {
      swDescIdx <= swDescCnt <= sdesc.Length && epAddr < U64
    }

    /** The pieces no transfer has taken yet. */
    ghost function Left(): seq<Range>
      requires Valid()
      reads this, sdesc
    {
      sdesc[swDescIdx..swDescCnt]
    }

    constructor (sg: seq<Range>, blen: nat, ep: nat)
      requires Countable(sg, blen) && ep < U64
      ensures Valid() && fresh(sdesc) && Left() == SplitAll(sg, blen) && epAddr == ep && swDescIdx == 0
    {
      var a, n, total, bug := InitRequest(sg, blen);
      assert !bug;
      sdesc, swDescCnt, swDescIdx, epAddr := a, n, 0, ep;
    }
  }

  class Engine {
    const setup: Setup
    const desc: array<Desc>

    ghost predicate Valid()
    {
      GoodSetup(setup) && desc.Length == MAX_DESC
    }

    constructor (u: Setup)
      requires GoodSetup(u)
      ensures Valid() && setup == u && fresh(desc)
    {
      setup := u;
      desc := new Desc[MAX_DESC](_ => Desc(Control(0, 0, 0, 0), 0, 0, 0, 0));
    }

    /** `transfer_desc_init`: a linked list of `count` empty descriptors. */
    method DescInit(count: nat)
      requires Valid() && 1 <= count <= MAX_DESC
      modifies desc
      ensures forall i :: 0 <= i < count ==> Linked(desc[i], setup, count, i) && Blank(desc[i], count, i)
    {
      var bus := setup.bus;
      var adj := count - 1;
      for i := 0 to count - 1
        invariant bus == setup.bus + 32 * i && adj == count - 1 - i
        invariant forall k :: 0 <= k < i ==> Linked(desc[k], setup, count, k) && Blank(desc[k], count, k)
      {
        bus := bus + DESC_SIZE;
        var extra := 0;
        if adj > 0 {
          extra := adj - 1;
          if extra > MAX_EXTRA_ADJ { extra := MAX_EXTRA_ADJ; }
          adj := adj - 1;
        }
        desc[i] := desc[i].(next := bus, bytes := 0, control := Control(MAGIC, 0, extra, 0));
      }
      desc[count - 1] := desc[count - 1].(next := 0, bytes := 0, control := Control(MAGIC, 0, 0, 0));
    }

    /** `xdma_desc_set` */
    method DescSet(i: nat, host: nat, ep: nat, len: nat)
      requires Valid() && i < MAX_DESC
      modifies desc
      ensures desc[i] == Aimed(setup, old(desc[i]), host, ep, len)
      ensures forall k :: 0 <= k < MAX_DESC && k != i ==> desc[k] == old(desc[k])
    {
      if setup.toDevice {
        desc[i] := desc[i].(bytes := len, src := host, dst := ep);
      } else {
        desc[i] := desc[i].(bytes := len, src := ep, dst := host);
      }
    }

    /** `transfer_build`: aims `n` descriptors at the next pieces, and moves the request past them. */
    method Build(req: Request, n: nat) returns (len: nat)
      requires Valid() && req.Valid() && n <= MAX_DESC && n <= |req.Left()|
      requires req.sdesc as object != desc as object
      modifies desc, req`swDescIdx, req`epAddr
      ensures req.Valid() && req.Left() == old(req.Left())[n..]
      ensures len == Total(old(req.Left())[..n]) % U32 && req.epAddr == EpAt(setup, old(req.epAddr), Total(old(req.Left())[..n]))
      ensures forall i :: 0 <= i < n ==> desc[i] == AimedAt(setup, old(desc[i]), old(req.Left()), old(req.epAddr), i)
    {
      hide EpAt, Total, GoodSetup, Aimed;
      ghost var left, ep := req.Left(), req.epAddr;
      TotalStart(left);
      EpAtStep(setup, ep, 0, 0);
      len := 0;
      for i := 0 to n
        invariant req.Valid() && req.Left() == left
        invariant len == Total(left[..i]) % U32 && req.epAddr == EpAt(setup, ep, Total(left[..i]))
        invariant forall k :: 0 <= k < i ==> desc[k] == AimedAt(setup, old(desc[k]), left, ep, k)
        invariant forall k :: i <= k < MAX_DESC ==> desc[k] == old(desc[k])
      {
        var sd := req.sdesc[req.swDescIdx + i];
        assert sd == left[i];
        DescSet(i, sd.addr, req.epAddr, sd.len);
        TotalStep(left, i);
        len := (len + sd.len) % U32;
        EpAtStep(setup, ep, Total(left[..i]), sd.len);
        EpForward(setup, req.epAddr, sd.len);
        if !setup.nonIncr { req.epAddr := (req.epAddr + sd.len) % U64; }
      }
      req.swDescIdx := req.swDescIdx + n;
      assert req.Left() == left[n..];
    }

    /** `xdma_desc_link` with no second descriptor. */
    method DescEnd(i: nat)
      requires Valid() && i < MAX_DESC
      modifies desc
      ensures desc[..] == old(desc[..])[i := old(desc[i]).(next := 0, control := Adjacent(old(desc[i].control), 0))]
    {
      desc[i] := desc[i].(next := 0, control := Adjacent(desc[i].control, 0));
    }

    /** `xdma_desc_control_set` */
    method ControlSet(i: nat, field: nat)
      requires Valid() && i < MAX_DESC && field < 0x100
      modifies desc
      ensures desc[..] == old(desc[..])[i := old(desc[i]).(control := old(desc[i].control).(flags := field))]
    {
      desc[i] := desc[i].(control := desc[i].control.(flags := field));
    }

    /** `xdma_desc_adjacent` */
    method DescAdjacent(i: nat, nextAdjacent: nat)
      requires Valid() && i < MAX_DESC
      modifies desc
      ensures desc[..] == old(desc[..])[i := Fetched(old(desc[i]), nextAdjacent)]
    {
      var extra := 0;
      if nextAdjacent > 0 {
        extra := nextAdjacent - 1;
        if extra > MAX_EXTRA_ADJ { extra := MAX_EXTRA_ADJ; }
        var inPage := AfterInPage(desc[i].next);
        if extra > inPage { extra := inPage; }
      }
      desc[i] := desc[i].(control := Adjacent(desc[i].control, extra));
    }

    /** `transfer_init`: the next transfer of the request, built over whatever the array held. */
    method TransferInit(req: Request) returns (xfer: Transfer)
      requires Valid() && req.Valid() && req.Left() != []
      requires req.sdesc as object != desc as object
      modifies desc, req`swDescIdx, req`epAddr
      ensures req.Valid() && req.Left() == old(req.Left())[|Batch(old(req.Left()))|..]
      ensures req.epAddr == EpAt(setup, old(req.epAddr), Total(Batch(old(req.Left()))))
      ensures xfer == TransferOf(setup, Batch(old(req.Left())), old(req.epAddr))
    {
      hide Total, EpAt, AfterInPage;
      ghost var left, ep := req.Left(), req.epAddr;
      ghost var rs := Batch(left);
      var n := BatchSize(req.swDescCnt - req.swDescIdx);
      DescInit(n);
      var len := Build(req, n);
      forall i | 0 <= i < n ensures Built(desc[i], setup, rs, ep, i) { BuiltAt(setup, left, ep, i); }
      DescEnd(n - 1);
      ControlSet(n - 1, LAST_FLAGS);
      for i := 0 to n
        invariant req.Valid() && req.Left() == left[n..] && req.epAddr == EpAt(setup, ep, Total(rs))
        invariant forall k :: 0 <= k < i ==> desc[k] == DescOf(setup, rs, ep, k)
        invariant forall k :: i <= k < n ==> Marked(desc[k], setup, rs, ep, k)
      {
        DescAdjacent(i, n - i - 1);
      }
      xfer := Transfer(desc[..n], len);
    }

    /**
     The loop of `xdma_xfer_submit`: one transfer at a time, stopping at the first that is refused or
     does not complete. `outcome(k)` is how the hardware ends transfer k; `queued` is what it was handed.
     */
    method Submit(sg: seq<Range>, blen: nat, ep: nat, outcome: nat -> Outcome)
      returns (rv: Result, queued: seq<Transfer>)
      requires Valid() && Countable(sg, blen) && ep < U64
      modifies desc
      ensures Answers(rv, queued, TransfersOf(setup, SplitAll(sg, blen), ep), outcome)
    {
      hide TransfersOf, TransferOf, Total, EpAt, Batch, BatchSize, Answers, SplitAll, Underway, GoodSetup, NoWrap;
      var req := new Request(sg, blen, ep);
      ghost var all := TransfersOf(setup, SplitAll(sg, blen), ep);
      var nents := req.swDescCnt;
      var done: nat := 0;
      queued := [];
      Begins(setup, req.Left(), ep, outcome);
      while nents != 0
        invariant fresh(req) && fresh(req.sdesc) && req.Valid() && nents == |req.Left()|
        invariant Underway(setup, queued, req.Left(), req.epAddr, all, done, outcome)
        decreases nents
      {
        Continues(setup, queued, req.Left(), req.epAddr, all, done, outcome);
        var xfer := TransferInit(req);
        nents := nents - |xfer.descs|;
        var how := outcome(|queued|);
        if how == Refused { return Busy, queued; }
        queued := queued + [xfer];
        if how == Failed { return IoError, queued; }
        if how == TimedOut { return Restart, queued; }
        done := done + xfer.len;
      }
      Finishes(setup, queued, req.Left(), req.epAddr, all, done, outcome);
      rv := Done(done);
    }
  }

  // ---------- what the methods leave in a descriptor

  ghost predicate Linked(d: Desc, u: Setup, n: nat, i: nat)
  {
    && d.control.magic == MAGIC && d.control.reserved == 0 && d.control.flags == 0
    && d.next == if i + 1 < n then u.bus + 32 * (i + 1) else 0
  }

  /** Moves nothing yet, and says how many descriptors follow the next one. */
  ghost predicate Blank(d: Desc, n: nat, i: nat)
  {
    d.bytes == 0 && d.control.extraAdj == if i + 1 < n then Min(n - i - 2, MAX_EXTRA_ADJ) else 0
  }

  ghost function Aimed(u: Setup, d: Desc, host: nat, ep: nat, len: nat): Desc
  {
    d.(bytes := len, src := if u.toDevice then host else ep, dst := if u.toDevice then ep else host)
  }

  ghost function AimedAt(u: Setup, d: Desc, rs: seq<Range>, ep: nat, i: nat): Desc
    requires i < |rs|
  {
    Aimed(u, d, rs[i].addr, EpAt(u, ep, Total(rs[..i])), rs[i].len)
  }

  /** Everything but the adjacency and the stop flags is final. */
  ghost predicate Built(d: Desc, u: Setup, rs: seq<Range>, ep: nat, i: nat)
    requires i < |rs|
  {
    && Linked(d, u, |rs|, i)
    && d == DescOf(u, rs, ep, i).(control := d.control, next := d.next)
  }

  /** Everything but the adjacency is final. */
  ghost predicate Marked(d: Desc, u: Setup, rs: seq<Range>, ep: nat, i: nat)
    requires i < |rs|
  {
    d == DescOf(u, rs, ep, i).(control := DescOf(u, rs, ep, i).control.(extraAdj := d.control.extraAdj))
  }

  /** Keeps the reserved and the control bits. */
  function Adjacent(c: Control, extra: nat): Control
  {
    Control(MAGIC, c.reserved, extra, c.flags)
  }

  ghost function Fetched(d: Desc, nextAdjacent: nat): Desc
  {
    var extra := if nextAdjacent == 0 then 0
                 else Min(Min(nextAdjacent - 1, MAX_EXTRA_ADJ), AfterInPage(d.next));
    d.(control := Adjacent(d.control, extra))
  }

  /** How a submit of the transfers `all` ends. */
  ghost predicate Answers(rv: Result, queued: seq<Transfer>, all: seq<Transfer>, outcome: nat -> Outcome)
  {
    var last := |queued| - 1;
    && queued <= all
    && (forall k :: 0 <= k < last ==> outcome(k) == Completed)
    && match rv {
         case Done(bytes) =>
           queued == all && bytes == Reported(all) && (queued != [] ==> outcome(last) == Completed)
         case Busy => |queued| < |all| && outcome(|queued|) == Refused && (queued != [] ==> outcome(last) == Completed)
         case IoError => queued != [] && outcome(last) == Failed
         case Restart => queued != [] && outcome(last) == TimedOut
       }
  }

  // ---------- the loop of a submit

  /** All queued so far completed, and what is left will make up the rest. */
  ghost predicate Underway(u: Setup, queued: seq<Transfer>, left: seq<Range>, ep: nat, all: seq<Transfer>,
                           done: nat, outcome: nat -> Outcome)
  {
    && queued + TransfersOf(u, left, ep) == all
    && done == Reported(queued)
    && forall k :: 0 <= k < |queued| ==> outcome(k) == Completed
  }

  lemma {:induction false} Begins(u: Setup, left: seq<Range>, ep: nat, outcome: nat -> Outcome)
    ensures Underway(u, [], left, ep, TransfersOf(u, left, ep), 0, outcome)
  {
  }

  lemma Continues(u: Setup, queued: seq<Transfer>, left: seq<Range>, ep: nat, all: seq<Transfer>,
                  done: nat, outcome: nat -> Outcome)
    requires left != [] && Underway(u, queued, left, ep, all, done, outcome)
    ensures var b := Batch(left);
      var t := TransferOf(u, b, ep);
      var more := queued + [t];
      && |t.descs| == |b| && 1 <= |b| <= |left|
      && match outcome(|queued|) {
           case Refused => Answers(Busy, queued, all, outcome)
           case Completed => Underway(u, more, left[|b|..], EpAt(u, ep, Total(b)), all, done + t.len, outcome)
           case Failed => Answers(IoError, more, all, outcome)
           case TimedOut => Answers(Restart, more, all, outcome)
         }
  {
    hide EpAt, Total, Batch, TransfersOf, TransferOf, Answers;
    NextTransfer(u, left, ep);
    var b := Batch(left);
    var t, rest := TransferOf(u, b, ep), TransfersOf(u, left[|b|..], EpAt(u, ep, Total(b)));
    OneQueued(queued, t, rest, all, outcome);
  }

  lemma {:induction false} NextTransfer(u: Setup, left: seq<Range>, ep: nat)
    requires left != []
    ensures var b := Batch(left);
      var t := TransferOf(u, b, ep);
      && |t.descs| == |b| && 1 <= |b| <= |left|
      && TransfersOf(u, left, ep) == [t] + TransfersOf(u, left[|b|..], EpAt(u, ep, Total(b)))
  {
    hide EpAt, Total, DescOf;
  }

  lemma {:induction false} OneQueued(queued: seq<Transfer>, t: Transfer, rest: seq<Transfer>, all: seq<Transfer>, outcome: nat -> Outcome)
    requires queued + ([t] + rest) == all
    requires forall k :: 0 <= k < |queued| ==> outcome(k) == Completed
    ensures queued + [t] + rest == all && Reported(queued + [t]) == Reported(queued) + t.len
    ensures outcome(|queued|) == Refused ==> Answers(Busy, queued, all, outcome)
    ensures outcome(|queued|) == Failed ==> Answers(IoError, queued + [t], all, outcome)
    ensures outcome(|queued|) == TimedOut ==> Answers(Restart, queued + [t], all, outcome)
  {
    hide Reported, Answers;
    ReportedOne(queued, t);
    Regroup(queued, t, rest);
    if outcome(|queued|) == Refused { EndsBusy(queued, [t] + rest, outcome); }
    if outcome(|queued|) == Failed { EndsWith(IoError, queued, t, rest, outcome); }
    if outcome(|queued|) == TimedOut { EndsWith(Restart, queued, t, rest, outcome); }
  }

  lemma EndsBusy(queued: seq<Transfer>, rest: seq<Transfer>, outcome: nat -> Outcome)
    requires forall k :: 0 <= k < |queued| ==> outcome(k) == Completed
    requires outcome(|queued|) == Refused && rest != []
    ensures Answers(Busy, queued, queued + rest, outcome)
  {
  }

  lemma EndsWith(rv: Result, queued: seq<Transfer>, t: Transfer, rest: seq<Transfer>, outcome: nat -> Outcome)
    requires forall k :: 0 <= k < |queued| ==> outcome(k) == Completed
    requires (rv == IoError && outcome(|queued|) == Failed) || (rv == Restart && outcome(|queued|) == TimedOut)
    ensures Answers(rv, queued + [t], queued + [t] + rest, outcome)
  {
  }

  lemma {:induction false} ReportedOne(queued: seq<Transfer>, t: Transfer)
    ensures Reported(queued + [t]) == Reported(queued) + t.len
  {
    assert (queued + [t])[..|queued|] == queued;
  }

  lemma Regroup<T>(a: seq<T>, x: T, b: seq<T>)
    ensures a + ([x] + b) == a + [x] + b
  {
  }

  lemma Finishes(u: Setup, queued: seq<Transfer>, left: seq<Range>, ep: nat, all: seq<Transfer>,
                 done: nat, outcome: nat -> Outcome)
    requires left == [] && Underway(u, queued, left, ep, all, done, outcome)
    ensures Answers(Done(done), queued, all, outcome)
  {
  }

  // ---------- small steps

  lemma TotalStart(rs: seq<Range>)
    ensures Total(rs[..0]) == 0
  {
  }

  lemma TotalStep(rs: seq<Range>, i: nat)
    requires i < |rs|
    ensures Total(rs[..i + 1]) == Total(rs[..i]) + rs[i].len
    ensures (Total(rs[..i]) % U32 + rs[i].len) % U32 == Total(rs[..i + 1]) % U32
  {
    assert rs[..i + 1][..i] == rs[..i];
  }

  lemma EpForward(u: Setup, ep: nat, len: nat)
    ensures EpAt(u, ep, len) == if u.nonIncr then ep else (ep + len) % U64
  {
  }

  lemma BuiltAt(u: Setup, left: seq<Range>, ep: nat, i: nat)
    requires i < |Batch(left)|
    ensures forall d :: Linked(d, u, |Batch(left)|, i) ==> Built(AimedAt(u, d, left, ep, i), u, Batch(left), ep, i)
  {
    assert Batch(left)[..i] == left[..i];
  }
}
