/**
 Cutting a mapped scatter list into software descriptors of limited length, as `xdma_init_request`
 of host/pcie_xdma/xdma/libxdma.c does.
 */
module XdmaSplit {

  const U32: nat := 0x1_0000_0000

  /** An entry of the mapped scatter list, and a software descriptor: a range of host bytes. */
  datatype Range = Range(addr: nat, len: nat)

  ghost function Total(rs: seq<Range>): nat
  {
    if rs == [] then 0 else Total(rs[..|rs| - 1]) + rs[|rs| - 1].len
  }

  ghost function BytesOf(r: Range): seq<nat>
  {
    seq(r.len, i requires 0 <= i < r.len => r.addr + i)
  }

  /** Every host byte of a list of ranges, in order. */
  ghost function HostBytes(rs: seq<Range>): seq<nat>
  {
    if rs == [] then [] else HostBytes(rs[..|rs| - 1]) + BytesOf(rs[|rs| - 1])
  }

  lemma {:induction false} HostBytesJoin(a: seq<Range>, b: seq<Range>)
    ensures HostBytes(a + b) == HostBytes(a) + HostBytes(b)
    ensures Total(a + b) == Total(a) + Total(b)
    decreases |b|
  {
    if b == [] {
      assert a + b == a;
    } else {
      var m := |b| - 1;
      assert (a + b)[..|a + b| - 1] == a + b[..m];
      HostBytesJoin(a, b[..m]);
    }
  }

  lemma {:induction false} HostBytesLength(rs: seq<Range>)
    ensures |HostBytes(rs)| == Total(rs)
  {
    if rs != [] { HostBytesLength(rs[..|rs| - 1]); }
  }

  lemma HostBytesOne(r: Range)
    ensures HostBytes([r]) == BytesOf(r) && Total([r]) == r.len
  {
    assert [r][..0] == [];
  }

  // ---------- the cuts

  ghost function Split(r: Range, blen: nat): seq<Range>
    requires blen >= 1
    decreases r.len
  {
    if r.len == 0 then []
    else if r.len > blen then [Range(r.addr, blen)] + Split(Range(r.addr + blen, r.len - blen), blen)
    else [r]
  }

  ghost function SplitAll(sg: seq<Range>, blen: nat): seq<Range>
    requires blen >= 1
  {
    if sg == [] then [] else SplitAll(sg[..|sg| - 1], blen) + Split(sg[|sg| - 1], blen)
  }

  /** Every piece moves something and stays within the limit. */
  ghost predicate Limited(rs: seq<Range>, blen: nat)
  {
    forall i :: 0 <= i < |rs| ==> 1 <= rs[i].len <= blen
  }

  /** Cutting a range keeps its bytes and their order; all cuts but the last have the full length. */
  lemma {:induction false} SplitKeeps(r: Range, blen: nat)
    requires blen >= 1
    ensures HostBytes(Split(r, blen)) == BytesOf(r) && Total(Split(r, blen)) == r.len
    ensures Limited(Split(r, blen), blen)
    ensures forall i :: 0 <= i < |Split(r, blen)| - 1 ==> Split(r, blen)[i].len == blen
    decreases r.len
  {
    hide HostBytes, Total, BytesOf, Limited;
    if r.len > blen {
      var first, rest := Range(r.addr, blen), Range(r.addr + blen, r.len - blen);
      SplitKeeps(rest, blen);
      HostBytesOne(first);
      HostBytesJoin([first], Split(rest, blen));
      BytesCut(r, blen);
      LimitedJoin([first], Split(rest, blen), blen);
      LimitedOne(first, blen);
    } else {
      HostBytesOne(r);
      LimitedOne(r, blen);
      NoBytes(r, blen);
    }
  }

  lemma BytesCut(r: Range, n: nat)
    requires n <= r.len
    ensures BytesOf(Range(r.addr, n)) + BytesOf(Range(r.addr + n, r.len - n)) == BytesOf(r)
  {
  }

  lemma LimitedOne(r: Range, blen: nat)
    ensures 1 <= r.len <= blen ==> Limited([r], blen)
  {
  }

  lemma NoBytes(r: Range, blen: nat)
    ensures HostBytes([]) == [] && Total([]) == 0 && Limited([], blen)
    ensures r.len == 0 ==> BytesOf(r) == []
  {
  }

  lemma LimitedJoin(a: seq<Range>, b: seq<Range>, blen: nat)
    ensures Limited([], blen)
    ensures Limited(a, blen) && Limited(b, blen) ==> Limited(a + b, blen)
  {
  }

  lemma {:induction false} SplitAllKeeps(sg: seq<Range>, blen: nat)
    requires blen >= 1
    ensures HostBytes(SplitAll(sg, blen)) == HostBytes(sg) && Total(SplitAll(sg, blen)) == Total(sg)
    ensures Limited(SplitAll(sg, blen), blen)
  {
    hide Split, Limited, BytesOf;
    if sg == [] {
      LimitedJoin([], [], blen);
    } else {
      var m := |sg| - 1;
      SplitAllKeeps(sg[..m], blen);
      SplitKeeps(sg[m], blen);
      HostBytesJoin(SplitAll(sg[..m], blen), Split(sg[m], blen));
      LimitedJoin(SplitAll(sg[..m], blen), Split(sg[m], blen), blen);
    }
  }

  // ---------- the count made before the cuts

  function Pieces(len: nat, blen: nat): nat
    requires blen >= 1
  {
    (len + blen - 1) % U32 / blen
  }

  /** What the first pass adds up for one entry. */
  function CountedFor(r: Range, blen: nat): nat
    requires blen >= 1
  {
    1 + if r.len > blen then Pieces(r.len, blen) else 0
  }

  ghost function Counted(sg: seq<Range>, blen: nat): nat
    requires blen >= 1
  {
    if sg == [] then 0 else Counted(sg[..|sg| - 1], blen) + CountedFor(sg[|sg| - 1], blen)
  }

  /** The unsigned sum in the count of a long entry stays within 32 bits. */
  predicate NoWrap(r: Range, blen: nat)
  {
    r.len <= blen || r.len + blen - 1 < U32
  }

  /** How many pieces an entry takes. */
  function CutsOf(r: Range, blen: nat): nat
    requires blen >= 1
  {
    (r.len + blen - 1) / blen
  }

  /** The count has one too many for an empty entry and for a long one whose sum does not wrap ... */
  function Spare(r: Range, blen: nat): nat
  {
    if r.len == 0 || (r.len > blen && NoWrap(r, blen)) then 1 else 0
  }

  /** ... and lacks all pieces but one of an entry whose sum wraps. */
  function Missing(r: Range, blen: nat): int
    requires blen >= 1
  {
    if NoWrap(r, blen) then 0 else CutsOf(r, blen) - 1
  }

  ghost function SpareOf(sg: seq<Range>, blen: nat): nat
  {
    if sg == [] then 0 else SpareOf(sg[..|sg| - 1], blen) + Spare(sg[|sg| - 1], blen)
  }

  ghost function MissingOf(sg: seq<Range>, blen: nat): int
    requires blen >= 1
  {
    if sg == [] then 0 else MissingOf(sg[..|sg| - 1], blen) + Missing(sg[|sg| - 1], blen)
  }

  /** 32-bit lengths and limit, and no more pieces missing from the count than it has to spare. */
  ghost predicate Countable(sg: seq<Range>, blen: nat)
  {
    && 1 <= blen < U32 && (forall i :: 0 <= i < |sg| ==> sg[i].len < U32)
    && MissingOf(sg, blen) <= SpareOf(sg, blen)
  }

  lemma {:induction false} SplitCount(r: Range, blen: nat)
    requires blen >= 1
    ensures var n := |Split(r, blen)|; r.len <= n * blen && (n >= 1 ==> (n - 1) * blen < r.len)
    decreases r.len
  {
    if r.len > blen {
      var rest := Range(r.addr + blen, r.len - blen);
      SplitCount(rest, blen);
      var n := |Split(rest, blen)|;
      assert Split(r, blen)[1..] == Split(rest, blen);
      assert (n + 1) * blen == n * blen + blen;
      assert (n - 1) * blen + blen == n * blen;
    }
  }

  lemma AtLeast(a: nat, b: nat, m: nat)
    requires m >= 1 && a * m < b * m
    ensures a < b
  {
    assert b <= a ==> b * m <= a * m;
  }

  lemma SmallQuotient(x: nat, blen: nat)
    requires 1 <= blen < U32 && U32 <= x < U32 + blen
    ensures x % U32 / blen == 0
  {
    assert x % U32 == x - U32;
  }

  lemma {:induction false} SplitExact(r: Range, blen: nat)
    requires blen >= 1
    ensures |Split(r, blen)| == CutsOf(r, blen)
  {
    hide Split;
    SplitCount(r, blen);
    var n, x := |Split(r, blen)|, r.len + blen - 1;
    var q := x / blen;
    assert x == q * blen + x % blen;
    assert (q + 1) * blen == q * blen + blen && (n + 1) * blen == n * blen + blen;
    assert (n - 1) * blen == n * blen - blen;
    AtLeast(q, n + 1, blen);
    if n >= 1 { AtLeast(n - 1, q, blen); }
  }

  lemma {:induction false} EntryCount(r: Range, blen: nat)
    requires 1 <= blen < U32 && r.len < U32
    ensures |Split(r, blen)| + Spare(r, blen) == CountedFor(r, blen) + Missing(r, blen)
  {
    hide Split;
    SplitExact(r, blen);
    var x := r.len + blen - 1;
    if r.len <= blen {
      if r.len > 0 { OneCut(r, blen); } else { OneCut(Range(0, 1), blen); }
    } else if !NoWrap(r, blen) {
      SmallQuotient(x, blen);
    }
  }

  lemma OneCut(r: Range, blen: nat)
    requires 1 <= r.len <= blen
    ensures CutsOf(r, blen) == 1 && (blen - 1) / blen == 0
  {
    QuotientIs(r.len + blen - 1, 1, blen);
    QuotientIs(blen - 1, 0, blen);
  }

  /**
   For an entry of a 32-bit length the count covers the pieces exactly when the unsigned sum does
   not wrap: a wrapped sum counts nothing for an entry that takes at least two pieces.
   */
  lemma {:induction false} CountCovers(r: Range, blen: nat)
    requires 1 <= blen < U32 && r.len < U32
    ensures |Split(r, blen)| <= CountedFor(r, blen) <==> NoWrap(r, blen)
  {
    hide Split;
    EntryCount(r, blen);
    if !NoWrap(r, blen) {
      var x := r.len + blen - 1;
      TwoBlocks(blen);
      AtMost(2 * blen, x, blen);
    }
  }

  lemma TwoBlocks(blen: nat)
    requires blen >= 1
    ensures 2 * blen / blen == 2
  {
    QuotientIs(2 * blen, 2, blen);
  }

  lemma AtMost(x: nat, y: nat, blen: nat)
    requires blen >= 1 && x <= y
    ensures x / blen <= y / blen
  {
    var p, q := x / blen, y / blen;
    assert x == p * blen + x % blen && y == q * blen + y % blen;
    assert (q + 1) * blen == q * blen + blen;
    AtLeast(p, q + 1, blen);
  }

  lemma QuotientIs(x: nat, q: nat, blen: nat)
    requires blen >= 1 && q * blen <= x < (q + 1) * blen
    ensures x / blen == q
  {
    var p := x / blen;
    assert x == p * blen + x % blen;
    assert (p + 1) * blen == p * blen + blen;
    AtLeast(p, q + 1, blen);
    AtLeast(q, p + 1, blen);
  }

  /** The pieces of a list and what the first pass counted differ by what is missing and what is to spare. */
  lemma {:induction false} ListCount(sg: seq<Range>, blen: nat)
    requires 1 <= blen < U32 && forall i :: 0 <= i < |sg| ==> sg[i].len < U32
    ensures |SplitAll(sg, blen)| + SpareOf(sg, blen) == Counted(sg, blen) + MissingOf(sg, blen)
  {
    hide Split, CountedFor, Spare, Missing;
    if sg != [] {
      ListCount(sg[..|sg| - 1], blen);
      EntryCount(sg[|sg| - 1], blen);
    }
  }

  /** The array sized by the first pass holds every piece if and only if the list is countable. */
  lemma {:induction false} CountedExactly(sg: seq<Range>, blen: nat)
    requires 1 <= blen < U32 && forall i :: 0 <= i < |sg| ==> sg[i].len < U32
    ensures |SplitAll(sg, blen)| <= Counted(sg, blen) <==> Countable(sg, blen)
  {
    ListCount(sg, blen);
  }

  const DEFAULT_BLEN_MAX: nat := 0xFFFFFFF

  /** An input that is not: one entry of the greatest length takes 17 pieces and counts as one. */
  lemma SeventeenForOne()
    ensures var sg := [Range(0, 0xFFFFFFFF)];
      && |SplitAll(sg, DEFAULT_BLEN_MAX)| == 17 && Counted(sg, DEFAULT_BLEN_MAX) == 1
      && !Countable(sg, DEFAULT_BLEN_MAX)
  {
    hide Split;
    var r := Range(0, 0xFFFFFFFF);
    SplitExact(r, DEFAULT_BLEN_MAX);
    EntryCount(r, DEFAULT_BLEN_MAX);
    OneEntry(r, DEFAULT_BLEN_MAX);
    CountedExactly([r], DEFAULT_BLEN_MAX);
  }

  lemma {:induction false} OneEntry(r: Range, blen: nat)
    requires blen >= 1
    ensures SplitAll([r], blen) == Split(r, blen) && Counted([r], blen) == CountedFor(r, blen)
  {
    assert [r][..0] == [];
  }

  lemma {:induction false} OneMore(sg: seq<Range>, blen: nat, i: nat)
    requires blen >= 1 && i < |sg|
    ensures Total(sg[..i + 1]) == Total(sg[..i]) + sg[i].len
    ensures SplitAll(sg[..i + 1], blen) == SplitAll(sg[..i], blen) + Split(sg[i], blen)
    ensures Counted(sg[..i + 1], blen) == Counted(sg[..i], blen) + CountedFor(sg[i], blen)
  {
    assert sg[..i + 1][..i] == sg[..i];
  }

  lemma {:induction false} Nothing(sg: seq<Range>, blen: nat)
    requires blen >= 1
    ensures Total(sg[..0]) == 0 && SplitAll(sg[..0], blen) == [] && Counted(sg[..0], blen) == 0
  {
  }

  /** The array holds the first of the cuts, as far as it reaches. */
  ghost predicate Stored(held: seq<Range>, cuts: seq<Range>)
  {
    forall k :: 0 <= k < |held| && k < |cuts| ==> held[k] == cuts[k]
  }

  /**
   `xdma_init_request`: a counting pass that sizes the array, and a pass that cuts; `totalLen` is a
   32-bit field. The closing BUG_ON(j > max) fires exactly for the lists that are not countable. What the
   source stores past the end by then is dropped here.
   */
  method InitRequest(sg: seq<Range>, blen: nat) returns (sdesc: array<Range>, cnt: nat, totalLen: nat, bug: bool)
    requires 1 <= blen < U32 && forall i :: 0 <= i < |sg| ==> sg[i].len < U32
    ensures fresh(sdesc) && sdesc.Length == Counted(sg, blen) && cnt == |SplitAll(sg, blen)|
    ensures bug <==> !Countable(sg, blen)
    ensures Stored(sdesc[..], SplitAll(sg, blen)) && totalLen == Total(sg) % U32
    ensures !bug ==> cnt <= sdesc.Length && sdesc[..cnt] == SplitAll(sg, blen)
  {
    hide Split, SplitAll, Counted, Total, Pieces, Countable, Stored;
    Nothing(sg, blen);
    CountedExactly(sg, blen);
    var extra: nat := 0;
    for i := 0 to |sg|
      invariant i + extra == Counted(sg[..i], blen)
    {
      OneMore(sg, blen, i);
      if sg[i].len > blen { extra := extra + Pieces(sg[i].len, blen); }
    }
    assert sg[..|sg|] == sg;
    var max := |sg| + extra;
    sdesc := new Range[max](_ => Range(0, 0));
    totalLen, cnt := 0, 0;
    NothingStored(sdesc[..]);
    for i := 0 to |sg|
      invariant cnt == |SplitAll(sg[..i], blen)| && Stored(sdesc[..], SplitAll(sg[..i], blen))
      invariant totalLen == Total(sg[..i]) % U32
    {
      OneMore(sg, blen, i);
      totalLen := (totalLen + sg[i].len) % U32;
      cnt := CutEntry(sdesc, cnt, sg[i], blen, SplitAll(sg[..i], blen));
    }
    bug := cnt > max;
    if !bug { StoredWhole(sdesc[..], SplitAll(sg, blen)); }
  }

  lemma NothingStored(held: seq<Range>)
    ensures Stored(held, [])
  {
  }

  lemma StoredWhole(held: seq<Range>, cuts: seq<Range>)
    requires Stored(held, cuts) && |cuts| <= |held|
    ensures held[..|cuts|] == cuts
  {
  }

  /** The inner loop of the second pass. */
  method CutEntry(sdesc: array<Range>, j: nat, r: Range, blen: nat, ghost before: seq<Range>) returns (cnt: nat)
    requires blen >= 1 && j == |before| && Stored(sdesc[..], before)
    modifies sdesc
    ensures cnt == j + |Split(r, blen)| && Stored(sdesc[..], before + Split(r, blen))
  {
    var tlen: nat, addr: nat := r.len, r.addr;
    cnt := j;
    ghost var cuts := before;
    while tlen != 0
      invariant |cuts| == cnt && Stored(sdesc[..], cuts)
      invariant cuts + Split(Range(addr, tlen), blen) == before + Split(r, blen)
    {
      ghost var held := sdesc[..];
      var piece := Range(addr, if tlen > blen then blen else tlen);
      CutOff(cuts, Range(addr, tlen), blen);
      if cnt < sdesc.Length { sdesc[cnt] := piece; }
      StoredMore(held, cuts, piece, sdesc[..]);
      addr, tlen := addr + piece.len, tlen - piece.len;
      cuts, cnt := cuts + [piece], cnt + 1;
    }
    assert cuts + Split(Range(addr, 0), blen) == cuts;
  }

  /** The next cut is the first one of what is left. */
  lemma CutOff(cuts: seq<Range>, r: Range, blen: nat)
    requires blen >= 1 && r.len > 0
    ensures var n := if r.len > blen then blen else r.len;
      cuts + Split(r, blen) == cuts + [Range(r.addr, n)] + Split(Range(r.addr + n, r.len - n), blen)
  {
    var n := if r.len > blen then blen else r.len;
    var rest := Split(Range(r.addr + n, r.len - n), blen);
    assert Split(r, blen) == [Range(r.addr, n)] + rest;
    assert cuts + ([Range(r.addr, n)] + rest) == cuts + [Range(r.addr, n)] + rest;
  }

  lemma StoredMore(held: seq<Range>, cuts: seq<Range>, piece: Range, held': seq<Range>)
    requires Stored(held, cuts) && held' == if |cuts| < |held| then held[|cuts| := piece] else held
    ensures Stored(held', cuts + [piece])
  {
  }
}
