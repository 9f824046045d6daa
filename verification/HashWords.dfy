/** Hash buckets (mm/paging_hashed/hls_mapping/hash.hpp) and the translation of bucket numbers to DRAM addresses. */
module HashWords {

  datatype Slot = Slot(key: nat, val: nat, perm: bool, used: bool)
  datatype Word = Word(slots: seq<Slot>, chained: bool, next: nat)

  const SLOTS: nat := 7
  const EMPTY: Slot := Slot(0, 0, false, false)

  /** A 512-bit bucket: seven slots, a chain flag and the number of the next bucket. */
  type Bucket = w: Word | |w.slots| == SLOTS
    witness Word([EMPTY, EMPTY, EMPTY, EMPTY, EMPTY, EMPTY, EMPTY], false, 0)
  const ZERO: Bucket := Word([EMPTY, EMPTY, EMPTY, EMPTY, EMPTY, EMPTY, EMPTY], false, 0)

  /** The first slot with this key, ignoring the bitmap, or 7. */
  function Find(hb: Bucket, key: nat, from: nat := 0): (i: nat)
    requires from <= SLOTS
    ensures from <= i <= SLOTS
    ensures i < SLOTS ==> hb.slots[i].key == key
    ensures forall j :: from <= j < i ==> hb.slots[j].key != key
    decreases SLOTS - from
  {
    if from == SLOTS || hb.slots[from].key == key then from else Find(hb, key, from + 1)
  }

  /** The first slot whose bitmap bit is clear, or 7. */
  function FindSpace(hb: Bucket, from: nat := 0): (i: nat)
    requires from <= SLOTS
    ensures from <= i <= SLOTS
    ensures i < SLOTS ==> !hb.slots[i].used
    ensures forall j :: from <= j < i ==> hb.slots[j].used
    decreases SLOTS - from
  {
    if from == SLOTS || !hb.slots[from].used then from else FindSpace(hb, from + 1)
  }

  /** `__compare` */
  method Compare(hb: Bucket, key: nat) returns (i: nat)
    ensures i == Find(hb, key)
  {
    i := 0;
    while i < SLOTS
      invariant i <= SLOTS && Find(hb, key) == Find(hb, key, i)
    {
      if hb.slots[i].key == key { return; }
      i := i + 1;
    }
  }

  /** `find_empty_slot_dram`: -1 when the bucket is full. */
  method FindEmptySlotDram(hb: Bucket) returns (slot: int)
    ensures slot == if FindSpace(hb) < SLOTS then FindSpace(hb) else -1
  {
    slot := -1;
    var i := 0;
    while i < SLOTS
      invariant i <= SLOTS && slot == -1 && FindSpace(hb) == FindSpace(hb, i)
    {
      if !hb.slots[i].used { slot := i; return; }
      i := i + 1;
    }
  }

  // ---------- bucket numbers and DRAM addresses

  const ADDR_SPACE: nat := 0x1_0000_0000   // PA_WIDTH is 32
  const BUCKETS: nat := 0x400_0000         // NR_BITS_CHAIN_ADDR is 26

  /** dm.cpp: the byte address of a bucket number, on 32 bits. */
  function DmAddr(base: nat, bucket: nat): nat
  {
    (bucket * 64 + base) % ADDR_SPACE
  }

  /** fill_S2's alloc_addr_trans: an arithmetic shift of the difference, on 32 bits. */
  function AllocTrans(base: nat, addr: nat): nat
  {
    ((addr - base) / 64) % ADDR_SPACE
  }

  /** The 26 bits of it that are kept as the chain pointer. */
  function ChainPointer(base: nat, addr: nat): nat
  {
    AllocTrans(base, addr) % BUCKETS
  }

  /**
   Encoding an allocated address as a chain pointer and decoding it again are inverse modulo 2^32,
   also when the address lies below the table base.
   */
  lemma ChainPointerRoundTrip(base: nat, addr: nat)
    requires addr < ADDR_SPACE && (addr - base) % 64 == 0
    ensures DmAddr(base, ChainPointer(base, addr)) == addr
    ensures DmAddr(base, AllocTrans(base, addr)) == addr
    ensures ChainPointer(base, addr) < BUCKETS
  {
    var d := (addr - base) / 64;
    assert addr - base == 64 * d;
    var t := d % ADDR_SPACE;
    var q := d / ADDR_SPACE;
    assert d == q * ADDR_SPACE + t;
    Decoded(base, addr, t, -64 * q);
    var p, q' := t % BUCKETS, t / BUCKETS;
    assert t == q' * BUCKETS + p;
    Decoded(base, addr, p, -64 * q - q');
  }

  lemma Decoded(base: nat, addr: nat, bucket: nat, k: int)
    requires addr < ADDR_SPACE && bucket * 64 + base == addr + k * ADDR_SPACE
    ensures DmAddr(base, bucket) == addr
  {
    ModShift(addr, k);
  }

  lemma ModShift(a: int, k: int)
    ensures (a + k * ADDR_SPACE) % ADDR_SPACE == a % ADDR_SPACE
  {
  }

  /** The table lies at its base, bucket after bucket, round the end of the address space. */
  lemma BucketsInOrder(base: nat, bucket: nat)
    ensures DmAddr(base, 0) == base % ADDR_SPACE && DmAddr(base, bucket + 1) == (DmAddr(base, bucket) + 64) % ADDR_SPACE
  {
    var x := bucket * 64 + base;
    assert (bucket + 1) * 64 + base == x + 64;
    assert x == x / ADDR_SPACE * ADDR_SPACE + x % ADDR_SPACE;
    ModShift(x % ADDR_SPACE + 64, x / ADDR_SPACE);
  }

  /** Decoding is one to one on chain pointers. */
  lemma DmAddrInjective(base: nat, a: nat, b: nat)
    requires a < BUCKETS && b < BUCKETS && DmAddr(base, a) == DmAddr(base, b)
    ensures a == b
  {
  }
}
