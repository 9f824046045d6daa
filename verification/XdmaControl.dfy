/**
 The masks and shifts on a descriptor's packed 32-bit control word (host/pcie_xdma/xdma/libxdma.c), and
 the four fields of XdmaChain they stand for.
 */
module XdmaControl {

  import opened XdmaChain
  import opened XdmaSubmit

  const DESC_MAGIC: bv32 := 0xAD4B0000

  function MagicBits(w: bv32): bv32 { (w >> 16) & 0xFFFF }
  function ReservedBits(w: bv32): bv32 { (w >> 12) & 0xF }
  function AdjBits(w: bv32): bv32 { (w >> 8) & 0xF }
  function FlagBits(w: bv32): bv32 { w & 0xFF }

  /** Bits 31..16, 15..12, 11..8 and 7..0 of a control word. */
  function Fields(w: bv32): Control
  {
    Control(MagicBits(w) as nat, ReservedBits(w) as nat, AdjBits(w) as nat, FlagBits(w) as nat)
  }

  lemma InitBits(e: bv32)
    requires e & 0xF == e
    ensures var w := DESC_MAGIC | (e << 8);
      MagicBits(w) == 0xAD4B && ReservedBits(w) == 0 && AdjBits(w) == e && FlagBits(w) == 0
  {
  }

  /** `transfer_desc_init`: DESC_MAGIC | extra_adj << 8 */
  lemma InitFields(e: bv32)
    requires e & 0xF == e
    ensures Fields(DESC_MAGIC | (e << 8)) == Control(MAGIC, 0, e as nat, 0)
  {
    InitBits(e);
    hide MagicBits, ReservedBits, AdjBits, FlagBits;
  }

  lemma AdjacentBits(w: bv32, e: bv32)
    requires e & 0xF == e
    ensures var v := (w & 0x0000f0ff) | DESC_MAGIC | (e << 8);
      MagicBits(v) == 0xAD4B && ReservedBits(v) == ReservedBits(w) && AdjBits(v) == e && FlagBits(v) == FlagBits(w)
  {
  }

  /** `xdma_desc_adjacent`, and with e == 0 `xdma_desc_link`: control & 0x0000f0ff, DESC_MAGIC and the count or-ed in. */
  lemma AdjacentFields(w: bv32, e: bv32)
    requires e & 0xF == e
    ensures Fields((w & 0x0000f0ff) | DESC_MAGIC | (e << 8)) == Adjacent(Fields(w), e as nat)
  {
    AdjacentBits(w, e);
    hide MagicBits, ReservedBits, AdjBits, FlagBits;
  }

  lemma LinkBits(w: bv32)
    ensures (w & 0x0000f0ff) | DESC_MAGIC == (w & 0x0000f0ff) | DESC_MAGIC | (0 << 8)
  {
  }

  lemma LinkFields(w: bv32)
    ensures Fields((w & 0x0000f0ff) | DESC_MAGIC) == Adjacent(Fields(w), 0)
  {
    hide Fields;
    LinkBits(w);
    AdjacentFields(w, 0);
  }

  lemma ControlBits(w: bv32, f: bv32)
    requires f & 0xFF == f
    ensures var v := (w & !0xFF) | f;
      MagicBits(v) == MagicBits(w) && ReservedBits(v) == ReservedBits(w) && AdjBits(v) == AdjBits(w) && FlagBits(v) == f
  {
  }

  /** `xdma_desc_control_set`: control & ~LS_BYTE_MASK, the field or-ed in. */
  lemma ControlFields(w: bv32, f: bv32)
    requires f & 0xFF == f
    ensures Fields((w & !0xFF) | f) == Fields(w).(flags := f as nat)
  {
    ControlBits(w, f);
    hide MagicBits, ReservedBits, AdjBits, FlagBits;
  }
}
