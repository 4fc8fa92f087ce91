/**
 * Register accessors of the GICv3 driver: each reads or writes one register
 * of the Distributor frame at `base` (the `gicd_*` accessors) or of the SGI
 * frame of the Redistributor whose RD_base is `base` (the `gicr_*` ones),
 * for the register word, bit or byte that belongs to interrupt `id`.
 *
 * The accessors that read a word, change one bit and write it back are
 * specified by the bank they leave behind (SetIdBit / ClrIdBit), the
 * write-1-to-set and write-1-to-clear ones likewise (a W1S write of `1 << b`
 * has the effect of setting bit `b`), and every write by the one `Wr32` or
 * `Wr8` event it appends to the trace.
 *
 * The Redistributor accessors mask the ID with `id & 31` and never look at
 * the rest of it, so they take any `id` and act on `id % 32`.
 */
module GicV3Helpers {
  import opened Bits
  import opened GicHw

  const GIC_PRI_MASK: bv32 := 0xFF

  /** Word `n` of a Distributor bit register holds IDs 32n..32n+31. */
  function DistWordOff(reg: nat, id: nat): nat
  {
    reg + 4 * (id / 32)
  }

  /** The value a read of the word of `id` in Distributor register `r` returns. */
  function DistWord(hw: GicHardware, r: BitReg, id: nat): bv32
    requires hw.Valid() && id < MAX_INTIDS
    reads hw
  {
    Words(hw.dist, r)[id / 32]
  }

  /** The single word of Redistributor bit register `r` of frame `base`. */
  function RdistWord(hw: GicHardware, base: nat, r: BitReg): bv32
    requires hw.Valid() && base in hw.rdist
    reads hw
  {
    Words(hw.rdist[base], r)[0]
  }

  // ----- Distributor IGRPMODR (gicv3_helpers.c) -----

  /** gicd_read_igrpmodr: the IGRPMODR word that holds the bit of `id`. */
  function GicdReadIgrpmodr(hw: GicHardware, base: nat, id: nat): (r: bv32)
    requires hw.Valid() && base == hw.gicdBase && id < MAX_INTIDS
    reads hw
    ensures r == DistWord(hw, GroupMod, id)
  {
    DecodeBitWords(id / 32, DIST_WORDS);
    hw.Read32(base, GICD_IGRPMODR + 4 * (id / 32))
  }

  /** gicd_write_igrpmodr: replaces the IGRPMODR word that holds the bit of `id`. */
  method GicdWriteIgrpmodr(hw: GicHardware, base: nat, id: nat, v: bv32)
    requires hw.Valid() && base == hw.gicdBase && id < MAX_INTIDS
    modifies hw
    ensures hw.Valid()
    ensures hw.State() == old(hw.State().(dist := WithWords(hw.dist, GroupMod, hw.dist.groupMod[id / 32 := v])))
    ensures hw.trace == old(hw.trace) + [Wr32(base + DistWordOff(GICD_IGRPMODR, id), v)]
  {
    DecodeBitWords(id / 32, DIST_WORDS);
    hw.Write32(base, GICD_IGRPMODR + 4 * (id / 32), v);
  }

  /** gicd_get_igrpmodr: 1 exactly when the IGRPMODR bit of `id` is set. */
  function GicdGetIgrpmodr(hw: GicHardware, base: nat, id: nat): (r: bv32)
    requires hw.Valid() && base == hw.gicdBase && id < MAX_INTIDS
    reads hw
    ensures r == 0 || r == 1
    ensures r == 1 <==> IdBit(hw.dist, GroupMod, id)
  {
    Bit(GicdReadIgrpmodr(hw, base, id), BitNum(id))
  }

  /** gicd_set_igrpmodr: sets the IGRPMODR bit of `id` and no other. */
  method GicdSetIgrpmodr(hw: GicHardware, base: nat, id: nat)
    requires hw.Valid() && base == hw.gicdBase && id < MAX_INTIDS
    modifies hw
    ensures hw.Valid()
    ensures hw.State() == old(hw.State().(dist := SetIdBit(hw.dist, GroupMod, id)))
    ensures hw.trace == old(hw.trace) + [Wr32(base + DistWordOff(GICD_IGRPMODR, id), DistWord(hw, GroupMod, id))]
  {
    var v := GicdReadIgrpmodr(hw, base, id);
    ReadModifyWriteEffect(hw.dist, GroupMod, id);
    GicdWriteIgrpmodr(hw, base, id, SetBit(v, BitNum(id)));
  }

  /** gicd_clr_igrpmodr: clears the IGRPMODR bit of `id` and no other. */
  method GicdClrIgrpmodr(hw: GicHardware, base: nat, id: nat)
    requires hw.Valid() && base == hw.gicdBase && id < MAX_INTIDS
    modifies hw
    ensures hw.Valid()
    ensures hw.State() == old(hw.State().(dist := ClrIdBit(hw.dist, GroupMod, id)))
    ensures hw.trace == old(hw.trace) + [Wr32(base + DistWordOff(GICD_IGRPMODR, id), DistWord(hw, GroupMod, id))]
  {
    var v := GicdReadIgrpmodr(hw, base, id);
    ReadModifyWriteEffect(hw.dist, GroupMod, id);
    GicdWriteIgrpmodr(hw, base, id, ClrBit(v, BitNum(id)));
  }

  // ----- Redistributor IPRIORITYR (gicv3_helpers.c) -----

  /** gicr_read_ipriorityr: the priority word holding the byte of `id` and of its three neighbours. */
  function GicrReadIpriorityr(hw: GicHardware, base: nat, id: nat): (r: bv32)
    requires hw.Valid() && base in hw.rdist && id < 32
    reads hw
    ensures Lane(r, LaneNum(id)) == Priority(hw.rdist[base], id)
    ensures forall j: nat :: j / 4 == id / 4 ==> Lane(r, LaneNum(j)) == Priority(hw.rdist[base], j)
  {
    DecodePriorityWord(id / 4, RDIST_WORDS);
    hw.Read32(base, GICR_IPRIORITYR + 4 * (id / 4))
  }

  /** gicr_write_ipriorityr: replaces the four priority bytes of the word holding `id`. */
  method GicrWriteIpriorityr(hw: GicHardware, base: nat, id: nat, v: bv32)
    requires hw.Valid() && base in hw.rdist && id < 32
    modifies hw
    ensures hw.Valid()
    ensures hw.State() == old(hw.State().(rdist := hw.rdist[base := WriteBank32(hw.rdist[base], PriorityWord(id / 4), v)]))
    ensures forall j: nat :: j / 4 == id / 4 ==> Priority(hw.rdist[base], j) == Lane(v, LaneNum(j))
    ensures hw.trace == old(hw.trace) + [Wr32(base + GICR_IPRIORITYR + 4 * (id / 4), v)]
  {
    DecodePriorityWord(id / 4, RDIST_WORDS);
    hw.Write32(base, GICR_IPRIORITYR + 4 * (id / 4), v);
  }

  // ----- Redistributor IGROUPR0 and IGRPMODR0 (gicv3_helpers.c) -----

  /** gicr_get_igroupr0: 1 exactly when the IGROUPR0 bit of `id % 32` is set. */
  function GicrGetIgroupr0(hw: GicHardware, base: nat, id: nat): (r: bv32)
    requires hw.Valid() && base in hw.rdist
    reads hw
    ensures r == 0 || r == 1
    ensures r == 1 <==> IdBit(hw.rdist[base], Group, id % 32)
  {
    DecodeBitWords(0, RDIST_WORDS);
    Bit(hw.Read32(base, GICR_IGROUPR0), BitNum(id))
  }

  /** gicr_set_igroupr0: sets the IGROUPR0 bit of `id % 32` and no other. */
  method GicrSetIgroupr0(hw: GicHardware, base: nat, id: nat)
    requires hw.Valid() && base in hw.rdist
    modifies hw
    ensures hw.Valid()
    ensures hw.State() == old(hw.State().(rdist := hw.rdist[base := SetIdBit(hw.rdist[base], Group, id % 32)]))
    ensures hw.trace == old(hw.trace) + [Wr32(base + GICR_IGROUPR0, RdistWord(hw, base, Group))]
  {
    DecodeBitWords(0, RDIST_WORDS);
    var v := hw.Read32(base, GICR_IGROUPR0);
    ReadModifyWriteEffect(hw.rdist[base], Group, id % 32);
    BitNumMod(id);
    hw.Write32(base, GICR_IGROUPR0, SetBit(v, BitNum(id)));
  }

  /** gicr_clr_igroupr0: clears the IGROUPR0 bit of `id % 32` and no other. */
  method GicrClrIgroupr0(hw: GicHardware, base: nat, id: nat)
    requires hw.Valid() && base in hw.rdist
    modifies hw
    ensures hw.Valid()
    ensures hw.State() == old(hw.State().(rdist := hw.rdist[base := ClrIdBit(hw.rdist[base], Group, id % 32)]))
    ensures hw.trace == old(hw.trace) + [Wr32(base + GICR_IGROUPR0, RdistWord(hw, base, Group))]
  {
    DecodeBitWords(0, RDIST_WORDS);
    var v := hw.Read32(base, GICR_IGROUPR0);
    ReadModifyWriteEffect(hw.rdist[base], Group, id % 32);
    BitNumMod(id);
    hw.Write32(base, GICR_IGROUPR0, ClrBit(v, BitNum(id)));
  }

  /** gicr_get_igrpmodr0: 1 exactly when the IGRPMODR0 bit of `id % 32` is set. */
  function GicrGetIgrpmodr0(hw: GicHardware, base: nat, id: nat): (r: bv32)
    requires hw.Valid() && base in hw.rdist
    reads hw
    ensures r == 0 || r == 1
    ensures r == 1 <==> IdBit(hw.rdist[base], GroupMod, id % 32)
  {
    DecodeBitWords(0, RDIST_WORDS);
    Bit(hw.Read32(base, GICR_IGRPMODR0), BitNum(id))
  }

  /** gicr_set_igrpmodr0: sets the IGRPMODR0 bit of `id % 32` and no other. */
  method GicrSetIgrpmodr0(hw: GicHardware, base: nat, id: nat)
    requires hw.Valid() && base in hw.rdist
    modifies hw
    ensures hw.Valid()
    ensures hw.State() == old(hw.State().(rdist := hw.rdist[base := SetIdBit(hw.rdist[base], GroupMod, id % 32)]))
    ensures hw.trace == old(hw.trace) + [Wr32(base + GICR_IGRPMODR0, RdistWord(hw, base, GroupMod))]
  {
    DecodeBitWords(0, RDIST_WORDS);
    var v := hw.Read32(base, GICR_IGRPMODR0);
    ReadModifyWriteEffect(hw.rdist[base], GroupMod, id % 32);
    BitNumMod(id);
    hw.Write32(base, GICR_IGRPMODR0, SetBit(v, BitNum(id)));
  }

  /** gicr_clr_igrpmodr0: clears the IGRPMODR0 bit of `id % 32` and no other. */
  method GicrClrIgrpmodr0(hw: GicHardware, base: nat, id: nat)
    requires hw.Valid() && base in hw.rdist
    modifies hw
    ensures hw.Valid()
    ensures hw.State() == old(hw.State().(rdist := hw.rdist[base := ClrIdBit(hw.rdist[base], GroupMod, id % 32)]))
    ensures hw.trace == old(hw.trace) + [Wr32(base + GICR_IGRPMODR0, RdistWord(hw, base, GroupMod))]
  {
    DecodeBitWords(0, RDIST_WORDS);
    var v := hw.Read32(base, GICR_IGRPMODR0);
    ReadModifyWriteEffect(hw.rdist[base], GroupMod, id % 32);
    BitNumMod(id);
    hw.Write32(base, GICR_IGRPMODR0, ClrBit(v, BitNum(id)));
  }

  // ----- Redistributor enable, priority and pending (gicv3_helpers.c) -----

  /** gicr_set_isenabler0: a write of `1 << (id % 32)` to ISENABLER0 enables that ID and no other. */
  method GicrSetIsenabler0(hw: GicHardware, base: nat, id: nat)
    requires hw.Valid() && base in hw.rdist
    modifies hw
    ensures hw.Valid()
    ensures hw.State() == old(hw.State().(rdist := hw.rdist[base := SetIdBit(hw.rdist[base], Enable, id % 32)]))
    ensures hw.trace == old(hw.trace) + [Wr32(base + GICR_ISENABLER0, OneHot(BitNum(id)))]
  {
    DecodeBitWords(0, RDIST_WORDS);
    OneHotWriteBankEffect(hw.rdist[base], Enable, id % 32);
    BitNumMod(id);
    hw.Write32(base, GICR_ISENABLER0, OneHot(BitNum(id)));
  }

  /** gicr_set_icenabler0: a write of `1 << (id % 32)` to ICENABLER0 disables that ID and no other. */
  method GicrSetIcenabler0(hw: GicHardware, base: nat, id: nat)
    requires hw.Valid() && base in hw.rdist
    modifies hw
    ensures hw.Valid()
    ensures hw.State() == old(hw.State().(rdist := hw.rdist[base := ClrIdBit(hw.rdist[base], Enable, id % 32)]))
    ensures hw.trace == old(hw.trace) + [Wr32(base + GICR_ICENABLER0, OneHot(BitNum(id)))]
  {
    DecodeBitWords(0, RDIST_WORDS);
    OneHotWriteBankEffect(hw.rdist[base], Enable, id % 32);
    BitNumMod(id);
    hw.Write32(base, GICR_ICENABLER0, OneHot(BitNum(id)));
  }

  /** gicr_set_ispendr0: a write of `1 << (id % 32)` to ISPENDR0 makes that ID pending. */
  method GicrSetIspendr0(hw: GicHardware, base: nat, id: nat)
    requires hw.Valid() && base in hw.rdist
    modifies hw
    ensures hw.Valid()
    ensures hw.State() == old(hw.State().(rdist := hw.rdist[base := SetIdBit(hw.rdist[base], Pending, id % 32)]))
    ensures hw.trace == old(hw.trace) + [Wr32(base + GICR_ISPENDR0, OneHot(BitNum(id)))]
  {
    DecodeBitWords(0, RDIST_WORDS);
    OneHotWriteBankEffect(hw.rdist[base], Pending, id % 32);
    BitNumMod(id);
    hw.Write32(base, GICR_ISPENDR0, OneHot(BitNum(id)));
  }

  /** gicr_set_icpendr0: a write of `1 << (id % 32)` to ICPENDR0 clears the pending state of that ID. */
  method GicrSetIcpendr0(hw: GicHardware, base: nat, id: nat)
    requires hw.Valid() && base in hw.rdist
    modifies hw
    ensures hw.Valid()
    ensures hw.State() == old(hw.State().(rdist := hw.rdist[base := ClrIdBit(hw.rdist[base], Pending, id % 32)]))
    ensures hw.trace == old(hw.trace) + [Wr32(base + GICR_ICPENDR0, OneHot(BitNum(id)))]
  {
    DecodeBitWords(0, RDIST_WORDS);
    OneHotWriteBankEffect(hw.rdist[base], Pending, id % 32);
    BitNumMod(id);
    hw.Write32(base, GICR_ICPENDR0, OneHot(BitNum(id)));
  }

  /** gicr_set_ipriorityr: writes `pri & 0xFF` into the priority byte of `id`. */
  method GicrSetIpriorityr(hw: GicHardware, base: nat, id: nat, pri: bv32)
    requires hw.Valid() && base in hw.rdist && id < 32
    modifies hw
    ensures hw.Valid()
    ensures hw.State() == old(hw.State().(rdist := hw.rdist[base := SetPriority(hw.rdist[base], id, pri & GIC_PRI_MASK)]))
    ensures hw.trace == old(hw.trace) + [Wr8(base + GICR_IPRIORITYR + id, pri & GIC_PRI_MASK)]
  {
    hw.Write8(base, GICR_IPRIORITYR + id, pri & GIC_PRI_MASK);
  }

  // ----- Accessors of the common GIC driver that gic_v3.c uses -----
  // Their source is not part of this model; they follow the Redistributor
  // accessors above, at the Distributor word `id / 32`.

  /** gicd_read_isenabler: the enable word that holds the bit of `id`. */
  function GicdReadIsenabler(hw: GicHardware, base: nat, id: nat): (r: bv32)
    requires hw.Valid() && base == hw.gicdBase && id < MAX_INTIDS
    reads hw
    ensures r == DistWord(hw, Enable, id)
  {
    DecodeBitWords(id / 32, DIST_WORDS);
    hw.Read32(base, GICD_ISENABLER + 4 * (id / 32))
  }

  /** gicd_read_igroupr: the IGROUPR word that holds the bit of `id`. */
  function GicdReadIgroupr(hw: GicHardware, base: nat, id: nat): (r: bv32)
    requires hw.Valid() && base == hw.gicdBase && id < MAX_INTIDS
    reads hw
    ensures r == DistWord(hw, Group, id)
  {
    DecodeBitWords(id / 32, DIST_WORDS);
    hw.Read32(base, GICD_IGROUPR + 4 * (id / 32))
  }

  /** gicd_write_igroupr: replaces the IGROUPR word that holds the bit of `id`. */
  method GicdWriteIgroupr(hw: GicHardware, base: nat, id: nat, v: bv32)
    requires hw.Valid() && base == hw.gicdBase && id < MAX_INTIDS
    modifies hw
    ensures hw.Valid()
    ensures hw.State() == old(hw.State().(dist := WithWords(hw.dist, Group, hw.dist.group[id / 32 := v])))
    ensures hw.trace == old(hw.trace) + [Wr32(base + DistWordOff(GICD_IGROUPR, id), v)]
  {
    DecodeBitWords(id / 32, DIST_WORDS);
    hw.Write32(base, GICD_IGROUPR + 4 * (id / 32), v);
  }

  /** gicd_clr_igroupr: makes `id` a Secure interrupt (IGROUPR bit 0), leaving every other bit. */
  method GicdClrIgroupr(hw: GicHardware, base: nat, id: nat)
    requires hw.Valid() && base == hw.gicdBase && id < MAX_INTIDS
    modifies hw
    ensures hw.Valid()
    ensures hw.State() == old(hw.State().(dist := ClrIdBit(hw.dist, Group, id)))
    ensures hw.trace == old(hw.trace) + [Wr32(base + DistWordOff(GICD_IGROUPR, id), DistWord(hw, Group, id))]
  {
    var v := GicdReadIgroupr(hw, base, id);
    ReadModifyWriteEffect(hw.dist, Group, id);
    GicdWriteIgroupr(hw, base, id, ClrBit(v, BitNum(id)));
  }

  /** gicd_set_isenabler: a W1S write that enables `id` and no other ID. */
  method GicdSetIsenabler(hw: GicHardware, base: nat, id: nat)
    requires hw.Valid() && base == hw.gicdBase && id < MAX_INTIDS
    modifies hw
    ensures hw.Valid()
    ensures hw.State() == old(hw.State().(dist := SetIdBit(hw.dist, Enable, id)))
    ensures hw.trace == old(hw.trace) + [Wr32(base + DistWordOff(GICD_ISENABLER, id), OneHot(BitNum(id)))]
  {
    DecodeBitWords(id / 32, DIST_WORDS);
    OneHotWriteBankEffect(hw.dist, Enable, id);
    hw.Write32(base, GICD_ISENABLER + 4 * (id / 32), OneHot(BitNum(id)));
  }

  /** gicd_set_icenabler: a W1C write that disables `id` and no other ID. */
  method GicdSetIcenabler(hw: GicHardware, base: nat, id: nat)
    requires hw.Valid() && base == hw.gicdBase && id < MAX_INTIDS
    modifies hw
    ensures hw.Valid()
    ensures hw.State() == old(hw.State().(dist := ClrIdBit(hw.dist, Enable, id)))
    ensures hw.trace == old(hw.trace) + [Wr32(base + DistWordOff(GICD_ICENABLER, id), OneHot(BitNum(id)))]
  {
    DecodeBitWords(id / 32, DIST_WORDS);
    OneHotWriteBankEffect(hw.dist, Enable, id);
    hw.Write32(base, GICD_ICENABLER + 4 * (id / 32), OneHot(BitNum(id)));
  }

  /** gicd_set_ispendr: a W1S write that makes `id` pending. */
  method GicdSetIspendr(hw: GicHardware, base: nat, id: nat)
    requires hw.Valid() && base == hw.gicdBase && id < MAX_INTIDS
    modifies hw
    ensures hw.Valid()
    ensures hw.State() == old(hw.State().(dist := SetIdBit(hw.dist, Pending, id)))
    ensures hw.trace == old(hw.trace) + [Wr32(base + DistWordOff(GICD_ISPENDR, id), OneHot(BitNum(id)))]
  {
    DecodeBitWords(id / 32, DIST_WORDS);
    OneHotWriteBankEffect(hw.dist, Pending, id);
    hw.Write32(base, GICD_ISPENDR + 4 * (id / 32), OneHot(BitNum(id)));
  }

  /** gicd_set_icpendr: a W1C write that clears the pending state of `id`. */
  method GicdSetIcpendr(hw: GicHardware, base: nat, id: nat)
    requires hw.Valid() && base == hw.gicdBase && id < MAX_INTIDS
    modifies hw
    ensures hw.Valid()
    ensures hw.State() == old(hw.State().(dist := ClrIdBit(hw.dist, Pending, id)))
    ensures hw.trace == old(hw.trace) + [Wr32(base + DistWordOff(GICD_ICPENDR, id), OneHot(BitNum(id)))]
  {
    DecodeBitWords(id / 32, DIST_WORDS);
    OneHotWriteBankEffect(hw.dist, Pending, id);
    hw.Write32(base, GICD_ICPENDR + 4 * (id / 32), OneHot(BitNum(id)));
  }

  /** gicd_set_ipriorityr: writes `pri & 0xFF` into the priority byte of `id`. */
  method GicdSetIpriorityr(hw: GicHardware, base: nat, id: nat, pri: bv32)
    requires hw.Valid() && base == hw.gicdBase && id < MAX_INTIDS
    modifies hw
    ensures hw.Valid()
    ensures hw.State() == old(hw.State().(dist := SetPriority(hw.dist, id, pri & GIC_PRI_MASK)))
    ensures hw.trace == old(hw.trace) + [Wr8(base + GICD_IPRIORITYR + id, pri & GIC_PRI_MASK)]
  {
    hw.Write8(base, GICD_IPRIORITYR + id, pri & GIC_PRI_MASK);
  }

  /** gicd_read_ctlr. */
  function GicdReadCtlr(hw: GicHardware, base: nat): (r: bv32)
    requires hw.Valid() && base == hw.gicdBase
    reads hw
    ensures r == hw.gicdCtlr
  {
    hw.Read32(base, GICD_CTLR)
  }

  /** gicd_set_ctlr(base, bits, RWP_TRUE): ORs `bits` into GICD_CTLR, then waits for the write to take effect. */
  method GicdSetCtlr(hw: GicHardware, base: nat, bits: bv32)
    requires hw.Valid() && base == hw.gicdBase
    modifies hw
    ensures hw.Valid()
    ensures hw.State() == old(hw.State().(gicdCtlr := hw.gicdCtlr | bits))
    ensures hw.trace == old(hw.trace) + [Wr32(base + GICD_CTLR, hw.gicdCtlr), RwpWait(base)]
  {
    var v := GicdReadCtlr(hw, base);
    hw.Write32(base, GICD_CTLR, v | bits);
    hw.WaitForPendingWrite(base);
  }
}
