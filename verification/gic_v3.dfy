/**
 * The secure-world GICv3 driver: the interrupt-chip operations (add,
 * enable, disable, raise a peripheral interrupt, raise an SGI, route an SPI),
 * the discovery of the Redistributor frames at initialisation, and the
 * dispatch of an interrupt to its handler.
 *
 * IDs below 32 (SGIs and PPIs) are configured in the Redistributor of the
 * calling core, found through `gicr_base[core]`; shared peripheral
 * interrupts (SPIs) in the Distributor.  The effect of each operation is
 * stated on the controller state (`GicState`) by a function of this module,
 * and the properties the driver relies on are lemmas about those functions.
 */
module GicV3 {
  import opened Bits
  import opened GicHw
  import opened GicV3Helpers

  const NUM_SGI: nat := 16
  const MIN_SEC_SGI_ID: nat := 8
  const MIN_SPI_ID: nat := 32

  /** Passed to the handler when the controller has no interrupt to report. */
  const INTR_ID_UNAVAILABLE: bv32 := 0xFFFF_FFFF
  const GIC_SPURIOUS_INTERRUPT: bv32 := 1023
  const HPPIR1_EL1_INTID_MASK: bv32 := 0xFF_FFFF
  const IAR1_EL1_INTID_MASK: bv32 := 0xFF_FFFF

  const GIC_HIGHEST_SEC_PRIORITY: bv32 := 0
  const TYPER_IT_LINES_NO_MASK: bv32 := 0x1F

  // ICC_SGI1R_EL1 / ICC_ASGI1R_EL1 fields
  const ICC_SGIR_AFFINITY_3_SHIFT: bv64 := 48
  const ICC_SGIR_AFFINITY_2_SHIFT: bv64 := 32
  const ICC_SGIR_AFFINITY_1_SHIFT: bv64 := 16
  const ICC_SGIR_INTID_SHIFT: bv64 := 24
  const ICC_SGIR_TLIST_SHIFT: bv64 := 0

  // GICD_IROUTER fields
  const IROUTER_AFFINITY_3_SHIFT: bv64 := 32
  const IROUTER_AFFINITY_2_SHIFT: bv64 := 16
  const IROUTER_AFFINITY_1_SHIFT: bv64 := 8
  const IROUTER_AFFINITY_0_SHIFT: bv64 := 0
  const IROUTER_IRM_SHIFT: bv64 := 31
  const IROUTER_IRM_MASK: bv64 := 1

  /** SGIs and PPIs live in the Redistributor of each core, SPIs in the Distributor. */
  predicate IrqInRdist(id: nat)
  {
    id < MIN_SPI_ID
  }

  // ===== Register values =====

  /**
   * MK_SGIR_VAL: an SGI generation value.  The C macro shifts the ID as a
   * 32-bit unsigned int; the ID is below 16, so the shift cannot overflow and
   * it is computed here on 64 bits.
   */
  function MkSgirVal(aff3: bv64, aff2: bv64, aff1: bv64, id: bv64, tlist: bv64): bv64
  {
    (aff3 << ICC_SGIR_AFFINITY_3_SHIFT) | (aff2 << ICC_SGIR_AFFINITY_2_SHIFT)
    | (aff1 << ICC_SGIR_AFFINITY_1_SHIFT) | (id << ICC_SGIR_INTID_SHIFT) | (tlist << ICC_SGIR_TLIST_SHIFT)
  }

  function SgirTargetList(v: bv64): bv64 { v & 0xFFFF }
  function SgirAff1(v: bv64): bv64 { (v >> 16) & 0xFF }
  function SgirIntid(v: bv64): bv64 { (v >> 24) & 0xF }
  function SgirAff2(v: bv64): bv64 { (v >> 32) & 0xFF }
  function SgirIrm(v: bv64): bv64 { (v >> 40) & 1 }
  function SgirAff3(v: bv64): bv64 { (v >> 48) & 0xFF }

  /** Each argument of MK_SGIR_VAL lands in its own field, and IRM stays 0 (target list mode). */
  lemma SgirFields(aff3: bv64, aff2: bv64, aff1: bv64, id: bv64, tlist: bv64)
    requires aff3 < 0x100 && aff2 < 0x100 && aff1 < 0x100 && id < 0x10 && tlist < 0x1_0000
    ensures var v := MkSgirVal(aff3, aff2, aff1, id, tlist);
            SgirTargetList(v) == tlist && SgirAff1(v) == aff1 && SgirIntid(v) == id
            && SgirAff2(v) == aff2 && SgirIrm(v) == 0 && SgirAff3(v) == aff3
  {
  }

  /**
   * The value gic_it_raise_sgi builds fits in 32 bits, so the 32-bit system
   * register accessor passes it on unchanged.
   */
  lemma SgirFitsAccessor(id: bv64, tlist: bv64)
    requires id < 0x10 && tlist < 0x1_0000
    ensures MkSgirVal(0, 0, 0, id, tlist) & 0xFFFF_FFFF == MkSgirVal(0, 0, 0, id, tlist)
  {
  }

  /** MK_IROUTER_VAL: a routing value for GICD_IROUTER<n>. */
  function MkIrouterVal(aff3: bv64, aff2: bv64, aff1: bv64, aff0: bv64, irm: bv64): bv64
  {
    (aff3 << IROUTER_AFFINITY_3_SHIFT) | (aff2 << IROUTER_AFFINITY_2_SHIFT)
    | (aff1 << IROUTER_AFFINITY_1_SHIFT) | (aff0 << IROUTER_AFFINITY_0_SHIFT)
    | ((irm & IROUTER_IRM_MASK) << IROUTER_IRM_SHIFT)
  }

  function RouteAff0(v: bv64): bv64 { v & 0xFF }
  function RouteAff1(v: bv64): bv64 { (v >> 8) & 0xFF }
  function RouteAff2(v: bv64): bv64 { (v >> 16) & 0xFF }
  function RouteIrm(v: bv64): bv64 { (v >> 31) & 1 }
  function RouteAff3(v: bv64): bv64 { (v >> 32) & 0xFF }

  /** Each affinity argument of MK_IROUTER_VAL lands in its own field; IRM takes the low bit of `irm`. */
  lemma IrouterFields(aff3: bv64, aff2: bv64, aff1: bv64, aff0: bv64, irm: bv64)
    requires aff3 < 0x100 && aff2 < 0x100 && aff1 < 0x100 && aff0 < 0x100
    ensures var v := MkIrouterVal(aff3, aff2, aff1, aff0, irm);
            RouteAff0(v) == aff0 && RouteAff1(v) == aff1 && RouteAff2(v) == aff2
            && RouteAff3(v) == aff3 && RouteIrm(v) == irm & 1
  {
  }

  // ===== CPU masks =====

  /** __builtin_popcount: the number of set bits. */
  function Popcount(m: nat): (r: nat)
    ensures r <= m
  {
    if m == 0 then 0 else m % 2 + Popcount(m / 2)
  }

  /** __builtin_ctz: the number of trailing zero bits of a non-zero value. */
  function Ctz(m: nat): (r: nat)
    requires m > 0
    ensures Pow2(r) <= m
  {
    if m % 2 == 1 then 0 else 1 + Ctz(m / 2)
  }

  function Pow2(k: nat): (r: nat)
    ensures r >= 1
  {
    if k == 0 then 1 else 2 * Pow2(k - 1)
  }

  lemma {:induction false} PopcountZero(m: nat)
    ensures Popcount(m) == 0 <==> m == 0
  {
    if m != 0 {
      if m % 2 == 0 {
        assert m / 2 != 0;
        PopcountZero(m / 2);
      }
    }
  }

  /** A mask with exactly one bit set names exactly CPU Ctz(mask). */
  lemma {:induction false} SingleBitMask(m: nat)
    requires Popcount(m) == 1
    ensures m > 0 && m == Pow2(Ctz(m))
  {
    PopcountZero(m);
    if m % 2 == 1 {
      PopcountZero(m / 2);
    } else {
      SingleBitMask(m / 2);
    }
  }

  /** Conversely, the mask of one CPU has one bit set, at that CPU's number. */
  lemma {:induction false} PowerOfTwoMask(k: nat)
    ensures Popcount(Pow2(k)) == 1 && Ctz(Pow2(k)) == k
  {
    if k > 0 {
      PowerOfTwoMask(k - 1);
      assert Pow2(k) / 2 == Pow2(k - 1);
    }
  }

  lemma Pow2Of16()
    ensures Pow2(16) == 0x1_0000
  {
    assert Pow2(4) == 16;
    assert Pow2(8) == 256;
    assert Pow2(12) == 4096;
  }

  lemma {:induction false} CtzBound(m: nat, n: nat)
    requires 0 < m < Pow2(n)
    ensures Ctz(m) < n
  {
    if m % 2 == 0 {
      assert n > 0;
      CtzBound(m / 2, n - 1);
    }
  }

  /**
   * The IROUTER value gic_it_set_affinity writes for a non-empty CPU mask
   * (16 bits wide; the chip operation passes 8): IRM = 1 ("any participating PE") when the mask names more than one
   * CPU, otherwise Aff0 = the one CPU named.
   */
  function AffinityVal(mask: nat): (v: bv64)
    requires 0 < mask < 0x1_0000
    ensures RouteAff1(v) == 0 && RouteAff2(v) == 0 && RouteAff3(v) == 0
  {
    if Popcount(mask) > 1 then
      IrouterFields(0, 0, 0, 0, 1);
      MkIrouterVal(0, 0, 0, 0, 1)
    else
      Pow2Of16();
      CtzBound(mask, 16);
      IrouterFields(0, 0, 0, Ctz(mask) as bv64, 0);
      MkIrouterVal(0, 0, 0, Ctz(mask) as bv64, 0)
  }

  /** A mask naming several CPUs routes with IRM = 1, to any participating CPU. */
  lemma AffinityRoutesAny(mask: nat)
    requires 0 < mask < 0x1_0000 && Popcount(mask) > 1
    ensures RouteIrm(AffinityVal(mask)) == 1
  {
    IrouterFields(0, 0, 0, 0, 1);
  }

  /**
   * A mask naming one CPU routes with IRM = 0 to affinity 0.0.0.c, where c is
   * that CPU: the mask is exactly bit c.
   */
  lemma AffinityRoutesOne(mask: nat)
    requires 0 < mask < 0x1_0000 && Popcount(mask) <= 1
    ensures Ctz(mask) < 16 && mask == Pow2(Ctz(mask))
    ensures var v := AffinityVal(mask);
            RouteIrm(v) == 0 && RouteAff0(v) == Ctz(mask) as bv64
            && RouteAff1(v) == 0 && RouteAff2(v) == 0 && RouteAff3(v) == 0
  {
    PopcountZero(mask);
    Pow2Of16();
    CtzBound(mask, 16);
    var c := Ctz(mask);
    var a: bv64 := c as bv64;
    assert a < 0x100;
    IrouterFields(0, 0, 0, a, 0);
    SingleBitMask(mask);
  }

  // ===== GICD_TYPER, ICC_HPPIR1_EL1 and ICC_IAR1_EL1 =====

  /** probe_max_it: 32 * (ITLinesNumber + 1) interrupt IDs. */
  function ProbeMaxIt(typer: bv32): (n: nat)
    ensures n == 32 * ((typer & TYPER_IT_LINES_NO_MASK) as nat + 1)
    ensures 32 <= n <= MAX_INTIDS && n % 32 == 0
  {
    (((typer & TYPER_IT_LINES_NO_MASK) + 1) << 5) as nat
  }

  /** gic_read_hppir: the pending INTID, with the spurious ID 1023 reported as INTR_ID_UNAVAILABLE. */
  function ReadHppir(raw: bv32): (r: bv32)
    ensures r == INTR_ID_UNAVAILABLE <==> raw & HPPIR1_EL1_INTID_MASK == GIC_SPURIOUS_INTERRUPT
    ensures r != INTR_ID_UNAVAILABLE ==> r == raw & HPPIR1_EL1_INTID_MASK && r < 0x100_0000
  {
    var irqnr := raw & HPPIR1_EL1_INTID_MASK;
    if irqnr == GIC_SPURIOUS_INTERRUPT then INTR_ID_UNAVAILABLE else irqnr
  }

  // ===== Interrupt groups =====

  datatype IntrGroup = Group0 | Group1S | Group1NS

  /**
   * gic_it_get_group: the group an (IGROUPR, IGRPMODR) bit pair selects.
   * The reserved pair (1, 1) is reported as Group 1 Non-secure.
   */
  function GroupOf(status: bool, modifier: bool): (g: IntrGroup)
    ensures g == Group1S <==> modifier && !status
    ensures g == Group0 <==> !modifier && !status
    ensures g == Group1NS <==> status
  {
    if !modifier then (if !status then Group0 else Group1NS)
    else (if !status then Group1S else Group1NS)
  }

  // ===== The interrupt state as the driver sees it =====

  /** The state of `id` is reachable from the core whose Redistributor frame is `rd`. */
  ghost predicate Reachable(s: GicState, rd: nat, id: nat)
  {
    ValidState(s) && id < MAX_INTIDS && (IrqInRdist(id) ==> rd in s.rdist)
  }

  /** The bank holding the configuration of `id`: frame `rd` for SGIs and PPIs, the Distributor for SPIs. */
  function BankOf(s: GicState, rd: nat, id: nat): (b: Bank)
    requires Reachable(s, rd, id)
    ensures BankShape(b, if IrqInRdist(id) then RDIST_WORDS else DIST_WORDS)
  {
    if IrqInRdist(id) then s.rdist[rd] else s.dist
  }

  function WithBank(s: GicState, rd: nat, id: nat, b: Bank): GicState
    requires Reachable(s, rd, id)
  {
    if IrqInRdist(id) then s.(rdist := s.rdist[rd := b]) else s.(dist := b)
  }

  /** Whether the bit of `id` is set in register `r`. */
  predicate ItBit(s: GicState, rd: nat, r: BitReg, id: nat)
    requires Reachable(s, rd, id)
  {
    IdBit(BankOf(s, rd, id), r, id)
  }

  function ItPriority(s: GicState, rd: nat, id: nat): bv32
    requires Reachable(s, rd, id)
  {
    Priority(BankOf(s, rd, id), id)
  }

  function ItGroup(s: GicState, rd: nat, id: nat): IntrGroup
    requires Reachable(s, rd, id)
  {
    GroupOf(ItBit(s, rd, Group, id), ItBit(s, rd, GroupMod, id))
  }

  /** The state after the bit of `id` in register `r` is set (`on`) or cleared. */
  function SetItBit(s: GicState, rd: nat, r: BitReg, id: nat, on: bool): (s': GicState)
    requires Reachable(s, rd, id)
    ensures s'.irouter == s.irouter && s'.gicdCtlr == s.gicdCtlr
    ensures s'.hppir1 == s.hppir1 && s'.iar1 == s.iar1
  {
    var b := BankOf(s, rd, id);
    WithBank(s, rd, id, if on then SetIdBit(b, r, id) else ClrIdBit(b, r, id))
  }

  /** Setting or clearing one interrupt's bit gives it the new value. */
  lemma SetItBitValue(s: GicState, rd: nat, r: BitReg, id: nat, on: bool)
    requires Reachable(s, rd, id)
    ensures Reachable(SetItBit(s, rd, r, id, on), rd, id)
    ensures ItBit(SetItBit(s, rd, r, id, on), rd, r, id) == on
  {
    var b := BankOf(s, rd, id);
    assert BankOf(SetItBit(s, rd, r, id, on), rd, id) == (if on then SetIdBit(b, r, id) else ClrIdBit(b, r, id));
  }

  /**
   * Setting or clearing one interrupt's bit leaves every other bit, every
   * priority and every other core's per-core interrupts as they were.
   */
  lemma SetItBitFrame(s: GicState, rd: nat, r: BitReg, id: nat, on: bool, rd': nat, r': BitReg, j: nat)
    requires Reachable(s, rd, id) && Reachable(s, rd', j)
    ensures Reachable(SetItBit(s, rd, r, id, on), rd', j)
    ensures r' != r || j != id || (IrqInRdist(j) && rd' != rd) ==>
              ItBit(SetItBit(s, rd, r, id, on), rd', r', j) == ItBit(s, rd', r', j)
    ensures ItPriority(SetItBit(s, rd, r, id, on), rd', j) == ItPriority(s, rd', j)
  {
    SetItBitShape(s, rd, r, id, on, rd', j);
    if SameBank(rd, id, rd', j) {
      SetItBitSameBank(s, rd, r, id, on, rd', j);
      if r' != r || j != id {
        SetItBitOtherBit(s, rd, r, id, on, rd', r', j);
      }
    } else {
      SetItBitOtherBank(s, rd, r, id, on, rd', j);
    }
  }

  lemma SetItBitShape(s: GicState, rd: nat, r: BitReg, id: nat, on: bool, rd': nat, j: nat)
    requires Reachable(s, rd, id) && Reachable(s, rd', j)
    ensures Reachable(SetItBit(s, rd, r, id, on), rd', j)
  {
  }

  lemma SetItBitOtherBank(s: GicState, rd: nat, r: BitReg, id: nat, on: bool, rd': nat, j: nat)
    requires Reachable(s, rd, id) && Reachable(s, rd', j) && !SameBank(rd, id, rd', j)
    requires Reachable(SetItBit(s, rd, r, id, on), rd', j)
    ensures BankOf(SetItBit(s, rd, r, id, on), rd', j) == BankOf(s, rd', j)
  {
  }

  lemma SetItBitSameBank(s: GicState, rd: nat, r: BitReg, id: nat, on: bool, rd': nat, j: nat)
    requires Reachable(s, rd, id) && Reachable(s, rd', j) && SameBank(rd, id, rd', j)
    requires Reachable(SetItBit(s, rd, r, id, on), rd', j)
    ensures ItPriority(SetItBit(s, rd, r, id, on), rd', j) == ItPriority(s, rd', j)
  {
    var b := BankOf(s, rd, id);
    var b' := if on then SetIdBit(b, r, id) else ClrIdBit(b, r, id);
    assert BankOf(SetItBit(s, rd, r, id, on), rd', j) == b';
  }

  lemma SetItBitOtherBit(s: GicState, rd: nat, r: BitReg, id: nat, on: bool, rd': nat, r': BitReg, j: nat)
    requires Reachable(s, rd, id) && Reachable(s, rd', j) && SameBank(rd, id, rd', j)
    requires r' != r || j != id
    requires Reachable(SetItBit(s, rd, r, id, on), rd', j)
    ensures ItBit(SetItBit(s, rd, r, id, on), rd', r', j) == ItBit(s, rd', r', j)
  {
    var b := BankOf(s, rd, id);
    var b' := if on then SetIdBit(b, r, id) else ClrIdBit(b, r, id);
    assert BankOf(SetItBit(s, rd, r, id, on), rd', j) == b';
    IdBitFrame(b, r, id, r', j);
  }

  /** Whether `id` seen from frame `rd` and `j` seen from frame `rd'` live in the same bank. */
  predicate SameBank(rd: nat, id: nat, rd': nat, j: nat)
  {
    IrqInRdist(id) == IrqInRdist(j) && (IrqInRdist(j) ==> rd' == rd)
  }

  /**
   * The state after gic_it_add: the interrupt is Secure Group 1 (IGROUPR bit
   * clear, IGRPMODR bit set) at the highest secure priority; an SPI is also
   * routed to the primary CPU with `route` and Secure Group 1 forwarding is
   * enabled in GICD_CTLR.
   */
  function AddEffect(s: GicState, rd: nat, id: nat, route: bv64): GicState
    requires Reachable(s, rd, id)
  {
    var b' := AddBank(BankOf(s, rd, id), id);
    if IrqInRdist(id) then s.(rdist := s.rdist[rd := b'])
    else s.(dist := b', irouter := s.irouter[id := route], gicdCtlr := s.gicdCtlr | CTLR_ENABLE_G1S_BIT)
  }

  /** What gic_it_add promises about the interrupt it configures. */
  lemma AddConfiguresSecure(s: GicState, rd: nat, id: nat, route: bv64)
    requires Reachable(s, rd, id)
    ensures Reachable(AddEffect(s, rd, id, route), rd, id)
    ensures ItGroup(AddEffect(s, rd, id, route), rd, id) == Group1S
    ensures ItPriority(AddEffect(s, rd, id, route), rd, id) == GIC_HIGHEST_SEC_PRIORITY
    ensures ItBit(AddEffect(s, rd, id, route), rd, Enable, id) == ItBit(s, rd, Enable, id)
    ensures ItBit(AddEffect(s, rd, id, route), rd, Pending, id) == ItBit(s, rd, Pending, id)
    ensures !IrqInRdist(id) ==> AddEffect(s, rd, id, route).irouter[id] == route
    ensures !IrqInRdist(id) ==> AddEffect(s, rd, id, route).gicdCtlr & CTLR_ENABLE_G1S_BIT != 0
  {
    var b := BankOf(s, rd, id);
    AddEffectBank(s, rd, id, route);
    AddBankSecure(b, id);
    AddBankKeeps(b, id, Enable);
    AddBankKeeps(b, id, Pending);
  }

  /** The bank of `id` after gic_it_add is AddBank of the one before. */
  lemma AddEffectBank(s: GicState, rd: nat, id: nat, route: bv64)
    requires Reachable(s, rd, id)
    ensures Reachable(AddEffect(s, rd, id, route), rd, id)
    ensures BankOf(AddEffect(s, rd, id, route), rd, id) == AddBank(BankOf(s, rd, id), id)
    ensures !IrqInRdist(id) ==> AddEffect(s, rd, id, route).irouter[id] == route
    ensures !IrqInRdist(id) ==> AddEffect(s, rd, id, route).gicdCtlr & CTLR_ENABLE_G1S_BIT != 0
  {
  }

  /** AddBank leaves `id` in Secure Group 1 at the highest secure priority. */
  lemma AddBankSecure(b: Bank, id: nat)
    requires id / 32 < |b.group| && id / 32 < |b.groupMod| && id / 4 < |b.priority|
    ensures !IdBit(AddBank(b, id), Group, id) && IdBit(AddBank(b, id), GroupMod, id)
    ensures Priority(AddBank(b, id), id) == GIC_HIGHEST_SEC_PRIORITY
  {
    var b1 := ClrIdBit(b, Group, id);
    IdBitFrame(b1, GroupMod, id, Group, id);
  }

  /** AddBank touches neither the enable nor the pending bit of `id`. */
  lemma AddBankKeeps(b: Bank, id: nat, r: BitReg)
    requires id / 32 < |b.group| && id / 32 < |b.groupMod| && id / 4 < |b.priority|
    requires id / 32 < |Words(b, r)| && (r == Enable || r == Pending)
    ensures IdBit(AddBank(b, id), r, id) == IdBit(b, r, id)
  {
    var b1 := ClrIdBit(b, Group, id);
    IdBitFrame(b, Group, id, r, id);
    IdBitFrame(b1, GroupMod, id, r, id);
  }

  /** gic_it_add changes the configuration of no other interrupt. */
  lemma AddFrame(s: GicState, rd: nat, id: nat, route: bv64, rd': nat, r: BitReg, j: nat)
    requires Reachable(s, rd, id) && Reachable(s, rd', j)
    requires j != id || (IrqInRdist(j) && rd' != rd)
    ensures Reachable(AddEffect(s, rd, id, route), rd', j)
    ensures ItBit(AddEffect(s, rd, id, route), rd', r, j) == ItBit(s, rd', r, j)
    ensures ItPriority(AddEffect(s, rd, id, route), rd', j) == ItPriority(s, rd', j)
    ensures !IrqInRdist(j) ==> AddEffect(s, rd, id, route).irouter[j] == s.irouter[j]
  {
    AddShape(s, rd, id, route, rd', j);
    if SameBank(rd, id, rd', j) {
      AddSameBank(s, rd, id, route, rd', r, j);
    } else {
      AddOtherBank(s, rd, id, route, rd', j);
    }
  }

  lemma AddShape(s: GicState, rd: nat, id: nat, route: bv64, rd': nat, j: nat)
    requires Reachable(s, rd, id) && Reachable(s, rd', j)
    ensures Reachable(AddEffect(s, rd, id, route), rd', j)
  {
  }

  lemma AddOtherBank(s: GicState, rd: nat, id: nat, route: bv64, rd': nat, j: nat)
    requires Reachable(s, rd, id) && Reachable(s, rd', j) && !SameBank(rd, id, rd', j)
    requires Reachable(AddEffect(s, rd, id, route), rd', j)
    ensures BankOf(AddEffect(s, rd, id, route), rd', j) == BankOf(s, rd', j)
    ensures !IrqInRdist(j) ==> AddEffect(s, rd, id, route).irouter[j] == s.irouter[j]
  {
  }

  lemma AddSameBank(s: GicState, rd: nat, id: nat, route: bv64, rd': nat, r: BitReg, j: nat)
    requires Reachable(s, rd, id) && Reachable(s, rd', j) && SameBank(rd, id, rd', j) && j != id
    requires Reachable(AddEffect(s, rd, id, route), rd', j)
    ensures ItBit(AddEffect(s, rd, id, route), rd', r, j) == ItBit(s, rd', r, j)
    ensures ItPriority(AddEffect(s, rd, id, route), rd', j) == ItPriority(s, rd', j)
    ensures !IrqInRdist(j) ==> AddEffect(s, rd, id, route).irouter[j] == s.irouter[j]
  {
    var b := BankOf(s, rd, id);
    var b1 := ClrIdBit(b, Group, id);
    var b2 := SetIdBit(b1, GroupMod, id);
    assert BankOf(AddEffect(s, rd, id, route), rd', j) == SetPriority(b2, id, GIC_HIGHEST_SEC_PRIORITY);
    IdBitFrame(b, Group, id, r, j);
    IdBitFrame(b1, GroupMod, id, r, j);
    SetPriorityOther(b2, id, GIC_HIGHEST_SEC_PRIORITY, j);
  }

  /**
   * gic_op_add disables the interrupt before configuring it, so it is left
   * disabled, Secure Group 1, at the highest secure priority.
   */
  lemma OpAddLeavesDisabled(s: GicState, rd: nat, id: nat, route: bv64)
    requires Reachable(s, rd, id)
    ensures var s' := AddEffect(SetItBit(s, rd, Enable, id, false), rd, id, route);
            Reachable(s', rd, id) && !ItBit(s', rd, Enable, id)
            && ItGroup(s', rd, id) == Group1S && ItPriority(s', rd, id) == GIC_HIGHEST_SEC_PRIORITY
  {
    var s1 := SetItBit(s, rd, Enable, id, false);
    SetItBitValue(s, rd, Enable, id, false);
    AddConfiguresSecure(s1, rd, id, route);
  }

  /** AddBank applied to its own result changes nothing: every bit and byte it writes already holds its value. */
  lemma AddBankIdempotent(b: Bank, id: nat)
    requires id / 32 < |b.group| && id / 32 < |b.groupMod| && id / 4 < |b.priority|
    ensures AddBank(AddBank(b, id), id) == AddBank(b, id)
  {
    var b' := AddBank(b, id);
    AddBankSecure(b, id);
    IdBitNoop(b', Group, id);
    IdBitNoop(b', GroupMod, id);
    SetPriorityNoop(b', id, GIC_HIGHEST_SEC_PRIORITY);
  }

  /**
   * Adding an interrupt a second time leaves the state the first add left,
   * and repeats the first add's register writes with the same values, except
   * that an SPI add no longer writes GICD_CTLR.
   */
  lemma AddIdempotent(s: GicState, rd: nat, gicd: nat, id: nat, route: bv64)
    requires Reachable(s, rd, id)
    ensures Reachable(AddEffect(s, rd, id, route), rd, id)
    ensures AddEffect(AddEffect(s, rd, id, route), rd, id, route) == AddEffect(s, rd, id, route)
    ensures IrqInRdist(id) ==> AddWrites(AddEffect(s, rd, id, route), rd, gicd, id, route) == AddWrites(s, rd, gicd, id, route)
    ensures !IrqInRdist(id) ==> AddWrites(AddEffect(s, rd, id, route), rd, gicd, id, route) == AddWrites(s, rd, gicd, id, route)[..4]
  {
    var s1 := AddEffect(s, rd, id, route);
    AddEffectBank(s, rd, id, route);
    AddBankIdempotent(BankOf(s, rd, id), id);
    if IrqInRdist(id) {
      assert s1.rdist[rd := s1.rdist[rd]] == s1.rdist;
    } else {
      assert s1.irouter[id := route] == s1.irouter;
      CtlrAlreadySet(s1.gicdCtlr);
    }
  }

  /**
   * gic_it_add never clears Secure Group 1 forwarding in GICD_CTLR, and an
   * SGI or PPI add does not touch GICD_CTLR at all.
   */
  lemma AddKeepsCtlr(s: GicState, rd: nat, id: nat, route: bv64)
    requires Reachable(s, rd, id)
    ensures IrqInRdist(id) ==> AddEffect(s, rd, id, route).gicdCtlr == s.gicdCtlr
    ensures s.gicdCtlr & CTLR_ENABLE_G1S_BIT != 0 ==> AddEffect(s, rd, id, route).gicdCtlr & CTLR_ENABLE_G1S_BIT != 0
  {
    if s.gicdCtlr & CTLR_ENABLE_G1S_BIT != 0 && !IrqInRdist(id) {
      CtlrAlreadySet(s.gicdCtlr);
    }
  }

  /** The state gic_op_add leaves: the interrupt disabled, then added. */
  function OpAddEffect(s: GicState, rd: nat, id: nat, route: bv64): (s': GicState)
    requires Reachable(s, rd, id)
    ensures Reachable(s', rd, id)
  {
    SetItBitShape(s, rd, Enable, id, false, rd, id);
    AddShape(SetItBit(s, rd, Enable, id, false), rd, id, route, rd, id);
    AddEffect(SetItBit(s, rd, Enable, id, false), rd, id, route)
  }

  /** Calling gic_op_add twice leaves the state the first call left. */
  lemma OpAddIdempotent(s: GicState, rd: nat, id: nat, route: bv64)
    requires Reachable(s, rd, id)
    ensures OpAddEffect(OpAddEffect(s, rd, id, route), rd, id, route) == OpAddEffect(s, rd, id, route)
  {
    var s1 := SetItBit(s, rd, Enable, id, false);
    SetItBitShape(s, rd, Enable, id, false, rd, id);
    var s2 := AddEffect(s1, rd, id, route);
    OpAddLeavesDisabled(s, rd, id, route);
    ClrItBitNoop(s2, rd, Enable, id);
    AddIdempotent(s1, rd, 0, id, route);
  }

  /** Clearing a bit of `id` that is already clear leaves the state as it was. */
  lemma ClrItBitNoop(s: GicState, rd: nat, r: BitReg, id: nat)
    requires Reachable(s, rd, id) && !ItBit(s, rd, r, id)
    ensures SetItBit(s, rd, r, id, false) == s
  {
    var b := BankOf(s, rd, id);
    IdBitNoop(b, r, id);
    if IrqInRdist(id) {
      assert s.rdist[rd := b] == s.rdist;
    }
  }

  /** Testing the word that holds `id` against `1 << (id % 32)` reads the bit of `id`. */
  lemma ItBitMask(s: GicState, rd: nat, r: BitReg, id: nat, w: bv32)
    requires Reachable(s, rd, id)
    requires w == Words(BankOf(s, rd, id), r)[id / 32]
    ensures (w & OneHot(BitNum(id)) != 0) == ItBit(s, rd, r, id)
  {
    MaskTest(w, BitNum(id));
  }

  /** The bank gic_it_add leaves: IGROUPR and IGRPMODR words are those of the two bit writes. */
  function AddBank(b: Bank, id: nat): (b': Bank)
    requires id / 32 < |b.group| && id / 32 < |b.groupMod| && id / 4 < |b.priority|
  {
    SetPriority(SetIdBit(ClrIdBit(b, Group, id), GroupMod, id), id, GIC_HIGHEST_SEC_PRIORITY)
  }

  lemma AddBankWords(b: Bank, id: nat)
    requires id / 32 < |b.group| && id / 32 < |b.groupMod| && id / 4 < |b.priority|
    ensures Words(AddBank(b, id), Group) == Words(ClrIdBit(b, Group, id), Group)
    ensures Words(AddBank(b, id), GroupMod) == Words(SetIdBit(ClrIdBit(b, Group, id), GroupMod, id), GroupMod)
  {
  }

  /**
   * The accesses gic_it_add makes, in order: the IGROUPR and IGRPMODR words
   * with the bit of `id` cleared and set, the priority byte, and for an SPI
   * its IROUTER and, when Secure Group 1 was off, GICD_CTLR and an RWP wait.
   */
  ghost function AddWrites(s: GicState, rd: nat, gicd: nat, id: nat, route: bv64): seq<Event>
    requires Reachable(s, rd, id)
  {
    var b' := AddBank(BankOf(s, rd, id), id);
    var grp := Words(b', Group)[id / 32];
    var mod := Words(b', GroupMod)[id / 32];
    if IrqInRdist(id) then
      [Wr32(rd + GICR_IGROUPR0, grp)] + [Wr32(rd + GICR_IGRPMODR0, mod)]
      + [Wr8(rd + GICR_IPRIORITYR + id, GIC_HIGHEST_SEC_PRIORITY)]
    else
      [Wr32(gicd + DistWordOff(GICD_IGROUPR, id), grp)] + [Wr32(gicd + DistWordOff(GICD_IGRPMODR, id), mod)]
      + [Wr8(gicd + GICD_IPRIORITYR + id, GIC_HIGHEST_SEC_PRIORITY)] + [Wr64(gicd + GICD_IROUTER + 8 * id, route)]
      + (if s.gicdCtlr & CTLR_ENABLE_G1S_BIT == 0
         then [Wr32(gicd + GICD_CTLR, s.gicdCtlr | CTLR_ENABLE_G1S_BIT), RwpWait(gicd)] else [])
  }

  /** gic_it_add for an SGI or PPI adds up to AddEffect and AddWrites. */
  lemma AddRdistSteps(s0: GicState, s1: GicState, t0: seq<Event>, t1: seq<Event>,
                      rd: nat, gicd: nat, id: nat, route: bv64)
    requires Reachable(s0, rd, id) && IrqInRdist(id)
    requires s1 == s0.(rdist := s0.rdist[rd := AddBank(s0.rdist[rd], id)])
    requires t1 == t0 + [Wr32(rd + GICR_IGROUPR0, Words(s1.rdist[rd], Group)[0])]
                      + [Wr32(rd + GICR_IGRPMODR0, Words(s1.rdist[rd], GroupMod)[0])]
                      + [Wr8(rd + GICR_IPRIORITYR + id, GIC_HIGHEST_SEC_PRIORITY)]
    ensures s1 == AddEffect(s0, rd, id, route)
    ensures t1 == t0 + AddWrites(s0, rd, gicd, id, route)
  {
  }

  /** The two steps of gic_it_add for an SPI add up to AddEffect and AddWrites. */
  lemma AddSpiSteps(s0: GicState, s1: GicState, s2: GicState, t0: seq<Event>, t1: seq<Event>, t2: seq<Event>,
                    rd: nat, gicd: nat, id: nat, route: bv64)
    requires Reachable(s0, rd, id) && !IrqInRdist(id)
    requires s1 == s0.(dist := AddBank(s0.dist, id), irouter := s0.irouter[id := route])
    requires t1 == t0 + [Wr32(gicd + DistWordOff(GICD_IGROUPR, id), Words(s1.dist, Group)[id / 32])]
                      + [Wr32(gicd + DistWordOff(GICD_IGRPMODR, id), Words(s1.dist, GroupMod)[id / 32])]
                      + [Wr8(gicd + GICD_IPRIORITYR + id, GIC_HIGHEST_SEC_PRIORITY)]
                      + [Wr64(gicd + GICD_IROUTER + 8 * id, route)]
    requires s2 == s1.(gicdCtlr := s1.gicdCtlr | CTLR_ENABLE_G1S_BIT)
    requires t2 == t1 + (if s1.gicdCtlr & CTLR_ENABLE_G1S_BIT == 0
                         then [Wr32(gicd + GICD_CTLR, s1.gicdCtlr | CTLR_ENABLE_G1S_BIT), RwpWait(gicd)] else [])
    ensures s2 == AddEffect(s0, rd, id, route)
    ensures t2 == t0 + AddWrites(s0, rd, gicd, id, route)
  {
  }

  /**
   * MK_SGIR_VAL(0, 0, 0, id, cpuMask): SGI `id` to the cores of `cpuMask` in
   * affinity 0.0.0.  The value fits in 32 bits, so the 32-bit accessor that
   * writes it passes it on unchanged.
   */
  function SgiValue(id: nat, cpuMask: nat): (v: bv64)
    requires id < NUM_SGI && cpuMask < 0x1_0000
    ensures v & 0xFFFF_FFFF == v
    ensures SgirIntid(v) == id as bv64 && SgirTargetList(v) == cpuMask as bv64
    ensures SgirAff1(v) == 0 && SgirAff2(v) == 0 && SgirAff3(v) == 0 && SgirIrm(v) == 0
  {
    var i: bv64 := id as bv64;
    var t: bv64 := cpuMask as bv64;
    assert i < 0x10 && t < 0x1_0000;
    SgirFitsAccessor(i, t);
    SgirFields(0, 0, 0, i, t);
    MkSgirVal(0, 0, 0, i, t)
  }

  /** The system register gic_it_raise_sgi writes for SGI `id`. */
  function SgiRegFor(id: nat): (r: SgiReg)
    ensures r == ICC_ASGI1R_EL1 <==> id < MIN_SEC_SGI_ID
  {
    if id < MIN_SEC_SGI_ID then ICC_ASGI1R_EL1 else ICC_SGI1R_EL1
  }

  /**
   * The accesses gic_it_set_affinity makes: with the interrupt enabled, a
   * W1C to ICENABLER, an RWP wait, the IROUTER write and a W1S to ISENABLER;
   * otherwise the IROUTER write and an RWP wait.
   */
  function RouteWrites(gicd: nat, id: nat, v: bv64, enabled: bool): seq<Event>
  {
    if enabled then
      [Wr32(gicd + DistWordOff(GICD_ICENABLER, id), OneHot(BitNum(id)))] + [RwpWait(gicd)]
      + [Wr64(gicd + GICD_IROUTER + 8 * id, v)] + [Wr32(gicd + DistWordOff(GICD_ISENABLER, id), OneHot(BitNum(id)))]
    else
      [Wr64(gicd + GICD_IROUTER + 8 * id, v)] + [RwpWait(gicd)]
  }

  /** The accesses of gic_it_handle for a pending interrupt: acknowledge, handler, end of interrupt, barrier. */
  function HandleEvents(iar: bv32): seq<Event>
  {
    var id := iar & IAR1_EL1_INTID_MASK;
    [Ack(iar), Handler(id), Eoi(id), Isb]
  }

  /** Or-ing in a bit that is already set changes nothing. */
  lemma CtlrAlreadySet(v: bv32)
    requires v & CTLR_ENABLE_G1S_BIT != 0
    ensures v | CTLR_ENABLE_G1S_BIT == v
  {
  }

  /** Where the enable, pending and other bit registers of `id` are written. */
  function BitRegAddr(rd: nat, gicd: nat, off: nat, id: nat): nat
  {
    if IrqInRdist(id) then rd + GICR_SGIBASE_OFFSET + off else gicd + DistWordOff(off, id)
  }

  /** The frame whose RWP bit is waited on after a change to `id`. */
  function FrameOf(rd: nat, gicd: nat, id: nat): nat
  {
    if IrqInRdist(id) then rd else gicd
  }

  // ===== Redistributor discovery =====

  /** GICR_TYPER.Processor_Number. */
  function ProcNum(typer: bv64): (p: nat)
    ensures p < 0x1_0000
  {
    ((typer >> TYPER_PROC_NUM_SHIFT) & TYPER_PROC_NUM_MASK) as bv16 as nat
  }

  /** GICR_TYPER.Last: this frame is the last Redistributor. */
  predicate IsLast(typer: bv64)
  {
    typer & TYPER_LAST_BIT != 0
  }

  predicate HasLast(typers: seq<bv64>)
  {
    exists k :: 0 <= k < |typers| && IsLast(typers[k])
  }

  /** The index of the first frame whose GICR_TYPER has Last set. */
  function LastIndex(typers: seq<bv64>): (k: nat)
    requires HasLast(typers)
    ensures k < |typers| && IsLast(typers[k])
    ensures forall i :: 0 <= i < k ==> !IsLast(typers[i])
  {
    if IsLast(typers[0]) then 0
    else
      assert HasLast(typers[1..]) by {
        var k :| 0 <= k < |typers| && IsLast(typers[k]);
        assert IsLast(typers[1..][k - 1]);
      }
      1 + LastIndex(typers[1..])
  }

  /**
   * The `gicr_base` table after the first `n` frames have been visited:
   * each frame's RD_base is stored at the index its Processor_Number gives.
   */
  function Discover(t: seq<nat>, base: nat, typers: seq<bv64>, n: nat): (t': seq<nat>)
    requires n <= |typers|
    requires forall k :: 0 <= k < n ==> ProcNum(typers[k]) < |t|
    ensures |t'| == |t|
  {
    if n == 0 then t
    else Discover(t, base, typers, n - 1)[ProcNum(typers[n - 1]) := base + (n - 1) * GICR_FRAME_STRIDE]
  }

  /** The last frame visited with a given Processor_Number is the one the table keeps. */
  lemma {:induction false} DiscoverFinds(t: seq<nat>, base: nat, typers: seq<bv64>, n: nat, k: nat)
    requires n <= |typers|
    requires forall i :: 0 <= i < n ==> ProcNum(typers[i]) < |t|
    requires k < n
    requires forall i :: k < i < n ==> ProcNum(typers[i]) != ProcNum(typers[k])
    ensures Discover(t, base, typers, n)[ProcNum(typers[k])] == base + k * GICR_FRAME_STRIDE
  {
    if k < n - 1 {
      DiscoverFinds(t, base, typers, n - 1, k);
      assert ProcNum(typers[n - 1]) != ProcNum(typers[k]);
    }
  }

  /** An entry no visited frame names keeps its old value. */
  lemma {:induction false} DiscoverKeeps(t: seq<nat>, base: nat, typers: seq<bv64>, n: nat, p: nat)
    requires n <= |typers|
    requires forall i :: 0 <= i < n ==> ProcNum(typers[i]) < |t|
    requires p < |t|
    requires forall i :: 0 <= i < n ==> ProcNum(typers[i]) != p
    ensures Discover(t, base, typers, n)[p] == t[p]
  {
    if n > 0 {
      DiscoverKeeps(t, base, typers, n - 1, p);
    }
  }

  // ===== The driver =====

  /**
   * struct gic_data: the Distributor base, the RD_base of each core's
   * Redistributor, the number of interrupt lines, and whether the chip
   * operations have been installed.
   */
  class GicDriver {
    var gicdBase: nat
    const gicrBase: array<nat>
    var maxIt: nat
    var opsInstalled: bool
    /** gicd_irouter_val_from_mpidr(0, 0): the IROUTER value that targets the primary core. */
    const primaryRoute: bv64

    constructor (nbCore: nat, primaryRoute: bv64)
      ensures gicrBase.Length == nbCore && fresh(gicrBase)
      ensures forall c :: 0 <= c < nbCore ==> gicrBase[c] == 0
      ensures gicdBase == 0 && maxIt == 0 && !opsInstalled
      ensures this.primaryRoute == primaryRoute
    {
      gicdBase, maxIt, opsInstalled := 0, 0, false;
      gicrBase := new nat[nbCore](_ => 0);
      this.primaryRoute := primaryRoute;
    }

    /** The driver has been initialised against `hw` and `core` is a core it knows. */
    ghost predicate Ready(hw: GicHardware, core: nat)
      reads this, gicrBase, hw
    {
      hw.Valid() && opsInstalled && gicdBase == hw.gicdBase && maxIt <= MAX_INTIDS && core < gicrBase.Length
    }

    /** RD_base of the Redistributor of `core`. */
    function Rd(core: nat): nat
      requires core < gicrBase.Length
      reads this, gicrBase
    {
      gicrBase[core]
    }

    /** Interrupt `id` is one the driver can configure from `core`. */
    ghost predicate CanReach(hw: GicHardware, core: nat, id: nat)
      reads this, gicrBase, hw
    {
      Ready(hw, core) && Reachable(hw.State(), Rd(core), id)
    }

    /** gic_it_is_enabled: the enable bit of `id`, read from ISENABLER. */
    function ItIsEnabled(hw: GicHardware, core: nat, id: nat): (r: bool)
      requires CanReach(hw, core, id)
      reads this, gicrBase, hw
      ensures r == ItBit(hw.State(), Rd(core), Enable, id)
    {
      var w := if IrqInRdist(id) then RdistWord(hw, Rd(core), Enable) else GicdReadIsenabler(hw, gicdBase, id);
      ItBitMask(hw.State(), Rd(core), Enable, id, w);
      w & OneHot(BitNum(id)) != 0
    }

    /** gic_it_get_group: the group (IGROUPR, IGRPMODR) assign to `id`. */
    function ItGetGroup(hw: GicHardware, core: nat, id: nat): (g: IntrGroup)
      requires CanReach(hw, core, id)
      reads this, gicrBase, hw
      ensures g == ItGroup(hw.State(), Rd(core), id)
    {
      if IrqInRdist(id) then
        GroupOf(GicrGetIgroupr0(hw, Rd(core), id) == 1, GicrGetIgrpmodr0(hw, Rd(core), id) == 1)
      else
        var status := (GicdReadIgroupr(hw, gicdBase, id) >> BitNum(id)) & 1;
        var modifier := (GicdReadIgrpmodr(hw, gicdBase, id) >> BitNum(id)) & 1;
        GroupOf(status == 1, modifier == 1)
    }

    /** gic_it_enable: a write-1-to-set of the bit of `id` in ISENABLER. */
    method ItEnable(hw: GicHardware, core: nat, id: nat)
      requires CanReach(hw, core, id)
      modifies hw
      ensures hw.Valid()
      ensures hw.State() == SetItBit(old(hw.State()), Rd(core), Enable, id, true)
      ensures hw.trace == old(hw.trace) + [Wr32(BitRegAddr(Rd(core), gicdBase, GICD_ISENABLER, id), OneHot(BitNum(id)))]
    {
      if IrqInRdist(id) {
        GicrSetIsenabler0(hw, gicrBase[core], id);
      } else {
        GicdSetIsenabler(hw, gicdBase, id);
      }
    }

    /** gic_it_disable: a write-1-to-clear in ICENABLER, then a wait for the write to take effect. */
    method ItDisable(hw: GicHardware, core: nat, id: nat)
      requires CanReach(hw, core, id)
      modifies hw
      ensures hw.Valid()
      ensures hw.State() == SetItBit(old(hw.State()), Rd(core), Enable, id, false)
      ensures hw.trace == old(hw.trace) + [Wr32(BitRegAddr(Rd(core), gicdBase, GICD_ICENABLER, id), OneHot(BitNum(id))),
                                           RwpWait(FrameOf(Rd(core), gicdBase, id))]
    {
      if IrqInRdist(id) {
        GicrSetIcenabler0(hw, gicrBase[core], id);
        hw.WaitForPendingWrite(gicrBase[core]);
      } else {
        GicdSetIcenabler(hw, gicdBase, id);
        hw.WaitForPendingWrite(gicdBase);
      }
    }

    /** gic_it_set_pending: a write-1-to-set in ISPENDR. */
    method ItSetPending(hw: GicHardware, core: nat, id: nat)
      requires CanReach(hw, core, id)
      modifies hw
      ensures hw.Valid()
      ensures hw.State() == SetItBit(old(hw.State()), Rd(core), Pending, id, true)
      ensures hw.trace == old(hw.trace) + [Wr32(BitRegAddr(Rd(core), gicdBase, GICD_ISPENDR, id), OneHot(BitNum(id)))]
    {
      if IrqInRdist(id) {
        GicrSetIspendr0(hw, gicrBase[core], id);
      } else {
        GicdSetIspendr(hw, gicdBase, id);
      }
    }

    /** gic_it_clr_pending: a write-1-to-clear in ICPENDR. */
    method ItClrPending(hw: GicHardware, core: nat, id: nat)
      requires CanReach(hw, core, id)
      modifies hw
      ensures hw.Valid()
      ensures hw.State() == SetItBit(old(hw.State()), Rd(core), Pending, id, false)
      ensures hw.trace == old(hw.trace) + [Wr32(BitRegAddr(Rd(core), gicdBase, GICD_ICPENDR, id), OneHot(BitNum(id)))]
    {
      if IrqInRdist(id) {
        GicrSetIcpendr0(hw, gicrBase[core], id);
      } else {
        GicdSetIcpendr(hw, gicdBase, id);
      }
    }
  
    /**
     * gic_it_add: makes `id` a Secure Group 1 interrupt at the highest secure
     * priority; an SPI is also routed to the primary core, and Secure Group 1
     * forwarding is switched on in GICD_CTLR if it was off.
     */
    method ItAdd(hw: GicHardware, core: nat, id: nat)
      requires CanReach(hw, core, id)
      modifies hw
      ensures hw.Valid()
      ensures hw.State() == AddEffect(old(hw.State()), Rd(core), id, primaryRoute)
      ensures hw.trace == old(hw.trace) + AddWrites(old(hw.State()), Rd(core), gicdBase, id, primaryRoute)
    {
      if IrqInRdist(id) {
        AddInRdist(hw, core, id);
      } else {
        AddInDist(hw, core, id);
      }
    }

    /** The SGI/PPI half of gic_it_add. */
    method AddInRdist(hw: GicHardware, core: nat, id: nat)
      requires CanReach(hw, core, id) && IrqInRdist(id)
      modifies hw
      ensures hw.Valid()
      ensures hw.State() == AddEffect(old(hw.State()), Rd(core), id, primaryRoute)
      ensures hw.trace == old(hw.trace) + AddWrites(old(hw.State()), Rd(core), gicdBase, id, primaryRoute)
    {
      var rd: nat := gicrBase[core];
      ghost var s0, t0 := hw.State(), hw.trace;
      ConfigurePerCore(hw, rd, id);
      AddRdistSteps(s0, hw.State(), t0, hw.trace, rd, gicdBase, id, primaryRoute);
    }

    /** IGROUPR0, IGRPMODR0 and IPRIORITYR of SGI or PPI `id` in frame `rd`, as gic_it_add writes them. */
    method ConfigurePerCore(hw: GicHardware, rd: nat, id: nat)
      requires hw.Valid() && rd in hw.rdist && id < MIN_SPI_ID
      modifies hw
      ensures hw.Valid()
      ensures rd in hw.rdist
      ensures hw.State() == old(hw.State().(rdist := hw.rdist[rd := AddBank(hw.rdist[rd], id)]))
      ensures hw.trace == old(hw.trace) + [Wr32(rd + GICR_IGROUPR0, Words(hw.rdist[rd], Group)[0])]
                          + [Wr32(rd + GICR_IGRPMODR0, Words(hw.rdist[rd], GroupMod)[0])]
                          + [Wr8(rd + GICR_IPRIORITYR + id, GIC_HIGHEST_SEC_PRIORITY)]
    {
      assert id % 32 == id;
      ghost var b := hw.rdist[rd];
      ghost var b1 := ClrIdBit(b, Group, id);
      ghost var b2 := SetIdBit(b1, GroupMod, id);
      AddBankWords(b, id);
      GicrClrIgroupr0(hw, rd, id);
      assert hw.rdist[rd] == b1;
      GicrSetIgrpmodr0(hw, rd, id);
      assert hw.rdist[rd] == b2;
      GicrSetIpriorityr(hw, rd, id, GIC_HIGHEST_SEC_PRIORITY);
    }

    /** The SPI half of gic_it_add. */
    method AddInDist(hw: GicHardware, core: nat, id: nat)
      requires hw.Valid() && gicdBase == hw.gicdBase && core < gicrBase.Length && MIN_SPI_ID <= id < MAX_INTIDS
      modifies hw
      ensures hw.Valid()
      ensures hw.State() == AddEffect(old(hw.State()), Rd(core), id, primaryRoute)
      ensures hw.trace == old(hw.trace) + AddWrites(old(hw.State()), Rd(core), gicdBase, id, primaryRoute)
    {
      ghost var s0, t0 := hw.State(), hw.trace;
      ConfigureSpi(hw, id);
      ghost var s1, t1 := hw.State(), hw.trace;
      EnableSecureGroup1(hw);
      AddSpiSteps(s0, s1, hw.State(), t0, t1, hw.trace, Rd(core), gicdBase, id, primaryRoute);
    }

    /** IGROUPR, IGRPMODR, IPRIORITYR and IROUTER of SPI `id`, as gic_it_add writes them. */
    method ConfigureSpi(hw: GicHardware, id: nat)
      requires hw.Valid() && gicdBase == hw.gicdBase && MIN_SPI_ID <= id < MAX_INTIDS
      modifies hw
      ensures hw.Valid()
      ensures hw.State() == old(hw.State().(dist := AddBank(hw.dist, id), irouter := hw.irouter[id := primaryRoute]))
      ensures hw.trace == old(hw.trace)
                          + [Wr32(gicdBase + DistWordOff(GICD_IGROUPR, id), Words(hw.dist, Group)[id / 32])]
                          + [Wr32(gicdBase + DistWordOff(GICD_IGRPMODR, id), Words(hw.dist, GroupMod)[id / 32])]
                          + [Wr8(gicdBase + GICD_IPRIORITYR + id, GIC_HIGHEST_SEC_PRIORITY)]
                          + [Wr64(gicdBase + GICD_IROUTER + 8 * id, primaryRoute)]
    {
      ghost var b := hw.dist;
      ghost var b1 := ClrIdBit(b, Group, id);
      ghost var b2 := SetIdBit(b1, GroupMod, id);
      AddBankWords(b, id);
      GicdClrIgroupr(hw, gicdBase, id);
      assert hw.dist == b1;
      GicdSetIgrpmodr(hw, gicdBase, id);
      assert hw.dist == b2;
      GicdSetIpriorityr(hw, gicdBase, id, GIC_HIGHEST_SEC_PRIORITY);
      hw.WriteIrouter(gicdBase, id, primaryRoute);
    }

    /** Turns on Secure Group 1 forwarding in GICD_CTLR unless it is on already. */
    method EnableSecureGroup1(hw: GicHardware)
      requires hw.Valid() && gicdBase == hw.gicdBase
      modifies hw
      ensures hw.Valid()
      ensures hw.State() == old(hw.State().(gicdCtlr := hw.gicdCtlr | CTLR_ENABLE_G1S_BIT))
      ensures hw.trace == old(hw.trace)
                          + (if old(hw.gicdCtlr) & CTLR_ENABLE_G1S_BIT == 0
                             then [Wr32(gicdBase + GICD_CTLR, old(hw.gicdCtlr) | CTLR_ENABLE_G1S_BIT), RwpWait(gicdBase)]
                             else [])
    {
      if GicdReadCtlr(hw, gicdBase) & CTLR_ENABLE_G1S_BIT == 0 {
        GicdSetCtlr(hw, gicdBase, CTLR_ENABLE_G1S_BIT);
      } else {
        CtlrAlreadySet(hw.gicdCtlr);
      }
    }

    /**
     * gic_it_raise_sgi: SGIs 0..7 are raised as Non-secure Group 1 through
     * ICC_ASGI1R_EL1, SGIs 8..15 as Secure Group 1 through ICC_SGI1R_EL1, to
     * the cores of `cpuMask` in affinity 0.0.0.
     */
    method ItRaiseSgi(hw: GicHardware, id: nat, cpuMask: nat)
      requires id < NUM_SGI && cpuMask < 0x1_0000
      modifies hw
      ensures hw.State() == old(hw.State())
      ensures hw.trace == old(hw.trace) + [SgiWrite(SgiRegFor(id), SgiValue(id, cpuMask))]
    {
      var v := SgiValue(id, cpuMask);
      if id < MIN_SEC_SGI_ID {
        hw.WriteSgiReg(ICC_ASGI1R_EL1, v);
      } else {
        hw.WriteSgiReg(ICC_SGI1R_EL1, v);
      }
    }

    /**
     * gic_it_set_affinity: routes SPI `id` to the cores of `cpuMask`.  An
     * enabled interrupt is disabled around the IROUTER write and enabled
     * again; otherwise the driver only waits for the Distributor.
     */
    method ItSetAffinity(hw: GicHardware, core: nat, id: nat, cpuMask: nat)
      requires Ready(hw, core)
      requires MIN_SPI_ID <= id < MAX_INTIDS && 0 < cpuMask < 0x1_0000
      modifies hw
      ensures hw.Valid()
      ensures hw.State() == old(hw.State().(irouter := hw.irouter[id := AffinityVal(cpuMask)]))
      ensures hw.trace == old(hw.trace) + RouteWrites(gicdBase, id, AffinityVal(cpuMask), old(IdBit(hw.dist, Enable, id)))
    {
      var enabled := ItIsEnabled(hw, core, id);
      var v := AffinityVal(cpuMask);
      if enabled {
        RouteEnabled(hw, id, v);
      } else {
        hw.WriteIrouter(gicdBase, id, v);
        hw.WaitForPendingWrite(gicdBase);
      }
    }

    /** The enabled case of gic_it_set_affinity: disable, wait, route, enable. */
    method RouteEnabled(hw: GicHardware, id: nat, v: bv64)
      requires hw.Valid() && gicdBase == hw.gicdBase && id < MAX_INTIDS && IdBit(hw.dist, Enable, id)
      modifies hw
      ensures hw.Valid()
      ensures hw.State() == old(hw.State().(irouter := hw.irouter[id := v]))
      ensures hw.trace == old(hw.trace) + RouteWrites(gicdBase, id, v, true)
    {
      ghost var b := hw.dist;
      ClrThenSetRestores(b, Enable, id);
      GicdSetIcenabler(hw, gicdBase, id);
      hw.WaitForPendingWrite(gicdBase);
      hw.WriteIrouter(gicdBase, id, v);
      GicdSetIsenabler(hw, gicdBase, id);
    }
  
    // ----- The chip operations: each panics on an ID beyond the lines the Distributor has -----

    /** gic_op_add: disables `it`, then configures it as gic_it_add does. */
    method OpAdd(hw: GicHardware, core: nat, it: nat) returns (panicked: bool)
      requires Ready(hw, core) && (it < maxIt && IrqInRdist(it) ==> Rd(core) in hw.rdist)
      modifies hw
      ensures hw.Valid()
      ensures panicked <==> it >= maxIt
      ensures panicked ==> hw.State() == old(hw.State()) && hw.trace == old(hw.trace)
      ensures !panicked ==> hw.State() == OpAddEffect(old(hw.State()), Rd(core), it, primaryRoute)
      ensures !panicked ==>
                hw.trace == old(hw.trace) + [Wr32(BitRegAddr(Rd(core), gicdBase, GICD_ICENABLER, it), OneHot(BitNum(it))),
                                             RwpWait(FrameOf(Rd(core), gicdBase, it))]
                            + AddWrites(SetItBit(old(hw.State()), Rd(core), Enable, it, false), Rd(core), gicdBase, it, primaryRoute)
    {
      if it >= maxIt {
        return true;
      }
      ghost var s0 := hw.State();
      ItDisable(hw, core, it);
      SetItBitShape(s0, Rd(core), Enable, it, false, Rd(core), it);
      ItAdd(hw, core, it);
      return false;
    }

    /** gic_op_enable. */
    method OpEnable(hw: GicHardware, core: nat, it: nat) returns (panicked: bool)
      requires Ready(hw, core) && (it < maxIt && IrqInRdist(it) ==> Rd(core) in hw.rdist)
      modifies hw
      ensures hw.Valid()
      ensures panicked <==> it >= maxIt
      ensures panicked ==> hw.State() == old(hw.State()) && hw.trace == old(hw.trace)
      ensures !panicked ==> hw.State() == SetItBit(old(hw.State()), Rd(core), Enable, it, true)
      ensures !panicked ==>
                hw.trace == old(hw.trace) + [Wr32(BitRegAddr(Rd(core), gicdBase, GICD_ISENABLER, it), OneHot(BitNum(it)))]
    {
      if it >= maxIt {
        return true;
      }
      ItEnable(hw, core, it);
      return false;
    }

    /** gic_op_disable. */
    method OpDisable(hw: GicHardware, core: nat, it: nat) returns (panicked: bool)
      requires Ready(hw, core) && (it < maxIt && IrqInRdist(it) ==> Rd(core) in hw.rdist)
      modifies hw
      ensures hw.Valid()
      ensures panicked <==> it >= maxIt
      ensures panicked ==> hw.State() == old(hw.State()) && hw.trace == old(hw.trace)
      ensures !panicked ==> hw.State() == SetItBit(old(hw.State()), Rd(core), Enable, it, false)
      ensures !panicked ==>
                hw.trace == old(hw.trace) + [Wr32(BitRegAddr(Rd(core), gicdBase, GICD_ICENABLER, it), OneHot(BitNum(it))),
                                             RwpWait(FrameOf(Rd(core), gicdBase, it))]
    {
      if it >= maxIt {
        return true;
      }
      ItDisable(hw, core, it);
      return false;
    }

    /** gic_op_raise_pi: makes `it` pending. */
    method OpRaisePi(hw: GicHardware, core: nat, it: nat) returns (panicked: bool)
      requires Ready(hw, core) && (it < maxIt && IrqInRdist(it) ==> Rd(core) in hw.rdist)
      modifies hw
      ensures hw.Valid()
      ensures panicked <==> it >= maxIt
      ensures panicked ==> hw.State() == old(hw.State()) && hw.trace == old(hw.trace)
      ensures !panicked ==> hw.State() == SetItBit(old(hw.State()), Rd(core), Pending, it, true)
      ensures !panicked ==>
                hw.trace == old(hw.trace) + [Wr32(BitRegAddr(Rd(core), gicdBase, GICD_ISPENDR, it), OneHot(BitNum(it)))]
    {
      if it >= maxIt {
        return true;
      }
      ItSetPending(hw, core, it);
      return false;
    }

    /** gic_op_raise_sgi: the CPU mask is eight bits wide here. */
    method OpRaiseSgi(hw: GicHardware, core: nat, it: nat, cpuMask: nat) returns (panicked: bool)
      requires Ready(hw, core) && cpuMask < 0x100 && (it < maxIt ==> it < NUM_SGI)
      modifies hw
      ensures hw.Valid()
      ensures panicked <==> it >= maxIt
      ensures hw.State() == old(hw.State())
      ensures panicked ==> hw.trace == old(hw.trace)
      ensures !panicked ==> hw.trace == old(hw.trace) + [SgiWrite(SgiRegFor(it), SgiValue(it, cpuMask))]
    {
      if it >= maxIt {
        return true;
      }
      ItRaiseSgi(hw, it, cpuMask);
      return false;
    }

    /** gic_op_set_affinity: the CPU mask is eight bits wide here. */
    method OpSetAffinity(hw: GicHardware, core: nat, it: nat, cpuMask: nat) returns (panicked: bool)
      requires Ready(hw, core) && cpuMask < 0x100 && (it < maxIt ==> !IrqInRdist(it) && cpuMask != 0)
      modifies hw
      ensures hw.Valid()
      ensures panicked <==> it >= maxIt
      ensures panicked ==> hw.State() == old(hw.State()) && hw.trace == old(hw.trace)
      ensures !panicked ==> hw.State() == old(hw.State().(irouter := hw.irouter[it := AffinityVal(cpuMask)]))
      ensures !panicked ==>
                hw.trace == old(hw.trace) + RouteWrites(gicdBase, it, AffinityVal(cpuMask), old(IdBit(hw.dist, Enable, it)))
    {
      if it >= maxIt {
        return true;
      }
      ItSetAffinity(hw, core, it, cpuMask);
      return false;
    }

    // ----- Initialisation and interrupt dispatch -----

    /**
     * gic_init: records the Distributor base, walks the Redistributor frames
     * from `gicrFirst` until the one whose GICR_TYPER has Last set, storing
     * each frame's RD_base at the index of its Processor_Number, then reads
     * the number of interrupt lines and installs the chip operations.
     */
    method Init(hw: GicHardware, gicd: nat, gicrFirst: nat, sre: bv32)
      requires hw.Valid() && gicd == hw.gicdBase && gicrFirst == hw.rdBase
      requires hw.gicdCtlr & CTLR_ARE_S_BIT != 0
      requires sre & 1 == 1
      requires HasLast(hw.rdTypers)
      requires forall k :: 0 <= k <= LastIndex(hw.rdTypers) ==> ProcNum(hw.rdTypers[k]) < gicrBase.Length
      modifies this, gicrBase
      ensures gicdBase == gicd && opsInstalled
      ensures maxIt == ProbeMaxIt(hw.gicdTyper)
      ensures gicrBase[..] == Discover(old(gicrBase[..]), gicrFirst, hw.rdTypers, LastIndex(hw.rdTypers) + 1)
    {
      gicdBase := gicd;
      ScanRedistributors(hw, gicrFirst);
      var itLines := hw.Read32(gicd, GICD_TYPER);
      maxIt := ProbeMaxIt(itLines);
      opsInstalled := true;
    }

    /**
     * The Redistributor walk of gic_init: frames are visited in address
     * order from `gicrFirst` up to the one whose GICR_TYPER has Last set.
     */
    method ScanRedistributors(hw: GicHardware, gicrFirst: nat)
      requires gicrFirst == hw.rdBase && HasLast(hw.rdTypers)
      requires forall k :: 0 <= k <= LastIndex(hw.rdTypers) ==> ProcNum(hw.rdTypers[k]) < gicrBase.Length
      modifies gicrBase
      ensures gicrBase[..] == Discover(old(gicrBase[..]), gicrFirst, hw.rdTypers, LastIndex(hw.rdTypers) + 1)
    {
      var addr: nat := gicrFirst;
      ghost var k: nat := 0;
      ghost var last := LastIndex(hw.rdTypers);
      while true
        invariant k <= last && addr == hw.FrameAddr(k)
        invariant gicrBase[..] == Discover(old(gicrBase[..]), gicrFirst, hw.rdTypers, k)
        decreases last - k
      {
        hw.FrameTyper(k);
        var typer := hw.ReadGicrTyper(addr);
        var procNum := ProcNum(typer);
        ghost var visited := gicrBase[..];
        gicrBase[procNum] := addr;
        assert gicrBase[..] == visited[procNum := addr];
        addr := addr + GICR_FRAME_STRIDE;
        k := k + 1;
        assert gicrBase[..] == Discover(old(gicrBase[..]), gicrFirst, hw.rdTypers, k);
        if IsLast(typer) {
          assert k == last + 1;
          break;
        }
      }
    }

    /** gic_read_iar: acknowledges the highest-priority pending interrupt and returns its INTID. */
    method ReadIar(hw: GicHardware) returns (id: bv32)
      modifies hw
      ensures id == old(hw.iar1) & IAR1_EL1_INTID_MASK
      ensures hw.State() == old(hw.State())
      ensures hw.trace == old(hw.trace) + [Ack(old(hw.iar1))]
    {
      var raw := hw.ReadIar1();
      id := raw & IAR1_EL1_INTID_MASK;
    }

    /** gic_eof_irq: ends interrupt `id`, then an instruction barrier. */
    method EofIrq(hw: GicHardware, id: bv32)
      modifies hw
      ensures hw.State() == old(hw.State())
      ensures hw.trace == old(hw.trace) + [Eoi(id), Isb]
    {
      hw.WriteEoir1(id);
    }

    /**
     * gic_it_handle: when an interrupt is pending, acknowledges it, runs its
     * handler and ends it; a spurious interrupt is ignored.
     */
    method ItHandle(hw: GicHardware)
      modifies hw
      ensures hw.State() == old(hw.State())
      ensures ReadHppir(old(hw.hppir1)) == INTR_ID_UNAVAILABLE ==> hw.trace == old(hw.trace)
      ensures ReadHppir(old(hw.hppir1)) != INTR_ID_UNAVAILABLE ==> hw.trace == old(hw.trace) + HandleEvents(old(hw.iar1))
    {
      var id := ReadHppir(hw.hppir1);
      if id != INTR_ID_UNAVAILABLE {
        id := ReadIar(hw);
        hw.NoteHandler(id);
        EofIrq(hw, id);
      }
    }
  }
}
