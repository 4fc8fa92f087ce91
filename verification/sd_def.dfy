/**
 * The platform definitions of the Sigma Designs "union" SoC: the packing of
 * the 32-bit secondary-boot register (entry address in bits 31..4, core id
 * in bits 3..0) and the DRAM memory map.
 */
module SdDef {
  import GicV3
  import GicHw

  // ===== Secondary boot register =====

  const AUX_BOOT_ADDR_REG: nat := 0xFB00_F07C
  const AUX_BOOT_ID_BITS: bv32 := 4
  const AUX_BOOT_ID_MASK: bv32 := 0xF
  const AUX_BOOT_ADDR_MASK: bv32 := 0xFFFF_FFF0

  /** The masks are `(1 << AUX_BOOT_ID_BITS) - 1` and its complement. */
  lemma AuxBootMasks()
    ensures AUX_BOOT_ID_MASK == (1 << AUX_BOOT_ID_BITS) - 1
    ensures AUX_BOOT_ADDR_MASK == !AUX_BOOT_ID_MASK
  {
  }

  /** AUX_BOOT_ADDR: the entry-address part of a register value. */
  function AuxBootAddr(v: bv32): (a: bv32)
    ensures a & AUX_BOOT_ID_MASK == 0
  {
    v & AUX_BOOT_ADDR_MASK
  }

  /** AUX_BOOT_ID: the core-id part of a register value. */
  function AuxBootId(v: bv32): (i: bv32)
    ensures i < 16
  {
    v & AUX_BOOT_ID_MASK
  }

  /**
   * MK_AUX_BOOT_VAL: the register value for entry point `ep` and core `id`.
   * Each field reads back as the masked argument.
   */
  function MkAuxBootVal(ep: bv32, id: bv32): (v: bv32)
    ensures AuxBootId(v) == id & AUX_BOOT_ID_MASK
    ensures AuxBootAddr(v) == ep & AUX_BOOT_ADDR_MASK
  {
    (ep & AUX_BOOT_ADDR_MASK) | (id & AUX_BOOT_ID_MASK)
  }

  /** A 16-byte aligned entry point and an id below 16 are stored without loss. */
  lemma AuxBootRoundTrip(ep: bv32, id: bv32)
    requires ep % 16 == 0 && id < 16
    ensures AuxBootAddr(MkAuxBootVal(ep, id)) == ep
    ensures AuxBootId(MkAuxBootVal(ep, id)) == id
  {
  }

  /** The two masks split every value: the fields are disjoint and together give it back. */
  lemma AuxBootFieldsSplit(v: bv32)
    ensures AuxBootAddr(v) | AuxBootId(v) == v
    ensures AuxBootAddr(v) & AuxBootId(v) == 0
    ensures MkAuxBootVal(AuxBootAddr(v), AuxBootId(v)) == v
  {
    var a, i := AuxBootAddr(v), AuxBootId(v);
    calc {
      MkAuxBootVal(a, i);
      (a & AUX_BOOT_ADDR_MASK) | (i & AUX_BOOT_ID_MASK);
      (v & AUX_BOOT_ADDR_MASK) | (v & AUX_BOOT_ID_MASK);
      v;
    }
  }

  // ===== DRAM layout =====

  const SD_DRAM_BASE: nat := 0x0000_0000
  const SD_DRAM_SIZE: nat := 0x4000_0000

  const SD_WSM_BASE: nat := 0x1000_0000
  const SD_WSM_SIZE: nat := 0x0020_0000

  const SD_SEC_DRAM_BASE: nat := 0x1020_0000
  const SD_SEC_DRAM_SIZE: nat := 0x00E0_0000
  const SD_SEC_DRAM_LIMIT: nat := SD_SEC_DRAM_BASE + SD_SEC_DRAM_SIZE

  const SD_NS_DRAM_BASE: nat := SD_DRAM_BASE
  const SD_NS_DRAM_SIZE: nat := SD_SEC_DRAM_BASE - SD_DRAM_BASE
  const SD_NS_DRAM_BASE2: nat := SD_SEC_DRAM_BASE + SD_SEC_DRAM_SIZE
  const SD_NS_DRAM_SIZE2: nat := SD_DRAM_SIZE - SD_NS_DRAM_SIZE - SD_SEC_DRAM_SIZE

  const SD_ATF_DRAM_BASE: nat := SD_SEC_DRAM_BASE
  const SD_ATF_DRAM_SIZE: nat := 0x0006_0000
  const SD_ATF_DRAM_LIMIT: nat := SD_ATF_DRAM_BASE + SD_ATF_DRAM_SIZE

  const SD_TEE_DRAM_BASE: nat := SD_ATF_DRAM_LIMIT
  const SD_TEE_DRAM_SIZE: nat := 0x0010_0000
  const SD_TEE_DRAM_LIMIT: nat := SD_TEE_DRAM_BASE + SD_TEE_DRAM_SIZE

  const ARM_IRQ_SEC_PHY_TIMER: nat := 29
  const ARM_IRQ_SEC_SGI_0: nat := 8
  const ARM_IRQ_SEC_SGI_7: nat := 15

  /** The three DRAM regions of the memory map. */
  datatype DramRegion = NonSecureLow | Secure | NonSecureHigh

  predicate InRange(a: nat, base: nat, size: nat)
  {
    base <= a < base + size
  }

  /** The region a DRAM address falls in, read off the layout constants. */
  function RegionOf(a: nat): (r: DramRegion)
    requires InRange(a, SD_DRAM_BASE, SD_DRAM_SIZE)
    ensures r == NonSecureLow <==> InRange(a, SD_NS_DRAM_BASE, SD_NS_DRAM_SIZE)
    ensures r == Secure <==> InRange(a, SD_SEC_DRAM_BASE, SD_SEC_DRAM_SIZE)
    ensures r == NonSecureHigh <==> InRange(a, SD_NS_DRAM_BASE2, SD_NS_DRAM_SIZE2)
  {
    if a < SD_SEC_DRAM_BASE then NonSecureLow
    else if a < SD_SEC_DRAM_LIMIT then Secure
    else NonSecureHigh
  }

  /**
   * The two non-secure regions and secure DRAM cover all of DRAM and no
   * address outside it, and no address lies in two of them.
   */
  lemma DramPartition(a: nat)
    ensures InRange(a, SD_DRAM_BASE, SD_DRAM_SIZE) <==>
      InRange(a, SD_NS_DRAM_BASE, SD_NS_DRAM_SIZE) || InRange(a, SD_SEC_DRAM_BASE, SD_SEC_DRAM_SIZE)
      || InRange(a, SD_NS_DRAM_BASE2, SD_NS_DRAM_SIZE2)
    ensures !(InRange(a, SD_NS_DRAM_BASE, SD_NS_DRAM_SIZE) && InRange(a, SD_SEC_DRAM_BASE, SD_SEC_DRAM_SIZE))
    ensures !(InRange(a, SD_SEC_DRAM_BASE, SD_SEC_DRAM_SIZE) && InRange(a, SD_NS_DRAM_BASE2, SD_NS_DRAM_SIZE2))
    ensures !(InRange(a, SD_NS_DRAM_BASE, SD_NS_DRAM_SIZE) && InRange(a, SD_NS_DRAM_BASE2, SD_NS_DRAM_SIZE2))
  {
  }

  /**
   * ATF sits at the bottom of secure DRAM and the TEE right above it, both
   * inside secure DRAM; the shared-memory window ends where secure DRAM starts.
   */
  lemma SecureLayout()
    ensures SD_ATF_DRAM_BASE == SD_SEC_DRAM_BASE
    ensures SD_TEE_DRAM_BASE == SD_ATF_DRAM_LIMIT
    ensures SD_TEE_DRAM_LIMIT <= SD_SEC_DRAM_LIMIT
    ensures SD_WSM_BASE + SD_WSM_SIZE == SD_SEC_DRAM_BASE
    ensures InRange(SD_WSM_BASE, SD_NS_DRAM_BASE, SD_NS_DRAM_SIZE)
  {
  }

  /**
   * The secure SGIs 8..15 are exactly those the GIC driver raises through
   * ICC_SGI1R_EL1, and the secure physical timer interrupt is a per-core
   * interrupt served by the Redistributor.
   */
  lemma SecureInterruptIds()
    ensures ARM_IRQ_SEC_SGI_0 == GicV3.MIN_SEC_SGI_ID && ARM_IRQ_SEC_SGI_7 + 1 == GicV3.NUM_SGI
    ensures forall id :: ARM_IRQ_SEC_SGI_0 <= id <= ARM_IRQ_SEC_SGI_7 ==>
      GicV3.SgiRegFor(id) == GicHw.ICC_SGI1R_EL1
    ensures GicV3.IrqInRdist(ARM_IRQ_SEC_PHY_TIMER) && ARM_IRQ_SEC_PHY_TIMER >= GicV3.NUM_SGI
  {
  }
}
