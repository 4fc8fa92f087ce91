# Sigma Designs OP-TEE platform core, modelled in Dafny

This project models the platform layer that OP-TEE OS carries for Sigma
Designs "union" SoCs, and proves properties of that model:

- **The GICv3 interrupt driver** (`gic_v3.c`, `gicv3_helpers.c`). The
  controller is a class `GicHardware` (module `GicHw`). It holds the
  Distributor bank and one bank per Redistributor frame: group, group
  modifier, enable and pending bit words, priority bytes, the IROUTER
  array and GICD_CTLR. A ghost trace records every register write,
  register-write-pending wait and system-register access. The driver's
  `struct gic_data` is the class `GicDriver` (module `GicV3`). Each
  accessor and each driver operation is a method. Its contract gives the
  new controller state as a function of the old one (`SetItBit`,
  `AddEffect`), plus the exact writes appended to the trace. Lemmas state
  what those functions promise:
  - `gic_it_add` makes the interrupt Secure Group 1 at the highest secure
    priority and changes no other interrupt;
  - the Redistributor walk of `gic_init` records every frame under its
    Processor_Number;
  - `gic_it_set_affinity` routes to exactly the named CPU, or to "any" for
    several CPUs;
  - the `gic_op_*` chip operations panic exactly when the ID is out of
    range.
- **The secure physical timer** (`cntps_timer.c`): the CNTPS_CTL bit
  macros, the per-core timer class, and suspend/resume context saving. It
  also covers the system time derived from the counter plus a residual.
- **The platform memory map and boot mailbox macros** (`sd_def.h`).
- **The hardware random-byte buffer** (`rng.c`).
- **The secure-firmware registry** (`firmware.c`) and the SiP-SMC firmware
  driver that registers into it (`sip_svc.c`).
- **The `svcx` pseudo-TA**:
  - its command dispatcher (`pta_entry.c`);
  - user mapping and unmapping (`svcx_mmap.c`);
  - key fuse programming (`svcx_otp.c`);
  - the memory-state query (`svcx_memstat.c`).
- **The TA-side library `libuteex`** (`tee_api_ext.c`). It opens a session
  to the pseudo-TA, or borrows the cached one, and marshals each request
  into `TEE_Param` slots.

Each source file is one module. Shared TEE types and the register-pair
helpers are in `TeeTypes`, bit-level helpers in `Bits`, and `Option` in
`Wrappers`.

The pseudo-TA handlers take `TEE_Param[4]` in place. Each one is a method
on an `array<TeeParam>` whose contract ties `(result, params[..])` to a
pure outcome function of the old parameters. The kernel services the
handlers call are fields of a `TaKernel` value:
- `tee_ta_get_client_id`;
- `core_pbuf_is`;
- `tee_ta_get_calling_session`;
- `tee_mmu_umap_mmap` and `tee_mmu_umap_munmap`.

The secure monitor, `virt_to_phys`, the hardware random word and the
system counter are all inputs as well. On the library side, a call's
session events (open, invoke, close) go into a ghost log. The pseudo-TA's
answer is an `InvokeFn` parameter. `PtaEntry.PtaAnswers` plugs the
kernel-side model in as that parameter, which joins the library and the
pseudo-TA end to end.

## Model

| member | source | states |
|---|---|---|
| Bits.Bit | core/arch/arm/plat-sigma/drivers/gic/gicv3_helpers.c:65-71 | extracting one bit of a register word gives 0 or 1 |
| Bits.OneHot | core/arch/arm/plat-sigma/drivers/gic/gicv3_helpers.c:193-198 | `1 << bit_num` has bit `bit_num` set |
| Bits.SetBit | core/arch/arm/plat-sigma/drivers/gic/gicv3_helpers.c:77-83 | OR-ing in `1 << bit_num` leaves that bit set |
| Bits.ClrBit | core/arch/arm/plat-sigma/drivers/gic/gicv3_helpers.c:89-95 | AND-ing with `~(1 << bit_num)` leaves that bit clear |
| Bits.BitNum | core/arch/arm/plat-sigma/drivers/gic/gicv3_helpers.c:79 | `id & 31` is below 32 and equals `id mod 32` |
| Bits.BitNumMod | core/arch/arm/plat-sigma/drivers/gic/gicv3_helpers.c:79 | the bit number of `id mod 32` is the bit number of `id` |
| Bits.OneHotOther | core/arch/arm/plat-sigma/drivers/gic/gicv3_helpers.c:193-198 | a one-hot word has every other bit clear |
| Bits.SetBitOther | core/arch/arm/plat-sigma/drivers/gic/gicv3_helpers.c:77-83 | setting one bit leaves every other bit unchanged |
| Bits.ClrBitOther | core/arch/arm/plat-sigma/drivers/gic/gicv3_helpers.c:89-95 | clearing one bit leaves every other bit unchanged |
| Bits.SetClrFrame | core/arch/arm/plat-sigma/drivers/gic/gicv3_helpers.c:77-95 | for all other bits at once: set and clear keep them, one-hot has them clear |
| Bits.MaskTest | core/arch/arm/plat-sigma/drivers/gic/gic_v3.c:132 | `reg & (1 << b)` is non-zero exactly when bit `b` is 1 |
| Bits.SetClrIdempotent | core/arch/arm/plat-sigma/drivers/gic/gicv3_helpers.c:77-95 | setting, or clearing, the same bit twice is the same as once |
| Bits.SetAfterClr | core/arch/arm/plat-sigma/drivers/gic/gicv3_helpers.c:77-95 | clearing then setting a bit that was set restores the word |
| Bits.SetClrNoop | core/arch/arm/plat-sigma/drivers/gic/gicv3_helpers.c:77-95 | setting a set bit, or clearing a clear one, leaves the word unchanged |
| Bits.SetClrOverride | core/arch/arm/plat-sigma/drivers/gic/gicv3_helpers.c:77-95 | of a set and a clear of the same bit, the last one decides the word |
| GicHw.WithWords | core/arch/arm/plat-sigma/drivers/gic/gicv3_helpers.c:55-59 | replacing one register's words changes that register only, and no priority |
| GicHw.SetIdBit | core/arch/arm/plat-sigma/drivers/gic/gicv3_helpers.c:77-83 | after setting, the ID's bit reads 1 and the register keeps its size |
| GicHw.ClrIdBit | core/arch/arm/plat-sigma/drivers/gic/gicv3_helpers.c:89-95 | after clearing, the ID's bit reads 0 and the register keeps its size |
| GicHw.IdBitFrame | core/arch/arm/plat-sigma/drivers/gic/gicv3_helpers.c:77-95 | setting or clearing one ID's bit changes no other (register, ID) bit |
| GicHw.IdBitNoop | core/arch/arm/plat-sigma/drivers/gic/gicv3_helpers.c:77-95 | setting a set ID bit, or clearing a clear one, leaves the bank unchanged |
| GicHw.Lane | core/arch/arm/plat-sigma/drivers/gic/gicv3_helpers.c:101-105 | a priority byte lane of a 32-bit word is at most 0xFF |
| GicHw.SetLane | core/arch/arm/plat-sigma/drivers/gic/gicv3_helpers.c:204-207 | after a byte write the lane reads the low byte of the value |
| GicHw.SetLaneOther | core/arch/arm/plat-sigma/drivers/gic/gicv3_helpers.c:204-207 | a byte write leaves the other three lanes unchanged |
| GicHw.SetLaneNoop | core/arch/arm/plat-sigma/drivers/gic/gicv3_helpers.c:204-207 | writing a lane with the byte it holds leaves the word unchanged |
| GicHw.LaneNum | core/arch/arm/plat-sigma/drivers/gic/gicv3_helpers.c:101-105 | an ID's priority lane is `id mod 4`, below 4 |
| GicHw.SetPriority | core/arch/arm/plat-sigma/drivers/gic/gicv3_helpers.c:204-207 | after a priority byte write the ID reads the value's low byte; no bit word changes |
| GicHw.SetPriorityOther | core/arch/arm/plat-sigma/drivers/gic/gicv3_helpers.c:204-207 | a priority byte write leaves every other ID's priority unchanged |
| GicHw.SetPriorityNoop | core/arch/arm/plat-sigma/drivers/gic/gicv3_helpers.c:204-207 | writing the priority an ID already has leaves the bank unchanged |
| GicHw.WriteBank32 | core/arch/arm/plat-sigma/drivers/gic/gicv3_helpers.c:55-59 | a 32-bit register write keeps every register array's size |
| GicHw.GicHardware.FrameTyper | core/arch/arm/plat-sigma/drivers/gic/gic_v3.c:445 | frame `k` of the walk is a Redistributor frame and its GICR_TYPER is the `k`-th |
| GicHw.GicHardware.constructor | core/arch/arm/plat-sigma/drivers/gic/gic_v3.c:429-436 | the controller starts in the given state with an empty trace |
| GicHw.GicHardware.Write32 | core/arch/arm/plat-sigma/drivers/gic/gicv3_helpers.c:55-59 | a 32-bit MMIO write decodes to its register and is recorded in the trace |
| GicHw.GicHardware.Write8 | core/arch/arm/plat-sigma/drivers/gic/gicv3_helpers.c:204-207 | a byte write sets one Distributor or Redistributor priority and is recorded |
| GicHw.GicHardware.WriteIrouter | core/arch/arm/plat-sigma/drivers/gic/gic_v3.c:193-195 | a 64-bit IROUTER write sets that ID's route only |
| GicHw.GicHardware.WaitForPendingWrite | core/arch/arm/plat-sigma/drivers/gic/gic_v3.c:228 | waiting for RWP changes no state and is recorded |
| GicHw.GicHardware.WriteSgiReg | core/arch/arm/plat-sigma/drivers/gic/gic_v3.c:262-270 | an SGI register write records the value its 32-bit accessor passes on |
| GicHw.GicHardware.ReadIar1 | core/arch/arm/plat-sigma/drivers/gic/gic_v3.c:408-411 | reading ICC_IAR1_EL1 returns it and records the acknowledge |
| GicHw.GicHardware.WriteEoir1 | core/arch/arm/plat-sigma/drivers/gic/gic_v3.c:418-422 | end of interrupt is recorded, followed by an ISB |
| GicHw.GicHardware.NoteHandler | core/arch/arm/plat-sigma/drivers/gic/gic_v3.c:485 | running the interrupt's handler is recorded |
| GicHw.ReadModifyWriteEffect | core/arch/arm/plat-sigma/drivers/gic/gicv3_helpers.c:133-151 | writing back a read word with one bit set or cleared is SetIdBit or ClrIdBit |
| GicHw.OneHotSetEffect | core/arch/arm/plat-sigma/drivers/gic/gicv3_helpers.c:193-198 | a write-1-to-set of a one-hot word sets just that bit |
| GicHw.OneHotClearEffect | core/arch/arm/plat-sigma/drivers/gic/gicv3_helpers.c:213-218 | a write-1-to-clear of a one-hot word clears just that bit |
| GicHw.OneHotWriteBankEffect | core/arch/arm/plat-sigma/drivers/gic/gicv3_helpers.c:224-237 | a one-hot write to a set or clear register is SetIdBit or ClrIdBit |
| GicHw.ClrThenSetRestores | core/arch/arm/plat-sigma/drivers/gic/gic_v3.c:286-310 | disabling and then enabling an enabled interrupt restores its bank |
| GicHw.DecodeBitWords | core/arch/arm/plat-sigma/drivers/gic/gicv3_helpers.c:45-59 | the offset `REG + 4n` decodes to word `n` of the right register and write mode |
| GicHw.DecodePriorityWord | core/arch/arm/plat-sigma/drivers/gic/gicv3_helpers.c:101-115 | the offset `IPRIORITYR + 4n` decodes to priority word `n` |
| GicV3.MkSgirVal | core/arch/arm/plat-sigma/drivers/gic/gic_v3.c:74-79 | the SGI generation value from its five fields; the fields are stated by SgirFields |
| GicV3.SgirFields | core/arch/arm/plat-sigma/drivers/gic/gic_v3.c:74-79 | each MK_SGIR_VAL argument lands in its own field and IRM stays 0 |
| GicV3.SgirFitsAccessor | core/arch/arm/plat-sigma/drivers/gic/gic_v3.c:256-271 | an SGI value for affinity 0.0.0 fits in 32 bits |
| GicV3.MkIrouterVal | core/arch/arm/plat-sigma/drivers/gic/gic_v3.c:89-94 | the routing value from four affinities and IRM; the fields are stated by IrouterFields |
| GicV3.IrouterFields | core/arch/arm/plat-sigma/drivers/gic/gic_v3.c:89-94 | each MK_IROUTER_VAL affinity lands in its field; IRM takes `irm & 1` |
| GicV3.Popcount | core/arch/arm/plat-sigma/drivers/gic/gic_v3.c:294 | `__builtin_popcount`: the number of set bits, never more than the value |
| GicV3.Ctz | core/arch/arm/plat-sigma/drivers/gic/gic_v3.c:299 | `__builtin_ctz`: the trailing zeros of a non-zero value, whose power of two is at most the value |
| GicV3.PopcountZero | core/arch/arm/plat-sigma/drivers/gic/gic_v3.c:294 | popcount is 0 exactly for 0 |
| GicV3.SingleBitMask | core/arch/arm/plat-sigma/drivers/gic/gic_v3.c:299 | a mask with one bit set is `1 << ctz(mask)` |
| GicV3.PowerOfTwoMask | core/arch/arm/plat-sigma/drivers/gic/gic_v3.c:299 | `1 << k` has popcount 1 and ctz `k` |
| GicV3.CtzBound | core/arch/arm/plat-sigma/drivers/gic/gic_v3.c:299 | a non-zero mask below `2^n` has ctz below `n` |
| GicV3.AffinityVal | core/arch/arm/plat-sigma/drivers/gic/gic_v3.c:294-301 | the IROUTER value for a non-empty CPU mask never names Aff1, Aff2 or Aff3; IRM and Aff0 are stated by AffinityRoutesAny and AffinityRoutesOne |
| GicV3.AffinityRoutesAny | core/arch/arm/plat-sigma/drivers/gic/gic_v3.c:294-297 | a mask naming several CPUs routes with IRM = 1 |
| GicV3.AffinityRoutesOne | core/arch/arm/plat-sigma/drivers/gic/gic_v3.c:298-301 | a one-CPU mask routes with IRM = 0 to Aff0 = that CPU, other affinities 0 |
| GicV3.ProbeMaxIt | core/arch/arm/plat-sigma/drivers/gic/gic_v3.c:380-388 | the ID limit is 32 * (ITLinesNumber + 1): a multiple of 32 between 32 and 1024 |
| GicV3.ReadHppir | core/arch/arm/plat-sigma/drivers/gic/gic_v3.c:394-401 | the spurious ID 1023, and only it, reads as "unavailable"; otherwise the masked INTID |
| GicV3.GroupOf | core/arch/arm/plat-sigma/drivers/gic/gic_v3.c:149-160 | (status, modifier) bits select G0, G1S or G1NS, each in both directions; the reserved pair reads as G1NS |
| GicV3.IrqInRdist | core/arch/arm/plat-sigma/drivers/gic/gic_v3.c:115-118 | gic_irq_in_rdist: the IDs below the first SPI, 32 |
| GicV3.BankOf | core/arch/arm/plat-sigma/drivers/gic/gic_v3.c:125-131 | SGIs and PPIs live in the core's Redistributor bank, SPIs in the Distributor's |
| GicV3.SetItBit | core/arch/arm/plat-sigma/drivers/gic/gic_v3.c:206-254 | setting or clearing an ID's bit leaves routes, GICD_CTLR and the CPU interface alone |
| GicV3.SetItBitValue | core/arch/arm/plat-sigma/drivers/gic/gic_v3.c:206-254 | after enable/disable/set-pending/clear-pending the ID's bit has the new value |
| GicV3.SetItBitFrame | core/arch/arm/plat-sigma/drivers/gic/gic_v3.c:206-254 | no other (register, ID, core) bit and no priority changes |
| GicV3.SetItBitShape | core/arch/arm/plat-sigma/drivers/gic/gic_v3.c:206-254 | every ID stays reachable after a bit update |
| GicV3.SetItBitOtherBank | core/arch/arm/plat-sigma/drivers/gic/gic_v3.c:206-254 | a bit update leaves every other bank unchanged |
| GicV3.SetItBitSameBank | core/arch/arm/plat-sigma/drivers/gic/gic_v3.c:206-254 | a bit update leaves the priorities of its own bank unchanged |
| GicV3.SetItBitOtherBit | core/arch/arm/plat-sigma/drivers/gic/gic_v3.c:206-254 | a bit update leaves every other bit of its own bank unchanged |
| GicV3.AddConfiguresSecure | core/arch/arm/plat-sigma/drivers/gic/gic_v3.c:164-204 | the added ID is G1S at the highest secure priority, keeping its enable and pending bits; an SPI routes to the primary core with G1S forwarding on |
| GicV3.AddEffectBank | core/arch/arm/plat-sigma/drivers/gic/gic_v3.c:164-204 | the add changes the ID's bank by AddBank, plus the SPI route and GICD_CTLR |
| GicV3.AddBankSecure | core/arch/arm/plat-sigma/drivers/gic/gic_v3.c:169-190 | AddBank clears the group bit, sets the modifier bit and writes the highest secure priority |
| GicV3.AddBankKeeps | core/arch/arm/plat-sigma/drivers/gic/gic_v3.c:169-190 | AddBank keeps the ID's enable and pending bits |
| GicV3.AddFrame | core/arch/arm/plat-sigma/drivers/gic/gic_v3.c:164-204 | the add changes no other interrupt's bits, priority or route |
| GicV3.AddShape | core/arch/arm/plat-sigma/drivers/gic/gic_v3.c:164-204 | every ID stays reachable after the add |
| GicV3.AddOtherBank | core/arch/arm/plat-sigma/drivers/gic/gic_v3.c:164-204 | the add leaves every other bank and route unchanged |
| GicV3.AddSameBank | core/arch/arm/plat-sigma/drivers/gic/gic_v3.c:164-204 | the add leaves the other IDs of its own bank unchanged |
| GicV3.OpAddLeavesDisabled | core/arch/arm/plat-sigma/drivers/gic/gic_v3.c:316-326 | after gic_op_add the interrupt is disabled, G1S, at the highest secure priority |
| GicV3.AddBankIdempotent | core/arch/arm/plat-sigma/drivers/gic/gic_v3.c:169-190 | configuring a bank a second time for the same ID changes nothing |
| GicV3.AddIdempotent | core/arch/arm/plat-sigma/drivers/gic/gic_v3.c:164-204 | a second gic_it_add leaves the state the first left; it repeats the same writes, and for an SPI drops the GICD_CTLR write and its wait |
| GicV3.AddKeepsCtlr | core/arch/arm/plat-sigma/drivers/gic/gic_v3.c:198-201 | an add never clears G1S forwarding in GICD_CTLR, and an SGI/PPI add leaves GICD_CTLR unchanged |
| GicV3.OpAddEffect | core/arch/arm/plat-sigma/drivers/gic/gic_v3.c:316-326 | the state after gic_op_add (disable, then add) keeps the ID reachable |
| GicV3.OpAddIdempotent | core/arch/arm/plat-sigma/drivers/gic/gic_v3.c:316-326 | calling gic_op_add twice leaves the state the first call left |
| GicV3.ClrItBitNoop | core/arch/arm/plat-sigma/drivers/gic/gic_v3.c:218-230 | clearing an interrupt's bit that is already clear leaves the controller state unchanged |
| GicV3.ItBitMask | core/arch/arm/plat-sigma/drivers/gic/gic_v3.c:120-133 | testing the ID's word against `1 << (id % 32)` reads the ID's bit |
| GicV3.AddBankWords | core/arch/arm/plat-sigma/drivers/gic/gic_v3.c:169-185 | the group and modifier words AddBank leaves are those of clear-group then set-modifier |
| GicV3.AddRdistSteps | core/arch/arm/plat-sigma/drivers/gic/gic_v3.c:169-179 | the three Redistributor writes add up to AddEffect and AddWrites |
| GicV3.AddSpiSteps | core/arch/arm/plat-sigma/drivers/gic/gic_v3.c:180-203 | the Distributor writes, route and conditional CTLR update add up to AddEffect and AddWrites |
| GicV3.SgiValue | core/arch/arm/plat-sigma/drivers/gic/gic_v3.c:260 | the SGI value carries the ID and CPU mask with zero affinities and IRM 0, within 32 bits |
| GicV3.SgiRegFor | core/arch/arm/plat-sigma/drivers/gic/gic_v3.c:261-270 | SGIs 0-7 go to ICC_ASGI1R_EL1 (non-secure) and 8-15 to ICC_SGI1R_EL1, both ways |
| GicV3.CtlrAlreadySet | core/arch/arm/plat-sigma/drivers/gic/gic_v3.c:199-201 | when G1S forwarding is already on, setting it changes nothing |
| GicV3.ProcNum | core/arch/arm/plat-sigma/drivers/gic/gic_v3.c:446-447 | GICR_TYPER's Processor_Number is a 16-bit field |
| GicV3.LastIndex | core/arch/arm/plat-sigma/drivers/gic/gic_v3.c:444-451 | the walk stops at the first frame with Last set |
| GicV3.Discover | core/arch/arm/plat-sigma/drivers/gic/gic_v3.c:444-451 | the table of frame bases keeps its size |
| GicV3.DiscoverFinds | core/arch/arm/plat-sigma/drivers/gic/gic_v3.c:444-451 | each core's entry is the base of the last frame visited with its Processor_Number |
| GicV3.DiscoverKeeps | core/arch/arm/plat-sigma/drivers/gic/gic_v3.c:444-451 | a core named by no frame keeps its entry |
| GicV3.GicDriver.constructor | core/arch/arm/plat-sigma/drivers/gic/gic_v3.c:429-434 | a zeroed `gic_data`, with one Redistributor slot per core and no ops installed |
| GicV3.GicDriver.ItIsEnabled | core/arch/arm/plat-sigma/drivers/gic/gic_v3.c:120-133 | the result is the ID's enable bit in the bank it lives in |
| GicV3.GicDriver.ItGetGroup | core/arch/arm/plat-sigma/drivers/gic/gic_v3.c:135-162 | the result is the ID's group in the bank it lives in |
| GicV3.GicDriver.ItEnable | core/arch/arm/plat-sigma/drivers/gic/gic_v3.c:206-216 | sets the enable bit through ISENABLER with a one-hot write |
| GicV3.GicDriver.ItDisable | core/arch/arm/plat-sigma/drivers/gic/gic_v3.c:218-230 | clears the enable bit through ICENABLER, then waits for RWP on the same frame |
| GicV3.GicDriver.ItSetPending | core/arch/arm/plat-sigma/drivers/gic/gic_v3.c:232-242 | sets the pending bit through ISPENDR |
| GicV3.GicDriver.ItClrPending | core/arch/arm/plat-sigma/drivers/gic/gic_v3.c:244-254 | clears the pending bit through ICPENDR |
| GicV3.GicDriver.ItAdd | core/arch/arm/plat-sigma/drivers/gic/gic_v3.c:164-204 | the new state is AddEffect of the old, with the AddWrites accesses in order |
| GicV3.GicDriver.AddInRdist | core/arch/arm/plat-sigma/drivers/gic/gic_v3.c:169-179 | the SGI/PPI branch gives AddEffect and AddWrites |
| GicV3.GicDriver.ConfigurePerCore | core/arch/arm/plat-sigma/drivers/gic/gic_v3.c:170-178 | group clear, modifier set and priority write on the core's Redistributor |
| GicV3.GicDriver.AddInDist | core/arch/arm/plat-sigma/drivers/gic/gic_v3.c:180-203 | the SPI branch gives AddEffect and AddWrites |
| GicV3.GicDriver.ConfigureSpi | core/arch/arm/plat-sigma/drivers/gic/gic_v3.c:181-196 | group clear, modifier set, priority and route to the primary core on the Distributor |
| GicV3.GicDriver.EnableSecureGroup1 | core/arch/arm/plat-sigma/drivers/gic/gic_v3.c:198-201 | GICD_CTLR is written, with an RWP wait, only when G1S forwarding was off |
| GicV3.GicDriver.ItRaiseSgi | core/arch/arm/plat-sigma/drivers/gic/gic_v3.c:256-272 | one write of SgiValue to the register SgiRegFor picks; no controller state changes |
| GicV3.GicDriver.ItSetAffinity | core/arch/arm/plat-sigma/drivers/gic/gic_v3.c:274-313 | only the ID's route changes, to AffinityVal(mask); enabled: disable, wait, route, enable; else route, wait |
| GicV3.GicDriver.RouteEnabled | core/arch/arm/plat-sigma/drivers/gic/gic_v3.c:286-310 | the enabled case ends with the interrupt enabled again and only its route changed |
| GicV3.GicDriver.OpAdd | core/arch/arm/plat-sigma/drivers/gic/gic_v3.c:316-326 | panics exactly when `it >= max_it`, touching nothing; else the state is OpAddEffect (disable then add), with the ICENABLER write, RWP wait and AddWrites |
| GicV3.GicDriver.OpEnable | core/arch/arm/plat-sigma/drivers/gic/gic_v3.c:328-336 | panics exactly when `it >= max_it`; else enables `it` |
| GicV3.GicDriver.OpDisable | core/arch/arm/plat-sigma/drivers/gic/gic_v3.c:338-346 | panics exactly when `it >= max_it`; else disables `it` |
| GicV3.GicDriver.OpRaisePi | core/arch/arm/plat-sigma/drivers/gic/gic_v3.c:348-356 | panics exactly when `it >= max_it`; else makes `it` pending |
| GicV3.GicDriver.OpRaiseSgi | core/arch/arm/plat-sigma/drivers/gic/gic_v3.c:358-367 | panics exactly when `it >= max_it`; else raises the SGI; never changes controller state |
| GicV3.GicDriver.OpSetAffinity | core/arch/arm/plat-sigma/drivers/gic/gic_v3.c:369-378 | panics exactly when `it >= max_it`; else routes `it` to an 8-bit CPU mask |
| GicV3.GicDriver.Init | core/arch/arm/plat-sigma/drivers/gic/gic_v3.c:429-455 | records the Distributor base, the Redistributor table Discover builds, ProbeMaxIt and the ops |
| GicV3.GicDriver.ScanRedistributors | core/arch/arm/plat-sigma/drivers/gic/gic_v3.c:444-451 | the do/while walk up to the Last frame fills the table as Discover says |
| GicV3.GicDriver.ReadIar | core/arch/arm/plat-sigma/drivers/gic/gic_v3.c:408-411 | returns the masked INTID of the acknowledged interrupt |
| GicV3.GicDriver.EofIrq | core/arch/arm/plat-sigma/drivers/gic/gic_v3.c:418-422 | writes EOIR1 then issues an ISB |
| GicV3.GicDriver.ItHandle | core/arch/arm/plat-sigma/drivers/gic/gic_v3.c:474-503 | a spurious interrupt leaves no trace; otherwise acknowledge, handler, end of interrupt, ISB |
| GicV3Helpers.GicdReadIgrpmodr | core/arch/arm/plat-sigma/drivers/gic/gicv3_helpers.c:45-49 | reads the IGRPMODR word holding `id` |
| GicV3Helpers.GicdWriteIgrpmodr | core/arch/arm/plat-sigma/drivers/gic/gicv3_helpers.c:55-59 | replaces the IGRPMODR word holding `id` |
| GicV3Helpers.GicdGetIgrpmodr | core/arch/arm/plat-sigma/drivers/gic/gicv3_helpers.c:65-71 | 1 exactly when the ID's modifier bit is set |
| GicV3Helpers.GicdSetIgrpmodr | core/arch/arm/plat-sigma/drivers/gic/gicv3_helpers.c:77-83 | sets the ID's modifier bit by read-modify-write of its word |
| GicV3Helpers.GicdClrIgrpmodr | core/arch/arm/plat-sigma/drivers/gic/gicv3_helpers.c:89-95 | clears the ID's modifier bit by read-modify-write of its word |
| GicV3Helpers.GicrReadIpriorityr | core/arch/arm/plat-sigma/drivers/gic/gicv3_helpers.c:101-105 | each byte lane of the word read is the priority of one of its four IDs |
| GicV3Helpers.GicrWriteIpriorityr | core/arch/arm/plat-sigma/drivers/gic/gicv3_helpers.c:111-115 | a word write sets the four priorities of its IDs from the value's lanes |
| GicV3Helpers.GicrGetIgroupr0 | core/arch/arm/plat-sigma/drivers/gic/gicv3_helpers.c:121-127 | 1 exactly when the ID's group bit is set |
| GicV3Helpers.GicrSetIgroupr0 | core/arch/arm/plat-sigma/drivers/gic/gicv3_helpers.c:133-139 | sets the group bit of `id mod 32` |
| GicV3Helpers.GicrClrIgroupr0 | core/arch/arm/plat-sigma/drivers/gic/gicv3_helpers.c:145-151 | clears the group bit of `id mod 32` |
| GicV3Helpers.GicrGetIgrpmodr0 | core/arch/arm/plat-sigma/drivers/gic/gicv3_helpers.c:157-163 | 1 exactly when the ID's modifier bit is set |
| GicV3Helpers.GicrSetIgrpmodr0 | core/arch/arm/plat-sigma/drivers/gic/gicv3_helpers.c:169-175 | sets the modifier bit of `id mod 32` |
| GicV3Helpers.GicrClrIgrpmodr0 | core/arch/arm/plat-sigma/drivers/gic/gicv3_helpers.c:181-187 | clears the modifier bit of `id mod 32` |
| GicV3Helpers.GicrSetIsenabler0 | core/arch/arm/plat-sigma/drivers/gic/gicv3_helpers.c:193-198 | a one-hot write to ISENABLER0 sets the enable bit |
| GicV3Helpers.GicrSetIcenabler0 | core/arch/arm/plat-sigma/drivers/gic/gicv3_helpers.c:213-218 | a one-hot write to ICENABLER0 clears the enable bit |
| GicV3Helpers.GicrSetIspendr0 | core/arch/arm/plat-sigma/drivers/gic/gicv3_helpers.c:224-228 | a one-hot write to ISPENDR0 sets the pending bit |
| GicV3Helpers.GicrSetIcpendr0 | core/arch/arm/plat-sigma/drivers/gic/gicv3_helpers.c:233-237 | a one-hot write to ICPENDR0 clears the pending bit |
| GicV3Helpers.GicrSetIpriorityr | core/arch/arm/plat-sigma/drivers/gic/gicv3_helpers.c:204-207 | a byte write sets the ID's priority to `pri & GIC_PRI_MASK` |
| GicV3Helpers.GicdReadIsenabler | core/arch/arm/plat-sigma/drivers/gic/gic_v3.c:130 | reads the ISENABLER word holding `id` |
| GicV3Helpers.GicdReadIgroupr | core/arch/arm/plat-sigma/drivers/gic/gic_v3.c:145 | reads the IGROUPR word holding `id` |
| GicV3Helpers.GicdWriteIgroupr | core/arch/arm/plat-sigma/drivers/gic/gic_v3.c:182 | replaces the IGROUPR word holding `id` |
| GicV3Helpers.GicdClrIgroupr | core/arch/arm/plat-sigma/drivers/gic/gic_v3.c:182 | clears the ID's group bit by read-modify-write |
| GicV3Helpers.GicdSetIsenabler | core/arch/arm/plat-sigma/drivers/gic/gic_v3.c:214 | a one-hot write to ISENABLER sets the enable bit |
| GicV3Helpers.GicdSetIcenabler | core/arch/arm/plat-sigma/drivers/gic/gic_v3.c:227 | a one-hot write to ICENABLER clears the enable bit |
| GicV3Helpers.GicdSetIspendr | core/arch/arm/plat-sigma/drivers/gic/gic_v3.c:240 | a one-hot write to ISPENDR sets the pending bit |
| GicV3Helpers.GicdSetIcpendr | core/arch/arm/plat-sigma/drivers/gic/gic_v3.c:252 | a one-hot write to ICPENDR clears the pending bit |
| GicV3Helpers.GicdSetIpriorityr | core/arch/arm/plat-sigma/drivers/gic/gic_v3.c:187-189 | a byte write sets the SPI's priority to `pri & GIC_PRI_MASK` |
| GicV3Helpers.GicdReadCtlr | core/arch/arm/plat-sigma/drivers/gic/gic_v3.c:199 | reads GICD_CTLR |
| GicV3Helpers.GicdSetCtlr | core/arch/arm/plat-sigma/drivers/gic/gic_v3.c:200 | ORs bits into GICD_CTLR, then waits for RWP |
| CntpsTimer.GetCtlEnable | core/arch/arm/plat-sigma/drivers/timer/cntps_timer.c:60-61 | the macro reads bit 0 of CNTPS_CTL |
| CntpsTimer.GetCtlImask | core/arch/arm/plat-sigma/drivers/timer/cntps_timer.c:62-63 | the macro reads bit 1 of CNTPS_CTL |
| CntpsTimer.GetCtlIstatus | core/arch/arm/plat-sigma/drivers/timer/cntps_timer.c:64-65 | the macro reads bit 2 of CNTPS_CTL |
| CntpsTimer.SetCtlEnable | core/arch/arm/plat-sigma/drivers/timer/cntps_timer.c:67 | ENABLE reads 1 afterwards and no other bit changes |
| CntpsTimer.SetCtlImask | core/arch/arm/plat-sigma/drivers/timer/cntps_timer.c:68 | IMASK reads 1 afterwards and no other bit changes |
| CntpsTimer.ClrCtlEnable | core/arch/arm/plat-sigma/drivers/timer/cntps_timer.c:70 | ENABLE reads 0 afterwards and no other bit changes |
| CntpsTimer.ClrCtlImask | core/arch/arm/plat-sigma/drivers/timer/cntps_timer.c:71 | IMASK reads 0 afterwards and no other bit changes |
| CntpsTimer.StartCtlValue | core/arch/arm/plat-sigma/drivers/timer/cntps_timer.c:91-100 | the control value start writes is 1: enabled with the interrupt unmasked |
| CntpsTimer.ReadCtl | core/arch/arm/plat-sigma/drivers/timer/cntps_timer.c:108 | a CTL read shows ENABLE and IMASK as written, with ISTATUS set exactly when enabled and the counter has reached CVAL |
| CntpsTimer.ReadCtlIgnoresIstatus | core/arch/arm/plat-sigma/drivers/timer/cntps_timer.c:148-153 | ISTATUS is read-only: restoring a word read back from CTL reads as the word first written |
| CntpsTimer.FiredTimerReadsIstatus | core/arch/arm/plat-sigma/drivers/timer/cntps_timer.c:137 | an enabled timer past its compare value reads back as 5, with ISTATUS |
| CntpsTimer.Deadline | core/arch/arm/plat-sigma/drivers/timer/cntps_timer.c:94-95 | the compare value is `cntpct + cntfrq / hz`, wrapping at most once modulo 2^64 |
| CntpsTimer.Low32 | core/arch/arm/plat-sigma/drivers/timer/cntps_timer.c:48 | the 32-bit CVAL accessor keeps a value below 2^32 and never increases one |
| CntpsTimer.DeadlineAhead | core/arch/arm/plat-sigma/drivers/timer/cntps_timer.c:94-96 | without truncation the deadline is `cntpct + cntfrq / hz`, never before now |
| CntpsTimer.TruncatedDeadlineBehind | core/arch/arm/plat-sigma/drivers/timer/cntps_timer.c:94-96 | at counter 2^32, 24 MHz and 2 Hz, the written CVAL is 12,000,000: in the past |
| CntpsTimer.TruncatedStartFiresAtOnce | core/arch/arm/plat-sigma/drivers/timer/cntps_timer.c:94-100 | once the counter passes 2^32, a timer just started through the 32-bit accessor already reads as fired |
| CntpsTimer.FullStartWaits | core/arch/arm/plat-sigma/drivers/timer/cntps_timer.c:94-100 | with the full 64-bit compare value, a timer just started has not fired |
| CntpsTimer.SavedContext | core/arch/arm/plat-sigma/drivers/timer/cntps_timer.c:133-143 | save stores CVAL and CTL, moves the residual to the old slot and takes the counter as the residual |
| CntpsTimer.RestoredContext | core/arch/arm/plat-sigma/drivers/timer/cntps_timer.c:148-161 | restore puts the old residual back exactly when the counter is beyond the saved one |
| CntpsTimer.SaveThenRestore | core/arch/arm/plat-sigma/drivers/timer/cntps_timer.c:133-161 | a failed suspend keeps the previous residual, a real reset keeps the saved counter; CVAL and CTL come back |
| CntpsTimer.ResidualLostOnSecondReset | core/arch/arm/plat-sigma/drivers/timer/cntps_timer.c:139-140 | after two counter resets the time reads 60 where 150 had already been reached |
| CntpsTimer.SavedContextKeepingResidual | core/arch/arm/plat-sigma/drivers/timer/cntps_timer.c:139-140 | the corrected save adds the counter to the residual, modulo 2^64 |
| CntpsTimer.RestoredContextKeepingResidual | core/arch/arm/plat-sigma/drivers/timer/cntps_timer.c:148-161 | the corrected restore puts the old residual back exactly when the counter is beyond the saved count; CVAL and CTL are kept |
| CntpsTimer.ResumeKeepsTime | core/arch/arm/plat-sigma/drivers/timer/cntps_timer.c:133-161 | with the corrected save, time after resume never goes back, and grows by the new count after a reset |
| CntpsTimer.Total | core/arch/arm/plat-sigma/drivers/timer/cntps_timer.c:174 | counter plus residual, wrapping at most once modulo 2^64, exact when the sum fits |
| CntpsTimer.SysTime | core/arch/arm/plat-sigma/drivers/timer/cntps_timer.c:167-178 | seconds is the total over the frequency, truncated to 32 bits; millis is at most the remainder |
| CntpsTimer.TimeOfTotal | core/arch/arm/plat-sigma/drivers/timer/cntps_timer.c:174-175 | seconds is the tick count over the frequency, truncated to 32 bits; millis is at most the remainder |
| CntpsTimer.MillisBelowOneSecond | core/arch/arm/plat-sigma/drivers/timer/cntps_timer.c:175 | for a frequency that is a multiple of 1000, millis is below 1000 |
| CntpsTimer.MillisOverflowOffKhz | core/arch/arm/plat-sigma/drivers/timer/cntps_timer.c:175 | for a frequency that is not a multiple of 1000, millis can reach 1998 |
| CntpsTimer.SysTimeMonotone | core/arch/arm/plat-sigma/drivers/timer/cntps_timer.c:167-178 | more ticks never give an earlier (seconds, millis) while seconds fits in 32 bits |
| CntpsTimer.SecondsNoWrap | core/arch/arm/plat-sigma/drivers/timer/cntps_timer.c:174-175 | while seconds fits in 32 bits, it is the exact quotient and millis the C expression |
| CntpsTimer.TotalsMonotone | core/arch/arm/plat-sigma/drivers/timer/cntps_timer.c:174-175 | quotient and millis are monotone in the tick count |
| CntpsTimer.CntpsTimer.constructor | core/arch/arm/plat-sigma/drivers/timer/cntps_timer.c:86 | every core's context and timer registers start at zero |
| CntpsTimer.CntpsTimer.Start | core/arch/arm/plat-sigma/drivers/timer/cntps_timer.c:89-101 | that core's CVAL gets the truncated deadline and CTL gets ENABLE |
| CntpsTimer.CntpsTimer.Handler | core/arch/arm/plat-sigma/drivers/timer/cntps_timer.c:106-119 | requires the CTL read (ReadCtl) to show ISTATUS; the timer is stopped and started again: CVAL gets the truncated deadline and CTL gets ENABLE |
| CntpsTimer.CntpsTimer.Stop | core/arch/arm/plat-sigma/drivers/timer/cntps_timer.c:124-128 | that core's CTL becomes 0, disabled |
| CntpsTimer.CntpsTimer.Save | core/arch/arm/plat-sigma/drivers/timer/cntps_timer.c:133-143 | that core's context becomes SavedContext of the CVAL read and the CTL read (ReadCtl, so ISTATUS included); the others are unchanged |
| CntpsTimer.CntpsTimer.Restore | core/arch/arm/plat-sigma/drivers/timer/cntps_timer.c:148-161 | CVAL and CTL come from the context, which becomes RestoredContext |
| CntpsTimer.CntpsTimer.GetSysTime | core/arch/arm/plat-sigma/drivers/timer/cntps_timer.c:167-178 | SUCCESS, with the time of counter plus residual |
| SdDef.AuxBootMasks | core/arch/arm/plat-sigma/union/include/sd_def.h:59-61 | the ID mask is the low 4 bits and the address mask its complement |
| SdDef.AuxBootAddr | core/arch/arm/plat-sigma/union/include/sd_def.h:65 | the address part has no ID bits |
| SdDef.AuxBootId | core/arch/arm/plat-sigma/union/include/sd_def.h:66 | the ID part is below 16 |
| SdDef.MkAuxBootVal | core/arch/arm/plat-sigma/union/include/sd_def.h:63-64 | the packed value's fields are the masked entry point and ID |
| SdDef.AuxBootRoundTrip | core/arch/arm/plat-sigma/union/include/sd_def.h:63-66 | a 16-aligned entry point and an ID below 16 unpack to themselves |
| SdDef.AuxBootFieldsSplit | core/arch/arm/plat-sigma/union/include/sd_def.h:63-66 | every word is the disjoint union of its fields, and repacking them gives it back |
| SdDef.RegionOf | core/arch/arm/plat-sigma/union/include/sd_def.h:92-108 | a DRAM address lies in low non-secure, secure or high non-secure memory, both ways |
| SdDef.DramPartition | core/arch/arm/plat-sigma/union/include/sd_def.h:92-108 | the three regions cover DRAM exactly and are pairwise disjoint |
| SdDef.SecureLayout | core/arch/arm/plat-sigma/union/include/sd_def.h:96-121 | ATF then TEE fill secure DRAM from its base; shared memory sits just below it, in non-secure DRAM |
| SdDef.SecureInterruptIds | core/arch/arm/plat-sigma/union/include/sd_def.h:155-164 | the secure SGIs 8-15 go to ICC_SGI1R_EL1; the secure timer ID 29 is a per-core PPI |
| Rng.BytesMakeWord | core/arch/arm/plat-sigma/drivers/rng/rng.c:41-44 | the four little-endian bytes of the union rebuild the word |
| Rng.Step | core/arch/arm/plat-sigma/drivers/rng/rng.c:49-66 | refill at cursor 0, return the byte under the cursor, advance it modulo 4 |
| Rng.FourCallsOneWord | core/arch/arm/plat-sigma/drivers/rng/rng.c:49-66 | four calls from cursor 0 return the four bytes of one hardware word, reading the hardware once |
| Rng.RngDriver.constructor | core/arch/arm/plat-sigma/drivers/rng/rng.c:45 | the cursor starts at 0 |
| Rng.RngDriver.GetRandomByte | core/arch/arm/plat-sigma/drivers/rng/rng.c:49-66 | the state and byte are Step's; the hardware is read exactly when the cursor was 0 |
| Firmware.Registered | core/arch/arm/plat-sigma/drivers/fw/firmware.c:48-56 | registration succeeds exactly when no driver is installed; otherwise GENERIC and nothing changes |
| Firmware.FuseReadVia | core/arch/arm/plat-sigma/drivers/fw/firmware.c:58-61 | fw_fuse_read forwards to the installed driver's fuse_read; with none, NOT_SUPPORTED and the cells untouched |
| Firmware.FuseWriteVia | core/arch/arm/plat-sigma/drivers/fw/firmware.c:63-66 | fw_fuse_write forwards to the installed driver's fuse_write; with none, NOT_SUPPORTED and the size untouched |
| Firmware.GetMemStateVia | core/arch/arm/plat-sigma/drivers/fw/firmware.c:68-71 | fw_get_mem_state forwards to the installed driver's get_mem_state; with none, NOT_SUPPORTED and the state untouched |
| Firmware.NoDriverNotSupported | core/arch/arm/plat-sigma/drivers/fw/firmware.c:39-40 | with no driver, or no such operation, each entry point answers NOT_SUPPORTED and leaves its outputs |
| Firmware.FirstDriverServes | core/arch/arm/plat-sigma/drivers/fw/firmware.c:48-71 | a second registration fails and the first driver keeps serving all three operations |
| Firmware.FwRegistry.constructor | core/arch/arm/plat-sigma/drivers/fw/firmware.c:45 | no driver is installed at start |
| Firmware.FwRegistry.RegisterDrv | core/arch/arm/plat-sigma/drivers/fw/firmware.c:48-56 | the registry and result are Registered's |
| SipSvc.ULong | core/arch/arm/plat-sigma/drivers/fw/sip_svc.c:62-65 | an `int` passed in an unsigned long register keeps its value mod 2^64 |
| SipSvc.AsInt | core/arch/arm/plat-sigma/drivers/fw/sip_svc.c:76 | a register read as `int` is congruent to it mod 2^32 and within int range |
| SipSvc.IntRegisterRoundTrip | core/arch/arm/plat-sigma/drivers/fw/sip_svc.c:76 | an `int` status sent through a register reads back unchanged |
| SipSvc.Low32 | core/arch/arm/plat-sigma/drivers/fw/sip_svc.c:108-109 | storing a register in a `uint32_t` keeps values below 2^32 |
| SipSvc.SipToOpteeRet | core/arch/arm/plat-sigma/drivers/fw/sip_svc.c:76-94 | each SiP status maps to its TEE result and back; anything else is GENERIC |
| SipSvc.CallInvoke | core/arch/arm/plat-sigma/drivers/fw/sip_svc.c:57-60 | with no invoke function the result keeps its NOT_SUPPORTED initial value |
| SipSvc.FuseReadArgs | core/arch/arm/plat-sigma/drivers/fw/sip_svc.c:103-104 | function ID, offset, the physical address as a high/low pair, size, zero padding |
| SipSvc.FuseWriteArgs | core/arch/arm/plat-sigma/drivers/fw/sip_svc.c:122-123 | as the read, with the protection word in a5 |
| SipSvc.MemStateArgs | core/arch/arm/plat-sigma/drivers/fw/sip_svc.c:136-137 | function ID, the address as a pair, length, zero padding |
| SipSvc.SipFuseRead | core/arch/arm/plat-sigma/drivers/fw/sip_svc.c:96-113 | NULL size is BAD_PARAMETERS; otherwise the translated status, with size and prot written back only on success |
| SipSvc.SipFuseWrite | core/arch/arm/plat-sigma/drivers/fw/sip_svc.c:115-130 | NULL size is BAD_PARAMETERS; otherwise the translated status, with size written back only on success |
| SipSvc.SipGetMemState | core/arch/arm/plat-sigma/drivers/fw/sip_svc.c:132-144 | the translated status, with the state written back only on success and a non-NULL pointer |
| SipSvc.NoMonitorNotSupported | core/arch/arm/plat-sigma/drivers/fw/sip_svc.c:98 | before init every operation answers NOT_SUPPORTED and writes nothing back |
| SipSvc.StatusDecidesWriteBack | core/arch/arm/plat-sigma/drivers/fw/sip_svc.c:115-130 | the monitor's status alone decides the result and whether the size is written back |
| SipSvc.StatusDecidesReadBack | core/arch/arm/plat-sigma/drivers/fw/sip_svc.c:96-113 | for a sign-extended status, size and protection are written back exactly when the result is SUCCESS |
| SipSvc.StatusDecidesMemStateBack | core/arch/arm/plat-sigma/drivers/fw/sip_svc.c:132-144 | for a sign-extended status, the state is written back exactly when the result is SUCCESS and a cell was given |
| SipSvc.SipFwOps | core/arch/arm/plat-sigma/drivers/fw/sip_svc.c:146-149 | the driver provides all three operations |
| SipSvc.UidIsSdApi | core/arch/arm/plat-sigma/drivers/fw/sip_svc.c:151-161 | the UID query returns the four Sigma Designs UID words; InitSucceedsExactly states its role |
| SipSvc.RevisionIsCompatible | core/arch/arm/plat-sigma/drivers/fw/sip_svc.c:163-172 | the revision query returns the same major and at least the minor revision; IncompatibleRevisionRejected states its role |
| SipSvc.InitOutcome | core/arch/arm/plat-sigma/drivers/fw/sip_svc.c:174-193 | a wrong UID or revision gives BAD_STATE, no invoke function and the registry unchanged; otherwise the monitor is kept and the driver registered |
| SipSvc.InitSucceedsExactly | core/arch/arm/plat-sigma/drivers/fw/sip_svc.c:174-193 | init succeeds exactly when the UID and revision match and no driver was registered; the SiP operations are then installed |
| SipSvc.IncompatibleRevisionRejected | core/arch/arm/plat-sigma/drivers/fw/sip_svc.c:163-172 | another major revision or an older minor one is refused with BAD_STATE whatever the UID, and nothing is registered |
| SipSvc.SipDriver.constructor | core/arch/arm/plat-sigma/drivers/fw/sip_svc.c:74 | no invoke function at start |
| SipSvc.SipDriver.Init | core/arch/arm/plat-sigma/drivers/fw/sip_svc.c:174-193 | the invoke function, registry and result afterwards are InitOutcome's |
| SipSvc.InitialisedRegistryUsesMonitor | core/arch/arm/plat-sigma/drivers/fw/sip_svc.c:174-193 | after init into an empty registry, the generic fuse write is the SiP fuse write |
| TeeTypes.ParamTypes | core/arch/arm/plat-sigma/libuteex/tee_api_ext.c:124-127 | the packed word gives back each slot's type in its own nibble |
| TeeTypes.ParamTypesInjective | core/arch/arm/plat-sigma/pta/svcx/svcx_internal.h:42-46 | two type words are equal exactly when all four slot types are |
| TeeTypes.WithValue | core/arch/arm/plat-sigma/libuteex/tee_api_ext.c:129-132 | writing a value slot sets `a` and `b`, keeps its memref fields and leaves other slots alone |
| TeeTypes.RegPairTo64 | core/arch/arm/plat-sigma/libuteex/tee_api_ext.c:42-45 | the high register is the upper 32 bits and the low register the lower |
| TeeTypes.RegPairFrom64 | core/arch/arm/plat-sigma/libuteex/tee_api_ext.c:48-53 | splitting then joining a 64-bit value gives it back |
| TeeTypes.RegPairRoundTrip | core/arch/arm/plat-sigma/libuteex/tee_api_ext.c:42-53 | joining then splitting a register pair gives it back |
| SvcxInternal.HandlerTypesDistinct | core/arch/arm/plat-sigma/pta/svcx/svcx_internal.h:42-46 | the four handlers' expected type words are pairwise different |
| SvcxInternal.WithPair | core/arch/arm/plat-sigma/pta/svcx/svcx_mmap.c:129 | slot 0's value pair encodes the 64-bit value; everything else is unchanged |
| SvcxMmap.XflagsToAttr | core/arch/arm/plat-sigma/pta/svcx/svcx_mmap.c:40-59 | xflags_to_attr: the MMU attribute word for the prot and attr flags; its bits are stated by XflagsToAttrBits |
| SvcxMmap.XflagsToAttrBits | core/arch/arm/plat-sigma/pta/svcx/svcx_mmap.c:40-59 | always valid and privileged read/write; each user flag sets exactly its MMU bits; nothing else |
| SvcxMmap.XflagsIgnoresUnknownBits | core/arch/arm/plat-sigma/pta/svcx/svcx_mmap.c:40-59 | unknown flag bits make no difference |
| SvcxMmap.XflagsMonotone | core/arch/arm/plat-sigma/pta/svcx/svcx_mmap.c:40-59 | more flags give a superset of MMU bits |
| SvcxMmap.NonCacheAddsNothing | core/arch/arm/plat-sigma/pta/svcx/svcx_mmap.c:40-59 | the non-cached attribute sets no cache, global or secure bit |
| SvcxMmap.CheckUmap | core/arch/arm/plat-sigma/pta/svcx/svcx_mmap.c:61-73 | SUCCESS exactly for multipurpose memory, else SECURITY |
| SvcxMmap.MapOutcome | core/arch/arm/plat-sigma/pta/svcx/svcx_mmap.c:81-131 | gates in order (types, identity, TA login, range, session); success exactly when all pass and the MMU maps; only then is the va written back |
| SvcxMmap.MapGatesGuardMmu | core/arch/arm/plat-sigma/pta/svcx/svcx_mmap.c:91-119 | a request refused by a gate has the same outcome whatever the MMU would do |
| SvcxMmap.UnmapResult | core/arch/arm/plat-sigma/pta/svcx/svcx_mmap.c:137-170 | gates in order (types, identity, TA login, session), then the MMU's unmap result |
| SvcxMmap.UnmapHasNoRangeCheck | core/arch/arm/plat-sigma/pta/svcx/svcx_mmap.c:137-170 | unmapping never consults the multipurpose-memory check |
| SvcxMmap.Map | core/arch/arm/plat-sigma/pta/svcx/svcx_mmap.c:81-131 | result and parameters afterwards are MapOutcome's |
| SvcxMmap.WritePair | core/arch/arm/plat-sigma/pta/svcx/svcx_mmap.c:129 | the parameters afterwards are WithPair's |
| SvcxOtp.OtpId2Ofs | core/arch/arm/plat-sigma/pta/svcx/svcx_otp.c:91-111 | an ID maps to the invalid offset exactly when it is beyond the RSA key |
| SvcxOtp.OtpId2OfsInjective | core/arch/arm/plat-sigma/pta/svcx/svcx_otp.c:91-111 | different keys have different fuse offsets |
| SvcxOtp.WithA0 | core/arch/arm/plat-sigma/pta/svcx/svcx_otp.c:150 | only slot 0's first value changes |
| SvcxOtp.OtpWriteOutcome | core/arch/arm/plat-sigma/pta/svcx/svcx_otp.c:113-166 | each gate's error in order; a debug test echoes the length; only the ULI TA reaches the fuses; the length is stored on success only |
| SvcxOtp.OnlyUliProgramsFuses | core/arch/arm/plat-sigma/pta/svcx/svcx_otp.c:155-160 | a request that does not reach the fuses has the same outcome whatever firmware is installed |
| SvcxOtp.ReleaseIgnoresTestFlag | core/arch/arm/plat-sigma/pta/svcx/svcx_otp.c:145-153 | in a release build the test flag changes neither result nor slot 0 |
| SvcxOtp.OtpWrite | core/arch/arm/plat-sigma/pta/svcx/svcx_otp.c:113-166 | result and parameters afterwards are OtpWriteOutcome's |
| SvcxMemstat.MemStateOutcome | core/arch/arm/plat-sigma/pta/svcx/svcx_memstat.c:43-74 | each gate's error in order; then the firmware's answer, stored in slot 0 on success only |
| SvcxMemstat.NonTaNeverQueriesFirmware | core/arch/arm/plat-sigma/pta/svcx/svcx_memstat.c:43-74 | a caller that is not a TA gets the same outcome whatever firmware is installed |
| SvcxMemstat.NoDriverQueryNotSupported | core/arch/arm/plat-sigma/pta/svcx/svcx_memstat.c:43-74 | with no firmware driver a TA's query is NOT_SUPPORTED, parameters untouched |
| SvcxMemstat.MemState | core/arch/arm/plat-sigma/pta/svcx/svcx_memstat.c:43-74 | result and parameters afterwards are MemStateOutcome's |
| PtaEntry.HelloWorld | core/arch/arm/plat-sigma/pta/svcx/pta_entry.c:41-47 | SUCCESS, parameters untouched |
| PtaEntry.CreateTa | core/arch/arm/plat-sigma/pta/svcx/pta_entry.c:52-56 | SUCCESS |
| PtaEntry.OpenSession | core/arch/arm/plat-sigma/pta/svcx/pta_entry.c:63-69 | SUCCESS |
| PtaEntry.InvokeOutcome | core/arch/arm/plat-sigma/pta/svcx/pta_entry.c:76-93 | HELLO, MMAP and MUNMAP go to their handlers; every other command is BAD_PARAMETERS, parameters untouched |
| PtaEntry.InvokeCommand | core/arch/arm/plat-sigma/pta/svcx/pta_entry.c:76-93 | result and parameters afterwards are InvokeOutcome's |
| PtaEntry.OtpWriteNeverDispatched | core/arch/arm/plat-sigma/pta/svcx/pta_entry.c:82-92 | an OTP_WRITE the handler would carry out is refused as BAD_PARAMETERS |
| PtaEntry.MemStateNeverDispatched | core/arch/arm/plat-sigma/pta/svcx/pta_entry.c:82-92 | a MEM_STATE query the handler would answer is refused as BAD_PARAMETERS |
| PtaEntry.InvokeOutcomeAll | core/arch/arm/plat-sigma/pta/svcx/pta_entry.c:76-93 | as InvokeOutcome, with OTP_WRITE and MEM_STATE sent to their handlers too |
| PtaEntry.InvokeCommandAll | core/arch/arm/plat-sigma/pta/svcx/pta_entry.c:76-93 | result and parameters afterwards are InvokeOutcomeAll's |
| PtaEntry.LibraryMatchesHandlers | core/arch/arm/plat-sigma/libuteex/include/pta_svcx.h:42-47 | the library's command IDs and type words are the ones the handlers expect |
| PtaEntry.PtaAnswers | core/arch/arm/plat-sigma/pta/svcx/pta_entry.c:76-93 | for four parameters, the reply the library sees is the dispatcher's result and slot 0, as written or corrected |
| PtaEntry.MmapEndToEnd | core/arch/arm/plat-sigma/libuteex/tee_api_ext.c:108-151 | a request the gates accept and the MMU maps returns the va the MMU chose |
| PtaEntry.OtpWriteEndToEnd | core/arch/arm/plat-sigma/libuteex/tee_api_ext.c:185-224 | as written, a key write the handler would perform fails with BAD_PARAMETERS; with dispatch corrected it succeeds |
| TeeApiExt.Transaction | core/arch/arm/plat-sigma/libuteex/tee_api_ext.c:116-139 | borrow the cached session; else open a temporary one, invoke, close; the result and slot 0 are the command's; a failed open returns its error without invoking and leaves slot 0 as sent |
| TeeApiExt.TransactionBalanced | core/arch/arm/plat-sigma/libuteex/tee_api_ext.c:116-139 | the cached session is never opened or closed; every open is matched by a close; at most one invocation |
| TeeApiExt.MmapRequest | core/arch/arm/plat-sigma/libuteex/tee_api_ext.c:124-132 | pa and len as register pairs, prot and attr in slot 2, slot 3 empty |
| TeeApiExt.MunmapRequest | core/arch/arm/plat-sigma/libuteex/tee_api_ext.c:167-173 | va and len as register pairs, slots 2 and 3 empty |
| TeeApiExt.OtpWriteRequest | core/arch/arm/plat-sigma/libuteex/tee_api_ext.c:203-212 | key ID and protection in slot 0, buffer and size in slot 1, test flag 0 |
| TeeApiExt.MemStateRequest | core/arch/arm/plat-sigma/libuteex/tee_api_ext.c:244-250 | pa and len as register pairs, slots 2 and 3 empty |
| TeeApiExt.TeeExt.constructor | core/arch/arm/plat-sigma/libuteex/tee_api_ext.c:39 | no cached session at start |
| TeeApiExt.TeeExt.ExtInit | core/arch/arm/plat-sigma/libuteex/tee_api_ext.c:81-90 | an open session is kept (SUCCESS); otherwise one is opened and cached only on success |
| TeeApiExt.TeeExt.ExtDeInit | core/arch/arm/plat-sigma/libuteex/tee_api_ext.c:95-98 | the cached session, if any, is closed and cleared |
| TeeApiExt.TeeExt.CloseSession | core/arch/arm/plat-sigma/libuteex/tee_api_ext.c:70-76 | a non-NULL handle is closed; the handle becomes NULL |
| TeeApiExt.TeeExt.Send | core/arch/arm/plat-sigma/libuteex/tee_api_ext.c:116-139 | result, slot 0 and session events are Transaction's on the cached session |
| TeeApiExt.TeeExt.Mmap | core/arch/arm/plat-sigma/libuteex/tee_api_ext.c:108-151 | returns the va from slot 0 on success, else NULL; `*err` gets the result when given; on a 32-bit TA the `uintptr_t` cast keeps only the low word of the pair, on a 64-bit TA all of it |
| TeeApiExt.UintPtr | core/arch/arm/plat-sigma/libuteex/tee_api_ext.c:146 | the `(uintptr_t)` cast keeps the low 32 bits, fits 32 bits on a 32-bit TA and is the identity on a 64-bit one |
| TeeApiExt.TeeExt.Munmap | core/arch/arm/plat-sigma/libuteex/tee_api_ext.c:153-183 | result and session events are Transaction's |
| TeeApiExt.TeeExt.OtpWrite | core/arch/arm/plat-sigma/libuteex/tee_api_ext.c:185-224 | NULL size is BAD_PARAMETERS with no session traffic; `*size` is updated on success only |
| TeeApiExt.TeeExt.MemState | core/arch/arm/plat-sigma/libuteex/tee_api_ext.c:226-263 | NULL pstate is BAD_PARAMETERS with no session traffic; `*pstate` is set on success only |

## Left out

- Locks (the RNG mutex), logging (`DMSG`, `EMSG`, `print_hex`) and the
  `CFG_TEE_STATS` counters have no effect on results and are not modelled.
- MMIO ordering, barriers other than the ISB recorded by `gic_eof_irq`,
  and `flush_dcache_range` in `cntps_timer_save` are not modelled.
  Register accesses are atomic steps on the controller state.
- `gic_dump_state` (logging only) is not modelled. `itr_handle` is not
  part of this model either: `gic_it_handle` only records that the
  handler ran.
- The GIC Distributor accessors (`gicd_set_isenabler`, `gicd_clr_igroupr`,
  `gicd_set_ipriorityr`, `gicd_write_irouter`, `gicd_read_ctlr`,
  `gicd_set_ctlr` and the rest) are defined in a common GIC file that is
  not part of this model. They follow the Redistributor accessors of
  `gicv3_helpers.c`, on the Distributor's register layout.
- Register offsets and masks come from unseen GIC headers and use the
  architectural GICv3 values. `get_core_pos()` is an explicit `core`
  parameter. The C `assert`s become preconditions, and `panic()` in the
  chip operations becomes a `panicked` result.
- Several constants come from headers that are not part of this model, so
  stand-in values are used:
  - the SiP status codes, function IDs, UID words and revision;
  - the fuse offsets of the keys;
  - the `TEE_MATTR_*` MMU bits (OP-TEE's values).
  The proofs rely only on their being distinct.
- `otp_fuse_write` (otp.c) only forwards to the firmware registry. The
  model calls the registry's fuse write directly.
- The secure monitor (`smccc_smc`) is a deterministic function of the
  argument registers. `virt_to_phys`, `turing_get_random`, `read_cntpct`
  and `read_cntfrq` are inputs.
- The `TEE_Param` union is kept as separate value and memref fields. A
  handler that reads one view after another wrote the other is therefore
  not modelled.
- `svcx_map` and `svcx_unmap` are modelled with the mapping API
  configured in. The build that maps both to `svcx_not_supported` is not
  modelled.
- `NDEBUG` is the `debugBuild` parameter of the fuse-write handler.
- `stale` stands for the uninitialised local `state` in `svcx_mem_state`.
- SvcxMemstat.MemStateOutcome, SipSvc.SipGetMemState: what
  `svcx_mem_state` stores on success when the firmware wrote nothing is
  `stale`, an arbitrary input, not a particular value.
- TeeApiExt.Transaction: `TEE_OpenTASession` is an input reply (result and
  handle). A failed open is assumed to leave the handle NULL, as the
  GlobalPlatform TEE Internal Core API specifies.
- The `ret_orig` origin codes of `TEE_OpenTASession` and
  `TEE_InvokeTACommand` are ignored. Both calls are inputs to the model:
  an open reply, and an invocation function.
- CntpsTimer.TimeOfTotal: `time->seconds` is modelled as truncated to 32
  bits. The 64-bit sum `cntpct + pct_res` is taken modulo 2^64.
- `cntps_timer_init` (registering and enabling the timer interrupt
  through the generic interrupt framework) and `cntps_timer_itr_cb` are
  not modelled. They only call `itr_add`, `itr_enable` and
  `cntps_timer_start`.
- The timer's ISTATUS bit is what the hardware reports on a CTL read. It is
  computed from the architectural condition (enabled and counter at or past
  CVAL) by `ReadCtl`; the interrupt line itself is not modelled. The save
  stores the CTL read, ISTATUS included, and the restore writes it back;
  the hardware ignores that bit on a write, which ReadCtlIgnoresIstatus
  states.
- CntpsTimer.TimeOfTotal, CntpsTimer.SysTime, CntpsTimer.CntpsTimer.GetSysTime:
  require a counter frequency of at least 1000 Hz. Below that the source
  computes `cntfrq / TEE_TIME_MILLIS_BASE` as 0 and divides by zero, which
  is undefined in C; the model does not give that case a value.
- `destroy_ta` and `close_session` of the pseudo-TA do nothing and are not
  modelled.

## Findings

| source | as written | input that shows it | evidently intended | confidence | as-written member | corrected member |
|---|---|---|---|---|---|---|
| core/arch/arm/plat-sigma/drivers/timer/cntps_timer.c:48 | CNTPS_CVAL_EL1 is accessed through 32-bit accessors, so the 64-bit deadline is truncated when written | counter 2^32, frequency 24 MHz, 2 Hz: CVAL 12,000,000 is already behind the counter and the timer fires at once, on every reprogramming | the 64-bit deadline `cntpct + cntfrq / hz` is written, never before now | not executed; medium (the accessor width is as written, its effect needs a counter beyond 2^32) | CntpsTimer.TruncatedDeadlineBehind | CntpsTimer.DeadlineAhead |
| core/arch/arm/plat-sigma/drivers/timer/cntps_timer.c:139-140 | save replaces the residual with the current counter, dropping the residual accumulated before | counter 100 at the first suspend, 50 at the second after a reset, 10 after resume: time reads 60 where 150 had been reached | the residual accumulates across resets, so time never goes back | not executed; medium | CntpsTimer.ResidualLostOnSecondReset | CntpsTimer.ResumeKeepsTime |
| core/arch/arm/plat-sigma/pta/svcx/pta_entry.c:82-92 | the dispatcher handles HELLO, MMAP and MUNMAP only, though the library sends OTP_WRITE (4) and MEM_STATE (5) | a well-formed `TEE_OtpWrite` from the ULI TA that the fuse handler would carry out is answered BAD_PARAMETERS | OTP_WRITE and MEM_STATE are dispatched to `svcx_otp_write` and `svcx_mem_state` | not executed; medium-low (the kernel header lacks MEM_STATE and `svcx_internal.h` declares neither handler, so they may be disabled on purpose) | PtaEntry.OtpWriteEndToEnd | PtaEntry.InvokeOutcomeAll |
