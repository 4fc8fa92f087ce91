/**
 * The firmware driver that reaches the secure monitor through SiP (silicon
 * provider) SMC calls: it checks the monitor's SiP service UID and
 * revision, then registers fuse read, fuse write and memory-state query
 * operations that pass their arguments in registers and translate the
 * monitor's status code into a TEE result.
 *
 * The monitor is a function from the eight argument registers to the four
 * result registers; its replies therefore depend on the arguments only.
 * virt_to_phys is a function parameter as well.
 */
module SipSvc {
  import opened Wrappers
  import opened TeeTypes
  import opened Firmware

  // ===== Status codes of the SiP interface =====

  // These values are stand-ins: the header defining them is not part of
  // this model.  They are negative, as SMC Calling Convention status codes
  // are, and pairwise distinct.
  const SD_SIP_E_SUCCESS: int := 0
  const SD_SIP_E_NOT_SUPPORTED: int := -1
  const SD_SIP_E_INVALID_PARAM: int := -2
  const SD_SIP_E_INVALID_RANGE: int := -3
  const SD_SIP_E_PERMISSION_DENY: int := -4
  const SD_SIP_E_LOCK_FAIL: int := -5
  const SD_SIP_E_SMALL_BUFFER: int := -6

  predicate IsSipStatus(c: int)
  {
    c in {SD_SIP_E_SUCCESS, SD_SIP_E_NOT_SUPPORTED, SD_SIP_E_INVALID_PARAM, SD_SIP_E_INVALID_RANGE,
          SD_SIP_E_PERMISSION_DENY, SD_SIP_E_LOCK_FAIL, SD_SIP_E_SMALL_BUFFER}
  }

  // ===== Function identifiers =====

  /** SiP service call count, UID and revision queries (section 6 of the SMC Calling Convention). */
  const SIP_SVC_UID: U64 := 0x8200_FF01
  const SIP_SVC_VERSION: U64 := 0x8200_FF03

  // Stand-ins, pairwise distinct and distinct from the two queries above.
  const SD_SIP_FUNC_C_OTP_READ: U64 := 0x8200_0001
  const SD_SIP_FUNC_S_OTP_WRITE: U64 := 0x8200_0002
  const SD_SIP_FUNC_C_MEM_STATE: U64 := 0x8200_0003

  // Stand-ins for the expected UID words and interface revision.
  const SD_SIP_UID_0: U64 := 0x5344_5349
  const SD_SIP_UID_1: U64 := 0x5053_4943
  const SD_SIP_UID_2: U64 := 0x4f50_5445
  const SD_SIP_UID_3: U64 := 0x4520_2020
  const SD_SIP_SVC_VERSION_MAJOR: U64 := 0
  const SD_SIP_SVC_VERSION_MINOR: U64 := 1

  // ===== Registers and conversions =====

  /** The eight argument registers of an SMC. */
  datatype SmcArgs = SmcArgs(a0: U64, a1: U64, a2: U64, a3: U64, a4: U64, a5: U64, a6: U64, a7: U64)

  /** struct smccc_res */
  datatype SmcRes = SmcRes(a0: U64, a1: U64, a2: U64, a3: U64)

  /** smccc_smc, or any function of the same type. */
  type SmcFn = SmcArgs -> SmcRes

  const INT_MIN: int := -0x8000_0000
  const INT_MAX: int := 0x7FFF_FFFF

  /** An int stored into an unsigned long register (two's complement). */
  function ULong(c: int): (x: U64)
    requires INT_MIN <= c <= INT_MAX
    ensures c >= 0 ==> x == c
    ensures c < 0 ==> x == TWO_64 + c
  {
    if c >= 0 then c else TWO_64 + c
  }

  /** An unsigned long register read as int: its low 32 bits, two's complement. */
  function AsInt(x: U64): (c: int)
    ensures INT_MIN <= c <= INT_MAX
    ensures (c - x) % TWO_32 == 0
  {
    var low := x % TWO_32;
    if low <= INT_MAX then low else low - TWO_32
  }

  /** Every int comes back unchanged from a round trip through a register. */
  lemma IntRegisterRoundTrip(c: int)
    requires INT_MIN <= c <= INT_MAX
    ensures AsInt(ULong(c)) == c
  {
    if c < 0 {
      var x := ULong(c);
      assert x == (TWO_64 - TWO_32) + (TWO_32 + c);
      assert x % TWO_32 == TWO_32 + c;
    }
  }

  /** The low 32 bits of a register stored into a uint32_t. */
  function Low32(x: U64): (w: U32)
    ensures x < TWO_32 ==> w == x
  {
    x % TWO_32
  }

  /** sip_to_optee_ret: each known status has its own TEE result, the rest map to GENERIC. */
  function SipToOpteeRet(sret: int): (r: TeeResult)
    ensures r == TEE_SUCCESS <==> sret == SD_SIP_E_SUCCESS
    ensures r == TEE_ERROR_BAD_PARAMETERS <==> sret == SD_SIP_E_INVALID_PARAM
    ensures r == TEE_ERROR_NOT_SUPPORTED <==> sret == SD_SIP_E_NOT_SUPPORTED
    ensures r == TEE_ERROR_SECURITY <==> sret == SD_SIP_E_INVALID_RANGE
    ensures r == TEE_ERROR_ACCESS_DENIED <==> sret == SD_SIP_E_PERMISSION_DENY
    ensures r == TEE_ERROR_ACCESS_CONFLICT <==> sret == SD_SIP_E_LOCK_FAIL
    ensures r == TEE_ERROR_SHORT_BUFFER <==> sret == SD_SIP_E_SMALL_BUFFER
    ensures r == TEE_ERROR_GENERIC <==> !IsSipStatus(sret)
  {
    if sret == SD_SIP_E_SUCCESS then TEE_SUCCESS
    else if sret == SD_SIP_E_INVALID_PARAM then TEE_ERROR_BAD_PARAMETERS
    else if sret == SD_SIP_E_NOT_SUPPORTED then TEE_ERROR_NOT_SUPPORTED
    else if sret == SD_SIP_E_INVALID_RANGE then TEE_ERROR_SECURITY
    else if sret == SD_SIP_E_PERMISSION_DENY then TEE_ERROR_ACCESS_DENIED
    else if sret == SD_SIP_E_LOCK_FAIL then TEE_ERROR_ACCESS_CONFLICT
    else if sret == SD_SIP_E_SMALL_BUFFER then TEE_ERROR_SHORT_BUFFER
    else TEE_ERROR_GENERIC
  }

  /** The result registers' initial contents: a0 holds NOT_SUPPORTED, the rest 0. */
  const NOT_SUPPORTED_RES: SmcRes := SmcRes(ULong(SD_SIP_E_NOT_SUPPORTED), 0, 0, 0)

  /** call_invoke_fn: the call is made only when an invoke function is set. */
  function CallInvoke(invoke: Option<SmcFn>, args: SmcArgs): (r: SmcRes)
    ensures invoke.None? ==> r == NOT_SUPPORTED_RES
  {
    if invoke.Some? then invoke.value(args) else NOT_SUPPORTED_RES
  }

  /** Whether the monitor reported success; the test is on the whole register. */
  predicate SipOk(r: SmcRes)
  {
    r.a0 == ULong(SD_SIP_E_SUCCESS)
  }

  /** The physical address handed to the monitor for buffer `va`, 0 for NULL. */
  function PhysOf(v2p: nat -> U64, va: nat): U64
  {
    if va != 0 then v2p(va) else 0
  }

  /** The registers of the fuse-read call: offset, buffer address as a pair, size. */
  function FuseReadArgs(ofs: U64, pa: U64, size: U32): (a: SmcArgs)
    ensures a.a0 == SD_SIP_FUNC_C_OTP_READ && a.a1 == ofs && a.a2 < TWO_32 && a.a3 < TWO_32 && RegPairTo64(a.a2, a.a3) == pa && a.a4 == size
    ensures a.a5 == 0 && a.a6 == 0 && a.a7 == 0
  {
    var (high, low) := RegPairFrom64(pa);
    SmcArgs(SD_SIP_FUNC_C_OTP_READ, ofs, high, low, size, 0, 0, 0)
  }

  /** The registers of the fuse-write call: offset, buffer address as a pair, size, protection. */
  function FuseWriteArgs(ofs: U64, pa: U64, size: U32, prot: U32): (a: SmcArgs)
    ensures a.a0 == SD_SIP_FUNC_S_OTP_WRITE && a.a1 == ofs && a.a2 < TWO_32 && a.a3 < TWO_32 && RegPairTo64(a.a2, a.a3) == pa && a.a4 == size
    ensures a.a5 == prot && a.a6 == 0 && a.a7 == 0
  {
    var (high, low) := RegPairFrom64(pa);
    SmcArgs(SD_SIP_FUNC_S_OTP_WRITE, ofs, high, low, size, prot, 0, 0)
  }

  /** The registers of the memory-state call: range start as a pair, length. */
  function MemStateArgs(pa: U64, len: U64): (a: SmcArgs)
    ensures a.a0 == SD_SIP_FUNC_C_MEM_STATE && a.a1 < TWO_32 && a.a2 < TWO_32 && RegPairTo64(a.a1, a.a2) == pa && a.a3 == len
    ensures a.a4 == 0 && a.a5 == 0 && a.a6 == 0 && a.a7 == 0
  {
    var (high, low) := RegPairFrom64(pa);
    SmcArgs(SD_SIP_FUNC_C_MEM_STATE, high, low, len, 0, 0, 0, 0)
  }

  /**
   * sip_fuse_read: a NULL size is refused; otherwise the monitor is asked,
   * and on success the protection word (when wanted) and the size are
   * taken from a1 and a2.  The result is the monitor's status translated.
   */
  function SipFuseRead(invoke: Option<SmcFn>, v2p: nat -> U64, ofs: U64, va: nat, size: Option<U32>,
                       pprot: Option<U32>): (o: FuseReadOut)
    ensures size.None? ==> o == FuseReadOut(TEE_ERROR_BAD_PARAMETERS, size, pprot)
    ensures size.Some? ==>
      var r := CallInvoke(invoke, FuseReadArgs(ofs, PhysOf(v2p, va), size.value));
      o.res == SipToOpteeRet(AsInt(r.a0))
      && o.size == (if SipOk(r) then Some(Low32(r.a2)) else size)
      && o.prot == (if SipOk(r) && pprot.Some? then Some(Low32(r.a1)) else pprot)
  {
    if size.None? then FuseReadOut(TEE_ERROR_BAD_PARAMETERS, size, pprot)
    else
      var r := CallInvoke(invoke, FuseReadArgs(ofs, PhysOf(v2p, va), size.value));
      if SipOk(r) then
        FuseReadOut(SipToOpteeRet(AsInt(r.a0)), Some(Low32(r.a2)), if pprot.Some? then Some(Low32(r.a1)) else None)
      else FuseReadOut(SipToOpteeRet(AsInt(r.a0)), size, pprot)
  }

  /** sip_fuse_write: a NULL size is refused; on success the size written is taken from a1. */
  function SipFuseWrite(invoke: Option<SmcFn>, v2p: nat -> U64, ofs: U64, va: nat, size: Option<U32>,
                        prot: U32): (o: FuseWriteOut)
    ensures size.None? ==> o == FuseWriteOut(TEE_ERROR_BAD_PARAMETERS, size)
    ensures size.Some? ==>
      var r := CallInvoke(invoke, FuseWriteArgs(ofs, PhysOf(v2p, va), size.value, prot));
      o.res == SipToOpteeRet(AsInt(r.a0)) && o.size == (if SipOk(r) then Some(Low32(r.a1)) else size)
  {
    if size.None? then FuseWriteOut(TEE_ERROR_BAD_PARAMETERS, size)
    else
      var r := CallInvoke(invoke, FuseWriteArgs(ofs, PhysOf(v2p, va), size.value, prot));
      FuseWriteOut(SipToOpteeRet(AsInt(r.a0)), if SipOk(r) then Some(Low32(r.a1)) else size)
  }

  /** sip_get_mem_state: on success the state (when wanted) is taken from a1. */
  function SipGetMemState(invoke: Option<SmcFn>, pa: U64, len: U64, pstate: Option<U32>): (o: MemStateOut)
    ensures var r := CallInvoke(invoke, MemStateArgs(pa, len));
      o.res == SipToOpteeRet(AsInt(r.a0))
      && o.state == (if SipOk(r) && pstate.Some? then Some(Low32(r.a1)) else pstate)
  {
    var r := CallInvoke(invoke, MemStateArgs(pa, len));
    MemStateOut(SipToOpteeRet(AsInt(r.a0)), if SipOk(r) && pstate.Some? then Some(Low32(r.a1)) else pstate)
  }

  /**
   * Without an invoke function the three operations answer NOT_SUPPORTED
   * (once the size pointer has been checked) and write nothing back.
   */
  lemma NoMonitorNotSupported(v2p: nat -> U64, ofs: U64, va: nat, size: U32, pprot: Option<U32>, prot: U32, len: U64)
    ensures SipFuseRead(None, v2p, ofs, va, Some(size), pprot) == FuseReadOut(TEE_ERROR_NOT_SUPPORTED, Some(size), pprot)
    ensures SipFuseWrite(None, v2p, ofs, va, Some(size), prot) == FuseWriteOut(TEE_ERROR_NOT_SUPPORTED, Some(size))
    ensures SipGetMemState(None, ofs, len, pprot) == MemStateOut(TEE_ERROR_NOT_SUPPORTED, pprot)
  {
    IntRegisterRoundTrip(SD_SIP_E_NOT_SUPPORTED);
  }

  /**
   * When the monitor answers with a sign-extended int (as every SiP status
   * is), the caller's cells are written back exactly when the result is
   * SUCCESS, and the result is the translation of that status.
   */
  lemma StatusDecidesWriteBack(invoke: SmcFn, v2p: nat -> U64, ofs: U64, va: nat, size: U32, prot: U32, sret: int)
    requires INT_MIN <= sret <= INT_MAX
    requires invoke(FuseWriteArgs(ofs, PhysOf(v2p, va), size, prot)).a0 == ULong(sret)
    ensures var o := SipFuseWrite(Some(invoke), v2p, ofs, va, Some(size), prot);
      o.res == SipToOpteeRet(sret)
      && (o.res == TEE_SUCCESS ==> o.size == Some(Low32(invoke(FuseWriteArgs(ofs, PhysOf(v2p, va), size, prot)).a1)))
      && (o.res != TEE_SUCCESS ==> o.size == Some(size))
  {
    IntRegisterRoundTrip(sret);
    var r := invoke(FuseWriteArgs(ofs, PhysOf(v2p, va), size, prot));
    if r.a0 == ULong(SD_SIP_E_SUCCESS) {
      IntRegisterRoundTrip(SD_SIP_E_SUCCESS);
    }
  }

  /**
   * The same for sip_fuse_read: the size and, when asked for, the
   * protection word are written back exactly when the result is SUCCESS.
   */
  lemma StatusDecidesReadBack(invoke: SmcFn, v2p: nat -> U64, ofs: U64, va: nat, size: U32, pprot: Option<U32>, sret: int)
    requires INT_MIN <= sret <= INT_MAX
    requires invoke(FuseReadArgs(ofs, PhysOf(v2p, va), size)).a0 == ULong(sret)
    ensures var o := SipFuseRead(Some(invoke), v2p, ofs, va, Some(size), pprot);
      var r := invoke(FuseReadArgs(ofs, PhysOf(v2p, va), size));
      o.res == SipToOpteeRet(sret)
      && (o.res == TEE_SUCCESS ==> o.size == Some(Low32(r.a2)) && o.prot == (if pprot.Some? then Some(Low32(r.a1)) else None))
      && (o.res != TEE_SUCCESS ==> o.size == Some(size) && o.prot == pprot)
  {
    IntRegisterRoundTrip(sret);
    var r := invoke(FuseReadArgs(ofs, PhysOf(v2p, va), size));
    if r.a0 == ULong(SD_SIP_E_SUCCESS) {
      IntRegisterRoundTrip(SD_SIP_E_SUCCESS);
    }
  }

  /**
   * The same for sip_get_mem_state: the state is written back exactly when
   * the result is SUCCESS and the caller passed a cell for it.
   */
  lemma StatusDecidesMemStateBack(invoke: SmcFn, pa: U64, len: U64, pstate: Option<U32>, sret: int)
    requires INT_MIN <= sret <= INT_MAX
    requires invoke(MemStateArgs(pa, len)).a0 == ULong(sret)
    ensures var o := SipGetMemState(Some(invoke), pa, len, pstate);
      o.res == SipToOpteeRet(sret)
      && (o.res == TEE_SUCCESS && pstate.Some? ==> o.state == Some(Low32(invoke(MemStateArgs(pa, len)).a1)))
      && (o.res != TEE_SUCCESS || pstate.None? ==> o.state == pstate)
  {
    IntRegisterRoundTrip(sret);
    var r := invoke(MemStateArgs(pa, len));
    if r.a0 == ULong(SD_SIP_E_SUCCESS) {
      IntRegisterRoundTrip(SD_SIP_E_SUCCESS);
    }
  }

  /**
   * The driver's operations as registered (FW_OPS "sd sip").  The C
   * operations read `sip_drv.invoke_fn` at every call; here they capture
   * the invoke function set just before registration.  The two agree
   * because nothing assigns `invoke_fn` after sip_svc_init registers the
   * driver, and a failed init registers nothing.
   */
  function SipFwOps(invoke: Option<SmcFn>, v2p: nat -> U64): (ops: SecureFwOps)
    ensures ops.fuseRead.Some? && ops.fuseWrite.Some? && ops.getMemState.Some?
  {
    SecureFwOps("sd sip",
      Some((ofs: U64, va: nat, size: Option<U32>, pprot: Option<U32>) => SipFuseRead(invoke, v2p, ofs, va, size, pprot)),
      Some((ofs: U64, va: nat, size: Option<U32>, prot: U32) => SipFuseWrite(invoke, v2p, ofs, va, size, prot)),
      Some((pa: U64, len: U64, pstate: Option<U32>) => SipGetMemState(invoke, pa, len, pstate)))
  }

  /** sip_api_uid_is_sd_api: all four UID words must match. */
  predicate UidIsSdApi(smc: SmcFn)
  {
    var r := smc(SmcArgs(SIP_SVC_UID, 0, 0, 0, 0, 0, 0, 0));
    r.a0 == SD_SIP_UID_0 && r.a1 == SD_SIP_UID_1 && r.a2 == SD_SIP_UID_2 && r.a3 == SD_SIP_UID_3
  }

  /** sip_api_revision_is_compatible: same major revision, at least the expected minor one. */
  predicate RevisionIsCompatible(smc: SmcFn)
  {
    var r := smc(SmcArgs(SIP_SVC_VERSION, 0, 0, 0, 0, 0, 0, 0));
    r.a0 == SD_SIP_SVC_VERSION_MAJOR && r.a1 >= SD_SIP_SVC_VERSION_MINOR
  }

  /**
   * sip_svc_init with `smc` standing for smccc_smc and `reg` the registry
   * contents: the invoke function left in sip_drv, the registry afterwards
   * and the result.  The UID is checked, then the revision; either failing
   * gives BAD_STATE with nothing registered.
   */
  function InitOutcome(reg: Option<SecureFwOps>, smc: SmcFn, v2p: nat -> U64)
    : (o: (Option<SmcFn>, Option<SecureFwOps>, TeeResult))
    ensures !UidIsSdApi(smc) || !RevisionIsCompatible(smc) ==> o.0.None? && o.1 == reg && o.2 == TEE_ERROR_BAD_STATE
    ensures UidIsSdApi(smc) && RevisionIsCompatible(smc) ==>
      o.0 == Some(smc) && (o.1, o.2) == Registered(reg, SipFwOps(Some(smc), v2p))
  {
    if !UidIsSdApi(smc) || !RevisionIsCompatible(smc) then (None, reg, TEE_ERROR_BAD_STATE)
    else
      var (reg', res) := Registered(reg, SipFwOps(Some(smc), v2p));
      (Some(smc), reg', res)
  }

  /**
   * Initialisation succeeds exactly when the monitor answers the SD SiP UID
   * and a compatible revision and no firmware driver was registered before;
   * only then is the monitor used.
   */
  lemma InitSucceedsExactly(reg: Option<SecureFwOps>, smc: SmcFn, v2p: nat -> U64)
    ensures InitOutcome(reg, smc, v2p).2 == TEE_SUCCESS <==> UidIsSdApi(smc) && RevisionIsCompatible(smc) && reg.None?
    ensures InitOutcome(reg, smc, v2p).2 == TEE_SUCCESS ==>
      InitOutcome(reg, smc, v2p).0 == Some(smc) && InitOutcome(reg, smc, v2p).1 == Some(SipFwOps(Some(smc), v2p))
  {
  }

  /**
   * A monitor reporting another major revision, or an older minor one, is
   * refused with BAD_STATE whatever UID it reports, and nothing is
   * registered.
   */
  lemma IncompatibleRevisionRejected(reg: Option<SecureFwOps>, smc: SmcFn, v2p: nat -> U64)
    requires var r := smc(SmcArgs(SIP_SVC_VERSION, 0, 0, 0, 0, 0, 0, 0));
      r.a0 != SD_SIP_SVC_VERSION_MAJOR || r.a1 < SD_SIP_SVC_VERSION_MINOR
    ensures InitOutcome(reg, smc, v2p) == (None, reg, TEE_ERROR_BAD_STATE)
  {
  }

  /** struct fw_sip_svc, the static sip_drv. */
  class SipDriver {
    var invokeFn: Option<SmcFn>

    constructor ()
      ensures invokeFn.None?
    {
      invokeFn := None;
    }

    /**
     * sip_svc_init with `smc` standing for smccc_smc: the invoke function is
     * cleared, the UID and then the revision are checked (BAD_STATE when
     * either fails), and only then is the invoke function set and the
     * driver registered, whose result is returned.
     */
    method Init(fw: FwRegistry, smc: SmcFn, v2p: nat -> U64) returns (res: TeeResult)
      modifies this, fw
      ensures (invokeFn, fw.secFwOps, res) == InitOutcome(old(fw.secFwOps), smc, v2p)
    {
      invokeFn := None;
      if !UidIsSdApi(smc) {
        return TEE_ERROR_BAD_STATE;
      }
      if !RevisionIsCompatible(smc) {
        return TEE_ERROR_BAD_STATE;
      }
      invokeFn := Some(smc);
      res := fw.RegisterDrv(SipFwOps(invokeFn, v2p));
    }
  }

  /**
   * After a successful initialisation into an empty registry, the generic
   * fuse-write entry point is the SiP fuse write over the monitor.
   */
  lemma InitialisedRegistryUsesMonitor(smc: SmcFn, v2p: nat -> U64, ofs: U64, va: nat, size: Option<U32>, prot: U32)
    ensures var (reg, res) := Registered(None, SipFwOps(Some(smc), v2p));
      res == TEE_SUCCESS
      && FuseWriteVia(reg, ofs, va, size, prot) == SipFuseWrite(Some(smc), v2p, ofs, va, size, prot)
  {
  }
}
