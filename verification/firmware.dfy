/**
 * The secure-firmware driver registry: one driver, a record of three
 * optional operations (read fuses, write fuses, query the access state of
 * a memory range), can be installed once; the three generic entry points
 * forward to the installed operation or answer "not supported".
 *
 * C out-pointers are `Option<U32>` arguments (None is a NULL pointer,
 * Some(v) a pointer to a cell holding v); a call returns the result code
 * together with the cells' contents afterwards.  A virtual address is a
 * `nat`, 0 standing for NULL.
 */
module Firmware {
  import opened Wrappers
  import opened TeeTypes

  datatype FuseReadOut = FuseReadOut(res: TeeResult, size: Option<U32>, prot: Option<U32>)
  datatype FuseWriteOut = FuseWriteOut(res: TeeResult, size: Option<U32>)
  datatype MemStateOut = MemStateOut(res: TeeResult, state: Option<U32>)

  /** fuse_read(ofs, va, size, pprot) */
  type FuseReadFn = (U64, nat, Option<U32>, Option<U32>) -> FuseReadOut
  /** fuse_write(ofs, va, size, prot) */
  type FuseWriteFn = (U64, nat, Option<U32>, U32) -> FuseWriteOut
  /** get_mem_state(pa, len, pstate) */
  type MemStateFn = (U64, U64, Option<U32>) -> MemStateOut

  /** struct secure_fw_ops; a missing operation is a NULL function pointer. */
  datatype SecureFwOps = SecureFwOps(
    name: string,
    fuseRead: Option<FuseReadFn>,
    fuseWrite: Option<FuseWriteFn>,
    getMemState: Option<MemStateFn>)

  /**
   * fw_register_drv on the registry contents `cur`: the first driver is
   * installed and SUCCESS returned; once one is installed every further
   * registration is refused with GENERIC and changes nothing.
   */
  function Registered(cur: Option<SecureFwOps>, ops: SecureFwOps): (r: (Option<SecureFwOps>, TeeResult))
    ensures r.1 == TEE_SUCCESS <==> cur.None?
    ensures r.1 != TEE_SUCCESS ==> r.1 == TEE_ERROR_GENERIC && r.0 == cur
    ensures r.1 == TEE_SUCCESS ==> r.0 == Some(ops)
  {
    if cur.None? then (Some(ops), TEE_SUCCESS) else (cur, TEE_ERROR_GENERIC)
  }

  /** fw_fuse_read with `installed` as the registry contents. */
  function FuseReadVia(installed: Option<SecureFwOps>, ofs: U64, va: nat, size: Option<U32>, pprot: Option<U32>): (o: FuseReadOut)
    ensures installed.Some? && installed.value.fuseRead.Some? ==> o == installed.value.fuseRead.value(ofs, va, size, pprot)
    ensures installed.None? || installed.value.fuseRead.None? ==> o == FuseReadOut(TEE_ERROR_NOT_SUPPORTED, size, pprot)
  {
    if installed.Some? && installed.value.fuseRead.Some? then installed.value.fuseRead.value(ofs, va, size, pprot)
    else FuseReadOut(TEE_ERROR_NOT_SUPPORTED, size, pprot)
  }

  /** fw_fuse_write with `installed` as the registry contents. */
  function FuseWriteVia(installed: Option<SecureFwOps>, ofs: U64, va: nat, size: Option<U32>, prot: U32): (o: FuseWriteOut)
    ensures installed.Some? && installed.value.fuseWrite.Some? ==> o == installed.value.fuseWrite.value(ofs, va, size, prot)
    ensures installed.None? || installed.value.fuseWrite.None? ==> o == FuseWriteOut(TEE_ERROR_NOT_SUPPORTED, size)
  {
    if installed.Some? && installed.value.fuseWrite.Some? then installed.value.fuseWrite.value(ofs, va, size, prot)
    else FuseWriteOut(TEE_ERROR_NOT_SUPPORTED, size)
  }

  /** fw_get_mem_state with `installed` as the registry contents. */
  function GetMemStateVia(installed: Option<SecureFwOps>, pa: U64, len: U64, pstate: Option<U32>): (o: MemStateOut)
    ensures installed.Some? && installed.value.getMemState.Some? ==> o == installed.value.getMemState.value(pa, len, pstate)
    ensures installed.None? || installed.value.getMemState.None? ==> o == MemStateOut(TEE_ERROR_NOT_SUPPORTED, pstate)
  {
    if installed.Some? && installed.value.getMemState.Some? then installed.value.getMemState.value(pa, len, pstate)
    else MemStateOut(TEE_ERROR_NOT_SUPPORTED, pstate)
  }

  /**
   * Without a driver, or with a driver lacking the operation, every entry
   * point answers NOT_SUPPORTED and leaves the caller's cells as they were.
   */
  lemma NoDriverNotSupported(installed: Option<SecureFwOps>, ofs: U64, va: nat, size: Option<U32>,
                             pprot: Option<U32>, prot: U32, len: U64)
    ensures installed.None? || installed.value.fuseRead.None? ==>
      FuseReadVia(installed, ofs, va, size, pprot) == FuseReadOut(TEE_ERROR_NOT_SUPPORTED, size, pprot)
    ensures installed.None? || installed.value.fuseWrite.None? ==>
      FuseWriteVia(installed, ofs, va, size, prot) == FuseWriteOut(TEE_ERROR_NOT_SUPPORTED, size)
    ensures installed.None? || installed.value.getMemState.None? ==>
      GetMemStateVia(installed, ofs, len, pprot) == MemStateOut(TEE_ERROR_NOT_SUPPORTED, pprot)
  {
  }

  /**
   * Registering `ops` into an empty registry makes the entry points forward
   * to its operations; registering anything afterwards leaves them
   * forwarding to `ops` still.
   */
  lemma FirstDriverServes(ops: SecureFwOps, other: SecureFwOps, ofs: U64, va: nat, size: Option<U32>,
                          pprot: Option<U32>, prot: U32, len: U64)
    ensures var (reg, _) := Registered(None, ops);
      var (reg2, res2) := Registered(reg, other);
      res2 == TEE_ERROR_GENERIC && reg2 == reg
      && (ops.fuseRead.Some? ==> FuseReadVia(reg2, ofs, va, size, pprot) == ops.fuseRead.value(ofs, va, size, pprot))
      && (ops.fuseWrite.Some? ==> FuseWriteVia(reg2, ofs, va, size, prot) == ops.fuseWrite.value(ofs, va, size, prot))
      && (ops.getMemState.Some? ==> GetMemStateVia(reg2, ofs, len, pprot) == ops.getMemState.value(ofs, len, pprot))
  {
  }

  /** The static sec_fw_ops pointer. */
  class FwRegistry {
    var secFwOps: Option<SecureFwOps>

    constructor ()
      ensures secFwOps.None?
    {
      secFwOps := None;
    }

    /** fw_register_drv */
    method RegisterDrv(ops: SecureFwOps) returns (res: TeeResult)
      modifies this
      ensures (secFwOps, res) == Registered(old(secFwOps), ops)
    {
      if secFwOps.None? {
        secFwOps := Some(ops);
        res := TEE_SUCCESS;
      } else {
        res := TEE_ERROR_GENERIC;
      }
    }
  }
}
