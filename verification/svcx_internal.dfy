/**
 * What the svcx pseudo-TA's handlers share: the command identifiers, the
 * parameter-type words each handler insists on, and the services of the
 * TEE core they consult.  Those services are inputs: the calling client's
 * identity, the memory-type query, whether a calling session exists, and
 * the user-mapping operations of the MMU layer.
 */
module SvcxInternal {
  import opened TeeTypes

  const PTA_SVCX_CMD_HELLO: U32 := 0
  const PTA_SVCX_CMD_SELF_TESTS: U32 := 1
  const PTA_SVCX_CMD_MMAP: U32 := 2
  const PTA_SVCX_CMD_MUNMAP: U32 := 3
  const PTA_SVCX_CMD_OTP_WRITE: U32 := 4
  // The pseudo-TA's own header stops here: it has no MEM_STATE identifier.

  /** svcx_map: value in/out (pa), value in (len), value in (prot, attr). */
  function MapTypes(): U32
  {
    ParamTypes(TEE_PARAM_TYPE_VALUE_INOUT, TEE_PARAM_TYPE_VALUE_INPUT, TEE_PARAM_TYPE_VALUE_INPUT, TEE_PARAM_TYPE_NONE)
  }

  /** svcx_unmap: value in (va), value in (len). */
  function UnmapTypes(): U32
  {
    ParamTypes(TEE_PARAM_TYPE_VALUE_INPUT, TEE_PARAM_TYPE_VALUE_INPUT, TEE_PARAM_TYPE_NONE, TEE_PARAM_TYPE_NONE)
  }

  /** svcx_otp_write: value in/out (id, prot), memref in (data), value in (test flag). */
  function OtpWriteTypes(): U32
  {
    ParamTypes(TEE_PARAM_TYPE_VALUE_INOUT, TEE_PARAM_TYPE_MEMREF_INPUT, TEE_PARAM_TYPE_VALUE_INPUT, TEE_PARAM_TYPE_NONE)
  }

  /** svcx_mem_state: value in/out (pa), value in (len). */
  function MemStateTypes(): U32
  {
    ParamTypes(TEE_PARAM_TYPE_VALUE_INOUT, TEE_PARAM_TYPE_VALUE_INPUT, TEE_PARAM_TYPE_NONE, TEE_PARAM_TYPE_NONE)
  }

  /** The four handlers expect four different type words, so no request passes two gates. */
  lemma HandlerTypesDistinct()
    ensures MapTypes() != UnmapTypes() && MapTypes() != OtpWriteTypes() && MapTypes() != MemStateTypes()
    ensures UnmapTypes() != OtpWriteTypes() && UnmapTypes() != MemStateTypes()
    ensures OtpWriteTypes() != MemStateTypes()
  {
    ParamTypesInjective(3, 1, 1, 0, 1, 1, 0, 0);
    ParamTypesInjective(3, 1, 1, 0, 3, 5, 1, 0);
    ParamTypesInjective(3, 1, 1, 0, 3, 1, 0, 0);
    ParamTypesInjective(1, 1, 0, 0, 3, 5, 1, 0);
    ParamTypesInjective(1, 1, 0, 0, 3, 1, 0, 0);
    ParamTypesInjective(3, 5, 1, 0, 3, 1, 0, 0);
  }

  /** What tee_mmu_umap_mmap reports: a result and, on success, the mapped address. */
  datatype MmapReply = MmapReply(res: TeeResult, va: U64)

  /** The TEE core services a handler consults, as they answer for this call. */
  datatype TaKernel = TaKernel(
    /** tee_ta_get_client_id */
    client: ClientIdReply,
    /** core_pbuf_is(CORE_MEM_MULTPURPOSE, pa, len) */
    multipurpose: (U64, U64) -> bool,
    /** tee_ta_get_calling_session() != NULL */
    hasCallingSession: bool,
    /** tee_mmu_umap_mmap(ctx, pa, len, mattr, &va) */
    umapMmap: (U64, U64, U32) -> MmapReply,
    /** tee_mmu_umap_munmap(ctx, va, len) */
    umapMunmap: (U64, U64) -> TeeResult)

  /** The value pair of slot 0 set to the two halves of `v`. */
  function WithPair(p: seq<TeeParam>, v: U64): (q: seq<TeeParam>)
    requires |p| == TEE_NUM_PARAMS
    ensures |q| == TEE_NUM_PARAMS && RegPairTo64(q[0].a, q[0].b) == v
    ensures q[0].buffer == p[0].buffer && q[0].size == p[0].size && q[1..] == p[1..]
  {
    var (hi, lo) := RegPairFrom64(v);
    p[0 := p[0].(a := hi, b := lo)]
  }
}
