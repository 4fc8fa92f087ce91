/**
 * The user-mapping service of the svcx pseudo-TA: a trusted application
 * asks for a physical range to be mapped into (or removed from) its own
 * address space.  The request passes a fixed sequence of gates before the
 * MMU layer is asked, and the caller's protection and attribute flags are
 * translated into MMU attribute bits.
 */
module SvcxMmap {
  import opened TeeTypes
  import opened SvcxInternal

  // ===== Caller flags (the pseudo-TA's interface header) =====

  const TEE_MAP_PROT_READ: bv32 := 1 << 0
  const TEE_MAP_PROT_WRITE: bv32 := 1 << 1
  const TEE_MAP_PROT_EXEC: bv32 := 1 << 2

  const TEE_MAP_ATTR_NONCACHE: bv32 := 0
  const TEE_MAP_ATTR_CACHED: bv32 := 1 << 0
  const TEE_MAP_ATTR_GLOBAL: bv32 := 1 << 3
  const TEE_MAP_ATTR_SECURE: bv32 := 1 << 4

  // ===== MMU attribute bits =====

  // The header defining these is not part of this model; the values are
  // those of the OP-TEE MMU layer: single bits, with a 3-bit cache field
  // at bit 12.
  const TEE_MATTR_VALID_BLOCK: bv32 := 1 << 0
  const TEE_MATTR_PR: bv32 := 1 << 4
  const TEE_MATTR_PW: bv32 := 1 << 5
  const TEE_MATTR_PX: bv32 := 1 << 6
  const TEE_MATTR_UR: bv32 := 1 << 7
  const TEE_MATTR_UW: bv32 := 1 << 8
  const TEE_MATTR_UX: bv32 := 1 << 9
  const TEE_MATTR_GLOBAL: bv32 := 1 << 10
  const TEE_MATTR_SECURE: bv32 := 1 << 11
  const TEE_MATTR_CACHE_SHIFT: bv32 := 12
  const TEE_MATTR_CACHE_CACHED: bv32 := 1
  const TEE_MATTR_PRW: bv32 := TEE_MATTR_PR | TEE_MATTR_PW

  /** The cache field holding the "cached" memory type. */
  const MATTR_CACHED_FIELD: bv32 := TEE_MATTR_CACHE_CACHED << TEE_MATTR_CACHE_SHIFT

  /** Every bit the translation can produce. */
  const MATTR_PRODUCED: bv32 := TEE_MATTR_VALID_BLOCK | TEE_MATTR_PRW | TEE_MATTR_PX | TEE_MATTR_UR
    | TEE_MATTR_UW | TEE_MATTR_UX | TEE_MATTR_GLOBAL | TEE_MATTR_SECURE | MATTR_CACHED_FIELD

  const PROT_KNOWN: bv32 := TEE_MAP_PROT_READ | TEE_MAP_PROT_WRITE | TEE_MAP_PROT_EXEC
  const ATTR_KNOWN: bv32 := TEE_MAP_ATTR_CACHED | TEE_MAP_ATTR_GLOBAL | TEE_MAP_ATTR_SECURE

  /** Whether `flag` is set in `x`. */
  predicate Has(x: bv32, flag: bv32)
  {
    x & flag != 0
  }

  /** xflags_to_attr: the MMU attribute word for protection `prot` and attributes `attr`. */
  function XflagsToAttr(prot: bv32, attr: bv32): bv32
  {
    var m0 := TEE_MATTR_VALID_BLOCK | TEE_MATTR_PRW;
    var m1 := if Has(prot, TEE_MAP_PROT_READ) then m0 | TEE_MATTR_UR else m0;
    var m2 := if Has(prot, TEE_MAP_PROT_WRITE) then m1 | TEE_MATTR_UW else m1;
    var m3 := if Has(prot, TEE_MAP_PROT_EXEC) then m2 | (TEE_MATTR_PX | TEE_MATTR_UX) else m2;
    var m4 := if Has(attr, TEE_MAP_ATTR_CACHED) then m3 | MATTR_CACHED_FIELD else m3;
    var m5 := if Has(attr, TEE_MAP_ATTR_GLOBAL) then m4 | TEE_MATTR_GLOBAL else m4;
    if Has(attr, TEE_MAP_ATTR_SECURE) then m5 | TEE_MATTR_SECURE else m5
  }

  /**
   * The translation always gives a valid block that the kernel may read and
   * write; user read, user write and (kernel and user) execute follow the
   * protection flags, and the cache type, global and secure bits follow the
   * attribute flags.  Nothing else is ever set.
   */
  lemma XflagsToAttrBits(prot: bv32, attr: bv32)
    ensures var m := XflagsToAttr(prot, attr);
      m & (TEE_MATTR_VALID_BLOCK | TEE_MATTR_PRW) == TEE_MATTR_VALID_BLOCK | TEE_MATTR_PRW
      && (Has(m, TEE_MATTR_UR) <==> Has(prot, TEE_MAP_PROT_READ))
      && (Has(m, TEE_MATTR_UW) <==> Has(prot, TEE_MAP_PROT_WRITE))
      && (Has(m, TEE_MATTR_PX) <==> Has(prot, TEE_MAP_PROT_EXEC))
      && (Has(m, TEE_MATTR_UX) <==> Has(prot, TEE_MAP_PROT_EXEC))
      && (Has(m, MATTR_CACHED_FIELD) <==> Has(attr, TEE_MAP_ATTR_CACHED))
      && (Has(m, TEE_MATTR_GLOBAL) <==> Has(attr, TEE_MAP_ATTR_GLOBAL))
      && (Has(m, TEE_MATTR_SECURE) <==> Has(attr, TEE_MAP_ATTR_SECURE))
      && m & !MATTR_PRODUCED == 0
  {
  }

  /** Flags outside the known protection and attribute bits make no difference. */
  lemma XflagsIgnoresUnknownBits(prot: bv32, attr: bv32)
    ensures XflagsToAttr(prot, attr) == XflagsToAttr(prot & PROT_KNOWN, attr & ATTR_KNOWN)
  {
  }

  /** Asking for more flags never yields fewer attribute bits. */
  lemma XflagsMonotone(prot1: bv32, attr1: bv32, prot2: bv32, attr2: bv32)
    requires prot1 & prot2 == prot1 && attr1 & attr2 == attr1
    ensures XflagsToAttr(prot1, attr1) & XflagsToAttr(prot2, attr2) == XflagsToAttr(prot1, attr1)
  {
  }

  /** NONCACHE is the absence of CACHED: uncached memory gets no cache-type bits. */
  lemma NonCacheAddsNothing(prot: bv32)
    ensures XflagsToAttr(prot, TEE_MAP_ATTR_NONCACHE) & (MATTR_CACHED_FIELD | TEE_MATTR_GLOBAL | TEE_MATTR_SECURE) == 0
  {
  }

  /** tee_plat_check_umap: only multipurpose (external) RAM may be mapped. */
  function CheckUmap(k: TaKernel, pa: U64, len: U64): (res: TeeResult)
    ensures res == TEE_SUCCESS <==> k.multipurpose(pa, len)
    ensures res != TEE_SUCCESS ==> res == TEE_ERROR_SECURITY
  {
    if k.multipurpose(pa, len) then TEE_SUCCESS else TEE_ERROR_SECURITY
  }

  /** The range a request names: address in slot 0, length in slot 1, as register pairs. */
  function RequestPa(p: seq<TeeParam>): U64
    requires |p| == TEE_NUM_PARAMS
  {
    RegPairTo64(p[0].a, p[0].b)
  }

  function RequestLen(p: seq<TeeParam>): U64
    requires |p| == TEE_NUM_PARAMS
  {
    RegPairTo64(p[1].a, p[1].b)
  }

  /** The translated attributes as the 32-bit word handed to the MMU layer. */
  function MattrWord(prot: U32, attr: U32): U32
  {
    XflagsToAttr(prot as bv32, attr as bv32) as nat
  }

  /** The MMU attributes a map request asks for, from slot 2's (prot, attr). */
  function RequestMattr(p: seq<TeeParam>): U32
    requires |p| == TEE_NUM_PARAMS
  {
    MattrWord(p[2].a, p[2].b)
  }

  /** The caller is a trusted application whose identity could be established. */
  predicate CallerIsTa(k: TaKernel)
  {
    k.client.res == TEE_SUCCESS && k.client.id.login == TEE_LOGIN_TRUSTED_APP
  }

  /** Every gate of svcx_map lets the request through. */
  predicate MapGatesPass(paramTypes: U32, p: seq<TeeParam>, k: TaKernel)
    requires |p| == TEE_NUM_PARAMS
  {
    paramTypes == MapTypes() && CallerIsTa(k) && k.multipurpose(RequestPa(p), RequestLen(p)) && k.hasCallingSession
  }

  /**
   * svcx_map on parameters `p`: the result and the parameters afterwards.
   * The gates are checked in order — parameter types, client identity,
   * trusted-application login, multipurpose RAM, calling session — and the
   * first that fails decides the result; only when all pass is the MMU
   * asked, and only its success writes the mapped address into slot 0.
   */
  function MapOutcome(paramTypes: U32, p: seq<TeeParam>, k: TaKernel): (r: (TeeResult, seq<TeeParam>))
    requires |p| == TEE_NUM_PARAMS
    ensures paramTypes != MapTypes() ==> r == (TEE_ERROR_BAD_PARAMETERS, p)
    ensures paramTypes == MapTypes() && k.client.res != TEE_SUCCESS ==> r == (k.client.res, p)
    ensures paramTypes == MapTypes() && k.client.res == TEE_SUCCESS && k.client.id.login != TEE_LOGIN_TRUSTED_APP ==>
      r == (TEE_ERROR_NOT_SUPPORTED, p)
    ensures paramTypes == MapTypes() && CallerIsTa(k) && !k.multipurpose(RequestPa(p), RequestLen(p)) ==>
      r == (TEE_ERROR_SECURITY, p)
    ensures (paramTypes == MapTypes() && CallerIsTa(k) && k.multipurpose(RequestPa(p), RequestLen(p))
      && !k.hasCallingSession) ==> r == (TEE_ERROR_BAD_STATE, p)
    ensures MapGatesPass(paramTypes, p, k) ==>
      r.0 == k.umapMmap(RequestPa(p), RequestLen(p), RequestMattr(p)).res
    ensures r.0 == TEE_SUCCESS <==>
      MapGatesPass(paramTypes, p, k) && k.umapMmap(RequestPa(p), RequestLen(p), RequestMattr(p)).res == TEE_SUCCESS
    ensures r.0 == TEE_SUCCESS ==> r.1 == WithPair(p, k.umapMmap(RequestPa(p), RequestLen(p), RequestMattr(p)).va)
    ensures r.0 != TEE_SUCCESS ==> r.1 == p
  {
    if paramTypes != MapTypes() then (TEE_ERROR_BAD_PARAMETERS, p)
    else if k.client.res != TEE_SUCCESS then (k.client.res, p)
    else if k.client.id.login != TEE_LOGIN_TRUSTED_APP then (TEE_ERROR_NOT_SUPPORTED, p)
    else
      var check := CheckUmap(k, RequestPa(p), RequestLen(p));
      if check != TEE_SUCCESS then (check, p)
      else if !k.hasCallingSession then (TEE_ERROR_BAD_STATE, p)
      else
        var reply := k.umapMmap(RequestPa(p), RequestLen(p), RequestMattr(p));
        if reply.res != TEE_SUCCESS then (reply.res, p)
        else (TEE_SUCCESS, WithPair(p, reply.va))
  }

  /**
   * A request stopped at a gate never reaches the MMU: whatever the mapping
   * operation would have done, the outcome is the same.
   */
  lemma MapGatesGuardMmu(paramTypes: U32, p: seq<TeeParam>, k: TaKernel, other: (U64, U64, U32) -> MmapReply)
    requires |p| == TEE_NUM_PARAMS
    requires !MapGatesPass(paramTypes, p, k)
    ensures MapOutcome(paramTypes, p, k) == MapOutcome(paramTypes, p, k.(umapMmap := other))
  {
  }

  /**
   * svcx_unmap: the parameter-type, client, login and session gates of
   * svcx_map in the same order, without the range check, then the
   * unmapper's result.  The parameters are not written.
   */
  function UnmapResult(paramTypes: U32, p: seq<TeeParam>, k: TaKernel): (res: TeeResult)
    requires |p| == TEE_NUM_PARAMS
    ensures paramTypes != UnmapTypes() ==> res == TEE_ERROR_BAD_PARAMETERS
    ensures paramTypes == UnmapTypes() && k.client.res != TEE_SUCCESS ==> res == k.client.res
    ensures paramTypes == UnmapTypes() && k.client.res == TEE_SUCCESS && k.client.id.login != TEE_LOGIN_TRUSTED_APP ==>
      res == TEE_ERROR_NOT_SUPPORTED
    ensures paramTypes == UnmapTypes() && CallerIsTa(k) && !k.hasCallingSession ==> res == TEE_ERROR_BAD_STATE
    ensures paramTypes == UnmapTypes() && CallerIsTa(k) && k.hasCallingSession ==>
      res == k.umapMunmap(RequestPa(p), RequestLen(p))
  {
    if paramTypes != UnmapTypes() then TEE_ERROR_BAD_PARAMETERS
    else if k.client.res != TEE_SUCCESS then k.client.res
    else if k.client.id.login != TEE_LOGIN_TRUSTED_APP then TEE_ERROR_NOT_SUPPORTED
    else if !k.hasCallingSession then TEE_ERROR_BAD_STATE
    else k.umapMunmap(RequestPa(p), RequestLen(p))
  }

  /** Unmapping does not look at the memory type of the range. */
  lemma UnmapHasNoRangeCheck(paramTypes: U32, p: seq<TeeParam>, k: TaKernel, other: (U64, U64) -> bool)
    requires |p| == TEE_NUM_PARAMS
    ensures UnmapResult(paramTypes, p, k) == UnmapResult(paramTypes, p, k.(multipurpose := other))
  {
  }

  /** svcx_map, writing the mapped address into slot 0 in place. */
  method Map(paramTypes: U32, params: array<TeeParam>, k: TaKernel) returns (res: TeeResult)
    requires params.Length == TEE_NUM_PARAMS
    modifies params
    ensures (res, params[..]) == MapOutcome(paramTypes, old(params[..]), k)
  {
    if paramTypes != MapTypes() {
      return TEE_ERROR_BAD_PARAMETERS;
    }
    if k.client.res != TEE_SUCCESS {
      return k.client.res;
    }
    if k.client.id.login != TEE_LOGIN_TRUSTED_APP {
      return TEE_ERROR_NOT_SUPPORTED;
    }
    ghost var before := params[..];
    var pa := RegPairTo64(params[0].a, params[0].b);
    var len := RegPairTo64(params[1].a, params[1].b);
    var prot, attr := params[2].a, params[2].b;
    var mattr := MattrWord(prot, attr);
    assert pa == RequestPa(before) && len == RequestLen(before) && mattr == RequestMattr(before);
    res := CheckUmap(k, pa, len);
    if res != TEE_SUCCESS {
      return;
    }
    if !k.hasCallingSession {
      return TEE_ERROR_BAD_STATE;
    }
    var reply := k.umapMmap(pa, len, mattr);
    if reply.res != TEE_SUCCESS {
      return reply.res;
    }
    WritePair(params, reply.va);
    res := TEE_SUCCESS;
  }

  /** reg_pair_from_64 into params[0].value.a and params[0].value.b. */
  method WritePair(params: array<TeeParam>, v: U64)
    requires params.Length == TEE_NUM_PARAMS
    modifies params
    ensures params[..] == WithPair(old(params[..]), v)
  {
    var (hi, lo) := RegPairFrom64(v);
    params[0] := params[0].(a := hi, b := lo);
  }
}
