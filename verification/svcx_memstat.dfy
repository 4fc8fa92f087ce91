/**
 * The memory-state query of the svcx pseudo-TA: a trusted application asks
 * the firmware which kinds of access a physical range allows.
 */
module SvcxMemstat {
  import opened Wrappers
  import opened TeeTypes
  import opened Firmware
  import opened SvcxInternal

  // The access-state bits the answer is made of (enum tee_mem_state).
  const TEE_MEM_STATE_S_RW: U32 := 1
  const TEE_MEM_STATE_NS_RD: U32 := 2
  const TEE_MEM_STATE_NS_WR: U32 := 4
  const TEE_MEM_STATE_S_EXEC: U32 := 8
  const TEE_MEM_STATE_NS_EXEC: U32 := 16

  /** The range a query names: start in slot 0, length in slot 1, as register pairs. */
  function QueryPa(p: seq<TeeParam>): U64
    requires |p| == TEE_NUM_PARAMS
  {
    RegPairTo64(p[0].a, p[0].b)
  }

  function QueryLen(p: seq<TeeParam>): U64
    requires |p| == TEE_NUM_PARAMS
  {
    RegPairTo64(p[1].a, p[1].b)
  }

  /**
   * svcx_mem_state on parameters `p`, with `fw` the installed firmware
   * driver: the result and the parameters afterwards.  `stale` is what the
   * uninitialised local `state` holds before the firmware is asked.  Gates
   * in order: parameter types, client identity, trusted-application login;
   * then the firmware answers, and only its success stores the state into
   * slot 0.
   */
  function MemStateOutcome(paramTypes: U32, p: seq<TeeParam>, k: TaKernel, fw: Option<SecureFwOps>, stale: U32)
    : (r: (TeeResult, seq<TeeParam>))
    requires |p| == TEE_NUM_PARAMS
    ensures paramTypes != MemStateTypes() ==> r == (TEE_ERROR_BAD_PARAMETERS, p)
    ensures paramTypes == MemStateTypes() && k.client.res != TEE_SUCCESS ==> r == (k.client.res, p)
    ensures paramTypes == MemStateTypes() && k.client.res == TEE_SUCCESS && k.client.id.login != TEE_LOGIN_TRUSTED_APP ==>
      r == (TEE_ERROR_NOT_SUPPORTED, p)
    ensures paramTypes == MemStateTypes() && k.client.res == TEE_SUCCESS && k.client.id.login == TEE_LOGIN_TRUSTED_APP ==>
      var o := GetMemStateVia(fw, QueryPa(p), QueryLen(p), Some(stale));
      r.0 == o.res
      && r.1 == (if o.res != TEE_SUCCESS then p else p[0 := p[0].(a := if o.state.Some? then o.state.value else stale)])
  {
    if paramTypes != MemStateTypes() then (TEE_ERROR_BAD_PARAMETERS, p)
    else if k.client.res != TEE_SUCCESS then (k.client.res, p)
    else if k.client.id.login != TEE_LOGIN_TRUSTED_APP then (TEE_ERROR_NOT_SUPPORTED, p)
    else
      var o := GetMemStateVia(fw, QueryPa(p), QueryLen(p), Some(stale));
      if o.res != TEE_SUCCESS then (o.res, p)
      else (TEE_SUCCESS, p[0 := p[0].(a := if o.state.Some? then o.state.value else stale)])
  }

  /** A caller other than a trusted application never reaches the firmware. */
  lemma NonTaNeverQueriesFirmware(paramTypes: U32, p: seq<TeeParam>, k: TaKernel, fw: Option<SecureFwOps>,
                                  other: Option<SecureFwOps>, stale: U32)
    requires |p| == TEE_NUM_PARAMS
    requires k.client.res != TEE_SUCCESS || k.client.id.login != TEE_LOGIN_TRUSTED_APP
    ensures MemStateOutcome(paramTypes, p, k, fw, stale) == MemStateOutcome(paramTypes, p, k, other, stale)
  {
  }

  /**
   * With no firmware driver installed a trusted application's well-formed
   * query is answered NOT_SUPPORTED and the parameters are left as they were.
   */
  lemma NoDriverQueryNotSupported(p: seq<TeeParam>, k: TaKernel, stale: U32)
    requires |p| == TEE_NUM_PARAMS
    requires k.client.res == TEE_SUCCESS && k.client.id.login == TEE_LOGIN_TRUSTED_APP
    ensures MemStateOutcome(MemStateTypes(), p, k, None, stale) == (TEE_ERROR_NOT_SUPPORTED, p)
  {
  }

  /** svcx_mem_state, storing the state into slot 0 in place. */
  method MemState(paramTypes: U32, params: array<TeeParam>, k: TaKernel, fw: FwRegistry, stale: U32)
    returns (res: TeeResult)
    requires params.Length == TEE_NUM_PARAMS
    modifies params
    ensures (res, params[..]) == MemStateOutcome(paramTypes, old(params[..]), k, fw.secFwOps, stale)
  {
    if paramTypes != MemStateTypes() {
      return TEE_ERROR_BAD_PARAMETERS;
    }
    if k.client.res != TEE_SUCCESS {
      return k.client.res;
    }
    if k.client.id.login != TEE_LOGIN_TRUSTED_APP {
      return TEE_ERROR_NOT_SUPPORTED;
    }
    var pa := RegPairTo64(params[0].a, params[0].b);
    var len := RegPairTo64(params[1].a, params[1].b);
    var o := GetMemStateVia(fw.secFwOps, pa, len, Some(stale));
    res := o.res;
    if res == TEE_SUCCESS {
      params[0] := params[0].(a := if o.state.Some? then o.state.value else stale);
    }
  }
}
