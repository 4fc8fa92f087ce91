/**
 * The trusted-application side library of the platform's TEE API
 * extensions.  Each call is a command to the svcx pseudo-TA: the library
 * uses the session cached by TEE_Ext_Init when there is one, and otherwise
 * opens a session just for this call and closes it before returning.
 *
 * The TEE client API is an input: the reply TEE_OpenTASession would give
 * (result and handle) and, as a function, what TEE_InvokeTACommand answers
 * for a session, command, type word and parameters (the result and the
 * contents of slot 0, the only slot the commands write back).  A ghost log
 * records the sessions opened, the commands sent and the sessions closed.
 */
module TeeApiExt {
  import opened Wrappers
  import opened TeeTypes

  /** TEE_HANDLE_NULL */
  const TEE_HANDLE_NULL: nat := 0

  /** PTA_SVCX_UUID, 4ab65334-5a59-45d2-a961-1f2f0bed2bd6. */
  const PTA_SVCX_UUID: TeeUuid := TeeUuid(0x4AB6_5334, 0x5A59, 0x45D2, [0xA9, 0x61, 0x1F, 0x2F, 0x0B, 0xED, 0x2B, 0xD6])

  // Command identifiers as the library's interface header defines them.
  const PTA_SVCX_CMD_MMAP: U32 := 2
  const PTA_SVCX_CMD_MUNMAP: U32 := 3
  const PTA_SVCX_CMD_OTP_WRITE: U32 := 4
  const PTA_SVCX_CMD_MEM_STATE: U32 := 5

  /** The type words the library sends with each command. */
  function MmapReqTypes(): U32
  {
    ParamTypes(TEE_PARAM_TYPE_VALUE_INOUT, TEE_PARAM_TYPE_VALUE_INPUT, TEE_PARAM_TYPE_VALUE_INPUT, TEE_PARAM_TYPE_NONE)
  }

  function MunmapReqTypes(): U32
  {
    ParamTypes(TEE_PARAM_TYPE_VALUE_INPUT, TEE_PARAM_TYPE_VALUE_INPUT, TEE_PARAM_TYPE_NONE, TEE_PARAM_TYPE_NONE)
  }

  function OtpWriteReqTypes(): U32
  {
    ParamTypes(TEE_PARAM_TYPE_VALUE_INOUT, TEE_PARAM_TYPE_MEMREF_INPUT, TEE_PARAM_TYPE_VALUE_INPUT, TEE_PARAM_TYPE_NONE)
  }

  function MemStateReqTypes(): U32
  {
    ParamTypes(TEE_PARAM_TYPE_VALUE_INOUT, TEE_PARAM_TYPE_VALUE_INPUT, TEE_PARAM_TYPE_NONE, TEE_PARAM_TYPE_NONE)
  }

  // ===== The TEE client API as seen by the library =====

  datatype SessEvent =
    | Opened(h: nat)
    | Invoked(h: nat, cmd: U32, paramTypes: U32, params: seq<TeeParam>)
    | Closed(h: nat)

  /** TEE_OpenTASession's answer: a result and, on success, the new handle. */
  datatype OpenReply = OpenReply(res: TeeResult, handle: nat)

  /** TEE_InvokeTACommand's answer: a result and slot 0 after the command. */
  datatype InvokeReply = InvokeReply(res: TeeResult, out0: TeeParam)

  type InvokeFn = (nat, U32, U32, seq<TeeParam>) -> InvokeReply

  /** A successful open yields a real handle. */
  predicate OpenReplyValid(o: OpenReply)
  {
    o.res == TEE_SUCCESS ==> o.handle != TEE_HANDLE_NULL
  }

  /** The outcome of one command: its result, slot 0 afterwards, and the session events. */
  datatype CallResult = CallResult(res: TeeResult, out0: TeeParam, events: seq<SessEvent>)

  /**
   * One command sent under the session discipline, with `cached` the
   * library's session (or NULL): a cached session is borrowed; otherwise a
   * session is opened (a failed open is the result and nothing is sent)
   * and closed again after the command.
   */
  function Transaction(cached: nat, open: OpenReply, invoke: InvokeFn, cmd: U32, paramTypes: U32,
                       params: seq<TeeParam>): (r: CallResult)
    requires OpenReplyValid(open) && |params| == TEE_NUM_PARAMS
    ensures cached != TEE_HANDLE_NULL ==>
      r.events == [Invoked(cached, cmd, paramTypes, params)]
      && r.res == invoke(cached, cmd, paramTypes, params).res && r.out0 == invoke(cached, cmd, paramTypes, params).out0
    ensures cached == TEE_HANDLE_NULL && open.res != TEE_SUCCESS ==>
      r.res == open.res && r.events == [] && r.out0 == params[0]
    ensures cached == TEE_HANDLE_NULL && open.res == TEE_SUCCESS ==>
      r.events == [Opened(open.handle), Invoked(open.handle, cmd, paramTypes, params), Closed(open.handle)]
      && r.res == invoke(open.handle, cmd, paramTypes, params).res
      && r.out0 == invoke(open.handle, cmd, paramTypes, params).out0
  {
    if cached != TEE_HANDLE_NULL then
      var reply := invoke(cached, cmd, paramTypes, params);
      CallResult(reply.res, reply.out0, [Invoked(cached, cmd, paramTypes, params)])
    else if open.res != TEE_SUCCESS then CallResult(open.res, params[0], [])
    else
      var h := open.handle;
      var reply := invoke(h, cmd, paramTypes, params);
      CallResult(reply.res, reply.out0, [Opened(h), Invoked(h, cmd, paramTypes, params), Closed(h)])
  }

  /**
   * The session discipline: a command never opens or closes the cached
   * session, leaves no session it opened behind, and is sent at most once,
   * to the cached session when there is one.
   */
  lemma TransactionBalanced(cached: nat, open: OpenReply, invoke: InvokeFn, cmd: U32, paramTypes: U32,
                            params: seq<TeeParam>)
    requires OpenReplyValid(open) && |params| == TEE_NUM_PARAMS
    ensures var ev := Transaction(cached, open, invoke, cmd, paramTypes, params).events;
      (cached != TEE_HANDLE_NULL ==> Opened(cached) !in ev && Closed(cached) !in ev)
      && (forall h :: Opened(h) in ev <==> Closed(h) in ev)
      && (forall i, j :: 0 <= i < j < |ev| && ev[i].Invoked? ==> !ev[j].Invoked?)
      && (cached != TEE_HANDLE_NULL ==> forall e :: e in ev && e.Invoked? ==> e.h == cached)
  {
  }

  /** The width of a TA's pointers: `uintptr_t` is 32 bits on an ARM32 TA and 64 bits on an AArch64 one. */
  datatype PtrWidth = Ptr32 | Ptr64

  /** The cast `(uintptr_t)v`: it keeps the low word on a 32-bit TA and all of `v` on a 64-bit one. */
  function UintPtr(w: PtrWidth, v: U64): (p: U64)
    ensures p % TWO_32 == v % TWO_32
    ensures w.Ptr32? ==> p < TWO_32
    ensures w.Ptr64? ==> p == v
  {
    if w.Ptr32? then v % TWO_32 else v
  }

  // ===== Requests =====

  /** TEE_Mmap's parameters: pa and len as register pairs, then (prot, attr). */
  function MmapRequest(pa: U64, len: U64, prot: U32, attr: U32): (p: seq<TeeParam>)
    ensures |p| == TEE_NUM_PARAMS
    ensures RegPairTo64(p[0].a, p[0].b) == pa && RegPairTo64(p[1].a, p[1].b) == len
    ensures p[2].a == prot && p[2].b == attr && p[3] == ZERO_PARAM
  {
    var (pah, pal) := RegPairFrom64(pa);
    var (lenh, lenl) := RegPairFrom64(len);
    [ZERO_PARAM.(a := pah, b := pal), ZERO_PARAM.(a := lenh, b := lenl), ZERO_PARAM.(a := prot, b := attr), ZERO_PARAM]
  }

  /** TEE_Munmap's parameters: va and len as register pairs. */
  function MunmapRequest(va: U64, len: U64): (p: seq<TeeParam>)
    ensures |p| == TEE_NUM_PARAMS
    ensures RegPairTo64(p[0].a, p[0].b) == va && RegPairTo64(p[1].a, p[1].b) == len
    ensures p[2] == ZERO_PARAM && p[3] == ZERO_PARAM
  {
    var (vah, val) := RegPairFrom64(va);
    var (lenh, lenl) := RegPairFrom64(len);
    [ZERO_PARAM.(a := vah, b := val), ZERO_PARAM.(a := lenh, b := lenl), ZERO_PARAM, ZERO_PARAM]
  }

  /** TEE_OtpWrite's parameters: (id, prot), the data buffer, and a zero test flag. */
  function OtpWriteRequest(id: U32, va: nat, size: U32, prot: U32): (p: seq<TeeParam>)
    ensures |p| == TEE_NUM_PARAMS
    ensures p[0].a == id && p[0].b == prot && p[1].buffer == va && p[1].size == size
    ensures p[2].a == 0 && p[3] == ZERO_PARAM
  {
    [ZERO_PARAM.(a := id, b := prot), ZERO_PARAM.(buffer := va, size := size), ZERO_PARAM, ZERO_PARAM]
  }

  /** TEE_MemState's parameters: pa and len as register pairs. */
  function MemStateRequest(pa: U64, len: U64): (p: seq<TeeParam>)
    ensures |p| == TEE_NUM_PARAMS
    ensures RegPairTo64(p[0].a, p[0].b) == pa && RegPairTo64(p[1].a, p[1].b) == len
    ensures p[2] == ZERO_PARAM && p[3] == ZERO_PARAM
  {
    MunmapRequest(pa, len)
  }

  /** The static ext_sess and the session events so far. */
  class TeeExt {
    var extSess: nat
    ghost var log: seq<SessEvent>

    constructor ()
      ensures extSess == TEE_HANDLE_NULL && log == []
    {
      extSess := TEE_HANDLE_NULL;
      log := [];
    }

    /**
     * TEE_Ext_Init: opens the cached session only when there is none; when
     * one is open the call succeeds and changes nothing.  A failed open
     * leaves the handle NULL.
     */
    method ExtInit(open: OpenReply) returns (res: TeeResult)
      requires OpenReplyValid(open)
      modifies this
      ensures old(extSess) != TEE_HANDLE_NULL ==> res == TEE_SUCCESS && extSess == old(extSess) && log == old(log)
      ensures old(extSess) == TEE_HANDLE_NULL ==>
        res == open.res
        && extSess == (if open.res == TEE_SUCCESS then open.handle else TEE_HANDLE_NULL)
        && log == old(log) + (if open.res == TEE_SUCCESS then [Opened(open.handle)] else [])
    {
      if extSess == TEE_HANDLE_NULL {
        res := open.res;
        if res == TEE_SUCCESS {
          extSess := open.handle;
          log := log + [Opened(extSess)];
        }
        return;
      }
      res := TEE_SUCCESS;
    }

    /** TEE_Ext_DeInit: closes the cached session, if any; afterwards there is none. */
    method ExtDeInit()
      modifies this
      ensures extSess == TEE_HANDLE_NULL
      ensures log == old(log) + (if old(extSess) != TEE_HANDLE_NULL then [Closed(old(extSess))] else [])
    {
      extSess := CloseSession(extSess);
    }

    /** close_svcx_session: a NULL handle is left alone; otherwise it is closed and becomes NULL. */
    method CloseSession(h: nat) returns (h': nat)
      modifies this`log
      ensures h' == TEE_HANDLE_NULL
      ensures log == old(log) + (if h != TEE_HANDLE_NULL then [Closed(h)] else [])
    {
      if h != TEE_HANDLE_NULL {
        log := log + [Closed(h)];
      }
      h' := TEE_HANDLE_NULL;
    }

    /**
     * The part every API call shares: borrow the cached session or open a
     * temporary one, send the command, and close the temporary session.
     */
    method Send(cmd: U32, paramTypes: U32, params: seq<TeeParam>, open: OpenReply, invoke: InvokeFn)
      returns (res: TeeResult, out0: TeeParam)
      requires OpenReplyValid(open) && |params| == TEE_NUM_PARAMS
      modifies this`log
      ensures var t := Transaction(old(extSess), open, invoke, cmd, paramTypes, params);
        res == t.res && out0 == t.out0 && log == old(log) + t.events
    {
      var s := extSess;
      if s == TEE_HANDLE_NULL {
        if open.res != TEE_SUCCESS {
          return open.res, params[0];
        }
        s := open.handle;
        log := log + [Opened(s)];
      }
      var reply := invoke(s, cmd, paramTypes, params);
      log := log + [Invoked(s, cmd, paramTypes, params)];
      res, out0 := reply.res, reply.out0;
      if s != extSess {
        s := CloseSession(s);
      }
    }

    /**
     * TEE_Mmap: the mapped address on success and NULL otherwise; the
     * result is stored in `err` when it is given. The address is the
     * pair in slot 0 cast to the TA's `uintptr_t`, so a 32-bit TA keeps
     * only the low word.
     */
    method Mmap(width: PtrWidth, pa: U64, len: U64, prot: U32, attr: U32, err: Option<U32>, open: OpenReply,
                invoke: InvokeFn)
      returns (va: U64, errOut: Option<U32>)
      requires OpenReplyValid(open)
      modifies this`log
      ensures var t := Transaction(old(extSess), open, invoke, PTA_SVCX_CMD_MMAP, MmapReqTypes(),
                                   MmapRequest(pa, len, prot, attr));
        log == old(log) + t.events
        && errOut == (if err.Some? then Some(t.res) else None)
        && (t.res != TEE_SUCCESS ==> va == 0)
        && (t.res == TEE_SUCCESS && width.Ptr64? ==> va == RegPairTo64(t.out0.a, t.out0.b))
        && (t.res == TEE_SUCCESS && width.Ptr32? ==> va == t.out0.b)
    {
      var res, out0 := Send(PTA_SVCX_CMD_MMAP, MmapReqTypes(), MmapRequest(pa, len, prot, attr), open, invoke);
      errOut := if err.Some? then Some(res) else None;
      va := if res == TEE_SUCCESS then UintPtr(width, RegPairTo64(out0.a, out0.b)) else 0;
    }

    /** TEE_Munmap: the pseudo-TA's result. */
    method Munmap(va: U64, len: U64, open: OpenReply, invoke: InvokeFn) returns (res: TeeResult)
      requires OpenReplyValid(open)
      modifies this`log
      ensures var t := Transaction(old(extSess), open, invoke, PTA_SVCX_CMD_MUNMAP, MunmapReqTypes(),
                                   MunmapRequest(va, len));
        log == old(log) + t.events && res == t.res
    {
      var out0;
      res, out0 := Send(PTA_SVCX_CMD_MUNMAP, MunmapReqTypes(), MunmapRequest(va, len), open, invoke);
    }

    /**
     * TEE_OtpWrite: a NULL size is refused before any session is touched;
     * the written length comes back in `size` only on success.
     */
    method OtpWrite(id: U32, va: nat, size: Option<U32>, prot: U32, open: OpenReply, invoke: InvokeFn)
      returns (res: TeeResult, sizeOut: Option<U32>)
      requires OpenReplyValid(open)
      modifies this`log
      ensures size.None? ==> res == TEE_ERROR_BAD_PARAMETERS && sizeOut == size && log == old(log)
      ensures size.Some? ==>
        var t := Transaction(old(extSess), open, invoke, PTA_SVCX_CMD_OTP_WRITE, OtpWriteReqTypes(),
                             OtpWriteRequest(id, va, size.value, prot));
        log == old(log) + t.events && res == t.res
        && sizeOut == (if t.res == TEE_SUCCESS then Some(t.out0.a) else size)
    {
      if size.None? {
        return TEE_ERROR_BAD_PARAMETERS, size;
      }
      var out0;
      res, out0 := Send(PTA_SVCX_CMD_OTP_WRITE, OtpWriteReqTypes(), OtpWriteRequest(id, va, size.value, prot),
                        open, invoke);
      sizeOut := if res == TEE_SUCCESS then Some(out0.a) else size;
    }

    /**
     * TEE_MemState: a NULL pstate is refused before any session is touched;
     * the state comes back only on success.
     */
    method MemState(pa: U64, len: U64, pstate: Option<U32>, open: OpenReply, invoke: InvokeFn)
      returns (res: TeeResult, stateOut: Option<U32>)
      requires OpenReplyValid(open)
      modifies this`log
      ensures pstate.None? ==> res == TEE_ERROR_BAD_PARAMETERS && stateOut == pstate && log == old(log)
      ensures pstate.Some? ==>
        var t := Transaction(old(extSess), open, invoke, PTA_SVCX_CMD_MEM_STATE, MemStateReqTypes(),
                             MemStateRequest(pa, len));
        log == old(log) + t.events && res == t.res
        && stateOut == (if t.res == TEE_SUCCESS then Some(t.out0.a) else pstate)
    {
      if pstate.None? {
        return TEE_ERROR_BAD_PARAMETERS, pstate;
      }
      var out0;
      res, out0 := Send(PTA_SVCX_CMD_MEM_STATE, MemStateReqTypes(), MemStateRequest(pa, len), open, invoke);
      stateOut := if res == TEE_SUCCESS then Some(out0.a) else pstate;
    }
  }
}
