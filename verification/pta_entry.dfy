/**
 * The svcx pseudo-TA's entry points: creation and session opening always
 * succeed, and a command is dispatched to its handler by identifier.
 *
 * As written, the dispatcher knows HELLO, MMAP and MUNMAP only, so the fuse
 * write and memory-state handlers, which the trusted-application library
 * does call, are never reached (InvokeOutcome and the lemmas after it).
 * InvokeOutcomeAll is the dispatcher with those two commands routed to
 * their handlers.
 */
module PtaEntry {
  import opened Wrappers
  import opened TeeTypes
  import opened Firmware
  import opened SvcxInternal
  import opened SvcxMmap
  import opened SvcxOtp
  import opened SvcxMemstat
  import Lib = TeeApiExt

  /** hello_world: succeeds and leaves the parameters alone. */
  function HelloWorld(paramTypes: U32, p: seq<TeeParam>): (r: (TeeResult, seq<TeeParam>))
    ensures r.0 == TEE_SUCCESS && r.1 == p
  {
    (TEE_SUCCESS, p)
  }

  /** create_ta: always succeeds. */
  function CreateTa(): (res: TeeResult)
    ensures res == TEE_SUCCESS
  {
    TEE_SUCCESS
  }

  /** open_session: always succeeds, whatever the parameters. */
  function OpenSession(paramTypes: U32, p: seq<TeeParam>): (res: TeeResult)
    ensures res == TEE_SUCCESS
  {
    TEE_SUCCESS
  }

  /** The commands the dispatcher as written knows. */
  predicate Dispatched(cmd: U32)
  {
    cmd == PTA_SVCX_CMD_HELLO || cmd == PTA_SVCX_CMD_MMAP || cmd == PTA_SVCX_CMD_MUNMAP
  }

  /**
   * invoke_command as written: the result and the parameters afterwards.
   * Unknown commands are refused as bad parameters and change nothing.
   */
  function InvokeOutcome(cmd: U32, paramTypes: U32, p: seq<TeeParam>, k: TaKernel): (r: (TeeResult, seq<TeeParam>))
    requires |p| == TEE_NUM_PARAMS
    ensures cmd == PTA_SVCX_CMD_HELLO ==> r == (TEE_SUCCESS, p)
    ensures cmd == PTA_SVCX_CMD_MMAP ==> r == MapOutcome(paramTypes, p, k)
    ensures cmd == PTA_SVCX_CMD_MUNMAP ==> r == (UnmapResult(paramTypes, p, k), p)
    ensures !Dispatched(cmd) ==> r == (TEE_ERROR_BAD_PARAMETERS, p)
  {
    if cmd == PTA_SVCX_CMD_HELLO then HelloWorld(paramTypes, p)
    else if cmd == PTA_SVCX_CMD_MMAP then MapOutcome(paramTypes, p, k)
    else if cmd == PTA_SVCX_CMD_MUNMAP then (UnmapResult(paramTypes, p, k), p)
    else (TEE_ERROR_BAD_PARAMETERS, p)
  }

  /** invoke_command, with the handlers writing the parameters in place. */
  method InvokeCommand(cmd: U32, paramTypes: U32, params: array<TeeParam>, k: TaKernel) returns (res: TeeResult)
    requires params.Length == TEE_NUM_PARAMS
    modifies params
    ensures (res, params[..]) == InvokeOutcome(cmd, paramTypes, old(params[..]), k)
  {
    if cmd == PTA_SVCX_CMD_HELLO {
      res := TEE_SUCCESS;
    } else if cmd == PTA_SVCX_CMD_MMAP {
      res := Map(paramTypes, params, k);
    } else if cmd == PTA_SVCX_CMD_MUNMAP {
      res := UnmapResult(paramTypes, params[..], k);
    } else {
      res := TEE_ERROR_BAD_PARAMETERS;
    }
  }

  /**
   * As written, the fuse write is refused for every request, including a
   * well-formed one from the ULI TA that the firmware would accept: the
   * dispatcher answers bad parameters where the handler would succeed.
   */
  lemma OtpWriteNeverDispatched(p: seq<TeeParam>, k: TaKernel, fw: Option<SecureFwOps>, debugBuild: bool)
    requires |p| == TEE_NUM_PARAMS
    requires OtpReachesFuses(OtpWriteTypes(), p, k, debugBuild) && OtpFuseWrite(p, fw).res == TEE_SUCCESS
    ensures InvokeOutcome(PTA_SVCX_CMD_OTP_WRITE, OtpWriteTypes(), p, k) == (TEE_ERROR_BAD_PARAMETERS, p)
    ensures OtpWriteOutcome(OtpWriteTypes(), p, k, fw, debugBuild).0 == TEE_SUCCESS
  {
  }

  /** As written, the library's memory-state command is refused whatever the firmware would answer. */
  lemma MemStateNeverDispatched(p: seq<TeeParam>, k: TaKernel, fw: Option<SecureFwOps>, stale: U32)
    requires |p| == TEE_NUM_PARAMS
    requires CallerIsTa(k) && GetMemStateVia(fw, QueryPa(p), QueryLen(p), Some(stale)).res == TEE_SUCCESS
    ensures InvokeOutcome(Lib.PTA_SVCX_CMD_MEM_STATE, MemStateTypes(), p, k) == (TEE_ERROR_BAD_PARAMETERS, p)
    ensures MemStateOutcome(MemStateTypes(), p, k, fw, stale).0 == TEE_SUCCESS
  {
  }

  /** The commands the corrected dispatcher knows: those of the library's header but SELF_TESTS. */
  predicate DispatchedAll(cmd: U32)
  {
    Dispatched(cmd) || cmd == PTA_SVCX_CMD_OTP_WRITE || cmd == Lib.PTA_SVCX_CMD_MEM_STATE
  }

  /**
   * invoke_command with the fuse write and the memory-state query routed
   * to their handlers; `fw`, `debugBuild` and `stale` are the inputs those
   * handlers take.
   */
  function InvokeOutcomeAll(cmd: U32, paramTypes: U32, p: seq<TeeParam>, k: TaKernel, fw: Option<SecureFwOps>,
                            debugBuild: bool, stale: U32): (r: (TeeResult, seq<TeeParam>))
    requires |p| == TEE_NUM_PARAMS
    ensures Dispatched(cmd) ==> r == InvokeOutcome(cmd, paramTypes, p, k)
    ensures cmd == PTA_SVCX_CMD_OTP_WRITE ==> r == OtpWriteOutcome(paramTypes, p, k, fw, debugBuild)
    ensures cmd == Lib.PTA_SVCX_CMD_MEM_STATE ==> r == MemStateOutcome(paramTypes, p, k, fw, stale)
    ensures !DispatchedAll(cmd) ==> r == (TEE_ERROR_BAD_PARAMETERS, p)
  {
    if cmd == PTA_SVCX_CMD_OTP_WRITE then OtpWriteOutcome(paramTypes, p, k, fw, debugBuild)
    else if cmd == Lib.PTA_SVCX_CMD_MEM_STATE then MemStateOutcome(paramTypes, p, k, fw, stale)
    else InvokeOutcome(cmd, paramTypes, p, k)
  }

  /** The corrected dispatcher, with the handlers writing the parameters in place. */
  method InvokeCommandAll(cmd: U32, paramTypes: U32, params: array<TeeParam>, k: TaKernel, fw: FwRegistry,
                          debugBuild: bool, stale: U32) returns (res: TeeResult)
    requires params.Length == TEE_NUM_PARAMS
    modifies params
    ensures (res, params[..]) == InvokeOutcomeAll(cmd, paramTypes, old(params[..]), k, fw.secFwOps, debugBuild, stale)
  {
    if cmd == PTA_SVCX_CMD_OTP_WRITE {
      res := OtpWrite(paramTypes, params, k, fw, debugBuild);
    } else if cmd == Lib.PTA_SVCX_CMD_MEM_STATE {
      res := MemState(paramTypes, params, k, fw, stale);
    } else {
      res := InvokeCommand(cmd, paramTypes, params, k);
    }
  }

  /**
   * The library and the pseudo-TA agree: the command identifiers they share
   * are equal, and each type word the library sends is the one its handler
   * insists on.
   */
  lemma LibraryMatchesHandlers()
    ensures Lib.PTA_SVCX_CMD_MMAP == PTA_SVCX_CMD_MMAP && Lib.PTA_SVCX_CMD_MUNMAP == PTA_SVCX_CMD_MUNMAP
    ensures Lib.PTA_SVCX_CMD_OTP_WRITE == PTA_SVCX_CMD_OTP_WRITE
    ensures Lib.MmapReqTypes() == MapTypes() && Lib.MunmapReqTypes() == UnmapTypes()
    ensures Lib.OtpWriteReqTypes() == OtpWriteTypes() && Lib.MemStateReqTypes() == MemStateTypes()
  {
  }

  /** The pseudo-TA as the library's session sees it: the result and slot 0 after the command. */
  function PtaAnswers(k: TaKernel, fw: Option<SecureFwOps>, debugBuild: bool, stale: U32, corrected: bool)
    : (answer: Lib.InvokeFn)
    ensures forall h: nat, cmd: U32, t: U32, p: seq<TeeParam> | |p| == TEE_NUM_PARAMS && !corrected ::
      answer(h, cmd, t, p) == Lib.InvokeReply(InvokeOutcome(cmd, t, p, k).0, InvokeOutcome(cmd, t, p, k).1[0])
    ensures forall h: nat, cmd: U32, t: U32, p: seq<TeeParam> | |p| == TEE_NUM_PARAMS && corrected ::
      answer(h, cmd, t, p) == Lib.InvokeReply(InvokeOutcomeAll(cmd, t, p, k, fw, debugBuild, stale).0,
                                              InvokeOutcomeAll(cmd, t, p, k, fw, debugBuild, stale).1[0])
  {
    (h: nat, cmd: U32, t: U32, p: seq<TeeParam>) =>
      if |p| != TEE_NUM_PARAMS then Lib.InvokeReply(TEE_ERROR_BAD_PARAMETERS, ZERO_PARAM)
      else
        var r := if corrected then InvokeOutcomeAll(cmd, t, p, k, fw, debugBuild, stale) else InvokeOutcome(cmd, t, p, k);
        Lib.InvokeReply(r.0, r.1[0])
  }

  /**
   * TEE_Mmap end to end: when a session is at hand, every gate of svcx_map
   * passes and the MMU maps the range, the library succeeds and returns the
   * address the MMU chose.
   */
  lemma MmapEndToEnd(cached: nat, open: Lib.OpenReply, pa: U64, len: U64, prot: U32, attr: U32, k: TaKernel,
                     fw: Option<SecureFwOps>, debugBuild: bool, stale: U32, corrected: bool)
    requires Lib.OpenReplyValid(open) && (cached != Lib.TEE_HANDLE_NULL || open.res == TEE_SUCCESS)
    requires MapGatesPass(MapTypes(), Lib.MmapRequest(pa, len, prot, attr), k)
    requires k.umapMmap(pa, len, MattrWord(prot, attr)).res == TEE_SUCCESS
    ensures var t := Lib.Transaction(cached, open, PtaAnswers(k, fw, debugBuild, stale, corrected), Lib.PTA_SVCX_CMD_MMAP,
                                     Lib.MmapReqTypes(), Lib.MmapRequest(pa, len, prot, attr));
      t.res == TEE_SUCCESS && RegPairTo64(t.out0.a, t.out0.b) == k.umapMmap(pa, len, MattrWord(prot, attr)).va
  {
    var req := Lib.MmapRequest(pa, len, prot, attr);
    assert RequestPa(req) == pa && RequestLen(req) == len && RequestMattr(req) == MattrWord(prot, attr);
    var h := if cached != Lib.TEE_HANDLE_NULL then cached else open.handle;
    var r := InvokeOutcome(PTA_SVCX_CMD_MMAP, MapTypes(), req, k);
    assert r == MapOutcome(MapTypes(), req, k);
    assert PtaAnswers(k, fw, debugBuild, stale, corrected)(h, Lib.PTA_SVCX_CMD_MMAP, Lib.MmapReqTypes(), req)
      == Lib.InvokeReply(r.0, r.1[0]);
  }

  /**
   * TEE_OtpWrite end to end from the ULI TA, on a session at hand: the
   * pseudo-TA as written refuses it as bad parameters, while the corrected
   * dispatcher returns the firmware's success.
   */
  lemma OtpWriteEndToEnd(cached: nat, open: Lib.OpenReply, id: U32, va: nat, size: U32, prot: U32, k: TaKernel,
                         fw: Option<SecureFwOps>, debugBuild: bool, stale: U32)
    requires Lib.OpenReplyValid(open) && (cached != Lib.TEE_HANDLE_NULL || open.res == TEE_SUCCESS)
    requires OtpReachesFuses(OtpWriteTypes(), Lib.OtpWriteRequest(id, va, size, prot), k, debugBuild)
    requires OtpFuseWrite(Lib.OtpWriteRequest(id, va, size, prot), fw).res == TEE_SUCCESS
    ensures Lib.Transaction(cached, open, PtaAnswers(k, fw, debugBuild, stale, false), Lib.PTA_SVCX_CMD_OTP_WRITE,
                            Lib.OtpWriteReqTypes(), Lib.OtpWriteRequest(id, va, size, prot)).res
      == TEE_ERROR_BAD_PARAMETERS
    ensures Lib.Transaction(cached, open, PtaAnswers(k, fw, debugBuild, stale, true), Lib.PTA_SVCX_CMD_OTP_WRITE,
                            Lib.OtpWriteReqTypes(), Lib.OtpWriteRequest(id, va, size, prot)).res
      == TEE_SUCCESS
  {
    var req := Lib.OtpWriteRequest(id, va, size, prot);
    var h := if cached != Lib.TEE_HANDLE_NULL then cached else open.handle;
    OtpWriteNeverDispatched(req, k, fw, debugBuild);
    assert PtaAnswers(k, fw, debugBuild, stale, false)(h, Lib.PTA_SVCX_CMD_OTP_WRITE, Lib.OtpWriteReqTypes(), req).res
      == TEE_ERROR_BAD_PARAMETERS;
    assert PtaAnswers(k, fw, debugBuild, stale, true)(h, Lib.PTA_SVCX_CMD_OTP_WRITE, Lib.OtpWriteReqTypes(), req).res
      == TEE_SUCCESS;
  }
}
