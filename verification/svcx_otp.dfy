/**
 * The fuse-programming service of the svcx pseudo-TA: a key identifier is
 * mapped to its fuse offset, and the write goes to the firmware only for
 * the one trusted application allowed to program keys.  A build with
 * debugging enabled also accepts a "test" request that echoes the length
 * without touching the fuses.
 */
module SvcxOtp {
  import opened Wrappers
  import opened TeeTypes
  import opened Firmware
  import opened SvcxInternal

  // ===== Key identifiers (enum tee_otp_id) =====

  const TEE_OTP_KEY_0: U32 := 0
  const TEE_OTP_KEY_1: U32 := 1
  const TEE_OTP_KEY_2: U32 := 2
  const TEE_OTP_KEY_3: U32 := 3
  const TEE_OTP_KEY_4: U32 := 4
  const TEE_OTP_KEY_5: U32 := 5
  const TEE_OTP_KEY_RSA: U32 := 6

  // ===== Fuse offsets =====

  const FUSE_OFS_INVAL: U32 := 0xFFFF_FFFF

  // Stand-ins: the header defining the key offsets is not part of this
  // model.  They are pairwise distinct and differ from FUSE_OFS_INVAL.
  const FUSE_OFS_OTP_KEY_0: U32 := 0x0A0
  const FUSE_OFS_OTP_KEY_1: U32 := 0x0B0
  const FUSE_OFS_OTP_KEY_2: U32 := 0x0C0
  const FUSE_OFS_OTP_KEY_3: U32 := 0x0D0
  const FUSE_OFS_OTP_KEY_4: U32 := 0x0E0
  const FUSE_OFS_OTP_KEY_5: U32 := 0x0F0
  const FUSE_OFS_RSA_PUB_KEY: U32 := 0x200

  /** otp_id2ofs */
  function OtpId2Ofs(id: U32): (ofs: U32)
    ensures ofs == FUSE_OFS_INVAL <==> id > TEE_OTP_KEY_RSA
  {
    if id == TEE_OTP_KEY_0 then FUSE_OFS_OTP_KEY_0
    else if id == TEE_OTP_KEY_1 then FUSE_OFS_OTP_KEY_1
    else if id == TEE_OTP_KEY_2 then FUSE_OFS_OTP_KEY_2
    else if id == TEE_OTP_KEY_3 then FUSE_OFS_OTP_KEY_3
    else if id == TEE_OTP_KEY_4 then FUSE_OFS_OTP_KEY_4
    else if id == TEE_OTP_KEY_5 then FUSE_OFS_OTP_KEY_5
    else if id == TEE_OTP_KEY_RSA then FUSE_OFS_RSA_PUB_KEY
    else FUSE_OFS_INVAL
  }

  /** Different keys live at different fuse offsets. */
  lemma OtpId2OfsInjective(i: U32, j: U32)
    requires i <= TEE_OTP_KEY_RSA && j <= TEE_OTP_KEY_RSA
    ensures OtpId2Ofs(i) == OtpId2Ofs(j) <==> i == j
  {
  }

  /** TA_ULI_UUID, 6e9f5255-d981-4aad-8243-42edf4fef4f4: the only TA allowed to program keys. */
  const TA_ULI_UUID: TeeUuid := TeeUuid(0x6e9f_5255, 0xd981, 0x4aad, [0x82, 0x43, 0x42, 0xed, 0xf4, 0xfe, 0xf4, 0xf4])

  /** Slot 0's first value set to `v`. */
  function WithA0(p: seq<TeeParam>, v: U32): (q: seq<TeeParam>)
    requires |p| == TEE_NUM_PARAMS
    ensures |q| == TEE_NUM_PARAMS && q[0] == p[0].(a := v) && q[1..] == p[1..]
  {
    p[0 := p[0].(a := v)]
  }

  /** The requested key names a fuse offset and the caller is a trusted application. */
  predicate OtpRequestValid(paramTypes: U32, p: seq<TeeParam>, k: TaKernel)
    requires |p| == TEE_NUM_PARAMS
  {
    paramTypes == OtpWriteTypes() && k.client.res == TEE_SUCCESS
    && k.client.id.login == TEE_LOGIN_TRUSTED_APP && OtpId2Ofs(p[0].a) != FUSE_OFS_INVAL
  }

  /** A debug build and a non-zero test flag in slot 2. */
  predicate IsTestRequest(p: seq<TeeParam>, debugBuild: bool)
    requires |p| == TEE_NUM_PARAMS
  {
    debugBuild && p[2].a != 0
  }

  /** The request reaches the firmware's fuse write. */
  predicate OtpReachesFuses(paramTypes: U32, p: seq<TeeParam>, k: TaKernel, debugBuild: bool)
    requires |p| == TEE_NUM_PARAMS
  {
    OtpRequestValid(paramTypes, p, k) && !IsTestRequest(p, debugBuild) && k.client.id.uuid == TA_ULI_UUID
  }

  /** The firmware's answer to the fuse write a request leads to. */
  function OtpFuseWrite(p: seq<TeeParam>, fw: Option<SecureFwOps>): FuseWriteOut
    requires |p| == TEE_NUM_PARAMS
  {
    FuseWriteVia(fw, OtpId2Ofs(p[0].a), p[1].buffer, Some(p[1].size), p[0].b)
  }

  /**
   * svcx_otp_write on parameters `p`, with `fw` the installed firmware
   * driver: the result and the parameters afterwards.  Gates in order:
   * parameter types, client identity, trusted-application login (refused
   * as a security error), a known key; then a debug test request is
   * answered at once; then the caller must be the ULI TA.  Only then are
   * the fuses written, and only success stores the written length.
   */
  function OtpWriteOutcome(paramTypes: U32, p: seq<TeeParam>, k: TaKernel, fw: Option<SecureFwOps>,
                           debugBuild: bool): (r: (TeeResult, seq<TeeParam>))
    requires |p| == TEE_NUM_PARAMS
    ensures paramTypes != OtpWriteTypes() ==> r == (TEE_ERROR_BAD_PARAMETERS, p)
    ensures paramTypes == OtpWriteTypes() && k.client.res != TEE_SUCCESS ==> r == (k.client.res, p)
    ensures paramTypes == OtpWriteTypes() && k.client.res == TEE_SUCCESS && k.client.id.login != TEE_LOGIN_TRUSTED_APP ==>
      r == (TEE_ERROR_SECURITY, p)
    ensures (paramTypes == OtpWriteTypes() && k.client.res == TEE_SUCCESS && k.client.id.login == TEE_LOGIN_TRUSTED_APP
      && OtpId2Ofs(p[0].a) == FUSE_OFS_INVAL) ==> r == (TEE_ERROR_NOT_SUPPORTED, p)
    ensures OtpRequestValid(paramTypes, p, k) && IsTestRequest(p, debugBuild) ==> r == (TEE_SUCCESS, WithA0(p, p[1].size))
    ensures OtpRequestValid(paramTypes, p, k) && !IsTestRequest(p, debugBuild) && k.client.id.uuid != TA_ULI_UUID ==>
      r == (TEE_ERROR_SECURITY, p)
    ensures OtpReachesFuses(paramTypes, p, k, debugBuild) ==>
      var o := OtpFuseWrite(p, fw);
      r.0 == o.res && r.1 == (if o.res != TEE_SUCCESS then p else WithA0(p, if o.size.Some? then o.size.value else p[1].size))
  {
    if paramTypes != OtpWriteTypes() then (TEE_ERROR_BAD_PARAMETERS, p)
    else if k.client.res != TEE_SUCCESS then (k.client.res, p)
    else if k.client.id.login != TEE_LOGIN_TRUSTED_APP then (TEE_ERROR_SECURITY, p)
    else
      var ofs := OtpId2Ofs(p[0].a);
      var len := p[1].size;
      if ofs == FUSE_OFS_INVAL then (TEE_ERROR_NOT_SUPPORTED, p)
      else if debugBuild && p[2].a != 0 then (TEE_SUCCESS, WithA0(p, len))
      else if k.client.id.uuid != TA_ULI_UUID then (TEE_ERROR_SECURITY, p)
      else
        var o := FuseWriteVia(fw, ofs, p[1].buffer, Some(len), p[0].b);
        if o.res != TEE_SUCCESS then (o.res, p)
        else (TEE_SUCCESS, WithA0(p, if o.size.Some? then o.size.value else len))
  }

  /**
   * A request that does not reach the fuses has the same outcome whatever
   * firmware driver is installed: the fuses are not touched.
   */
  lemma OnlyUliProgramsFuses(paramTypes: U32, p: seq<TeeParam>, k: TaKernel, fw: Option<SecureFwOps>,
                             other: Option<SecureFwOps>, debugBuild: bool)
    requires |p| == TEE_NUM_PARAMS
    requires !OtpReachesFuses(paramTypes, p, k, debugBuild)
    ensures OtpWriteOutcome(paramTypes, p, k, fw, debugBuild) == OtpWriteOutcome(paramTypes, p, k, other, debugBuild)
  {
  }

  /**
   * A release build never answers a test request: whatever the test flag,
   * the result and the written slot 0 are the same.
   */
  lemma ReleaseIgnoresTestFlag(paramTypes: U32, p: seq<TeeParam>, k: TaKernel, fw: Option<SecureFwOps>, flag: U32)
    requires |p| == TEE_NUM_PARAMS
    ensures var r1 := OtpWriteOutcome(paramTypes, p, k, fw, false);
      var r2 := OtpWriteOutcome(paramTypes, p[2 := p[2].(a := flag)], k, fw, false);
      r1.0 == r2.0 && r1.1[0] == r2.1[0]
  {
    var q := p[2 := p[2].(a := flag)];
    assert q[0] == p[0] && q[1] == p[1];
    assert OtpFuseWrite(p, fw) == OtpFuseWrite(q, fw);
  }

  /** svcx_otp_write, storing the written length into slot 0 in place. */
  method OtpWrite(paramTypes: U32, params: array<TeeParam>, k: TaKernel, fw: FwRegistry, debugBuild: bool)
    returns (res: TeeResult)
    requires params.Length == TEE_NUM_PARAMS
    modifies params
    ensures (res, params[..]) == OtpWriteOutcome(paramTypes, old(params[..]), k, fw.secFwOps, debugBuild)
  {
    if paramTypes != OtpWriteTypes() {
      return TEE_ERROR_BAD_PARAMETERS;
    }
    if k.client.res != TEE_SUCCESS {
      return k.client.res;
    }
    if k.client.id.login != TEE_LOGIN_TRUSTED_APP {
      return TEE_ERROR_SECURITY;
    }
    var ofs := OtpId2Ofs(params[0].a);
    var prot := params[0].b;
    var test := params[2].a;
    var len := params[1].size;
    if ofs == FUSE_OFS_INVAL {
      return TEE_ERROR_NOT_SUPPORTED;
    }
    if debugBuild && test != 0 {
      params[0] := params[0].(a := len);
      return TEE_SUCCESS;
    }
    if k.client.id.uuid != TA_ULI_UUID {
      return TEE_ERROR_SECURITY;
    }
    var o := FuseWriteVia(fw.secFwOps, ofs, params[1].buffer, Some(len), prot);
    res := o.res;
    if res == TEE_SUCCESS {
      params[0] := params[0].(a := if o.size.Some? then o.size.value else len);
    }
  }
}
