/**
 * The GlobalPlatform TEE Internal Core API types the platform services
 * exchange: result codes, the four-slot parameter array and its packed type
 * word, client identities, UUIDs and TEE_Time, plus the kernel's 64-bit to
 * register-pair split.  Result codes and parameter-type codes carry the
 * values the GlobalPlatform specification assigns them.
 */
module TeeTypes {

  const TWO_32: nat := 0x1_0000_0000
  const TWO_64: nat := 0x1_0000_0000_0000_0000

  /** The C types uint32_t and uint64_t. */
  type U32 = x: nat | x < TWO_32
  type U64 = x: nat | x < TWO_64

  // ===== Result codes =====

  type TeeResult = U32

  const TEE_SUCCESS: TeeResult := 0x0000_0000
  const TEE_ERROR_GENERIC: TeeResult := 0xFFFF_0000
  const TEE_ERROR_ACCESS_DENIED: TeeResult := 0xFFFF_0001
  const TEE_ERROR_ACCESS_CONFLICT: TeeResult := 0xFFFF_0003
  const TEE_ERROR_BAD_PARAMETERS: TeeResult := 0xFFFF_0006
  const TEE_ERROR_BAD_STATE: TeeResult := 0xFFFF_0007
  const TEE_ERROR_NOT_SUPPORTED: TeeResult := 0xFFFF_000A
  const TEE_ERROR_SECURITY: TeeResult := 0xFFFF_000F
  const TEE_ERROR_SHORT_BUFFER: TeeResult := 0xFFFF_0010

  // ===== Parameters =====

  const TEE_NUM_PARAMS: nat := 4

  const TEE_PARAM_TYPE_NONE: U32 := 0
  const TEE_PARAM_TYPE_VALUE_INPUT: U32 := 1
  const TEE_PARAM_TYPE_VALUE_OUTPUT: U32 := 2
  const TEE_PARAM_TYPE_VALUE_INOUT: U32 := 3
  const TEE_PARAM_TYPE_MEMREF_INPUT: U32 := 5
  const TEE_PARAM_TYPE_MEMREF_OUTPUT: U32 := 6
  const TEE_PARAM_TYPE_MEMREF_INOUT: U32 := 7

  /** TEE_PARAM_TYPES: four 4-bit type codes packed into one word, slot 0 lowest. */
  function ParamTypes(t0: nat, t1: nat, t2: nat, t3: nat): (w: U32)
    requires t0 < 16 && t1 < 16 && t2 < 16 && t3 < 16
    ensures w % 16 == t0 && w / 16 % 16 == t1 && w / 256 % 16 == t2 && w / 4096 == t3
  {
    Split16(t1 + t2 * 16 + t3 * 256, t0);
    Split16(t2 + t3 * 16, t1);
    Split16(t3, t2);
    Split256(t2 + t3 * 16, t0 + t1 * 16);
    Split4096(t3, t0 + t1 * 16 + t2 * 256);
    t0 + t1 * 16 + t2 * 256 + t3 * 4096
  }

  // ===== Arithmetic facts =====
  // Quotient and remainder of a number written as q * d + r with r < d, for
  // the nibble packing of ParamTypes; they model nothing of their own.
  lemma Split16(q: nat, r: nat)
    requires r < 16
    ensures (q * 16 + r) / 16 == q && (q * 16 + r) % 16 == r
  {
  }

  lemma Split256(q: nat, r: nat)
    requires r < 256
    ensures (q * 256 + r) / 256 == q
  {
  }

  lemma Split4096(q: nat, r: nat)
    requires r < 4096
    ensures (q * 4096 + r) / 4096 == q
  {
  }

  /** Two packed type words are equal only when all four slot types are. */
  lemma ParamTypesInjective(t0: nat, t1: nat, t2: nat, t3: nat, u0: nat, u1: nat, u2: nat, u3: nat)
    requires t0 < 16 && t1 < 16 && t2 < 16 && t3 < 16
    requires u0 < 16 && u1 < 16 && u2 < 16 && u3 < 16
    ensures ParamTypes(t0, t1, t2, t3) == ParamTypes(u0, u1, u2, u3) <==>
      t0 == u0 && t1 == u1 && t2 == u2 && t3 == u3
  {
    var w, v := ParamTypes(t0, t1, t2, t3), ParamTypes(u0, u1, u2, u3);
    if w == v {
      assert t0 == w % 16 == v % 16 == u0;
      assert t1 == w / 16 % 16 == v / 16 % 16 == u1;
      assert t2 == w / 256 % 16 == v / 256 % 16 == u2;
      assert t3 == w / 4096 == v / 4096 == u3;
    }
  }

  /**
   * One TEE_Param slot.  The C type is a union of a value pair and a memory
   * reference; the model keeps both views as separate fields.
   */
  datatype TeeParam = TeeParam(a: U32, b: U32, buffer: nat, size: U32)

  /** The zero-initialised slot, TEE_PARAMS_INITIALIZER. */
  const ZERO_PARAM: TeeParam := TeeParam(0, 0, 0, 0)

  /** Slot `k` with its value pair replaced. */
  function WithValue(p: seq<TeeParam>, k: nat, a: U32, b: U32): (q: seq<TeeParam>)
    requires k < |p|
    ensures |q| == |p| && q[k].a == a && q[k].b == b
    ensures q[k].buffer == p[k].buffer && q[k].size == p[k].size
    ensures forall j :: 0 <= j < |p| && j != k ==> q[j] == p[j]
  {
    p[k := p[k].(a := a, b := b)]
  }

  // ===== Identities =====

  const TEE_LOGIN_PUBLIC: U32 := 0x0000_0000
  const TEE_LOGIN_TRUSTED_APP: U32 := 0xF000_0000

  datatype TeeUuid = TeeUuid(timeLow: U32, timeMid: nat, timeHiAndVersion: nat, clockSeqAndNode: seq<nat>)

  datatype TeeIdentity = TeeIdentity(login: U32, uuid: TeeUuid)

  /** What tee_ta_get_client_id reports: a result code and, on success, the caller's identity. */
  datatype ClientIdReply = ClientIdReply(res: TeeResult, id: TeeIdentity)

  // ===== Time =====

  const TEE_TIME_MILLIS_BASE: nat := 1000

  datatype TeeTime = TeeTime(seconds: U32, millis: U32)

  // ===== Register pairs =====

  /** reg_pair_to_64: the 64-bit value whose upper half is `hi` and lower half `lo`. */
  function RegPairTo64(hi: U32, lo: U32): (v: U64)
    ensures v / TWO_32 == hi && v % TWO_32 == lo
  {
    hi * TWO_32 + lo
  }

  /** reg_pair_from_64: the upper and lower 32-bit halves of `v`. */
  function RegPairFrom64(v: U64): (p: (U32, U32))
    ensures RegPairTo64(p.0, p.1) == v
  {
    (v / TWO_32, v % TWO_32)
  }

  /** Splitting a joined pair gives the pair back, so the split is a bijection. */
  lemma RegPairRoundTrip(hi: U32, lo: U32)
    ensures RegPairFrom64(RegPairTo64(hi, lo)) == (hi, lo)
  {
    var v := RegPairTo64(hi, lo);
    assert v / TWO_32 == hi && v % TWO_32 == lo;
  }
}
