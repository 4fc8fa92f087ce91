/**
 * The secure physical timer (CNTPS) of each core: the CTL bit helpers, the
 * periodic start/handler/stop sequence, the per-core context table saved
 * and restored around suspend, and the conversion of the system counter
 * into a TEE_Time.
 *
 * The counter CNTPCT_EL0 and the frequency CNTFRQ_EL0 are inputs of each
 * operation; the current core is a parameter.  CNTPS_CTL_EL1 and
 * CNTPS_CVAL_EL1 of every core are fields of the class.  The source reaches
 * both registers through 32-bit accessors; CVAL is 64 bits wide, so its
 * writes keep only the low half and its reads return only the low half.
 */
module CntpsTimer {
  import opened TeeTypes
  import Bits

  const CNTP_CTL_ENABLE_SHIFT: bv32 := 0
  const CNTP_CTL_IMASK_SHIFT: bv32 := 1
  const CNTP_CTL_ISTATUS_SHIFT: bv32 := 2
  const CNTP_CTL_ENABLE_MASK: bv32 := 1
  const CNTP_CTL_IMASK_MASK: bv32 := 1
  const CNTP_CTL_ISTATUS_MASK: bv32 := 1

  // ===== CTL bit helpers =====

  function GetCtlEnable(x: bv32): (r: bv32)
    ensures r == Bits.Bit(x, CNTP_CTL_ENABLE_SHIFT)
  {
    (x >> CNTP_CTL_ENABLE_SHIFT) & CNTP_CTL_ENABLE_MASK
  }

  function GetCtlImask(x: bv32): (r: bv32)
    ensures r == Bits.Bit(x, CNTP_CTL_IMASK_SHIFT)
  {
    (x >> CNTP_CTL_IMASK_SHIFT) & CNTP_CTL_IMASK_MASK
  }

  function GetCtlIstatus(x: bv32): (r: bv32)
    ensures r == Bits.Bit(x, CNTP_CTL_ISTATUS_SHIFT)
  {
    (x >> CNTP_CTL_ISTATUS_SHIFT) & CNTP_CTL_ISTATUS_MASK
  }

  /** The CTL bits the set_ and clr_ macros may touch. */
  ghost predicate OnlyBitChanged(x: bv32, y: bv32, b: bv32)
    requires b < 32
  {
    forall k: bv32 :: k < 32 && k != b ==> Bits.Bit(y, k) == Bits.Bit(x, k)
  }

  function SetCtlEnable(x: bv32): (y: bv32)
    ensures GetCtlEnable(y) == 1 && OnlyBitChanged(x, y, CNTP_CTL_ENABLE_SHIFT)
  {
    Bits.SetClrFrame(x, CNTP_CTL_ENABLE_SHIFT);
    x | (1 << CNTP_CTL_ENABLE_SHIFT)
  }

  function SetCtlImask(x: bv32): (y: bv32)
    ensures GetCtlImask(y) == 1 && OnlyBitChanged(x, y, CNTP_CTL_IMASK_SHIFT)
  {
    Bits.SetClrFrame(x, CNTP_CTL_IMASK_SHIFT);
    x | (1 << CNTP_CTL_IMASK_SHIFT)
  }

  function ClrCtlEnable(x: bv32): (y: bv32)
    ensures GetCtlEnable(y) == 0 && OnlyBitChanged(x, y, CNTP_CTL_ENABLE_SHIFT)
  {
    Bits.SetClrFrame(x, CNTP_CTL_ENABLE_SHIFT);
    x & !(1 << CNTP_CTL_ENABLE_SHIFT)
  }

  function ClrCtlImask(x: bv32): (y: bv32)
    ensures GetCtlImask(y) == 0 && OnlyBitChanged(x, y, CNTP_CTL_IMASK_SHIFT)
  {
    Bits.SetClrFrame(x, CNTP_CTL_IMASK_SHIFT);
    x & !(1 << CNTP_CTL_IMASK_SHIFT)
  }

  /** The value cntps_timer_start writes to CTL: enabled, interrupt not masked. */
  lemma StartCtlValue()
    ensures SetCtlEnable(0) == 1
    ensures GetCtlEnable(SetCtlEnable(0)) == 1 && GetCtlImask(SetCtlEnable(0)) == 0
  {
  }

  /**
   * What a read of CNTPS_CTL_EL1 returns when the register holds the written
   * word `ctl`: ENABLE and IMASK as written, and ISTATUS set by the hardware
   * exactly when the timer is enabled and the counter has reached the
   * compare value (Arm ARM, D11.2.4).
   */
  function ReadCtl(ctl: bv32, cval: U64, cntpct: U64): (r: bv32)
    ensures GetCtlIstatus(r) == 1 <==> GetCtlEnable(ctl) == 1 && cntpct >= cval
    ensures GetCtlEnable(r) == GetCtlEnable(ctl) && GetCtlImask(r) == GetCtlImask(ctl)
  {
    Bits.SetClrFrame(ctl, CNTP_CTL_ISTATUS_SHIFT);
    if GetCtlEnable(ctl) == 1 && cntpct >= cval then Bits.SetBit(ctl, CNTP_CTL_ISTATUS_SHIFT)
    else Bits.ClrBit(ctl, CNTP_CTL_ISTATUS_SHIFT)
  }

  /**
   * ISTATUS is read-only: writing back a word read from CTL (as the restore
   * does with the saved word) leaves the register reading as the word first
   * written would.
   */
  lemma ReadCtlIgnoresIstatus(ctl: bv32, cval: U64, cntpct: U64, cval': U64, cntpct': U64)
    ensures ReadCtl(ReadCtl(ctl, cval, cntpct), cval', cntpct') == ReadCtl(ctl, cval', cntpct')
  {
    Bits.SetClrIdempotent(ctl, CNTP_CTL_ISTATUS_SHIFT);
    Bits.SetClrOverride(ctl, CNTP_CTL_ISTATUS_SHIFT);
  }

  /** An enabled timer whose compare value has passed reads back with ISTATUS: 1 is read as 5. */
  lemma FiredTimerReadsIstatus()
    ensures ReadCtl(1, 0, 5) == 5
  {
  }

  // ===== Compare value =====

  /** The compare value cntps_timer_start computes: one period of cntfrq / CFG_CNTPS_HZ ahead. */
  function Deadline(cntpct: U64, cntfrq: U32, hz: nat): (cval: U64)
    requires hz > 0
    ensures cval == cntpct + cntfrq / hz || cval + TWO_64 == cntpct + cntfrq / hz
  {
    DivAtMost(cntfrq, hz);
    WrapOnce(cntpct, cntfrq / hz);
    (cntpct + cntfrq / hz) % TWO_64
  }

  /** What a 32-bit accessor leaves in, or reads back from, the 64-bit CVAL register. */
  function Low32(v: U64): (w: U32)
    ensures w <= v && (v < TWO_32 ==> w == v)
  {
    v % TWO_32
  }

  /**
   * With the full 64-bit compare value the timer fires one period after the
   * current count (the counter does not wrap within 2^64 ticks).
   */
  lemma DeadlineAhead(cntpct: U64, cntfrq: U32, hz: nat)
    requires hz > 0 && cntpct + cntfrq / hz < TWO_64
    ensures Deadline(cntpct, cntfrq, hz) == cntpct + cntfrq / hz
    ensures Deadline(cntpct, cntfrq, hz) >= cntpct
  {
  }

  /**
   * Through the 32-bit accessor, once the counter has passed 2^32 (about three
   * minutes at 24 MHz) the stored compare value already lies behind the
   * counter: the timer condition CNTPCT >= CVAL holds at once and the
   * interrupt fires again immediately instead of after 0.5 s.
   */
  lemma TruncatedDeadlineBehind()
    ensures Low32(Deadline(TWO_32, 24_000_000, 2)) == 12_000_000
    ensures Low32(Deadline(TWO_32, 24_000_000, 2)) < TWO_32
    ensures Deadline(TWO_32, 24_000_000, 2) == TWO_32 + 12_000_000
  {
  }

  /**
   * Once the counter has passed 2^32, a timer just started reads as fired:
   * the truncated compare value is already behind the counter.
   */
  lemma TruncatedStartFiresAtOnce(cntpct: U64, cntfrq: U32, hz: nat)
    requires hz > 0 && cntpct >= TWO_32
    ensures GetCtlIstatus(ReadCtl(SetCtlEnable(0), Low32(Deadline(cntpct, cntfrq, hz)), cntpct)) == 1
  {
    StartCtlValue();
  }

  /** With the full compare value a timer just started has not fired yet (for a period of at least one tick). */
  lemma FullStartWaits(cntpct: U64, cntfrq: U32, hz: nat)
    requires hz > 0 && cntfrq / hz > 0 && cntpct + cntfrq / hz < TWO_64
    ensures GetCtlIstatus(ReadCtl(SetCtlEnable(0), Deadline(cntpct, cntfrq, hz), cntpct)) == 0
  {
    StartCtlValue();
    DeadlineAhead(cntpct, cntfrq, hz);
  }

  // ===== Context table =====

  /** One entry of pcpu_timer_context. */
  datatype TimerContext = TimerContext(cval: U64, ctl: bv32, pctRes: U64, pctResOld: U64)

  /** The entry cntps_timer_save stores, given the register contents and the counter. */
  function SavedContext(t: TimerContext, cvalRead: U64, ctl: bv32, cntpct: U64): (t': TimerContext)
    ensures t'.cval == cvalRead && t'.ctl == ctl
    ensures t'.pctResOld == t.pctRes && t'.pctRes == cntpct
  {
    TimerContext(cvalRead, ctl, cntpct, t.pctRes)
  }

  /**
   * The entry after cntps_timer_restore: a counter above the saved count
   * means the counter was not reset (the suspend failed), and the previous
   * residual comes back; otherwise the saved count becomes the residual.
   */
  function RestoredContext(t: TimerContext, cntpct: U64): (t': TimerContext)
    ensures t'.cval == t.cval && t'.ctl == t.ctl && t'.pctResOld == t.pctResOld
    ensures cntpct > t.pctRes ==> t'.pctRes == t.pctResOld
    ensures cntpct <= t.pctRes ==> t'.pctRes == t.pctRes
  {
    if cntpct > t.pctRes then t.(pctRes := t.pctResOld) else t
  }

  /** A save followed by a restore gives the residual back or replaces it by the saved count. */
  lemma SaveThenRestore(t: TimerContext, cv: U64, ctl: bv32, saved: U64, resumed: U64)
    ensures RestoredContext(SavedContext(t, cv, ctl, saved), resumed).pctRes ==
      (if resumed > saved then t.pctRes else saved)
    ensures RestoredContext(SavedContext(t, cv, ctl, saved), resumed).cval == cv
    ensures RestoredContext(SavedContext(t, cv, ctl, saved), resumed).ctl == ctl
  {
  }

  /**
   * After a second suspend in which the counter is reset, the residual of the
   * first one is lost and the time goes back: 150 ticks before the second
   * suspend, 60 ticks after it.
   */
  lemma ResidualLostOnSecondReset()
    ensures var t1 := SavedContext(TimerContext(0, 0, 0, 0), 0, 0, 100);
      var t2 := RestoredContext(t1, 5);
      var t3 := SavedContext(t2, 0, 0, 50);
      var t4 := RestoredContext(t3, 10);
      Total(50, t2.pctRes) == 150 && Total(10, t4.pctRes) == 60
  {
  }

  /** The save that keeps the residual: the saved count is added to it. */
  function SavedContextKeepingResidual(t: TimerContext, cvalRead: U64, ctl: bv32, cntpct: U64): (t': TimerContext)
    ensures t'.pctResOld == t.pctRes && t'.pctRes == (t.pctRes + cntpct) % TWO_64
    ensures (t'.pctRes - t'.pctResOld) % TWO_64 == cntpct
  {
    TimerContext(cvalRead, ctl, (t.pctRes + cntpct) % TWO_64, t.pctRes)
  }

  /** The matching restore: the saved count is the difference of the two residuals. */
  function RestoredContextKeepingResidual(t: TimerContext, cntpct: U64): (t': TimerContext)
    ensures t'.cval == t.cval && t'.ctl == t.ctl && t'.pctResOld == t.pctResOld
    ensures cntpct > (t.pctRes - t.pctResOld) % TWO_64 ==> t'.pctRes == t.pctResOld
    ensures cntpct <= (t.pctRes - t.pctResOld) % TWO_64 ==> t'.pctRes == t.pctRes
  {
    if cntpct > (t.pctRes - t.pctResOld) % TWO_64 then t.(pctRes := t.pctResOld) else t
  }

  /**
   * With the residual kept, the time after resuming is never earlier than
   * the time at suspend, whether or not the counter was reset, and across a
   * reset it continues from the time at suspend.
   */
  lemma ResumeKeepsTime(t: TimerContext, cv: U64, ctl: bv32, saved: U64, resumed: U64)
    requires t.pctRes + saved + resumed < TWO_64
    ensures var t' := RestoredContextKeepingResidual(SavedContextKeepingResidual(t, cv, ctl, saved), resumed);
      Total(resumed, t'.pctRes) >= Total(saved, t.pctRes)
      && (resumed <= saved ==> Total(resumed, t'.pctRes) == Total(saved, t.pctRes) + resumed)
  {
    var s := SavedContextKeepingResidual(t, cv, ctl, saved);
    assert s.pctRes == t.pctRes + saved;
  }

  // ===== System time =====

  /** The 64-bit sum of counter and residual that the time is derived from. */
  function Total(cntpct: U64, pctRes: U64): (total: U64)
    ensures total == cntpct + pctRes || total + TWO_64 == cntpct + pctRes
    ensures cntpct + pctRes < TWO_64 ==> total == cntpct + pctRes
  {
    WrapOnce(cntpct, pctRes);
    (cntpct + pctRes) % TWO_64
  }

  /**
   * cntpct_timer_get_sys_time's arithmetic on the 64-bit total: whole seconds
   * and the milliseconds of the remainder, each stored in a 32-bit field.  A
   * frequency below 1000 Hz would divide by zero.
   */
  function TimeOfTotal(total: nat, cntfrq: nat): (t: TeeTime)
    requires cntfrq >= TEE_TIME_MILLIS_BASE
    ensures t.seconds == (total / cntfrq) % TWO_32
    ensures t.millis <= total % cntfrq
  {
    var r := total % cntfrq;
    DivAtMost(r, cntfrq / TEE_TIME_MILLIS_BASE);
    TeeTime((total / cntfrq) % TWO_32, r / (cntfrq / TEE_TIME_MILLIS_BASE))
  }

  /** The time for counter `cntpct` and residual `pctRes`. */
  function SysTime(cntpct: U64, pctRes: U64, cntfrq: U32): (t: TeeTime)
    requires cntfrq >= TEE_TIME_MILLIS_BASE
    ensures t.seconds == (Total(cntpct, pctRes) / cntfrq) % TWO_32
    ensures t.millis <= Total(cntpct, pctRes) % cntfrq
  {
    TimeOfTotal(Total(cntpct, pctRes), cntfrq)
  }

  /** For a frequency that is a whole number of kHz, the millisecond field stays below 1000. */
  lemma MillisBelowOneSecond(cntpct: U64, pctRes: U64, cntfrq: U32)
    requires cntfrq >= TEE_TIME_MILLIS_BASE && cntfrq % TEE_TIME_MILLIS_BASE == 0
    ensures SysTime(cntpct, pctRes, cntfrq).millis < TEE_TIME_MILLIS_BASE
  {
    var k := cntfrq / TEE_TIME_MILLIS_BASE;
    var r := Total(cntpct, pctRes) % cntfrq;
    assert SysTime(cntpct, pctRes, cntfrq).millis == r / k;
    assert cntfrq == k * TEE_TIME_MILLIS_BASE;
    assert r < k * TEE_TIME_MILLIS_BASE;
    assert (r / k) * k <= r;
    MulCancelLess(r / k, TEE_TIME_MILLIS_BASE, k);
  }

  /** Without that condition the field can exceed a second's worth: 1998 ms at 1999 Hz. */
  lemma MillisOverflowOffKhz()
    ensures SysTime(1998, 0, 1999).millis == 1998
  {
  }

  /** A larger total never gives an earlier time, as long as the seconds field does not wrap. */
  lemma SysTimeMonotone(t1: nat, t2: nat, cntfrq: nat)
    requires cntfrq >= TEE_TIME_MILLIS_BASE && t1 <= t2 && t2 / cntfrq < TWO_32
    ensures TimeOfTotal(t1, cntfrq).seconds <= TimeOfTotal(t2, cntfrq).seconds
    ensures TimeOfTotal(t1, cntfrq).seconds == TimeOfTotal(t2, cntfrq).seconds ==>
      TimeOfTotal(t1, cntfrq).millis <= TimeOfTotal(t2, cntfrq).millis
  {
    TotalsMonotone(t1, t2, cntfrq);
    SecondsNoWrap(t1, cntfrq);
    SecondsNoWrap(t2, cntfrq);
  }

  /** Below 2^32 seconds the seconds field holds the quotient itself. */
  lemma SecondsNoWrap(t: nat, cntfrq: nat)
    requires cntfrq >= TEE_TIME_MILLIS_BASE && t / cntfrq < TWO_32
    ensures TimeOfTotal(t, cntfrq).seconds == t / cntfrq
    ensures TimeOfTotal(t, cntfrq).millis == (t % cntfrq) / (cntfrq / TEE_TIME_MILLIS_BASE)
  {
    ModBelow(t / cntfrq, TWO_32);
  }

  /** The seconds and milliseconds of two ordered totals are ordered lexicographically. */
  lemma TotalsMonotone(t1: nat, t2: nat, cntfrq: nat)
    requires cntfrq >= TEE_TIME_MILLIS_BASE && t1 <= t2
    ensures t1 / cntfrq <= t2 / cntfrq
    ensures t1 / cntfrq == t2 / cntfrq ==>
      (t1 % cntfrq) / (cntfrq / TEE_TIME_MILLIS_BASE) <= (t2 % cntfrq) / (cntfrq / TEE_TIME_MILLIS_BASE)
  {
    DivMonotone(t1, t2, cntfrq);
    if t1 / cntfrq == t2 / cntfrq {
      var q := t1 / cntfrq;
      assert t1 == q * cntfrq + t1 % cntfrq;
      assert t2 == q * cntfrq + t2 % cntfrq;
      DivMonotone(t1 % cntfrq, t2 % cntfrq, cntfrq / TEE_TIME_MILLIS_BASE);
    }
  }

  // ===== Arithmetic facts =====
  // Facts about natural-number division and multiplication that the
  // seconds and milliseconds lemmas above rely on; they model nothing of
  // the timer themselves.

  lemma DivAtMost(x: nat, d: nat)
    requires d > 0
    ensures x / d <= x
  {
    assert x / d * d <= x;
    MulMonotone(1, d, x / d);
  }

  lemma ModBelow(x: nat, m: nat)
    requires x < m
    ensures x % m == x
  {
  }

  lemma MulMonotone(a: nat, b: nat, c: nat)
    requires a <= b
    ensures a * c <= b * c
  {
  }

  /** `a * d < b * d` with `d > 0` gives `a < b`. */
  lemma MulCancelLess(a: nat, b: nat, d: nat)
    requires d > 0 && a * d < b * d
    ensures a < b
  {
    if b <= a {
      MulMonotone(b, a, d);
    }
  }

  /** The sum of two numbers below 2^64 wraps at most once. */
  lemma WrapOnce(a: nat, b: nat)
    requires a < TWO_64 && b < TWO_64
    ensures (a + b) % TWO_64 == (if a + b < TWO_64 then a + b else a + b - TWO_64)
  {
    if a + b >= TWO_64 {
      assert a + b == TWO_64 + (a + b - TWO_64);
    }
  }

  lemma DivMonotone(x: nat, y: nat, d: nat)
    requires x <= y && d > 0
    ensures x / d <= y / d
  {
    assert (x / d) * d <= x <= y < (y / d + 1) * d;
    MulCancelLess(x / d, y / d + 1, d);
  }

  // ===== The driver =====

  class CntpsTimer {
    /** CFG_TEE_CORE_NB_CORE */
    const nbCore: nat
    /** CNTPS_CTL_EL1 of each core. */
    var ctl: seq<bv32>
    /** CNTPS_CVAL_EL1 of each core, as the hardware holds it (64 bits). */
    var cval: seq<U64>
    /** pcpu_timer_context */
    const ctx: array<TimerContext>

    predicate Valid()
      reads this
    {
      |ctl| == nbCore && |cval| == nbCore && ctx.Length == nbCore
    }

    constructor (nbCore: nat)
      ensures this.nbCore == nbCore && Valid() && fresh(ctx)
      ensures forall c :: 0 <= c < nbCore ==> ctl[c] == 0 && cval[c] == 0 && ctx[c] == TimerContext(0, 0, 0, 0)
    {
      this.nbCore := nbCore;
      ctl := seq(nbCore, _ => 0);
      cval := seq(nbCore, _ => 0);
      ctx := new TimerContext[nbCore](_ => TimerContext(0, 0, 0, 0));
    }

    /**
     * cntps_timer_start: program the compare value one period ahead through
     * the 32-bit accessor and enable the timer with its interrupt unmasked.
     */
    method Start(core: nat, cntpct: U64, cntfrq: U32, hz: nat)
      requires Valid() && core < nbCore && hz > 0
      modifies this
      ensures Valid()
      ensures cval == old(cval)[core := Low32(Deadline(cntpct, cntfrq, hz))]
      ensures ctl == old(ctl)[core := SetCtlEnable(0)]
    {
      var v := Deadline(cntpct, cntfrq, hz);
      cval := cval[core := Low32(v)];
      var c: bv32 := 0;
      c := SetCtlEnable(c);
      ctl := ctl[core := c];
    }

    /**
     * cntps_timer_handler at counter value `cntpct`: the timer must have
     * asserted its interrupt, as a read of CTL shows; the handler disables it
     * and starts the next period.
     */
    method Handler(core: nat, cntpct: U64, cntfrq: U32, hz: nat)
      requires Valid() && core < nbCore && hz > 0
      requires GetCtlIstatus(ReadCtl(ctl[core], cval[core], cntpct)) == 1
      modifies this
      ensures Valid()
      ensures cval == old(cval)[core := Low32(Deadline(cntpct, cntfrq, hz))]
      ensures ctl == old(ctl)[core := SetCtlEnable(0)]
    {
      ctl := ctl[core := 0];
      Start(core, cntpct, cntfrq, hz);
    }

    /** cntps_timer_stop: disable the timer. */
    method Stop(core: nat)
      requires Valid() && core < nbCore
      modifies this
      ensures Valid() && cval == old(cval)
      ensures ctl == old(ctl)[core := 0] && GetCtlEnable(ctl[core]) == 0
    {
      ctl := ctl[core := 0];
    }

    /**
     * cntps_timer_save: record this core's registers as read back (CTL with
     * ISTATUS) and the counter; other entries are untouched.
     */
    method Save(core: nat, cntpct: U64)
      requires Valid() && core < nbCore
      modifies ctx
      ensures Valid()
      ensures ctx[..] == old(ctx[..])[core := SavedContext(old(ctx[core]), Low32(cval[core]),
                                                           ReadCtl(ctl[core], cval[core], cntpct), cntpct)]
    {
      ctx[core] := ctx[core].(cval := Low32(cval[core]));
      ctx[core] := ctx[core].(ctl := ReadCtl(ctl[core], cval[core], cntpct));
      ctx[core] := ctx[core].(pctResOld := ctx[core].pctRes);
      ctx[core] := ctx[core].(pctRes := cntpct);
    }

    /**
     * cntps_timer_restore: write the saved compare value (through the 32-bit
     * accessor) and control word back, then fix the residual.
     */
    method Restore(core: nat, cntpct: U64)
      requires Valid() && core < nbCore
      modifies this, ctx
      ensures Valid()
      ensures cval == old(cval)[core := Low32(old(ctx[core]).cval)]
      ensures ctl == old(ctl)[core := old(ctx[core]).ctl]
      ensures ctx[..] == old(ctx[..])[core := RestoredContext(old(ctx[core]), cntpct)]
    {
      cval := cval[core := Low32(ctx[core].cval)];
      ctl := ctl[core := ctx[core].ctl];
      if cntpct > ctx[core].pctRes {
        ctx[core] := ctx[core].(pctRes := ctx[core].pctResOld);
      }
    }

    /** cntpct_timer_get_sys_time: always TEE_SUCCESS, with the time of this core's residual. */
    method GetSysTime(core: nat, cntpct: U64, cntfrq: U32) returns (res: TeeResult, time: TeeTime)
      requires Valid() && core < nbCore && cntfrq >= TEE_TIME_MILLIS_BASE
      ensures res == TEE_SUCCESS
      ensures time == SysTime(cntpct, ctx[core].pctRes, cntfrq)
      ensures time.seconds == (Total(cntpct, ctx[core].pctRes) / cntfrq) % TWO_32
    {
      var pctRes := ctx[core].pctRes;
      time := SysTime(cntpct, pctRes, cntfrq);
      res := TEE_SUCCESS;
    }
  }
}
