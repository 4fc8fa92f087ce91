/**
 * The GICv3 hardware the secure-world driver talks to (Arm IHI 0069): the
 * Distributor register frame, the SGI frames of the Redistributors (one per
 * core, found by the address of its frame), and the CPU interface system
 * registers ICC_*.  Register offsets and field positions are those of the
 * architecture; the driver obtains them from headers that are not part of
 * this model.
 *
 * The per-interrupt registers that hold one bit per ID are banked in 32-bit
 * words (word `id / 32`, bit `id % 32`); the Distributor has 32 such words
 * per register (IDs 0..1023), a Redistributor SGI frame has one (IDs 0..31).
 * ISENABLER/ICENABLER and ISPENDR/ICPENDR are the write-1-to-set and
 * write-1-to-clear views of one enable and one pending state.
 *
 * Every write the driver makes, every register-write-pending wait, every
 * acknowledge, handler call and end-of-interrupt is appended to the ghost
 * `trace`, so that the order and the number of accesses can be specified.
 */
module GicHw {
  import opened Bits
  import opened Wrappers

  // Distributor register offsets from GICD_base
  const GICD_CTLR: nat := 0x0000
  const GICD_TYPER: nat := 0x0004
  const GICD_IGROUPR: nat := 0x0080
  const GICD_ISENABLER: nat := 0x0100
  const GICD_ICENABLER: nat := 0x0180
  const GICD_ISPENDR: nat := 0x0200
  const GICD_ICPENDR: nat := 0x0280
  const GICD_IPRIORITYR: nat := 0x0400
  const GICD_IGRPMODR: nat := 0x0D00
  const GICD_IROUTER: nat := 0x6000

  // Redistributor register offsets from RD_base; the SGI frame follows at 64 KiB
  const GICR_CTLR: nat := 0x0000
  const GICR_TYPER: nat := 0x0008
  const GICR_SGIBASE_OFFSET: nat := 0x10000
  const GICR_IGROUPR0: nat := GICR_SGIBASE_OFFSET + GICD_IGROUPR
  const GICR_ISENABLER0: nat := GICR_SGIBASE_OFFSET + GICD_ISENABLER
  const GICR_ICENABLER0: nat := GICR_SGIBASE_OFFSET + GICD_ICENABLER
  const GICR_ISPENDR0: nat := GICR_SGIBASE_OFFSET + GICD_ISPENDR
  const GICR_ICPENDR0: nat := GICR_SGIBASE_OFFSET + GICD_ICPENDR
  const GICR_IPRIORITYR: nat := GICR_SGIBASE_OFFSET + GICD_IPRIORITYR
  const GICR_IGRPMODR0: nat := GICR_SGIBASE_OFFSET + GICD_IGRPMODR

  /** Each Redistributor occupies two 64 KiB frames: `1 << GICR_PCPUBASE_SHIFT` bytes. */
  const GICR_PCPUBASE_SHIFT: nat := 17
  const GICR_FRAME_STRIDE: nat := 0x20000

  /** GICD_TYPER.ITLinesNumber is five bits wide, so at most 32 * 32 interrupt IDs. */
  const MAX_INTIDS: nat := 1024
  const DIST_WORDS: nat := 32
  const RDIST_WORDS: nat := 1

  // GICD_CTLR fields
  const CTLR_ENABLE_G1S_BIT: bv32 := 0x4
  const CTLR_ARE_S_BIT: bv32 := 0x10

  // GICR_TYPER fields
  const TYPER_LAST_BIT: bv64 := 0x10
  const TYPER_PROC_NUM_SHIFT: bv64 := 8
  const TYPER_PROC_NUM_MASK: bv64 := 0xFFFF

  /** The one-bit-per-ID registers. */
  datatype BitReg = Group | GroupMod | Enable | Pending

  /**
   * The interrupt state a register frame holds: IGROUPR, IGRPMODR, the
   * enable and pending state, one word per 32 IDs, and the IPRIORITYR
   * words, one byte lane per ID (byte `id % 4` of word `id / 4`).
   */
  datatype Bank = Bank(group: seq<bv32>, groupMod: seq<bv32>, enable: seq<bv32>,
                       pending: seq<bv32>, priority: seq<bv32>)

  function Words(b: Bank, r: BitReg): seq<bv32>
  {
    match r
    case Group => b.group
    case GroupMod => b.groupMod
    case Enable => b.enable
    case Pending => b.pending
  }

  function WithWords(b: Bank, r: BitReg, ws: seq<bv32>): (b': Bank)
    ensures Words(b', r) == ws
    ensures forall r' :: r' != r ==> Words(b', r') == Words(b, r')
    ensures b'.priority == b.priority
  {
    match r
    case Group => b.(group := ws)
    case GroupMod => b.(groupMod := ws)
    case Enable => b.(enable := ws)
    case Pending => b.(pending := ws)
  }

  /** A bank with `nwords` words per bit register and one priority byte per ID. */
  ghost predicate BankShape(b: Bank, nwords: nat)
  {
    |b.group| == nwords && |b.groupMod| == nwords && |b.enable| == nwords
    && |b.pending| == nwords && |b.priority| == 8 * nwords
  }

  /** Whether the bit of interrupt `id` is set in register `r` of bank `b`. */
  predicate IdBit(b: Bank, r: BitReg, id: nat)
    requires id / 32 < |Words(b, r)|
  {
    Bit(Words(b, r)[id / 32], BitNum(id)) == 1
  }

  /** `b` with the bit of `id` in register `r` set. */
  function SetIdBit(b: Bank, r: BitReg, id: nat): (b': Bank)
    requires id / 32 < |Words(b, r)|
    ensures |Words(b', r)| == |Words(b, r)|
    ensures IdBit(b', r, id)
  {
    var ws := Words(b, r);
    WithWords(b, r, ws[id / 32 := SetBit(ws[id / 32], BitNum(id))])
  }

  /** `b` with the bit of `id` in register `r` cleared. */
  function ClrIdBit(b: Bank, r: BitReg, id: nat): (b': Bank)
    requires id / 32 < |Words(b, r)|
    ensures |Words(b', r)| == |Words(b, r)|
    ensures !IdBit(b', r, id)
  {
    var ws := Words(b, r);
    WithWords(b, r, ws[id / 32 := ClrBit(ws[id / 32], BitNum(id))])
  }

  /** Setting or clearing the bit of `id` leaves the bits of every other ID and every other register as they were. */
  lemma IdBitFrame(b: Bank, r: BitReg, id: nat, r': BitReg, j: nat)
    requires id / 32 < |Words(b, r)| && j / 32 < |Words(b, r')|
    requires r' != r || j != id
    ensures IdBit(SetIdBit(b, r, id), r', j) == IdBit(b, r', j)
    ensures IdBit(ClrIdBit(b, r, id), r', j) == IdBit(b, r', j)
  {
    var ws := Words(b, r);
    var w := ws[id / 32];
    var s := SetIdBit(b, r, id);
    var c := ClrIdBit(b, r, id);
    if r' != r {
      assert Words(s, r') == Words(b, r') && Words(c, r') == Words(b, r');
    } else if j / 32 != id / 32 {
      assert Words(s, r)[j / 32] == ws[j / 32] && Words(c, r)[j / 32] == ws[j / 32];
    } else {
      assert j % 32 != id % 32 by {
        assert j == 32 * (j / 32) + j % 32 && id == 32 * (id / 32) + id % 32;
      }
      assert Words(s, r)[j / 32] == SetBit(w, BitNum(id));
      assert Words(c, r)[j / 32] == ClrBit(w, BitNum(id));
      SetBitOther(w, BitNum(id), BitNum(j));
      ClrBitOther(w, BitNum(id), BitNum(j));
    }
  }

  /** Setting a bit of `id` that is set, or clearing one that is clear, leaves the bank as it was. */
  lemma IdBitNoop(b: Bank, r: BitReg, id: nat)
    requires id / 32 < |Words(b, r)|
    ensures IdBit(b, r, id) ==> SetIdBit(b, r, id) == b
    ensures !IdBit(b, r, id) ==> ClrIdBit(b, r, id) == b
  {
    var ws := Words(b, r);
    SetClrNoop(ws[id / 32], BitNum(id));
    assert ws[id / 32 := ws[id / 32]] == ws;
    assert WithWords(b, r, ws) == b;
  }

  /** How a 32-bit write to a register acts on the state behind it. */
  datatype WriteMode = Replace | SetOnes | ClearOnes

  /** A 32-bit register of a bank: a word of a bit register, or a word of four priority bytes. */
  datatype BankReg32 = BitWord(reg: BitReg, mode: WriteMode, n: nat) | PriorityWord(n: nat)

  /**
   * Which register a 32-bit access at byte offset `off` of a Distributor
   * frame (or of a Redistributor SGI frame, whose layout is the same) reaches,
   * for a bank of `nwords` words per bit register.
   */
  function DecodeBank32(off: nat, nwords: nat): Option<BankReg32>
  {
    if off % 4 != 0 then None
    else if GICD_IGROUPR <= off < GICD_IGROUPR + 4 * nwords then
      Some(BitWord(Group, Replace, (off - GICD_IGROUPR) / 4))
    else if GICD_ISENABLER <= off < GICD_ISENABLER + 4 * nwords then
      Some(BitWord(Enable, SetOnes, (off - GICD_ISENABLER) / 4))
    else if GICD_ICENABLER <= off < GICD_ICENABLER + 4 * nwords then
      Some(BitWord(Enable, ClearOnes, (off - GICD_ICENABLER) / 4))
    else if GICD_ISPENDR <= off < GICD_ISPENDR + 4 * nwords then
      Some(BitWord(Pending, SetOnes, (off - GICD_ISPENDR) / 4))
    else if GICD_ICPENDR <= off < GICD_ICPENDR + 4 * nwords then
      Some(BitWord(Pending, ClearOnes, (off - GICD_ICPENDR) / 4))
    else if GICD_IGRPMODR <= off < GICD_IGRPMODR + 4 * nwords then
      Some(BitWord(GroupMod, Replace, (off - GICD_IGRPMODR) / 4))
    else if GICD_IPRIORITYR <= off < GICD_IPRIORITYR + 32 * nwords then
      Some(PriorityWord((off - GICD_IPRIORITYR) / 4))
    else None
  }

  /** Whether the register an access names exists in a bank of shape `nwords`. */
  predicate InBank(b: Bank, t: BankReg32)
  {
    match t
    case BitWord(r, _, n) => n < |Words(b, r)|
    case PriorityWord(n) => n < |b.priority|
  }

  /** Byte lane `k` of a word (little-endian), as the low byte of a word. */
  function Lane(w: bv32, k: bv32): (r: bv32)
    requires k < 4
    ensures r <= 0xFF
  {
    (w >> (8 * k)) & 0xFF
  }

  /** `w` with byte lane `k` replaced by the low byte of `v`. */
  function SetLane(w: bv32, k: bv32, v: bv32): (r: bv32)
    requires k < 4
    ensures Lane(r, k) == v & 0xFF
  {
    (w & !(0xFF << (8 * k))) | ((v & 0xFF) << (8 * k))
  }

  lemma SetLaneOther(w: bv32, k: bv32, j: bv32, v: bv32)
    requires k < 4 && j < 4 && j != k
    ensures Lane(SetLane(w, k, v), j) == Lane(w, j)
  {
  }

  function LaneNum(id: nat): (k: bv32)
    ensures k < 4 && k as nat == id % 4
  {
    (id % 4) as bv2 as bv32
  }

  /** The priority of interrupt `id` in bank `b`. */
  function Priority(b: Bank, id: nat): bv32
    requires id / 4 < |b.priority|
  {
    Lane(b.priority[id / 4], LaneNum(id))
  }

  /** `b` with the priority byte of `id` replaced by the low byte of `v`. */
  function SetPriority(b: Bank, id: nat, v: bv32): (b': Bank)
    requires id / 4 < |b.priority|
    ensures |b'.priority| == |b.priority|
    ensures Priority(b', id) == v & 0xFF
    ensures forall r :: Words(b', r) == Words(b, r)
  {
    b.(priority := b.priority[id / 4 := SetLane(b.priority[id / 4], LaneNum(id), v)])
  }

  /** Writing a lane with the byte it already holds leaves the word as it was. */
  lemma SetLaneNoop(w: bv32, k: bv32, v: bv32)
    requires k < 4 && Lane(w, k) == v & 0xFF
    ensures SetLane(w, k, v) == w
  {
  }

  /** Writing the priority `id` already has leaves the bank as it was. */
  lemma SetPriorityNoop(b: Bank, id: nat, v: bv32)
    requires id / 4 < |b.priority| && Priority(b, id) == v & 0xFF
    ensures SetPriority(b, id, v) == b
  {
    SetLaneNoop(b.priority[id / 4], LaneNum(id), v);
    assert b.priority[id / 4 := b.priority[id / 4]] == b.priority;
  }

  /** Writing the priority byte of `id` leaves the priority of every other ID as it was. */
  lemma SetPriorityOther(b: Bank, id: nat, v: bv32, j: nat)
    requires id / 4 < |b.priority| && j / 4 < |b.priority| && j != id
    ensures Priority(SetPriority(b, id, v), j) == Priority(b, j)
  {
    if j / 4 == id / 4 {
      assert j % 4 != id % 4 by {
        assert j == 4 * (j / 4) + j % 4 && id == 4 * (id / 4) + id % 4;
      }
      SetLaneOther(b.priority[id / 4], LaneNum(id), LaneNum(j), v);
    }
  }

  /** The word a register holds after a write of `v` in mode `mode` to a register that held `w`. */
  function NewWord(mode: WriteMode, w: bv32, v: bv32): bv32
  {
    match mode
    case Replace => v
    case SetOnes => w | v
    case ClearOnes => w & !v
  }

  /** The value a 32-bit read of register `t` returns. */
  function ReadBank32(b: Bank, t: BankReg32): bv32
    requires InBank(b, t)
  {
    match t
    case BitWord(r, _, n) => Words(b, r)[n]
    case PriorityWord(n) => b.priority[n]
  }

  /** The state after a 32-bit write of `v` to register `t`. */
  function WriteBank32(b: Bank, t: BankReg32, v: bv32): (b': Bank)
    requires InBank(b, t)
    ensures forall r' :: |Words(b', r')| == |Words(b, r')|
    ensures |b'.priority| == |b.priority|
  {
    match t
    case BitWord(r, mode, n) => WithWords(b, r, Words(b, r)[n := NewWord(mode, Words(b, r)[n], v)])
    case PriorityWord(n) => b.(priority := b.priority[n := v])
  }

  /** The GICv3 system registers the driver writes to generate SGIs. */
  datatype SgiReg = ICC_SGI1R_EL1 | ICC_ASGI1R_EL1

  /** One observable step of the driver against the interrupt controller. */
  datatype Event =
    | Wr32(addr: nat, val: bv32)
    | Wr8(addr: nat, byte: bv32)      // an 8-bit write; the value is below 0x100
    | Wr64(addr: nat, dword: bv64)
    | RwpWait(base: nat)              // wait for GICD/GICR_CTLR.RWP of the frame at `base`
    | SgiWrite(reg: SgiReg, sgir: bv64)  // the value as the 32-bit accessor passes it on
    | Ack(intid: bv32)                // read of ICC_IAR1_EL1
    | Handler(intid: bv32)            // call of the registered handler
    | Eoi(intid: bv32)                // write of ICC_EOIR1_EL1
    | Isb

  predicate IsWait(e: Event) { e.RwpWait? }

  /** The controller state the driver can change, apart from the trace. */
  datatype GicState = GicState(gicdCtlr: bv32, dist: Bank, irouter: seq<bv64>,
                               rdist: map<nat, Bank>, hppir1: bv32, iar1: bv32)

  /** Every bank has the size the architecture gives it, and there is an IROUTER per ID. */
  ghost predicate ValidState(s: GicState)
  {
    BankShape(s.dist, DIST_WORDS) && |s.irouter| == MAX_INTIDS
    && (forall f :: f in s.rdist ==> BankShape(s.rdist[f], RDIST_WORDS))
  }

  class GicHardware {
    const gicdBase: nat
    const gicdTyper: bv32
    /** RD_base of the first Redistributor and the GICR_TYPER of each frame, in address order. */
    const rdBase: nat
    const rdTypers: seq<bv64>

    var gicdCtlr: bv32
    var dist: Bank
    var irouter: seq<bv64>            // GICD_IROUTER<n>, indexed by interrupt ID
    var rdist: map<nat, Bank>         // SGI frame state, keyed by the frame's RD_base
    var hppir1: bv32                  // what ICC_HPPIR1_EL1 reads now
    var iar1: bv32                    // what the next read of ICC_IAR1_EL1 returns
    ghost var trace: seq<Event>

    ghost predicate Valid()
      reads this
    {
      ValidState(State()) && gicdBase !in rdist
    }

    function State(): GicState
      reads this
    {
      GicState(gicdCtlr, dist, irouter, rdist, hppir1, iar1)
    }

    /** The RD_base of Redistributor frame `k`. */
    function FrameAddr(k: nat): nat
      reads this
    {
      rdBase + k * GICR_FRAME_STRIDE
    }

    predicate IsFrame(base: nat)
      reads this
    {
      rdBase <= base && (base - rdBase) % GICR_FRAME_STRIDE == 0
      && (base - rdBase) / GICR_FRAME_STRIDE < |rdTypers|
    }

    /** Frame `k`'s RD_base is a frame address, and its GICR_TYPER is the `k`-th. */
    lemma FrameTyper(k: nat)
      requires k < |rdTypers|
      ensures IsFrame(FrameAddr(k)) && ReadGicrTyper(FrameAddr(k)) == rdTypers[k]
    {
      assert FrameAddr(k) - rdBase == k * GICR_FRAME_STRIDE;
    }

    constructor (gicdBase: nat, gicdTyper: bv32, gicdCtlr: bv32, dist: Bank, irouter: seq<bv64>,
                 rdBase: nat, rdTypers: seq<bv64>, rdist: map<nat, Bank>, hppir1: bv32, iar1: bv32)
      requires BankShape(dist, DIST_WORDS) && |irouter| == MAX_INTIDS
      requires forall f :: f in rdist ==> BankShape(rdist[f], RDIST_WORDS)
      requires gicdBase !in rdist
      ensures Valid() && trace == []
      ensures this.gicdBase == gicdBase && this.gicdTyper == gicdTyper
      ensures this.rdBase == rdBase && this.rdTypers == rdTypers
      ensures State() == GicState(gicdCtlr, dist, irouter, rdist, hppir1, iar1)
    {
      this.gicdBase, this.gicdTyper, this.gicdCtlr := gicdBase, gicdTyper, gicdCtlr;
      this.dist, this.irouter := dist, irouter;
      this.rdBase, this.rdTypers, this.rdist := rdBase, rdTypers, rdist;
      this.hppir1, this.iar1 := hppir1, iar1;
      trace := [];
    }

    /** Offsets a 32-bit read may use: GICD_CTLR, GICD_TYPER and the banked registers. */
    predicate Readable32(base: nat, off: nat)
      reads this
    {
      (base == gicdBase && (off == GICD_CTLR || off == GICD_TYPER || DecodeBank32(off, DIST_WORDS).Some?))
      || (base in rdist && GICR_SGIBASE_OFFSET <= off
          && DecodeBank32(off - GICR_SGIBASE_OFFSET, RDIST_WORDS).Some?)
    }

    /** Offsets a 32-bit write may use: GICD_TYPER is read-only. */
    predicate Writable32(base: nat, off: nat)
      reads this
    {
      Readable32(base, off) && !(base == gicdBase && off == GICD_TYPER)
    }

    /** `read32(base + off)`. */
    function Read32(base: nat, off: nat): bv32
      requires Valid() && Readable32(base, off)
      reads this
    {
      if base == gicdBase then
        if off == GICD_CTLR then gicdCtlr
        else if off == GICD_TYPER then gicdTyper
        else ReadBank32(dist, DecodeBank32(off, DIST_WORDS).value)
      else ReadBank32(rdist[base], DecodeBank32(off - GICR_SGIBASE_OFFSET, RDIST_WORDS).value)
    }

    /** The state after `write32(v, base + off)`. */
    ghost function After32(base: nat, off: nat, v: bv32): GicState
      requires Valid() && Writable32(base, off)
      reads this
    {
      if base == gicdBase then
        if off == GICD_CTLR then State().(gicdCtlr := v)
        else State().(dist := WriteBank32(dist, DecodeBank32(off, DIST_WORDS).value, v))
      else State().(rdist := rdist[base := WriteBank32(rdist[base],
                                                       DecodeBank32(off - GICR_SGIBASE_OFFSET, RDIST_WORDS).value, v)])
    }

    /** `write32(v, base + off)`. */
    method Write32(base: nat, off: nat, v: bv32)
      requires Valid() && Writable32(base, off)
      modifies this
      ensures Valid()
      ensures State() == old(After32(base, off, v))
      ensures trace == old(trace) + [Wr32(base + off, v)]
    {
      if base == gicdBase {
        if off == GICD_CTLR {
          gicdCtlr := v;
        } else {
          dist := WriteBank32(dist, DecodeBank32(off, DIST_WORDS).value, v);
        }
      } else {
        rdist := rdist[base := WriteBank32(rdist[base], DecodeBank32(off - GICR_SGIBASE_OFFSET, RDIST_WORDS).value, v)];
      }
      trace := trace + [Wr32(base + off, v)];
    }

    /** Offsets an 8-bit write may use: the IPRIORITYR bytes. */
    predicate Writable8(base: nat, off: nat)
      reads this
    {
      (base == gicdBase && GICD_IPRIORITYR <= off < GICD_IPRIORITYR + MAX_INTIDS)
      || (base in rdist && GICR_IPRIORITYR <= off < GICR_IPRIORITYR + 32)
    }

    /** `write8(v, base + off)`: sets the priority byte of one ID. */
    method Write8(base: nat, off: nat, v: bv32)
      requires Valid() && Writable8(base, off) && v <= 0xFF
      modifies this
      ensures Valid()
      ensures base == gicdBase ==>
                State() == old(State().(dist := SetPriority(dist, off - GICD_IPRIORITYR, v)))
      ensures base != gicdBase ==>
                State() == old(State().(rdist := rdist[base := SetPriority(rdist[base], off - GICR_IPRIORITYR, v)]))
      ensures trace == old(trace) + [Wr8(base + off, v)]
    {
      if base == gicdBase {
        dist := SetPriority(dist, off - GICD_IPRIORITYR, v);
      } else {
        rdist := rdist[base := SetPriority(rdist[base], off - GICR_IPRIORITYR, v)];
      }
      trace := trace + [Wr8(base + off, v)];
    }

    /** `read64(base + GICR_TYPER)` of Redistributor frame `base`. */
    function ReadGicrTyper(base: nat): bv64
      requires IsFrame(base)
      reads this
    {
      rdTypers[(base - rdBase) / GICR_FRAME_STRIDE]
    }

    /** `write64(v, base + GICD_IROUTER + 8 * id)`, for a shared ID. */
    method WriteIrouter(base: nat, id: nat, v: bv64)
      requires Valid() && base == gicdBase && id < MAX_INTIDS
      modifies this
      ensures Valid()
      ensures State() == old(State().(irouter := irouter[id := v]))
      ensures trace == old(trace) + [Wr64(base + GICD_IROUTER + 8 * id, v)]
    {
      irouter := irouter[id := v];
      trace := trace + [Wr64(base + GICD_IROUTER + 8 * id, v)];
    }

    /** Busy-wait until GICD_CTLR.RWP (or GICR_CTLR.RWP) of the frame at `base` reads 0. */
    method WaitForPendingWrite(base: nat)
      modifies this
      ensures State() == old(State())
      ensures trace == old(trace) + [RwpWait(base)]
    {
      trace := trace + [RwpWait(base)];
    }

    /**
     * A write to ICC_SGI1R_EL1 or ICC_ASGI1R_EL1 through the driver's
     * `uint32_t` accessor: only the low 32 bits of `v` reach the register.
     */
    method WriteSgiReg(r: SgiReg, v: bv64)
      modifies this
      ensures State() == old(State())
      ensures trace == old(trace) + [SgiWrite(r, v & 0xFFFF_FFFF)]
    {
      trace := trace + [SgiWrite(r, v & 0xFFFF_FFFF)];
    }

    /** Read of ICC_IAR1_EL1: returns the acknowledged INTID and records the acknowledge. */
    method ReadIar1() returns (v: bv32)
      modifies this
      ensures v == old(iar1)
      ensures State() == old(State())
      ensures trace == old(trace) + [Ack(v)]
    {
      v := iar1;
      trace := trace + [Ack(v)];
    }

    /** Write of ICC_EOIR1_EL1 followed by an ISB. */
    method WriteEoir1(id: bv32)
      modifies this
      ensures State() == old(State())
      ensures trace == old(trace) + [Eoi(id), Isb]
    {
      trace := trace + [Eoi(id), Isb];
    }

    /** The framework's handler for `id` ran (itr_handle); its own effects are outside this model. */
    method NoteHandler(id: bv32)
      modifies this
      ensures State() == old(State())
      ensures trace == old(trace) + [Handler(id)]
    {
      trace := trace + [Handler(id)];
    }
  }

  /** A read-modify-write that sets or clears the bit of `id` in its word. */
  lemma ReadModifyWriteEffect(b: Bank, r: BitReg, id: nat)
    requires id / 32 < |Words(b, r)|
    ensures WriteBank32(b, BitWord(r, Replace, id / 32), SetBit(Words(b, r)[id / 32], BitNum(id))) == SetIdBit(b, r, id)
    ensures WriteBank32(b, BitWord(r, Replace, id / 32), ClrBit(Words(b, r)[id / 32], BitNum(id))) == ClrIdBit(b, r, id)
  {
  }

  /** A W1S write of `1 << b` to a word sets bit `b`. */
  lemma OneHotSetEffect(w: bv32, b: bv32)
    requires b < 32
    ensures NewWord(SetOnes, w, OneHot(b)) == SetBit(w, b)
  {
  }

  /** A W1C write of `1 << b` to a word clears bit `b`. */
  lemma OneHotClearEffect(w: bv32, b: bv32)
    requires b < 32
    ensures NewWord(ClearOnes, w, OneHot(b)) == ClrBit(w, b)
  {
  }

  /** A W1S write of `1 << (id % 32)` sets the bit of `id`, a W1C write of it clears it. */
  lemma OneHotWriteBankEffect(b: Bank, r: BitReg, id: nat)
    requires id / 32 < |Words(b, r)|
    ensures WriteBank32(b, BitWord(r, SetOnes, id / 32), OneHot(BitNum(id))) == SetIdBit(b, r, id)
    ensures WriteBank32(b, BitWord(r, ClearOnes, id / 32), OneHot(BitNum(id))) == ClrIdBit(b, r, id)
  {
    OneHotSetEffect(Words(b, r)[id / 32], BitNum(id));
    OneHotClearEffect(Words(b, r)[id / 32], BitNum(id));
  }

  /** Clearing a bit that was set and setting it again gives back the bank it started from. */
  lemma ClrThenSetRestores(b: Bank, r: BitReg, id: nat)
    requires id / 32 < |Words(b, r)| && IdBit(b, r, id)
    ensures SetIdBit(ClrIdBit(b, r, id), r, id) == b
  {
    var w := Words(b, r)[id / 32];
    SetAfterClr(w, BitNum(id));
    assert Words(SetIdBit(ClrIdBit(b, r, id), r, id), r) == Words(b, r);
  }

  /** Offsets of the registers the accessors use decode to the intended register and word. */
  lemma DecodeBitWords(n: nat, nwords: nat)
    requires n < nwords <= 32
    ensures DecodeBank32(GICD_IGROUPR + 4 * n, nwords) == Some(BitWord(Group, Replace, n))
    ensures DecodeBank32(GICD_ISENABLER + 4 * n, nwords) == Some(BitWord(Enable, SetOnes, n))
    ensures DecodeBank32(GICD_ICENABLER + 4 * n, nwords) == Some(BitWord(Enable, ClearOnes, n))
    ensures DecodeBank32(GICD_ISPENDR + 4 * n, nwords) == Some(BitWord(Pending, SetOnes, n))
    ensures DecodeBank32(GICD_ICPENDR + 4 * n, nwords) == Some(BitWord(Pending, ClearOnes, n))
    ensures DecodeBank32(GICD_IGRPMODR + 4 * n, nwords) == Some(BitWord(GroupMod, Replace, n))
  {
  }

  lemma DecodePriorityWord(n: nat, nwords: nat)
    requires n < 8 * nwords && nwords <= 32
    ensures DecodeBank32(GICD_IPRIORITYR + 4 * n, nwords) == Some(PriorityWord(n))
  {
  }
}
