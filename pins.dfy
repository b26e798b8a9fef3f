/**
 * The emulated JTAG pin register of the FT232R synchronous-bitbang byte and
 * the three-byte frame written for one TCK pulse.  Pure byte logic: the
 * mutable register lives in BitBangIo.BitBang.
 */
module Pins {

  /** Bit assignments, by value.  (The comments beside the defines name other
      pins; the values below are the ones the program uses.) */
  const TmsBit: bv8 := 0x80
  const TdiBit: bv8 := 0x08
  const TdoBit: bv8 := 0x40
  const TckBit: bv8 := 0x20

  /** Direction mask handed to the chip: 1 marks an output pin. */
  const IoMask: bv8 := TmsBit | TdiBit | TckBit

  /** What the write phases of a pulse put on the wire, and what the read
      phases bring back. */
  datatype Frame = Frame(b0: bv8, b1: bv8, b2: bv8)

  /** The register drives only output pins, never TCK (which only the pulse
      raises, transiently) and never the input TDO. */
  predicate OutputsOnly(reg: bv8)
  {
    reg & !IoMask == 0 && reg & TckBit == 0 && reg & TdoBit == 0
  }

  /** Setting TMS from a C truth value (bb_tms). */
  function WithTms(reg: bv8, val: int): (r: bv8)
    ensures r & TmsBit == (if val != 0 then TmsBit else 0)
    ensures r & !TmsBit == reg & !TmsBit
    ensures OutputsOnly(reg) ==> OutputsOnly(r)
  {
    if val != 0 then reg | TmsBit else reg & !TmsBit
  }

  /** Setting TDI from a C truth value (bb_tdi). */
  function WithTdi(reg: bv8, val: int): (r: bv8)
    ensures r & TdiBit == (if val != 0 then TdiBit else 0)
    ensures r & !TdiBit == reg & !TdiBit
    ensures OutputsOnly(reg) ==> OutputsOnly(r)
  {
    if val != 0 then reg | TdiBit else reg & !TdiBit
  }

  /** The register after the TMS and TDI updates of one clocked-bit exchange:
      TMS always, TDI only for a significant (non-negative) tdi. */
  function Drive(reg: bv8, tms: int, tdi: int): (r: bv8)
    ensures r & TmsBit == (if tms != 0 then TmsBit else 0)
    ensures tdi >= 0 ==> r & TdiBit == (if tdi != 0 then TdiBit else 0)
    ensures tdi < 0 ==> r & TdiBit == reg & TdiBit
    ensures r & !(TmsBit | TdiBit) == reg & !(TmsBit | TdiBit)
    ensures OutputsOnly(reg) ==> OutputsOnly(r)
  {
    var withTms := WithTms(reg, tms);
    if tdi >= 0 then WithTdi(withTms, tdi) else withTms
  }

  /** The frame written for one pulse: clock low, clock high, clock low. */
  function PulseFrame(reg: bv8): (f: Frame)
    ensures f.b0 == f.b2
    ensures f.b0 & TckBit == 0 && f.b1 & TckBit == TckBit
    ensures f.b0 ^ f.b1 == TckBit
    ensures f.b0 & !TckBit == reg & !TckBit
  {
    var low := reg & !TckBit;
    Frame(low, reg | TckBit, low)
  }

  /** A frame as every pulse of this layer writes it: phases 0 and 2 equal
      with the clock low, phase 1 the same byte with only the clock raised,
      and no pin driven but TMS and TDI. */
  predicate WellShaped(f: Frame)
  {
    && f.b0 == f.b2
    && f.b1 == f.b0 | TckBit
    && f.b0 ^ f.b1 == TckBit
    && OutputsOnly(f.b0)
  }

  /** TDO as read back in the third phase, after the rising clock edge. */
  function SampleTdo(readBack: Frame): (bit: int)
    ensures bit == 0 || bit == 1
    ensures bit == 1 <==> readBack.b2 & TdoBit != 0
  {
    if readBack.b2 & TdoBit != 0 then 1 else 0
  }

  lemma PulseOfDrivenIsWellShaped(reg: bv8)
    requires OutputsOnly(reg)
    ensures WellShaped(PulseFrame(reg))
  {
  }

  /** A step of the pin-level protocol, as the adapter issues them.  These
      are the same functions BitBangIo.BitBang's SetTms, SetTdi and PulseTck
      are specified by, so FramesOf is the trace such a sequence of calls
      leaves in BitBang.written; the class keeps the per-call form of the
      lemma below in its Valid(). */
  datatype PinOp = SetTms(tms: int) | SetTdi(tdi: int) | Pulse

  function Step(reg: bv8, op: PinOp): bv8
  {
    match op
    case SetTms(v) => WithTms(reg, v)
    case SetTdi(v) => WithTdi(reg, v)
    case Pulse => reg
  }

  /** The register after a sequence of steps. */
  function RegisterAfter(reg: bv8, ops: seq<PinOp>): bv8
    decreases |ops|
  {
    if ops == [] then reg else RegisterAfter(Step(reg, ops[0]), ops[1..])
  }

  /** The frames a sequence of steps writes, in order. */
  function FramesOf(reg: bv8, ops: seq<PinOp>): seq<Frame>
    decreases |ops|
  {
    if ops == [] then []
    else
      var here := if ops[0].Pulse? then [PulseFrame(reg)] else [];
      here + FramesOf(Step(reg, ops[0]), ops[1..])
  }

  /** For every interleaving of TMS/TDI updates and pulses started from a
      register that keeps to the output pins (FromReset: the reset value 0):
      the register keeps to the output pins, and every frame written is well
      shaped. */
  lemma {:induction false} EveryFrameWellShaped(reg: bv8, ops: seq<PinOp>)
    requires OutputsOnly(reg)
    ensures OutputsOnly(RegisterAfter(reg, ops))
    ensures forall k :: 0 <= k < |FramesOf(reg, ops)| ==> WellShaped(FramesOf(reg, ops)[k])
    decreases |ops|
  {
    if ops != [] {
      var next := Step(reg, ops[0]);
      EveryFrameWellShaped(next, ops[1..]);
      PulseOfDrivenIsWellShaped(reg);
    }
  }

  lemma FromReset(ops: seq<PinOp>)
    ensures OutputsOnly(RegisterAfter(0, ops))
    ensures forall k :: 0 <= k < |FramesOf(0, ops)| ==> WellShaped(FramesOf(0, ops)[k])
  {
    EveryFrameWellShaped(0, ops);
  }
}
