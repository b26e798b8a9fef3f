/**
 * The bitbang transport: the process-wide pin register and the USB link to
 * the FT232R in synchronous-bitbang mode.  The chip is an oracle: the bytes
 * it reads back for an exchange are `device(n, written)`, a function of the
 * exchange's position n and of the three bytes written.
 */
module BitBangIo {
  import opened Pins

  class BitBang {
    /** The emulated output byte (bb_reg). */
    var reg: bv8
    /** Exchanges performed on the link so far. */
    var exchanges: nat
    /** Every frame written to the link, in order. */
    ghost var written: seq<Frame>
    /** The read-back behaviour of the attached hardware. */
    const device: (nat, Frame) -> Frame

    ghost predicate Valid()
      reads this
    {
      && OutputsOnly(reg)
      && exchanges == |written|
      && forall k :: 0 <= k < |written| ==> WellShaped(written[k])
    }

    /** The TDO bit the next pulse would return with register value r. */
    ghost function NextSample(r: bv8): (bit: int)
      reads this
      ensures bit == 0 || bit == 1
    {
      SampleTdo(device(exchanges, PulseFrame(r)))
    }

    /** Process start: the static register is zero, nothing written. */
    constructor (device: (nat, Frame) -> Frame)
      ensures Valid()
      ensures reg == 0 && exchanges == 0 && written == []
      ensures this.device == device
    {
      reg := 0;
      exchanges := 0;
      written := [];
      this.device := device;
    }

    /** bb_setup.  `openOk` is the outcome of opening the FT232R; when it
        fails the routine returns before the register is reset.  Baud rate,
        latency and bit mode are configured on the hardware only. */
    method Setup(openOk: bool)
      requires Valid()
      modifies this`reg
      ensures Valid()
      ensures reg == if openOk then 0 else old(reg)
    {
      if !openOk {
        return;
      }
      reg := 0;
    }

    /** bb_tms */
    method SetTms(val: int)
      requires Valid()
      modifies this`reg
      ensures Valid()
      ensures reg == WithTms(old(reg), val)
    {
      if val != 0 {
        reg := reg | TmsBit;
      } else {
        reg := reg & !TmsBit;
      }
    }

    /** bb_tdi */
    method SetTdi(val: int)
      requires Valid()
      modifies this`reg
      ensures Valid()
      ensures reg == WithTdi(old(reg), val)
    {
      if val != 0 {
        reg := reg | TdiBit;
      } else {
        reg := reg & !TdiBit;
      }
    }

    /** bb_pulse_tck: one write of three bytes, one read of three bytes, and
        the TDO bit of the third byte read. */
    method PulseTck() returns (tdo: int)
      requires Valid()
      modifies this`exchanges, this`written
      ensures Valid()
      ensures written == old(written) + [PulseFrame(reg)]
      ensures exchanges == old(exchanges) + 1
      ensures tdo == old(NextSample(reg))
      ensures tdo == 0 || tdo == 1
    {
      var out := PulseFrame(reg);
      PulseOfDrivenIsWellShaped(reg);
      var back := device(exchanges, out);
      exchanges := exchanges + 1;
      written := written + [out];
      tdo := SampleTdo(back);
    }
  }
}
