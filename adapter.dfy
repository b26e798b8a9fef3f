/**
 * The host callbacks the libxsvf engine calls through its capability table,
 * over the session state of one run (struct udata_s), and the printing of
 * the captured bits at the end of main.
 */
module Adapter {
  import opened Pins
  import opened BitBangIo
  import opened Timing
  import opened Capture

  /** A repetition of one frame. */
  function Repeat(f: Frame, n: nat): (s: seq<Frame>)
    ensures |s| == n && forall k :: 0 <= k < n ==> s[k] == f
  {
    if n == 0 then [] else Repeat(f, n - 1) + [f]
  }

  class Host {
    /** Pulses issued by the clocked-bit exchange. */
    var clockcount: int
    /** Significant TDI bits driven. */
    var bitcountTdi: int
    /** Significant TDO bits compared. */
    var bitcountTdo: int
    /** Captured bits so far (retval_i). */
    var retvalI: int
    /** The capture buffer (retval[256]). */
    const retval: array<int>
    /** The pin register and the USB link. */
    const bb: BitBang

    /** The capture buffer: retval_i never passes the capacity, the slots
        below it hold sampled bits, the slots from it on are still zero. */
    ghost predicate CaptureOk()
      reads this, retval
    {
      && retval.Length == Capacity
      && 0 <= retvalI <= Capacity
      && (forall k :: 0 <= k < retvalI ==> retval[k] == 0 || retval[k] == 1)
      && (forall k :: retvalI <= k < Capacity ==> retval[k] == 0)
    }

    ghost predicate Valid()
      reads this, retval, bb
    {
      && CaptureOk()
      && 0 <= bitcountTdi <= clockcount
      && 0 <= bitcountTdo <= clockcount
      && retvalI <= clockcount
      && clockcount <= bb.exchanges
      && bb.Valid()
    }

    /** The captured bits, in capture order. */
    ghost function Captured(): (cap: seq<int>)
      reads this, retval
      requires CaptureOk()
      ensures |cap| == retvalI && Bits01(cap)
    {
      retval[..retvalI]
    }

    /** Process start: the statics are zero. */
    constructor (device: (nat, Frame) -> Frame)
      ensures Valid() && fresh(bb) && fresh(retval)
      ensures clockcount == 0 && bitcountTdi == 0 && bitcountTdo == 0
      ensures Captured() == []
      ensures bb.reg == 0 && bb.written == [] && bb.device == device
    {
      clockcount, bitcountTdi, bitcountTdo, retvalI := 0, 0, 0, 0;
      retval := new int[Capacity](_ => 0);
      bb := new BitBang(device);
    }

    /** h_setup: configure the link; `openOk` says whether the FT232R could
        be opened.  The callback reports success either way. */
    method Setup(openOk: bool) returns (rc: int)
      requires Valid()
      modifies bb`reg
      ensures Valid()
      ensures rc == 0
      ensures bb.reg == if openOk then 0 else old(bb.reg)
    {
      bb.Setup(openOk);
      rc := 0;
    }

    /** h_shutdown: leave bitbang mode on the chip; no model state changes. */
    method Shutdown() returns (rc: int)
      requires Valid()
      ensures rc == 0
    {
      rc := 0;
    }

    /** h_pulse_tck: drive TMS (and TDI when significant), pulse once, keep
        the sampled bit when asked, compare it when an expected value is
        given.  Returns the sampled bit, or -1 on a mismatch. */
    method PulseTck(tms: int, tdi: int, tdo: int, rmask: int, sync: int) returns (rc: int)
      requires Valid()
      modifies this, retval, bb`reg, bb`exchanges, bb`written
      ensures Valid()
      ensures bb.reg == Drive(old(bb.reg), tms, tdi)
      ensures bb.written == old(bb.written) + [PulseFrame(bb.reg)]
      ensures clockcount == old(clockcount) + 1
      ensures bitcountTdi == old(bitcountTdi) + (if tdi >= 0 then 1 else 0)
      ensures bitcountTdo == old(bitcountTdo) + (if tdo >= 0 then 1 else 0)
      ensures var line := old(bb.NextSample(Drive(bb.reg, tms, tdi)));
        && rc == (if tdo >= 0 && tdo != line then -1 else line)
        && Captured() == (if rmask == 1 && old(retvalI) < Capacity
                          then old(Captured()) + [line] else old(Captured()))
    {
      var lineTdo := DriveAndPulse(tms, tdi);
      rc := if lineTdo >= 0 then lineTdo else 0;
      if rmask == 1 && retvalI < Capacity {
        Keep(lineTdo);
      }
      rc := Compare(tdo, lineTdo, rc);
      clockcount := clockcount + 1;
    }

    /** The first half of h_pulse_tck: set TMS, set TDI and count it when
        significant, pulse TCK and sample TDO. */
    method DriveAndPulse(tms: int, tdi: int) returns (lineTdo: int)
      requires bb.Valid()
      modifies this`bitcountTdi, bb`reg, bb`exchanges, bb`written
      ensures bb.Valid()
      ensures bb.reg == Drive(old(bb.reg), tms, tdi)
      ensures bb.written == old(bb.written) + [PulseFrame(bb.reg)]
      ensures bb.exchanges == old(bb.exchanges) + 1
      ensures bitcountTdi == old(bitcountTdi) + (if tdi >= 0 then 1 else 0)
      ensures lineTdo == old(bb.NextSample(Drive(bb.reg, tms, tdi)))
      ensures lineTdo == 0 || lineTdo == 1
    {
      bb.SetTms(tms);
      if tdi >= 0 {
        bitcountTdi := bitcountTdi + 1;
        bb.SetTdi(tdi);
      }
      lineTdo := bb.PulseTck();
    }

    /** The comparison with the expected TDO value: a significant expected
        bit is counted, and a differing one turns the result into -1. */
    method Compare(tdo: int, lineTdo: int, rc0: int) returns (rc: int)
      requires lineTdo == 0 || lineTdo == 1
      modifies this`bitcountTdo
      ensures bitcountTdo == old(bitcountTdo) + (if tdo >= 0 then 1 else 0)
      ensures rc == if tdo >= 0 && tdo != lineTdo then -1 else rc0
    {
      rc := rc0;
      if tdo >= 0 && lineTdo >= 0 {
        bitcountTdo := bitcountTdo + 1;
        if tdo != lineTdo {
          rc := -1;
        }
      }
    }

    /** `u->retval[u->retval_i++] = line_tdo` */
    method Keep(bit: int)
      requires CaptureOk() && retvalI < Capacity && (bit == 0 || bit == 1)
      modifies this`retvalI, retval
      ensures CaptureOk()
      ensures retvalI == old(retvalI) + 1
      ensures Captured() == old(Captured()) + [bit]
    {
      retval[retvalI] := bit;
      retvalI := retvalI + 1;
      assert retval[..retvalI] == old(retval[..retvalI]) + [bit];
    }

    /** h_udelay: with num_tck > 0, set TMS and issue num_tck pulses, then
        take the time they used (readings t1 before and t2 after) off the
        requested delay.  The result is what usleep is called with, 0 when
        it is not called. */
    method Udelay(usecs: int, tms: int, numTck: int, t1: TimeVal, t2: TimeVal) returns (sleepUs: int)
      requires Valid()
      modifies bb`reg, bb`exchanges, bb`written
      ensures Valid()
      ensures clockcount == old(clockcount)
      ensures numTck > 0 ==>
        && bb.reg == WithTms(old(bb.reg), tms)
        && bb.written == old(bb.written) + Repeat(PulseFrame(bb.reg), numTck)
        && sleepUs == SleepFor(usecs - Elapsed(t1, t2))
      ensures numTck <= 0 ==>
        && bb.reg == old(bb.reg)
        && bb.written == old(bb.written)
        && sleepUs == SleepFor(usecs)
    {
      var left := usecs;
      if numTck > 0 {
        bb.SetTms(tms);
        var n := numTck;
        while n > 0
          invariant 0 <= n <= numTck
          invariant bb.Valid() && bb.reg == WithTms(old(bb.reg), tms)
          invariant bb.exchanges >= old(bb.exchanges)
          invariant bb.written == old(bb.written) + Repeat(PulseFrame(bb.reg), numTck - n)
        {
          var _ := bb.PulseTck();
          n := n - 1;
        }
        left := left - Elapsed(t1, t2);
      }
      sleepUs := if left > 0 then left else 0;
    }

    /** The end-of-run printing of the captured bits. */
    method RenderCapture(fmt: Format) returns (out: Rendering)
      requires Valid()
      ensures out == Render(fmt, Captured())
    {
      var n := retvalI;
      if n == 0 {
        return NoOutput;
      }
      if fmt == DecimalBits {
        var bits := CapturedBits();
        return BitList(n, bits);
      }
      if fmt == HexLittle && n % 4 != 0 {
        return OutOfBounds;
      }
      ghost var src := if fmt == HexBig then BigEndianBits(Captured()) else Reverse(Captured());
      SourceInBuffer(fmt, src);
      var digits := HexNibbles(fmt, src);
      out := HexLine("0x" + digits);
    }

    /** The decimal form's loop over the captured bits. */
    method CapturedBits() returns (bits: seq<int>)
      requires Valid()
      ensures bits == Captured()
    {
      bits := [];
      var i := 0;
      while i < retvalI
        invariant 0 <= i <= retvalI
        invariant bits == retval[..i]
      {
        bits := bits + [retval[i]];
        i := i + 1;
      }
    }

    /** The hex forms' outer loop: one nibble per group of four slots while
        the group starts below retval_i. */
    method HexNibbles(fmt: Format, ghost src: seq<int>) returns (digits: string)
      requires retvalI > 0 && fmt != DecimalBits
      requires |src| == Padded(retvalI) && Packs(fmt, src)
      ensures digits == HexDigits(Nibbles(src))
    {
      digits := "";
      var i := 0;
      while i < retvalI
        invariant 0 <= i <= |src| && i % 4 == 0
        invariant i >= retvalI ==> i == |src|
        invariant digits == HexDigits(Nibbles(src[..i]))
      {
        PaddedStep(i, retvalI);
        var val := PackNibble(fmt, src, i);
        NibblesExtend(src, i);
        HexDigitsExtend(Nibbles(src[..i]), val);
        digits := digits + [HexDigit(val)];
        i := i + 4;
      }
      assert src[..i] == src;
    }

    /** The hex forms' inner loop: `val = val << 1 | bit` over one group. */
    method PackNibble(fmt: Format, ghost src: seq<int>, i: int) returns (val: int)
      requires fmt != DecimalBits
      requires 0 <= i && i + 4 <= |src| && Packs(fmt, src)
      ensures val == MsbValue(src[i..i + 4])
    {
      val := 0;
      var j := i;
      while j < i + 4
        invariant i <= j <= i + 4
        invariant val == MsbValue(src[i..j])
      {
        var idx;
        if fmt == HexBig {
          idx := j;
          assert src[j] == retval[j];
        } else {
          idx := retvalI - j - 1;
          assert 0 <= retvalI - j - 1 < retval.Length && src[j] == retval[retvalI - j - 1];
        }
        assert src[i..j + 1][..j - i] == src[i..j];
        val := val * 2 + retval[idx];
        j := j + 1;
      }
    }

    /** `src` is what the hex loop reads, slot by slot: index j for -B,
        index retval_i - j - 1 for -L. */
    ghost predicate Packs(fmt: Format, src: seq<int>)
      reads this, retval
    {
      && |src| <= retval.Length
      && (fmt == HexBig ==> forall j :: 0 <= j < |src| ==> src[j] == retval[j])
      && (fmt == HexLittle ==> forall j :: 0 <= j < |src| ==> 0 <= retvalI - j - 1 < retval.Length && src[j] == retval[retvalI - j - 1])
    }

    /** Where the bits the hex loop packs are read from: index j for -B,
        index retval_i - j - 1 for -L. */
    lemma SourceInBuffer(fmt: Format, src: seq<int>)
      requires Valid() && retvalI > 0 && fmt != DecimalBits
      requires fmt == HexLittle ==> retvalI % 4 == 0
      requires src == if fmt == HexBig then BigEndianBits(Captured()) else Reverse(Captured())
      ensures |src| == Padded(retvalI) && Bits01(src) && Packs(fmt, src)
    {
    }
  }
}
