# xsvftool-ft232r2 host adapter, modelled in Dafny

`xsvftool-ft232r2` plays SVF/XSVF JTAG programming files through an FTDI
FT232R USB chip in synchronous-bitbang mode. An external engine (libxsvf)
interprets the file and calls back into a host adapter. This project models
that adapter:

- **`Pins`** (`pins.dfy`): the emulated output byte `bb_reg`. `bb_tms` and
  `bb_tdi` change one bit each, and every TCK pulse writes a three-byte
  frame (clock low, clock high, clock low). TDO is bit 6 of the third byte
  read back. The masks are the values the program uses: TMS 0x80, TDI 0x08,
  TDO 0x40, TCK 0x20, so the I/O mask is 0xA8.
- **`BitBangIo`** (`bitbang.dfy`): class `BitBang` holds the register, the
  USB link and a ghost trace of every frame written. The chip is an oracle,
  `device(n, frame)`, which gives the bytes read back for the n-th exchange.
- **`Timing`** (`timing.dfy`): the microsecond arithmetic `h_udelay` does
  on two `gettimeofday` readings.
- **`Adapter`** (`adapter.dfy`): class `Host` is the session record
  `udata_s`, with its counters and the 256-slot capture buffer.
  - Callbacks: `h_setup`, `h_shutdown`, `h_pulse_tck` and `h_udelay`.
  - The loops at the end of `main` that print the captured bits.
- **`Capture`** (`capture.dfy`): what those loops print, as a function of
  the captured bits.
  - Formats: decimal, `-B` big-endian hex and `-L` little-endian hex.
  - Lemmas give the value a hex line spells.
- **`Allocator`** (`allocator.dfy`): class `AllocProfile`.
  - It holds the per-memory-class high-water table kept by `h_realloc`.
  - It also generates the static allocator that `-r` prints, as a
    structured value: the class count `num`, the buffers, `buflist`,
    `sizelist` and the lookup rule.
- **`IdCode`** (`idcode.dfy`): the IDCODE fields `h_report_device` prints.

How the environment appears in the model:

- **The wall clock** becomes two `TimeVal` parameters of `Udelay`.
- **The sleep** becomes its result: the residual when it is positive
  (passed to `usleep`), and 0 when `usleep` is not called.
- **Opening the USB device** becomes a boolean parameter of `Setup`.
- **Memory-class names** (`libxsvf_mem2str`) become a function parameter
  `memName`.

Notes on the behaviour modelled:

- **Setup on a failed open:** when the device cannot be opened, `bb_setup`
  returns before it resets `bb_reg`. `h_setup` still reports success.
- **Pulses during a delay:** the pulses `h_udelay` issues are not counted in
  `clockcount`.
- **`-L` reverses the whole capture.** It reads slot `retval_i - j - 1`.
  The printed number is the whole capture read with the first captured bit
  least significant. A capture of eight bits `1,0,0,0,0,0,0,0` prints `0x01`.
  The hex digits are not reversed group by group.
- **The last group is always packed, even when partial.**
  - For `-B`, the missing bits are the buffer's still-zero slots. The value is
    therefore padded on the right.
  - For `-L`, a partial group reads below `retval[0]`, which is undefined
    behaviour in C. The model returns `OutOfBounds` for every `-L` capture
    whose length is not a multiple of 4.
- **Mismatch and lookup failure:** the program has no error kind for a TDO
  mismatch or a missing memory class. A mismatch is the callback's result
  -1, and a failed lookup in the generated allocator is null
  (`None`).
- **Pin comments:** the comments beside the pin defines
  (xsvftool-ft232r2.c:65-68) name other pins. The model follows the values.

## Model

| member | source | states |
|---|---|---|
| Pins.WithTms | xsvftool-ft232r2.c:165-170 | TMS bit of the new register is set exactly when `val` is non-zero; all other bits unchanged; keeps the register to output pins without TCK/TDO |
| Pins.WithTdi | xsvftool-ft232r2.c:172-177 | same for the TDI bit 0x08 |
| Pins.Drive | xsvftool-ft232r2.c:308-313 | TMS follows `tms`; TDI follows `tdi` when `tdi >= 0` and keeps its old value otherwise; no other bit changes |
| Pins.PulseFrame | xsvftool-ft232r2.c:196-198 | bytes 0 and 2 equal with TCK low, byte 1 has TCK high, the two differ only in TCK, and byte 0 is the register with TCK cleared |
| Pins.SampleTdo | xsvftool-ft232r2.c:228 | result is 0 or 1, and 1 exactly when bit 0x40 of the third byte read back is set |
| Pins.PulseOfDrivenIsWellShaped | xsvftool-ft232r2.c:196-198 | the frame of a register keeping to output pins is well shaped |
| Pins.EveryFrameWellShaped | xsvftool-ft232r2.c:165-198 | any interleaving of TMS/TDI updates and pulses keeps the register inside the I/O mask without TCK/TDO, and every frame written is well shaped |
| Pins.FromReset | xsvftool-ft232r2.c:150-198 | the same from the reset register 0 |
| BitBangIo.BitBang.constructor | xsvftool-ft232r2.c:83 | the register starts at 0 and nothing has been written |
| BitBangIo.BitBang.NextSample | xsvftool-ft232r2.c:223-228 | the bit the next exchange returns is 0 or 1 |
| BitBangIo.BitBang.Setup | xsvftool-ft232r2.c:108-150 | the register is reset to 0 when the device opened, and left as it was when the open failed |
| BitBangIo.BitBang.SetTms | xsvftool-ft232r2.c:165-170 | the register becomes `WithTms` of the old one; the invariant is kept |
| BitBangIo.BitBang.SetTdi | xsvftool-ft232r2.c:172-177 | the register becomes `WithTdi` of the old one; the invariant is kept |
| BitBangIo.BitBang.PulseTck | xsvftool-ft232r2.c:179-229 | exactly one frame, `PulseFrame(reg)`, is appended to the trace; the result is the oracle's TDO bit for that exchange, 0 or 1 |
| Timing.Elapsed | xsvftool-ft232r2.c:283-287 | the two-step subtraction totals `(s2-s1)*1000000 + (u2-u1)` whenever s2 >= s1, also across a second boundary; `u2-u1` if the clock went back |
| Timing.SleepFor | xsvftool-ft232r2.c:293-295 | the sleep is the residual when positive and 0 (no call) otherwise |
| Adapter.Host.constructor | xsvftool-ft232r2.c:233-241 | counters zero, capture empty, register 0, nothing written |
| Adapter.Host.Captured | xsvftool-ft232r2.c:239-240 | the captured bits number `retval_i` and are each 0 or 1 |
| Adapter.Host.Setup | xsvftool-ft232r2.c:243-252 | returns 0 whether or not the device opened; the register is reset only when it opened |
| Adapter.Host.Shutdown | xsvftool-ft232r2.c:254-263 | returns 0 |
| Adapter.Host.PulseTck | xsvftool-ft232r2.c:304-336 | TMS set, TDI set and `bitcount_tdi` counted exactly when `tdi >= 0`, one frame written, `clockcount` +1; `bitcount_tdo` +1 exactly when `tdo >= 0`; result -1 exactly on a mismatch with a significant `tdo`, else the sampled bit; the bit is appended to the capture exactly when `rmask == 1` and fewer than 256 are kept, earlier entries unchanged |
| Adapter.Host.DriveAndPulse | xsvftool-ft232r2.c:308-318 | the register becomes `Drive(old, tms, tdi)`, one frame is written, `bitcount_tdi` counts a significant `tdi`, the result is the sampled bit |
| Adapter.Host.Compare | xsvftool-ft232r2.c:324-328 | `bitcount_tdo` counts a significant `tdo`; the result becomes -1 exactly when it differs from the sampled bit |
| Adapter.Host.Keep | xsvftool-ft232r2.c:321-322 | the bit is appended to the capture and `retval_i` grows by one |
| Adapter.Host.Udelay | xsvftool-ft232r2.c:265-296 | with `num_tck > 0`: TMS set, exactly `num_tck` identical well-shaped frames written, `clockcount` unchanged, sleep `SleepFor(usecs - Elapsed(t1, t2))`; otherwise the register and trace untouched and sleep `SleepFor(usecs)` |
| Adapter.Host.RenderCapture | xsvftool-ft232r2.c:544-559 | what the printing loops produce equals `Render(fmt, captured bits)` |
| Adapter.Host.CapturedBits | xsvftool-ft232r2.c:554-556 | the decimal loop lists the captured bits in capture order |
| Adapter.Host.HexNibbles | xsvftool-ft232r2.c:546-552 | the group loop prints the digits of `Nibbles` of the bits it reads, one per started group |
| Adapter.Host.PackNibble | xsvftool-ft232r2.c:548-550 | the inner loop packs four slots first-read-most-significant (`MsbValue`) |
| Adapter.Host.SourceInBuffer | xsvftool-ft232r2.c:550 | `-B` reads the capture followed by zero slots, `-L` on whole groups reads the reversed capture, each slot within the buffer |
| Capture.MsbValue | xsvftool-ft232r2.c:548-550 | packing n bits of 0/1 gives a value in `[0, 2^n)` |
| Capture.Padded | xsvftool-ft232r2.c:547 | the group loop covers the smallest multiple of 4 that is at least `retval_i` |
| Capture.BigEndianBits | xsvftool-ft232r2.c:547-550 | the `-B` source has that padded length, starts with the capture and holds only 0/1 |
| Capture.Render | xsvftool-ft232r2.c:544-559 | the printed line: nothing exactly for an empty capture; the count and the bits in capture order exactly for the decimal form; the out-of-bounds read exactly for `-L` with a partial last group; otherwise a hex line |
| Capture.Nibbles | xsvftool-ft232r2.c:547-550 | one nibble per group of four bits, each packed first bit most significant |
| Capture.NibblesInRange | xsvftool-ft232r2.c:547-551 | packed 0/1 bits give values 0..15 only, one hex digit each |
| Capture.HexDigit | xsvftool-ft232r2.c:551 | `%x` of a nibble: `0`-`9` for 0-9, `a`-`f` for 10-15 |
| Capture.HexDigits | xsvftool-ft232r2.c:547-552 | one digit per nibble |
| Capture.HexDigitsAt | xsvftool-ft232r2.c:547-552 | digit k is `%x` of nibble k, in group order |
| Capture.RenderShape | xsvftool-ft232r2.c:544-559 | nothing is printed exactly for an empty capture; `-L` is out of bounds exactly for a partial last group; a hex line is `0x` and ceil(N/4) digits |
| Capture.NibblesValue | xsvftool-ft232r2.c:547-551 | the hex digits spell the same number as the bits read most significant first |
| Capture.MsbOfReverse | xsvftool-ft232r2.c:550 | reading the reversed capture most significant first is reading the capture least significant first |
| Capture.BigEndianValue | xsvftool-ft232r2.c:547-551 | `-B` prints ceil(N/4) nibbles whose value is the capture, first bit most significant, times 2^pad |
| Capture.LittleEndianValue | xsvftool-ft232r2.c:547-551 | `-L` on whole groups prints N/4 nibbles whose value is the capture, first bit least significant |
| Capture.BigEndianExample | xsvftool-ft232r2.c:544-558 | capture 1,0,0,0 prints `0x8` with `-B` |
| Capture.LittleEndianExample | xsvftool-ft232r2.c:544-558 | capture 1,0,0,0 prints `0x1` with `-L` |
| Capture.LittleEndianTwoNibbles | xsvftool-ft232r2.c:544-558 | capture 1,0,0,0,0,0,0,0 prints `0x01` with `-L` |
| Capture.OtherRenderExamples | xsvftool-ft232r2.c:544-558 | decimal lists count and bits; `-L` on three bits is out of bounds; an empty capture prints nothing |
| IdCode.Decode | xsvftool-ft232r2.c:380-381 | revision, part and manufacturer fit 4, 16 and 11 bits and, with bit 0, reassemble the identifier |
| IdCode.DecodeEncode | xsvftool-ft232r2.c:380-381 | decoding recovers any in-range field triple |
| IdCode.DecodeExample | xsvftool-ft232r2.c:380-381 | 0x12345678 gives revision 0x1, part 0x2345, manufacturer 0x33C |
| Allocator.HighWater | xsvftool-ft232r2.c:397-403 | the table entry is at least every size requested for the class, is 0 or one of those sizes, and never negative |
| Allocator.UsedCount | xsvftool-ft232r2.c:562-566 | `num` is one past the highest class with a positive maximum, or 0; every class from `num` on has none |
| Allocator.Declared | xsvftool-ft232r2.c:568-571 | the declaration loop yields at most one declaration per class slot; which ones, and in which order, `DeclaredInOrder` states |
| Allocator.UsedClasses | xsvftool-ft232r2.c:568-570 | the classes with a positive maximum: each one listed, every listed one used, strictly increasing (so each at most once) |
| Allocator.DeclaredInOrder | xsvftool-ft232r2.c:568-571 | the k-th declaration is `buf_` of the k-th used class with that class's maximum as size: exactly one declaration per used class, in class order, none for an unused class |
| Allocator.Generate | xsvftool-ft232r2.c:561-589 | the `-r` output carries the given function name; `num` is at most the class count and every class from `num` on is unused; both tables have `num` entries and there are at most `num` buffers |
| Allocator.Lookup | xsvftool-ft232r2.c:587 | the generated return statement: a buffer only when `which < num` and the size fits `sizelist[which]`, and then `buflist[which]`, null otherwise |
| Allocator.BufList | xsvftool-ft232r2.c:572-578 | one entry per class: its buffer when used, null otherwise |
| Allocator.SizeList | xsvftool-ft232r2.c:579-585 | one entry per class: its maximum when used, 0 otherwise |
| Allocator.DeclaredSound | xsvftool-ft232r2.c:568-571 | every declared buffer belongs to a used class and has its maximum as size |
| Allocator.DeclaredComplete | xsvftool-ft232r2.c:568-571 | every used class has its buffer declared |
| Allocator.GeneratedShape | xsvftool-ft232r2.c:562-586 | buffers are declared for exactly the used classes; both tables have `num` entries |
| Allocator.LookupExactly | xsvftool-ft232r2.c:587 | the generated lookup returns the class's buffer exactly when the class is used and the size fits, null otherwise |
| Allocator.ServesEveryRequest | xsvftool-ft232r2.c:561-587 | the allocator generated from a run serves every positive-size request that run made |
| Allocator.GenerateExample | xsvftool-ft232r2.c:561-589 | maxima 10, 0, 3 declare buffers for classes 0 and 2 only; class 0 serves sizes up to 10, class 1 nothing |
| Allocator.AllocProfile.constructor | xsvftool-ft232r2.c:397 | the table starts all zero with no requests |
| Allocator.AllocProfile.Record | xsvftool-ft232r2.c:399-408 | the class's maximum becomes max(old, size), every other class unchanged, the table stays the high-water of all requests |
| Allocator.AllocProfile.Emit | xsvftool-ft232r2.c:561-589 | the printed allocator is `Generate` of the table |
| Allocator.AllocProfile.CountUsed | xsvftool-ft232r2.c:562-566 | the loop computes `UsedCount` of the table |
| Allocator.AllocProfile.EmitBuffers | xsvftool-ft232r2.c:568-571 | the loop declares the buffers of the used classes below `num`, in order |
| Allocator.AllocProfile.EmitBufList | xsvftool-ft232r2.c:572-578 | the loop prints `BufList` of the first `num` classes |
| Allocator.AllocProfile.EmitSizeList | xsvftool-ft232r2.c:579-585 | the loop prints `SizeList` of the first `num` classes |

## Left out

- libftdi I/O (opening, baud rate, latency timer, bit mode, write, read) is foreign USB code. On Linux its results are ignored except for the open (xsvftool-ft232r2.c:125,136,146,223-224). The chip's answers are the `device` oracle, and the configuration calls change no modelled state.
- The `#if WINDOWS` branches are not modelled: WINDOWS is defined as 0, so they are compiled out.
- `gettimeofday` and `usleep` are not modelled. The two readings are parameters of `Udelay`, and the amount slept is its result.
- `h_getbyte`, file opening and closing, `getopt`, `help` and `copyleft` are not modelled: they are stream I/O and command-line handling.
- The libxsvf engine (`libxsvf_play`, `libxsvf_state2str`, `libxsvf_mem2str`) is external. The class names are the abstract `memName`. The number of memory classes, `LIBXSVF_MEM_NUM`, is defined in libxsvf.h, which is not part of this model. It is the `classes` parameter of the profile's constructor.
- The reallocation in `h_realloc` is the platform allocator. Only the high-water bookkeeping is modelled.
- Diagnostic output is not modelled: `fprintf`, the verbose traces, and `h_report_tapstate`, `h_report_status` and `h_report_error`.
- `h_pulse_sck`, `h_set_trst` and `h_set_frequency` only print a warning (`h_set_frequency` also returns 0), so they are not modelled.
- The exact text printed for the capture and for the generated C is not modelled. The model keeps its structure: count and bits, the `0x` line of digits, and the declarations, tables and lookup bound.
- `Adapter.Host.PulseTck`: the `sync` argument is accepted and ignored, as in the source.
- `Adapter.Host.PulseTck`: C `int` counters are unbounded here. Wrap-around after 2^31 pulses is not modelled.
- `IdCode.Decode`: the identifier is 32 bits wide, the width of a JTAG IDCODE. The source passes an `unsigned long`, whose upper bits the masks discard anyway.
- `Adapter.Host.Udelay`: `usecs` and `num_tck` are unbounded integers, not C `long`, and the sleep amount is not narrowed to `usleep`'s 32-bit `useconds_t` (an amount of 2^32 microseconds or more would be reduced modulo 2^32).
- `BitBangIo.BitBang.PulseTck`: the oracle gives the read-back bytes as a function of the exchange number and the bytes written. Analogue timing of the line is not modelled.
