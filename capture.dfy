/**
 * The captured read-back bits (the rmask bits) and the line printed for them
 * at the end of a run: the count and the bits in decimal, or "0x" and hex
 * nibbles packed big- or little-endian.
 */
module Capture {

  /** Slots of the capture buffer (retval[256]). */
  const Capacity := 256

  predicate Bits01(s: seq<int>)
  {
    forall k :: 0 <= k < |s| ==> s[k] == 0 || s[k] == 1
  }

  function Pow2(n: nat): (p: nat)
    ensures p >= 1
  {
    if n == 0 then 1 else 2 * Pow2(n - 1)
  }

  /** Bits read as a binary number with the first bit most significant: the
      value the loop `val = val << 1 | bit` accumulates. */
  function MsbValue(bits: seq<int>): (v: int)
    ensures Bits01(bits) ==> 0 <= v < Pow2(|bits|)
    decreases |bits|
  {
    if bits == [] then 0 else MsbValue(bits[..|bits| - 1]) * 2 + bits[|bits| - 1]
  }

  /** Bits read as a binary number with the first bit least significant. */
  function LsbValue(bits: seq<int>): int
    decreases |bits|
  {
    if bits == [] then 0 else bits[0] + 2 * LsbValue(bits[1..])
  }

  function Reverse(s: seq<int>): (r: seq<int>)
    ensures |r| == |s|
    ensures forall k :: 0 <= k < |s| ==> r[k] == s[|s| - 1 - k]
    decreases |s|
  {
    if s == [] then [] else Reverse(s[1..]) + [s[0]]
  }

  function Zeros(n: nat): (z: seq<int>)
    ensures |z| == n && forall k :: 0 <= k < n ==> z[k] == 0
  {
    seq(n, _ => 0)
  }

  /** The length rounded up to whole nibbles: the bound the group loop runs
      to, since it steps by 4 while the start of a group is below n. */
  function Padded(n: nat): (p: nat)
    ensures p % 4 == 0 && n <= p < n + 4
  {
    (n + 3) / 4 * 4
  }

  /** The group loop's bound: the group after one that starts below n
      starts at or past n exactly when it starts at Padded(n). */
  lemma PaddedStep(i: nat, n: nat)
    requires i % 4 == 0 && i < n
    ensures i + 4 <= Padded(n)
    ensures i + 4 >= n ==> i + 4 == Padded(n)
  {
  }

  /** The bits grouped four at a time, each group read most significant
      first. */
  function Nibbles(s: seq<int>): (r: seq<int>)
    requires |s| % 4 == 0
    ensures |r| == |s| / 4
    decreases |s|
  {
    if s == [] then [] else Nibbles(s[..|s| - 4]) + [MsbValue(s[|s| - 4..])]
  }

  /** Packed 0/1 bits give nibbles only, so "%x" prints one digit each. */
  lemma {:induction false} NibblesInRange(s: seq<int>)
    requires |s| % 4 == 0 && Bits01(s)
    ensures forall k :: 0 <= k < |Nibbles(s)| ==> 0 <= Nibbles(s)[k] < 16
    decreases |s|
  {
    if s != [] {
      var init, last := s[..|s| - 4], s[|s| - 4..];
      assert Bits01(init) && Bits01(last);
      NibblesInRange(init);
      assert Pow2(4) == 16;
    }
  }

  /** Nibbles read as a hex number, the first most significant. */
  function Base16(ns: seq<int>): int
    decreases |ns|
  {
    if ns == [] then 0 else Base16(ns[..|ns| - 1]) * 16 + ns[|ns| - 1]
  }

  /** The digit printf's "%x" prints for a nibble.  Only nibbles reach it
      (NibblesInRange); the placeholder for other values only makes the
      function total. */
  function HexDigit(v: int): (c: char)
    ensures 0 <= v < 10 ==> c as int == '0' as int + v
    ensures 10 <= v < 16 ==> c as int == 'a' as int + (v - 10)
  {
    if 0 <= v < 16 then "0123456789abcdef"[v] else '?'
  }

  function HexDigits(ns: seq<int>): (text: string)
    ensures |text| == |ns|
    decreases |ns|
  {
    if ns == [] then [] else HexDigits(ns[..|ns| - 1]) + [HexDigit(ns[|ns| - 1])]
  }

  /** One digit per nibble, in order. */
  lemma {:induction false} HexDigitsAt(ns: seq<int>)
    ensures forall k :: 0 <= k < |ns| ==> HexDigits(ns)[k] == HexDigit(ns[k])
    decreases |ns|
  {
    if ns != [] {
      HexDigitsAt(ns[..|ns| - 1]);
    }
  }

  /** One more whole group appends one nibble. */
  lemma NibblesExtend(s: seq<int>, i: nat)
    requires i % 4 == 0 && i + 4 <= |s|
    ensures Nibbles(s[..i + 4]) == Nibbles(s[..i]) + [MsbValue(s[i..i + 4])]
  {
    assert s[..i + 4][..i] == s[..i] && s[..i + 4][i..] == s[i..i + 4];
  }

  lemma HexDigitsExtend(ns: seq<int>, v: int)
    ensures HexDigits(ns + [v]) == HexDigits(ns) + [HexDigit(v)]
  {
    assert (ns + [v])[..|ns|] == ns;
  }

  /** Output format: no flag, -L (little-endian hex) or -B (big-endian hex). */
  datatype Format = DecimalBits | HexLittle | HexBig

  /** What is printed for the captured bits. */
  datatype Rendering =
    | NoOutput                              // nothing was captured
    | BitList(count: int, bits: seq<int>)   // "<count> rmask bits:" then each bit
    | HexLine(text: string)                 // "0x" and the nibbles
    | OutOfBounds                           // -L with a partial final group reads before retval[0]

  /** The bits the big-endian form packs: the captured ones and then the
      zero slots of the buffer up to a whole nibble. */
  function BigEndianBits(cap: seq<int>): (s: seq<int>)
    ensures |s| == Padded(|cap|) && s[..|cap|] == cap
    ensures Bits01(cap) ==> Bits01(s)
  {
    cap + Zeros(Padded(|cap|) - |cap|)
  }

  /** The line printed at the end of a run for captured bits `cap`. */
  function Render(fmt: Format, cap: seq<int>): (r: Rendering)
    ensures r.NoOutput? <==> cap == []
    ensures r.BitList? <==> cap != [] && fmt == DecimalBits
    ensures r.BitList? ==> r.count == |cap| && r.bits == cap
    ensures r.OutOfBounds? <==> cap != [] && fmt == HexLittle && |cap| % 4 != 0
  {
    if cap == [] then NoOutput
    else
      match fmt
      case DecimalBits => BitList(|cap|, cap)
      case HexBig => HexLine("0x" + HexDigits(Nibbles(BigEndianBits(cap))))
      case HexLittle =>
        if |cap| % 4 != 0 then OutOfBounds
        else HexLine("0x" + HexDigits(Nibbles(Reverse(cap))))
  }

  /** Which line is printed: nothing exactly for an empty capture; for -L,
      the out-of-bounds read exactly when the last group is partial; and
      every hex line is "0x" and one digit per started group of four. */
  lemma RenderShape(fmt: Format, cap: seq<int>)
    ensures Render(fmt, cap).NoOutput? <==> cap == []
    ensures Render(fmt, cap).OutOfBounds? <==> cap != [] && fmt == HexLittle && |cap| % 4 != 0
    ensures Render(fmt, cap).HexLine? ==>
      var text := Render(fmt, cap).text;
      text[..2] == "0x" && |text| == 2 + (|cap| + 3) / 4
  {
    if cap != [] && fmt != DecimalBits {
      PaddedGroups(|cap|);
      if fmt == HexLittle && |cap| % 4 == 0 {
        assert (|cap| + 3) / 4 == |cap| / 4;
      }
    }
  }

  lemma {:induction false} MsbConcat(a: seq<int>, b: seq<int>)
    ensures MsbValue(a + b) == MsbValue(a) * Pow2(|b|) + MsbValue(b)
    decreases |b|
  {
    if b == [] {
      assert a + b == a;
    } else {
      var init, x := b[..|b| - 1], b[|b| - 1];
      assert (a + b)[..|a + b| - 1] == a + init;
      assert MsbValue(a + b) == MsbValue(a + init) * 2 + x;
      MsbConcat(a, init);
      Doubling(MsbValue(a), Pow2(|init|));
    }
  }

  lemma Doubling(m: int, p: int)
    ensures m * (2 * p) == (m * p) * 2
  {
  }

  /** The hex number the nibbles spell is the binary number the bits spell. */
  lemma {:induction false} NibblesValue(s: seq<int>)
    requires |s| % 4 == 0
    ensures Base16(Nibbles(s)) == MsbValue(s)
    decreases |s|
  {
    if s != [] {
      var init, last := s[..|s| - 4], s[|s| - 4..];
      NibblesValue(init);
      var ns := Nibbles(s);
      assert ns[..|ns| - 1] == Nibbles(init);
      assert s == init + last;
      MsbConcat(init, last);
      assert Pow2(4) == 16;
    }
  }

  /** Reading the reversed bits most significant first is reading the
      original bits least significant first. */
  lemma {:induction false} MsbOfReverse(s: seq<int>)
    ensures MsbValue(Reverse(s)) == LsbValue(s)
    decreases |s|
  {
    if s != [] {
      MsbOfReverse(s[1..]);
      var r := Reverse(s);
      assert r[..|r| - 1] == Reverse(s[1..]);
    }
  }

  lemma {:induction false} ZerosValue(n: nat)
    ensures MsbValue(Zeros(n)) == 0
    decreases n
  {
    if n > 0 {
      assert Zeros(n)[..n - 1] == Zeros(n - 1);
      ZerosValue(n - 1);
    }
  }

  /** -B: ceil(N/4) nibbles spelling the captured bits as one binary number,
      first bit most significant, zero-padded on the right to whole nibbles. */
  lemma BigEndianValue(cap: seq<int>)
    ensures |Nibbles(BigEndianBits(cap))| == (|cap| + 3) / 4
    ensures Base16(Nibbles(BigEndianBits(cap))) == MsbValue(cap) * Pow2(Padded(|cap|) - |cap|)
  {
    PaddedGroups(|cap|);
    NibblesValue(BigEndianBits(cap));
    PadValue(cap, Padded(|cap|) - |cap|);
  }

  /** Zero bits appended on the right scale the value by a power of two. */
  lemma PadValue(cap: seq<int>, pad: nat)
    ensures MsbValue(cap + Zeros(pad)) == MsbValue(cap) * Pow2(pad)
  {
    MsbConcat(cap, Zeros(pad));
    ZerosValue(pad);
  }

  lemma PaddedGroups(n: nat)
    ensures Padded(n) / 4 == (n + 3) / 4
  {
  }

  /** -L on whole nibbles: N/4 nibbles spelling the captured bits as one
      binary number, first bit least significant (the whole sequence is
      reversed, not each group). */
  lemma LittleEndianValue(cap: seq<int>)
    requires |cap| % 4 == 0
    ensures |Nibbles(Reverse(cap))| == |cap| / 4
    ensures Base16(Nibbles(Reverse(cap))) == LsbValue(cap)
  {
    NibblesValue(Reverse(cap));
    MsbOfReverse(cap);
  }

  /** -B puts the first captured bit of a group in the nibble's high bit. */
  lemma BigEndianExample(cap: seq<int>)
    requires cap == [1, 0, 0, 0]
    ensures Render(HexBig, cap) == HexLine("0x8")
  {
    assert BigEndianBits(cap) == cap;
    assert MsbValue(cap) == 8 by {
      assert cap[..3] == [1, 0, 0];
      assert [1, 0, 0][..2] == [1, 0];
      assert [1, 0][..1] == [1];
      assert [1][..0] == [];
    }
    assert Nibbles(cap) == [8] by {
      assert cap[..0] == [] && cap[0..] == cap;
    }
    assert HexDigits([8]) == "8" by {
      assert [8][..0] == [];
    }
  }

  /** -L makes the first captured bit the least significant one. */
  lemma LittleEndianExample(cap: seq<int>)
    requires cap == [1, 0, 0, 0]
    ensures Render(HexLittle, cap) == HexLine("0x1")
  {
    var r := [0, 0, 0, 1];
    assert Reverse(cap) == r;
    assert MsbValue(r) == 1 by {
      assert r[..3] == Zeros(3);
      ZerosValue(3);
    }
    assert Nibbles(r) == [1] by {
      assert r[..0] == [] && r[0..] == r;
    }
    assert HexDigits([1]) == "1" by {
      assert [1][..0] == [];
    }
  }

  /** -L on two nibbles: the whole capture is one number, so the nibble
      holding the first captured bit is printed last. */
  lemma LittleEndianTwoNibbles(cap: seq<int>)
    requires cap == [1, 0, 0, 0, 0, 0, 0, 0]
    ensures Render(HexLittle, cap) == HexLine("0x01")
  {
    var ns := Nibbles(Reverse(cap));
    assert ns == [0, 1] by {
      ReverseOfFirstSet(cap);
    }
    assert HexDigits(ns) == "01" by {
      assert ns[..1] == [0];
      assert [0][..0] == [];
    }
  }

  lemma ReverseOfFirstSet(cap: seq<int>)
    requires cap == [1, 0, 0, 0, 0, 0, 0, 0]
    ensures Nibbles(Reverse(cap)) == [0, 1]
  {
    var r := Zeros(4) + Zeros(3) + [1];
    assert Reverse(cap) == r by {
      assert forall k :: 0 <= k < 8 ==> Reverse(cap)[k] == r[k];
    }
    var low := Zeros(3) + [1];
    assert r[..4] == Zeros(4) && r[4..] == low;
    assert MsbValue(low) == 1 by {
      assert low[..3] == Zeros(3);
      ZerosValue(3);
    }
    assert Nibbles(Zeros(4)) == [0] by {
      ZerosValue(4);
      assert Zeros(4)[..0] == [] && Zeros(4)[0..] == Zeros(4);
    }
    assert Nibbles(r) == Nibbles(r[..4]) + [MsbValue(r[4..])];
  }

  lemma OtherRenderExamples()
    ensures Render(DecimalBits, [1, 0, 1]) == BitList(3, [1, 0, 1])
    ensures Render(HexLittle, [1, 0, 1]) == OutOfBounds
    ensures Render(HexBig, []) == NoOutput
  {
  }
}
