/**
 * The JTAG IDCODE fields reported by h_report_device: bits 31-28 revision,
 * bits 27-12 part number, bits 11-1 manufacturer, bit 0 the marker bit.
 */
module IdCode {

  datatype DeviceId = DeviceId(revision: bv32, part: bv32, manufacturer: bv32)

  predicate InRange(d: DeviceId)
  {
    d.revision < 0x10 && d.part < 0x10000 && d.manufacturer < 0x800
  }

  /** The three fields as printed.  They fit their widths and, with the
      marker bit, make up the whole identifier again. */
  function Decode(idcode: bv32): (d: DeviceId)
    ensures InRange(d)
    ensures (d.revision << 28) | (d.part << 12) | (d.manufacturer << 1) | (idcode & 1) == idcode
  {
    DeviceId((idcode >> 28) & 0xf, (idcode >> 12) & 0xffff, (idcode >> 1) & 0x7ff)
  }

  /** The identifier with the given fields and marker bit. */
  function Encode(d: DeviceId, marker: bv32): (idcode: bv32)
    requires InRange(d) && marker < 2
    ensures idcode & 1 == marker
  {
    (d.revision << 28) | (d.part << 12) | (d.manufacturer << 1) | marker
  }

  /** Decoding recovers every in-range field triple. */
  lemma DecodeEncode(d: DeviceId, marker: bv32)
    requires InRange(d) && marker < 2
    ensures Decode(Encode(d, marker)) == d
  {
  }

  lemma DecodeExample()
    ensures Decode(0x12345678) == DeviceId(0x1, 0x2345, 0x33C)
  {
  }
}
