/**
 * Device-number packing used by the in-guest supervisor when it creates device
 * nodes (lib/tether/tether_linux.go, Mkdev). Go's `int` is 64 bits wide on the
 * platforms the supervisor runs on, and `<<`, `&` and `|` act on its two's
 * complement bit pattern, so the model works on `bv64`.
 *
 * The layout is the Linux "new" 32-bit device encoding: minor bits 0-7 in bits
 * 0-7, major bits 0-11 in bits 8-19, minor bits 8-19 in bits 20-31.
 */
module DeviceNumbers {

  /** Packs a major and a minor number into one device number, with wrap-around at 64 bits. */
  function Mkdev(major: bv64, minor: bv64): bv64 {
    (major << 8) | (minor & 0xff) | ((minor & 0xfff00) << 12)
  }

  /** The low 8 bits of the minor number sit in bits 0-7. */
  lemma MkdevLowMinor(major: bv64, minor: bv64)
    ensures Mkdev(major, minor) & 0xff == minor & 0xff
  {
  }

  /** The major number starts at bit 8: its bits 0-11 are bits 8-19 of the result. */
  lemma MkdevLowMajor(major: bv64, minor: bv64)
    ensures (Mkdev(major, minor) >> 8) & 0xfff == major & 0xfff
  {
  }

  /** Bits 20-31 carry minor bits 8-19, overlaid on major bits 12-23. */
  lemma MkdevOverlay(major: bv64, minor: bv64)
    ensures (Mkdev(major, minor) >> 20) & 0xfff == ((minor >> 8) | (major >> 12)) & 0xfff
  {
  }

  /** Bits 32-63 hold major bits 24-55 alone; major bits 56-63 wrap off the top. */
  lemma MkdevHighBits(major: bv64, minor: bv64)
    ensures Mkdev(major, minor) >> 32 == (major >> 24) & 0xffff_ffff
  {
  }

  /** The major number of a device encoded the Linux way (majors of 12 bits). */
  function Major(dev: bv64): bv64 {
    (dev & 0xfff00) >> 8
  }

  /** The minor number of a device encoded the Linux way (minors of 20 bits). */
  function Minor(dev: bv64): bv64 {
    (dev & 0xff) | ((dev >> 12) & 0xfff00)
  }

  /** A device number built from a 12-bit major and a 20-bit minor decodes to both. */
  lemma MkdevRoundTrip(major: bv64, minor: bv64)
    requires major < 0x1000 && minor < 0x10_0000
    ensures Major(Mkdev(major, minor)) == major
    ensures Minor(Mkdev(major, minor)) == minor
    ensures Mkdev(major, minor) < 0x1_0000_0000
  {
  }

  /** Distinct in-range pairs give distinct device numbers. */
  lemma MkdevInjective(major1: bv64, minor1: bv64, major2: bv64, minor2: bv64)
    requires major1 < 0x1000 && minor1 < 0x10_0000
    requires major2 < 0x1000 && minor2 < 0x10_0000
    requires Mkdev(major1, minor1) == Mkdev(major2, minor2)
    ensures major1 == major2 && minor1 == minor2
  {
    MkdevRoundTrip(major1, minor1);
    MkdevRoundTrip(major2, minor2);
  }

  /** Minor bits above bit 19 are dropped: minor 0x100000 packs like minor 0. */
  lemma MinorAboveTwentyBitsIsDropped()
    ensures Mkdev(0, 0x10_0000) == Mkdev(0, 0)
  {
  }
}
