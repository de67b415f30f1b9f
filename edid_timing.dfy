/** The detailed timing descriptor generator of extras/edid.py: the
    18-byte descriptor of section 3.10.2 of VESA E-EDID Release A Revision 2,
    packed from the timing parameters of one mode. The script's bitwise
    operations are written as arithmetic on natural numbers: `x & 0xFF` is
    `x % 0x100`, `(x & 0xF00) >> 4` is `(x / 0x100) % 0x10 * 0x10`, and an OR
    of fields occupying disjoint bits is their sum. */
module EdidTiming {
  import opened Common
  import Edid

  /** The parameters at the head of the script (pixel clock in Hz, the
      others in pixels, lines or millimetres). */
  datatype Timing = Timing(
    pixelClockHz: nat,
    hActive: nat, hBlank: nat,
    vActive: nat, vBlank: nat,
    hFrontPorch: nat, hSyncWidth: nat,
    vFrontPorch: nat, vSyncWidth: nat,
    hImageMm: nat, vImageMm: nat,
    hBorder: nat, vBorder: nat)

  /** The length of a detailed timing descriptor. */
  const DescriptorSize: nat := 18

  /** The fixed last byte: non-interlaced, no stereo, digital separate sync
      with positive horizontal and negative vertical polarity. */
  const Flags: Byte := 0x1A

  /** The pixel clock in units of 10 kHz, rounded half up. */
  function ClockUnits(t: Timing): nat {
    (t.pixelClockHz + 10000 / 2) / 10000
  }

  /** `x & 0xFF`. */
  function Low8(x: nat): Byte {
    x % 0x100
  }

  /** `((a & 0xF00) >> 4) | ((b & 0xF00) >> 8)`: bits 8..11 of `a` in the
      upper nibble and of `b` in the lower one. */
  function HighNibbles(a: nat, b: nat): (r: Byte)
    ensures r / 0x10 == (a / 0x100) % 0x10 && r % 0x10 == (b / 0x100) % 0x10
  {
    (a / 0x100) % 0x10 * 0x10 + (b / 0x100) % 0x10
  }

  /** `((vfp & 0xF) << 4) | (vsw & 0xF)`. */
  function VerticalSyncLow(vfp: nat, vsw: nat): (r: Byte)
    ensures r / 0x10 == vfp % 0x10 && r % 0x10 == vsw % 0x10
  {
    vfp % 0x10 * 0x10 + vsw % 0x10
  }

  /** Four two-bit fields packed from the high bits down are read back. */
  lemma PackQuarters(a: nat, b: nat, c: nat, d: nat)
    requires a < 4 && b < 4 && c < 4 && d < 4
    ensures var r := a * 0x40 + b * 0x10 + c * 4 + d;
      && r < 0x100 && r / 0x40 == a && (r / 0x10) % 4 == b && (r / 4) % 4 == c && r % 4 == d
  {
    var r := a * 0x40 + b * 0x10 + c * 4 + d;
    var ab := 4 * a + b;
    var abc := 4 * ab + c;
    assert r == 4 * abc + d;
    assert r / 4 == abc && r % 4 == d;
    assert abc / 4 == ab && abc % 4 == c;
    assert ab / 4 == a && ab % 4 == b;
    assert r / 0x10 == ab;
    assert r / 0x40 == a;
  }

  /** The two-bit fields of byte 11: bits 8..9 of the horizontal front
      porch and sync width, then bits 4..5 of the vertical ones, from the
      high bits down. */
  function SyncHighBits(hfp: nat, hsw: nat, vfp: nat, vsw: nat): (r: Byte)
    ensures r / 0x40 == (hfp / 0x100) % 4
    ensures (r / 0x10) % 4 == (hsw / 0x100) % 4
    ensures (r / 4) % 4 == (vfp / 0x10) % 4
    ensures r % 4 == (vsw / 0x10) % 4
  {
    var a, b, c, d := (hfp / 0x100) % 4, (hsw / 0x100) % 4, (vfp / 0x10) % 4, (vsw / 0x10) % 4;
    PackQuarters(a, b, c, d);
    a * 0x40 + b * 0x10 + c * 4 + d
  }

  /** The script: None where `struct.pack` refuses a value, which happens
      only for a pixel clock that does not fit "<H" or a border that does
      not fit "B" (every other field is masked to a byte). */
  function Encode(t: Timing): (d: Option<seq<Byte>>)
    ensures d.None? <==> ClockUnits(t) >= 0x1_0000 || t.hBorder >= 0x100 || t.vBorder >= 0x100
    ensures d.Some? ==> |d.value| == DescriptorSize && d.value[DescriptorSize - 1] == Flags
  {
    var clock := ClockUnits(t);
    if clock >= 0x1_0000 || t.hBorder >= 0x100 || t.vBorder >= 0x100 then None
    else Some([
      clock % 0x100, clock / 0x100,
      Low8(t.hActive), Low8(t.hBlank), HighNibbles(t.hActive, t.hBlank),
      Low8(t.vActive), Low8(t.vBlank), HighNibbles(t.vActive, t.vBlank),
      Low8(t.hFrontPorch), Low8(t.hSyncWidth),
      VerticalSyncLow(t.vFrontPorch, t.vSyncWidth),
      SyncHighBits(t.hFrontPorch, t.hSyncWidth, t.vFrontPorch, t.vSyncWidth),
      Low8(t.hImageMm), Low8(t.vImageMm), HighNibbles(t.hImageMm, t.vImageMm),
      t.hBorder, t.vBorder,
      Flags])
  }

  /** A 12-bit value is its low byte plus its high nibble times 0x100. */
  lemma TwelveBits(x: nat)
    requires x < 0x1000
    ensures x == Low8(x) + (x / 0x100) % 0x10 * 0x100
  {
    assert x / 0x100 < 0x10;
  }

  /** Two 12-bit values are recovered from their low bytes and the byte
      holding their high nibbles. */
  lemma PairDecodes(a: nat, b: nat)
    requires a < 0x1000 && b < 0x1000
    ensures a == Low8(a) + (HighNibbles(a, b) as int) / 0x10 * 0x100
    ensures b == Low8(b) + (HighNibbles(a, b) as int) % 0x10 * 0x100
  {
    TwelveBits(a);
    TwelveBits(b);
  }

  /** Bytes 0..1 hold the pixel clock little-endian, and the active,
      blanking and image-size values below 4096 are recovered from their
      low bytes and the high nibbles of bytes 4, 7 and 14. */
  lemma EncodeDecodes(t: Timing)
    requires Encode(t).Some?
    requires t.hActive < 0x1000 && t.hBlank < 0x1000 && t.vActive < 0x1000 && t.vBlank < 0x1000
    requires t.hImageMm < 0x1000 && t.vImageMm < 0x1000
    ensures var d: seq<int> := Encode(t).value;
      && d[0] + d[1] * 0x100 == ClockUnits(t)
      && t.hActive == d[2] + d[4] / 0x10 * 0x100
      && t.hBlank == d[3] + d[4] % 0x10 * 0x100
      && t.vActive == d[5] + d[7] / 0x10 * 0x100
      && t.vBlank == d[6] + d[7] % 0x10 * 0x100
      && t.hImageMm == d[12] + d[14] / 0x10 * 0x100
      && t.vImageMm == d[13] + d[14] % 0x10 * 0x100
      && d[15] == t.hBorder && d[16] == t.vBorder
  {
    var d: seq<int> := Encode(t).value;
    assert d[2] == Low8(t.hActive) && d[3] == Low8(t.hBlank) && d[4] == HighNibbles(t.hActive, t.hBlank);
    assert d[5] == Low8(t.vActive) && d[6] == Low8(t.vBlank) && d[7] == HighNibbles(t.vActive, t.vBlank);
    assert d[12] == Low8(t.hImageMm) && d[13] == Low8(t.vImageMm) && d[14] == HighNibbles(t.hImageMm, t.vImageMm);
    PairDecodes(t.hActive, t.hBlank);
    PairDecodes(t.vActive, t.vBlank);
    PairDecodes(t.hImageMm, t.vImageMm);
  }

  /** A 10-bit value is its low byte plus its two high bits times 0x100. */
  lemma TenBits(x: nat)
    requires x < 0x400
    ensures x == Low8(x) + (x / 0x100) % 4 * 0x100
  {
    assert x / 0x100 < 4;
  }

  /** A 6-bit value is its low nibble plus its two high bits times 0x10. */
  lemma SixBits(x: nat)
    requires x < 0x40
    ensures x == x % 0x10 + (x / 0x10) % 4 * 0x10
  {
    assert x / 0x10 < 4;
  }

  /** The porch and sync fields are recovered from their two-bit parts. */
  lemma SyncDecodes(hfp: nat, hsw: nat, vfp: nat, vsw: nat)
    requires hfp < 0x400 && hsw < 0x400 && vfp < 0x40 && vsw < 0x40
    ensures var r: int := SyncHighBits(hfp, hsw, vfp, vsw);
      && hfp == Low8(hfp) + r / 0x40 * 0x100
      && hsw == Low8(hsw) + (r / 0x10) % 4 * 0x100
      && vfp == VerticalSyncLow(vfp, vsw) / 0x10 + (r / 4) % 4 * 0x10
      && vsw == VerticalSyncLow(vfp, vsw) % 0x10 + r % 4 * 0x10
  {
    TenBits(hfp);
    TenBits(hsw);
    SixBits(vfp);
    SixBits(vsw);
  }

  /** The porch and sync widths are recovered from bytes 8..11 when the
      horizontal ones fit in 10 bits and the vertical ones in 6. */
  lemma EncodeDecodesSync(t: Timing)
    requires Encode(t).Some?
    requires t.hFrontPorch < 0x400 && t.hSyncWidth < 0x400 && t.vFrontPorch < 0x40 && t.vSyncWidth < 0x40
    ensures var d: seq<int> := Encode(t).value;
      && t.hFrontPorch == d[8] + d[11] / 0x40 * 0x100
      && t.hSyncWidth == d[9] + (d[11] / 0x10) % 4 * 0x100
      && t.vFrontPorch == d[10] / 0x10 + (d[11] / 4) % 4 * 0x10
      && t.vSyncWidth == d[10] % 0x10 + d[11] % 4 * 0x10
  {
    var d: seq<int> := Encode(t).value;
    assert d[8] == Low8(t.hFrontPorch) && d[9] == Low8(t.hSyncWidth);
    assert d[10] == VerticalSyncLow(t.vFrontPorch, t.vSyncWidth);
    assert d[11] == SyncHighBits(t.hFrontPorch, t.hSyncWidth, t.vFrontPorch, t.vSyncWidth);
    SyncDecodes(t.hFrontPorch, t.hSyncWidth, t.vFrontPorch, t.vSyncWidth);
  }

  /** The constants at the head of the script: 1152x864 at 60 Hz with
      reduced blanking, no image size and no borders. */
  const Preferred: Timing := Timing(
    69750 * 1000,
    1152, 160,
    864, 25,
    48, 32,
    3, 4,
    0, 0,
    0, 0)

  /** The script's output for its own constants is the preferred timing
      descriptor of the driver's EDID template (bytes 54..71). */
  lemma PreferredIsTemplateDescriptor()
    ensures Encode(Preferred) == Some(Edid.Template[54..54 + DescriptorSize])
  {
    assert ClockUnits(Preferred) == 6975 == 0x1B * 0x100 + 0x3F;
    assert HighNibbles(1152, 160) == 0x40 && HighNibbles(864, 25) == 0x30;
    assert VerticalSyncLow(3, 4) == 0x34 && SyncHighBits(48, 32, 3, 4) == 0;
    assert Low8(1152) == 0x80 && Low8(160) == 0xA0 && Low8(864) == 0x60;
    assert Edid.Template[54..54 + DescriptorSize]
        == [0x3F, 0x1B, 0x80, 0xA0, 0x40, 0x60, 0x19, 0x30, 0x30, 0x20, 0x34, 0x00, 0x00, 0x00, 0x00, 0x00, 0x00, 0x1A];
  }
}
