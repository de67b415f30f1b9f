/** EDID synthesis of src/bdd_edid.cxx: the serial number packed from the
    PCI location and the target id, and the 128-byte EDID block built from
    the template with that serial and a checksum (VESA E-EDID Release A
    Revision 2, sections 3.3 and 3.11). */
module Edid {
  import opened Common

  /** EDID_V1_BLOCK_SIZE. */
  const BlockSize: nat := 128

  /** Offset of the ID serial number field. */
  const SerialOffset: nat := 0xC

  /** EDIDTemplate: the 128-byte block with a zero serial and a zero
      checksum, written as its sections. */
  const Template: seq<Byte> :=
    // header
    [0x00, 0xFF, 0xFF, 0xFF, 0xFF, 0xFF, 0xFF, 0x00] +
    // vendor id, model, serial (filled in by GetEdid)
    [0x49, 0x14, 0x00, 0x00, 0x00, 0x00, 0x00, 0x00] +
    // model year, version 1.4, basic display parameters
    [0xFF, 0x24, 0x01, 0x04, 0xA0, 0x00, 0x00, 0x78, 0x26] +
    // chromaticity
    [0xEE, 0x91, 0xA3, 0x54, 0x4C, 0x99, 0x26, 0x0F, 0x50, 0x54] +
    // established and manufacturer timings: none
    [0x00, 0x00, 0x00] +
    // standard timings, all unused
    [0x01, 0x01, 0x01, 0x01, 0x01, 0x01, 0x01, 0x01, 0x01, 0x01, 0x01, 0x01, 0x01, 0x01, 0x01, 0x01] +
    // preferred timing: 1152x864 at 60 Hz, reduced blanking
    [0x3F, 0x1B, 0x80, 0xA0, 0x40, 0x60, 0x19, 0x30, 0x30, 0x20, 0x34, 0x00, 0x00, 0x00, 0x00, 0x00, 0x00, 0x1A] +
    // display product name descriptor
    [0x00, 0x00, 0x00, 0xFC, 0x00, 0x58, 0x53, 0x54, 0x44, 0x56, 0x47, 0x41, 0x0A, 0x20, 0x20, 0x20, 0x20, 0x20] +
    // two dummy descriptors
    [0x00, 0x00, 0x00, 0x10, 0x00, 0x00, 0x00, 0x00, 0x00, 0x00, 0x00, 0x00, 0x00, 0x00, 0x00, 0x00, 0x00, 0x00] +
    [0x00, 0x00, 0x00, 0x10, 0x00, 0x00, 0x00, 0x00, 0x00, 0x00, 0x00, 0x00, 0x00, 0x00, 0x00, 0x00, 0x00, 0x00] +
    // no extension, checksum (computed by GetEdid)
    [0x00, 0x00]

  /** The fixed EDID header of section 3.3 of VESA E-EDID. */
  const Header: seq<Byte> := [0x00, 0xFF, 0xFF, 0xFF, 0xFF, 0xFF, 0xFF, 0x00]

  lemma TemplateFacts()
    ensures |Template| == BlockSize
    ensures Template[..8] == Header
    ensures Template[BlockSize - 1] == 0
  {
  }

  // ---------------------------------------------------------------------
  // GetSerialNumber

  /** GetSerialNumber, on the ULONG values of the source. Without a
      physical device object the serial is the low 16 bits of the target
      id. Otherwise the bus number (bits 24..31), the PCI device (bits
      19..23) and function (bits 16..18) from the device address, and the
      target id (bits 0..15) are packed; a failed property read (None)
      counts as 0. */
  function GetSerialNumber(pdoPresent: bool, busRead: Option<bv32>, addressRead: Option<bv32>, targetId: bv32): (serial: bv32)
  {
    if !pdoPresent then targetId & 0xFFFF
    else Packed(ReadOrZero(busRead), ReadOrZero(addressRead), targetId)
  }

  /** A property read whose failure is replaced by 0. */
  function ReadOrZero(read: Option<bv32>): bv32 {
    if read.Some? then read.value else 0
  }

  /** The packed ULONG of a device-backed serial. */
  function Packed(bus: bv32, address: bv32, targetId: bv32): bv32 {
    var device := (address >> 16) & 0x1F;
    var func := address & 0x7;
    ((bus & 0xFF) << 24) | (device << 19) | (func << 16) | (targetId & 0xFFFF)
  }

  /** The packed fields occupy disjoint bits, so each can be read back. */
  lemma PackedFields(bus: bv32, address: bv32, targetId: bv32)
    ensures var s := Packed(bus, address, targetId);
      && s >> 24 == bus & 0xFF
      && (s >> 19) & 0x1F == (address >> 16) & 0x1F
      && (s >> 16) & 0x7 == address & 0x7
      && s & 0xFFFF == targetId & 0xFFFF
  {
  }

  /** The serial number's fields, read back: the low 16 bits are always the
      target id's; with a device object the bus, device and function fields
      hold the (possibly zero) property values; without one they are zero. */
  lemma SerialNumberFields(pdoPresent: bool, busRead: Option<bv32>, addressRead: Option<bv32>, targetId: bv32)
    ensures var s := GetSerialNumber(pdoPresent, busRead, addressRead, targetId);
      && s & 0xFFFF == targetId & 0xFFFF
      && (pdoPresent ==>
            && s >> 24 == ReadOrZero(busRead) & 0xFF
            && (s >> 19) & 0x1F == (ReadOrZero(addressRead) >> 16) & 0x1F
            && (s >> 16) & 0x7 == ReadOrZero(addressRead) & 0x7)
      && (!pdoPresent ==> s >> 16 == 0)
  {
    if pdoPresent {
      PackedFields(ReadOrZero(busRead), ReadOrZero(addressRead), targetId);
    } else {
      MaskedHighZero(targetId);
    }
  }

  lemma MaskedHighZero(x: bv32)
    ensures (x & 0xFFFF) >> 16 == 0 && (x & 0xFFFF) & 0xFFFF == x & 0xFFFF
  {
  }

  // ---------------------------------------------------------------------
  // GetEdid

  /** The four bytes of a ULONG in host (little-endian) order. */
  function LittleEndian(x: U32): (bytes: seq<Byte>)
    ensures |bytes| == 4
  {
    [x % 0x100, (x / 0x100) % 0x100, (x / 0x1_0000) % 0x100, x / 0x100_0000]
  }

  lemma {:induction false} LittleEndianRoundTrip(x: U32)
    ensures var b := LittleEndian(x);
      (b[0] as int) + (b[1] as int) * 0x100 + (b[2] as int) * 0x1_0000 + (b[3] as int) * 0x100_0000 == x
  {
    var q1, q2, q3 := x / 0x100, x / 0x1_0000, x / 0x100_0000;
    assert q2 == q1 / 0x100 && q3 == q2 / 0x100;
    assert x == q1 * 0x100 + x % 0x100;
    assert q1 == q2 * 0x100 + q1 % 0x100;
    assert q2 == q3 * 0x100 + q2 % 0x100;
  }

  /** The sum of the bytes of `s`. */
  function Sum(s: seq<Byte>): nat
    decreases |s|
  {
    if s == [] then 0 else Sum(s[..|s| - 1]) + s[|s| - 1]
  }

  /** The template with the serial in bytes 12..15. */
  function Patched(serial: U32): (p: seq<Byte>)
    ensures |p| == BlockSize
  {
    TemplateFacts();
    var le := LittleEndian(serial);
    seq(BlockSize, i requires 0 <= i < BlockSize =>
      if SerialOffset <= i < SerialOffset + 4 then le[i - SerialOffset] else Template[i])
  }

  /** The EDID block of a target: the patched template with byte 127 set
      to the byte that makes all 128 bytes sum to 0 mod 256. */
  function BuildEdid(serial: U32): (e: seq<Byte>)
    ensures |e| == BlockSize
  {
    var p := Patched(serial);
    p[BlockSize - 1 := (-(Sum(p) % 0x100)) % 0x100]
  }

  lemma {:induction false} SumPrefix(s: seq<Byte>, i: nat)
    requires i < |s|
    ensures Sum(s[..i + 1]) == Sum(s[..i]) + s[i]
  {
    assert s[..i + 1][..i] == s[..i];
  }

  /** The block checks out: its bytes sum to 0 mod 256 (section 3.11 of VESA E-EDID). */
  lemma BuildEdidChecksum(serial: U32)
    ensures Sum(BuildEdid(serial)) % 0x100 == 0
  {
    var p := Patched(serial);
    var e := BuildEdid(serial);
    TemplateFacts();
    assert p[BlockSize - 1] == Template[BlockSize - 1] == 0;
    assert e[..BlockSize - 1] == p[..BlockSize - 1];
    assert p[..BlockSize] == p && e[..BlockSize] == e;
    SumPrefix(p, BlockSize - 1);
    SumPrefix(e, BlockSize - 1);
  }

  /** The block is the template except for the serial bytes 12..15, which
      hold the serial little-endian, and the checksum byte 127; in
      particular it starts with the header of section 3.3 of VESA E-EDID. */
  lemma BuildEdidLayout(serial: U32)
    ensures var e := BuildEdid(serial);
      && e[..8] == Header
      && e[SerialOffset..SerialOffset + 4] == LittleEndian(serial)
      && (forall i | 0 <= i < BlockSize - 1 && !(SerialOffset <= i < SerialOffset + 4) :: e[i] == Template[i])
  {
    TemplateFacts();
    var e := BuildEdid(serial);
    var p := Patched(serial);
    assert e[..8] == Template[..8];
  }

  /** The serial can be read back from the block. */
  lemma BuildEdidSerial(serial: U32)
    ensures var e := BuildEdid(serial);
      (e[12] as int) + (e[13] as int) * 0x100 + (e[14] as int) * 0x1_0000 + (e[15] as int) * 0x100_0000 == serial
  {
    BuildEdidLayout(serial);
    LittleEndianRoundTrip(serial);
    var e := BuildEdid(serial);
    assert e[12] == LittleEndian(serial)[0] && e[13] == LittleEndian(serial)[1];
    assert e[14] == LittleEndian(serial)[2] && e[15] == LittleEndian(serial)[3];
  }

  /** The EDID buffers of the children (m_EDIDs) and the EDID flags of the
      driver (m_Flags). */
  class EdidStore {
    const edids: seq<array<Byte>>
    var edidAttempted: bool
    var edidRetrieved: bool
    var edidValidHeader: bool
    var edidValidChecksum: bool

    ghost predicate Valid()
      reads this
    {
      && (forall t | 0 <= t < |edids| :: edids[t].Length == BlockSize)
      && (forall t, u | 0 <= t < u < |edids| :: edids[t] != edids[u])
    }

    constructor (children: nat)
      ensures Valid() && |edids| == children && fresh(edids)
      ensures !edidAttempted && !edidRetrieved && !edidValidHeader && !edidValidChecksum
    {
      var blocks: seq<array<Byte>> := [];
      for t := 0 to children
        invariant |blocks| == t && fresh(blocks)
        invariant forall i | 0 <= i < t :: blocks[i].Length == BlockSize
        invariant forall i, j | 0 <= i < j < t :: blocks[i] != blocks[j]
      {
        var b := new Byte[BlockSize](_ => 0);
        blocks := blocks + [b];
      }
      edids := blocks;
      edidAttempted, edidRetrieved, edidValidHeader, edidValidChecksum := false, false, false, false;
    }

    /** GetEdid: the target's buffer becomes the EDID block for its serial
        and all four flags are set; it always succeeds. */
    method GetEdid(targetId: U32, pdoPresent: bool, busRead: Option<bv32>, addressRead: Option<bv32>)
      returns (status: Status)
      requires Valid() && targetId < |edids|
      modifies this, edids[targetId]
      ensures Valid()
      ensures status == Success
      ensures edids[targetId][..] == BuildEdid(GetSerialNumber(pdoPresent, busRead, addressRead, targetId as bv32) as int)
      ensures edidAttempted && edidRetrieved && edidValidHeader && edidValidChecksum
      ensures forall t | 0 <= t < |edids| && t != targetId :: edids[t][..] == old(edids[t][..])
    {
      var serial := GetSerialNumber(pdoPresent, busRead, addressRead, targetId as bv32) as int;
      WriteEdid(edids[targetId], serial);
      edidAttempted := true;
      edidRetrieved := true;
      edidValidHeader := true;
      edidValidChecksum := true;
      status := Success;
    }
  }

  /** The buffer work of GetEdid: the template with the serial, then the
      checksum byte that makes the block sum to zero. */
  method WriteEdid(edid: array<Byte>, serial: U32)
    requires edid.Length == BlockSize
    modifies edid
    ensures edid[..] == BuildEdid(serial)
  {
    CopyPatched(edid, serial);
    var checksum := ByteSum(edid);
    ghost var patched := edid[..];
    var last: Byte := (-(checksum as int)) % 0x100;
    edid[BlockSize - 1] := last;
    assert edid[..] == patched[BlockSize - 1 := last];
  }

  /** The two RtlCopyMemory calls of GetEdid: the template, then the serial
      over bytes 12..15. */
  method CopyPatched(edid: array<Byte>, serial: U32)
    requires edid.Length == BlockSize
    modifies edid
    ensures edid[..] == Patched(serial)
  {
    TemplateFacts();
    forall i | 0 <= i < BlockSize {
      edid[i] := Template[i];
    }
    var le := LittleEndian(serial);
    edid[SerialOffset] := le[0];
    edid[SerialOffset + 1] := le[1];
    edid[SerialOffset + 2] := le[2];
    edid[SerialOffset + 3] := le[3];
    assert forall i | 0 <= i < BlockSize :: edid[i] == Patched(serial)[i];
  }

  /** The checksum loop of GetEdid: the BYTE sum of the buffer. */
  method ByteSum(buffer: array<Byte>) returns (checksum: Byte)
    ensures checksum == Sum(buffer[..]) % 0x100
  {
    checksum := 0;
    for i := 0 to buffer.Length
      invariant checksum == Sum(buffer[..i]) % 0x100
    {
      SumPrefix(buffer[..], i);
      assert buffer[..i + 1] == buffer[..][..i + 1] && buffer[..i] == buffer[..][..i];
      checksum := (checksum + buffer[i]) % 0x100;
    }
    assert buffer[..buffer.Length] == buffer[..];
  }
}
