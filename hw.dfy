/** Hardware probing (src/bdd_hw.cxx): locating memory BARs in the
    translated resource list, and the PCI identity, BAR-size and DISPI
    version gates of device start. */
module Hw {
  import opened Common

  /** The resource types of a partial descriptor that matter here. */
  datatype ResourceType = Memory | MemoryLarge | Port | Interrupt | Dma | OtherResource

  /** A partial resource descriptor together with what the kernel's
      decoder (RtlCmDecodeMemIoResource) reports for it: its start and
      its length in bytes. */
  datatype PartialDescriptor = PartialDescriptor(kind: ResourceType, decodedStart: int, decodedLength: nat)

  /** A full resource descriptor: a list of partial descriptors. */
  datatype FullDescriptor = FullDescriptor(partials: seq<PartialDescriptor>)

  predicate IsMemory(p: PartialDescriptor) {
    p.kind == Memory || p.kind == MemoryLarge
  }

  /** The memory descriptors among `ps`, in order. */
  function MemoryIn(ps: seq<PartialDescriptor>): (r: seq<PartialDescriptor>)
    ensures |r| <= |ps|
    ensures forall k :: 0 <= k < |r| ==> IsMemory(r[k])
  {
    if ps == [] then []
    else MemoryIn(ps[..|ps| - 1]) + (if IsMemory(ps[|ps| - 1]) then [ps[|ps| - 1]] else [])
  }

  /** The memory descriptors of a whole translated resource list, counted
      across its full descriptors in list order. */
  function MemoryDescriptors(list: seq<FullDescriptor>): seq<PartialDescriptor> {
    if list == [] then []
    else MemoryDescriptors(list[..|list| - 1]) + MemoryIn(list[|list| - 1].partials)
  }

  lemma {:induction false} MemoryInPrefix(ps: seq<PartialDescriptor>, j: nat)
    requires j <= |ps|
    ensures MemoryIn(ps[..j]) <= MemoryIn(ps)
    decreases |ps| - j
  {
    if j < |ps| {
      MemoryInPrefix(ps, j + 1);
      assert ps[..j + 1][..j] == ps[..j];
    } else {
      assert ps[..j] == ps;
    }
  }

  lemma {:induction false} MemoryDescriptorsPrefix(list: seq<FullDescriptor>, i: nat)
    requires i <= |list|
    ensures MemoryDescriptors(list[..i]) <= MemoryDescriptors(list)
    decreases |list| - i
  {
    if i < |list| {
      MemoryDescriptorsPrefix(list, i + 1);
      assert list[..i + 1][..i] == list[..i];
    } else {
      assert list[..i] == list;
    }
  }

  lemma {:induction false} MemoryInExact(ps: seq<PartialDescriptor>, p: PartialDescriptor)
    ensures p in MemoryIn(ps) <==> p in ps && IsMemory(p)
  {
    if ps != [] {
      MemoryInExact(ps[..|ps| - 1], p);
      assert ps == ps[..|ps| - 1] + [ps[|ps| - 1]];
    }
  }

  /** `p` is one of the partial descriptors of some full descriptor of the list. */
  predicate Listed(list: seq<FullDescriptor>, p: PartialDescriptor) {
    exists i :: 0 <= i < |list| && p in list[i].partials
  }

  lemma ListedSplit(list: seq<FullDescriptor>, p: PartialDescriptor)
    requires list != []
    ensures Listed(list, p) <==> Listed(list[..|list| - 1], p) || p in list[|list| - 1].partials
  {
    var init := list[..|list| - 1];
    if Listed(list, p) {
      var i :| 0 <= i < |list| && p in list[i].partials;
      if i < |list| - 1 {
        assert init[i] == list[i];
      }
    }
    if Listed(init, p) {
      var i :| 0 <= i < |init| && p in init[i].partials;
      assert list[i] == init[i];
    }
  }

  /** The counted descriptors are exactly the memory-type partial
      descriptors of the list: none of another type is counted, and
      none of a memory type is skipped. */
  lemma {:induction false} MemoryDescriptorsExact(list: seq<FullDescriptor>, p: PartialDescriptor)
    ensures p in MemoryDescriptors(list) <==> IsMemory(p) && Listed(list, p)
  {
    if list != [] {
      MemoryDescriptorsExact(list[..|list| - 1], p);
      MemoryInExact(list[|list| - 1].partials, p);
      ListedSplit(list, p);
    }
  }

  /** The inner loop of FindMemoryResource over one full descriptor's
      partial descriptors, with `found` memory descriptors counted before
      it: it stops at the memory descriptor that brings the count to
      `index`, if there is one. */
  method ScanPartials(ps: seq<PartialDescriptor>, index: nat, found: nat)
    returns (foundAfter: nat, hit: bool, p: PartialDescriptor)
    ensures var m := MemoryIn(ps);
      hit <==> found <= index < found + |m|
    ensures var m := MemoryIn(ps);
      hit ==> foundAfter == index + 1 && p == m[index - found]
    ensures !hit ==> foundAfter == found + |MemoryIn(ps)|
  {
    foundAfter := found;
    hit := false;
    p := PartialDescriptor(OtherResource, 0, 0);
    var j := 0;
    while j < |ps|
      invariant 0 <= j <= |ps|
      invariant foundAfter == found + |MemoryIn(ps[..j])|
      invariant !(found <= index < foundAfter)
    {
      assert ps[..j + 1][..j] == ps[..j];
      MemoryInPrefix(ps, j + 1);
      MemoryInPrefix(ps[..j + 1], j);
      if !IsMemory(ps[j]) {
        j := j + 1;
        continue;
      }
      assert MemoryIn(ps[..j + 1]) == MemoryIn(ps[..j]) + [ps[j]];
      if foundAfter == index {
        hit := true;
        p := ps[j];
        foundAfter := foundAfter + 1;
        assert MemoryIn(ps)[index - found] == p;
        return;
      }
      foundAfter := foundAfter + 1;
      j := j + 1;
    }
    assert ps[..j] == ps;
  }

  /** The memory descriptors of the first `i + 1` full descriptors are those
      of the first `i` followed by those of descriptor `i`, and a prefix of all. */
  lemma FullStep(list: seq<FullDescriptor>, i: nat)
    requires i < |list|
    ensures MemoryDescriptors(list[..i + 1]) == MemoryDescriptors(list[..i]) + MemoryIn(list[i].partials)
    ensures MemoryDescriptors(list[..i + 1]) <= MemoryDescriptors(list)
  {
    assert list[..i + 1][..i] == list[..i];
    MemoryDescriptorsPrefix(list, i + 1);
  }

  /** FindMemoryResource: the `index`-th (0-based) memory descriptor of the
      list. Start is always requested by the driver's two callers. A
      descriptor that decodes to length 0 still counts as found: the search
      stops counting matches, reports a configuration error with size 0,
      and leaves the decoded start in the start output. */
  method FindMemoryResource(list: seq<FullDescriptor>, index: nat)
    returns (status: Status, start: int, size: nat)
    ensures var mem := MemoryDescriptors(list);
      if index < |mem| && mem[index].decodedLength != 0 then
        status == Success && start == mem[index].decodedStart && size == mem[index].decodedLength
      else
        status == DeviceConfigurationError && size == 0 &&
        start == (if index < |mem| then mem[index].decodedStart else 0)
  {
    ghost var mem := MemoryDescriptors(list);
    size := 0;
    start := 0;
    var found := 0;
    var i := 0;
    while i < |list|
      invariant 0 <= i <= |list|
      invariant size == 0
      invariant found <= index ==> found == |MemoryDescriptors(list[..i])| && start == 0
      invariant index < found ==> index < |mem| && start == mem[index].decodedStart && mem[index].decodedLength == 0
    {
      ghost var before := found;
      var hit, p;
      found, hit, p := ScanPartials(list[i].partials, index, found);
      FullStep(list, i);
      if hit {
        assert mem[index] == p;
        size := p.decodedLength;
        start := p.decodedStart;
        if size != 0 {
          break;
        }
      }
      i := i + 1;
    }
    if size == 0 {
      assert list[..i] == list;
      status := DeviceConfigurationError;
      return;
    }
    status := Success;
  }

  /** The fields of the PCI common configuration header the driver inspects. */
  datatype PciHeader = PciHeader(vendorId: U16, deviceId: U16, baseClass: Byte, subClass: Byte)

  /** What the driver-model callback DxgkCbReadDeviceSpace returned. */
  datatype ConfigRead = ConfigRead(status: Status, bytesRead: nat, header: PciHeader)

  /** What DxgkCbMapMemory returned: its status and the mapped address (0 for NULL). */
  datatype MapResult = MapResult(status: Status, address: int)

  /** sizeof(PCI_COMMON_HEADER). */
  const PciCommonHeaderSize: nat := 64
  const BochsVendorId: U16 := 0x1234
  const BochsDeviceId: U16 := 0x1111
  /** PCI_CLASS_DISPLAY_CTLR, PCI_SUBCLASS_VID_VGA_CTLR, PCI_SUBCLASS_VID_OTHER. */
  const PciClassDisplayController: Byte := 0x03
  const PciSubclassVga: Byte := 0x00
  const PciSubclassOther: Byte := 0x80
  /** VBE_DISPI_ID5, the only DISPI interface version accepted. */
  const DispiId5: U16 := 0xB0C5
  const MinBar2Size: nat := 0x1000
  const UlongMax: nat := 0xFFFF_FFFF

  /** The identity and class gate of StartHardware. */
  predicate IsSupportedDevice(h: PciHeader) {
    && h.vendorId == BochsVendorId && h.deviceId == BochsDeviceId
    && h.baseClass == PciClassDisplayController
    && (h.subClass == PciSubclassVga || h.subClass == PciSubclassOther)
  }

  /** The part of the driver's state that hardware start and stop own:
      the mapping of the DISPI MMIO region (BAR2), 0 when unmapped. */
  class Hardware {
    var mappedBar2: int

    constructor ()
      ensures mappedBar2 == 0
    {
      mappedBar2 := 0;
    }

    /** StopHardware: unmap BAR2 if it is mapped (the unmap status is only
        logged) and forget the mapping; always succeeds. */
    method StopHardware() returns (status: Status)
      modifies this
      ensures mappedBar2 == 0
      ensures status == Success
    {
      if mappedBar2 != 0 {
        mappedBar2 := 0;
      }
      status := Success;
    }

    /** StartHardware, with the driver-model callbacks and the DISPI ID
        register read as inputs. */
    method StartHardware(cfg: ConfigRead, resources: seq<FullDescriptor>, mapping: MapResult, dispiId: U16)
      returns (status: Status)
      modifies this
      // a failed or short configuration read returns the read's own status
      ensures (!NtSuccess(cfg.status) || cfg.bytesRead < PciCommonHeaderSize) ==>
        status == cfg.status && mappedBar2 == old(mappedBar2)
      // wrong identity or class
      ensures NtSuccess(cfg.status) && cfg.bytesRead >= PciCommonHeaderSize && !IsSupportedDevice(cfg.header) ==>
        status == GraphicsDriverMismatch && mappedBar2 == old(mappedBar2)
      ensures var mem := MemoryDescriptors(resources);
        NtSuccess(cfg.status) && cfg.bytesRead >= PciCommonHeaderSize && IsSupportedDevice(cfg.header) ==>
        if !(1 < |mem| && mem[1].decodedLength != 0) then
          // BAR2 is not there
          status == DeviceConfigurationError && mappedBar2 == old(mappedBar2)
        else if mem[1].decodedLength < MinBar2Size || mem[1].decodedLength > UlongMax then
          // BAR2 size out of range: refused before any mapping
          status == DeviceConfigurationError && mappedBar2 == old(mappedBar2)
        else if !NtSuccess(mapping.status) || mapping.address == 0 then
          status == DeviceConfigurationError && mappedBar2 == mapping.address
        else if dispiId != DispiId5 then
          // unsupported DISPI version: BAR2 is unmapped again
          status == GraphicsDriverMismatch && mappedBar2 == 0
        else
          status == Success && mappedBar2 == mapping.address && mappedBar2 != 0
    {
      if !NtSuccess(cfg.status) || cfg.bytesRead < PciCommonHeaderSize {
        return cfg.status;
      }
      var header := cfg.header;
      if header.vendorId != BochsVendorId || header.deviceId != BochsDeviceId {
        return GraphicsDriverMismatch;
      }
      if header.baseClass != PciClassDisplayController {
        return GraphicsDriverMismatch;
      }
      if header.subClass != PciSubclassVga && header.subClass != PciSubclassOther {
        return GraphicsDriverMismatch;
      }
      var found, bar2, bar2Size := FindMemoryResource(resources, 1);
      if !NtSuccess(found) {
        return found;
      }
      if bar2Size < MinBar2Size || bar2Size > UlongMax {
        return DeviceConfigurationError;
      }
      mappedBar2 := mapping.address;
      if !NtSuccess(mapping.status) || mappedBar2 == 0 {
        return DeviceConfigurationError;
      }
      if dispiId != DispiId5 {
        var _ := StopHardware();
        return GraphicsDriverMismatch;
      }
      return Success;
    }
  }
}
