# A Dafny model of the xstdvga display-only driver core

The driver is a Windows display-only (KMDOD) driver for the Bochs/QEMU
standard VGA adapter. This project models its decision and bookkeeping
code and proves properties of that model. It covers:

- the mode catalog and the mode setter (`Vbe`). The catalog holds the
  firmware (POST) mode, then the standard resolutions that fit in video
  memory, at most 37 entries. The mode setter programs the DISPI
  registers.
- the per-source presentation state (`Bdd`): blacking out the screen
  against the last zeroed interval, the present request path and its
  centering offset, the source lookup, and the geometry reported for the
  bugcheck screen.
- the present dispatch (`BltHw`): the packed present context and the
  ordered `BltBits` calls.
- EDID synthesis (`Edid`): the serial number bit packing, and the
  128-byte block with its serial and checksum.
- hardware probing (`Hw`): memory-BAR lookup in the translated resource
  list, and the start and stop gates.
- the release-build logging gate (`ErrorLog`): the compile-time substring
  search and the suppression of `%p` formats.
- the detailed timing descriptor generator script (`EdidTiming`). Its
  output for the script's own constants equals the preferred timing bytes
  of the EDID template.

Conventions:

- Driver-model callbacks and MMIO reads are inputs. Where their results
  matter, the model takes the callback or register value as a parameter:
  the configuration read, the mapping, the DISPI ID and VIDEO_MEMORY_64K
  registers, the device property reads, the decoded resource
  descriptors, and whether the context allocation succeeds.
- MMIO writes and `BltBits` calls are returned as ordered traces:
  `seq<DispiWrite>` and `seq<BltCall>`.
- A frame buffer is the array of bytes from its mapping base.
  Destination addresses are offsets into that mapping.
- C's 16- and 32-bit unsigned arithmetic is written out (`Wrap16`,
  `Wrap32`), and so is the `(int)` cast and C's truncating division
  (`ToInt32`, `CDiv`).
- The serial number is computed on `bv32`, as the ULONG expression of
  the source.
- The script's bit operations are written as arithmetic on natural
  numbers. `x & 0xFF` is `x % 0x100`, a shift by `k` is a multiplication
  or division by `2^k`, and an OR of disjoint fields is their sum.
- The POST mode is admitted without a memory check
  (src/bdd_vbe.cxx:75-96).
- The 37-entry catalog capacity includes the POST entry
  (src/bdd_vbe.hxx:31).
- A move is blitted from the source image at its `DestRect`
  (src/blthw.cxx:76-80).
- Both blackout fills start at the mapping base (bdd.cxx:483-501).
- Several constants come from the driver's and the WDK's headers, which
  are not part of this model, and are taken at their values there:
  MIN/MAX_BYTES_PER_PIXEL_REPORTED = 4/4, MAX_VIEWS = 4,
  D3DDDI_ID_UNINITIALIZED = 0xFFFFFFFF, PowerDeviceD0 = 1, the
  VBE_DISPI_DISABLED/ENABLED/LFB_ENABLED bits, VBE_DISPI_ID5 = 0xB0C5,
  the PCI display class and subclass codes, and the 64-byte PCI common
  configuration header.

## Model

| member | source | states |
|---|---|---|
| Vbe.StandardTableSorted | src/bdd_vbe.cxx:9-47 | The standard table has 37 entries, strictly increasing by (width, height), so none repeats. |
| Vbe.StandardTableBounds | src/bdd_vbe.cxx:9-47 | Every standard resolution is non-zero and at most 8192 x 4320. |
| Vbe.StandardResolutionsIsStandard | src/bdd_vbe.cxx:9-47 | The table meets the hypotheses of the generic catalog lemmas (sorted, bounded). |
| Vbe.MemoryBudget | src/bdd_vbe.cxx:65-73 | The budget is the VIDEO_MEMORY_64K register in bytes or the BAR size, whichever is smaller. |
| Vbe.RequiredMemoryExact | src/bdd_vbe.cxx:107-108 | For resolutions up to 8192 x 4320, the ULONG memory requirement does not wrap: it is width x height x 4. |
| Vbe.EligibleProps | src/bdd_vbe.cxx:101-119 | Every resolution the reference description admits passes the ratio and memory filters, differs from entry 0, and comes from the table. |
| Vbe.EligibleSorted | src/bdd_vbe.cxx:98-137 | The admitted resolutions keep the table's strict order. |
| Vbe.EligibleComplete | src/bdd_vbe.cxx:98-137 | Every table resolution that passes the filters and differs from entry 0 is admitted. |
| Vbe.WalkIsReference | src/bdd_vbe.cxx:98-137 | The catalog loop equals the independent description: the entries so far, then the admitted resolutions numbered consecutively, cut at the capacity. |
| Vbe.CatalogIsReference | src/bdd_vbe.cxx:75-137 | The whole catalog equals that description, POST entry included. |
| Vbe.CatalogNumbering | src/bdd_vbe.cxx:75-137 | At most 37 entries. Each entry's mode number is its index. An admitted POST mode is entry 0, with its fields truncated to USHORT. |
| Vbe.CatalogStandardEntries | src/bdd_vbe.cxx:101-128 | Every entry after the POST entry is a table resolution divisible by 8 that needs non-zero memory within the budget. It is at 32 bpp with pitch width x 4 at the BAR start, and does not repeat the POST resolution. |
| Vbe.CatalogOrdered | src/bdd_vbe.cxx:98-137 | The standard entries appear in table order. |
| Vbe.CatalogComplete | src/bdd_vbe.cxx:98-137 | Unless the catalog is full, every table resolution that passes the filters and does not repeat the POST entry is present. |
| Vbe.CatalogEmpty | src/bdd_vbe.cxx:75-142 | The catalog is empty if and only if the POST mode is not admitted and no table resolution passes the filters. |
| Vbe.RegistersLastWrite | src/bdd_vbe.cxx:158-169 | A DISPI register holds the value of the last write to it. |
| Vbe.ModeSetProgramsMode | src/bdd_vbe.cxx:158-169 | After the mode-set writes, whatever the registers held before: ENABLE = ENABLED or LFB_ENABLED; BANK and the offsets are 0; BPP and the real and virtual resolutions are the entry's. |
| Vbe.ModeSetDisabledWhileProgramming | src/bdd_vbe.cxx:158-168 | Before every write after the first, ENABLE holds VBE_DISPI_DISABLED. |
| Vbe.ModeInfo.EnumerateVBE | src/bdd_vbe.cxx:49-145 | A missing or zero-size framebuffer BAR gives its error status and an empty catalog. Otherwise the entries are the catalog of the POST mode, the BAR start and the budget. The result is success if and only if the catalog is non-empty, and STATUS_UNSUCCESSFUL if and only if it is empty. |
| Vbe.ModeInfo.AppendStandardModes | src/bdd_vbe.cxx:98-137 | The loop appends exactly what the catalog walk appends to the entries it starts from. |
| Vbe.ModeInfo.SetVBEMode | src/bdd_vbe.cxx:147-172 | A mode number at or beyond the count is STATUS_INVALID_PARAMETER with no write. Otherwise it is success with the ten writes, in order. |
| Vbe.ModeInfo.FindMatchingVBEMode | bdd.cxx:510-521 | The lowest index whose width, height and depth match, or the count when none does. |
| Bdd.HeadFill | bdd.cxx:480-489 | The first fill is at most one screen, and empty unless the new range starts below the zeroed one. |
| Bdd.TailFill | bdd.cxx:492-503 | The second fill is at most one screen, and empty unless the new range ends above the zeroed one. |
| Bdd.BlackedOutBounds | bdd.cxx:476-504 | Nothing past the first Height x Pitch bytes changes. A new range equal to the recorded one writes nothing, so a second call is write-free. A new range that does not meet the recorded one is zeroed in full. |
| Bdd.BlackOutMissesTail | bdd.cxx:492-502 | As written: a concrete frame buffer whose recorded zeroed range really is zero is left partly unblacked by the tail fill. |
| Bdd.IntendedBlackOutClearsScreen | bdd.cxx:479-503 | The intended fills blacken the whole screen whenever the recorded range is zero, and write nothing past the screen. |
| Bdd.CenterOffset | bdd.cxx:401-408 | The centered destination offset, as computed (UINT sum, cast to int, halved toward zero), lies within plus or minus 2^30. |
| Bdd.CenterShiftWithoutWrap | bdd.cxx:402-408 | Without wrap-around, the code's offset is half the full byte shift. |
| Bdd.CenterOffsetSplitsRow | bdd.cxx:401-408 | As written: a 1024 x 768 screen centering a 1024 x 767 source gets offset 2048, half a row, which the pitch does not divide. The intended offset is 0. |
| Bdd.IntendedCenterOffsetCenters | bdd.cxx:401-408 | When a screen row fits in the pitch, the intended offset divided by the pitch is the centered row (H - SrcH) / 2, and its remainder is the byte offset of pixel (W - SrcW) / 2 in that row: the image starts on a whole pixel of the centered row. |
| Bdd.CenterOffsetAgreesWhenEven | bdd.cxx:401-408 | With even differences, whole bytes per pixel and a shift below 2^31, the code's offset is the intended one. |
| Bdd.FirstMapped | bdd.cxx:623-627 | The first source with a mapped frame buffer, at or after the start, or the number of sources. |
| Bdd.ZeroMemory | bdd.cxx:483-501 | RtlZeroMemory from the mapping base zeroes exactly the first `length` bytes. |
| Bdd.Adapter.BlackOutScreen | bdd.cxx:466-508 | The zeroed range becomes [PhysicAddress, PhysicAddress + Height x Pitch) whether or not the frame buffer is active. An active frame buffer gets the two fills. An inactive one is untouched, and so are the other sources. |
| Bdd.Adapter.PresentDisplayOnly | bdd.cxx:365-424 | A depth outside [4, 4] bytes per pixel is STATUS_INVALID_PARAMETER with no change. A monitor above D0, a hidden source or an inactive frame buffer is success with no blit and no change. Otherwise the zeroed range becomes (0, 0). A failed context allocation is then STATUS_NO_MEMORY with no blit. A successful one is success with the blits of the source's blitter, at the centered offset and with the path's rotation when the request asks for it. |
| Bdd.Adapter.FindSourceForTarget | bdd.cxx:619-630 | The first mapped source. Failing that, 0 or D3DDDI_ID_UNINITIALIZED, according to `defaultToZero`. |
| Bdd.Adapter.SystemDisplayEnable | bdd.cxx:646-688 | The first mapped source becomes the system display source, with its size (swapped for 90 and 270 degrees) and its colour format. With no mapped source, the id stays uninitialized and the result is STATUS_UNSUCCESSFUL. |
| Bdd.ReportedSizeIsSourceShape | bdd.cxx:676-683 | The width and height reported for the bugcheck screen are those the blitter gives its source surface for the same display and rotation (src/blthw.cxx:59-72): swapped for a quarter turn. |
| Bdd.PresentCallsTargetMode | bdd.cxx:395-420 | A present issues one blit per move and dirty rectangle. Each targets the source mode's size at the display pitch with the chosen rotation, starting at the mapping base unless centered. |
| BltHw.HwExecutePresentDisplayOnly | src/blthw.cxx:28-93 | The calls are one BltBits per move destination rectangle, in order, then one per dirty rectangle, in order, all with the context's two descriptors. |
| BltHw.HwBlt.ExecutePresentDisplayOnly | src/blthw.cxx:120-208 | A failed allocation is STATUS_NO_MEMORY with no blit. Otherwise it is success, and the blits use the mode's pitch and source size with the given address, depth and rotation. |
| BltHw.HwBlt.PackPresentMemory | src/blthw.cxx:163-204 | The context holds fresh copies of the move and dirty-rectangle lists equal to the caller's, together with the request fields and the mode's stride and size. |
| BltHw.PresentCallsShape | src/blthw.cxx:75-90 | NumMoves + NumDirtyRects calls; move i blits its destination rectangle at position i, dirty rectangle i at NumMoves + i; every call shares the two descriptors. |
| BltHw.PresentCallsSplit | src/blthw.cxx:74-90 | The call trace is the moves' trace followed by the dirty rectangles' trace. |
| BltHw.SrcInfoCoversDst | src/blthw.cxx:59-72 | The source descriptor is unrotated, 32 bpp, at offset (0, 0), and covers the destination's area. Its sides are swapped for a quarter turn and equal otherwise. |
| Edid.TemplateFacts | src/bdd_edid.cxx:7-178 | The template is 128 bytes, starts with the EDID header 00 FF FF FF FF FF FF 00 of section 3.3 of VESA E-EDID, and has a zero checksum byte. |
| Edid.PackedFields | src/bdd_edid.cxx:204 | The four packed fields occupy disjoint bits: bus, device, function and target id are each read back from their positions. |
| Edid.SerialNumberFields | src/bdd_edid.cxx:180-205 | Low 16 bits are always the target id's. With a device object, bits 24-31, 19-23 and 16-18 hold the bus, device and function (0 on a failed read). Without one, bits 16-31 are zero. |
| Edid.LittleEndianRoundTrip | src/bdd_edid.cxx:220 | The four little-endian serial bytes recombine to the serial. |
| Edid.BuildEdidChecksum | src/bdd_edid.cxx:221-224 | The 128 bytes of the block sum to 0 mod 256 (section 3.11 of VESA E-EDID). |
| Edid.BuildEdidLayout | src/bdd_edid.cxx:219-224 | The block starts with the header, holds the serial little-endian in bytes 12-15, and equals the template everywhere else but byte 127. |
| Edid.BuildEdidSerial | src/bdd_edid.cxx:220 | The serial is recovered from bytes 12-15. |
| Edid.CopyPatched | src/bdd_edid.cxx:219-220 | After the two copies, the buffer is the template with the serial in bytes 12-15. |
| Edid.ByteSum | src/bdd_edid.cxx:221-223 | The BYTE accumulation loop computes the buffer's byte sum mod 256. |
| Edid.WriteEdid | src/bdd_edid.cxx:219-224 | After the copies and the checksum store, the buffer is the EDID block for the serial. |
| Edid.EdidStore.GetEdid | src/bdd_edid.cxx:207-232 | The target's buffer becomes the block for its serial, and the other targets' buffers are unchanged. All four EDID flags are set and the status is success. |
| Hw.MemoryIn | src/bdd_hw.cxx:125-130 | Only Memory and MemoryLarge descriptors are counted. |
| Hw.MemoryDescriptorsExact | src/bdd_hw.cxx:122-135 | A descriptor is counted if and only if it has a memory type and appears in some full descriptor of the list. |
| Hw.ScanPartials | src/bdd_hw.cxx:125-134 | The inner loop stops at the memory descriptor that brings the running count to Index, exactly when that descriptor lies in this full descriptor. Otherwise it counts all of this descriptor's memory entries. |
| Hw.FindMemoryResource | src/bdd_hw.cxx:109-147 | Success with the start and size of the index-th memory descriptor, counted across the list in order, when it exists with a non-zero size. Otherwise STATUS_DEVICE_CONFIGURATION_ERROR with size 0. |
| Hw.Hardware.StopHardware | src/bdd_hw.cxx:93-107 | The BAR2 mapping is cleared and the status is success. |
| Hw.Hardware.StartHardware | src/bdd_hw.cxx:7-91 | A failed or short configuration read returns the read's own status. Wrong identity or class is STATUS_GRAPHICS_DRIVER_MISMATCH. A missing BAR2, or one outside [0x1000, ULONG_MAX], is a configuration error before any mapping, and so is a failed mapping. A DISPI ID other than 0xB0C5 is a mismatch with BAR2 unmapped again. Otherwise it is success with BAR2 mapped. |
| ErrorLog.Length | src/bdd_errorlog.hxx:10-13 | The scan stops at the first NUL: the index returned holds NUL and no earlier one does. |
| ErrorLog.MatchLength | src/bdd_errorlog.hxx:11-16 | The inner scan matches as many characters as the needle and haystack share from position i, stopping at the first difference or at a terminator. |
| ErrorLog.StringLiteralContains | src/bdd_errorlog.hxx:7-21 | True if and only if the needle's text is a contiguous substring of the haystack's text. An empty needle gives true, and an empty haystack with a non-empty needle gives false. |
| ErrorLog.PointerFormatScan | src/bdd_errorlog.hxx:27 | "%p" occurs in a format if and only if some '%' is directly followed by 'p'. |
| ErrorLog.LogSafe | src/bdd_errorlog.hxx:23-30 | A message is emitted if and only if the build is checked or the format has no "%p". It is the format with a newline, at the requested level. |
| EdidTiming.HighNibbles | extras/edid.py:23 | The upper nibble holds bits 8-11 of the first value, the lower nibble those of the second. |
| EdidTiming.VerticalSyncLow | extras/edid.py:31 | The upper nibble is the vertical front porch's low nibble, the lower one the sync width's. |
| EdidTiming.SyncHighBits | extras/edid.py:32-38 | From the high bits down: bits 8-9 of the horizontal front porch and sync width, then bits 4-5 of the vertical ones. |
| EdidTiming.Encode | extras/edid.py:19-47 | `struct.pack` refuses the input exactly when the rounded clock exceeds 16 bits or a border exceeds a byte. Otherwise the descriptor is 18 bytes and ends with the flags byte 0x1A. |
| EdidTiming.PairDecodes | extras/edid.py:21-28 | Two 12-bit values are recovered from their low bytes and the shared high-nibble byte. |
| EdidTiming.EncodeDecodes | extras/edid.py:20-43 | Bytes 0-1 hold the pixel clock in 10 kHz units, rounded half up, little-endian. Active, blanking and image sizes below 4096 are decoded from bytes 2-7 and 12-14. Bytes 15-16 are the borders. |
| EdidTiming.EncodeDecodesSync | extras/edid.py:29-38 | Porch and sync widths (10 bits horizontal, 6 vertical) are decoded from bytes 8-11. |
| EdidTiming.PreferredIsTemplateDescriptor | extras/edid.py:5-45 | For the script's constants, the output is exactly bytes 54-71 of the driver's EDID template (src/bdd_edid.cxx lines 92-109). |

## Left out

- BltBits and the per-pixel rotation are not modelled, because their code is not part of this model. Each call is recorded with its two descriptors and its rectangle.
- Driver-model callbacks are method inputs: DxgkCbReadDeviceSpace, DxgkCbMapMemory/UnmapMemory, IoGetDeviceProperty, RtlCmDecodeMemIoResource and the DISPI register reads. A decoded descriptor carries the start and length that RtlCmDecodeMemIoResource would report.
- Registry writes (RegisterHWInfo), pool allocation (memory.cxx), the root logging header, and the rest of the driver-model plumbing are left out. They are I/O or carry no logic.
- BDD_LOG_SAFE's arguments, DbgPrintEx itself and the debug level filtering are left out. The model records only the level and the format string passed on.
- BDD_ASSERT and BDD_ASSERT_CHK only log or assert. Their conditions (a source id below MAX_VIEWS, a target id below the child count, EDID not yet attempted) become `requires` clauses where an index depends on them.
- Hw.FindMemoryResource: the source zeroes Start, and RtlCmDecodeMemIoResource may write it even for a descriptor that decodes to size 0. The model follows the code: the start output is then the decoded start, not 0. The ULONG `Found` counter is unbounded in the model.
- BltHw.HwBlt.ExecutePresentDisplayOnly: the single pool block holding the header and both lists is modelled as a context object with two arrays. The size computation `sizeof + NumMoves * sizeof(MOVE_RECT) + ...` and its possible overflow are not modelled. Null move or rectangle pointers with non-zero counts are not modelled; the lists are sequences.
- BltHw.HwBlt.constructor: BDD_HWBLT starts with an uninitialized source id, which the adapter later sets. The model's constructor takes the final source id.
- `hAdapter`, `DisplaySource` and the `delete[]` of the context are left out, because they do not affect the BltBits calls.
- Bdd.Adapter.PresentDisplayOnly: the colour format is represented by its bit depth (BPPFromPixelFormat is not part of this model). Addresses are offsets from the mapping base.
- EdidTiming.Encode: Python's `&` and shifts on negative integers are not modelled. Timing parameters are natural numbers.
- The final `print` loop of the timing script is I/O and is left out.
- Vbe.ModeInfo.EnumerateVBE: the POST mode's colour format is represented by its bit depth. Logging is left out.
- Edid.EdidStore.GetEdid: the BDD_ASSERT_CHK on EDID_Attempted is not a precondition, because it compiles to an analysis hint in release builds.

## Findings

| source | as written | input that shows it | evidently intended | confidence | as-written member | corrected member |
|---|---|---|---|---|---|---|
| bdd.cxx:492-502 | The tail fill zeroes `NewEnd - ZeroedOutEnd` bytes from the mapping base, not from the offset of `ZeroedOutEnd`. When a screen grows at the same base, the newly covered tail keeps its old contents, and the head is zeroed again. | Recorded zeroed range [100, 200) with those 100 bytes zero; a new 200-byte screen at 100 (bytes 100-199 of the mapping hold 0xFF). The fill zeroes bytes 0-99 again and byte 100 stays 0xFF. | Zero [ZeroedOutEnd - NewStart, Height x Pitch) of the mapping, so the whole new screen is black. | not executed | Bdd.BlackOutMissesTail | Bdd.IntendedBlackOutClearsScreen |
| bdd.cxx:401-408 | The centering shift sums the full vertical shift in bytes and the full horizontal shift, then halves the total. When the height difference is odd, the image starts half a row down, mid-row. | A 1024 x 768 screen with pitch 4096 centering a 1024 x 767 source: offset 2048, which is pixel 512 of row 0. | Halve each difference first: row (H - SrcH) / 2 and column (W - SrcW) / 2, giving offset 0 here. | not executed | Bdd.CenterOffsetSplitsRow | Bdd.IntendedCenterOffsetCenters |
