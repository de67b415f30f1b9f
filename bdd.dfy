/** The per-source presentation state of bdd.cxx: blacking out the screen
    with the last-zeroed interval, the present request path with its
    centering offset, the source lookup and the display geometry reported
    for the bugcheck screen. */
module Bdd {
  import opened Common
  import opened DisplayTypes
  import BltHw

  /** PowerDeviceD0, the fully-on device power state. */
  const PowerDeviceD0: int := 1

  /** MIN_BYTES_PER_PIXEL_REPORTED and MAX_BYTES_PER_PIXEL_REPORTED. */
  const MinBytesPerPixelReported: nat := 4
  const MaxBytesPerPixelReported: nat := 4

  /** ScreenHeight * ScreenPitch, computed in UINT. */
  function ScreenBytes(info: DisplayInfo): U32 {
    Wrap32(info.height * info.pitch)
  }

  /** `s` with its first `n` bytes set to zero. */
  function Zeroed(s: seq<Byte>, n: nat): (r: seq<Byte>)
    ensures |r| == |s|
    ensures forall k | 0 <= k < |s| :: r[k] == (if k < n then 0 else s[k])
  {
    seq(|s|, k requires 0 <= k < |s| => if k < n then 0 else s[k])
  }

  // ---------------------------------------------------------------------
  // BlackOutScreen, as written: both zero-fills start at the mapping base.

  /** The length of the first zero-fill: the part of the new range below
      the zeroed range, or the whole screen when the ranges do not meet. */
  function HeadFill(newStart: int, screenBytes: U32, zeroedStart: int): (n: nat)
    ensures n <= screenBytes
    ensures newStart >= zeroedStart ==> n == 0
  {
    if newStart < zeroedStart then
      if newStart + screenBytes < zeroedStart then screenBytes else Wrap32(zeroedStart - newStart)
    else 0
  }

  /** The length of the second zero-fill: the size of the part of the new
      range above the zeroed range, or the whole screen when the ranges do
      not meet. */
  function TailFill(newStart: int, screenBytes: U32, zeroedEnd: int): (n: nat)
    ensures n <= screenBytes
    ensures newStart + screenBytes <= zeroedEnd ==> n == 0
  {
    if newStart + screenBytes > zeroedEnd then
      if newStart > zeroedEnd then screenBytes else Wrap32(newStart + screenBytes - zeroedEnd)
    else 0
  }

  /** The frame buffer after BlackOutScreen, as the code computes it. */
  function BlackedOut(s: seq<Byte>, newStart: int, screenBytes: U32, zeroedStart: int, zeroedEnd: int): seq<Byte> {
    Zeroed(Zeroed(s, HeadFill(newStart, screenBytes, zeroedStart)), TailFill(newStart, screenBytes, zeroedEnd))
  }

  /** Only the first screen's worth of bytes is written; a second call
      with the range the first one recorded writes nothing; a new range
      that does not meet the zeroed range is zeroed in full. */
  lemma BlackedOutBounds(s: seq<Byte>, newStart: int, screenBytes: U32, zeroedStart: int, zeroedEnd: int)
    ensures var r := BlackedOut(s, newStart, screenBytes, zeroedStart, zeroedEnd);
      && |r| == |s|
      && (forall k | screenBytes <= k < |s| :: r[k] == s[k])
      && (zeroedStart == newStart && zeroedEnd == newStart + screenBytes ==> r == s)
      && (newStart + screenBytes < zeroedStart || newStart > zeroedEnd ==> r == Zeroed(s, screenBytes))
  {
    var r := BlackedOut(s, newStart, screenBytes, zeroedStart, zeroedEnd);
    if zeroedStart == newStart && zeroedEnd == newStart + screenBytes {
      assert Zeroed(s, 0) == s;
    }
    if newStart + screenBytes < zeroedStart || newStart > zeroedEnd {
      assert r == Zeroed(s, screenBytes);
    }
  }

  /** Whether the bytes of the mapping that lie in the zeroed physical
      interval are all zero. */
  predicate ZeroedRangeHolds(s: seq<Byte>, newStart: int, zeroedStart: int, zeroedEnd: int) {
    forall k | 0 <= k < |s| && zeroedStart <= newStart + k < zeroedEnd :: s[k] == 0
  }

  /** The screen is the first `screenBytes` bytes of `s`, and they are all zero. */
  predicate ScreenIsBlack(s: seq<Byte>, screenBytes: nat) {
    screenBytes <= |s| && forall k | 0 <= k < screenBytes :: s[k] == 0
  }

  /** As written, growing the screen at the same base leaves the newly
      covered tail unzeroed: with 100 zero bytes recorded at [100, 200) and
      a 200-byte screen at 100, the fill zeroes bytes 0..99 again and byte
      100 (physical 200) keeps its old value. */
  lemma BlackOutMissesTail()
    ensures var s := seq(200, k requires 0 <= k < 200 => if k < 100 then 0 else 0xFF);
      && ZeroedRangeHolds(s, 100, 100, 200)
      && !ScreenIsBlack(BlackedOut(s, 100, 200, 100, 200), 200)
  {
    var s := seq(200, k requires 0 <= k < 200 => if k < 100 then 0 else 0xFF);
    assert TailFill(100, 200, 200) == 100;
    assert BlackedOut(s, 100, 200, 100, 200)[100] == 0xFF;
  }

  /** The blackout the comments describe: zero the part of the new range
      below the zeroed range from the mapping base, and the part above it
      from the offset of the zeroed range's end. */
  function IntendedBlackedOut(s: seq<Byte>, newStart: int, screenBytes: U32, zeroedStart: int, zeroedEnd: int): (r: seq<Byte>)
    ensures |r| == |s|
  {
    var head := HeadFill(newStart, screenBytes, zeroedStart);
    var tailFrom := if newStart > zeroedEnd then 0 else zeroedEnd - newStart;
    var tail := newStart + screenBytes > zeroedEnd;
    seq(|s|, k requires 0 <= k < |s| => if k < head || (tail && tailFrom <= k < screenBytes) then 0 else s[k])
  }

  /** The intended blackout blackens the whole screen whenever the recorded
      zeroed interval really is zero, and writes nothing beyond the screen. */
  lemma IntendedBlackOutClearsScreen(s: seq<Byte>, newStart: int, screenBytes: U32, zeroedStart: int, zeroedEnd: int)
    requires screenBytes <= |s|
    requires ZeroedRangeHolds(s, newStart, zeroedStart, zeroedEnd)
    ensures ScreenIsBlack(IntendedBlackedOut(s, newStart, screenBytes, zeroedStart, zeroedEnd), screenBytes)
    ensures forall k | screenBytes <= k < |s| :: IntendedBlackedOut(s, newStart, screenBytes, zeroedStart, zeroedEnd)[k] == s[k]
  {
    var r := IntendedBlackedOut(s, newStart, screenBytes, zeroedStart, zeroedEnd);
    forall k | 0 <= k < screenBytes ensures r[k] == 0 {
      if !(zeroedStart <= newStart + k < zeroedEnd) {
        if newStart + k < zeroedStart {
          assert k < HeadFill(newStart, screenBytes, zeroedStart);
        }
      }
    }
  }

  // ---------------------------------------------------------------------
  // The centering offset of PresentDisplayOnly

  /** The destination byte offset of a centered present, as written: the
      full shift ((H - SrcH) * Pitch + (W - SrcW) * Bpp / 8) in UINT, cast
      to int and halved with truncation toward zero. */
  function CenterOffset(mode: CurrentMode): (offset: int)
    ensures -0x4000_0000 <= offset < 0x4000_0000
  {
    var info := mode.dispInfo;
    CenterShift(info.height, mode.srcModeHeight, info.width, mode.srcModeWidth, info.pitch, info.colorBpp)
  }

  function CenterShift(height: U32, srcHeight: U32, width: U32, srcWidth: U32, pitch: U32, bitsPerPixel: U32): (offset: int)
    ensures -0x4000_0000 <= offset < 0x4000_0000
  {
    var rows := Wrap32(Wrap32(height - srcHeight) * pitch);
    var columns := Wrap32(Wrap32(width - srcWidth) * bitsPerPixel) / BitsPerByte;
    var shift := Wrap32(rows + columns);
    CDiv(ToInt32(shift), 2)
  }

  /** Without wrap-around the code's offset is half the full byte shift. */
  lemma CenterShiftWithoutWrap(height: U32, srcHeight: U32, width: U32, srcWidth: U32, pitch: U32, bitsPerPixel: U32)
    requires srcHeight <= height && srcWidth <= width
    requires (height - srcHeight) * pitch + (width - srcWidth) * bitsPerPixel < 0x8000_0000
    ensures CenterShift(height, srcHeight, width, srcWidth, pitch, bitsPerPixel) ==
      ((height - srcHeight) * pitch + ((width - srcWidth) * bitsPerPixel) / BitsPerByte) / 2
  {
    var dh: nat, dw: nat := height - srcHeight, width - srcWidth;
    var rows: nat, bits: nat := dh * pitch, dw * bitsPerPixel;
    var columns := bits / BitsPerByte;
    assert Wrap32(dh) == dh && Wrap32(dw) == dw;
    assert Wrap32(rows) == rows && Wrap32(bits) == bits;
    assert columns <= bits;
    assert Wrap32(rows + columns) == rows + columns;
    assert ToInt32(rows + columns) == rows + columns;
  }

  /** The mode the counterexample uses: a 1024 x 768 screen with a 4096-byte
      pitch, showing a 1024 x 767 source mode centered. */
  function OddHeightMode(): CurrentMode {
    CurrentMode(DisplayInfo(1024, 768, 4096, 32, 0, 0), Identity, Centered, 1024, 767, null, true, false, 0, 0)
  }

  /** As written, an odd height difference puts the image half a row down,
      which is the middle of row 0: 512 pixels to the right of where either
      neighbouring centered row would start. */
  lemma CenterOffsetSplitsRow()
    ensures CenterOffset(OddHeightMode()) == 2048
    ensures CenterOffset(OddHeightMode()) % OddHeightMode().dispInfo.pitch != 0
    ensures IntendedCenterOffset(OddHeightMode()) == 0
  {
  }

  /** The centered placement: the source mode's top-left pixel at
      ((W - SrcW) / 2, (H - SrcH) / 2) of the screen, for a screen at
      least as large as the source mode. */
  function IntendedCenterOffset(mode: CurrentMode): (offset: int)
  {
    var info := mode.dispInfo;
    var dw := info.width - mode.srcModeWidth;
    var dh := info.height - mode.srcModeHeight;
    (if dh >= 0 then dh / 2 else 0) * info.pitch + (if dw >= 0 then dw / 2 else 0) * (info.colorBpp / BitsPerByte)
  }

  /** Euclidean division recovers a row and a column from `row * pitch + column`
      when the column lies inside the row. */
  lemma RowColumnDecode(row: nat, column: nat, pitch: nat)
    requires column < pitch
    ensures (row * pitch + column) / pitch == row && (row * pitch + column) % pitch == column
  {
    var offset := row * pitch + column;
    var q, r := offset / pitch, offset % pitch;
    assert offset == q * pitch + r;
    if q < row {
      MulMonotone(q + 1, row, pitch);
      assert false;
    } else if q > row {
      MulMonotone(row + 1, q, pitch);
      assert false;
    }
  }

  lemma MulMonotone(x: nat, y: nat, p: nat)
    requires x <= y
    ensures x * p <= y * p
  {
    var d: nat := y - x;
    assert y * p == x * p + d * p;
  }

  /** The intended offset lands on the first pixel of the centered image:
      read back through the pitch, it is row (H - SrcH) / 2 and, within that
      row, pixel (W - SrcW) / 2, whenever a screen row fits in the pitch. */
  lemma IntendedCenterOffsetCenters(mode: CurrentMode)
    requires mode.srcModeHeight <= mode.dispInfo.height && mode.srcModeWidth <= mode.dispInfo.width
    requires 0 < mode.dispInfo.pitch
    requires mode.dispInfo.width * (mode.dispInfo.colorBpp / BitsPerByte) <= mode.dispInfo.pitch
    ensures var info := mode.dispInfo;
      && IntendedCenterOffset(mode) / info.pitch == (info.height - mode.srcModeHeight) / 2
      && IntendedCenterOffset(mode) % info.pitch == (info.width - mode.srcModeWidth) / 2 * (info.colorBpp / BitsPerByte)
  {
    var info := mode.dispInfo;
    var bytesPerPixel: nat := info.colorBpp / BitsPerByte;
    var row: nat := (info.height - mode.srcModeHeight) / 2;
    var column: nat := (info.width - mode.srcModeWidth) / 2;
    assert IntendedCenterOffset(mode) == row * info.pitch + column * bytesPerPixel;
    HalfWidthInsideRow(info.width, column, bytesPerPixel, info.pitch);
    RowColumnDecode(row, column * bytesPerPixel, info.pitch);
  }

  /** A column at most half the screen width starts inside the row. */
  lemma HalfWidthInsideRow(width: nat, column: nat, bytesPerPixel: nat, pitch: nat)
    requires 2 * column <= width && width * bytesPerPixel <= pitch && 0 < pitch
    ensures column * bytesPerPixel < pitch
  {
    if 0 < width && 0 < bytesPerPixel {
      MulMonotone(column + 1, width, bytesPerPixel);
    }
  }

  lemma HalfOfEvenSum(dh: nat, pitch: nat, dw: nat, bytesPerPixel: nat)
    requires dh % 2 == 0 && dw % 2 == 0
    ensures (dh * pitch + dw * bytesPerPixel) / 2 == (dh / 2) * pitch + (dw / 2) * bytesPerPixel
  {
    var h, w := dh / 2, dw / 2;
    assert dh * pitch == 2 * (h * pitch) by { assert dh == 2 * h; }
    assert dw * bytesPerPixel == 2 * (w * bytesPerPixel) by { assert dw == 2 * w; }
  }

  /** With even differences, a whole number of bytes per pixel and a full
      shift below 2^31, the code's offset is the intended one. */
  lemma CenterOffsetAgreesWhenEven(mode: CurrentMode)
    requires mode.srcModeHeight <= mode.dispInfo.height && mode.srcModeWidth <= mode.dispInfo.width
    requires (mode.dispInfo.height - mode.srcModeHeight) % 2 == 0 && (mode.dispInfo.width - mode.srcModeWidth) % 2 == 0
    requires mode.dispInfo.colorBpp % BitsPerByte == 0
    requires (mode.dispInfo.height - mode.srcModeHeight) * mode.dispInfo.pitch
      + (mode.dispInfo.width - mode.srcModeWidth) * mode.dispInfo.colorBpp < 0x8000_0000
    ensures CenterOffset(mode) == IntendedCenterOffset(mode)
  {
    var info := mode.dispInfo;
    var dh: nat := info.height - mode.srcModeHeight;
    var dw: nat := info.width - mode.srcModeWidth;
    CenterShiftWithoutWrap(info.height, mode.srcModeHeight, info.width, mode.srcModeWidth, info.pitch, info.colorBpp);
    ColumnBytes(dw, info.colorBpp);
    HalfOfEvenSum(dh, info.pitch, dw, info.colorBpp / BitsPerByte);
  }

  lemma ColumnBytes(dw: nat, bitsPerPixel: nat)
    requires bitsPerPixel % BitsPerByte == 0
    ensures (dw * bitsPerPixel) / BitsPerByte == dw * (bitsPerPixel / BitsPerByte) <= dw * bitsPerPixel
  {
    var b := bitsPerPixel / BitsPerByte;
    assert bitsPerPixel == BitsPerByte * b;
    assert dw * bitsPerPixel == BitsPerByte * (dw * b);
  }

  // ---------------------------------------------------------------------
  // Searches over the sources

  /** The first source at or after `from` with a mapped frame buffer, or
      the number of sources when there is none. */
  function FirstMapped(modes: seq<CurrentMode>, from: nat): (i: nat)
    requires from <= |modes|
    ensures from <= i <= |modes|
    ensures i < |modes| ==> modes[i].frameBuffer != null
    ensures forall j | from <= j < i :: modes[j].frameBuffer == null
    decreases |modes| - from
  {
    if from == |modes| then from
    else if modes[from].frameBuffer != null then from
    else FirstMapped(modes, from + 1)
  }

  /** A present request (DXGKARG_PRESENT_DISPLAYONLY): the source surface
      address, its depth and pitch, the moves and dirty rectangles, and
      whether the rotation of the path applies. */
  datatype PresentRequest = PresentRequest(
    sourceId: nat,
    source: int,
    bytesPerPixel: U32,
    pitch: int,
    moves: seq<BltHw.MoveRect>,
    dirtyRects: seq<BltHw.Rect>,
    rotate: bool)

  /** The part of BASIC_DISPLAY_DRIVER that presentation uses: the current
      mode of each source, the monitor power state and the source shown by
      the bugcheck screen. Each source's frame buffer, when mapped, is the
      array of its bytes from the mapping base. */
  class Adapter {
    const currentModes: array<CurrentMode>
    const hardwareBlt: seq<BltHw.HwBlt>
    var monitorPowerState: int
    var systemDisplaySourceId: U32

    /** One current mode and one blitter per source; an active frame
        buffer is mapped and holds at least one screen. */
    ghost predicate Valid()
      reads this, currentModes
    {
      && currentModes.Length == MaxViews
      && |hardwareBlt| == MaxViews
      && (forall i | 0 <= i < MaxViews :: hardwareBlt[i].sourceId == i)
      && (forall i | 0 <= i < MaxViews :: currentModes[i].frameBufferIsActive ==>
            currentModes[i].frameBuffer != null &&
            currentModes[i].frameBuffer.Length >= ScreenBytes(currentModes[i].dispInfo))
    }

    constructor ()
      ensures Valid() && monitorPowerState == PowerDeviceD0 && systemDisplaySourceId == IdUninitialized
      ensures forall i | 0 <= i < MaxViews :: currentModes[i].frameBuffer == null && !currentModes[i].frameBufferIsActive
    {
      var blts: seq<BltHw.HwBlt> := [];
      for i := 0 to MaxViews
        invariant |blts| == i && forall j | 0 <= j < i :: blts[j].sourceId == j
      {
        var b := new BltHw.HwBlt(i);
        blts := blts + [b];
      }
      currentModes := new CurrentMode[MaxViews](_ => CurrentMode(DisplayInfo(0, 0, 0, 0, 0, 0), Identity, ScalingIdentity,
                                                                0, 0, null, false, false, 0, 0));
      hardwareBlt := blts;
      monitorPowerState := PowerDeviceD0;
      systemDisplaySourceId := IdUninitialized;
    }

    /** BlackOutScreen: zero what the code zeroes of the mapped screen (only
        while the frame buffer is active) and record the new screen as the
        zeroed interval, whatever the frame buffer's state. */
    method BlackOutScreen(sourceId: nat)
      requires Valid() && sourceId < MaxViews
      modifies currentModes, if currentModes[sourceId].frameBuffer == null then {} else {currentModes[sourceId].frameBuffer}
      ensures Valid()
      ensures var m := old(currentModes[sourceId]);
        var newStart := m.dispInfo.physicAddress;
        currentModes[sourceId] == m.(zeroedOutStart := newStart, zeroedOutEnd := newStart + ScreenBytes(m.dispInfo))
      ensures forall i | 0 <= i < MaxViews && i != sourceId :: currentModes[i] == old(currentModes[i])
      ensures var m := old(currentModes[sourceId]);
        m.frameBufferIsActive ==>
          m.frameBuffer[..] == BlackedOut(old(m.frameBuffer[..]), m.dispInfo.physicAddress, ScreenBytes(m.dispInfo),
                                          m.zeroedOutStart, m.zeroedOutEnd)
      ensures var m := old(currentModes[sourceId]);
        !m.frameBufferIsActive && m.frameBuffer != null ==> m.frameBuffer[..] == old(m.frameBuffer[..])
    {
      var mode := currentModes[sourceId];
      var screenHeight: int := mode.dispInfo.height;
      var screenPitch: int := mode.dispInfo.pitch;
      var newStart := mode.dispInfo.physicAddress;
      var newEnd := newStart + Wrap32(screenHeight * screenPitch);
      if mode.frameBufferIsActive {
        var mapped := mode.frameBuffer;
        var first := 0;
        if newStart < mode.zeroedOutStart {
          if newEnd < mode.zeroedOutStart {
            first := Wrap32(screenHeight * screenPitch);
          } else {
            first := Wrap32(mode.zeroedOutStart - newStart);
          }
          ZeroMemory(mapped, first);
        }
        assert mapped[..] == Zeroed(old(mapped[..]), HeadFill(newStart, ScreenBytes(mode.dispInfo), mode.zeroedOutStart));
        var second := 0;
        if newEnd > mode.zeroedOutEnd {
          if newStart > mode.zeroedOutEnd {
            second := Wrap32(screenHeight * screenPitch);
          } else {
            second := Wrap32(newEnd - mode.zeroedOutEnd);
          }
          ZeroMemory(mapped, second);
        }
      }
      currentModes[sourceId] := mode.(zeroedOutStart := newStart, zeroedOutEnd := newEnd);
    }

    /** PresentDisplayOnly: a depth other than 4 bytes per pixel is an
        invalid parameter; a monitor that is off, a hidden source or an
        inactive frame buffer presents nothing; otherwise the zeroed range
        is forgotten and the request goes to the source's blitter at the
        (centered) destination offset, with the path's rotation when the
        request asks for it. */
    method PresentDisplayOnly(request: PresentRequest, allocationSucceeds: bool)
      returns (status: Status, calls: seq<BltHw.BltCall>)
      requires Valid() && request.sourceId < MaxViews
      modifies currentModes
      ensures Valid()
      ensures var s := request.sourceId;
        var m := old(currentModes[s]);
        if request.bytesPerPixel < MinBytesPerPixelReported || request.bytesPerPixel > MaxBytesPerPixelReported then
          status == InvalidParameter && calls == [] && currentModes[s] == m
        else if monitorPowerState > PowerDeviceD0 || m.sourceNotVisible || !m.frameBufferIsActive then
          status == Success && calls == [] && currentModes[s] == m
        else
          && currentModes[s] == m.(zeroedOutStart := 0, zeroedOutEnd := 0)
          && (!allocationSucceeds ==> status == NoMemory && calls == [])
          && (allocationSucceeds ==> status == Success)
          && (allocationSucceeds ==> calls == PresentCallsFor(m, request))
      ensures forall i | 0 <= i < MaxViews && i != request.sourceId :: currentModes[i] == old(currentModes[i])
    {
      var s := request.sourceId;
      if request.bytesPerPixel < MinBytesPerPixelReported || request.bytesPerPixel > MaxBytesPerPixelReported {
        return InvalidParameter, [];
      }
      var mode := currentModes[s];
      if monitorPowerState > PowerDeviceD0 || mode.sourceNotVisible {
        return Success, [];
      }
      if mode.frameBufferIsActive {
        currentModes[s] := mode.(zeroedOutStart := 0, zeroedOutEnd := 0);
        var rotationNeededByFb := if request.rotate then mode.rotation else Identity;
        var dst := 0;
        var dstBitPerPixel := mode.dispInfo.colorBpp;
        if mode.scaling == Centered {
          var centerShift := Wrap32(Wrap32(mode.dispInfo.height - mode.srcModeHeight) * mode.dispInfo.pitch);
          centerShift := Wrap32(centerShift + Wrap32(Wrap32(mode.dispInfo.width - mode.srcModeWidth) * dstBitPerPixel) / BitsPerByte);
          dst := dst + CDiv(ToInt32(centerShift), 2);
        }
        status, calls := hardwareBlt[s].ExecutePresentDisplayOnly(
          dst, dstBitPerPixel, request.source, request.bytesPerPixel, request.pitch,
          request.moves, request.dirtyRects, rotationNeededByFb, currentModes[s], allocationSucceeds);
        return;
      }
      return Success, [];
    }

    /** FindSourceForTarget: the first source with a mapped frame buffer;
        failing that, source 0 or D3DDDI_ID_UNINITIALIZED as asked. Every
        target maps to the same source. */
    method FindSourceForTarget(targetId: U32, defaultToZero: bool) returns (sourceId: U32)
      requires Valid()
      ensures var first := FirstMapped(currentModes[..], 0);
        sourceId == if first < MaxViews then first else if defaultToZero then 0 else IdUninitialized
    {
      for i := 0 to MaxViews
        invariant forall j | 0 <= j < i :: currentModes[j].frameBuffer == null
      {
        if currentModes[i].frameBuffer != null {
          FirstMappedIs(currentModes[..], i);
          return i;
        }
      }
      FirstMappedIs(currentModes[..], MaxViews);
      return if defaultToZero then 0 else IdUninitialized;
    }

    /** SystemDisplayEnable: picks the first mapped source (by search for an
        uninitialized target id, through FindSourceForTarget otherwise) and
        reports its size, with width and height swapped for a quarter-turn
        rotation, and its colour format; no mapped source is
        STATUS_UNSUCCESSFUL. */
    method SystemDisplayEnable(targetId: U32) returns (status: Status, width: U32, height: U32, colorBpp: U32)
      requires Valid()
      modifies this
      ensures Valid()
      ensures var first := FirstMapped(currentModes[..], 0);
        if first < MaxViews then
          var info := currentModes[first].dispInfo;
          && systemDisplaySourceId == first && status == Success && colorBpp == info.colorBpp
          && (width, height) == ReportedSize(info, currentModes[first].rotation)
        else
          systemDisplaySourceId == IdUninitialized && status == Unsuccessful
      ensures monitorPowerState == old(monitorPowerState)
    {
      systemDisplaySourceId := IdUninitialized;
      width, height, colorBpp := 0, 0, 0;
      if targetId == IdUninitialized {
        var i := 0;
        while i < MaxViews
          invariant i <= MaxViews && systemDisplaySourceId == IdUninitialized
          invariant forall j | 0 <= j < i :: currentModes[j].frameBuffer == null
        {
          if currentModes[i].frameBuffer != null {
            systemDisplaySourceId := i;
            break;
          }
          i := i + 1;
        }
        FirstMappedIs(currentModes[..], i);
      } else {
        systemDisplaySourceId := FindSourceForTarget(targetId, false);
      }
      if systemDisplaySourceId == IdUninitialized {
        return Unsuccessful, width, height, colorBpp;
      }
      var mode := currentModes[systemDisplaySourceId];
      if mode.rotation == Rotate90 || mode.rotation == Rotate270 {
        height := mode.dispInfo.width;
        width := mode.dispInfo.height;
      } else {
        width := mode.dispInfo.width;
        height := mode.dispInfo.height;
      }
      colorBpp := mode.dispInfo.colorBpp;
      status := Success;
    }
  }

  /** The blits of an active present for a source whose mode was `m`. */
  function PresentCallsFor(m: CurrentMode, request: PresentRequest): seq<BltHw.BltCall> {
    var rotation := if request.rotate then m.rotation else Identity;
    var offset := if m.scaling == Centered then CenterOffset(m) else 0;
    var dst := BltHw.DstInfo(offset, m.dispInfo.pitch, m.dispInfo.colorBpp, m.srcModeWidth, m.srcModeHeight, rotation);
    BltHw.PresentCalls(dst, BltHw.SrcInfo(dst, request.source, request.pitch), request.moves, request.dirtyRects)
  }

  /** The size reported for the bugcheck screen: the display's, turned for
      a quarter-turn rotation. */
  function ReportedSize(info: DisplayInfo, rotation: Rotation): (size: (U32, U32))
    ensures BltHw.Transposes(rotation) ==> size == (info.height, info.width)
    ensures !BltHw.Transposes(rotation) ==> size == (info.width, info.height)
  {
    if rotation == Rotate90 || rotation == Rotate270 then (info.height, info.width) else (info.width, info.height)
  }

  /** The bugcheck screen is reported with the geometry the blitter gives
      its source surface for the same display and rotation. */
  lemma ReportedSizeIsSourceShape(info: DisplayInfo, rotation: Rotation)
    ensures var dst := BltHw.DstInfo(0, info.pitch, info.colorBpp, info.width, info.height, rotation);
      var src := BltHw.SrcInfo(dst, 0, 0);
      ReportedSize(info, rotation) == (src.width, src.height)
  {
  }

  /** A present on an active source without centering starts at the
      mapping base; every blit it issues targets the source mode's size
      with the rotation chosen for the request. */
  lemma PresentCallsTargetMode(m: CurrentMode, request: PresentRequest)
    ensures var calls := PresentCallsFor(m, request);
      && |calls| == |request.moves| + |request.dirtyRects|
      && forall c | c in calls ::
        && c.dst.width == m.srcModeWidth && c.dst.height == m.srcModeHeight
        && c.dst.pitch == m.dispInfo.pitch
        && c.dst.rotation == (if request.rotate then m.rotation else Identity)
        && (m.scaling != Centered ==> c.dst.bits == 0)
  {
    var rotation := if request.rotate then m.rotation else Identity;
    var offset := if m.scaling == Centered then CenterOffset(m) else 0;
    var dst := BltHw.DstInfo(offset, m.dispInfo.pitch, m.dispInfo.colorBpp, m.srcModeWidth, m.srcModeHeight, rotation);
    BltHw.PresentCallsShape(dst, BltHw.SrcInfo(dst, request.source, request.pitch), request.moves, request.dirtyRects);
  }

  /** The first mapped source, found by a search that stopped at `i`. */
  lemma FirstMappedIs(modes: seq<CurrentMode>, i: nat)
    requires i <= |modes|
    requires i < |modes| ==> modes[i].frameBuffer != null
    requires forall j | 0 <= j < i :: modes[j].frameBuffer == null
    ensures FirstMapped(modes, 0) == i
  {
  }

  /** RtlZeroMemory from the mapping base. */
  method ZeroMemory(buffer: array<Byte>, length: nat)
    requires length <= buffer.Length
    modifies buffer
    ensures buffer[..] == Zeroed(old(buffer[..]), length)
  {
    forall k | 0 <= k < length {
      buffer[k] := 0;
    }
  }
}
