/** The present path of src/blthw.cxx: ExecutePresentDisplayOnly packs a
    present request into one context allocation, and
    HwExecutePresentDisplayOnly turns the context into one BltBits call per
    move and per dirty rectangle. BltBits itself is not modelled; each call
    is recorded with the descriptors and the rectangle it receives. */
module BltHw {
  import opened Common
  import opened DisplayTypes

  /** RECT and POINT. */
  datatype Rect = Rect(left: int, top: int, right: int, bottom: int)
  datatype Point = Point(x: int, y: int)

  /** D3DKMT_MOVE_RECT: a screen-to-screen move. */
  datatype MoveRect = MoveRect(sourcePoint: Point, destRect: Rect)

  /** BLT_INFO: a surface as BltBits sees it. Addresses are kept as
      integers. */
  datatype BltInfo = BltInfo(
    bits: int,
    pitch: int,
    bitsPerPel: nat,
    offset: Point,
    rotation: Rotation,
    width: U32,
    height: U32)

  /** One BltBits call with a single rectangle (NumRects is always 1). */
  datatype BltCall = BltCall(dst: BltInfo, src: BltInfo, rect: Rect)

  /** The source surface depth the blitter assumes. */
  const SourceBitsPerPel: nat := 32

  predicate Transposes(r: Rotation) {
    r == Rotate90 || r == Rotate270
  }

  /** DO_PRESENT_MEMORY: the context allocation, with the copied moves and
      dirty rectangles that follow the header in the same block. */
  class PresentMemory {
    const dstAddr: int
    const dstStride: U32
    const dstBitPerPixel: U32
    const srcWidth: U32
    const srcHeight: U32
    const srcAddr: int
    const srcPitch: int
    const rotation: Rotation
    const sourceId: U32
    const moves: array<MoveRect>
    const dirtyRects: array<Rect>

    constructor (dstAddr: int, dstStride: U32, dstBitPerPixel: U32, srcWidth: U32, srcHeight: U32,
                 srcAddr: int, srcPitch: int, rotation: Rotation, sourceId: U32,
                 moves: array<MoveRect>, dirtyRects: array<Rect>)
      ensures this.dstAddr == dstAddr && this.dstStride == dstStride && this.dstBitPerPixel == dstBitPerPixel
      ensures this.srcWidth == srcWidth && this.srcHeight == srcHeight
      ensures this.srcAddr == srcAddr && this.srcPitch == srcPitch && this.rotation == rotation
      ensures this.sourceId == sourceId && this.moves == moves && this.dirtyRects == dirtyRects
    {
      this.dstAddr := dstAddr;
      this.dstStride := dstStride;
      this.dstBitPerPixel := dstBitPerPixel;
      this.srcWidth := srcWidth;
      this.srcHeight := srcHeight;
      this.srcAddr := srcAddr;
      this.srcPitch := srcPitch;
      this.rotation := rotation;
      this.sourceId := sourceId;
      this.moves := moves;
      this.dirtyRects := dirtyRects;
    }
  }

  /** The destination descriptor: the frame buffer at the mode's stride and
      depth, sized as the source mode, with the requested rotation. */
  function DstInfo(dstAddr: int, dstStride: U32, dstBitPerPixel: U32, srcWidth: U32, srcHeight: U32, rotation: Rotation): BltInfo {
    BltInfo(dstAddr, dstStride, dstBitPerPixel, Point(0, 0), rotation, srcWidth, srcHeight)
  }

  /** The source descriptor: a 32 bpp unrotated surface whose sides are
      those of the destination, swapped for a quarter turn. */
  function SrcInfo(dst: BltInfo, srcAddr: int, srcPitch: int): BltInfo {
    if Transposes(dst.rotation) then
      BltInfo(srcAddr, srcPitch, SourceBitsPerPel, Point(0, 0), Identity, dst.height, dst.width)
    else
      BltInfo(srcAddr, srcPitch, SourceBitsPerPel, Point(0, 0), Identity, dst.width, dst.height)
  }

  /** The calls for a present: each move's destination rectangle in order,
      then each dirty rectangle in order. */
  function PresentCalls(dst: BltInfo, src: BltInfo, moves: seq<MoveRect>, dirty: seq<Rect>): seq<BltCall> {
    seq(|moves|, i requires 0 <= i < |moves| => BltCall(dst, src, moves[i].destRect))
      + seq(|dirty|, i requires 0 <= i < |dirty| => BltCall(dst, src, dirty[i]))
  }

  /** HwExecutePresentDisplayOnly: the BltBits calls the context produces. */
  method HwExecutePresentDisplayOnly(context: PresentMemory) returns (calls: seq<BltCall>)
    ensures var dst := DstInfo(context.dstAddr, context.dstStride, context.dstBitPerPixel,
                               context.srcWidth, context.srcHeight, context.rotation);
      calls == PresentCalls(dst, SrcInfo(dst, context.srcAddr, context.srcPitch), context.moves[..], context.dirtyRects[..])
  {
    var dstInfo := BltInfo(context.dstAddr, context.dstStride, context.dstBitPerPixel, Point(0, 0),
                           context.rotation, context.srcWidth, context.srcHeight);
    var srcInfo: BltInfo;
    if context.rotation == Rotate90 || context.rotation == Rotate270 {
      srcInfo := BltInfo(context.srcAddr, context.srcPitch, 32, Point(0, 0), Identity, dstInfo.height, dstInfo.width);
    } else {
      srcInfo := BltInfo(context.srcAddr, context.srcPitch, 32, Point(0, 0), Identity, dstInfo.width, dstInfo.height);
    }
    ghost var moves := context.moves[..];
    ghost var dirty := context.dirtyRects[..];
    calls := [];
    var i := 0;
    while i < context.moves.Length
      invariant i <= context.moves.Length
      invariant calls == seq(i, k requires 0 <= k < i => BltCall(dstInfo, srcInfo, moves[k].destRect))
    {
      calls := calls + [BltCall(dstInfo, srcInfo, context.moves[i].destRect)];
      i := i + 1;
    }
    ghost var moveCalls := calls;
    i := 0;
    while i < context.dirtyRects.Length
      invariant i <= context.dirtyRects.Length
      invariant calls == moveCalls + seq(i, k requires 0 <= k < i => BltCall(dstInfo, srcInfo, dirty[k]))
    {
      calls := calls + [BltCall(dstInfo, srcInfo, context.dirtyRects[i])];
      i := i + 1;
    }
  }

  /** BDD_HWBLT: the blitter of one video present source. */
  class HwBlt {
    const sourceId: U32

    constructor (sourceId: U32)
      ensures this.sourceId == sourceId
    {
      this.sourceId := sourceId;
    }

    /** ExecutePresentDisplayOnly: a failed context allocation is
        STATUS_NO_MEMORY with no copy; otherwise the moves and dirty
        rectangles are copied into the context and presented. The source
        bytes per pixel are not used. `mode` is the current mode of this
        blitter's source. */
    method ExecutePresentDisplayOnly(
      dstAddr: int, dstBitPerPixel: U32, srcAddr: int, srcBytesPerPixel: U32, srcPitch: int,
      moves: seq<MoveRect>, dirtyRects: seq<Rect>, rotation: Rotation,
      mode: CurrentMode, allocationSucceeds: bool)
      returns (status: Status, calls: seq<BltCall>)
      ensures !allocationSucceeds ==> status == NoMemory && calls == []
      ensures allocationSucceeds ==> status == Success
      ensures allocationSucceeds ==>
        var dst := DstInfo(dstAddr, mode.dispInfo.pitch, dstBitPerPixel, mode.srcModeWidth, mode.srcModeHeight, rotation);
        calls == PresentCalls(dst, SrcInfo(dst, srcAddr, srcPitch), moves, dirtyRects)
    {
      if !allocationSucceeds {
        return NoMemory, [];
      }
      var context := PackPresentMemory(dstAddr, dstBitPerPixel, srcAddr, srcPitch, moves, dirtyRects, rotation, mode);
      calls := HwExecutePresentDisplayOnly(context);
      status := Success;
    }

    /** The context filled by ExecutePresentDisplayOnly: the request and
        the mode's stride and source size, with its own copies of the move
        list and the dirty-rectangle list. */
    method PackPresentMemory(
      dstAddr: int, dstBitPerPixel: U32, srcAddr: int, srcPitch: int,
      moves: seq<MoveRect>, dirtyRects: seq<Rect>, rotation: Rotation, mode: CurrentMode)
      returns (context: PresentMemory)
      ensures fresh(context) && fresh(context.moves) && fresh(context.dirtyRects)
      ensures context.moves[..] == moves && context.dirtyRects[..] == dirtyRects
      ensures context.dstAddr == dstAddr && context.dstBitPerPixel == dstBitPerPixel
      ensures context.dstStride == mode.dispInfo.pitch
      ensures context.srcWidth == mode.srcModeWidth && context.srcHeight == mode.srcModeHeight
      ensures context.srcAddr == srcAddr && context.srcPitch == srcPitch && context.rotation == rotation
      ensures context.sourceId == sourceId
    {
      var movesCopy := new MoveRect[|moves|];
      for i := 0 to |moves|
        invariant movesCopy[..i] == moves[..i]
      {
        movesCopy[i] := moves[i];
      }
      var rectsCopy := new Rect[|dirtyRects|];
      assert movesCopy[..] == moves;
      for i := 0 to |dirtyRects|
        invariant rectsCopy[..i] == dirtyRects[..i]
        invariant movesCopy[..] == moves
      {
        rectsCopy[i] := dirtyRects[i];
      }
      assert rectsCopy[..] == dirtyRects;
      context := new PresentMemory(dstAddr, mode.dispInfo.pitch, dstBitPerPixel, mode.srcModeWidth,
                                   mode.srcModeHeight, srcAddr, srcPitch, rotation, sourceId, movesCopy, rectsCopy);
    }
  }

  // ---------------------------------------------------------------------
  // Properties of a present

  /** One call per move and per dirty rectangle; the moves come first, each
      blitting its destination rectangle, and every call shares the same
      two descriptors. */
  lemma PresentCallsShape(dst: BltInfo, src: BltInfo, moves: seq<MoveRect>, dirty: seq<Rect>)
    ensures var calls := PresentCalls(dst, src, moves, dirty);
      && |calls| == |moves| + |dirty|
      && (forall i | 0 <= i < |moves| :: calls[i].rect == moves[i].destRect)
      && (forall i | 0 <= i < |dirty| :: calls[|moves| + i].rect == dirty[i])
      && (forall c | c in calls :: c.dst == dst && c.src == src)
  {
  }

  /** Presenting moves and then dirty rectangles is the same as presenting
      the moves alone followed by the dirty rectangles alone. */
  lemma PresentCallsSplit(dst: BltInfo, src: BltInfo, moves: seq<MoveRect>, dirty: seq<Rect>)
    ensures PresentCalls(dst, src, moves, dirty) == PresentCalls(dst, src, moves, []) + PresentCalls(dst, src, [], dirty)
  {
    assert PresentCalls(dst, src, moves, []) == PresentCalls(dst, src, moves, dirty)[..|moves|];
  }

  /** The source descriptor is an unrotated 32 bpp surface covering the same
      area as the destination, with the destination's sides swapped for a
      quarter turn and kept otherwise. */
  lemma SrcInfoCoversDst(dst: BltInfo, srcAddr: int, srcPitch: int)
    ensures var src := SrcInfo(dst, srcAddr, srcPitch);
      && src.rotation == Identity && src.bitsPerPel == SourceBitsPerPel && src.offset == Point(0, 0)
      && src.width * src.height == dst.width * dst.height
      && (Transposes(dst.rotation) ==> src.width == dst.height && src.height == dst.width)
      && (!Transposes(dst.rotation) ==> src.width == dst.width && src.height == dst.height)
  {
  }
}
