/** Records shared by the presentation code of bdd.cxx and the present
    dispatch of src/blthw.cxx: the display information the OS reports, the
    per-source current-mode record (CURRENT_BDD_MODE) and its enumerations. */
module DisplayTypes {
  import opened Common

  /** DXGK_DISPLAY_INFORMATION. The colour format is represented by the bit
      depth that BPPFromPixelFormat gives for it. */
  datatype DisplayInfo = DisplayInfo(
    width: U32,
    height: U32,
    pitch: U32,
    colorBpp: U32,
    physicAddress: int,
    targetId: U32)

  /** D3DKMDT_VIDPN_PRESENT_PATH_ROTATION, the four values a path can take. */
  datatype Rotation = Identity | Rotate90 | Rotate180 | Rotate270

  /** D3DKMDT_VIDPN_PRESENT_PATH_SCALING: only Centered changes the driver's behaviour. */
  datatype Scaling = ScalingIdentity | Centered | Stretched

  /** One video present source's current mode (CURRENT_BDD_MODE). The
      frame buffer handle is the mapped frame buffer, or null when it is not
      mapped; the zeroed range is the physical interval [zeroedOutStart,
      zeroedOutEnd) that was last blacked out. */
  datatype CurrentMode = CurrentMode(
    dispInfo: DisplayInfo,
    rotation: Rotation,
    scaling: Scaling,
    srcModeWidth: U32,
    srcModeHeight: U32,
    frameBuffer: array?<Byte>,
    frameBufferIsActive: bool,
    sourceNotVisible: bool,
    zeroedOutStart: int,
    zeroedOutEnd: int)

  /** MAX_VIEWS: the number of video present sources. */
  const MaxViews: nat := 4

  /** D3DDDI_ID_UNINITIALIZED. */
  const IdUninitialized: U32 := 0xFFFF_FFFF

  /** BITS_PER_BYTE. */
  const BitsPerByte: nat := 8
}
