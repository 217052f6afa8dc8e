/**
 * The value-level pieces of src/uxa/intel_dri.c that the DRI2 buffer and
 * swap code decides with: the tiling hint and the stencil sizing of a newly
 * created buffer, the scan-line window a copy waits for, and whether a swap
 * may be done by flipping the scan-out buffer.
 */
module Dri2Geometry {
  import opened Common

  // ---------------------------------------------------------------------
  // Buffer creation
  // ---------------------------------------------------------------------

  /** The DRI2 buffer attachments, in the protocol's numbering. */
  datatype Attachment =
    | FrontLeft | BackLeft | FrontRight | BackRight | Depth | Stencil | Accum
    | FakeFrontLeft | FakeFrontRight | DepthStencil | Hiz
    | Unknown(code: nat)

  /** The tiling part of the pixmap creation hint: none asked, X, Y, or explicitly untiled. */
  datatype TilingHint = DefaultTiling | TilingX | TilingY | TilingNone

  /** The pixmap I830DRI2CreateBuffer asks the screen for. */
  datatype PixmapRequest = PixmapRequest(width: nat, height: nat, depth: nat, tiling: TilingHint)

  /** ALIGN(x, 64): `x` rounded up to a multiple of 64. */
  function Align64(x: nat): (r: nat)
    ensures r % 64 == 0 && x <= r < x + 64
  {
    (x + 63) / 64 * 64
  }

  /**
   * The tiling hint for an attachment when 3D tiling is enabled: Y tiling
   * for depth-like buffers on hardware that has it, X tiling for colour and
   * accumulation buffers (and depth without Y tiling), untiled for stencil,
   * and no buffer at all for an attachment the driver does not know.
   */
  function TilingFor(attachment: Attachment, yTiling: bool): Option<TilingHint>
  {
    match attachment
      case Depth | DepthStencil | Hiz => Some(if yTiling then TilingY else TilingX)
      case Accum | BackLeft | BackRight | FakeFrontLeft | FakeFrontRight | FrontLeft | FrontRight => Some(TilingX)
      case Stencil => Some(TilingNone)
      case Unknown(_) => None
  }

  /**
   * The pixmap created for a new DRI2 buffer of a drawable (one not served
   * by the drawable's own front pixmap): the drawable's size, and `format`
   * as the depth unless it is 0. A stencil buffer is W-tiled with two rows
   * interleaved, so it is made 64-aligned in width, half as tall (rounded
   * up, then 64-aligned) and twice as deep, so that twice its height
   * covers every row of the drawable. None when the attachment is unknown
   * and 3D tiling is on.
   */
  function CreateBufferPixmap(attachment: Attachment, width: nat, height: nat, format: nat, depth: nat,
                              tiling3D: bool, yTiling: bool): (r: Option<PixmapRequest>)
    ensures r.None? <==> tiling3D && attachment.Unknown?
    ensures r.Some? && attachment != Stencil ==>
      r.value.width == width && r.value.height == height && r.value.depth == (if format != 0 then format else depth)
    ensures r.Some? && !tiling3D ==> r.value.tiling == DefaultTiling
    ensures r.Some? && attachment == Stencil ==>
      r.value.width % 64 == 0 && width <= r.value.width < width + 64 &&
      r.value.height % 64 == 0 && (height + 1) / 2 <= r.value.height < (height + 1) / 2 + 64 && 2 * r.value.height >= height &&
      r.value.depth == 2 * (if format != 0 then format else depth) &&
      (tiling3D ==> r.value.tiling == TilingNone)
    ensures r.Some? && tiling3D && attachment in {Depth, DepthStencil, Hiz} ==>
      r.value.tiling == (if yTiling then TilingY else TilingX)
    ensures r.Some? && tiling3D && attachment in {Accum, BackLeft, BackRight, FakeFrontLeft, FakeFrontRight, FrontLeft, FrontRight} ==>
      r.value.tiling == TilingX
  {
    var tiling := if tiling3D then TilingFor(attachment, yTiling) else Some(DefaultTiling);
    var d := if format != 0 then format else depth;
    if tiling.None? then None
    else if attachment == Stencil then Some(PixmapRequest(Align64(width), Align64((height + 1) / 2), d * 2, tiling.value))
    else Some(PixmapRequest(width, height, d, tiling.value))
  }

  // ---------------------------------------------------------------------
  // The scan-line wait of I830DRI2CopyRegion
  // ---------------------------------------------------------------------

  datatype Box = Box(x1: int, y1: int, x2: int, y2: int)

  predicate WellFormed(b: Box) { b.x1 <= b.x2 && b.y1 <= b.y2 }

  /**
   * The wait a copy to a scan-out buffer puts ahead of the blit: the window
   * of scan lines [y1, y2) relative to the pipe, whether the wait is for the
   * vertical blank instead, and whether the pipe is pipe A.
   */
  datatype ScanlineWait = ScanlineWait(y1: int, y2: int, svblank: bool, pipeA: bool)

  /** C's division by two, which truncates toward zero. */
  function Halve(x: int): int
  {
    if x >= 0 then x / 2 else -((-x) / 2)
  }

  /**
   * The window for a copy whose extents are `box` onto a pipe scanning out
   * `crtcBox`: the box's rows relative to the pipe, clamped to it. A copy
   * covering the pipe's full height ends two lines early before gen 4,
   * which has no SVBLANK wait, and waits for SVBLANK from gen 4 on. On an
   * interlaced mode the counter counts field lines, so both ends are halved.
   */
  function ScanlineWindow(box: Box, crtcBox: Box, gen: nat, interlaced: bool, pipe: nat): ScanlineWait
  {
    var y1 := if crtcBox.y1 <= box.y1 then box.y1 - crtcBox.y1 else 0;
    var y2 := if box.y2 <= crtcBox.y2 then box.y2 - crtcBox.y1 else crtcBox.y2 - crtcBox.y1;
    var fullHeight := y1 == 0 && y2 == crtcBox.y2 - crtcBox.y1;
    var y2' := if fullHeight && gen < 32 then y2 - 2 else y2;
    var svblank := fullHeight && gen >= 32;
    if interlaced then ScanlineWait(Halve(y1), Halve(y2'), svblank, pipe == 0)
    else ScanlineWait(y1, y2', svblank, pipe == 0)
  }

  /**
   * Whether the copy waits at all: only while the VT is owned, into a
   * scan-out pixmap, with swapbuffers_wait on, before gen 6, and with a
   * non-rotated pipe covering the copy (`crtc`, the pipe index if any).
   */
  function CopyRegionWait(vtSema: bool, scanout: bool, swapbuffersWait: bool, gen: nat,
                          crtc: Option<nat>, box: Box, crtcBox: Box, interlaced: bool): (w: Option<ScanlineWait>)
    ensures w.Some? <==> vtSema && scanout && swapbuffersWait && gen < 48 && crtc.Some?
    ensures w.Some? ==> !w.value.svblank || 32 <= gen < 48
    ensures w.Some? ==> w.value == ScanlineWindow(box, crtcBox, gen, interlaced, crtc.value)
  {
    if vtSema && scanout && swapbuffersWait && gen < 48 && crtc.Some? then
      Some(ScanlineWindow(box, crtcBox, gen, interlaced, crtc.value))
    else None
  }

  /**
   * For a non-empty copy overlapping a non-empty pipe, on a progressive
   * mode: the window is the part of the box the pipe shows, in pipe rows,
   * unless the copy spans the pipe's full height; then it starts at row 0,
   * and either stops two rows short (before gen 4) or waits for SVBLANK.
   * Either way it lies within the pipe's rows.
   */
  lemma ScanlineWindowClampsToPipe(box: Box, crtcBox: Box, gen: nat, pipe: nat)
    requires WellFormed(box) && WellFormed(crtcBox) && crtcBox.y1 < crtcBox.y2
    requires box.y1 < box.y2 && box.y1 < crtcBox.y2 && crtcBox.y1 < box.y2
    ensures var w := ScanlineWindow(box, crtcBox, gen, false, pipe);
      var height := crtcBox.y2 - crtcBox.y1;
      var top := if box.y1 > crtcBox.y1 then box.y1 else crtcBox.y1;
      var bottom := if box.y2 < crtcBox.y2 then box.y2 else crtcBox.y2;
      var full := top == crtcBox.y1 && bottom == crtcBox.y2;
      w.pipeA == (pipe == 0) &&
      (!full ==> w.y1 == top - crtcBox.y1 && w.y2 == bottom - crtcBox.y1 && 0 <= w.y1 < w.y2 <= height && !w.svblank) &&
      (full && gen < 32 ==> w.y1 == 0 && w.y2 == height - 2 && !w.svblank) &&
      (full && gen >= 32 ==> w.y1 == 0 && w.y2 == height && w.svblank)
  {
  }

  /** On an interlaced mode the window is the progressive one with both ends halved toward zero. */
  lemma InterlacedWindowIsHalved(box: Box, crtcBox: Box, gen: nat, pipe: nat)
    ensures var p := ScanlineWindow(box, crtcBox, gen, false, pipe);
      var i := ScanlineWindow(box, crtcBox, gen, true, pipe);
      i.svblank == p.svblank && i.pipeA == p.pipeA &&
      (p.y1 >= 0 ==> i.y1 == p.y1 / 2) && (p.y2 >= 0 ==> i.y2 == p.y2 / 2) &&
      (p.y2 < 0 ==> i.y2 == -((-p.y2) / 2))
  {
  }

  // ---------------------------------------------------------------------
  // Flip eligibility (can_exchange)
  // ---------------------------------------------------------------------

  /** The driver-private part of a pixmap: its buffer object, tiling, pin bits and busy hint. */
  datatype UxaPixmap = UxaPixmap(bo: nat, tiling: nat, pinned: bv32, busy: int)

  /** A pixmap's size and format, and the private data an exchange swaps. */
  datatype Pixmap = Pixmap(width: nat, height: nat, bitsPerPixel: nat, priv: UxaPixmap)

  /** Pin reasons a flip tolerates on the front buffer: held for scan-out and held by DRI2. */
  const PinScanout: bv32 := 1
  const PinDri2: bv32 := 2

  /** Screen-wide state the flip decision reads. */
  datatype ScreenFlags = ScreenFlags(vtSema: bool, shadowPresent: bool, usePageflipping: bool, useTripleBuffer: bool)

  /**
   * A drawable as the scheduler sees it: its XID, the index of the pipe
   * that shows it (None for pixmaps, off-screen or rotated output), and
   * whether the DRI2 layer allows flipping it.
   */
  datatype Drawable = Drawable(id: nat, crtc: Option<nat>, canFlip: bool)

  /**
   * can_exchange: a swap may flip when the VT is owned, the drawable is on
   * a pipe and flippable, no shadow buffer is used, page flipping is on,
   * front and back agree in width, height, bits per pixel and tiling, and
   * the front is pinned for no reason other than scan-out and DRI2.
   */
  function CanExchange(flags: ScreenFlags, drawable: Drawable, front: Pixmap, back: Pixmap): (ok: bool)
    ensures ok <==>
      flags.vtSema && drawable.crtc.Some? && drawable.canFlip && !flags.shadowPresent && flags.usePageflipping &&
      front.width == back.width && front.height == back.height && front.bitsPerPixel == back.bitsPerPixel &&
      front.priv.tiling == back.priv.tiling && front.priv.pinned & !(PinScanout | PinDri2) == 0
  {
    if !flags.vtSema then false
    else if drawable.crtc.None? then false
    else if !drawable.canFlip then false
    else if flags.shadowPresent then false
    else if !flags.usePageflipping then false
    else if front.width != back.width then false
    else if front.height != back.height then false
    else if front.bitsPerPixel != back.bitsPerPixel then false
    else if front.priv.tiling != back.priv.tiling then false
    else if front.priv.pinned & !(PinScanout | PinDri2) != 0 then false
    else true
  }
}
