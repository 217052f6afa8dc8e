/**
 * The sprite-plane Xv port of src/sna/sna_video_sprite.c: converting the
 * destination box into output coordinates, the colour key programmed into
 * the plane, the port's attributes and its per-output "changed" bitmasks,
 * the image layout it reports, the rounding of the 16.16 source rectangle,
 * and the setup decisions (sprite count, image table, starting state).
 */
module SpriteVideo {
  import opened Common
  import opened Xv

  // ---------------------------------------------------------------------
  // The destination box in output coordinates
  // ---------------------------------------------------------------------

  /** A box: x1, y1 inclusive, x2, y2 exclusive. */
  datatype Box = Box(x1: int, y1: int, x2: int, y2: int)

  predicate WellFormed(b: Box)
  {
    b.x1 <= b.x2 && b.y1 <= b.y2
  }

  function Width(b: Box): int
  {
    b.x2 - b.x1
  }

  function Height(b: Box): int
  {
    b.y2 - b.y1
  }

  /** The RandR rotation bits; reflection bits above them are ignored here. */
  const Rotate0 := 1
  const Rotate90 := 2
  const Rotate180 := 4
  const Rotate270 := 8

  /**
   * update_dst_box_to_crtc_coords: the box, given in screen coordinates,
   * moved into the coordinates of an output at (crtcX, crtcY) whose
   * rotation is `rotation`, on a screen of virtualX by virtualY.
   */
  function ToCrtc(b: Box, rotation: nat, crtcX: int, crtcY: int, virtualX: int, virtualY: int): Box
  {
    var r := rotation % 16;
    if r == Rotate0 then Box(b.x1 - crtcX, b.y1 - crtcY, b.x2 - crtcX, b.y2 - crtcY)
    else if r == Rotate90 then Box(b.y1 - crtcX, virtualX - b.x2 - crtcY, b.y2 - crtcX, virtualX - b.x1 - crtcY)
    else if r == Rotate180 then Box(virtualX - b.x2 - crtcX, virtualY - b.y2 - crtcY, virtualX - b.x1 - crtcX, virtualY - b.y1 - crtcY)
    else if r == Rotate270 then Box(virtualY - b.y2 - crtcX, b.x1 - crtcY, virtualY - b.y1 - crtcX, b.x2 - crtcY)
    else b
  }

  /**
   * A well-formed box stays well-formed; rotating by 0 or 180 keeps its
   * width and height, by 90 or 270 swaps them; the reflection bits make no
   * difference.
   */
  lemma ToCrtcShape(b: Box, rotation: nat, crtcX: int, crtcY: int, virtualX: int, virtualY: int)
    ensures var r := ToCrtc(b, rotation, crtcX, crtcY, virtualX, virtualY);
      (WellFormed(b) ==> WellFormed(r)) &&
      (rotation % 16 == Rotate90 || rotation % 16 == Rotate270 ==> Width(r) == Height(b) && Height(r) == Width(b)) &&
      (rotation % 16 != Rotate90 && rotation % 16 != Rotate270 ==> Width(r) == Width(b) && Height(r) == Height(b)) &&
      r == ToCrtc(b, rotation % 16, crtcX, crtcY, virtualX, virtualY)
  {
  }

  /**
   * On an output at the origin, rotating by 270 undoes rotating by 90 and
   * rotating by 180 undoes itself, when the side the rotations turn about
   * is the same.
   */
  lemma ToCrtcUndo(b: Box, virtualX: int, virtualY: int)
    ensures ToCrtc(ToCrtc(b, Rotate90, 0, 0, virtualX, virtualY), Rotate270, 0, 0, virtualY, virtualX) == b
    ensures ToCrtc(ToCrtc(b, Rotate180, 0, 0, virtualX, virtualY), Rotate180, 0, 0, virtualX, virtualY) == b
  {
  }

  /** A BoxRec the driver rewrites in place. */
  class BoxRec {
    var x1: int
    var y1: int
    var x2: int
    var y2: int

    function Value(): Box
      reads this
    {
      Box(x1, y1, x2, y2)
    }

    constructor (b: Box)
      ensures Value() == b
    {
      x1, y1, x2, y2 := b.x1, b.y1, b.x2, b.y2;
    }
  }

  /** update_dst_box_to_crtc_coords on the box `dst`, field by field. */
  method UpdateDstBoxToCrtcCoords(dst: BoxRec, rotation: nat, crtcX: int, crtcY: int, virtualX: int, virtualY: int)
    modifies dst
    ensures dst.Value() == ToCrtc(old(dst.Value()), rotation, crtcX, crtcY, virtualX, virtualY)
  {
    var tmp: int;
    var r := rotation % 16;
    if r == Rotate0 {
      dst.x1 := dst.x1 - crtcX;
      dst.x2 := dst.x2 - crtcX;
      dst.y1 := dst.y1 - crtcY;
      dst.y2 := dst.y2 - crtcY;
    } else if r == Rotate90 {
      tmp := dst.x1;
      dst.x1 := dst.y1 - crtcX;
      dst.y1 := virtualX - tmp - crtcY;
      tmp := dst.x2;
      dst.x2 := dst.y2 - crtcX;
      dst.y2 := virtualX - tmp - crtcY;
      tmp := dst.y1;
      dst.y1 := dst.y2;
      dst.y2 := tmp;
    } else if r == Rotate180 {
      tmp := dst.x1;
      dst.x1 := virtualX - dst.x2 - crtcX;
      dst.x2 := virtualX - tmp - crtcX;
      tmp := dst.y1;
      dst.y1 := virtualY - dst.y2 - crtcY;
      dst.y2 := virtualY - tmp - crtcY;
    } else if r == Rotate270 {
      tmp := dst.x1;
      dst.x1 := virtualY - dst.y1 - crtcX;
      dst.y1 := tmp - crtcY;
      tmp := dst.x2;
      dst.x2 := virtualY - dst.y2 - crtcX;
      dst.y2 := tmp - crtcY;
      tmp := dst.x1;
      dst.x1 := dst.x2;
      dst.x2 := tmp;
    }
  }

  // ---------------------------------------------------------------------
  // Colour keys
  // ---------------------------------------------------------------------

  /**
   * The screen's pixel layout as the colour-key code reads it: the depth
   * and, per channel, the mask, the bit offset and the number of bits.
   */
  datatype PixelFormat = PixelFormat(depth: bv32,
                                     redMask: bv32, greenMask: bv32, blueMask: bv32,
                                     redOffset: bv32, greenOffset: bv32, blueOffset: bv32,
                                     redWeight: bv32, greenWeight: bv32, blueWeight: bv32)

  /** The shifts of the colour-key code are defined: offsets below 32, weights below 31. */
  predicate Shiftable(f: PixelFormat)
  {
    f.redOffset < 32 && f.greenOffset < 32 && f.blueOffset < 32 &&
    f.redWeight < 31 && f.greenWeight < 31 && f.blueWeight < 31
  }

  /** ckey_chan: a `weight`-bit channel value scaled to eight bits. */
  function CkeyChan(value: bv32, weight: bv32): bv32
    requires weight < 32
  {
    (value << 8) >> weight
  }

  /** ckey_value_chan: one channel of a pixel value, scaled to eight bits. */
  function CkeyValueChan(value: bv32, mask: bv32, offset: bv32, weight: bv32): bv32
    requires offset < 32 && weight < 32
  {
    CkeyChan((value & mask) >> offset, weight)
  }

  /** Three channel bytes below a top byte: `top << 24 | r << 16 | g << 8 | b`. */
  function Pack(top: bv32, r: bv32, g: bv32, b: bv32): bv32
  {
    (top << 24) | (r << 16) | (g << 8) | b
  }

  /**
   * ckey_value: the colour key as the 8:8:8 value the sprite's key
   * register compares against; at depth 8 the key's low byte is used for
   * all three channels.
   */
  function CkeyValue(f: PixelFormat, key: bv32): bv32
    requires Shiftable(f)
  {
    if f.depth == 8 then Pack(0, key & 0xff, key & 0xff, key & 0xff)
    else Pack(0, CkeyValueChan(key, f.redMask, f.redOffset, f.redWeight),
              CkeyValueChan(key, f.greenMask, f.greenOffset, f.greenWeight),
              CkeyValueChan(key, f.blueMask, f.blueOffset, f.blueWeight))
  }

  /** ckey_mask_chan: the all-ones `weight`-bit value, scaled to eight bits. */
  function CkeyMaskChan(weight: bv32): bv32
    requires weight < 31
  {
    CkeyChan((1 << weight) - 1, weight)
  }

  /** ckey_mask: the channel-enable bits in the top byte, the three channel masks below. */
  function CkeyMask(f: PixelFormat): bv32
    requires Shiftable(f)
  {
    Pack(7, CkeyMaskChan(f.redWeight), CkeyMaskChan(f.greenWeight), CkeyMaskChan(f.blueWeight))
  }

  /** A byte value. */
  predicate Byte(x: bv32)
  {
    x < 0x100
  }

  /** Packing four bytes is undone by reading each byte back. */
  lemma PackBytes(top: bv32, r: bv32, g: bv32, b: bv32)
    requires Byte(top) && Byte(r) && Byte(g) && Byte(b)
    ensures Pack(top, r, g, b) >> 24 == top
    ensures (Pack(top, r, g, b) >> 16) & 0xff == r
    ensures (Pack(top, r, g, b) >> 8) & 0xff == g
    ensures Pack(top, r, g, b) & 0xff == b
  {
  }

  /** Channel bytes each inside their mask byte make a value inside the packed mask, whatever its top byte. */
  lemma PackWithin(r: bv32, g: bv32, b: bv32, top: bv32, mr: bv32, mg: bv32, mb: bv32)
    requires Byte(r) && Byte(g) && Byte(b) && r & mr == r && g & mg == g && b & mb == b
    ensures Pack(0, r, g, b) & Pack(top, mr, mg, mb) == Pack(0, r, g, b)
  {
  }

  /** The top `weight` bits of a byte (all eight from weight 8 on). */
  function TopBits(weight: bv32): bv32
  {
    if weight >= 8 then 0xff else (0xff << (8 - weight)) & 0xff
  }

  /** The mask of a channel selects the top `weight` bits of its byte. */
  lemma CkeyMaskChanTopBits(weight: bv32)
    requires weight <= 24
    ensures CkeyMaskChan(weight) == TopBits(weight) && Byte(CkeyMaskChan(weight))
  {
  }

  /** At depth 8 the key's low byte is replicated into all three channels and the top byte is clear. */
  lemma CkeyValueDepth8(f: PixelFormat, key: bv32)
    requires Shiftable(f) && f.depth == 8
    ensures CkeyValue(f, key) == (key & 0xff) * 0x010101
    ensures CkeyValue(f, key) >> 24 == 0
  {
  }

  /** The channel field of a key, `(key & mask) >> offset`, fits in `weight` bits, of one to eight. */
  predicate ChanFits(key: bv32, mask: bv32, offset: bv32, weight: bv32)
  {
    offset < 32 && 0 < weight <= 8 && (key & mask) >> offset < (1 << weight)
  }

  /**
   * A channel field that fits its weight is moved to the top of its byte
   * and lies inside that channel's mask byte: the key register compares
   * exactly the bits the channel carries.
   */
  lemma CkeyValueChanWithin(key: bv32, mask: bv32, offset: bv32, weight: bv32)
    requires ChanFits(key, mask, offset, weight)
    ensures CkeyValueChan(key, mask, offset, weight) == ((key & mask) >> offset) << (8 - weight)
    ensures Byte(CkeyValueChan(key, mask, offset, weight))
    ensures CkeyValueChan(key, mask, offset, weight) & CkeyMaskChan(weight) == CkeyValueChan(key, mask, offset, weight)
  {
  }

  /**
   * sna_video_sprite_color_key: the VideoKey option, else the ColorKey
   * option, else a key built from the screen's channel layout, masked to
   * the screen's depth.
   */
  function DefaultColorKey(f: PixelFormat, videoKey: Option<bv32>, colorKey: Option<bv32>): bv32
    requires f.redOffset < 32 && f.greenOffset < 32 && f.blueOffset < 32 && f.depth < 31
  {
    var key := if videoKey.Some? then videoKey.value
               else if colorKey.Some? then colorKey.value
               else (1 << f.redOffset) | (1 << f.greenOffset) | (((f.blueMask >> f.blueOffset) - 1) << f.blueOffset);
    key & ((1 << f.depth) - 1)
  }

  /**
   * The default key has no bit above the screen's depth; an option's key
   * that already fits the depth is used as given, VideoKey taking
   * precedence over ColorKey.
   */
  lemma DefaultColorKeyFits(f: PixelFormat, videoKey: Option<bv32>, colorKey: Option<bv32>)
    requires f.redOffset < 32 && f.greenOffset < 32 && f.blueOffset < 32 && f.depth < 31
    ensures DefaultColorKey(f, videoKey, colorKey) < 1 << f.depth
    ensures videoKey.Some? && videoKey.value < 1 << f.depth ==> DefaultColorKey(f, videoKey, colorKey) == videoKey.value
    ensures videoKey.None? && colorKey.Some? && colorKey.value < 1 << f.depth ==> DefaultColorKey(f, videoKey, colorKey) == colorKey.value
  {
  }

  /** Without options, the default key of a 24-bit 8:8:8 screen is 0x0101fe and of a 16-bit 5:6:5 screen 0x083e. */
  lemma DefaultColorKeyExamples()
    ensures DefaultColorKey(PixelFormat(24, 0xff0000, 0xff00, 0xff, 16, 8, 0, 8, 8, 8), None, None) == 0x0101fe
    ensures DefaultColorKey(PixelFormat(16, 0xf800, 0x07e0, 0x1f, 11, 5, 0, 5, 6, 5), None, None) == 0x083e
  {
  }

  // ---------------------------------------------------------------------
  // Port attributes and the per-output bitmasks
  // ---------------------------------------------------------------------

  /**
   * The fields of a sprite port's state that its attribute handlers and
   * sna_video_sprite_show read and write. The driver keeps two 32-bit
   * masks, color_key_changed and colorspace_changed, whose bit `i` says
   * output `i` has not yet been given the current colour key or
   * colourspace; each is modelled as the set of its set bits, which is
   * exact for output indices below 32. clipEmpty says the region painted
   * with the colour key was forgotten, so the next frame repaints it.
   */
  datatype SpriteAttrs = SpriteAttrs(colorKey: int, colorKeyChanged: set<nat>, colorspace: int, colorspaceChanged: set<nat>,
                                     syncToVblank: int, alwaysOnTop: int, hasColorKey: bool, clipEmpty: bool)

  /** The mask `~0`: every output's bit set. */
  const AllOutputs: set<nat> := set i: nat | i < 32

  /** The `!!value` normalisation of the two boolean attributes. */
  function Truth(value: int): int
  {
    if value != 0 then 1 else 0
  }

  /** The two boolean attributes hold 0 or 1. */
  predicate Normalised(s: SpriteAttrs)
  {
    (s.syncToVblank == 0 || s.syncToVblank == 1) && (s.alwaysOnTop == 0 || s.alwaysOnTop == 1)
  }

  /**
   * sna_video_sprite_set_attr: a new colour key marks every output's key
   * stale and forgets the painted region; a new colourspace marks every
   * output's colourspace stale; sync-to-vblank and always-on-top store the
   * truth of the value, always-on-top also marking every key stale (its
   * flags change); any other atom is refused with BadMatch.
   */
  function SetAttr(s: SpriteAttrs, attr: Attribute, value: int): (Status, SpriteAttrs)
  {
    match attr
    case ColorKey => (Success, s.(colorKeyChanged := AllOutputs, colorKey := value, clipEmpty := true))
    case Colorspace => (Success, s.(colorspaceChanged := AllOutputs, colorspace := value))
    case SyncToVblank => (Success, s.(syncToVblank := Truth(value)))
    case AlwaysOnTop => (Success, s.(colorKeyChanged := AllOutputs, alwaysOnTop := Truth(value)))
    case _ => (BadMatch, s)
  }

  /** sna_video_sprite_get_attr: the stored value, or BadMatch with `prior` left as it was. */
  function GetAttr(s: SpriteAttrs, attr: Attribute, prior: int): (Status, int)
  {
    match attr
    case ColorKey => (Success, s.colorKey)
    case Colorspace => (Success, s.colorspace)
    case AlwaysOnTop => (Success, s.alwaysOnTop)
    case SyncToVblank => (Success, s.syncToVblank)
    case _ => (BadMatch, prior)
  }

  /** The attributes the sprite port answers for. */
  predicate Known(attr: Attribute)
  {
    attr == ColorKey || attr == Colorspace || attr == SyncToVblank || attr == AlwaysOnTop
  }

  /**
   * A set is refused, changing nothing, exactly when the attribute is
   * unknown. An accepted set is read back: the colour key and colourspace
   * as given, the two boolean attributes as 0 or 1. Every other attribute
   * reads back as before. A key or always-on-top change marks every
   * output's key stale, a colourspace change every output's colourspace.
   */
  lemma {:induction false} SetThenGet(s: SpriteAttrs, attr: Attribute, value: int)
    ensures var (status, s') := SetAttr(s, attr, value);
      (status == BadMatch <==> !Known(attr)) && (status == Success <==> Known(attr)) &&
      (status == BadMatch ==> s' == s) &&
      (attr == ColorKey || attr == Colorspace ==> forall prior :: GetAttr(s', attr, prior) == (Success, value)) &&
      (attr == SyncToVblank || attr == AlwaysOnTop ==> forall prior :: GetAttr(s', attr, prior) == (Success, if value != 0 then 1 else 0)) &&
      (attr == ColorKey || attr == AlwaysOnTop ==> s'.colorKeyChanged == AllOutputs) &&
      (attr == Colorspace ==> s'.colorspaceChanged == AllOutputs) &&
      (forall other, prior | other != attr :: GetAttr(s', other, prior) == GetAttr(s, other, prior))
  {
    var (status, s') := SetAttr(s, attr, value);
    forall other, prior | other != attr
      ensures GetAttr(s', other, prior) == GetAttr(s, other, prior)
    {
      match other
      case ColorKey =>
      case Colorspace =>
      case SyncToVblank =>
      case AlwaysOnTop =>
      case _ =>
    }
  }

  /**
   * Whatever the client sets, the boolean attributes stay 0 or 1, and a
   * port that gave up colour keys does not take them up again.
   */
  lemma SetKeepsNormalised(s: SpriteAttrs, attr: Attribute, value: int)
    requires Normalised(s)
    ensures Normalised(SetAttr(s, attr, value).1)
    ensures SetAttr(s, attr, value).1.hasColorKey == s.hasColorKey
  {
  }

  /** The colour-key request sna_video_sprite_show sends: the key, the channel mask and the flags. */
  datatype KeyRequest = KeyRequest(minValue: bv32, channelMask: bv32, flags: bv32)

  /** The key flag asking the plane to be shown only where the destination holds the key. */
  const DestinationKey: bv32 := 2

  /** The colour key as the 32-bit value the driver hands to the kernel. */
  function KeyBits(key: int): bv32
  {
    (key % 0x1_0000_0000) as bv32
  }

  /**
   * The key request sna_video_sprite_show sends: the port's key and the
   * screen's channel mask, compared against the destination unless the
   * video is always on top.
   */
  function KeyFor(s: SpriteAttrs, f: PixelFormat): KeyRequest
    requires Shiftable(f)
  {
    KeyRequest(CkeyValue(f, KeyBits(s.colorKey)), CkeyMask(f), if s.alwaysOnTop != 0 then 0 else DestinationKey)
  }

  /**
   * The colour-key half of sna_video_sprite_show on output `index`: when
   * that output's key is stale and the port still has colour keys, the key
   * is sent (`keyOk` tells whether the kernel took it, `retryOk` whether it
   * took it after the plane was hidden); when both attempts fail the port
   * stops using colour keys; the output's bit is then cleared.
   */
  function ShowKey(s: SpriteAttrs, f: PixelFormat, index: nat, keyOk: bool, retryOk: bool): (SpriteAttrs, Option<KeyRequest>)
    requires Shiftable(f)
  {
    if index in s.colorKeyChanged && s.hasColorKey then
      (s.(colorKeyChanged := s.colorKeyChanged - {index}, hasColorKey := keyOk || retryOk), Some(KeyFor(s, f)))
    else (s, None)
  }

  /** The colourspace half of sna_video_sprite_show: a stale colourspace is sent and the output's bit cleared. */
  function ShowColorspace(s: SpriteAttrs, index: nat): (SpriteAttrs, Option<int>)
  {
    if index in s.colorspaceChanged then (s.(colorspaceChanged := s.colorspaceChanged - {index}), Some(s.colorspace))
    else (s, None)
  }

  /**
   * The bookkeeping of sna_video_sprite_show on output `index`: the key,
   * then the colourspace. The result is the new state, the key request
   * sent and the colourspace sent.
   */
  function Show(s: SpriteAttrs, f: PixelFormat, index: nat, keyOk: bool, retryOk: bool): (SpriteAttrs, Option<KeyRequest>, Option<int>)
    requires Shiftable(f)
  {
    var (s1, key) := ShowKey(s, f, index, keyOk, retryOk);
    var (s2, space) := ShowColorspace(s1, index);
    (s2, key, space)
  }

  /**
   * Showing on output `index` sends the key exactly when that output's key
   * was stale and the port had colour keys, with the screen's channel mask
   * and the destination flag exactly when the video is not always on top;
   * it sends the colourspace exactly when that was stale. Afterwards the
   * output's colourspace is current, and so is its key unless the port has
   * no colour keys; every other output keeps its bits. The port gives up
   * colour keys exactly when the key was due and both attempts failed.
   * Nothing else changes.
   */
  lemma {:induction false} ShowSends(s: SpriteAttrs, f: PixelFormat, index: nat, keyOk: bool, retryOk: bool)
    requires Shiftable(f)
    ensures var (s', key, space) := Show(s, f, index, keyOk, retryOk);
      var keyDue := index in s.colorKeyChanged && s.hasColorKey;
      (key.Some? <==> keyDue) &&
      (key.Some? ==> key.value.channelMask == CkeyMask(f) && key.value.minValue == CkeyValue(f, KeyBits(s.colorKey)) &&
                     (key.value.flags == DestinationKey <==> s.alwaysOnTop == 0) && (key.value.flags == 0 <==> s.alwaysOnTop != 0)) &&
      (space == if index in s.colorspaceChanged then Some(s.colorspace) else None) &&
      index !in s'.colorspaceChanged && (s.hasColorKey ==> index !in s'.colorKeyChanged) &&
      (forall j :: j != index ==> (j in s'.colorKeyChanged <==> j in s.colorKeyChanged) &&
                                  (j in s'.colorspaceChanged <==> j in s.colorspaceChanged)) &&
      (s'.hasColorKey <==> s.hasColorKey && (!keyDue || keyOk || retryOk)) &&
      s'.(colorKeyChanged := s.colorKeyChanged, colorspaceChanged := s.colorspaceChanged, hasColorKey := s.hasColorKey) == s
  {
  }

  /**
   * Showing twice on the same output sends nothing the second time and
   * leaves the state as the first show left it.
   */
  lemma {:induction false} ShowTwice(s: SpriteAttrs, f: PixelFormat, index: nat, keyOk: bool, retryOk: bool, keyOk2: bool, retryOk2: bool)
    requires Shiftable(f)
    ensures var s1 := Show(s, f, index, keyOk, retryOk).0;
      Show(s1, f, index, keyOk2, retryOk2) == (s1, None, None)
  {
    ShowSends(s, f, index, keyOk, retryOk);
  }

  /**
   * A port without colour keys never sends one again: neither a show nor
   * any attribute change turns them back on.
   */
  lemma NoKeyStaysOff(s: SpriteAttrs, f: PixelFormat, index: nat, keyOk: bool, retryOk: bool, attr: Attribute, value: int)
    requires Shiftable(f) && !s.hasColorKey
    ensures Show(s, f, index, keyOk, retryOk).1 == None && !Show(s, f, index, keyOk, retryOk).0.hasColorKey
    ensures !SetAttr(s, attr, value).1.hasColorKey
  {
  }

  /**
   * After a new colour key is set, the next show on any output sends it,
   * as long as the port still has colour keys.
   */
  lemma SetKeyThenShow(s: SpriteAttrs, value: int, f: PixelFormat, index: nat, keyOk: bool, retryOk: bool)
    requires Shiftable(f) && index < 32 && s.hasColorKey
    ensures var s1 := SetAttr(s, ColorKey, value).1;
      Show(s1, f, index, keyOk, retryOk).1 == Some(KeyRequest(CkeyValue(f, KeyBits(value)), CkeyMask(f),
                                                              if s.alwaysOnTop != 0 then 0 else DestinationKey))
  {
  }

  /** sna_video_sprite_hide's bookkeeping: output `index` must be given its key again. */
  function Hide(s: SpriteAttrs, index: nat): (r: SpriteAttrs)
  {
    s.(colorKeyChanged := s.colorKeyChanged + {index})
  }

  /** After the plane was hidden, the next show on that output sends the key again. */
  lemma HideThenShow(s: SpriteAttrs, f: PixelFormat, index: nat, keyOk: bool, retryOk: bool)
    requires Shiftable(f) && s.hasColorKey
    ensures Show(Hide(s, index), f, index, keyOk, retryOk).1 == Some(KeyFor(s, f))
  {
  }

  /** The state sna_video_sprite_setup gives each port: every output stale, BT.709, colour keys on, synced to vblank. */
  function InitialAttrs(key: int): (s: SpriteAttrs)
    ensures Normalised(s) && s.hasColorKey && s.colorKey == key
    ensures forall i: nat :: i < 32 ==> i in s.colorKeyChanged && i in s.colorspaceChanged
  {
    SpriteAttrs(key, AllOutputs, 1, AllOutputs, 1, 0, true, true)
  }

  /** A sprite port's state, updated in place by its handlers. */
  class SpritePort {
    var colorKey: int
    var colorKeyChanged: set<nat>
    var colorspace: int
    var colorspaceChanged: set<nat>
    var syncToVblank: int
    var alwaysOnTop: int
    var hasColorKey: bool
    var clipEmpty: bool

    function State(): SpriteAttrs
      reads this
    {
      SpriteAttrs(colorKey, colorKeyChanged, colorspace, colorspaceChanged, syncToVblank, alwaysOnTop, hasColorKey, clipEmpty)
    }

    /** A port as sna_video_sprite_setup leaves it, with the screen's default colour key. */
    constructor (f: PixelFormat, videoKey: Option<bv32>, colorKey: Option<bv32>)
      requires f.redOffset < 32 && f.greenOffset < 32 && f.blueOffset < 32 && f.depth < 31
      ensures State() == InitialAttrs(DefaultColorKey(f, videoKey, colorKey) as int)
    {
      this.colorKey := DefaultColorKey(f, videoKey, colorKey) as int;
      colorKeyChanged := AllOutputs;
      colorspace := 1;
      colorspaceChanged := AllOutputs;
      hasColorKey := true;
      clipEmpty := true;
      syncToVblank := 1;
      alwaysOnTop := 0;
    }

    /** sna_video_sprite_set_attr on this port. */
    method SetAttribute(attr: Attribute, value: int) returns (status: Status)
      modifies this
      ensures (status, State()) == SetAttr(old(State()), attr, value)
    {
      if attr == ColorKey {
        colorKeyChanged := AllOutputs;
        colorKey := value;
        clipEmpty := true;
      } else if attr == Colorspace {
        colorspaceChanged := AllOutputs;
        colorspace := value;
      } else if attr == SyncToVblank {
        syncToVblank := if value != 0 then 1 else 0;
      } else if attr == AlwaysOnTop {
        colorKeyChanged := AllOutputs;
        alwaysOnTop := if value != 0 then 1 else 0;
      } else {
        return BadMatch;
      }
      return Success;
    }

    /** sna_video_sprite_get_attr on this port: `value` is `prior` when the atom is unknown. */
    method GetAttribute(attr: Attribute, prior: int) returns (status: Status, value: int)
      ensures (status, value) == GetAttr(State(), attr, prior)
    {
      value := prior;
      if attr == ColorKey {
        value := colorKey;
      } else if attr == Colorspace {
        value := colorspace;
      } else if attr == AlwaysOnTop {
        value := alwaysOnTop;
      } else if attr == SyncToVblank {
        value := syncToVblank;
      } else {
        return BadMatch, value;
      }
      return Success, value;
    }

    /** The bookkeeping of sna_video_sprite_hide for output `index`. */
    method HideOn(index: nat)
      modifies this
      ensures State() == Hide(old(State()), index)
    {
      colorKeyChanged := colorKeyChanged + {index};
    }

    /** The bookkeeping of sna_video_sprite_show for output `index`, with the kernel's answers as inputs. */
    method ShowOn(f: PixelFormat, index: nat, keyOk: bool, retryOk: bool) returns (key: Option<KeyRequest>, space: Option<int>)
      requires Shiftable(f)
      modifies this
      ensures (State(), key, space) == Show(old(State()), f, index, keyOk, retryOk)
    {
      key, space := None, None;
      if index in colorKeyChanged && hasColorKey {
        ghost var stale := colorKeyChanged;
        key := Some(KeyFor(State(), f));
        if !keyOk {
          HideOn(index);
          if !retryOk {
            hasColorKey := false;
          }
        }
        colorKeyChanged := colorKeyChanged - {index};
        assert colorKeyChanged == stale - {index};
      }
      if index in colorspaceChanged {
        space := Some(colorspace);
        colorspaceChanged := colorspaceChanged - {index};
      }
    }
  }

  // ---------------------------------------------------------------------
  // QueryBestSize, scaling
  // ---------------------------------------------------------------------

  /** has_hw_scaling: the sprite planes scale before gen 071 and from gen 0110. */
  predicate HwScaling(gen: nat)
  {
    gen < 57 || gen >= 72
  }

  /**
   * sna_video_sprite_best_size: the drawable's size when either the plane
   * or the GPU can scale, the video's own size when neither can.
   */
  function BestSize(gen: nat, hasVideoRender: bool, vidW: U16, vidH: U16, drwW: U16, drwH: U16): (r: (U16, U16))
    ensures r == (if HwScaling(gen) || hasVideoRender then (drwW, drwH) else (vidW, vidH))
  {
    if !HwScaling(gen) && !hasVideoRender then (vidW, vidH) else (drwW, drwH)
  }

  /**
   * need_scaling: whether the frame must go through the GPU before the
   * plane shows it.
   */
  function NeedScaling(format: Fourcc, src: Box, dst: Box): (r: bool)
    ensures r <==> format == NV12 || Width(src) != Width(dst) || Height(src) != Height(dst)
  {
    format == NV12 || src.x2 - src.x1 != dst.x2 - dst.x1 || src.y2 - src.y1 != dst.y2 - dst.y1
  }

  /**
   * What the best size is for: on a plane that cannot scale, a frame put
   * at the best size for its own size needs no scaling when the GPU cannot
   * scale either (so put_image's render path is never wanted), and when the
   * GPU can, put_image scales exactly when the drawable's size differs from
   * the video's (or the frame is NV12).
   */
  lemma BestSizeAvoidsScaling(gen: nat, hasVideoRender: bool, format: Fourcc, src: Box, dst: Box,
                              vidW: U16, vidH: U16, drwW: U16, drwH: U16)
    requires !HwScaling(gen)
    requires Width(src) == vidW && Height(src) == vidH
    requires var best := BestSize(gen, hasVideoRender, vidW, vidH, drwW, drwH);
      Width(dst) == best.0 && Height(dst) == best.1
    ensures !hasVideoRender && format != NV12 ==> !NeedScaling(format, src, dst)
    ensures hasVideoRender ==> (NeedScaling(format, src, dst) <==> format == NV12 || vidW != drwW || vidH != drwH)
  {
  }

  // ---------------------------------------------------------------------
  // The source rectangle of put_image
  // ---------------------------------------------------------------------

  /** `x & ~1`: x rounded down to even (two's complement, so also for negative x). */
  function FloorEven(x: int): int
  {
    x - x % 2
  }

  /** ALIGN(x, 2): x rounded up to even. */
  function CeilEven(x: int): int
  {
    FloorEven(x + 1)
  }

  /**
   * The rounding in sna_video_sprite_put_image: the clipped 16.16 source
   * span (x1, x2) by (y1, y2) becomes the whole pixels it touches (`src`),
   * and the pixels copied (`image`) widen that to even columns, and to even
   * rows for planar formats.
   */
  function RoundSource(x1: int, x2: int, y1: int, y2: int, planar: bool): (Box, Box)
  {
    var src := Box(x1 / 0x10000, y1 / 0x10000, (x2 + 0xffff) / 0x10000, (y2 + 0xffff) / 0x10000);
    var image := if planar then Box(FloorEven(src.x1), FloorEven(src.y1), CeilEven(src.x2), CeilEven(src.y2))
                 else Box(FloorEven(src.x1), src.y1, CeilEven(src.x2), src.y2);
    (src, image)
  }

  /** `lo` and `hi` are the even bounds enclosing [a, b] at most one pixel wider on each side. */
  predicate EvenHull(lo: int, hi: int, a: int, b: int)
  {
    lo % 2 == 0 && hi % 2 == 0 && lo <= a <= lo + 1 && hi - 1 <= b <= hi
  }

  /**
   * `src` starts at the pixel holding the span's start and ends at the
   * first pixel boundary at or after its end; `image` encloses `src` in
   * even columns (and even rows for planar formats; otherwise the rows are
   * `src`'s); a well-formed span gives well-formed boxes.
   */
  lemma SourceRounding(x1: int, x2: int, y1: int, y2: int, planar: bool)
    ensures var (src, image) := RoundSource(x1, x2, y1, y2, planar);
      src.x1 * 0x10000 <= x1 < (src.x1 + 1) * 0x10000 && (src.x2 - 1) * 0x10000 < x2 <= src.x2 * 0x10000 &&
      src.y1 * 0x10000 <= y1 < (src.y1 + 1) * 0x10000 && (src.y2 - 1) * 0x10000 < y2 <= src.y2 * 0x10000 &&
      EvenHull(image.x1, image.x2, src.x1, src.x2) &&
      (planar ==> EvenHull(image.y1, image.y2, src.y1, src.y2)) &&
      (!planar ==> image.y1 == src.y1 && image.y2 == src.y2) &&
      (x1 <= x2 && y1 <= y2 ==> WellFormed(src) && WellFormed(image))
  {
    PixelSpan(x1, x2);
    PixelSpan(y1, y2);
    var src := RoundSource(x1, x2, y1, y2, planar).0;
    EvenRounding(src.x1, src.x2);
    EvenRounding(src.y1, src.y2);
  }

  /** The pixel holding a 16.16 start, and the first pixel boundary at or after a 16.16 end. */
  lemma PixelSpan(a: int, b: int)
    ensures a / 0x10000 * 0x10000 <= a < (a / 0x10000 + 1) * 0x10000
    ensures ((b + 0xffff) / 0x10000 - 1) * 0x10000 < b <= (b + 0xffff) / 0x10000 * 0x10000
    ensures a <= b ==> a / 0x10000 <= (b + 0xffff) / 0x10000
  {
  }

  /** Rounding down and up to even encloses a span. */
  lemma EvenRounding(a: int, b: int)
    ensures EvenHull(FloorEven(a), CeilEven(b), a, b)
    ensures a <= b ==> FloorEven(a) <= CeilEven(b)
  {
  }

  // ---------------------------------------------------------------------
  // QueryImageAttributes
  // ---------------------------------------------------------------------

  /** How many entries of `pitches` and of `offsets` the sprite query writes for a format. */
  function Writes(format: Fourcc): nat
  {
    if format == NV12 then 2 else 1
  }

  /**
   * sna_video_sprite_query: width and height are clamped to the largest
   * output; RGB formats are passed by handle (four bytes, at the pitch the
   * frame would have, `rgbPitch`); NV12 makes the height even; AYUV is four
   * bytes a pixel; every other format is packed at two bytes a pixel with
   * both dimensions made even. Results go back in 16-bit fields.
   */
  function Query(format: Fourcc, w: U16, h: U16, maxW: nat, maxH: nat, rgbPitch: int): (l: Layout)
    ensures |l.pitches| == |l.offsets| == Writes(format)
  {
    var w1: U16 := if w > maxW then maxW else w;
    var h1: U16 := if h > maxH then maxH else h;
    match format
    case RGB888 | RGB565 => Layout(w1, h1, [rgbPitch], [0], 4)
    case NV12 => TwoPlanes(w1, Store16(RoundUpEven(h1)))
    case AYUV => OnePlane(w1, h1, w1 * 4)
    case _ =>
      var w2 := Store16(RoundUpEven(w1));
      OnePlane(w2, Store16(RoundUpEven(h1)), w2 * 2)
  }

  /**
   * The reported size never exceeds the largest output nor the request
   * (beyond rounding up to even). NV12 tiles a full and a half-height
   * plane with an even height; AYUV is one plane at four bytes a pixel;
   * the packed formats one plane at two bytes a pixel with even
   * dimensions; RGB is a four-byte handle. The rounding is exact as long
   * as the clamped value is below 65535, the largest 16-bit odd value.
   */
  lemma {:induction false} QueryLayout(format: Fourcc, w: U16, h: U16, maxW: nat, maxH: nat, rgbPitch: int)
    ensures var l := Query(format, w, h, maxW, maxH, rgbPitch);
      var cw := if w > maxW then maxW else w;
      var ch := if h > maxH then maxH else h;
      (format == RGB888 || format == RGB565 ==> l.w == cw && l.h == ch && l.size == 4 && l.pitches == [rgbPitch] && l.offsets == [0]) &&
      (format == NV12 ==> Tiles(l, [l.h, l.h / 2]) && l.w == cw && l.h % 2 == 0 && l.pitches[0] == l.pitches[1] >= l.w &&
                          (ch < 0xffff ==> ch <= l.h <= ch + 1)) &&
      (format == AYUV ==> Tiles(l, [l.h]) && l.w == cw && l.h == ch && l.pitches[0] == 4 * l.w) &&
      (format !in {RGB888, RGB565, NV12, AYUV} ==>
         Tiles(l, [l.h]) && l.pitches[0] == 2 * l.w && l.w % 2 == 0 && l.h % 2 == 0 &&
         (cw < 0xffff ==> cw <= l.w <= cw + 1) && (ch < 0xffff ==> ch <= l.h <= ch + 1))
  {
    if format == NV12 {
      QueryNv12(w, h, maxW, maxH, rgbPitch);
    } else if format == AYUV {
      QueryAyuv(w, h, maxW, maxH, rgbPitch);
    } else if format !in {RGB888, RGB565} {
      QueryPacked(format, w, h, maxW, maxH, rgbPitch);
    }
  }

  /** NV12: a full and a half-height plane at one pitch, with an even height. */
  lemma QueryNv12(w: U16, h: U16, maxW: nat, maxH: nat, rgbPitch: int)
    ensures var l := Query(NV12, w, h, maxW, maxH, rgbPitch);
      var cw := if w > maxW then maxW else w;
      var ch := if h > maxH then maxH else h;
      Tiles(l, [l.h, l.h / 2]) && l.w == cw && l.h % 2 == 0 && l.pitches[0] == l.pitches[1] >= l.w &&
      (ch < 0xffff ==> ch <= l.h <= ch + 1)
  {
    var cw: U16 := if w > maxW then maxW else w;
    var ch: U16 := if h > maxH then maxH else h;
    EvenStore(ch);
    TwoPlanesTile(cw, Store16(RoundUpEven(ch)));
  }

  /** AYUV: one plane at four bytes a pixel. */
  lemma QueryAyuv(w: U16, h: U16, maxW: nat, maxH: nat, rgbPitch: int)
    ensures var l := Query(AYUV, w, h, maxW, maxH, rgbPitch);
      Tiles(l, [l.h]) && l.w == (if w > maxW then maxW else w) && l.h == (if h > maxH then maxH else h) &&
      l.pitches[0] == 4 * l.w
  {
    var cw: U16 := if w > maxW then maxW else w;
    var ch: U16 := if h > maxH then maxH else h;
    OnePlaneTiles(cw, ch, cw * 4);
  }

  /** The packed formats: one plane at two bytes a pixel, both dimensions even. */
  lemma QueryPacked(format: Fourcc, w: U16, h: U16, maxW: nat, maxH: nat, rgbPitch: int)
    requires format !in {RGB888, RGB565, NV12, AYUV}
    ensures var l := Query(format, w, h, maxW, maxH, rgbPitch);
      var cw := if w > maxW then maxW else w;
      var ch := if h > maxH then maxH else h;
      Tiles(l, [l.h]) && l.pitches[0] == 2 * l.w && l.w % 2 == 0 && l.h % 2 == 0 &&
      (cw < 0xffff ==> cw <= l.w <= cw + 1) && (ch < 0xffff ==> ch <= l.h <= ch + 1)
  {
    var cw: U16 := if w > maxW then maxW else w;
    var ch: U16 := if h > maxH then maxH else h;
    EvenStore(cw);
    EvenStore(ch);
    var w2 := Store16(RoundUpEven(cw));
    OnePlaneTiles(w2, Store16(RoundUpEven(ch)), w2 as int * 2);
    assert Query(format, w, h, maxW, maxH, rgbPitch) == OnePlane(w2, Store16(RoundUpEven(ch)), w2 as int * 2);
  }

  /** Rounding up to even and storing in 16 bits gives an even value, one more at most unless it wraps. */
  lemma EvenStore(x: U16)
    ensures Store16(RoundUpEven(x)) % 2 == 0
    ensures x < 0xffff ==> x <= Store16(RoundUpEven(x)) <= x + 1
  {
  }

  /**
   * sna_video_sprite_query with the caller's `pitches` and `offsets`
   * arrays (either may be absent): the adjusted width and height and the
   * size are returned, and the first Writes(format) entries of each array
   * receive the layout's pitches and offsets; nothing else changes.
   */
  method QueryImageAttributes(format: Fourcc, w: U16, h: U16, maxW: nat, maxH: nat, rgbPitch: int,
                              pitches: array?<int>, offsets: array?<int>)
    returns (w': U16, h': U16, size: int)
    requires pitches != null ==> pitches.Length >= Writes(format)
    requires offsets != null ==> offsets.Length >= Writes(format)
    requires pitches != null && offsets != null ==> pitches != offsets
    modifies pitches, offsets
    ensures var l := Query(format, w, h, maxW, maxH, rgbPitch); w' == l.w && h' == l.h && size == l.size
    ensures pitches != null ==> pitches[..Writes(format)] == Query(format, w, h, maxW, maxH, rgbPitch).pitches &&
                                pitches[Writes(format)..] == old(pitches[Writes(format)..])
    ensures offsets != null ==> offsets[..Writes(format)] == Query(format, w, h, maxW, maxH, rgbPitch).offsets &&
                                offsets[Writes(format)..] == old(offsets[Writes(format)..])
  {
    var ww, hh := w, h;
    if ww > maxW {
      ww := maxW;
    }
    if hh > maxH {
      hh := maxH;
    }
    if offsets != null {
      offsets[0] := 0;
    }
    ghost var l := Query(format, w, h, maxW, maxH, rgbPitch);
    match format {
      case RGB888 | RGB565 =>
        if pitches != null {
          pitches[0] := rgbPitch;
        }
        size := 4;
      case NV12 =>
        hh := Store16(RoundUpEven(hh));
        assert l == TwoPlanes(ww, hh);
        size := WriteTwoPlanes(ww, hh, pitches, offsets);
      case AYUV =>
        assert l == OnePlane(ww, hh, ww * 4);
        size := WriteOnePlane(ww, hh, ww * 4, pitches);
      case _ =>
        ww := Store16(RoundUpEven(ww));
        hh := Store16(RoundUpEven(hh));
        assert l == OnePlane(ww, hh, ww * 2);
        size := WriteOnePlane(ww, hh, ww * 2, pitches);
    }
    w', h' := ww, hh;
  }

  // ---------------------------------------------------------------------
  // Setup
  // ---------------------------------------------------------------------

  const NoSprites: nat := 0xffff_ffff

  function Min(a: nat, b: nat): nat
  {
    if b < a then b else a
  }

  /** The least of `bound` and the counts of `s`. */
  function Least(s: seq<nat>, bound: nat): (r: nat)
    ensures r <= bound && (forall i | 0 <= i < |s| :: r <= s[i])
    ensures r == bound || r in s
  {
    if |s| == 0 then bound else Min(Least(s[..|s| - 1], bound), s[|s| - 1])
  }

  /** The unsigned result of sna_video_has_sprites read back as the C int it returns. */
  function AsInt(u: nat): int
  {
    if u < 0x8000_0000 then u else u - 0x1_0000_0000
  }

  /**
   * sna_video_has_sprites, given each output's sprite count: 0 without
   * outputs, otherwise the least count over the outputs.
   */
  method HasSprites(counts: seq<nat>) returns (n: int)
    requires forall i | 0 <= i < |counts| :: counts[i] <= NoSprites
    ensures n == (if |counts| == 0 then 0 else AsInt(Least(counts, NoSprites)))
    ensures |counts| > 0 && n >= 0 ==> n in counts && forall i | 0 <= i < |counts| :: n <= counts[i]
  {
    if |counts| == 0 {
      return 0;
    }
    var least := NoSprites;
    var i := 0;
    while i < |counts|
      invariant 0 <= i <= |counts|
      invariant least == Least(counts[..i], NoSprites)
    {
      assert counts[..i + 1][..i] == counts[..i];
      if counts[i] < least {
        least := counts[i];
      }
      i := i + 1;
    }
    assert counts[..i] == counts;
    n := AsInt(least);
  }

  /**
   * The image table sna_video_sprite_setup advertises, from what the
   * planes can scan out: XYUV (AYUV), NV12 or RGB565.
   */
  function ImageTable(hasXyuv: bool, hasNv12: bool, hasRgb565: bool): seq<Fourcc>
  {
    if hasXyuv then [AYUV, YUY2, UYVY, NV12, RGB888, RGB565]
    else if hasNv12 then [YUY2, UYVY, NV12, RGB888, RGB565]
    else if hasRgb565 then [YUY2, UYVY, RGB888, RGB565]
    else [YUY2, UYVY, RGB888]
  }

  /**
   * Every table offers the packed formats and RGB888 and lists no format
   * twice; AYUV only when the planes scan out XYUV, NV12 exactly when they
   * take XYUV or NV12, and RGB565 exactly when they take any of the three.
   */
  lemma {:induction false} ImageTableContents(hasXyuv: bool, hasNv12: bool, hasRgb565: bool)
    ensures var t := ImageTable(hasXyuv, hasNv12, hasRgb565);
      YUY2 in t && UYVY in t && RGB888 in t && NoDup(t) &&
      (AYUV in t <==> hasXyuv) && (NV12 in t <==> hasXyuv || hasNv12) &&
      (RGB565 in t <==> hasXyuv || hasNv12 || hasRgb565)
  {
    var t := ImageTable(hasXyuv, hasNv12, hasRgb565);
    if !hasXyuv {
      assert AYUV !in t;
      if !hasNv12 {
        assert NV12 !in t;
        if !hasRgb565 {
          assert t == [YUY2, UYVY, RGB888];
          assert RGB565 !in t;
        }
      }
    }
  }

  /** What sna_video_sprite_setup registers: one port per sprite, the image table and each port's starting state. */
  datatype Adaptor = Adaptor(ports: nat, images: seq<Fourcc>, initial: SpriteAttrs)

  /**
   * sna_video_sprite_setup, given the sprite count sna_video_has_sprites
   * returned and whether the port arrays could be allocated: no adaptor
   * without sprites, and none when allocation fails (a negative count asks
   * calloc for more memory than there is, so it comes with `allocOk`
   * false); otherwise `count` ports, all starting from the same state.
   */
  function Setup(count: int, allocOk: bool, key: int, hasXyuv: bool, hasNv12: bool, hasRgb565: bool): (a: Option<Adaptor>)
    ensures a.Some? <==> count > 0 && allocOk
    ensures a.Some? ==> a.value.ports == count && a.value.images == ImageTable(hasXyuv, hasNv12, hasRgb565) &&
                        a.value.initial == InitialAttrs(key)
  {
    if count <= 0 || !allocOk then None else Some(Adaptor(count, ImageTable(hasXyuv, hasNv12, hasRgb565), InitialAttrs(key)))
  }
}
