/**
 * The textured Xv port of src/sna/sna_video_textured.c: its attributes and
 * their ranges, the best-size rule, the plane layout its
 * QueryImageAttributes reports, and the port count and image table chosen
 * by hardware generation.
 */
module TexturedVideo {
  import opened Common
  import opened Xv

  // ---------------------------------------------------------------------
  // Port attributes
  // ---------------------------------------------------------------------

  /** The fields of a textured port's state that its attribute handlers read and write. */
  datatype TexturedAttrs = TexturedAttrs(brightness: int, contrast: int, syncToVblank: int, colorspace: int)

  /**
   * The ranges set_attribute enforces: brightness -128..127, contrast
   * 0..255, sync-to-vblank -1..1 and colorspace 0..1.
   */
  predicate InRange(s: TexturedAttrs)
  {
    -128 <= s.brightness <= 127 && 0 <= s.contrast <= 255 && -1 <= s.syncToVblank <= 1 && 0 <= s.colorspace <= 1
  }

  /**
   * sna_video_textured_set_attribute: a known attribute whose value lies
   * in its range is stored, one out of range is refused with BadValue, and
   * any other atom with BadMatch.
   */
  function SetAttr(s: TexturedAttrs, attr: Attribute, value: int): (Status, TexturedAttrs)
  {
    match attr
    case Brightness => if value < -128 || value > 127 then (BadValue, s) else (Success, s.(brightness := value))
    case Contrast => if value < 0 || value > 255 then (BadValue, s) else (Success, s.(contrast := value))
    case SyncToVblank => if value < -1 || value > 1 then (BadValue, s) else (Success, s.(syncToVblank := value))
    case Colorspace => if value < 0 || value > 1 then (BadValue, s) else (Success, s.(colorspace := value))
    case _ => (BadMatch, s)
  }

  /**
   * sna_video_textured_get_attribute: the stored value of a known
   * attribute, or BadMatch with the caller's `prior` value left as it was.
   */
  function GetAttr(s: TexturedAttrs, attr: Attribute, prior: int): (Status, int)
  {
    match attr
    case Brightness => (Success, s.brightness)
    case Contrast => (Success, s.contrast)
    case SyncToVblank => (Success, s.syncToVblank)
    case Colorspace => (Success, s.colorspace)
    case _ => (BadMatch, prior)
  }

  /** The attributes the textured port answers for. */
  predicate Known(attr: Attribute)
  {
    attr == Brightness || attr == Contrast || attr == SyncToVblank || attr == Colorspace
  }

  /**
   * A set is refused with BadValue exactly when the attribute is known and
   * the value lies outside its range, and with BadMatch exactly when the
   * attribute is unknown; a refused set changes nothing. An accepted set
   * is read back by GetAttr and leaves every other attribute as it was.
   */
  lemma {:induction false} SetThenGet(s: TexturedAttrs, attr: Attribute, value: int)
    ensures var (status, s') := SetAttr(s, attr, value);
      (status == BadMatch <==> !Known(attr)) &&
      (status == BadValue <==> Known(attr) && !InRange(s.(brightness := if attr == Brightness then value else 0,
                                                           contrast := if attr == Contrast then value else 0,
                                                           syncToVblank := if attr == SyncToVblank then value else 0,
                                                           colorspace := if attr == Colorspace then value else 0))) &&
      (status != Success ==> s' == s) &&
      (status == Success ==> forall prior :: GetAttr(s', attr, prior) == (Success, value)) &&
      (forall other, prior | other != attr :: GetAttr(s', other, prior) == GetAttr(s, other, prior))
  {
    var (status, s') := SetAttr(s, attr, value);
    forall other, prior | other != attr
      ensures GetAttr(s', other, prior) == GetAttr(s, other, prior)
    {
      match other
      case Brightness =>
      case Contrast =>
      case SyncToVblank =>
      case Colorspace =>
      case _ =>
    }
  }

  /** Every attribute stays within its advertised range whatever the client sets. */
  lemma SetKeepsInRange(s: TexturedAttrs, attr: Attribute, value: int)
    requires InRange(s)
    ensures InRange(SetAttr(s, attr, value).1)
  {
  }

  /**
   * A known attribute reads back from the state, and on a state within range
   * setting what was read changes nothing; an unknown one answers BadMatch
   * and returns `prior` unchanged.
   */
  lemma GetAnswers(s: TexturedAttrs, attr: Attribute, prior: int)
    ensures var (status, value) := GetAttr(s, attr, prior);
      (status == Success <==> Known(attr)) && (status == BadMatch <==> !Known(attr)) &&
      (!Known(attr) ==> value == prior) &&
      (Known(attr) && InRange(s) ==> SetAttr(s, attr, value) == (Success, s))
  {
  }

  /**
   * A textured port's attribute state, updated in place by the attribute
   * handlers.
   */
  class TexturedPort {
    var brightness: int
    var contrast: int
    var syncToVblank: int
    var colorspace: int

    function State(): TexturedAttrs
      reads this
    {
      TexturedAttrs(brightness, contrast, syncToVblank, colorspace)
    }

    /**
     * A port as sna_video_textured_setup leaves it: zeroed, colorspace
     * BT.709 (1), and sync-to-vblank on unless the screen was configured
     * not to wait.
     */
    constructor (noWait: bool)
      ensures State() == InitialAttrs(noWait) && InRange(State())
    {
      brightness := 0;
      contrast := 0;
      colorspace := 1;
      syncToVblank := if noWait then 0 else 1;
    }

    /** sna_video_textured_set_attribute on this port. */
    method SetAttribute(attr: Attribute, value: int) returns (status: Status)
      modifies this
      ensures (status, State()) == SetAttr(old(State()), attr, value)
      ensures old(InRange(State())) ==> InRange(State())
    {
      if InRange(State()) {
        SetKeepsInRange(State(), attr, value);
      }
      if attr == Brightness {
        if value < -128 || value > 127 {
          return BadValue;
        }
        brightness := value;
      } else if attr == Contrast {
        if value < 0 || value > 255 {
          return BadValue;
        }
        contrast := value;
      } else if attr == SyncToVblank {
        if value < -1 || value > 1 {
          return BadValue;
        }
        syncToVblank := value;
      } else if attr == Colorspace {
        if value < 0 || value > 1 {
          return BadValue;
        }
        colorspace := value;
      } else {
        return BadMatch;
      }
      return Success;
    }

    /** sna_video_textured_get_attribute on this port: `value` is `prior` when the atom is unknown. */
    method GetAttribute(attr: Attribute, prior: int) returns (status: Status, value: int)
      ensures (status, value) == GetAttr(State(), attr, prior)
    {
      value := prior;
      if attr == Brightness {
        value := brightness;
      } else if attr == Contrast {
        value := contrast;
      } else if attr == SyncToVblank {
        value := syncToVblank;
      } else if attr == Colorspace {
        value := colorspace;
      } else {
        return BadMatch, value;
      }
      return Success, value;
    }
  }

  /** The attribute state of a port fresh from sna_video_textured_setup. */
  function InitialAttrs(noWait: bool): (s: TexturedAttrs)
    ensures InRange(s) && s.colorspace == 1 && (s.syncToVblank == 1 <==> !noWait)
  {
    TexturedAttrs(0, 0, if noWait then 0 else 1, 1)
  }

  // ---------------------------------------------------------------------
  // QueryBestSize
  // ---------------------------------------------------------------------

  /**
   * sna_video_textured_best_size: the drawable size, except that a
   * dimension the video would have to shrink by more than half becomes
   * half the video's.
   */
  function BestSize(vidW: U16, vidH: U16, drwW: U16, drwH: U16): (U16, U16)
  {
    (if vidW > drwW * 2 then vidW / 2 else drwW,
     if vidH > drwH * 2 then vidH / 2 else drwH)
  }

  /**
   * The best size is never smaller than the drawable asked for nor than
   * half the video, so the port never shrinks a video by more than half;
   * a drawable already within that factor is answered unchanged.
   */
  lemma BestSizeBounds(vidW: U16, vidH: U16, drwW: U16, drwH: U16)
    ensures var (w, h) := BestSize(vidW, vidH, drwW, drwH);
      w >= drwW && h >= drwH && 2 * w + 1 >= vidW && 2 * h + 1 >= vidH &&
      (vidW <= 2 * drwW ==> w == drwW) && (vidH <= 2 * drwH ==> h == drwH) &&
      (vidW > 2 * drwW ==> w <= vidW / 2) && (vidH > 2 * drwH ==> h <= vidH / 2)
  {
  }

  // ---------------------------------------------------------------------
  // QueryImageAttributes
  // ---------------------------------------------------------------------

  /** How many entries of `pitches` and of `offsets` the textured query writes for a format. */
  function Writes(format: Fourcc): nat
  {
    match format
    case YV12 | I420 => 3
    case NV12 => 2
    case _ => 1
  }

  /** The largest width or height the textured query reports. */
  const MaxSize := 8192

  /**
   * sna_video_textured_query: width and height are clamped to 8192, the
   * width rounded up to even, and then each format lays out its planes.
   */
  function Query(format: Fourcc, w: U16, h: U16): (l: Layout)
    ensures |l.pitches| == |l.offsets| == Writes(format)
  {
    var w1 := RoundUpEven(if w > MaxSize then MaxSize else w);
    var h1 := if h > MaxSize then MaxSize else h;
    match format
    case IA44 | AI44 => OnePlane(w1, h1, w1)
    case YV12 | I420 => ThreePlanes(w1, RoundUpEven(h1))
    case NV12 => TwoPlanes(w1, RoundUpEven(h1))
    case AYUV => OnePlane(w1, h1, w1 * 4)
    case XvMC => Layout(w1, RoundUpEven(h1), [4], [0], 4)
    case _ => OnePlane(w1, h1, w1 * 2)
  }

  /** A Y plane followed by two chroma planes of half the width and half the rows. */
  function ThreePlanes(w: U16, h: U16): Layout
  {
    var y, uv := RoundUpFour(w), RoundUpFour(w / 2);
    Layout(w, h, [y, uv, uv], [0, y * h, y * h + uv * (h / 2)], y * h + uv * (h / 2) + uv * (h / 2))
  }

  /**
   * The reported width is even, at most 8192, and the request's width
   * rounded up when that was within bounds; the height is at most 8192 and
   * is the request's height, made even for the planar, NV12 and XvMC
   * formats.
   */
  lemma QueryClamps(format: Fourcc, w: U16, h: U16)
    ensures var l := Query(format, w, h);
      l.w % 2 == 0 && l.w <= MaxSize && l.h <= MaxSize &&
      (w <= MaxSize ==> w <= l.w <= w + 1) && (w > MaxSize ==> l.w == MaxSize) &&
      (format in {YV12, I420, NV12, XvMC} ==> l.h % 2 == 0) &&
      (h <= MaxSize ==> h <= l.h <= h + 1) && (h > MaxSize ==> l.h == MaxSize) &&
      (format !in {YV12, I420, NV12, XvMC} ==> l.h == (if h > MaxSize then MaxSize else h))
  {
  }

  /**
   * YV12 and I420: a full-size Y plane and two half-size chroma planes,
   * each pitch a multiple of four wide enough for its row, the two chroma
   * pitches equal, laid end to end with no overlap.
   */
  lemma {:induction false} PlanarLayout(format: Fourcc, w: U16, h: U16)
    requires format == YV12 || format == I420
    ensures var l := Query(format, w, h);
      Tiles(l, [l.h, l.h / 2, l.h / 2]) && l.h % 2 == 0 &&
      l.pitches[0] >= l.w && l.pitches[1] >= l.w / 2 && l.pitches[1] == l.pitches[2] &&
      l.pitches[0] % 4 == 0 && l.pitches[1] % 4 == 0
  {
    var l := Query(format, w, h);
    var rows: seq<nat> := [l.h, l.h / 2, l.h / 2];
    assert l.offsets[0] + l.pitches[0] * rows[0] == l.offsets[1];
    assert l.offsets[1] + l.pitches[1] * rows[1] == l.offsets[2];
  }

  /**
   * NV12: a full-size Y plane and one interleaved chroma plane of half the
   * rows at the same pitch, end to end.
   */
  lemma {:induction false} Nv12Layout(w: U16, h: U16)
    ensures var l := Query(NV12, w, h);
      Tiles(l, [l.h, l.h / 2]) && l.h % 2 == 0 && l.pitches[0] == l.pitches[1] >= l.w && l.pitches[0] % 4 == 0
  {
    var h1 := if h > MaxSize then MaxSize else h;
    TwoPlanesTile(RoundUpEven(if w > MaxSize then MaxSize else w), RoundUpEven(h1));
  }

  /**
   * The single-plane formats: one plane of `h` rows whose pitch is one
   * byte per pixel for IA44 and AI44, four for AYUV and two for the packed
   * formats.
   */
  lemma PackedLayout(format: Fourcc, w: U16, h: U16)
    requires format !in {YV12, I420, NV12, XvMC}
    ensures var l := Query(format, w, h);
      Tiles(l, [l.h]) &&
      l.pitches[0] == l.w * (if format == IA44 || format == AI44 then 1 else if format == AYUV then 4 else 2)
  {
  }

  /** An XvMC surface is passed by handle: four bytes, whatever its size. */
  lemma XvMCLayout(w: U16, h: U16)
    ensures var l := Query(XvMC, w, h); l.size == 4 && l.pitches == [4] && l.offsets == [0] && l.h % 2 == 0
  {
  }

  /** Thanks to the clamp the size returned always fits the C int it is returned in. */
  lemma {:induction false} QuerySizeFits(format: Fourcc, w: U16, h: U16)
    ensures 0 <= Query(format, w, h).size < 0x8000_0000
  {
    var w0 := if w > MaxSize then MaxSize else w;
    var h1 := if h > MaxSize then MaxSize else h;
    var w1, h2 := RoundUpEven(w0), RoundUpEven(h1);
    EvenBound(w0, MaxSize);
    EvenBound(h1, MaxSize);
    var l := Query(format, w, h);
    match format
    case YV12 | I420 =>
      assert l == ThreePlanes(w1, h2);
      ThreePlanesFit(w1, h2);
    case NV12 =>
      assert l == TwoPlanes(w1, h2);
      TwoPlanesFit(w1, h2);
    case XvMC =>
    case IA44 | AI44 =>
      assert l == OnePlane(w1, h1, w1);
      OnePlaneFits(w1, h1, 1);
    case AYUV =>
      assert l == OnePlane(w1, h1, w1 * 4);
      OnePlaneFits(w1, h1, 4);
    case _ =>
      assert l == OnePlane(w1, h1, w1 * 2);
      OnePlaneFits(w1, h1, 2);
  }

  /** A single plane of a clamped request at up to four bytes per pixel is below 2^28 bytes. */
  lemma OnePlaneFits(w: U16, h: U16, bytes: nat)
    requires w <= MaxSize && h <= MaxSize && bytes <= 4
    ensures 0 <= OnePlane(w, h, w * bytes).size <= 0x1000_0000
  {
    MulBound(w * bytes, h, 4 * MaxSize, MaxSize);
  }

  /** The three-plane size of a clamped request is below 2^27. */
  lemma ThreePlanesFit(w: U16, h: U16)
    requires w <= MaxSize && h <= MaxSize
    ensures 0 <= ThreePlanes(w, h).size < 0x800_0000
  {
    var y, uv := RoundUpFour(w), RoundUpFour(w / 2);
    assert y <= 8192 by { FourBound(w, MaxSize); }
    assert uv <= 4096 by { FourBound(w / 2, MaxSize / 2); }
    var luma, chroma := y * h, uv * (h / 2);
    assert 0 <= luma <= 0x400_0000 by { MulBound(y, h, 8192, 8192); }
    assert 0 <= chroma <= 0x100_0000 by { MulBound(uv, h / 2, 4096, 4096); }
    assert ThreePlanes(w, h).size == luma + chroma + chroma;
  }

  /** The two-plane size of a clamped request is below 2^27. */
  lemma TwoPlanesFit(w: U16, h: U16)
    requires w <= MaxSize && h <= MaxSize
    ensures 0 <= TwoPlanes(w, h).size < 0x800_0000
  {
    var y := RoundUpFour(w);
    assert y <= 8192 by { FourBound(w, MaxSize); }
    var luma, chroma := y * h, y * (h / 2);
    assert 0 <= luma <= 0x400_0000 by { MulBound(y, h, 8192, 8192); }
    assert 0 <= chroma <= 0x200_0000 by { MulBound(y, h / 2, 8192, 4096); }
    assert TwoPlanes(w, h).size == luma + chroma;
  }

  /**
   * sna_video_textured_query with the caller's `pitches` and `offsets`
   * arrays (either may be absent): the adjusted width and height and the
   * size are returned, and the first Writes(format) entries of each array
   * receive the layout's pitches and offsets; nothing else changes.
   */
  method QueryImageAttributes(format: Fourcc, w: U16, h: U16, pitches: array?<int>, offsets: array?<int>)
    returns (w': U16, h': U16, size: int)
    requires pitches != null ==> pitches.Length >= Writes(format)
    requires offsets != null ==> offsets.Length >= Writes(format)
    requires pitches != null && offsets != null ==> pitches != offsets
    modifies pitches, offsets
    ensures var l := Query(format, w, h); w' == l.w && h' == l.h && size == l.size
    ensures pitches != null ==> pitches[..Writes(format)] == Query(format, w, h).pitches &&
                                pitches[Writes(format)..] == old(pitches[Writes(format)..])
    ensures offsets != null ==> offsets[..Writes(format)] == Query(format, w, h).offsets &&
                                offsets[Writes(format)..] == old(offsets[Writes(format)..])
  {
    var ww, hh := w, h;
    if ww > MaxSize {
      ww := MaxSize;
    }
    if hh > MaxSize {
      hh := MaxSize;
    }
    ww := RoundUpEven(ww);
    if offsets != null {
      offsets[0] := 0;
    }
    ghost var l := Query(format, w, h);
    match format {
      case IA44 | AI44 =>
        assert l == OnePlane(ww, hh, ww);
        size := WriteOnePlane(ww, hh, ww, pitches);
      case YV12 | I420 =>
        hh := RoundUpEven(hh);
        assert l == ThreePlanes(ww, hh);
        size := WriteThreePlanes(ww, hh, pitches, offsets);
      case NV12 =>
        hh := RoundUpEven(hh);
        assert l == TwoPlanes(ww, hh);
        size := WriteTwoPlanes(ww, hh, pitches, offsets);
      case AYUV =>
        assert l == OnePlane(ww, hh, ww * 4);
        size := WriteOnePlane(ww, hh, ww * 4, pitches);
      case XvMC =>
        hh := RoundUpEven(hh);
        size := 4;
        if pitches != null {
          pitches[0] := size;
        }
      case _ =>
        assert l == OnePlane(ww, hh, ww * 2);
        size := WriteOnePlane(ww, hh, ww * 2, pitches);
    }
    w', h' := ww, hh;
  }

  /** The YV12 and I420 case of the query, after the height was made even. */
  method WriteThreePlanes(w: U16, h: U16, pitches: array?<int>, offsets: array?<int>) returns (size: int)
    requires pitches != null ==> pitches.Length >= 3
    requires offsets != null ==> offsets.Length >= 3 && offsets[0] == 0
    requires pitches != null && offsets != null ==> pitches != offsets
    modifies pitches, offsets
    ensures size == ThreePlanes(w, h).size
    ensures pitches != null ==> pitches[..3] == ThreePlanes(w, h).pitches && pitches[3..] == old(pitches[3..])
    ensures offsets != null ==> offsets[..3] == ThreePlanes(w, h).offsets && offsets[3..] == old(offsets[3..])
  {
    size := RoundUpFour(w);
    if pitches != null {
      pitches[0] := size;
    }
    size := size * h;
    if offsets != null {
      offsets[1] := size;
    }
    var tmp := RoundUpFour(w / 2);
    if pitches != null {
      pitches[1] := tmp;
      pitches[2] := tmp;
    }
    tmp := tmp * (h / 2);
    size := size + tmp;
    if offsets != null {
      offsets[2] := size;
    }
    size := size + tmp;
  }

  // ---------------------------------------------------------------------
  // Setup
  // ---------------------------------------------------------------------

  /** Hardware generations as the driver numbers them (octal 030, 040, 060, 0100 and 0110). */
  const Gen3 := 24
  const Gen4 := 32
  const Gen6 := 48
  const Gen8 := 64
  const Gen9 := 72

  /** The number of textured ports sna_video_textured_setup creates. */
  function PortCount(gen: nat): (n: nat)
  {
    if gen >= Gen8 then 64 else if gen >= Gen6 then 32 else 16
  }

  /** The image table sna_video_textured_setup advertises. */
  function ImageTable(gen: nat): (t: seq<Fourcc>)
  {
    if gen < Gen3 then [YUY2, UYVY]
    else if gen < Gen4 then [YUY2, YV12, I420, UYVY, XvMC]
    else if gen < Gen9 then [YUY2, YV12, I420, NV12, UYVY, XvMC]
    else [YUY2, YV12, I420, NV12, UYVY, AYUV, XvMC]
  }

  /**
   * Newer hardware never gets fewer ports or fewer formats: the count is
   * 16, 32 or 64, every table holds the packed formats and lists no format
   * twice, the planar formats and XvMC come with gen3, NV12 with gen4 and
   * AYUV with gen9.
   */
  lemma {:induction false} SetupGrows(gen: nat, later: nat)
    requires gen <= later
    ensures PortCount(gen) <= PortCount(later) && PortCount(gen) in {16, 32, 64}
    ensures forall f | f in ImageTable(gen) :: f in ImageTable(later)
    ensures YUY2 in ImageTable(gen) && UYVY in ImageTable(gen) && NoDup(ImageTable(gen))
    ensures (YV12 in ImageTable(gen) <==> gen >= Gen3) && (XvMC in ImageTable(gen) <==> gen >= Gen3)
    ensures (NV12 in ImageTable(gen) <==> gen >= Gen4) && (AYUV in ImageTable(gen) <==> gen >= Gen9)
  {
    var t := ImageTable(gen);
    if gen < Gen3 {
      assert t == [YUY2, UYVY];
      assert YV12 !in t && XvMC !in t && NV12 !in t && AYUV !in t;
    } else if gen < Gen4 {
      assert NV12 !in t && AYUV !in t;
    } else if gen < Gen9 {
      assert AYUV !in t;
    }
  }

  /** What sna_video_textured_setup registers: the ports, their image table and each port's starting attributes. */
  datatype Adaptor = Adaptor(ports: nat, images: seq<Fourcc>, initial: TexturedAttrs)

  /**
   * sna_video_textured_setup: no adaptor at depth 8, without a video
   * renderer, while the GPU is wedged, or when the adaptor or its port
   * arrays cannot be allocated (`allocOk` false); otherwise one sized and
   * equipped by generation.
   */
  function Setup(depth: nat, hasVideo: bool, wedged: bool, allocOk: bool, gen: nat, noWait: bool): (a: Option<Adaptor>)
    ensures a.Some? <==> depth != 8 && hasVideo && !wedged && allocOk
    ensures a.Some? ==> a.value.ports > 0 && |a.value.images| > 0 && InRange(a.value.initial)
  {
    if depth == 8 || !hasVideo || wedged || !allocOk then None
    else Some(Adaptor(PortCount(gen), ImageTable(gen), InitialAttrs(noWait)))
  }
}
