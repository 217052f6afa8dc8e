/**
 * What the sprite and the textured Xv ports of src/sna share: the image
 * formats they know, the port attributes a client names, the status codes
 * they answer with, and the plane layout a QueryImageAttributes request
 * reports.
 *
 * The formats' four-character codes live in sna_video.h, which is not part
 * of this model; a format is therefore a constructor, and any code the
 * ports do not name is `OtherFormat`.
 */
module Xv {

  /** The image formats the two ports name in their switches and image tables. */
  datatype Fourcc =
    | YUY2 | UYVY | YV12 | I420 | NV12 | AYUV | IA44 | AI44 | XvMC | RGB888 | RGB565
    | OtherFormat(code: nat)

  /**
   * The attribute atom a client passes to SetPortAttribute or
   * GetPortAttribute; atoms the port did not create are `OtherAtom`.
   */
  datatype Attribute = ColorKey | Colorspace | SyncToVblank | AlwaysOnTop | Brightness | Contrast | OtherAtom(atom: nat)

  /** The X protocol status codes the attribute handlers return. */
  datatype Status = Success | BadMatch | BadValue

  /** An Xv width or height: the protocol carries them as unsigned 16-bit values. */
  type U16 = x: nat | x < 0x1_0000

  /** `(x + 1) & ~1` on a non-negative value: x rounded up to even. */
  function RoundUpEven(x: nat): (r: nat)
    ensures r % 2 == 0 && x <= r <= x + 1
  {
    x + x % 2
  }

  /** `(x + 3) & ~3` on a non-negative value: x rounded up to a multiple of four. */
  function RoundUpFour(x: nat): (r: nat)
    ensures r % 4 == 0 && x <= r <= x + 3
  {
    if x % 4 == 0 then x else x + (4 - x % 4)
  }

  /** A store into an unsigned 16-bit variable keeps the low sixteen bits. */
  function Store16(x: nat): U16
  {
    x % 0x1_0000
  }

  /**
   * The answer to QueryImageAttributes: the (possibly adjusted) width and
   * height, the pitches and offsets written for each plane, and the byte
   * size returned.
   */
  datatype Layout = Layout(w: U16, h: U16, pitches: seq<int>, offsets: seq<int>, size: int)

  /**
   * The planes lie one after the other from offset 0: plane `i` holds
   * `rows[i]` rows of `pitches[i]` bytes and ends where plane `i + 1`
   * begins, and the last one ends at `size`. So no two planes overlap.
   */
  ghost predicate Tiles(l: Layout, rows: seq<nat>)
  {
    |l.pitches| == |l.offsets| == |rows| > 0 && l.offsets[0] == 0 &&
    (forall i | 0 <= i < |rows| - 1 :: l.offsets[i] + l.pitches[i] * rows[i] == l.offsets[i + 1]) &&
    l.offsets[|rows| - 1] + l.pitches[|rows| - 1] * rows[|rows| - 1] == l.size
  }

  /** A product of two bounded non-negative factors is bounded by the product of the bounds. */
  lemma MulBound(a: int, b: int, x: int, y: int)
    requires 0 <= a <= x && 0 <= b <= y
    ensures 0 <= a * b <= x * y
  {
    assert a * b <= x * b;
    assert x * b <= x * y;
  }

  /** Rounding up to a multiple of four stays below any multiple of four the value was below. */
  lemma FourBound(x: nat, bound: nat)
    requires x <= bound && bound % 4 == 0
    ensures RoundUpFour(x) <= bound
  {
  }

  /** Rounding up to even stays below any even value the value was below. */
  lemma EvenBound(x: nat, bound: nat)
    requires x <= bound && bound % 2 == 0
    ensures RoundUpEven(x) <= bound
  {
  }

  /** A single plane of `h` rows at `pitch`. */
  function OnePlane(w: U16, h: U16, pitch: int): Layout
  {
    Layout(w, h, [pitch], [0], pitch * h)
  }

  /** A single plane tiles its rows. */
  lemma OnePlaneTiles(w: U16, h: U16, pitch: int)
    ensures Tiles(OnePlane(w, h, pitch), [h])
  {
  }

  /** A Y plane followed by one interleaved chroma plane of half the rows. */
  function TwoPlanes(w: U16, h: U16): Layout
  {
    var y := RoundUpFour(w);
    Layout(w, h, [y, y], [0, y * h], y * h + y * (h / 2))
  }

  /** A single-plane query: the pitch goes to `pitches[0]`. */
  method WriteOnePlane(w: U16, h: U16, pitch: int, pitches: array?<int>) returns (size: int)
    requires pitches != null ==> pitches.Length >= 1
    modifies pitches
    ensures size == OnePlane(w, h, pitch).size
    ensures pitches != null ==> pitches[..1] == OnePlane(w, h, pitch).pitches && pitches[1..] == old(pitches[1..])
  {
    size := pitch;
    if pitches != null {
      pitches[0] := size;
    }
    size := size * h;
  }

  /** An NV12 query, after the height was made even. */
  method WriteTwoPlanes(w: U16, h: U16, pitches: array?<int>, offsets: array?<int>) returns (size: int)
    requires pitches != null ==> pitches.Length >= 2
    requires offsets != null ==> offsets.Length >= 2 && offsets[0] == 0
    requires pitches != null && offsets != null ==> pitches != offsets
    modifies pitches, offsets
    ensures size == TwoPlanes(w, h).size
    ensures pitches != null ==> pitches[..2] == TwoPlanes(w, h).pitches && pitches[2..] == old(pitches[2..])
    ensures offsets != null ==> offsets[..2] == TwoPlanes(w, h).offsets && offsets[2..] == old(offsets[2..])
  {
    size := RoundUpFour(w);
    if pitches != null {
      pitches[0] := size;
    }
    size := size * h;
    if offsets != null {
      offsets[1] := size;
    }
    var tmp := RoundUpFour(w);
    if pitches != null {
      pitches[1] := tmp;
    }
    tmp := tmp * (h / 2);
    size := size + tmp;
  }


  /**
   * A two-plane layout tiles a full-height plane and a half-height one at
   * one pitch, a multiple of four no narrower than the width.
   */
  lemma {:induction false} TwoPlanesTile(w: U16, h: U16)
    ensures var l := TwoPlanes(w, h);
      Tiles(l, [h, h / 2]) && l.w == w && l.h == h && l.pitches[0] == l.pitches[1] >= w && l.pitches[0] % 4 == 0
  {
    var l := TwoPlanes(w, h);
    var rows: seq<nat> := [h, h / 2];
    assert l.offsets[0] + l.pitches[0] * rows[0] == l.offsets[1];
  }
}
