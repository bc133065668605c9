/**
 * Pixels, images and frame rectangles shared by the three sprite-sheet
 * files (src/app/spritesheet.rs, src/spritesheet.rs, src/key_spritesheet.rs),
 * which each carry an identical copy of `remove_background`; the two
 * frame-sheet files also share the cyclic frame lookup.
 *
 * An `RgbaImage` is a `width` x `height` grid of RGBA byte quadruples,
 * stored row by row (row `y` holds the pixels `(0, y)` .. `(width - 1, y)`).
 */
module Raster {
  import opened Wrappers
  import Timing

  newtype byte = x: int | 0 <= x < 256

  datatype Pixel = Pixel(r: byte, g: byte, b: byte, a: byte)

  /** The fully transparent pixel that new images are filled with. */
  const TRANSPARENT: Pixel := Pixel(0, 0, 0, 0)

  /** A colour channel above this is "very light". */
  const BG_THRESHOLD: byte := 240

  datatype Image = Image(width: nat, height: nat, rows: seq<seq<Pixel>>)
  {
    /** The grid has the stated dimensions. */
    predicate Valid() {
      && |rows| == height
      && forall y | 0 <= y < |rows| :: |rows[y]| == width
    }
  }

  /** An image whose pixel grid matches its dimensions, as `image::RgbaImage` guarantees. */
  type RgbaImage = img: Image | img.Valid() witness Image(0, 0, [])

  /** A near-white pixel: red, green and blue all above the threshold. */
  predicate IsBackground(p: Pixel) {
    p.r > BG_THRESHOLD && p.g > BG_THRESHOLD && p.b > BG_THRESHOLD
  }

  /** One step of `remove_background`: a near-white pixel becomes fully transparent. */
  function WithoutBackground(p: Pixel): (q: Pixel)
    ensures q.r == p.r && q.g == p.g && q.b == p.b
    ensures IsBackground(p) ==> q.a == 0
    ensures !IsBackground(p) ==> q == p
  {
    if IsBackground(p) then p.(a := 0) else p
  }

  /** Clearing the background twice changes nothing more. */
  lemma WithoutBackgroundIdempotent(p: Pixel)
    ensures WithoutBackground(WithoutBackground(p)) == WithoutBackground(p)
  {
  }

  /** The pass over one row of pixels. */
  method RemoveRowBackground(row: seq<Pixel>) returns (result: seq<Pixel>)
    ensures |result| == |row|
    ensures forall x | 0 <= x < |row| :: result[x] == WithoutBackground(row[x])
  {
    result := row;
    var x := 0;
    while x < |result|
      invariant 0 <= x <= |result| == |row|
      invariant forall i | 0 <= i < x :: result[i] == WithoutBackground(row[i])
      invariant forall i | x <= i < |row| :: result[i] == row[i]
    {
      var p := result[x];
      if p.r > BG_THRESHOLD && p.g > BG_THRESHOLD && p.b > BG_THRESHOLD {
        result := result[x := Pixel(p.r, p.g, p.b, 0)];
      }
      x := x + 1;
    }
  }

  /**
   * `remove_background`: a copy of the image in which every near-white
   * pixel is fully transparent and every other pixel is as it was.
   */
  method RemoveBackground(img: RgbaImage) returns (result: RgbaImage)
    ensures result.width == img.width && result.height == img.height
    ensures forall y, x | 0 <= y < img.height && 0 <= x < img.width ::
      result.rows[y][x] == WithoutBackground(img.rows[y][x])
  {
    var rows := img.rows;
    var y := 0;
    while y < |rows|
      invariant 0 <= y <= |rows| == img.height
      invariant forall j | 0 <= j < |rows| :: |rows[j]| == img.width
      invariant forall j, x | 0 <= j < y && 0 <= x < img.width ::
        rows[j][x] == WithoutBackground(img.rows[j][x])
      invariant forall j | y <= j < |rows| :: rows[j] == img.rows[j]
    {
      var row := RemoveRowBackground(rows[y]);
      rows := rows[y := row];
      y := y + 1;
    }
    result := Image(img.width, img.height, rows);
  }

  /** After `remove_background`, no near-white pixel is visible. */
  lemma NoVisibleBackground(img: RgbaImage, result: RgbaImage)
    requires result.width == img.width && result.height == img.height
    requires forall y, x | 0 <= y < img.height && 0 <= x < img.width ::
      result.rows[y][x] == WithoutBackground(img.rows[y][x])
    ensures forall y, x | 0 <= y < result.height && 0 <= x < result.width ::
      IsBackground(result.rows[y][x]) ==> result.rows[y][x].a == 0
  {
  }

  /** A frame's position and size within a sprite sheet. */
  datatype FrameRect = FrameRect(x: nat, y: nat, width: nat, height: nat)

  /** The rectangle lies within a `sheetWidth` x `sheetHeight` sheet. */
  predicate Inside(r: FrameRect, sheetWidth: nat, sheetHeight: nat) {
    r.x + r.width <= sheetWidth && r.y + r.height <= sheetHeight
  }

  /** The two rectangles share at least one pixel. */
  predicate Overlap(p: FrameRect, q: FrameRect) {
    && p.x < q.x + q.width && q.x < p.x + p.width
    && p.y < q.y + q.height && q.y < p.y + p.height
  }

  /**
   * `get_typing_frame` / `get_idle_frame`: no frame when none were
   * extracted, otherwise the frame at `index` taken cyclically.
   */
  function FrameAt<T>(frames: seq<T>, index: nat): (r: Option<T>)
    ensures r.None? <==> |frames| == 0
    ensures r.Some? ==> r.value == frames[index % |frames|]
  {
    if |frames| == 0 then None else Some(frames[index % |frames|])
  }

  /** An index within the list selects exactly that frame. */
  lemma FrameAtInRange<T>(frames: seq<T>, index: nat)
    requires index < |frames|
    ensures FrameAt(frames, index) == Some(frames[index])
  {
  }

  /** Advancing the index by the number of frames selects the same frame. */
  lemma FrameAtCycles<T>(frames: seq<T>, index: nat)
    ensures FrameAt(frames, index + |frames|) == FrameAt(frames, index)
  {
    if |frames| > 0 {
      var n := |frames|;
      var q, r := index / n, index % n;
      assert index == q * n + r;
      Timing.ModUnique(index + n, n, q + 1, r);
    }
  }
}
