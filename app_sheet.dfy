/**
 * The sprite sheet of src/app/spritesheet.rs: a 1024x1024 sheet cut into a
 * 4x4 grid of 256x256 frames, the top two rows idle and the bottom two
 * typing. Each frame is cleared of its background, its visible content is
 * located and centred in a 256x256 image, and the renderer picks frames
 * cyclically.
 *
 * Loading the sheet, cropping and PNG encoding are outside this model; the
 * extracted frames are a parameter of the lookups.
 */
module AppSheet {
  import opened Wrappers
  import opened Raster

  const FRAME_WIDTH: nat := 256
  const FRAME_HEIGHT: nat := 256
  /** The sheet is 1024x1024. */
  const SHEET_SIZE: nat := 1024

  const IDLE_FRAMES: seq<FrameRect> := [
    FrameRect(0, 0, FRAME_WIDTH, FRAME_HEIGHT),
    FrameRect(FRAME_WIDTH, 0, FRAME_WIDTH, FRAME_HEIGHT),
    FrameRect(FRAME_WIDTH * 2, 0, FRAME_WIDTH, FRAME_HEIGHT),
    FrameRect(FRAME_WIDTH * 3, 0, FRAME_WIDTH, FRAME_HEIGHT),
    FrameRect(0, FRAME_HEIGHT, FRAME_WIDTH, FRAME_HEIGHT),
    FrameRect(FRAME_WIDTH, FRAME_HEIGHT, FRAME_WIDTH, FRAME_HEIGHT),
    FrameRect(FRAME_WIDTH * 2, FRAME_HEIGHT, FRAME_WIDTH, FRAME_HEIGHT),
    FrameRect(FRAME_WIDTH * 3, FRAME_HEIGHT, FRAME_WIDTH, FRAME_HEIGHT)
  ]

  const TYPING_FRAMES: seq<FrameRect> := [
    FrameRect(0, FRAME_HEIGHT * 2, FRAME_WIDTH, FRAME_HEIGHT),
    FrameRect(FRAME_WIDTH, FRAME_HEIGHT * 2, FRAME_WIDTH, FRAME_HEIGHT),
    FrameRect(FRAME_WIDTH * 2, FRAME_HEIGHT * 2, FRAME_WIDTH, FRAME_HEIGHT),
    FrameRect(FRAME_WIDTH * 3, FRAME_HEIGHT * 2, FRAME_WIDTH, FRAME_HEIGHT),
    FrameRect(0, FRAME_HEIGHT * 3, FRAME_WIDTH, FRAME_HEIGHT),
    FrameRect(FRAME_WIDTH, FRAME_HEIGHT * 3, FRAME_WIDTH, FRAME_HEIGHT),
    FrameRect(FRAME_WIDTH * 2, FRAME_HEIGHT * 3, FRAME_WIDTH, FRAME_HEIGHT),
    FrameRect(FRAME_WIDTH * 3, FRAME_HEIGHT * 3, FRAME_WIDTH, FRAME_HEIGHT)
  ]

  /** The 256x256 cell in column `col` and row `row` of the grid. */
  function Cell(col: nat, row: nat): FrameRect {
    FrameRect(FRAME_WIDTH * col, FRAME_HEIGHT * row, FRAME_WIDTH, FRAME_HEIGHT)
  }

  /** Idle frame `i` is cell `(i mod 4, i div 4)`: the top two rows, left to right. */
  lemma IdleLayout(i: nat)
    requires i < |IDLE_FRAMES|
    ensures IDLE_FRAMES[i] == Cell(i % 4, i / 4)
  {
    if i == 0 {} else if i == 1 {} else if i == 2 {} else if i == 3 {}
    else if i == 4 {} else if i == 5 {} else if i == 6 {} else {}
  }

  /** Typing frame `i` is cell `(i mod 4, 2 + i div 4)`: the bottom two rows. */
  lemma TypingLayout(i: nat)
    requires i < |TYPING_FRAMES|
    ensures TYPING_FRAMES[i] == Cell(i % 4, 2 + i / 4)
  {
    if i == 0 {} else if i == 1 {} else if i == 2 {} else if i == 3 {}
    else if i == 4 {} else if i == 5 {} else if i == 6 {} else {}
  }

  /** Every cell of the 4x4 grid lies in the sheet, and distinct cells do not overlap. */
  lemma CellsTileSheet(c1: nat, r1: nat, c2: nat, r2: nat)
    requires c1 < 4 && r1 < 4 && c2 < 4 && r2 < 4
    ensures Inside(Cell(c1, r1), SHEET_SIZE, SHEET_SIZE)
    ensures (c1, r1) != (c2, r2) ==> !Overlap(Cell(c1, r1), Cell(c2, r2))
  {
  }

  /**
   * All sixteen frames lie in the sheet and no two share a pixel; in
   * particular no idle frame overlaps a typing frame.
   */
  lemma FramesDisjoint(i: nat, j: nat)
    requires i < 8 && j < 8
    ensures Inside(IDLE_FRAMES[i], SHEET_SIZE, SHEET_SIZE) && Inside(TYPING_FRAMES[i], SHEET_SIZE, SHEET_SIZE)
    ensures i != j ==> !Overlap(IDLE_FRAMES[i], IDLE_FRAMES[j]) && !Overlap(TYPING_FRAMES[i], TYPING_FRAMES[j])
    ensures !Overlap(IDLE_FRAMES[i], TYPING_FRAMES[j])
  {
    IdleLayout(i);
    IdleLayout(j);
    TypingLayout(i);
    TypingLayout(j);
    CellsTileSheet(i % 4, i / 4, j % 4, j / 4);
    CellsTileSheet(i % 4, 2 + i / 4, j % 4, 2 + j / 4);
    CellsTileSheet(i % 4, i / 4, j % 4, 2 + j / 4);
  }

  /** A pixel that counts as content: alpha above 10. */
  predicate IsContent(p: Pixel) {
    p.a > 10
  }

  /** Some pixel of the image is content. */
  ghost predicate HasContent(img: RgbaImage) {
    exists y, x | 0 <= y < img.height && 0 <= x < img.width :: IsContent(img.rows[y][x])
  }

  /** Every content pixel lies in `box`. */
  ghost predicate Encloses(img: RgbaImage, box: FrameRect) {
    forall y, x | 0 <= y < img.height && 0 <= x < img.width && IsContent(img.rows[y][x]) ::
      box.x <= x < box.x + box.width && box.y <= y < box.y + box.height
  }

  /** Some pixel in column `x` is content. */
  ghost predicate ColumnHasContent(img: RgbaImage, x: nat)
    requires x < img.width
  {
    exists y | 0 <= y < img.height :: IsContent(img.rows[y][x])
  }

  /** Some pixel in row `y` is content. */
  ghost predicate RowHasContent(img: RgbaImage, y: nat)
    requires y < img.height
  {
    exists x | 0 <= x < img.width :: IsContent(img.rows[y][x])
  }

  /** `box` is non-empty, lies in the image and each of its four edges touches content. */
  ghost predicate Tight(img: RgbaImage, box: FrameRect) {
    && 1 <= box.width && 1 <= box.height
    && Inside(box, img.width, img.height)
    && ColumnHasContent(img, box.x) && ColumnHasContent(img, box.x + box.width - 1)
    && RowHasContent(img, box.y) && RowHasContent(img, box.y + box.height - 1)
  }

  /**
   * What `find_content_bounds` returns: for a non-empty image, nothing when
   * no pixel is content and otherwise the smallest box enclosing all
   * content. An image with no pixels at all gives the box `(0, 0, 1, 1)`:
   * the initial minima (the image's width and height, both 0) then equal
   * the initial maxima (0), which the final check accepts as content.
   */
  ghost predicate IsContentBounds(img: RgbaImage, bounds: Option<FrameRect>) {
    if img.width == 0 && img.height == 0 then bounds == Some(FrameRect(0, 0, 1, 1))
    else if !HasContent(img) then bounds.None?
    else bounds.Some? && Encloses(img, bounds.value) && Tight(img, bounds.value)
  }

  /** There is only one smallest enclosing box. */
  lemma ContentBoundsUnique(img: RgbaImage, b1: Option<FrameRect>, b2: Option<FrameRect>)
    requires IsContentBounds(img, b1) && IsContentBounds(img, b2)
    ensures b1 == b2
  {
    if (img.width > 0 || img.height > 0) && HasContent(img) {
      var p, q := b1.value, b2.value;
      ColumnWithin(img, p, q.x);
      ColumnWithin(img, q, p.x);
      ColumnWithin(img, p, q.x + q.width - 1);
      ColumnWithin(img, q, p.x + p.width - 1);
      RowWithin(img, p, q.y);
      RowWithin(img, q, p.y);
      RowWithin(img, p, q.y + q.height - 1);
      RowWithin(img, q, p.y + p.height - 1);
    }
  }

  /** A box enclosing all content spans every column that holds content. */
  lemma ColumnWithin(img: RgbaImage, box: FrameRect, x: nat)
    requires Encloses(img, box) && x < img.width && ColumnHasContent(img, x)
    ensures box.x <= x < box.x + box.width
  {
  }

  /** A box enclosing all content spans every row that holds content. */
  lemma RowWithin(img: RgbaImage, box: FrameRect, y: nat)
    requires Encloses(img, box) && y < img.height && RowHasContent(img, y)
    ensures box.y <= y < box.y + box.height
  {
  }

  /** The index of the first `true` in `s`. */
  function FirstTrue(s: seq<bool>): (i: nat)
    requires true in s
    ensures i < |s| && s[i]
    ensures forall j | 0 <= j < i :: !s[j]
  {
    if s[0] then 0 else FirstTrue(s[1..]) + 1
  }

  /** The index of the last `true` in `s`. */
  function LastTrue(s: seq<bool>): (i: nat)
    requires true in s
    ensures i < |s| && s[i]
    ensures forall j | i < j < |s| :: !s[j]
  {
    if s[|s| - 1] then |s| - 1 else LastTrue(s[..|s| - 1])
  }

  /** For each column, whether it holds content. */
  ghost function ContentColumns(img: RgbaImage): (cols: seq<bool>)
    ensures |cols| == img.width
  {
    seq(img.width, x requires 0 <= x < img.width => ColumnHasContent(img, x))
  }

  /** For each row, whether it holds content. */
  ghost function ContentRows(img: RgbaImage): (rows: seq<bool>)
    ensures |rows| == img.height
  {
    seq(img.height, y requires 0 <= y < img.height => RowHasContent(img, y))
  }

  /** The box spanning the extreme content columns and rows is the content bounds. */
  lemma ExtremesBound(img: RgbaImage, minX: nat, maxX: nat, minY: nat, maxY: nat)
    requires minX <= maxX < img.width && minY <= maxY < img.height
    requires ColumnHasContent(img, minX) && ColumnHasContent(img, maxX)
    requires RowHasContent(img, minY) && RowHasContent(img, maxY)
    requires forall x | 0 <= x < img.width && ColumnHasContent(img, x) :: minX <= x <= maxX
    requires forall y | 0 <= y < img.height && RowHasContent(img, y) :: minY <= y <= maxY
    ensures IsContentBounds(img, Some(FrameRect(minX, minY, maxX - minX + 1, maxY - minY + 1)))
  {
    var box := FrameRect(minX, minY, maxX - minX + 1, maxY - minY + 1);
    forall y, x | 0 <= y < img.height && 0 <= x < img.width && IsContent(img.rows[y][x])
      ensures box.x <= x < box.x + box.width && box.y <= y < box.y + box.height
    {
      assert ColumnHasContent(img, x) && RowHasContent(img, y);
    }
    var y :| 0 <= y < img.height && IsContent(img.rows[y][minX]);
    assert HasContent(img);
  }

  /** The box from the first to the last column and row holding content. */
  ghost function ContentBox(img: RgbaImage): FrameRect
    requires true in ContentColumns(img) && true in ContentRows(img)
  {
    var cols, rows := ContentColumns(img), ContentRows(img);
    FrameRect(FirstTrue(cols), FirstTrue(rows),
              LastTrue(cols) - FirstTrue(cols) + 1, LastTrue(rows) - FirstTrue(rows) + 1)
  }

  /** The first and last content columns hold content, and every content column lies between them. */
  lemma ColumnExtremes(img: RgbaImage, x: nat)
    requires x < img.width && ColumnHasContent(img, x)
    ensures true in ContentColumns(img)
    ensures var cols := ContentColumns(img);
      && FirstTrue(cols) <= LastTrue(cols) < img.width
      && ColumnHasContent(img, FirstTrue(cols)) && ColumnHasContent(img, LastTrue(cols))
      && forall x' | 0 <= x' < img.width && ColumnHasContent(img, x') :: FirstTrue(cols) <= x' <= LastTrue(cols)
  {
    var cols := ContentColumns(img);
    assert cols[x];
    forall x' | 0 <= x' < img.width && ColumnHasContent(img, x') ensures FirstTrue(cols) <= x' <= LastTrue(cols) {
      assert cols[x'];
    }
  }

  /** The first and last content rows hold content, and every content row lies between them. */
  lemma RowExtremes(img: RgbaImage, y: nat)
    requires y < img.height && RowHasContent(img, y)
    ensures true in ContentRows(img)
    ensures var rows := ContentRows(img);
      && FirstTrue(rows) <= LastTrue(rows) < img.height
      && RowHasContent(img, FirstTrue(rows)) && RowHasContent(img, LastTrue(rows))
      && forall y' | 0 <= y' < img.height && RowHasContent(img, y') :: FirstTrue(rows) <= y' <= LastTrue(rows)
  {
    var rows := ContentRows(img);
    assert rows[y];
    forall y' | 0 <= y' < img.height && RowHasContent(img, y') ensures FirstTrue(rows) <= y' <= LastTrue(rows) {
      assert rows[y'];
    }
  }

  /** For an image with content, `ContentBox` is its content bounds. */
  lemma ContentBoxIsBounds(img: RgbaImage, x: nat, y: nat)
    requires y < img.height && x < img.width && IsContent(img.rows[y][x])
    ensures true in ContentColumns(img) && true in ContentRows(img)
    ensures IsContentBounds(img, Some(ContentBox(img)))
  {
    assert ColumnHasContent(img, x) && RowHasContent(img, y);
    ColumnExtremes(img, x);
    RowExtremes(img, y);
    var cols, rows := ContentColumns(img), ContentRows(img);
    var minX, maxX, minY, maxY := FirstTrue(cols), LastTrue(cols), FirstTrue(rows), LastTrue(rows);
    assert ContentBox(img) == FrameRect(minX, minY, maxX - minX + 1, maxY - minY + 1);
    ExtremesBound(img, minX, maxX, minY, maxY);
  }

  /**
   * Every image has content bounds. With `ContentBoundsUnique`, they are
   * what `find_content_bounds` returns.
   */
  lemma ContentBoundsExist(img: RgbaImage)
    ensures exists bounds :: IsContentBounds(img, bounds)
  {
    if img.width == 0 && img.height == 0 {
      assert IsContentBounds(img, Some(FrameRect(0, 0, 1, 1)));
    } else if !HasContent(img) {
      assert IsContentBounds(img, None);
    } else {
      var y, x :| 0 <= y < img.height && 0 <= x < img.width && IsContent(img.rows[y][x]);
      ContentBoxIsBounds(img, x, y);
    }
  }

  /** The content pixel `(x, y)` was reached by a row-major scan stopped at `(sx, sy)`. */
  predicate Scanned(x: nat, y: nat, sx: nat, sy: nat) {
    y < sy || (y == sy && x < sx)
  }

  /** The running minima and maxima of `find_content_bounds`. */
  datatype Extent = Extent(minX: nat, minY: nat, maxX: nat, maxY: nat)

  /**
   * The loop state after scanning up to `(sx, sy)`: with no content seen,
   * the initial values; otherwise the extent spans the content seen, and
   * each of its four limits is attained by a content pixel (`w` holds them:
   * the pixels at the left, right, top and bottom edges).
   */
  ghost predicate ExtentSoFar(img: RgbaImage, e: Extent, found: bool, w: seq<(nat, nat)>, sx: nat, sy: nat) {
    && |w| == 4
    && (forall y, x | 0 <= y < img.height && 0 <= x < img.width && Scanned(x, y, sx, sy) && IsContent(img.rows[y][x]) ::
          found && e.minX <= x <= e.maxX && e.minY <= y <= e.maxY)
    && (!found ==> e == Extent(img.width, img.height, 0, 0))
    && (found ==>
          && (forall k | 0 <= k < 4 :: w[k].1 < img.height && w[k].0 < img.width && IsContent(img.rows[w[k].1][w[k].0]))
          && w[0].0 == e.minX && w[1].0 == e.maxX && w[2].1 == e.minY && w[3].1 == e.maxY)
  }

  /** The extent after content pixel `(x, y)`: minima and maxima updated with it. */
  function Include(e: Extent, x: nat, y: nat): Extent {
    Extent(if x < e.minX then x else e.minX, if y < e.minY then y else e.minY,
           if x > e.maxX then x else e.maxX, if y > e.maxY then y else e.maxY)
  }

  /** The edge witnesses after content pixel `(x, y)`: it replaces each limit it moves. */
  function IncludeWitness(w: seq<(nat, nat)>, e: Extent, found: bool, x: nat, y: nat): seq<(nat, nat)>
    requires |w| == 4
  {
    [if found && e.minX <= x then w[0] else (x, y),
     if found && x <= e.maxX then w[1] else (x, y),
     if found && e.minY <= y then w[2] else (x, y),
     if found && y <= e.maxY then w[3] else (x, y)]
  }

  /** Scanning a content pixel extends the extent to it. */
  lemma ScanContent(img: RgbaImage, e: Extent, found: bool, w: seq<(nat, nat)>, x: nat, y: nat)
    requires y < img.height && x < img.width && IsContent(img.rows[y][x])
    requires ExtentSoFar(img, e, found, w, x, y)
    ensures ExtentSoFar(img, Include(e, x, y), true, IncludeWitness(w, e, found, x, y), x + 1, y)
  {
  }

  /** Scanning a pixel that is not content changes nothing. */
  lemma ScanBlank(img: RgbaImage, e: Extent, found: bool, w: seq<(nat, nat)>, x: nat, y: nat)
    requires y < img.height && x < img.width && !IsContent(img.rows[y][x])
    requires ExtentSoFar(img, e, found, w, x, y)
    ensures ExtentSoFar(img, e, found, w, x + 1, y)
  {
  }

  /** A row scanned to its end is the start of the next row. */
  lemma ScanNextRow(img: RgbaImage, e: Extent, found: bool, w: seq<(nat, nat)>, y: nat)
    requires ExtentSoFar(img, e, found, w, img.width, y)
    ensures ExtentSoFar(img, e, found, w, 0, y + 1)
  {
  }

  /** The inner loop of `find_content_bounds` over row `y`. */
  method ScanRow(img: RgbaImage, y: nat, e0: Extent, ghost found0: bool, ghost w0: seq<(nat, nat)>)
    returns (e: Extent, ghost found: bool, ghost w: seq<(nat, nat)>)
    requires y < img.height
    requires ExtentSoFar(img, e0, found0, w0, 0, y)
    ensures ExtentSoFar(img, e, found, w, 0, y + 1)
  {
    e, found, w := e0, found0, w0;
    var x := 0;
    while x < img.width
      invariant 0 <= x <= img.width
      invariant ExtentSoFar(img, e, found, w, x, y)
    {
      var p := img.rows[y][x];
      if p.a > 10 {
        ScanContent(img, e, found, w, x, y);
        w := IncludeWitness(w, e, found, x, y);
        e := Extent(if x < e.minX then x else e.minX, if y < e.minY then y else e.minY,
                    if x > e.maxX then x else e.maxX, if y > e.maxY then y else e.maxY);
        found := true;
      } else {
        ScanBlank(img, e, found, w, x, y);
      }
      x := x + 1;
    }
    ScanNextRow(img, e, found, w, y);
  }

  /** `find_content_bounds`: the smallest box enclosing every pixel with alpha above 10. */
  method FindContentBounds(img: RgbaImage) returns (bounds: Option<FrameRect>)
    ensures IsContentBounds(img, bounds)
  {
    var e := Extent(img.width, img.height, 0, 0);
    ghost var found := false;
    ghost var w: seq<(nat, nat)> := [(0, 0), (0, 0), (0, 0), (0, 0)];
    var y := 0;
    while y < img.height
      invariant 0 <= y <= img.height
      invariant ExtentSoFar(img, e, found, w, 0, y)
    {
      e, found, w := ScanRow(img, y, e, found, w);
      y := y + 1;
    }
    if e.maxX >= e.minX && e.maxY >= e.minY {
      bounds := Some(FrameRect(e.minX, e.minY, e.maxX - e.minX + 1, e.maxY - e.minY + 1));
    } else {
      bounds := None;
    }
    if found {
      assert IsContent(img.rows[w[0].1][w[0].0]);
    } else {
      forall y', x' | 0 <= y' < img.height && 0 <= x' < img.width
        ensures !IsContent(img.rows[y'][x'])
      {
        assert Scanned(x', y', 0, img.height);
      }
    }
  }

  /** `u32::saturating_sub`. */
  function SaturatingSub(a: nat, b: nat): (d: nat)
    ensures b <= a ==> d + b == a
    ensures a < b ==> d == 0
  {
    if a >= b then a - b else 0
  }

  /** The offset that centres a span of `size` within `target`. */
  function CenteringOffset(target: nat, size: nat): nat {
    SaturatingSub(target, size) / 2
  }

  /**
   * The pixel at `(dx, dy)` of the centred image: content-box pixel
   * `(box.x + i, box.y + j)` lands at `(ox + i, oy + j)` when it exists in
   * the source; everything else is transparent.
   */
  function CenteredPixel(img: RgbaImage, box: FrameRect, ox: nat, oy: nat, dx: nat, dy: nat): Pixel {
    if ox <= dx < ox + box.width && oy <= dy < oy + box.height
       && box.x + (dx - ox) < img.width && box.y + (dy - oy) < img.height
    then img.rows[box.y + (dy - oy)][box.x + (dx - ox)]
    else TRANSPARENT
  }

  /** The image `center_content` builds for the content box `box`. */
  function Centered(img: RgbaImage, box: FrameRect, targetWidth: nat, targetHeight: nat): (r: RgbaImage)
    ensures r.width == targetWidth && r.height == targetHeight
  {
    var ox := CenteringOffset(targetWidth, box.width);
    var oy := CenteringOffset(targetHeight, box.height);
    Image(targetWidth, targetHeight,
      seq(targetHeight, dy requires 0 <= dy < targetHeight =>
        seq(targetWidth, dx requires 0 <= dx < targetWidth => CenteredPixel(img, box, ox, oy, dx, dy))))
  }

  /**
   * A box that fits the target is centred: the margin left of it is the
   * margin right of it, or one less (and likewise above and below).
   */
  lemma CenteredMargins(box: FrameRect, targetWidth: nat, targetHeight: nat)
    requires box.width <= targetWidth && box.height <= targetHeight
    ensures var ox := CenteringOffset(targetWidth, box.width);
      var right := targetWidth - box.width - ox;
      right == ox || right == ox + 1
    ensures var oy := CenteringOffset(targetHeight, box.height);
      var below := targetHeight - box.height - oy;
      below == oy || below == oy + 1
  {
  }

  /**
   * When the content box fits the target, centring moves every content
   * pixel by the same offset and loses none of them.
   */
  lemma CenteringKeepsContent(img: RgbaImage, box: FrameRect, targetWidth: nat, targetHeight: nat,
                              x: nat, y: nat)
    requires Encloses(img, box) && Inside(box, img.width, img.height)
    requires box.width <= targetWidth && box.height <= targetHeight
    requires y < img.height && x < img.width && IsContent(img.rows[y][x])
    ensures var ox := CenteringOffset(targetWidth, box.width);
      var oy := CenteringOffset(targetHeight, box.height);
      var r := Centered(img, box, targetWidth, targetHeight);
      && ox + (x - box.x) < targetWidth && oy + (y - box.y) < targetHeight
      && r.rows[oy + (y - box.y)][ox + (x - box.x)] == img.rows[y][x]
  {
  }

  /** Pixels outside the placed content box are transparent. */
  lemma CenteredOutsideIsTransparent(img: RgbaImage, box: FrameRect, targetWidth: nat, targetHeight: nat,
                                     dx: nat, dy: nat)
    requires dx < targetWidth && dy < targetHeight
    requires var ox := CenteringOffset(targetWidth, box.width);
      var oy := CenteringOffset(targetHeight, box.height);
      !(ox <= dx < ox + box.width && oy <= dy < oy + box.height)
    ensures Centered(img, box, targetWidth, targetHeight).rows[dy][dx] == TRANSPARENT
  {
  }

  /** The inner loop of `center_content`: copies one row of the content box into the target row. */
  method CopySpan(dst: seq<Pixel>, src: seq<Pixel>, srcX: nat, dstX: nat, count: nat) returns (out: seq<Pixel>)
    ensures |out| == |dst|
    ensures forall dx | 0 <= dx < |dst| ::
      out[dx] == if dstX <= dx < dstX + count && srcX + (dx - dstX) < |src| then src[srcX + (dx - dstX)] else dst[dx]
  {
    out := dst;
    var x := 0;
    while x < count
      invariant 0 <= x <= count && |out| == |dst|
      invariant forall dx | 0 <= dx < |dst| ::
        out[dx] == if dstX <= dx < dstX + x && srcX + (dx - dstX) < |src| then src[srcX + (dx - dstX)] else dst[dx]
    {
      if srcX + x < |src| && dstX + x < |out| {
        out := out[dstX + x := src[srcX + x]];
      }
      x := x + 1;
    }
  }

  /**
   * `center_content`: an image without content comes back unchanged;
   * otherwise its content box is copied into the middle of a transparent
   * `targetWidth` x `targetHeight` image.
   */
  method CenterContent(img: RgbaImage, targetWidth: nat, targetHeight: nat) returns (result: RgbaImage)
    ensures forall bounds | IsContentBounds(img, bounds) ::
      && (bounds.None? ==> result == img)
      && (bounds.Some? ==> result == Centered(img, bounds.value, targetWidth, targetHeight))
  {
    var bounds := FindContentBounds(img);
    forall b | IsContentBounds(img, b) ensures b == bounds {
      ContentBoundsUnique(img, b, bounds);
    }
    if bounds.None? {
      return img;
    }
    var box := bounds.value;
    var rows := seq(targetHeight, _ => seq(targetWidth, _ => TRANSPARENT));
    var ox := SaturatingSub(targetWidth, box.width) / 2;
    var oy := SaturatingSub(targetHeight, box.height) / 2;
    var y := 0;
    while y < box.height
      invariant 0 <= y <= box.height
      invariant |rows| == targetHeight
      invariant forall dy | 0 <= dy < targetHeight :: |rows[dy]| == targetWidth
      invariant forall dy, dx | 0 <= dy < targetHeight && 0 <= dx < targetWidth ::
        rows[dy][dx] == if dy < oy + y then CenteredPixel(img, box, ox, oy, dx, dy) else TRANSPARENT
    {
      var srcY := box.y + y;
      var dstY := oy + y;
      if srcY < img.height && dstY < targetHeight {
        var row := CopySpan(rows[dstY], img.rows[srcY], box.x, ox, box.width);
        rows := rows[dstY := row];
      }
      y := y + 1;
    }
    var centered := Centered(img, box, targetWidth, targetHeight);
    forall dy | 0 <= dy < targetHeight ensures rows[dy] == centered.rows[dy] {
      assert forall dx | 0 <= dx < targetWidth :: rows[dy][dx] == centered.rows[dy][dx];
    }
    result := Image(targetWidth, targetHeight, rows);
  }

  /** `get_typing_frame`: the extracted typing frames, taken cyclically. */
  function GetTypingFrame<T>(typingFrameBytes: seq<T>, frameIndex: nat): (r: Option<T>)
    ensures |typingFrameBytes| == |TYPING_FRAMES| && frameIndex < |TYPING_FRAMES| ==>
      r == Some(typingFrameBytes[frameIndex])
  {
    FrameAt(typingFrameBytes, frameIndex)
  }

  /** `get_idle_frame`: the extracted idle frames, taken cyclically. */
  function GetIdleFrame<T>(idleFrameBytes: seq<T>, frameIndex: nat): (r: Option<T>)
    ensures |idleFrameBytes| == |IDLE_FRAMES| && frameIndex < |IDLE_FRAMES| ==>
      r == Some(idleFrameBytes[frameIndex])
  {
    FrameAt(idleFrameBytes, frameIndex)
  }
}
