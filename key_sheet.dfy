/**
 * The key sprite sheet of src/key_spritesheet.rs: a grid of 64x64 key
 * images, ten per row, holding the digits on row 0 and the letters A-Z on
 * rows 1 to 3. A key name is mapped to its grid cell, the cell is cut out of
 * the sheet when it lies inside it, and sprites are looked up by upper-cased
 * key name.
 *
 * The sheet itself is loaded from a file; here it is its optional
 * dimensions. Cutting, background removal and PNG encoding of a cell are
 * represented by the cell's rectangle.
 */
module KeySheet {
  import opened Wrappers
  import opened Raster

  const KEY_FRAME_WIDTH: nat := 64
  const KEY_FRAME_HEIGHT: nat := 64
  /** Keys per row of the sheet. */
  const COLUMNS: nat := 10

  /** The keys in grid order: cell `(row, col)` holds `GRID[COLUMNS * row + col]`. */
  const GRID: string := "0123456789ABCDEFGHIJKLMNOPQRSTUVWXYZ"

  /** Upper case of one character (ASCII letters only). */
  function UpperChar(c: char): (u: char)
    ensures 'a' <= c <= 'z' ==> 'A' <= u <= 'Z' && u as int == c as int - 32
    ensures !('a' <= c <= 'z') ==> u == c
  {
    if 'a' <= c <= 'z' then (c as int - 32) as char else c
  }

  /** `str::to_uppercase`, restricted to ASCII letters. */
  function ToUpper(s: string): (u: string)
    ensures |u| == |s|
    ensures forall i | 0 <= i < |s| :: u[i] == UpperChar(s[i])
  {
    seq(|s|, i requires 0 <= i < |s| => UpperChar(s[i]))
  }

  /** Upper-casing twice is upper-casing once. */
  lemma ToUpperIdempotent(s: string)
    ensures ToUpper(ToUpper(s)) == ToUpper(s)
  {
  }

  /**
   * `get_key_position`: the grid cell of the first character of the
   * upper-cased key; digits on row 0, A-J on row 1, K-T on row 2, U-Z on
   * row 3, anything else (and the empty key) has no cell.
   */
  function GetKeyPosition(key: string): (pos: Option<(nat, nat)>)
    ensures pos.Some? ==> pos.value.0 < 4 && pos.value.1 < COLUMNS
    ensures |key| == 0 ==> pos.None?
  {
    var keyUpper := ToUpper(key);
    if |keyUpper| == 0 then None
    else
      var first := keyUpper[0];
      if '0' <= first <= '9' then Some((0, first as nat - '0' as nat))
      else if 'A' <= first <= 'J' then Some((1, first as nat - 'A' as nat))
      else if 'K' <= first <= 'T' then Some((2, first as nat - 'K' as nat))
      else if 'U' <= first <= 'Z' then Some((3, first as nat - 'U' as nat))
      else None
  }

  /** A character that has a cell in the grid. */
  predicate InGrid(c: char) {
    '0' <= c <= '9' || 'A' <= c <= 'Z'
  }

  /**
   * The layout agrees with `GRID`: a key has a cell exactly when its first
   * upper-cased character is in the grid, and that cell holds the character.
   */
  lemma KeyPositionFollowsGrid(key: string)
    ensures GetKeyPosition(key).Some? <==> |key| > 0 && InGrid(UpperChar(key[0]))
    ensures GetKeyPosition(key).Some? ==>
      var (row, col) := GetKeyPosition(key).value;
      COLUMNS * row + col < |GRID| && GRID[COLUMNS * row + col] == UpperChar(key[0])
  {
  }

  /** The character held by cell `(row, col)`, computed row by row. */
  function CellChar(row: nat, col: nat): char
    requires row < 4 && col < COLUMNS
  {
    if row == 0 then ('0' as nat + col) as char
    else if row == 1 then ('A' as nat + col) as char
    else if row == 2 then ('K' as nat + col) as char
    else ('U' as nat + col) as char
  }

  /** The cell found for a key holds the key's first upper-cased character. */
  lemma PositionHoldsKey(key: string)
    requires GetKeyPosition(key).Some?
    ensures CellChar(GetKeyPosition(key).value.0, GetKeyPosition(key).value.1) == UpperChar(key[0])
  {
  }

  /** Keys with the same first upper-cased character share a cell, and only they do. */
  lemma KeyPositionInjective(a: string, b: string)
    requires GetKeyPosition(a).Some? && GetKeyPosition(b).Some?
    ensures GetKeyPosition(a) == GetKeyPosition(b) <==> UpperChar(a[0]) == UpperChar(b[0])
  {
    PositionHoldsKey(a);
    PositionHoldsKey(b);
  }

  /** Only the first character matters, and its case does not. */
  lemma KeyPositionCaseInsensitive(a: string, b: string)
    requires |a| > 0 && |b| > 0 && UpperChar(a[0]) == UpperChar(b[0])
    ensures GetKeyPosition(a) == GetKeyPosition(b)
  {
  }

  /** Every cell of the grid is the position of the one-character key it holds. */
  lemma GridCellsArePositions(row: nat, col: nat)
    requires col < COLUMNS && COLUMNS * row + col < |GRID|
    ensures GetKeyPosition([GRID[COLUMNS * row + col]]) == Some((row, col))
  {
    if row == 0 {
    } else if row == 1 {
    } else if row == 2 {
    } else {
      assert row == 3;
    }
  }

  /**
   * `extract_frame`'s bounds check: the 64x64 cell at `(row, col)` is cut
   * out only when it lies inside the sheet.
   */
  function ExtractFrame(sheetWidth: nat, sheetHeight: nat, row: nat, col: nat): (r: Option<FrameRect>)
    ensures r.Some? <==>
      (col + 1) * KEY_FRAME_WIDTH <= sheetWidth && (row + 1) * KEY_FRAME_HEIGHT <= sheetHeight
    ensures r.Some? ==> Inside(r.value, sheetWidth, sheetHeight)
    ensures r.Some? ==> r.value.width == KEY_FRAME_WIDTH && r.value.height == KEY_FRAME_HEIGHT
  {
    var x := col * KEY_FRAME_WIDTH;
    var y := row * KEY_FRAME_HEIGHT;
    if x + KEY_FRAME_WIDTH > sheetWidth || y + KEY_FRAME_HEIGHT > sheetHeight then None
    else Some(FrameRect(x, y, KEY_FRAME_WIDTH, KEY_FRAME_HEIGHT))
  }

  /** Frames cut from different cells never share a pixel. */
  lemma ExtractedFramesDisjoint(w: nat, h: nat, r1: nat, c1: nat, r2: nat, c2: nat)
    requires ExtractFrame(w, h, r1, c1).Some? && ExtractFrame(w, h, r2, c2).Some?
    requires (r1, c1) != (r2, c2)
    ensures !Overlap(ExtractFrame(w, h, r1, c1).value, ExtractFrame(w, h, r2, c2).value)
  {
    if c1 < c2 {
      assert c1 * KEY_FRAME_WIDTH + KEY_FRAME_WIDTH <= c2 * KEY_FRAME_WIDTH;
    } else if c2 < c1 {
      assert c2 * KEY_FRAME_WIDTH + KEY_FRAME_WIDTH <= c1 * KEY_FRAME_WIDTH;
    } else if r1 < r2 {
      assert r1 * KEY_FRAME_HEIGHT + KEY_FRAME_HEIGHT <= r2 * KEY_FRAME_HEIGHT;
    } else {
      assert r2 * KEY_FRAME_HEIGHT + KEY_FRAME_HEIGHT <= r1 * KEY_FRAME_HEIGHT;
    }
  }

  /** The frame cut for key name `name` from a `w` x `h` sheet, if any. */
  function KeyFrame(w: nat, h: nat, name: string): Option<FrameRect>
  {
    match GetKeyPosition(name)
    case None => None
    case Some((row, col)) => ExtractFrame(w, h, row, col)
  }

  /** The names `extract_all_key_frames` tries: one digit or one upper-case letter. */
  predicate IsKeyName(name: string) {
    |name| == 1 && InGrid(name[0])
  }

  /** `name` is a single character in `first..=last`. */
  predicate InRange(name: string, first: char, last: char) {
    |name| == 1 && first <= name[0] <= last
  }

  /** `name` is one of the names from `first` up to, not including, code `next` that has a frame. */
  predicate Wanted(w: nat, h: nat, first: char, last: char, next: int, name: string) {
    InRange(name, first, last) && name[0] as int < next && KeyFrame(w, h, name).Some?
  }

  /**
   * `result` is `frames` with the frame of every wanted name below code
   * `next` inserted, and nothing else changed.
   */
  ghost predicate Filled(result: map<string, FrameRect>, frames: map<string, FrameRect>,
                   w: nat, h: nat, first: char, last: char, next: int)
  {
    (forall name :: name in result <==> name in frames || Wanted(w, h, first, last, next, name)) &&
    (forall name | name in result ::
      result[name] == if Wanted(w, h, first, last, next, name) then KeyFrame(w, h, name).value else frames[name])
  }

  /** Raising the bound past code `next` adds exactly the name with that code, if it has a frame. */
  lemma WantedStep(w: nat, h: nat, first: char, last: char, next: int, name: string)
    requires first as int <= next <= last as int && last < 128 as char
    ensures Wanted(w, h, first, last, next + 1, name) <==>
      Wanted(w, h, first, last, next, name) || (name == [next as char] && KeyFrame(w, h, name).Some?)
  {
    if |name| == 1 && name[0] as int == next {
      assert name == [name[0]];
    }
  }

  /** One iteration of the loop: the name with code `next` is inserted when it has a frame. */
  lemma FilledStep(result: map<string, FrameRect>, frames: map<string, FrameRect>,
                   w: nat, h: nat, first: char, last: char, next: int)
    requires first as int <= next <= last as int && last < 128 as char
    requires Filled(result, frames, w, h, first, last, next)
    ensures var key := [next as char];
      Filled(if KeyFrame(w, h, key).Some? then result[key := KeyFrame(w, h, key).value] else result,
             frames, w, h, first, last, next + 1)
  {
    var key := [next as char];
    var frame := KeyFrame(w, h, key);
    var updated := if frame.Some? then result[key := frame.value] else result;
    forall name
      ensures name in updated <==> name in frames || Wanted(w, h, first, last, next + 1, name)
    {
      WantedStep(w, h, first, last, next, name);
    }
    forall name | name in updated
      ensures updated[name] ==
        if Wanted(w, h, first, last, next + 1, name) then KeyFrame(w, h, name).value else frames[name]
    {
      WantedStep(w, h, first, last, next, name);
    }
  }

  /**
   * One `for` loop of `extract_all_key_frames`: for every character from
   * `first` to `last`, the frame of its one-character name is inserted into
   * the map when its cell lies inside the sheet.
   */
  method InsertKeyFrames(frames: map<string, FrameRect>, w: nat, h: nat, first: char, last: char)
    returns (result: map<string, FrameRect>)
    requires first <= last < 128 as char
    ensures forall name :: name in result <==>
      name in frames || (InRange(name, first, last) && KeyFrame(w, h, name).Some?)
    ensures forall name | name in result ::
      result[name] ==
        if InRange(name, first, last) && KeyFrame(w, h, name).Some? then KeyFrame(w, h, name).value
        else frames[name]
  {
    result := frames;
    var next := first as int;
    while next <= last as int
      invariant first as int <= next <= last as int + 1
      invariant Filled(result, frames, w, h, first, last, next)
    {
      FilledStep(result, frames, w, h, first, last, next);
      var key := [next as char];
      var pos := GetKeyPosition(key);
      if pos.Some? {
        var data := ExtractFrame(w, h, pos.value.0, pos.value.1);
        if data.Some? {
          result := result[key := data.value];
        }
      }
      next := next + 1;
    }
    assert forall name :: Wanted(w, h, first, last, next, name) <==>
      InRange(name, first, last) && KeyFrame(w, h, name).Some?;
  }

  /**
   * `extract_all_key_frames`: without a sheet, no frames; with one, a frame
   * for exactly those digit and letter names whose cell lies inside it.
   */
  method ExtractAllKeyFrames(sheet: Option<(nat, nat)>) returns (frames: map<string, FrameRect>)
    ensures sheet.None? ==> frames == map[]
    ensures sheet.Some? ==> forall name ::
      name in frames <==> IsKeyName(name) && KeyFrame(sheet.value.0, sheet.value.1, name).Some?
    ensures sheet.Some? ==> forall name | name in frames ::
      frames[name] == KeyFrame(sheet.value.0, sheet.value.1, name).value
  {
    frames := map[];
    if sheet.None? {
      return;
    }
    var (w, h) := sheet.value;
    frames := InsertKeyFrames(frames, w, h, '0', '9');
    frames := InsertKeyFrames(frames, w, h, 'A', 'Z');
  }

  /** A sheet of at least 640x256 pixels holds a frame for every digit and letter. */
  lemma FullSheetHasEveryKey(w: nat, h: nat, name: string)
    requires w >= COLUMNS * KEY_FRAME_WIDTH && h >= 4 * KEY_FRAME_HEIGHT
    requires IsKeyName(name)
    ensures KeyFrame(w, h, name).Some?
  {
  }

  /** `get_key_sprite`: the frame stored under the upper-cased key. */
  function GetKeySprite<V>(frames: map<string, V>, key: string): (r: Option<V>)
    ensures r.Some? <==> ToUpper(key) in frames
    ensures r.Some? ==> r.value == frames[ToUpper(key)]
  {
    var keyUpper := ToUpper(key);
    if keyUpper in frames then Some(frames[keyUpper]) else None
  }

  /** Keys that upper-case alike get the same sprite. */
  lemma KeySpriteCaseInsensitive<V>(frames: map<string, V>, a: string, b: string)
    requires ToUpper(a) == ToUpper(b)
    ensures GetKeySprite(frames, a) == GetKeySprite(frames, b)
  {
  }

  /**
   * Against the frames of a sheet, a key has a sprite exactly when it is
   * one character whose upper case is a digit or letter whose cell fits.
   */
  lemma KeySpriteFromSheet(frames: map<string, FrameRect>, w: nat, h: nat, key: string)
    requires forall name :: name in frames <==> IsKeyName(name) && KeyFrame(w, h, name).Some?
    ensures GetKeySprite(frames, key).Some? <==>
      |key| == 1 && InGrid(UpperChar(key[0])) && KeyFrame(w, h, key).Some?
  {
    var u := ToUpper(key);
    if |key| == 1 {
      KeyPositionCaseInsensitive(u, key);
    }
  }
}
