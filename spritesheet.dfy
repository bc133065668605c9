/**
 * The first sprite sheet of src/spritesheet.rs: a 1024x1040 sheet holding
 * ten 204x346 typing frames in two rows of five, and below them three
 * 341x346 idle frames. Frames are cleared of their background
 * (`Raster.RemoveBackground`) and picked cyclically by the renderer.
 *
 * Loading the sheet, cropping and PNG encoding are outside this model; the
 * extracted frames are a parameter of the lookups.
 */
module Sheet {
  import opened Wrappers
  import opened Raster

  /** 1024 / 5, rounded down. */
  const FRAME_WIDTH: nat := 204
  /** 1040 / 3, rounded down. */
  const FRAME_HEIGHT: nat := 346
  /** 1024 / 3, rounded down. */
  const IDLE_FRAME_WIDTH: nat := 341
  const SHEET_WIDTH: nat := 1024
  const SHEET_HEIGHT: nat := 1040

  const TYPING_FRAMES: seq<FrameRect> := [
    FrameRect(0, 0, FRAME_WIDTH, FRAME_HEIGHT),
    FrameRect(FRAME_WIDTH, 0, FRAME_WIDTH, FRAME_HEIGHT),
    FrameRect(FRAME_WIDTH * 2, 0, FRAME_WIDTH, FRAME_HEIGHT),
    FrameRect(FRAME_WIDTH * 3, 0, FRAME_WIDTH, FRAME_HEIGHT),
    FrameRect(FRAME_WIDTH * 4, 0, FRAME_WIDTH, FRAME_HEIGHT),
    FrameRect(0, FRAME_HEIGHT, FRAME_WIDTH, FRAME_HEIGHT),
    FrameRect(FRAME_WIDTH, FRAME_HEIGHT, FRAME_WIDTH, FRAME_HEIGHT),
    FrameRect(FRAME_WIDTH * 2, FRAME_HEIGHT, FRAME_WIDTH, FRAME_HEIGHT),
    FrameRect(FRAME_WIDTH * 3, FRAME_HEIGHT, FRAME_WIDTH, FRAME_HEIGHT),
    FrameRect(FRAME_WIDTH * 4, FRAME_HEIGHT, FRAME_WIDTH, FRAME_HEIGHT)
  ]

  const IDLE_FRAMES: seq<FrameRect> := [
    FrameRect(0, FRAME_HEIGHT * 2, IDLE_FRAME_WIDTH, FRAME_HEIGHT),
    FrameRect(IDLE_FRAME_WIDTH, FRAME_HEIGHT * 2, IDLE_FRAME_WIDTH, FRAME_HEIGHT),
    FrameRect(IDLE_FRAME_WIDTH * 2, FRAME_HEIGHT * 2, IDLE_FRAME_WIDTH, FRAME_HEIGHT)
  ]

  /** Typing frame `i` is the 204x346 cell `(i mod 5, i div 5)`: two rows of five. */
  lemma TypingLayout(i: nat)
    requires i < |TYPING_FRAMES|
    ensures TYPING_FRAMES[i] ==
      FrameRect(FRAME_WIDTH * (i % 5), FRAME_HEIGHT * (i / 5), FRAME_WIDTH, FRAME_HEIGHT)
  {
    if i == 0 {} else if i == 1 {} else if i == 2 {} else if i == 3 {} else if i == 4 {}
    else if i == 5 {} else if i == 6 {} else if i == 7 {} else if i == 8 {} else {}
  }

  /** Idle frame `i` is the 341x346 cell `i` of the third row. */
  lemma IdleLayout(i: nat)
    requires i < |IDLE_FRAMES|
    ensures IDLE_FRAMES[i] == FrameRect(IDLE_FRAME_WIDTH * i, FRAME_HEIGHT * 2, IDLE_FRAME_WIDTH, FRAME_HEIGHT)
  {
    if i == 0 {} else if i == 1 {} else {}
  }

  /**
   * Every frame lies in the 1024x1040 sheet (5 * 204, 3 * 341 <= 1024 and
   * 3 * 346 <= 1040), no two frames share a pixel, and the idle row lies
   * below both typing rows.
   */
  lemma FramesFitSheet(i: nat, j: nat)
    requires i < |TYPING_FRAMES| && j < |IDLE_FRAMES|
    ensures Inside(TYPING_FRAMES[i], SHEET_WIDTH, SHEET_HEIGHT)
    ensures Inside(IDLE_FRAMES[j], SHEET_WIDTH, SHEET_HEIGHT)
    ensures !Overlap(TYPING_FRAMES[i], IDLE_FRAMES[j])
  {
    TypingLayout(i);
    IdleLayout(j);
  }

  /** Distinct typing frames do not overlap. */
  lemma TypingFramesDisjoint(i: nat, j: nat)
    requires i < |TYPING_FRAMES| && j < |TYPING_FRAMES| && i != j
    ensures !Overlap(TYPING_FRAMES[i], TYPING_FRAMES[j])
  {
    TypingLayout(i);
    TypingLayout(j);
    var ci, cj := i % 5, j % 5;
    if ci < cj {
      assert FRAME_WIDTH * ci + FRAME_WIDTH <= FRAME_WIDTH * cj;
    } else if cj < ci {
      assert FRAME_WIDTH * cj + FRAME_WIDTH <= FRAME_WIDTH * ci;
    } else {
      assert i / 5 != j / 5;
    }
  }

  /** Distinct idle frames do not overlap. */
  lemma IdleFramesDisjoint(i: nat, j: nat)
    requires i < |IDLE_FRAMES| && j < |IDLE_FRAMES| && i != j
    ensures !Overlap(IDLE_FRAMES[i], IDLE_FRAMES[j])
  {
    IdleLayout(i);
    IdleLayout(j);
  }

  /** `get_typing_frame`: the extracted typing frames, taken cyclically. */
  function GetTypingFrame<T>(typingFrameBytes: seq<T>, frameIndex: nat): (r: Option<T>)
    ensures |typingFrameBytes| == |TYPING_FRAMES| ==>
      r == Some(typingFrameBytes[frameIndex % 10])
    ensures |typingFrameBytes| == |TYPING_FRAMES| && frameIndex < |TYPING_FRAMES| ==>
      r == Some(typingFrameBytes[frameIndex])
  {
    FrameAt(typingFrameBytes, frameIndex)
  }

  /** `get_idle_frame`: the extracted idle frames, taken cyclically. */
  function GetIdleFrame<T>(idleFrameBytes: seq<T>, frameIndex: nat): (r: Option<T>)
    ensures |idleFrameBytes| == |IDLE_FRAMES| ==>
      r == Some(idleFrameBytes[frameIndex % 3])
    ensures |idleFrameBytes| == |IDLE_FRAMES| && frameIndex < |IDLE_FRAMES| ==>
      r == Some(idleFrameBytes[frameIndex])
  {
    FrameAt(idleFrameBytes, frameIndex)
  }
}
