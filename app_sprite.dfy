/**
 * The frame selector of src/app/sprite.rs, the current application's copy
 * of the pixel-art dog: its own three 11x19 sprites and the same
 * `frame_num % 3` choice between them. The lemmas show that both are
 * identical to those of src/sprite.rs, so every property proved there holds
 * here.
 */
module AppSprite {
  import Sprite

  /** The blocky pixel-art dog, idle. */
  const PIXEL_IDLE: Sprite.Sprite := [
    "      ▄████▄       ",
    "     ██░░░░██      ",
    "    ██ ▀  ▀ ██     ",
    "    ██  ▄▄  ██     ",
    "     ████████      ",
    "    ██████████     ",
    "   ██▒▒▒▒▒▒▒▒██    ",
    "   ██▒██████▒██    ",
    "   ██▒██▓▓██▒██    ",
    "   ██▒██████▒██    ",
    "   ██▀▀▀▀▀▀▀▀██    "
  ]

  /** The blocky dog typing, a note on the right. */
  const PIXEL_TYPE1: Sprite.Sprite := [
    "      ▄████▄   ♪   ",
    "     ██░░░░██      ",
    "    ██ ●  ● ██     ",
    "    ██  ▄▄  ██     ",
    "     ████████      ",
    "   ▄██████████     ",
    "   ██▒▒▒▒▒▒▒▒██    ",
    "   ██▒██████▒██    ",
    "   ██▒██▓▓██▒██    ",
    "   ██▒██████▒██    ",
    "   ██▀▀▀▀▀▀▀▀██    "
  ]

  /** The blocky dog typing, a note on the left. */
  const PIXEL_TYPE2: Sprite.Sprite := [
    "  ♫   ▄████▄       ",
    "     ██░░░░██      ",
    "    ██ ●  ● ██     ",
    "    ██  ▄▄  ██     ",
    "     ████████      ",
    "    ██████████▄    ",
    "   ██▒▒▒▒▒▒▒▒██    ",
    "   ██▒██████▒██    ",
    "   ██▒██▓▓██▒██    ",
    "   ██▒██████▒██    ",
    "   ██▀▀▀▀▀▀▀▀██    "
  ]

  /** The three sprites are those of the first selector, row for row. */
  lemma SameSprites()
    ensures PIXEL_IDLE == Sprite.PIXEL_IDLE
    ensures PIXEL_TYPE1 == Sprite.PIXEL_TYPE1
    ensures PIXEL_TYPE2 == Sprite.PIXEL_TYPE2
  {
  }

  /**
   * `get_frame`: picks among this file's sprites exactly as the first
   * selector does, so it shows the idle sprite when not typing, the second
   * typing sprite on frame numbers 1 modulo 3, the first otherwise, and
   * repeats every three frames.
   */
  function GetFrame(isTyping: bool, frameNum: nat): (r: Sprite.Sprite)
    ensures r == Sprite.GetFrame(isTyping, frameNum)
    ensures Sprite.HasShape(r, 11, 19)
  {
    SameSprites();
    if isTyping then
      match frameNum % 3
      case 0 => PIXEL_TYPE1
      case 1 => PIXEL_TYPE2
      case _ => PIXEL_TYPE1
    else PIXEL_IDLE
  }

  /** The selection rule, carried over from the first selector. */
  lemma FrameSelection(frameNum: nat)
    ensures GetFrame(false, frameNum) == PIXEL_IDLE
    ensures GetFrame(true, frameNum) == PIXEL_TYPE2 <==> frameNum % 3 == 1
    ensures GetFrame(true, frameNum) == PIXEL_TYPE1 <==> frameNum % 3 != 1
    ensures GetFrame(true, frameNum) != PIXEL_IDLE
    ensures GetFrame(true, frameNum + 3) == GetFrame(true, frameNum)
  {
    SameSprites();
    Sprite.TypingFrameSelection(frameNum);
    Sprite.TypingFramePeriodic(frameNum);
  }
}
