/**
 * The text-mode sprites of src/sprite.rs: three families of dog drawings
 * made of block and box-drawing characters (a 12x20 laptop scene, a 12x20
 * cartoon and an 11x19 pixel-art dog), and the frame selector that the
 * renderer calls with the animation state and frame number. Only the
 * pixel-art family is ever selected.
 */
module Sprite {
  /** A sprite: its rows, top to bottom, each a string of equal width. */
  type Sprite = seq<string>

  /** `sprite` has `height` rows of `width` characters each. */
  predicate HasShape(sprite: Sprite, height: nat, width: nat) {
    |sprite| == height && forall i | 0 <= i < |sprite| :: |sprite[i]| == width
  }

  /** The dog at its laptop, looking at the screen. */
  const FRAME_IDLE: Sprite := [
    "                    ",
    "       ▄▄███▄▄      ",
    "      █▀     ▀█     ",
    "     █  ◠   ◠  █    ",
    "     █    ▼    █    ",
    "      ▀▄▄▄▄▄▄▀      ",
    "     ▄█████████▄    ",
    "    █░░░░░░░░░░░█   ",
    "    █░┌───────┐░█   ",
    "    █░│ ▪▪▪▪▪ │░█   ",
    "    █░└───────┘░█   ",
    "   ▀▀▀▀▀▀▀▀▀▀▀▀▀▀▀  "
  ]

  /** Typing, left paw up. */
  const FRAME_TYPE_L: Sprite := [
    "        ♪           ",
    "       ▄▄███▄▄      ",
    "      █▀     ▀█     ",
    "     █  ●   ●  █    ",
    "     █    ▼    █    ",
    "      ▀▄▄▄▄▄▄▀      ",
    "     ▄█████████▄    ",
    "   ▄█░░░░░░░░░░░█   ",
    "    █░┌───────┐░█   ",
    "    █░│ ▪▪▪▪▪ │░█   ",
    "    █░└───────┘░█   ",
    "   ▀▀▀▀▀▀▀▀▀▀▀▀▀▀▀  "
  ]

  /** Typing, right paw up. */
  const FRAME_TYPE_R: Sprite := [
    "           ♫        ",
    "       ▄▄███▄▄      ",
    "      █▀     ▀█     ",
    "     █  ●   ●  █    ",
    "     █    ▼    █    ",
    "      ▀▄▄▄▄▄▄▀      ",
    "     ▄█████████▄    ",
    "    █░░░░░░░░░░░█▄  ",
    "    █░┌───────┐░█   ",
    "    █░│ ▪▪▪▪▪ │░█   ",
    "    █░└───────┘░█   ",
    "   ▀▀▀▀▀▀▀▀▀▀▀▀▀▀▀  "
  ]

  /** Typing with both paws. */
  const FRAME_TYPE_M: Sprite := [
    "      ♪   ♫         ",
    "       ▄▄███▄▄      ",
    "      █▀     ▀█     ",
    "     █  ◕   ◕  █    ",
    "     █    ▼    █    ",
    "      ▀▄▄‿▄▄▄▀      ",
    "     ▄█████████▄    ",
    "    █░░░░░░░░░░░█   ",
    "    █░┌───────┐░█   ",
    "    █░│▪▪▪▪▪▪▪│░█   ",
    "    █░└───────┘░█   ",
    "   ▀▀▀▀▀▀▀▀▀▀▀▀▀▀▀  "
  ]

  /** The cartoon dog, idle. */
  const CUTE_IDLE: Sprite := [
    "                    ",
    "      ╱▔▔▔▔▔╲       ",
    "     ╱ ˶ᵔ ᵕ ᵔ˶╲     ",
    "     ▏  ╰─╯   ▕     ",
    "      ╲_____╱       ",
    "     ┌┴─────┴┐      ",
    "    ┌┘░░░░░░░└┐     ",
    "    │░┌─────┐░│     ",
    "    │░│ === │░│     ",
    "    │░│ === │░│     ",
    "    │░└─────┘░│     ",
    "    └─────────┘     "
  ]

  /** The cartoon dog typing, left arm up. */
  const CUTE_TYPE1: Sprite := [
    "         ♪          ",
    "      ╱▔▔▔▔▔╲       ",
    "     ╱ ˶◕ ᵕ ◕˶╲     ",
    "     ▏  ╰▽╯   ▕     ",
    "      ╲_____╱       ",
    "    ╱┌┴─────┴┐      ",
    "    ┌┘░░░░░░░└┐     ",
    "    │░┌─────┐░│     ",
    "    │░│ =▪= │░│     ",
    "    │░│ === │░│     ",
    "    │░└─────┘░│     ",
    "    └─────────┘     "
  ]

  /** The cartoon dog typing, right arm up. */
  const CUTE_TYPE2: Sprite := [
    "          ♫         ",
    "      ╱▔▔▔▔▔╲       ",
    "     ╱ ˶◕ ᵕ ◕˶╲     ",
    "     ▏  ╰▽╯   ▕     ",
    "      ╲_____╱       ",
    "     ┌┴─────┴┐╲     ",
    "    ┌┘░░░░░░░└┐     ",
    "    │░┌─────┐░│     ",
    "    │░│ =▪= │░│     ",
    "    │░│ =▪= │░│     ",
    "    │░└─────┘░│     ",
    "    └─────────┘     "
  ]

  /** The blocky pixel-art dog, idle. */
  const PIXEL_IDLE: Sprite := [
    "      ▄████▄       ",
    "     ██░░░░██      ",
    "    ██ ▀  ▀ ██     ",
    "    ██  ▄▄  ██     ",
    "     ████████      ",
    "    ██████████     ",
    "   ██▒▒▒▒▒▒▒▒██    ",
    "   ██▒██████▒██    ",
    "   ██▒██▓▓██▒██    ",
    "   ██▒██████▒██    ",
    "   ██▀▀▀▀▀▀▀▀██    "
  ]

  /** The blocky dog typing, a note on the right. */
  const PIXEL_TYPE1: Sprite := [
    "      ▄████▄   ♪   ",
    "     ██░░░░██      ",
    "    ██ ●  ● ██     ",
    "    ██  ▄▄  ██     ",
    "     ████████      ",
    "   ▄██████████     ",
    "   ██▒▒▒▒▒▒▒▒██    ",
    "   ██▒██████▒██    ",
    "   ██▒██▓▓██▒██    ",
    "   ██▒██████▒██    ",
    "   ██▀▀▀▀▀▀▀▀██    "
  ]

  /** The blocky dog typing, a note on the left. */
  const PIXEL_TYPE2: Sprite := [
    "  ♫   ▄████▄       ",
    "     ██░░░░██      ",
    "    ██ ●  ● ██     ",
    "    ██  ▄▄  ██     ",
    "     ████████      ",
    "    ██████████▄    ",
    "   ██▒▒▒▒▒▒▒▒██    ",
    "   ██▒██████▒██    ",
    "   ██▒██▓▓██▒██    ",
    "   ██▒██████▒██    ",
    "   ██▀▀▀▀▀▀▀▀██    "
  ]

  /**
   * `get_frame`: the idle sprite when not typing; when typing, the second
   * typing sprite on every frame number that is 1 modulo 3 and the first
   * otherwise. Whatever it returns is an 11x19 sprite.
   */
  function GetFrame(isTyping: bool, frameNum: nat): (r: Sprite)
    ensures HasShape(r, 11, 19)
  {
    PixelShapes();
    if isTyping then
      match frameNum % 3
      case 0 => PIXEL_TYPE1
      case 1 => PIXEL_TYPE2
      case _ => PIXEL_TYPE1
    else PIXEL_IDLE
  }

  /** The laptop and cartoon sprites are 12 rows of 20 characters. */
  lemma FrameShapes()
    ensures HasShape(FRAME_IDLE, 12, 20) && HasShape(FRAME_TYPE_L, 12, 20)
    ensures HasShape(FRAME_TYPE_R, 12, 20) && HasShape(FRAME_TYPE_M, 12, 20)
    ensures HasShape(CUTE_IDLE, 12, 20) && HasShape(CUTE_TYPE1, 12, 20) && HasShape(CUTE_TYPE2, 12, 20)
  {
  }

  /** The pixel-art sprites are 11 rows of 19 characters. */
  lemma PixelShapes()
    ensures HasShape(PIXEL_IDLE, 11, 19) && HasShape(PIXEL_TYPE1, 11, 19) && HasShape(PIXEL_TYPE2, 11, 19)
  {
  }

  /** The three pixel-art sprites are pairwise different drawings. */
  lemma PixelSpritesDistinct()
    ensures PIXEL_IDLE != PIXEL_TYPE1 && PIXEL_IDLE != PIXEL_TYPE2 && PIXEL_TYPE1 != PIXEL_TYPE2
  {
    assert PIXEL_IDLE[0][15] != PIXEL_TYPE1[0][15];
    assert PIXEL_IDLE[0][2] != PIXEL_TYPE2[0][2];
    assert PIXEL_TYPE1[0][2] != PIXEL_TYPE2[0][2];
  }

  /** Not typing, the frame number is ignored and the idle sprite is shown. */
  lemma IdleFrameIsFixed(frameNum: nat)
    ensures GetFrame(false, frameNum) == PIXEL_IDLE
  {
  }

  /**
   * Typing, the second typing sprite is shown exactly on frame numbers
   * that are 1 modulo 3, the first one on all others, and the idle sprite
   * never.
   */
  lemma TypingFrameSelection(frameNum: nat)
    ensures GetFrame(true, frameNum) == PIXEL_TYPE2 <==> frameNum % 3 == 1
    ensures GetFrame(true, frameNum) == PIXEL_TYPE1 <==> frameNum % 3 != 1
    ensures GetFrame(true, frameNum) != PIXEL_IDLE
  {
    PixelSpritesDistinct();
  }

  /** The typing animation repeats every three frames. */
  lemma {:induction false} TypingFramePeriodic(frameNum: nat)
    ensures GetFrame(true, frameNum + 3) == GetFrame(true, frameNum)
  {
    assert (frameNum + 3) % 3 == frameNum % 3;
  }
}
