/**
 * The earlier animation controller of src/app.rs: the same Idle/Typing
 * machine as the current one, without a text trace or effects; it only
 * remembers the last key, unfiltered, and redraws when that key changes.
 *
 * `Instant::now()` is an explicit `now` (milliseconds; the three reads in
 * `new` and the two in `on_key` are taken to return the same instant) and
 * the random idle frame is a value supplied by the caller.
 */
module LegacyApp {
  import opened Wrappers
  import opened Timing

  /** Terminal dimensions (columns, rows). */
  type TerminalSize = (nat, nat)

  /** What an image redraw shows: terminal size, state, active frame and last key. */
  datatype View = View(size: TerminalSize, state: Option<AnimationState>, frame: nat, key: Option<string>)

  class App {
    var animationState: AnimationState
    var typingFrame: nat
    var idleFrame: nat
    var lastKeypressTime: nat
    var lastKey: Option<string>
    var lastTypingFrameTime: nat
    var lastIdleFrameTime: nat
    var shouldQuit: bool
    var scanlineOffset: nat
    var frameCount: nat
    var lastRenderedState: Option<AnimationState>
    var lastRenderedFrame: nat
    var lastRenderedKey: Option<string>
    var lastTerminalSize: TerminalSize

    /** The controller's invariant: the counters stay in range. */
    ghost predicate Valid()
      reads this
    {
      && typingFrame < TYPING_FRAME_COUNT
      && idleFrame < IDLE_FRAME_COUNT
      && scanlineOffset < SCANLINE_PERIOD
      && frameCount < U64_MODULUS
    }

    /** The frame index of the current state. */
    function CurrentFrame(): nat
      reads this
    {
      match animationState
      case Idle => idleFrame
      case Typing => typingFrame
    }

    /** What a redraw at `size` would show now. */
    function CurrentView(size: TerminalSize): View
      reads this
    {
      View(size, Some(animationState), CurrentFrame(), lastKey)
    }

    /** What the last redraw showed. */
    function RenderedView(): View
      reads this
    {
      View(lastTerminalSize, lastRenderedState, lastRenderedFrame, lastRenderedKey)
    }

    /** `App::new`: Idle, counters zeroed, all timers at `now`, no key, nothing rendered. */
    constructor(now: nat)
      ensures Valid()
      ensures animationState == Idle && typingFrame == 0 && idleFrame == 0
      ensures lastKeypressTime == now && lastTypingFrameTime == now && lastIdleFrameTime == now
      ensures lastKey == None && !shouldQuit && scanlineOffset == 0 && frameCount == 0
      ensures lastRenderedState == None && lastRenderedFrame == 0
      ensures lastRenderedKey == None && lastTerminalSize == (0, 0)
      ensures forall size :: NeedsImageRedraw(size)
    {
      animationState := Idle;
      typingFrame := 0;
      idleFrame := 0;
      lastKeypressTime := now;
      lastKey := None;
      lastTypingFrameTime := now;
      lastIdleFrameTime := now;
      shouldQuit := false;
      scanlineOffset := 0;
      frameCount := 0;
      lastRenderedState := None;
      lastRenderedFrame := 0;
      lastRenderedKey := None;
      lastTerminalSize := (0, 0);
    }

    /**
     * `on_key`: every key, modifiers included, becomes the last key and
     * records the time; the controller enters Typing, restarting the typing
     * frames only when it comes from Idle.
     */
    method OnKey(key: string, now: nat)
      requires Valid()
      modifies this`lastKey, this`lastKeypressTime, this`animationState, this`typingFrame,
        this`lastTypingFrameTime
      ensures Valid()
      ensures lastKey == Some(key) && lastKeypressTime == now
      ensures animationState == Typing
      ensures typingFrame == (if old(animationState) == Typing then old(typingFrame) else 0)
      ensures lastTypingFrameTime == (if old(animationState) == Typing then old(lastTypingFrameTime) else now)
    {
      lastKey := Some(key);
      lastKeypressTime := now;
      if animationState != Typing {
        animationState := Typing;
        typingFrame := 0;
        lastTypingFrameTime := now;
      }
    }

    /**
     * `tick`: advances the frame and scanline counters; in Typing, advances
     * the typing frame every 250 ms and returns to Idle (at the supplied
     * random idle frame) once 3 s have passed since the last key; in Idle,
     * advances the idle frame every 10 s.
     */
    method Tick(now: nat, idlePick: nat)
      requires Valid()
      requires idlePick < IDLE_FRAME_COUNT
      modifies this`frameCount, this`scanlineOffset, this`typingFrame, this`lastTypingFrameTime,
        this`animationState, this`idleFrame, this`lastIdleFrameTime
      ensures Valid()
      ensures frameCount == WrappingIncrement(old(frameCount))
      ensures scanlineOffset == NextScanline(frameCount, old(scanlineOffset))
      ensures old(animationState) == Typing ==>
        var advance := Elapsed(now, old(lastTypingFrameTime)) >= TYPING_ANIMATION_MS;
        var linger := Elapsed(now, old(lastKeypressTime)) >= TYPING_LINGER_MS;
        && typingFrame == (if advance then NextFrame(old(typingFrame), TYPING_FRAME_COUNT) else old(typingFrame))
        && lastTypingFrameTime == (if advance then now else old(lastTypingFrameTime))
        && animationState == (if linger then Idle else Typing)
        && idleFrame == (if linger then idlePick else old(idleFrame))
        && lastIdleFrameTime == (if linger then now else old(lastIdleFrameTime))
      ensures old(animationState) == Idle ==>
        var advance := Elapsed(now, old(lastIdleFrameTime)) >= IDLE_ANIMATION_MS;
        && animationState == Idle
        && idleFrame == (if advance then NextFrame(old(idleFrame), IDLE_FRAME_COUNT) else old(idleFrame))
        && lastIdleFrameTime == (if advance then now else old(lastIdleFrameTime))
        && typingFrame == old(typingFrame) && lastTypingFrameTime == old(lastTypingFrameTime)
    {
      frameCount := WrappingIncrement(frameCount);
      if frameCount % SCANLINE_STRIDE == 0 {
        scanlineOffset := (scanlineOffset + 1) % SCANLINE_PERIOD;
      }
      match animationState {
        case Typing =>
          if Elapsed(now, lastTypingFrameTime) >= TYPING_ANIMATION_MS {
            lastTypingFrameTime := now;
            typingFrame := (typingFrame + 1) % TYPING_FRAME_COUNT;
          }
          if Elapsed(now, lastKeypressTime) >= TYPING_LINGER_MS {
            animationState := Idle;
            idleFrame := idlePick;
            lastIdleFrameTime := now;
          }
        case Idle =>
          if Elapsed(now, lastIdleFrameTime) >= IDLE_ANIMATION_MS {
            lastIdleFrameTime := now;
            idleFrame := (idleFrame + 1) % IDLE_FRAME_COUNT;
          }
      }
    }

    /** `quit`: requests exit; the frame says that nothing else changes. */
    method Quit()
      modifies this`shouldQuit
      ensures shouldQuit
    {
      shouldQuit := true;
    }

    /**
     * `needs_image_redraw`: the image must be redrawn exactly when what it
     * would show at `size` differs from what was last rendered.
     */
    function NeedsImageRedraw(size: TerminalSize): (redraw: bool)
      reads this
      ensures redraw <==> RenderedView() != CurrentView(size)
    {
      if lastTerminalSize != size then true
      else if lastRenderedState != Some(animationState) then true
      else if lastRenderedFrame != CurrentFrame() then true
      else if lastRenderedKey != lastKey then true
      else false
    }

    /** `mark_rendered`: commits the snapshot, after which no redraw is needed at `size`. */
    method MarkRendered(size: TerminalSize)
      modifies this`lastRenderedState, this`lastRenderedFrame, this`lastRenderedKey, this`lastTerminalSize
      ensures RenderedView() == CurrentView(size)
      ensures !NeedsImageRedraw(size)
    {
      lastRenderedState := Some(animationState);
      lastRenderedFrame := match animationState
        case Idle => idleFrame
        case Typing => typingFrame;
      lastRenderedKey := lastKey;
      lastTerminalSize := size;
    }
  }
}
