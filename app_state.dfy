/**
 * The animation controller of src/app/state.rs: a two-state machine
 * (Idle/Typing) with cyclic frame counters, a bounded text trace fed by key
 * display strings, two overlay effects, and a "check, then commit" redraw
 * tracker.
 *
 * `Instant::now()` is an explicit `now` (milliseconds; the four reads in `new`
 * and the two in `on_key` are taken to return the same instant); the random
 * idle frame is a value supplied by the caller; a tachyonfx effect is reduced
 * to its kind and whether it has finished.
 */
module AppState {
  import opened Wrappers
  import opened Timing

  /** The text trace never holds more than this many characters. */
  const MAX_TEXT_LENGTH: nat := 100
  /** Duration of the dissolve effect started when typing stops (ms). */
  const FADE_OUT_MS: nat := 800
  /** Duration of the coalesce effect started by every key press (ms). */
  const TYPING_EFFECT_MS: nat := 150

  /** Display strings of the modifier keys: Shift, Control, Option, Command. */
  const MODIFIER_KEYS: set<string> := {"⇧", "⌃", "⌥", "⌘"}

  /** Display strings of the keys whose label replaces the text trace. */
  const SPECIAL_KEYS: set<string> :=
    {"␣", "⏎", "⇥", "⌫", "⎋", "⌦", "↑", "↓", "←", "→",
     "F1", "F2", "F3", "F4", "F5", "F6", "F7", "F8", "F9", "F10", "F11", "F12"}

  /** Modifier keys are dropped by `on_key`. */
  predicate IsIgnoredKey(key: string) {
    |key| == 1 && key[0] in {'⇧', '⌃', '⌥', '⌘'}
  }

  /** Special keys replace the text trace instead of appending to it. */
  predicate IsSpecialKey(key: string) {
    || (|key| == 1 && key[0] in {'␣', '⏎', '⇥', '⌫', '⎋', '⌦', '↑', '↓', '←', '→'})
    || (|key| == 2 && key[0] == 'F' && '1' <= key[1] <= '9')
    || (|key| == 3 && key[0] == 'F' && key[1] == '1' && '0' <= key[2] <= '2')
  }

  /** The modifier test accepts exactly the four modifier strings. */
  lemma IgnoredKeysAreModifiers(key: string)
    ensures IsIgnoredKey(key) <==> key in MODIFIER_KEYS
  {
    if |key| == 1 {
      assert key == [key[0]];
    }
  }

  /** The special-key test accepts exactly the 22 special-key strings. */
  lemma SpecialKeysAreListed(key: string)
    ensures IsSpecialKey(key) <==> key in SPECIAL_KEYS
  {
    if |key| == 1 {
      assert key == [key[0]];
    } else if |key| == 2 {
      assert key == [key[0], key[1]];
    } else if |key| == 3 {
      assert key == [key[0], key[1], key[2]];
    }
  }

  /** Every character of `s` is 7-bit ASCII. */
  predicate IsAscii(s: string) {
    forall i | 0 <= i < |s| :: s[i] < 128 as char
  }

  /** The label shown for a special key; any other string is shown as itself. */
  function SpecialKeyDisplay(key: string): (shown: string)
    ensures !IsSpecialKey(key) ==> shown == key
    ensures IsSpecialKey(key) ==> 2 <= |shown| <= 5 && IsAscii(shown)
  {
    if |key| != 1 then key
    else match key[0]
      case '␣' => "Space"
      case '⏎' => "Enter"
      case '⇥' => "Tab"
      case '⌫' => "Back"
      case '⎋' => "Esc"
      case '⌦' => "Del"
      case '↑' => "Up"
      case '↓' => "Down"
      case '←' => "Left"
      case '→' => "Right"
      case _ => key
  }

  /** Function keys are special and are shown under their own name. */
  lemma FunctionKeysShowThemselves(key: string)
    requires key in {"F1", "F2", "F3", "F4", "F5", "F6", "F7", "F8", "F9", "F10", "F11", "F12"}
    ensures IsSpecialKey(key) && SpecialKeyDisplay(key) == key
  {
  }

  /** Distinct special keys get distinct labels, so the label identifies the key. */
  lemma SpecialLabelsAreDistinct(k1: string, k2: string)
    requires IsSpecialKey(k1) && IsSpecialKey(k2) && k1 != k2
    ensures SpecialKeyDisplay(k1) != SpecialKeyDisplay(k2)
  {
  }

  /** No special key is also a modifier. */
  lemma SpecialAndIgnoredAreDisjoint(key: string)
    ensures !(IsSpecialKey(key) && IsIgnoredKey(key))
  {
  }

  /** The last `MAX_TEXT_LENGTH` characters of `s` (all of `s` when it is short enough). */
  function KeepLast(s: string): (r: string)
    ensures |r| == if |s| > MAX_TEXT_LENGTH then MAX_TEXT_LENGTH else |s|
    ensures r == s[|s| - |r|..]
  {
    if |s| > MAX_TEXT_LENGTH then s[|s| - MAX_TEXT_LENGTH..] else s
  }

  /** Capping a string whose tail `t` already reaches the cap keeps only characters of `t`. */
  lemma KeepLastOfLongTail(p: string, t: string)
    requires |t| >= MAX_TEXT_LENGTH
    ensures KeepLast(p + t) == KeepLast(t)
  {
    assert (p + t)[|p| + |t| - MAX_TEXT_LENGTH..] == t[|t| - MAX_TEXT_LENGTH..];
  }

  /**
   * Truncating in two stages keeps the same characters as truncating once:
   * the cap only ever removes characters from the front.
   */
  lemma KeepLastOfKeepLast(a: string, b: string)
    ensures KeepLast(KeepLast(a) + b) == KeepLast(a + b)
  {
    if |a| > MAX_TEXT_LENGTH {
      var cut := |a| - MAX_TEXT_LENGTH;
      assert a == a[..cut] + KeepLast(a);
      assert a + b == a[..cut] + (KeepLast(a) + b);
      KeepLastOfLongTail(a[..cut], KeepLast(a) + b);
    }
  }

  /**
   * The part of the controller that `on_key` edits: the text, whether it is a
   * special-key label, and how many of its characters are new.
   */
  datatype TextTrace = TextTrace(text: string, isSpecialKeyText: bool, newCharCount: nat)

  /** A key that `on_key` appends to the text trace. */
  predicate IsLiteralKey(key: string) {
    !IsIgnoredKey(key) && !IsSpecialKey(key)
  }

  /** How one key press changes the text trace. */
  function TypeKey(t: TextTrace, key: string): (r: TextTrace)
    ensures IsIgnoredKey(key) ==> r == t
    ensures IsSpecialKey(key) ==>
      r == TextTrace(SpecialKeyDisplay(key), true, |SpecialKeyDisplay(key)|)
    ensures IsLiteralKey(key) ==>
      && !r.isSpecialKeyText
      && r.newCharCount == |key|
      && r.text == KeepLast((if t.isSpecialKeyText then "" else t.text) + key)
    ensures |t.text| <= MAX_TEXT_LENGTH ==> |r.text| <= MAX_TEXT_LENGTH
  {
    if IsIgnoredKey(key) then t
    else if IsSpecialKey(key) then
      var display := SpecialKeyDisplay(key);
      TextTrace(display, true, |display|)
    else
      var base := if t.isSpecialKeyText then "" else t.text;
      TextTrace(KeepLast(base + key), false, |key|)
  }

  /** A literal key typed over a special-key label replaces the label. */
  lemma LiteralReplacesSpecialText(t: TextTrace, key: string)
    requires t.isSpecialKeyText && IsLiteralKey(key) && |key| <= MAX_TEXT_LENGTH
    ensures TypeKey(t, key) == TextTrace(key, false, |key|)
  {
  }

  /** A literal key typed after literal text is appended while the cap is not reached. */
  lemma LiteralAppends(t: TextTrace, key: string)
    requires !t.isSpecialKeyText && IsLiteralKey(key)
    requires |t.text| + |key| <= MAX_TEXT_LENGTH
    ensures TypeKey(t, key).text == t.text + key
  {
  }

  /** On overflow the text is exactly the last 100 characters of the old text followed by the key. */
  lemma LiteralOverflowKeepsSuffix(t: TextTrace, key: string)
    requires !t.isSpecialKeyText && IsLiteralKey(key)
    requires |t.text| + |key| > MAX_TEXT_LENGTH
    ensures |TypeKey(t, key).text| == MAX_TEXT_LENGTH
    ensures TypeKey(t, key).text == (t.text + key)[|t.text| + |key| - MAX_TEXT_LENGTH..]
  {
  }

  /** The text trace after a sequence of key presses. */
  function TypeKeys(t: TextTrace, keys: seq<string>): TextTrace
    decreases keys
  {
    if keys == [] then t else TypeKeys(TypeKey(t, keys[0]), keys[1..])
  }

  /** All keys of `keys`, concatenated. */
  function Concat(keys: seq<string>): string
  {
    if keys == [] then "" else keys[0] + Concat(keys[1..])
  }

  /** Typing `a` then `b` is typing `a + b`. */
  lemma {:induction false} TypeKeysAppend(t: TextTrace, a: seq<string>, b: seq<string>)
    ensures TypeKeys(t, a + b) == TypeKeys(TypeKeys(t, a), b)
    decreases a
  {
    if a == [] {
      assert a + b == b;
    } else {
      assert (a + b)[1..] == a[1..] + b;
      TypeKeysAppend(TypeKey(t, a[0]), a[1..], b);
    }
  }

  /** Whatever keys arrive, the text trace stays within its cap. */
  lemma {:induction false} TypeKeysBounded(t: TextTrace, keys: seq<string>)
    requires |t.text| <= MAX_TEXT_LENGTH
    ensures |TypeKeys(t, keys).text| <= MAX_TEXT_LENGTH
    decreases keys
  {
    if keys != [] {
      TypeKeysBounded(TypeKey(t, keys[0]), keys[1..]);
    }
  }

  /** Every key of `keys` is appended by `on_key`. */
  predicate AllLiteral(keys: seq<string>) {
    forall i | 0 <= i < |keys| :: IsLiteralKey(keys[i])
  }

  /** The first key of a literal run, typed after literal text, is appended and cut to the cap. */
  lemma LiteralRunFirstKey(t: TextTrace, keys: seq<string>)
    requires !t.isSpecialKeyText && keys != [] && AllLiteral(keys)
    ensures TypeKeys(t, keys) == TypeKeys(TextTrace(KeepLast(t.text + keys[0]), false, |keys[0]|), keys[1..])
    ensures AllLiteral(keys[1..])
  {
    assert IsLiteralKey(keys[0]);
    forall i | 0 <= i < |keys[1..]| ensures IsLiteralKey(keys[1..][i]) {
      assert keys[1..][i] == keys[i + 1];
    }
  }

  /** Cutting the text after one key and again after the rest cuts it once after all of them. */
  lemma KeepLastAfterKey(text: string, key: string, keys: seq<string>)
    requires keys != [] && key == keys[0]
    ensures KeepLast(KeepLast(text + key) + Concat(keys[1..])) == KeepLast(text + Concat(keys))
  {
    KeepLastOfKeepLast(text + key, Concat(keys[1..]));
    ConcatFirst(text, keys);
  }

  /** Appending the first key and then the others is appending all of them. */
  lemma ConcatFirst(text: string, keys: seq<string>)
    requires keys != []
    ensures (text + keys[0]) + Concat(keys[1..]) == text + Concat(keys)
  {
    assert Concat(keys) == keys[0] + Concat(keys[1..]);
  }

  /**
   * A run of literal keys after literal text leaves exactly the last 100
   * characters of the old text followed by everything typed.
   */
  lemma {:induction false} LiteralRunKeepsLastCharacters(t: TextTrace, keys: seq<string>)
    requires !t.isSpecialKeyText && |t.text| <= MAX_TEXT_LENGTH
    requires AllLiteral(keys)
    ensures TypeKeys(t, keys).text == KeepLast(t.text + Concat(keys))
    ensures keys != [] ==> !TypeKeys(t, keys).isSpecialKeyText
    decreases keys
  {
    if keys == [] {
      assert t.text + Concat(keys) == t.text;
    } else {
      LiteralRunFirstKey(t, keys);
      var t1 := TextTrace(KeepLast(t.text + keys[0]), false, |keys[0]|);
      LiteralRunKeepsLastCharacters(t1, keys[1..]);
      KeepLastAfterKey(t.text, keys[0], keys);
    }
  }

  /** Whatever came before, the last special key in a sequence leaves exactly its label. */
  lemma SpecialKeyResetsTrace(t: TextTrace, keys: seq<string>, special: string)
    requires IsSpecialKey(special)
    ensures TypeKeys(t, keys + [special]).text == SpecialKeyDisplay(special)
    ensures TypeKeys(t, keys + [special]).isSpecialKeyText
  {
    TypeKeysAppend(t, keys, [special]);
  }

  /** The two overlay effects. */
  datatype EffectKind =
    | Coalesce  // text materializes; started by every key press
    | Dissolve  // text fades out; started when typing stops

  /** A running overlay effect; only whether it has finished is observable here. */
  datatype Effect = Effect(kind: EffectKind, done: bool)

  /** Terminal dimensions (columns, rows). */
  type TerminalSize = (nat, nat)

  /**
   * What an image redraw shows: terminal size, state, active frame and text.
   * The rendered snapshot has an optional state (none before the first render).
   */
  datatype View = View(size: TerminalSize, state: Option<AnimationState>, frame: nat, text: string)

  class App {
    var animationState: AnimationState
    var typingFrame: nat
    var idleFrame: nat
    var lastKeypressTime: nat
    var typedText: string
    var lastTypingFrameTime: nat
    var lastIdleFrameTime: nat
    var shouldQuit: bool
    var scanlineOffset: nat
    var frameCount: nat
    var lastRenderedState: Option<AnimationState>
    var lastRenderedFrame: nat
    var lastRenderedText: string
    var lastTerminalSize: TerminalSize
    var fadeEffect: Option<Effect>
    var typingEffect: Option<Effect>
    var lastFrameTime: nat
    var isSpecialKeyText: bool
    var newCharCount: nat

    /** The controller's invariant: counters in range and the text within its cap. */
    ghost predicate Valid()
      reads this
    {
      && typingFrame < TYPING_FRAME_COUNT
      && idleFrame < IDLE_FRAME_COUNT
      && scanlineOffset < SCANLINE_PERIOD
      && frameCount < U64_MODULUS
      && |typedText| <= MAX_TEXT_LENGTH
    }

    /** The fields `on_key` edits, as a value. */
    function Trace(): TextTrace
      reads this
    {
      TextTrace(typedText, isSpecialKeyText, newCharCount)
    }

    /** The frame index of the current state. */
    function CurrentFrame(): nat
      reads this
    {
      match animationState
      case Idle => idleFrame
      case Typing => typingFrame
    }

    /** What a redraw at `size` would show now. */
    function CurrentView(size: TerminalSize): View
      reads this
    {
      View(size, Some(animationState), CurrentFrame(), typedText)
    }

    /** What the last redraw showed. */
    function RenderedView(): View
      reads this
    {
      View(lastTerminalSize, lastRenderedState, lastRenderedFrame, lastRenderedText)
    }

    /** `App::new`: Idle, counters zeroed, all timers at `now`, nothing rendered yet. */
    constructor(now: nat)
      ensures Valid()
      ensures animationState == Idle && typingFrame == 0 && idleFrame == 0
      ensures lastKeypressTime == now && lastTypingFrameTime == now
      ensures lastIdleFrameTime == now && lastFrameTime == now
      ensures typedText == "" && !isSpecialKeyText && newCharCount == 0
      ensures !shouldQuit && scanlineOffset == 0 && frameCount == 0
      ensures lastRenderedState == None && lastRenderedFrame == 0
      ensures lastRenderedText == "" && lastTerminalSize == (0, 0)
      ensures fadeEffect == None && typingEffect == None
      ensures forall size :: NeedsImageRedraw(size)
    {
      animationState := Idle;
      typingFrame := 0;
      idleFrame := 0;
      lastKeypressTime := now;
      typedText := "";
      lastTypingFrameTime := now;
      lastIdleFrameTime := now;
      shouldQuit := false;
      scanlineOffset := 0;
      frameCount := 0;
      lastRenderedState := None;
      lastRenderedFrame := 0;
      lastRenderedText := "";
      lastTerminalSize := (0, 0);
      fadeEffect := None;
      typingEffect := None;
      lastFrameTime := now;
      isSpecialKeyText := false;
      newCharCount := 0;
    }

    /**
     * The text part of `on_key` for a key that is not a modifier: a special
     * key's label replaces the text, any other key is appended to it (after
     * dropping a special-key label) and the text is cut to its last 100
     * characters.
     */
    method UpdateText(key: string)
      requires !IsIgnoredKey(key) && |typedText| <= MAX_TEXT_LENGTH
      modifies this`typedText, this`isSpecialKeyText, this`newCharCount
      ensures Trace() == TypeKey(old(Trace()), key)
    {
      if IsSpecialKey(key) {
        var display := SpecialKeyDisplay(key);
        newCharCount := |display|;
        typedText := display;
        isSpecialKeyText := true;
      } else {
        ghost var base := if isSpecialKeyText then "" else typedText;
        if isSpecialKeyText {
          typedText := "";
          isSpecialKeyText := false;
        }
        newCharCount := |key|;
        typedText := typedText + key;
        assert typedText == base + key;
        if |typedText| > MAX_TEXT_LENGTH {
          var start := |typedText| - MAX_TEXT_LENGTH;
          typedText := typedText[start..];
        }
      }
    }

    /**
     * `on_key`: a modifier changes nothing; any other key updates the text
     * trace, records the time, cancels the fade, enters Typing (restarting the
     * typing frames only when coming from Idle) and restarts the coalesce effect.
     */
    method OnKey(key: string, now: nat)
      requires Valid()
      modifies this`lastKeypressTime, this`fadeEffect, this`typedText, this`isSpecialKeyText,
        this`newCharCount, this`animationState, this`typingFrame, this`lastTypingFrameTime,
        this`typingEffect
      ensures Valid()
      ensures Trace() == TypeKey(old(Trace()), key)
      ensures IsIgnoredKey(key) ==> unchanged(this)
      ensures !IsIgnoredKey(key) ==>
        && animationState == Typing
        && lastKeypressTime == now
        && fadeEffect == None
        && typingEffect == Some(Effect(Coalesce, false))
        && typingFrame == (if old(animationState) == Typing then old(typingFrame) else 0)
        && lastTypingFrameTime == (if old(animationState) == Typing then old(lastTypingFrameTime) else now)
    {
      if IsIgnoredKey(key) {
        return;
      }
      lastKeypressTime := now;
      fadeEffect := None;
      UpdateText(key);
      if animationState != Typing {
        animationState := Typing;
        typingFrame := 0;
        lastTypingFrameTime := now;
      }
      typingEffect := Some(Effect(Coalesce, false));
    }

    /**
     * `tick`: advances the frame and scanline counters; in Typing, advances the
     * typing frame every 250 ms and falls back to Idle (at the supplied random
     * idle frame, starting the dissolve) once 3 s have passed since the last
     * key; in Idle, advances the idle frame every 10 s and clears the text once
     * the dissolve has finished.
     */
    method Tick(now: nat, idlePick: nat)
      requires Valid()
      requires idlePick < IDLE_FRAME_COUNT
      modifies this`frameCount, this`scanlineOffset, this`typingFrame, this`lastTypingFrameTime,
        this`animationState, this`idleFrame, this`lastIdleFrameTime, this`fadeEffect, this`typedText
      ensures Valid()
      ensures frameCount == WrappingIncrement(old(frameCount))
      ensures scanlineOffset == NextScanline(frameCount, old(scanlineOffset))
      ensures old(animationState) == Typing ==>
        var advance := Elapsed(now, old(lastTypingFrameTime)) >= TYPING_ANIMATION_MS;
        var linger := Elapsed(now, old(lastKeypressTime)) >= TYPING_LINGER_MS;
        && typingFrame == (if advance then NextFrame(old(typingFrame), TYPING_FRAME_COUNT) else old(typingFrame))
        && lastTypingFrameTime == (if advance then now else old(lastTypingFrameTime))
        && animationState == (if linger then Idle else Typing)
        && idleFrame == (if linger then idlePick else old(idleFrame))
        && lastIdleFrameTime == (if linger then now else old(lastIdleFrameTime))
        && fadeEffect == (if linger then Some(Effect(Dissolve, false)) else old(fadeEffect))
        && typedText == old(typedText)
      ensures old(animationState) == Idle ==>
        var advance := Elapsed(now, old(lastIdleFrameTime)) >= IDLE_ANIMATION_MS;
        var faded := old(fadeEffect).Some? && old(fadeEffect).value.done;
        && animationState == Idle
        && idleFrame == (if advance then NextFrame(old(idleFrame), IDLE_FRAME_COUNT) else old(idleFrame))
        && lastIdleFrameTime == (if advance then now else old(lastIdleFrameTime))
        && typingFrame == old(typingFrame) && lastTypingFrameTime == old(lastTypingFrameTime)
        && typedText == (if faded then "" else old(typedText))
        && fadeEffect == (if faded then None else old(fadeEffect))
    {
      frameCount := WrappingIncrement(frameCount);
      if frameCount % SCANLINE_STRIDE == 0 {
        scanlineOffset := (scanlineOffset + 1) % SCANLINE_PERIOD;
      }
      match animationState {
        case Typing =>
          if Elapsed(now, lastTypingFrameTime) >= TYPING_ANIMATION_MS {
            lastTypingFrameTime := now;
            typingFrame := (typingFrame + 1) % TYPING_FRAME_COUNT;
          }
          if Elapsed(now, lastKeypressTime) >= TYPING_LINGER_MS {
            animationState := Idle;
            idleFrame := idlePick;
            lastIdleFrameTime := now;
            fadeEffect := Some(Effect(Dissolve, false));
          }
        case Idle =>
          if Elapsed(now, lastIdleFrameTime) >= IDLE_ANIMATION_MS {
            lastIdleFrameTime := now;
            idleFrame := (idleFrame + 1) % IDLE_FRAME_COUNT;
          }
          if fadeEffect.Some? && fadeEffect.value.done {
            typedText := "";
            fadeEffect := None;
          }
      }
    }

    /** `quit`: requests exit; the frame says that nothing else changes. */
    method Quit()
      modifies this`shouldQuit
      ensures shouldQuit
    {
      shouldQuit := true;
    }

    /** `get_elapsed`: the time since the previous call, restarting the frame timer. */
    method GetElapsed(now: nat) returns (elapsed: nat)
      modifies this`lastFrameTime
      ensures elapsed == Elapsed(now, old(lastFrameTime))
      ensures lastFrameTime == now
    {
      elapsed := Elapsed(now, lastFrameTime);
      lastFrameTime := now;
    }

    /**
     * `needs_image_redraw`: the image must be redrawn exactly when what it
     * would show at `size` differs from what was last rendered.
     */
    function NeedsImageRedraw(size: TerminalSize): (redraw: bool)
      reads this
      ensures redraw <==> RenderedView() != CurrentView(size)
    {
      if lastTerminalSize != size then true
      else if lastRenderedState != Some(animationState) then true
      else if lastRenderedFrame != CurrentFrame() then true
      else if lastRenderedText != typedText then true
      else false
    }

    /** `mark_rendered`: commits the snapshot, after which no redraw is needed at `size`. */
    method MarkRendered(size: TerminalSize)
      modifies this`lastRenderedState, this`lastRenderedFrame, this`lastRenderedText, this`lastTerminalSize
      ensures RenderedView() == CurrentView(size)
      ensures !NeedsImageRedraw(size)
    {
      lastRenderedState := Some(animationState);
      lastRenderedFrame := match animationState
        case Idle => idleFrame
        case Typing => typingFrame;
      lastRenderedText := typedText;
      lastTerminalSize := size;
    }

    /**
     * The renderer's step on the dissolve effect (src/app/ui.rs): while text is
     * shown and the fade is unfinished, the effect runs; `finishes` says
     * whether this step brings it to its end.
     */
    method ProcessFadeEffect(finishes: bool)
      modifies this`fadeEffect
      ensures typedText != "" && old(fadeEffect).Some? && !old(fadeEffect).value.done ==>
        fadeEffect == Some(Effect(old(fadeEffect).value.kind, finishes))
      ensures !(typedText != "" && old(fadeEffect).Some? && !old(fadeEffect).value.done) ==>
        fadeEffect == old(fadeEffect)
    {
      if typedText != "" && fadeEffect.Some? && !fadeEffect.value.done {
        fadeEffect := Some(fadeEffect.value.(done := finishes));
      }
    }
  }
}
