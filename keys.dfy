/**
 * The key normaliser of src/app/keys.rs: every key of the global keyboard
 * hook, with the shift state, becomes the display string the controller
 * receives. Letters are upper-case, digits and punctuation follow the US
 * layout, named keys get a symbol, modifiers get the four modifier symbols,
 * and unknown keys a question mark.
 *
 * The lemmas check this table against its two consumers: the controller's
 * modifier and special-key tests (src/app/state.rs) and the key sprite
 * layout (src/key_spritesheet.rs).
 */
module Keys {
  import AppState
  import KeySheet
  import opened Wrappers

  type UpperLetter = c: char | 'A' <= c <= 'Z' witness 'A'
  type Digit = d: nat | d < 10
  type FunctionNumber = n: nat | 1 <= n <= 12 witness 1
  /** The `u32` carried by `Key::Unknown`. */
  type U32 = n: nat | n < 0x1_0000_0000

  /** The keys the hook reports (`rdev::Key`). */
  datatype Key =
    | Letter(letter: UpperLetter)       // KeyA .. KeyZ
    | Num(digit: Digit)                 // Num0 .. Num9
    | Space | Return | Tab | Backspace | Escape | Delete
    | UpArrow | DownArrow | LeftArrow | RightArrow
    | ShiftLeft | ShiftRight | ControlLeft | ControlRight | Alt | AltGr | MetaLeft | MetaRight
    | F(number: FunctionNumber)         // F1 .. F12
    | Comma | Dot | Slash | SemiColon | Quote | LeftBracket | RightBracket
    | BackSlash | Minus | Equal | BackQuote
    | CapsLock | Home | End | PageUp | PageDown | Insert | PrintScreen | ScrollLock
    | Pause | NumLock | IntlBackslash | Function
    | KpReturn | KpMinus | KpPlus | KpMultiply | KpDivide | Kp(keypadDigit: Digit) | KpDelete
    | Unknown(code: U32)

  /** The character of a decimal digit. */
  function DigitChar(d: Digit): (c: char)
    ensures '0' <= c <= '9' && c as int - '0' as int == d
  {
    ('0' as int + d) as char
  }

  /** The decimal notation of `n`, as `format!("{}", n)` writes it. */
  function DecimalString(n: nat): (s: string)
    ensures 1 <= |s|
    ensures forall i | 0 <= i < |s| :: '0' <= s[i] <= '9'
    ensures |s| > 1 ==> s[0] != '0'
    decreases n
  {
    if n < 10 then [DigitChar(n)] else DecimalString(n / 10) + [DigitChar(n % 10)]
  }

  /** The number a string of decimal digits denotes. */
  function DecimalValue(s: string): nat
    requires forall i | 0 <= i < |s| :: '0' <= s[i] <= '9'
  {
    if s == [] then 0
    else 10 * DecimalValue(s[..|s| - 1]) + (s[|s| - 1] as int - '0' as int)
  }

  /** Reading back the decimal notation of `n` gives `n`. */
  lemma {:induction false} DecimalRoundTrip(n: nat)
    ensures DecimalValue(DecimalString(n)) == n
    decreases n
  {
    var s := DecimalString(n);
    if n >= 10 {
      DecimalRoundTrip(n / 10);
      assert s[..|s| - 1] == DecimalString(n / 10);
    }
  }

  /** The US-layout symbols on the shifted digit keys 0 .. 9. */
  const SHIFTED_DIGITS: string := ")!@#$%^&*("

  /** `key_to_string`: the display string of `key`, with `shifted` the state of Shift. */
  function KeyToString(key: Key, shifted: bool): (s: string)
    ensures |s| >= 1
  {
    match key
    case Letter(c) => [c]
    case Num(d) => if shifted then [SHIFTED_DIGITS[d]] else [DigitChar(d)]
    case Space => "␣"
    case Return => "⏎"
    case Tab => "⇥"
    case Backspace => "⌫"
    case Escape => "⎋"
    case Delete => "⌦"
    case UpArrow => "↑"
    case DownArrow => "↓"
    case LeftArrow => "←"
    case RightArrow => "→"
    case ShiftLeft => "⇧"
    case ShiftRight => "⇧"
    case ControlLeft => "⌃"
    case ControlRight => "⌃"
    case Alt => "⌥"
    case AltGr => "⌥"
    case MetaLeft => "⌘"
    case MetaRight => "⌘"
    case F(n) => "F" + DecimalString(n)
    case Comma => if shifted then "<" else ","
    case Dot => if shifted then ">" else "."
    case Slash => if shifted then "?" else "/"
    case SemiColon => if shifted then ":" else ";"
    case Quote => if shifted then "\"" else "'"
    case LeftBracket => if shifted then "{" else "["
    case RightBracket => if shifted then "}" else "]"
    case BackSlash => if shifted then "|" else "\\"
    case Minus => if shifted then "_" else "-"
    case Equal => if shifted then "+" else "="
    case BackQuote => if shifted then "~" else "`"
    case Unknown(code) => "?" + DecimalString(code)
    case _ => "?"
  }

  /** The four modifier families: Shift, Control, Option and Command. */
  predicate IsModifier(key: Key) {
    key.ShiftLeft? || key.ShiftRight? || key.ControlLeft? || key.ControlRight?
    || key.Alt? || key.AltGr? || key.MetaLeft? || key.MetaRight?
  }

  /** The keys whose label replaces the controller's text trace. */
  predicate IsNamedKey(key: Key) {
    key.Space? || key.Return? || key.Tab? || key.Backspace? || key.Escape? || key.Delete?
    || key.UpArrow? || key.DownArrow? || key.LeftArrow? || key.RightArrow? || key.F?
  }

  /** The punctuation keys of the US layout. */
  predicate IsPunctuation(key: Key) {
    key.Comma? || key.Dot? || key.Slash? || key.SemiColon? || key.Quote? || key.LeftBracket?
    || key.RightBracket? || key.BackSlash? || key.Minus? || key.Equal? || key.BackQuote?
  }

  /** Letters are upper-case whatever the shift state. */
  lemma LettersIgnoreShift(c: UpperLetter, shifted: bool)
    ensures KeyToString(Letter(c), shifted) == [c]
  {
  }

  /** Digits: the digit itself, or the US-layout symbol above it. */
  lemma DigitTable(d: Digit)
    ensures KeyToString(Num(d), false) == [DigitChar(d)]
    ensures KeyToString(Num(d), true) == [")!@#$%^&*("[d]]
    ensures KeyToString(Num(d), true) != KeyToString(Num(d), false)
  {
  }

  /** Function keys are named `F1` .. `F12`. */
  lemma FunctionKeyNames(n: FunctionNumber, shifted: bool)
    ensures KeyToString(F(n), shifted) ==
      ["F1", "F2", "F3", "F4", "F5", "F6", "F7", "F8", "F9", "F10", "F11", "F12"][n - 1]
  {
    if n >= 10 {
      assert DecimalString(n) == DecimalString(1) + [DigitChar(n % 10)];
    }
  }

  /** Shift changes the output of the digit and punctuation keys, and of no other key. */
  lemma ShiftAffectsOnlyDigitsAndPunctuation(key: Key)
    ensures KeyToString(key, true) != KeyToString(key, false) <==> key.Num? || IsPunctuation(key)
  {
  }

  /** The punctuation key and shift state that type symbol `c`, if any (the shift table read backwards). */
  function PunctuationKeyOf(c: char): Option<(Key, bool)> {
    match c
    case ',' => Some((Comma, false))        case '<' => Some((Comma, true))
    case '.' => Some((Dot, false))          case '>' => Some((Dot, true))
    case '/' => Some((Slash, false))        case '?' => Some((Slash, true))
    case ';' => Some((SemiColon, false))    case ':' => Some((SemiColon, true))
    case '\'' => Some((Quote, false))       case '"' => Some((Quote, true))
    case '[' => Some((LeftBracket, false))  case '{' => Some((LeftBracket, true))
    case ']' => Some((RightBracket, false)) case '}' => Some((RightBracket, true))
    case '\\' => Some((BackSlash, false))   case '|' => Some((BackSlash, true))
    case '-' => Some((Minus, false))        case '_' => Some((Minus, true))
    case '=' => Some((Equal, false))        case '+' => Some((Equal, true))
    case '`' => Some((BackQuote, false))    case '~' => Some((BackQuote, true))
    case _ => None
  }

  /**
   * A punctuation key gives one printable ASCII symbol that is neither a
   * letter nor a digit, and reading the shift table backwards from that
   * symbol recovers the key and the shift state.
   */
  lemma PunctuationRoundTrip(key: Key, shifted: bool)
    requires IsPunctuation(key)
    ensures |KeyToString(key, shifted)| == 1
    ensures var c := KeyToString(key, shifted)[0];
      '!' <= c <= '~' && !('0' <= c <= '9') && !('A' <= c <= 'Z') && !('a' <= c <= 'z')
    ensures PunctuationKeyOf(KeyToString(key, shifted)[0]) == Some((key, shifted))
  {
  }

  /** The 22 entries of the punctuation shift table are all different. */
  lemma PunctuationTableInjective(k1: Key, s1: bool, k2: Key, s2: bool)
    requires IsPunctuation(k1) && IsPunctuation(k2)
    ensures KeyToString(k1, s1) == KeyToString(k2, s2) <==> k1 == k2 && s1 == s2
  {
    PunctuationRoundTrip(k1, s1);
    PunctuationRoundTrip(k2, s2);
  }

  /** Named keys give strings the controller treats as special. */
  lemma NamedKeysAreSpecial(key: Key, shifted: bool)
    requires IsNamedKey(key)
    ensures AppState.IsSpecialKey(KeyToString(key, shifted))
  {
    if key.F? {
      FunctionKeyNames(key.number, shifted);
    }
  }

  /** Modifier keys give strings the controller ignores. */
  lemma ModifiersAreIgnored(key: Key, shifted: bool)
    requires IsModifier(key)
    ensures AppState.IsIgnoredKey(KeyToString(key, shifted))
  {
  }

  /**
   * Every other key gives an ASCII string that is not a function-key name:
   * one character, or a question mark with or without a decimal code.
   */
  lemma OtherKeysGiveAscii(key: Key, shifted: bool)
    requires !IsNamedKey(key) && !IsModifier(key)
    ensures AppState.IsAscii(KeyToString(key, shifted))
    ensures |KeyToString(key, shifted)| == 1 || KeyToString(key, shifted)[0] == '?'
  {
  }

  /** An ASCII string that is one character or starts with a question mark is neither special nor ignored. */
  lemma AsciiIsPlain(s: string)
    requires |s| >= 1 && AppState.IsAscii(s) && (|s| == 1 || s[0] == '?')
    ensures !AppState.IsSpecialKey(s) && !AppState.IsIgnoredKey(s)
  {
    assert s[0] < 128 as char;
  }

  /** The output is one of the controller's modifier symbols exactly for the modifier keys. */
  lemma ModifierOutputIsIgnored(key: Key, shifted: bool)
    ensures AppState.IsIgnoredKey(KeyToString(key, shifted)) <==> IsModifier(key)
  {
    var s := KeyToString(key, shifted);
    if IsModifier(key) {
      ModifiersAreIgnored(key, shifted);
    } else if IsNamedKey(key) {
      NamedKeysAreSpecial(key, shifted);
      AppState.SpecialAndIgnoredAreDisjoint(s);
    } else {
      OtherKeysGiveAscii(key, shifted);
      AsciiIsPlain(s);
    }
  }

  /** The output is one of the controller's special keys exactly for the named keys. */
  lemma NamedOutputIsSpecial(key: Key, shifted: bool)
    ensures AppState.IsSpecialKey(KeyToString(key, shifted)) <==> IsNamedKey(key)
  {
    var s := KeyToString(key, shifted);
    if IsNamedKey(key) {
      NamedKeysAreSpecial(key, shifted);
    } else if IsModifier(key) {
      ModifiersAreIgnored(key, shifted);
      AppState.SpecialAndIgnoredAreDisjoint(s);
    } else {
      OtherKeysGiveAscii(key, shifted);
      AsciiIsPlain(s);
    }
  }

  /**
   * Every string the controller appends to its text is ASCII, so its byte
   * length (which `on_key` truncates by) equals its character length.
   */
  lemma LiteralOutputIsAscii(key: Key, shifted: bool)
    requires AppState.IsLiteralKey(KeyToString(key, shifted))
    ensures AppState.IsAscii(KeyToString(key, shifted))
  {
    if IsNamedKey(key) {
      NamedKeysAreSpecial(key, shifted);
    } else if IsModifier(key) {
      ModifiersAreIgnored(key, shifted);
    } else {
      OtherKeysGiveAscii(key, shifted);
    }
  }

  /**
   * Letters in either shift state and unshifted digits have a key sprite
   * cell, at the cell that holds them; shifted digits have none.
   */
  lemma KeySpriteCells(key: Key, shifted: bool)
    ensures key.Letter? || (key.Num? && !shifted) ==>
      KeySheet.GetKeyPosition(KeyToString(key, shifted)).Some?
    ensures key.Num? && shifted ==> KeySheet.GetKeyPosition(KeyToString(key, shifted)).None?
    ensures key.Num? && !shifted ==> KeySheet.GetKeyPosition(KeyToString(key, shifted)) == Some((0, key.digit))
  {
  }
}
