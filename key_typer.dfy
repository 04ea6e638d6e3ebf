/**
 * Character to key-event resolution (RobotKeyTyper.kt).  The AWT robot is
 * modelled as an append-only log of key presses and releases.
 */
module KeyTyping {
  import opened Wrappers
  import opened Sequences

  /** AWT virtual key codes (`java.awt.event.KeyEvent.VK_*`). */
  type KeyCode = int

  const VkUndefined: KeyCode := 0
  const VkEnter: KeyCode := 10
  const VkShift: KeyCode := 16
  const VkSpace: KeyCode := 32
  const VkComma: KeyCode := 44
  const VkMinus: KeyCode := 45
  const VkPeriod: KeyCode := 46
  const VkSlash: KeyCode := 47
  const Vk0: KeyCode := 48
  const Vk1: KeyCode := 49
  const Vk2: KeyCode := 50
  const Vk3: KeyCode := 51
  const Vk4: KeyCode := 52
  const Vk5: KeyCode := 53
  const Vk6: KeyCode := 54
  const Vk7: KeyCode := 55
  const Vk8: KeyCode := 56
  const Vk9: KeyCode := 57
  const VkSemicolon: KeyCode := 59
  const VkEquals: KeyCode := 61
  const VkOpenBracket: KeyCode := 91
  const VkBackSlash: KeyCode := 92
  const VkCloseBracket: KeyCode := 93
  const VkBackQuote: KeyCode := 192
  const VkQuote: KeyCode := 222

  /** `shiftChars`: the symbols typed with shift held down. */
  predicate IsShiftChar(c: char)
  {
    match c
    case '~' | '!' | '@' | '#' | '$' | '%' | '^' | '&' | '*' | '(' | ')' => true
    case '_' | '+' | '{' | '}' | '|' | ':' | '"' | '<' | '>' | '?' => true
    case _ => false
  }

  /** `keyMap[c]`: the fixed table consulted before the platform's own key-code lookup. */
  function KeyMapGet(c: char): Option<KeyCode>
  {
    match c
    // Symbols typed with shift
    case '~' => Some(VkBackQuote)
    case '!' => Some(Vk1)
    case '@' => Some(Vk2)
    case '#' => Some(Vk3)
    case '$' => Some(Vk4)
    case '%' => Some(Vk5)
    case '^' => Some(Vk6)
    case '&' => Some(Vk7)
    case '*' => Some(Vk8)
    case '(' => Some(Vk9)
    case ')' => Some(Vk0)
    case '_' => Some(VkMinus)
    case '+' => Some(VkEquals)
    case '{' => Some(VkOpenBracket)
    case '}' => Some(VkCloseBracket)
    case '|' => Some(VkBackSlash)
    case ':' => Some(VkSemicolon)
    case '"' => Some(VkQuote)
    case '<' => Some(VkComma)
    case '>' => Some(VkPeriod)
    case '?' => Some(VkSlash)
    // Symbols typed without shift
    case '`' => Some(VkBackQuote)
    case '-' => Some(VkMinus)
    case '=' => Some(VkEquals)
    case '[' => Some(VkOpenBracket)
    case ']' => Some(VkCloseBracket)
    case '\\' => Some(VkBackSlash)
    case ';' => Some(VkSemicolon)
    case '\'' => Some(VkQuote)
    case ',' => Some(VkComma)
    case '.' => Some(VkPeriod)
    case '/' => Some(VkSlash)
    case ' ' => Some(VkSpace)
    case '\n' => Some(VkEnter)
    case _ => None
  }

  /**
   * The character classification the typer relies on (Kotlin's `isLetter`,
   * `isUpperCase` and `uppercaseChar`), taken as parameters rather than
   * encoding the Unicode tables.
   */
  datatype CharClasses = CharClasses(isLetter: char -> bool, isUpperCase: char -> bool, uppercaseChar: char -> char)

  /** What the Unicode tables say about the ASCII letters and the characters of the table. */
  ghost predicate AsciiCasing(cc: CharClasses)
  {
    && (forall c: char :: 'a' <= c <= 'z' ==>
          cc.isLetter(c) && !cc.isUpperCase(c) && cc.uppercaseChar(c) == (c as int - 32) as char)
    && (forall c: char :: 'A' <= c <= 'Z' ==>
          cc.isLetter(c) && cc.isUpperCase(c) && cc.uppercaseChar(c) == c)
    && (forall c: char :: KeyMapGet(c).Some? ==> !cc.isLetter(c) && !cc.isUpperCase(c))
  }

  datatype KeyEvent = Press(code: KeyCode) | Release(code: KeyCode)

  /** A resolved character: the key to strike and whether shift is held around it. */
  datatype Keystroke = Keystroke(key: KeyCode, shift: bool)

  predicate NeedsShift(cc: CharClasses, c: char)
  {
    cc.isUpperCase(c) || IsShiftChar(c)
  }

  /** Letters are looked up in upper case. */
  function Normalize(cc: CharClasses, c: char): char
  {
    if cc.isLetter(c) then cc.uppercaseChar(c) else c
  }

  /** The key code: the table first, `KeyEvent.getExtendedKeyCodeForChar` otherwise. */
  function KeyCodeFor(cc: CharClasses, extendedKeyCode: int -> KeyCode, c: char): (k: KeyCode)
    ensures KeyMapGet(Normalize(cc, c)).Some? ==> k == KeyMapGet(Normalize(cc, c)).value
    ensures KeyMapGet(Normalize(cc, c)).None? ==> k == extendedKeyCode(Normalize(cc, c) as int)
  {
    var n := Normalize(cc, c);
    match KeyMapGet(n)
    case Some(k) => k
    case None => extendedKeyCode(n as int)
  }

  /** The keystroke for `c`, or `None` when its key code is `VK_UNDEFINED`. */
  function Resolve(cc: CharClasses, extendedKeyCode: int -> KeyCode, c: char): (r: Option<Keystroke>)
    ensures r.None? <==> KeyCodeFor(cc, extendedKeyCode, c) == VkUndefined
    ensures r.Some? ==> r.value.key == KeyCodeFor(cc, extendedKeyCode, c) && r.value.key != VkUndefined
    ensures r.Some? ==> (r.value.shift <==> cc.isUpperCase(c) || IsShiftChar(c))
  {
    var k := KeyCodeFor(cc, extendedKeyCode, c);
    if k == VkUndefined then None else Some(Keystroke(k, NeedsShift(cc, c)))
  }

  /** The robot calls that type one resolved keystroke. */
  function StrokeEvents(s: Keystroke): (r: seq<KeyEvent>)
    ensures !s.shift ==> r == [Press(s.key), Release(s.key)]
    ensures s.shift ==> r == [Press(VkShift), Press(s.key), Release(s.key), Release(VkShift)]
  {
    (if s.shift then [Press(VkShift)] else []) + [Press(s.key), Release(s.key)] +
    (if s.shift then [Release(VkShift)] else [])
  }

  /** All robot calls made by `typeChar(c)`. */
  function Keystrokes(cc: CharClasses, extendedKeyCode: int -> KeyCode, c: char): seq<KeyEvent>
  {
    match Resolve(cc, extendedKeyCode, c)
    case None => []
    case Some(s) => StrokeEvents(s)
  }

  /** All robot calls made by typing each character of `text` in turn. */
  function TextKeystrokes(cc: CharClasses, extendedKeyCode: int -> KeyCode, text: string): seq<KeyEvent>
    decreases |text|
  {
    if text == [] then []
    else TextKeystrokes(cc, extendedKeyCode, text[..|text| - 1]) + Keystrokes(cc, extendedKeyCode, text[|text| - 1])
  }

  /** The keys held down after the robot has replayed `events` from a state with no key down. */
  function Held(events: seq<KeyEvent>): set<KeyCode>
    decreases |events|
  {
    if events == [] then {}
    else
      var before := Held(events[..|events| - 1]);
      match events[|events| - 1]
      case Press(k) => before + {k}
      case Release(k) => before - {k}
  }

  /** Striking one resolved keystroke from a state with no key down leaves no key down, shift included. */
  lemma StrokeReleases(log: seq<KeyEvent>, s: Keystroke)
    requires Held(log) == {}
    ensures Held(log + StrokeEvents(s)) == {}
  {
    var k := s.key;
    if s.shift {
      assert Held(log + [Press(VkShift)]) == {VkShift} by {
        assert (log + [Press(VkShift)])[..|log|] == log;
      }
      assert Held(log + [Press(VkShift), Press(k)]) == {VkShift, k} by {
        assert (log + [Press(VkShift), Press(k)])[..|log| + 1] == log + [Press(VkShift)];
      }
      assert Held(log + [Press(VkShift), Press(k), Release(k)]) == {VkShift, k} - {k} by {
        assert (log + [Press(VkShift), Press(k), Release(k)])[..|log| + 2] == log + [Press(VkShift), Press(k)];
      }
      assert (log + StrokeEvents(s))[..|log| + 3] == log + [Press(VkShift), Press(k), Release(k)];
    } else {
      assert Held(log + [Press(k)]) == {k} by {
        assert (log + [Press(k)])[..|log|] == log;
      }
      assert (log + StrokeEvents(s))[..|log| + 1] == log + [Press(k)];
    }
  }

  /** Typing one character leaves no key held down, shift included. */
  lemma KeystrokesRelease(cc: CharClasses, extendedKeyCode: int -> KeyCode, log: seq<KeyEvent>, c: char)
    requires Held(log) == {}
    ensures Held(log + Keystrokes(cc, extendedKeyCode, c)) == {}
  {
    match Resolve(cc, extendedKeyCode, c)
    case None =>
      assert log + [] == log;
    case Some(s) =>
      StrokeReleases(log, s);
  }

  /** Typing a whole text leaves no key held down. */
  lemma {:induction false} TextKeystrokesRelease(cc: CharClasses, extendedKeyCode: int -> KeyCode, text: string)
    ensures Held(TextKeystrokes(cc, extendedKeyCode, text)) == {}
    decreases |text|
  {
    if text != [] {
      TextKeystrokesRelease(cc, extendedKeyCode, text[..|text| - 1]);
      KeystrokesRelease(cc, extendedKeyCode, TextKeystrokes(cc, extendedKeyCode, text[..|text| - 1]), text[|text| - 1]);
    }
  }

  /** Every shift symbol has its own entry in the table, and no entry is `VK_UNDEFINED`. */
  lemma ShiftCharsInTable()
    ensures forall c :: IsShiftChar(c) ==> KeyMapGet(c).Some?
    ensures forall c :: KeyMapGet(c).Some? ==> KeyMapGet(c).value != VkUndefined
  {
  }

  /** `~ _ + |` share their keys with `` ` - = \ ``. */
  lemma ShiftedSymbolsShareKeys()
    ensures KeyMapGet('~') == KeyMapGet('`') == Some(VkBackQuote)
    ensures KeyMapGet('_') == KeyMapGet('-') == Some(VkMinus)
    ensures KeyMapGet('+') == KeyMapGet('=') == Some(VkEquals)
    ensures KeyMapGet('|') == KeyMapGet('\\') == Some(VkBackSlash)
  {
  }

  /** `{ } : "` share their keys with `[ ] ; '`. */
  lemma ShiftedBracketsShareKeys()
    ensures KeyMapGet('{') == KeyMapGet('[') == Some(VkOpenBracket)
    ensures KeyMapGet('}') == KeyMapGet(']') == Some(VkCloseBracket)
    ensures KeyMapGet(':') == KeyMapGet(';') == Some(VkSemicolon)
    ensures KeyMapGet('"') == KeyMapGet('\'') == Some(VkQuote)
  {
  }

  /** `< > ?` share their keys with `, . /`. */
  lemma ShiftedPunctuationShareKeys()
    ensures KeyMapGet('<') == KeyMapGet(',') == Some(VkComma)
    ensures KeyMapGet('>') == KeyMapGet('.') == Some(VkPeriod)
    ensures KeyMapGet('?') == KeyMapGet('/') == Some(VkSlash)
  {
  }

  /** `! @ # $ % ^ & * ( )` sit on the digit keys 1 to 9 and 0, as on a US keyboard. */
  lemma ShiftedDigits()
    ensures KeyMapGet('!') == Some(Vk1) && KeyMapGet('@') == Some(Vk2) && KeyMapGet('#') == Some(Vk3)
    ensures KeyMapGet('$') == Some(Vk4) && KeyMapGet('%') == Some(Vk5) && KeyMapGet('^') == Some(Vk6)
    ensures KeyMapGet('&') == Some(Vk7) && KeyMapGet('*') == Some(Vk8) && KeyMapGet('(') == Some(Vk9)
    ensures KeyMapGet(')') == Some(Vk0)
  {
  }

  /** A shift symbol resolves to its own table key, struck with shift held. */
  lemma ShiftSymbolResolution(cc: CharClasses, extendedKeyCode: int -> KeyCode, c: char)
    requires AsciiCasing(cc) && IsShiftChar(c)
    ensures KeyMapGet(c).Some? && Resolve(cc, extendedKeyCode, c) == Some(Keystroke(KeyMapGet(c).value, true))
  {
    ShiftCharsInTable();
  }

  /** A lower-case ASCII letter and its capital strike the same key and differ only in shift. */
  lemma LetterCase(cc: CharClasses, extendedKeyCode: int -> KeyCode, c: char)
    requires AsciiCasing(cc) && 'a' <= c <= 'z'
    ensures var upper := (c as int - 32) as char;
      && KeyCodeFor(cc, extendedKeyCode, c) == KeyCodeFor(cc, extendedKeyCode, upper) == extendedKeyCode(upper as int)
      && (Resolve(cc, extendedKeyCode, c).Some? ==> !Resolve(cc, extendedKeyCode, c).value.shift)
      && (Resolve(cc, extendedKeyCode, upper).Some? ==> Resolve(cc, extendedKeyCode, upper).value.shift)
  {
    var upper := (c as int - 32) as char;
    assert 'A' <= upper <= 'Z';
  }

  /** Space and newline resolve to the space and enter keys, unshifted, whatever the platform lookup says. */
  lemma SpaceAndNewline(cc: CharClasses, extendedKeyCode: int -> KeyCode)
    requires AsciiCasing(cc)
    ensures Resolve(cc, extendedKeyCode, ' ') == Some(Keystroke(VkSpace, false))
    ensures Resolve(cc, extendedKeyCode, '\n') == Some(Keystroke(VkEnter, false))
  {
  }

  /** The index of the first `false` flag reading, or `|active|` when there is none. */
  function StopIndex(active: seq<bool>): (k: nat)
    ensures k <= |active|
    ensures forall i :: 0 <= i < k ==> active[i]
    ensures k < |active| ==> !active[k]
  {
    if active == [] || !active[0] then 0 else 1 + StopIndex(active[1..])
  }

  class RobotKeyTyper {
    const chars: CharClasses
    /** `KeyEvent.getExtendedKeyCodeForChar`, a JDK call whose table is not modelled. */
    const extendedKeyCode: int -> KeyCode
    /** The robot: every `keyPress`/`keyRelease` so far, in order. */
    var events: seq<KeyEvent>

    constructor (chars: CharClasses, extendedKeyCode: int -> KeyCode)
      ensures this.chars == chars && this.extendedKeyCode == extendedKeyCode
      ensures events == []
    {
      this.chars := chars;
      this.extendedKeyCode := extendedKeyCode;
      events := [];
    }

    method TypeChar(c: char)
      modifies this
      ensures events == old(events) + Keystrokes(chars, extendedKeyCode, c)
    {
      var shift := NeedsShift(chars, c);
      var normalizedChar := if chars.isLetter(c) then chars.uppercaseChar(c) else c;
      var entry := KeyMapGet(normalizedChar);
      var keyCode := if entry.Some? then entry.value else extendedKeyCode(normalizedChar as int);
      if keyCode == VkUndefined {
        return;
      }
      if shift {
        events := events + [Press(VkShift)];
      }
      events := events + [Press(keyCode)];
      events := events + [Release(keyCode)];
      if shift {
        events := events + [Release(VkShift)];
      }
    }

    /**
     * The dispatch loop: before each character the run's active flag is read
     * (`active[i]` is the reading taken before character `i`); the loop stops
     * at the first reading that is false.  Returns how many characters were typed.
     */
    method TypeText(text: string, active: seq<bool>) returns (typed: nat)
      requires |active| == |text|
      modifies this
      ensures typed == StopIndex(active)
      ensures events == old(events) + TextKeystrokes(chars, extendedKeyCode, text[..typed])
    {
      typed := 0;
      while typed < |text| && active[typed]
        invariant typed <= |text|
        invariant typed <= StopIndex(active)
        invariant events == old(events) + TextKeystrokes(chars, extendedKeyCode, text[..typed])
      {
        TypeChar(text[typed]);
        TextKeystrokesSnoc(chars, extendedKeyCode, text, typed);
        AppendAssoc(old(events), TextKeystrokes(chars, extendedKeyCode, text[..typed]), Keystrokes(chars, extendedKeyCode, text[typed]));
        typed := typed + 1;
      }
    }
  }

  /** Typing one more character of a text appends that character's keystrokes. */
  lemma TextKeystrokesSnoc(cc: CharClasses, extendedKeyCode: int -> KeyCode, text: string, k: nat)
    requires k < |text|
    ensures TextKeystrokes(cc, extendedKeyCode, text[..k + 1])
      == TextKeystrokes(cc, extendedKeyCode, text[..k]) + Keystrokes(cc, extendedKeyCode, text[k])
  {
    assert text[..k + 1][..k] == text[..k];
  }
}
