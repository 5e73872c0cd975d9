/** The keyboard state of gfx-lib/src/input.rs: which keys are held, which were
    freshly pressed or released since the last clear, and the text typed so far. */
module Input {
  import opened Geometry

  /** The virtual key codes the game distinguishes; every other code is `Other`. */
  datatype Key =
    | A | B | C | D | E | F | G | H | I | J | K | L | M
    | N | O | P | Q | R | S | T | U | V | W | X | Y | Z
    | Space | Period | Comma | Back | Left | Right
    | Other(code: nat)

  datatype ElementState = Pressed | Released

  /** One keyboard event as the window layer delivers it. */
  datatype KeyboardInput = KeyboardInput(virtualKeycode: Option<Key>, state: ElementState, shift: bool)

  /** The letter keys in alphabetical order. */
  const Letters: seq<Key> :=
    [A, B, C, D, E, F, G, H, I, J, K, L, M, N, O, P, Q, R, S, T, U, V, W, X, Y, Z]

  /** Position of a letter key in the alphabet, -1 for any other key. */
  function LetterIndex(k: Key): (i: int)
    ensures -1 <= i < 26
    ensures 0 <= i ==> Letters[i] == k
  {
    match k
    case A => 0 case B => 1 case C => 2 case D => 3 case E => 4 case F => 5
    case G => 6 case H => 7 case I => 8 case J => 9 case K => 10 case L => 11
    case M => 12 case N => 13 case O => 14 case P => 15 case Q => 16 case R => 17
    case S => 18 case T => 19 case U => 20 case V => 21 case W => 22 case X => 23
    case Y => 24 case Z => 25
    case _ => -1
  }

  predicate IsLetter(k: Key)
  {
    LetterIndex(k) >= 0
  }

  /** Rust's `char::to_ascii_uppercase`. */
  function ToAsciiUpper(c: char): char
  {
    if 'a' <= c <= 'z' then (c as int - 32) as char else c
  }

  /** The character table of `keycode_to_char`, before the shift rule. */
  function BaseChar(k: Key): Option<char>
  {
    match k
    case A => Some('a') case B => Some('b') case C => Some('c') case D => Some('d')
    case E => Some('e') case F => Some('f') case G => Some('g') case H => Some('h')
    case I => Some('i') case J => Some('j') case K => Some('k') case L => Some('l')
    case M => Some('m') case N => Some('n') case O => Some('o') case P => Some('p')
    case Q => Some('q') case R => Some('r') case S => Some('s') case T => Some('t')
    case U => Some('u') case V => Some('v') case W => Some('w') case X => Some('x')
    case Y => Some('y') case Z => Some('z')
    case Space => Some(' ') case Period => Some('.') case Comma => Some(',')
    case _ => None
  }

  /** `keycode_to_char`: letters give their lower-case character, or the upper-case
      one when shift is down; space, period and comma give themselves; every other
      key gives nothing. */
  function KeycodeToChar(k: Key, isUpper: bool): (r: Option<char>)
    ensures r.Some? <==> IsLetter(k) || k == Space || k == Period || k == Comma
    ensures k == Space ==> r == Some(' ')
    ensures k == Period ==> r == Some('.')
    ensures k == Comma ==> r == Some(',')
  {
    match BaseChar(k)
    case None => None
    case Some(c) => if isUpper then Some(ToAsciiUpper(c)) else Some(c)
  }

  /** A letter key types its letter of the alphabet, upper-case when shift is
      down. */
  lemma LetterTyped(k: Key, isUpper: bool)
    requires IsLetter(k)
    ensures KeycodeToChar(k, isUpper) ==
      Some(((if isUpper then 'A' as int else 'a' as int) + LetterIndex(k)) as char)
  {
  }

  /** The key that types a given character, if any (the inverse of the table). */
  function CharToKey(c: char): Option<Key>
  {
    if 'a' <= c <= 'z' then Some(Letters[c as int - 'a' as int])
    else if 'A' <= c <= 'Z' then Some(Letters[c as int - 'A' as int])
    else if c == ' ' then Some(Space)
    else if c == '.' then Some(Period)
    else if c == ',' then Some(Comma)
    else None
  }

  /** Typing is unambiguous: the typed character determines the key. */
  lemma CharDeterminesKey(k: Key, isUpper: bool)
    requires KeycodeToChar(k, isUpper).Some?
    ensures CharToKey(KeycodeToChar(k, isUpper).value) == Some(k)
  {
    if IsLetter(k) {
      var i := LetterIndex(k);
      assert Letters[i] == k;
    }
  }

  /** So two different keys never type the same character under the same shift state. */
  lemma KeycodeToCharInjective(k1: Key, k2: Key, isUpper: bool)
    requires KeycodeToChar(k1, isUpper).Some? && k1 != k2
    ensures KeycodeToChar(k1, isUpper) != KeycodeToChar(k2, isUpper)
  {
    CharDeterminesKey(k1, isUpper);
    if KeycodeToChar(k2, isUpper).Some? {
      CharDeterminesKey(k2, isUpper);
    }
  }

  /** `unwrap_or(&false)` on a key map: a key never seen reads as false. */
  function Lookup(m: map<Key, bool>, k: Key): (r: bool)
    ensures r ==> k in m
    ensures k in m ==> r == m[k]
  {
    if k in m then m[k] else false
  }

  /** The whole keyboard state as a value. */
  datatype KeyState = KeyState(
    current: map<Key, bool>,
    pressed: map<Key, bool>,
    released: map<Key, bool>,
    text: string)

  /** The edit a key press makes to the typed text: Back removes the last
      character (nothing when the text is empty), then the key's character, if it
      has one, is appended. */
  function EditText(text: string, k: Key, shift: bool): (r: string)
    ensures k == Back && |text| > 0 ==> r == text[..|text| - 1]
    ensures k == Back && |text| == 0 ==> r == ""
    ensures k != Back && KeycodeToChar(k, shift).Some? ==> r == text + [KeycodeToChar(k, shift).value]
    ensures k != Back && KeycodeToChar(k, shift).None? ==> r == text
  {
    var popped := if k == Back && |text| > 0 then text[..|text| - 1] else text;
    match KeycodeToChar(k, shift)
    case Some(c) => popped + [c]
    case None => popped
  }

  /** What `process_input` does to the keyboard state for one event with a key code. */
  function Process(s: KeyState, input: KeyboardInput): KeyState
    requires input.virtualKeycode.Some?
  {
    var k := input.virtualKeycode.value;
    match input.state
    case Pressed =>
      KeyState(
        s.current[k := true],
        if !Lookup(s.current, k) then s.pressed[k := true] else s.pressed,
        s.released,
        EditText(s.text, k, input.shift))
    case Released =>
      KeyState(s.current[k := false], s.pressed, s.released[k := true], s.text)
  }

  /** A press marks the key pressed exactly when it was not already held, and
      leaves it held. */
  lemma PressIsFreshOnly(s: KeyState, k: Key, shift: bool)
    ensures var t := Process(s, KeyboardInput(Some(k), Pressed, shift));
      && Lookup(t.current, k)
      && (!Lookup(s.current, k) ==> Lookup(t.pressed, k))
      && (Lookup(s.current, k) ==> t.pressed == s.pressed)
  {
    var t := Process(s, KeyboardInput(Some(k), Pressed, shift));
    assert t.current == s.current[k := true];
    assert t.pressed == if Lookup(s.current, k) then s.pressed else s.pressed[k := true];
  }

  /** A press changes no other key's pressed or held state. */
  lemma PressLeavesOtherKeys(s: KeyState, k: Key, shift: bool, other: Key)
    requires other != k
    ensures var t := Process(s, KeyboardInput(Some(k), Pressed, shift));
      && Lookup(t.pressed, other) == Lookup(s.pressed, other)
      && Lookup(t.current, other) == Lookup(s.current, other)
  {
    var t := Process(s, KeyboardInput(Some(k), Pressed, shift));
    assert t.current == s.current[k := true];
    LookupOther(s.current, k, other, true);
    if !Lookup(s.current, k) {
      assert t.pressed == s.pressed[k := true];
      LookupOther(s.pressed, k, other, true);
    }
  }

  /** Setting one key's flag leaves every other key reading as before. */
  lemma LookupOther(m: map<Key, bool>, k: Key, other: Key, v: bool)
    requires other != k
    ensures Lookup(m[k := v], other) == Lookup(m, other)
  {
  }

  /** A key that auto-repeats (a second press with no release in between) is not
      reported as pressed again: the second press adds nothing to the pressed map. */
  lemma RepeatedPressIsNotFresh(s: KeyState, k: Key, shift: bool)
    ensures var once := Process(s, KeyboardInput(Some(k), Pressed, shift));
      Process(once, KeyboardInput(Some(k), Pressed, shift)).pressed == once.pressed
  {
  }

  /** A release marks the key released and no longer held. */
  lemma ReleaseMarksReleased(s: KeyState, k: Key)
    ensures var t := Process(s, KeyboardInput(Some(k), Released, false));
      Lookup(t.released, k) && !Lookup(t.current, k) && t.pressed == s.pressed && t.text == s.text
  {
  }

  /** After a release, the next press of the same key is fresh again. */
  lemma PressAfterReleaseIsFresh(s: KeyState, k: Key, shift: bool)
    ensures var t := Process(Process(s, KeyboardInput(Some(k), Released, shift)),
                             KeyboardInput(Some(k), Pressed, shift));
      Lookup(t.pressed, k) && Lookup(t.current, k)
  {
  }

  /** The input state resource. */
  class InputState {
    var currentKeys: map<Key, bool>
    var pressedKeys: map<Key, bool>
    var releasedKeys: map<Key, bool>
    var inputString: string

    function State(): KeyState
      reads this
    {
      KeyState(currentKeys, pressedKeys, releasedKeys, inputString)
    }

    /** `InputState::new`: no key has been seen and no text typed. */
    constructor ()
      ensures currentKeys == map[] && pressedKeys == map[] && releasedKeys == map[]
      ensures inputString == ""
    {
      currentKeys := map[];
      pressedKeys := map[];
      releasedKeys := map[];
      inputString := "";
    }

    /** Forgets the fresh presses and releases; held keys and text stay. */
    method ClearPressedAndReleased()
      modifies this
      ensures pressedKeys == map[] && releasedKeys == map[]
      ensures currentKeys == old(currentKeys) && inputString == old(inputString)
    {
      pressedKeys := map[];
      releasedKeys := map[];
    }

    method ClearInputString()
      modifies this
      ensures inputString == ""
      ensures currentKeys == old(currentKeys) && pressedKeys == old(pressedKeys)
      ensures releasedKeys == old(releasedKeys)
    {
      inputString := "";
    }

    /** `process_input`; the key code is unwrapped, so an event must carry one. */
    method ProcessInput(input: KeyboardInput)
      requires input.virtualKeycode.Some?
      modifies this
      ensures State() == Process(old(State()), input)
    {
      var keycode := input.virtualKeycode.value;
      match input.state {
        case Pressed =>
          if !IsKeyHeld(keycode) {
            pressedKeys := pressedKeys[keycode := true];
          }
          currentKeys := currentKeys[keycode := true];
          if keycode == Back && |inputString| > 0 {
            inputString := inputString[..|inputString| - 1];
          }
          var keyChar := KeycodeToChar(keycode, input.shift);
          if keyChar.Some? {
            inputString := inputString + [keyChar.value];
          }
        case Released =>
          releasedKeys := releasedKeys[keycode := true];
          currentKeys := currentKeys[keycode := false];
      }
    }

    function IsKeyPressed(k: Key): (r: bool)
      reads this
      ensures k !in pressedKeys ==> !r
      ensures k in pressedKeys ==> r == pressedKeys[k]
    {
      Lookup(pressedKeys, k)
    }

    function IsKeyReleased(k: Key): (r: bool)
      reads this
      ensures k !in releasedKeys ==> !r
      ensures k in releasedKeys ==> r == releasedKeys[k]
    {
      Lookup(releasedKeys, k)
    }

    function IsKeyHeld(k: Key): (r: bool)
      reads this
      ensures k !in currentKeys ==> !r
      ensures k in currentKeys ==> r == currentKeys[k]
    {
      Lookup(currentKeys, k)
    }
  }
}
