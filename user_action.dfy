/**
 * The key classifier (crates/client/src/engine/user_action.rs): a virtual-key
 * code becomes a semantic user action. What the operating system supplies --
 * whether Shift is held, whether `GetKeyboardState` succeeded and the UTF-16
 * unit that `ToUnicode` produced for the current layout -- are parameters.
 */
module UserActions {
  import opened Wrappers

  type U16 = x: int | 0 <= x < 0x1_0000

  datatype Navigation = Up | Down | Left | Right

  datatype FunctionKey = Six | Seven | Eight

  datatype UserAction =
    | Input(c: char)
    | Backspace
    | Enter
    | Space
    | Tab
    | Escape
    | Unknown
    | Navigation(direction: Navigation)
    | Function(key: FunctionKey)
    | Number(n: int)
    | ToggleInputMode

  datatype ClassifyError =
    | KeyboardStateUnavailable   // `GetKeyboardState` failed
    | InvalidChar(unit: U16)     // `char::from_u32` rejected the translated unit

  predicate IsDigitKey(code: nat) {
    0x30 <= code <= 0x39 || 0x60 <= code <= 0x69
  }

  /** Key codes with a fixed meaning that never reach the layout translation. */
  predicate IsFixedKey(code: nat, shiftPressed: bool) {
    code in {0x08, 0x09, 0x0D, 0x20, 0x1B, 0x25, 0x26, 0x27, 0x28, 0x75, 0x76, 0x77, 0xF3, 0xF4}
    || (IsDigitKey(code) && !shiftPressed)
  }

  predicate IsSurrogate(unit: U16) {
    0xD800 <= unit <= 0xDFFF
  }

  /** The layout-translation arm: a non-zero unit is a character, zero is Unknown. */
  function Translate(keyStateOk: bool, unit: U16): (r: Result<UserAction, ClassifyError>)
    ensures !keyStateOk ==> r == Failure(KeyboardStateUnavailable)
    ensures keyStateOk && unit == 0 ==> r == Success(Unknown)
    ensures keyStateOk && unit != 0 && IsSurrogate(unit) ==> r == Failure(InvalidChar(unit))
    ensures keyStateOk && unit != 0 && !IsSurrogate(unit) ==>
              r.Success? && r.value.Input? && r.value.c as int == unit
  {
    if !keyStateOk then Failure(KeyboardStateUnavailable)
    else if unit == 0 then Success(Unknown)
    else if IsSurrogate(unit) then Failure(InvalidChar(unit))
    else Success(Input(unit as char))
  }

  /** `TryFrom<usize> for UserAction`. */
  function Classify(code: nat, shiftPressed: bool, keyStateOk: bool, unit: U16): (r: Result<UserAction, ClassifyError>)
    // a fixed key never consults the keyboard state or the layout, so it never fails
    ensures IsFixedKey(code, shiftPressed) ==> r.Success? && r.value != Unknown && !r.value.Input?
    // a digit is reported as a number 0..9 only without Shift
    ensures r.Success? && r.value.Number? <==> IsDigitKey(code) && !shiftPressed
    ensures r.Success? && r.value.Number? ==>
              0 <= r.value.n <= 9 && r.value.n == code - (if code <= 0x39 then 0x30 else 0x60)
    // everything else is decided by the layout translation alone
    ensures !IsFixedKey(code, shiftPressed) ==> r == Translate(keyStateOk, unit)
  {
    match code
    case 0x08 => Success(Backspace)
    case 0x09 => Success(Tab)
    case 0x0D => Success(Enter)
    case 0x20 => Success(Space)
    case 0x1B => Success(Escape)
    case 0x25 => Success(Navigation(Left))
    case 0x26 => Success(Navigation(Up))
    case 0x27 => Success(Navigation(Right))
    case 0x28 => Success(Navigation(Down))
    case _ =>
      if IsDigitKey(code) && !shiftPressed then
        Success(Number(if code <= 0x39 then code - 0x30 else code - 0x60))
      else if code == 0x75 then Success(Function(Six))
      else if code == 0x76 then Success(Function(Seven))
      else if code == 0x77 then Success(Function(Eight))
      else if code == 0xF3 || code == 0xF4 then Success(ToggleInputMode)
      else Translate(keyStateOk, unit)
  }

  /** The fixed table entries, one by one. */
  lemma FixedCodes(shiftPressed: bool, keyStateOk: bool, unit: U16)
    ensures Classify(0x08, shiftPressed, keyStateOk, unit) == Success(Backspace)
    ensures Classify(0x09, shiftPressed, keyStateOk, unit) == Success(Tab)
    ensures Classify(0x0D, shiftPressed, keyStateOk, unit) == Success(Enter)
    ensures Classify(0x20, shiftPressed, keyStateOk, unit) == Success(Space)
    ensures Classify(0x1B, shiftPressed, keyStateOk, unit) == Success(Escape)
    ensures Classify(0x25, shiftPressed, keyStateOk, unit) == Success(Navigation(Left))
    ensures Classify(0x26, shiftPressed, keyStateOk, unit) == Success(Navigation(Up))
    ensures Classify(0x27, shiftPressed, keyStateOk, unit) == Success(Navigation(Right))
    ensures Classify(0x28, shiftPressed, keyStateOk, unit) == Success(Navigation(Down))
    ensures Classify(0x75, shiftPressed, keyStateOk, unit) == Success(Function(Six))
    ensures Classify(0x76, shiftPressed, keyStateOk, unit) == Success(Function(Seven))
    ensures Classify(0x77, shiftPressed, keyStateOk, unit) == Success(Function(Eight))
    ensures Classify(0xF3, shiftPressed, keyStateOk, unit) == Success(ToggleInputMode)
    ensures Classify(0xF4, shiftPressed, keyStateOk, unit) == Success(ToggleInputMode)
  {
  }

  /** With Shift held a digit key is translated through the layout like any other key. */
  lemma ShiftedDigitIsTranslated(code: nat, keyStateOk: bool, unit: U16)
    requires IsDigitKey(code)
    ensures Classify(code, true, keyStateOk, unit) == Translate(keyStateOk, unit)
  {
  }
}
