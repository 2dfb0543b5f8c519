/**
 The key table of the keyboard handler: JavaScript key codes, the Win32 virtual key each one maps to,
 and the codes that are never injected.
 */
module KeyCodes {

  /** `Key('A')` is the code "KeyA", `Digit(1)` is "Digit1", and so on; a code outside the handler's table
      is `Unmapped`, or a family member out of range such as `Function(13)`. */
  datatype Code =
    | Key(letter: char)
    | Digit(digit: nat)
    | Numpad(digit: nat)
    | Function(number: nat)
    | NumpadDecimal | NumpadAdd | NumpadSubtract | NumpadMultiply | NumpadDivide | ArrowUp
    | ArrowDown | ArrowLeft | ArrowRight | ShiftLeft | ShiftRight | ControlLeft | ControlRight
    | AltLeft | AltRight | Enter | NumpadEnter | Escape | Tab | Space | Backspace | Delete | Home
    | End | PageUp | PageDown | CapsLock | NumLock | ScrollLock | Insert | ContextMenu | MetaLeft
    | MetaRight | Backquote | Minus | Equal | BracketLeft | BracketRight | Backslash | Semicolon
    | Quote | Comma | Period | Slash
    | Unmapped(name: string)

  const VK_NONE: nat := 0

  /** The virtual key of a code, VK_NONE for a code outside the table. */
  function VirtualKey(code: Code): nat {
    match code
    case Key(letter) => if 'A' <= letter <= 'Z' then letter as nat else VK_NONE
    case Digit(digit) => if digit < 10 then 0x30 + digit else VK_NONE
    case Numpad(digit) => if digit < 10 then 0x60 + digit else VK_NONE
    case Function(number) => if 1 <= number <= 12 then 0x6F + number else VK_NONE
    case NumpadDecimal => 0x6E case NumpadAdd => 0x6B case NumpadSubtract => 0x6D
    case NumpadMultiply => 0x6A case NumpadDivide => 0x6F case ArrowUp => 0x26
    case ArrowDown => 0x28 case ArrowLeft => 0x25 case ArrowRight => 0x27 case ShiftLeft => 0xA0
    case ShiftRight => 0xA1 case ControlLeft => 0xA2 case ControlRight => 0xA3 case AltLeft => 0xA4
    case AltRight => 0xA5 case Enter => 0x0D case NumpadEnter => 0x0D case Escape => 0x1B
    case Tab => 0x09 case Space => 0x20 case Backspace => 0x08 case Delete => 0x2E
    case Home => 0x24 case End => 0x23 case PageUp => 0x21 case PageDown => 0x22
    case CapsLock => 0x14 case NumLock => 0x90 case ScrollLock => 0x91 case Insert => 0x2D
    case ContextMenu => 0x5D case MetaLeft => 0x5B case MetaRight => 0x5C case Backquote => 0xC0
    case Minus => 0xBD case Equal => 0xBB case BracketLeft => 0xDB case BracketRight => 0xDD
    case Backslash => 0xDC case Semicolon => 0xBA case Quote => 0xDE case Comma => 0xBC
    case Period => 0xBE case Slash => 0xBF
    case Unmapped(_) => VK_NONE
  }

  /** The code that the table lists first for a virtual key. */
  function CanonicalCode(vk: nat): Code {
    if 0x41 <= vk <= 0x5A then Key(vk as char)
    else if 0x30 <= vk <= 0x39 then Digit(vk - 0x30)
    else if 0x60 <= vk <= 0x69 then Numpad(vk - 0x60)
    else if 0x70 <= vk <= 0x7B then Function(vk - 0x6F)
    else
      match vk
      case 0x6E => NumpadDecimal case 0x6B => NumpadAdd case 0x6D => NumpadSubtract
      case 0x6A => NumpadMultiply case 0x6F => NumpadDivide case 0x26 => ArrowUp
      case 0x28 => ArrowDown case 0x25 => ArrowLeft case 0x27 => ArrowRight case 0xA0 => ShiftLeft
      case 0xA1 => ShiftRight case 0xA2 => ControlLeft case 0xA3 => ControlRight
      case 0xA4 => AltLeft case 0xA5 => AltRight case 0x0D => Enter case 0x1B => Escape
      case 0x09 => Tab case 0x20 => Space case 0x08 => Backspace case 0x2E => Delete
      case 0x24 => Home case 0x23 => End case 0x21 => PageUp case 0x22 => PageDown
      case 0x14 => CapsLock case 0x90 => NumLock case 0x91 => ScrollLock case 0x2D => Insert
      case 0x5D => ContextMenu case 0x5B => MetaLeft case 0x5C => MetaRight case 0xC0 => Backquote
      case 0xBD => Minus case 0xBB => Equal case 0xDB => BracketLeft case 0xDD => BracketRight
      case 0xDC => Backslash case 0xBA => Semicolon case 0xDE => Quote case 0xBC => Comma
      case 0xBE => Period case 0xBF => Slash
      case _ => Unmapped("")
  }

  /** Windows keys are never injected; the other blocked names have no virtual key anyway. */
  predicate Blocked(code: Code) {
    || code == MetaLeft
    || code == MetaRight
    || (code.Unmapped? && code.name in {"Meta", "OSLeft", "OSRight", "OS", "Super_L", "Super_R", "Super"})
  }

  predicate Supported(code: Code) {
    VirtualKey(code) != VK_NONE && !Blocked(code)
  }

  /** The longer stuck-key timeout applies to these codes. */
  predicate IsModifier(code: Code) {
    || code in {ShiftLeft, ShiftRight, ControlLeft, ControlRight, AltLeft, AltRight, MetaLeft, MetaRight}
    || code == Unmapped("OSLeft")
    || code == Unmapped("OSRight")
  }

  function WithoutNumpadEnter(code: Code): Code {
    if code == NumpadEnter then Enter else code
  }

  /** The table is injective but for one pair: both Enter keys carry the same virtual key. */
  lemma SharedVirtualKey(a: Code, b: Code)
    requires VirtualKey(a) != VK_NONE && VirtualKey(b) != VK_NONE
    ensures VirtualKey(a) == VirtualKey(b) <==> a == b || {a, b} == {Enter, NumpadEnter}
  {
    CanonicalInverse(a);
    CanonicalInverse(b);
    SameButForEnter(a, b);
    assert VirtualKey(a) == VirtualKey(b) ==> WithoutNumpadEnter(a) == WithoutNumpadEnter(b);
    assert VirtualKey(Enter) == VirtualKey(NumpadEnter);
  }

  lemma SameButForEnter(a: Code, b: Code)
    ensures WithoutNumpadEnter(a) == WithoutNumpadEnter(b) <==> a == b || {a, b} == {Enter, NumpadEnter}
  {
    if {a, b} == {Enter, NumpadEnter} {
      assert a in {Enter, NumpadEnter} && b in {Enter, NumpadEnter};
    }
  }

  lemma CanonicalInverse(code: Code)
    requires VirtualKey(code) != VK_NONE
    ensures CanonicalCode(VirtualKey(code)) == WithoutNumpadEnter(code)
  {
    if code.Key? || code.Digit? || code.Numpad? || code.Function? {
      CanonicalInverseOfFamilies(code);
    } else if VirtualKey(code) <= 0x22 {
      CanonicalInverseOfLow(code);
    } else if VirtualKey(code) <= 0x28 {
      CanonicalInverseOfArrows(code);
    } else if VirtualKey(code) <= 0x60 {
      CanonicalInverseOfMiddle(code);
    } else if VirtualKey(code) <= 0x6F {
      CanonicalInverseOfNumpad(code);
    } else if VirtualKey(code) <= 0xA5 {
      CanonicalInverseOfHigh(code);
    } else {
      CanonicalInverseOfPunctuation(code);
    }
  }

  lemma CanonicalInverseOfFamilies(code: Code)
    requires VirtualKey(code) != VK_NONE && (code.Key? || code.Digit? || code.Numpad? || code.Function?)
    ensures CanonicalCode(VirtualKey(code)) == code
  {
  }

  lemma CanonicalInverseOfLow(code: Code)
    requires 0 < VirtualKey(code) <= 0x22 && !(code.Key? || code.Digit? || code.Numpad? || code.Function?)
    ensures CanonicalCode(VirtualKey(code)) == WithoutNumpadEnter(code)
  {
  }

  lemma CanonicalInverseOfArrows(code: Code)
    requires 0x22 < VirtualKey(code) <= 0x28 && !(code.Key? || code.Digit? || code.Numpad? || code.Function?)
    ensures CanonicalCode(VirtualKey(code)) == code
  {
  }

  lemma CanonicalInverseOfMiddle(code: Code)
    requires 0x28 < VirtualKey(code) <= 0x60 && !(code.Key? || code.Digit? || code.Numpad? || code.Function?)
    ensures CanonicalCode(VirtualKey(code)) == code
  {
  }

  lemma CanonicalInverseOfPunctuation(code: Code)
    requires VirtualKey(code) > 0xA5 && !(code.Key? || code.Digit? || code.Numpad? || code.Function?)
    ensures CanonicalCode(VirtualKey(code)) == code
  {
  }

  lemma CanonicalInverseOfNumpad(code: Code)
    requires 0x60 < VirtualKey(code) <= 0x6F && !(code.Key? || code.Digit? || code.Numpad? || code.Function?)
    ensures CanonicalCode(VirtualKey(code)) == code
  {
  }

  lemma CanonicalInverseOfHigh(code: Code)
    requires 0x6F < VirtualKey(code) <= 0xA5 && !(code.Key? || code.Digit? || code.Numpad? || code.Function?)
    ensures CanonicalCode(VirtualKey(code)) == code
  {
  }
}
