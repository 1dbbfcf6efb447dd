/** The hotkey recorder line edit: a key press with its held modifiers
    becomes text such as "CTRL+SHIFT+F7". Qt key codes are integers with
    Qt's own values (`Qt::Key`); the modifier state is Qt's flag word. */
module HotkeyRecorder {
  import Strings
  import opened Models

  // Qt::Key values used by the recorder.
  const KeySpace := 0x20
  const KeyApostrophe := 0x27
  const KeyComma := 0x2c
  const KeyMinus := 0x2d
  const KeyPeriod := 0x2e
  const KeySlash := 0x2f
  const Key0 := 0x30
  const Key9 := 0x39
  const KeySemicolon := 0x3b
  const KeyEqual := 0x3d
  const KeyA := 0x41
  const KeyZ := 0x5a
  const KeyBracketLeft := 0x5b
  const KeyBackslash := 0x5c
  const KeyBracketRight := 0x5d
  const KeyQuoteLeft := 0x60
  const KeyEscape := 0x0100_0000
  const KeyTab := 0x0100_0001
  const KeyBackspace := 0x0100_0003
  const KeyReturn := 0x0100_0004
  const KeyEnter := 0x0100_0005
  const KeyInsert := 0x0100_0006
  const KeyDelete := 0x0100_0007
  const KeyHome := 0x0100_0010
  const KeyEnd := 0x0100_0011
  const KeyPageUp := 0x0100_0016
  const KeyPageDown := 0x0100_0017
  const KeyShift := 0x0100_0020
  const KeyControl := 0x0100_0021
  const KeyMeta := 0x0100_0022
  const KeyAlt := 0x0100_0023
  const KeyF1 := 0x0100_0030
  const KeyF12 := 0x0100_003b

  // Qt::KeyboardModifier flags.
  const ShiftModifier: bv32 := 0x0200_0000
  const ControlModifier: bv32 := 0x0400_0000
  const AltModifier: bv32 := 0x0800_0000
  const MetaModifier: bv32 := 0x1000_0000

  /** The table of special keys. */
  const SpecialKeys: map<int, string> := map[
    KeySpace := "SPACE",
    KeyTab := "TAB",
    KeyReturn := "ENTER",
    KeyEnter := "ENTER",
    KeyInsert := "INSERT",
    KeyHome := "HOME",
    KeyEnd := "END",
    KeyPageUp := "PAGE_UP",
    KeyPageDown := "PAGE_DOWN",
    KeyMinus := "-",
    KeyEqual := "=",
    KeyBracketLeft := "[",
    KeyBracketRight := "]",
    KeyBackslash := "\\",
    KeySemicolon := ";",
    KeyApostrophe := "'",
    KeyComma := ",",
    KeyPeriod := ".",
    KeySlash := "/",
    KeyQuoteLeft := "`"
  ]

  /** `_map_qt_key_to_string`: the token of a key, if it has one. Tokens are
      never empty and never contain the "+" separator. */
  function MapQtKey(code: int): (token: Option<string>)
    ensures token.Some? ==> |token.value| >= 1 && '+' !in token.value
  {
    if KeyF1 <= code <= KeyF12 then Some("F" + Strings.NatToDecimal(code - KeyF1 + 1))
    else if KeyA <= code <= KeyZ then Some([code as char])  // chr(code) is already upper case
    else if Key0 <= code <= Key9 then Some([code as char])
    else if code in SpecialKeys then Some(SpecialKeys[code])
    else None
  }

  /** The names of the twelve function keys, in key order. */
  const FunctionKeyNames: seq<string> :=
    ["F1", "F2", "F3", "F4", "F5", "F6", "F7", "F8", "F9", "F10", "F11", "F12"]

  const Letters := "ABCDEFGHIJKLMNOPQRSTUVWXYZ"

  const Digits := "0123456789"

  /** The function keys map to "F1" .. "F12" by their offset from F1. */
  lemma FunctionKeyTokens(code: int)
    ensures KeyF1 <= code <= KeyF12 ==> MapQtKey(code) == Some(FunctionKeyNames[code - KeyF1])
  {
    if KeyF1 <= code <= KeyF12 {
      var n := code - KeyF1 + 1;
      if n < 10 {
        assert MapQtKey(code) == Some("F" + [Strings.DigitChar(n)]);
        assert n == 1 ==> "F" + [Strings.DigitChar(n)] == "F1";
        assert n == 2 ==> "F" + [Strings.DigitChar(n)] == "F2";
        assert n == 3 ==> "F" + [Strings.DigitChar(n)] == "F3";
        assert n == 4 ==> "F" + [Strings.DigitChar(n)] == "F4";
        assert n == 5 ==> "F" + [Strings.DigitChar(n)] == "F5";
        assert n == 6 ==> "F" + [Strings.DigitChar(n)] == "F6";
        assert n == 7 ==> "F" + [Strings.DigitChar(n)] == "F7";
        assert n == 8 ==> "F" + [Strings.DigitChar(n)] == "F8";
        assert n == 9 ==> "F" + [Strings.DigitChar(n)] == "F9";
      } else {
        var d := Strings.DigitChar(n - 10);
        assert Strings.NatToDecimal(n) == Strings.NatToDecimal(1) + [d];
        assert Strings.NatToDecimal(1) == "1";
        assert "F" + ("1" + [d]) == "F1" + [d];
        assert MapQtKey(code) == Some("F1" + [d]);
        assert n == 10 ==> "F1" + [d] == "F10";
        assert n == 11 ==> "F1" + [d] == "F11";
        assert n == 12 ==> "F1" + [d] == "F12";
      }
    }
  }

  /** Letters map to the pressed capital letter, digits to the pressed
      digit, both Return and Enter to "ENTER", and Escape, Backspace, Delete
      and the bare modifiers to no token. */
  lemma MapQtKeyTokens(code: int)
    ensures KeyA <= code <= KeyZ ==> MapQtKey(code) == Some([Letters[code - KeyA]])
    ensures Key0 <= code <= Key9 ==> MapQtKey(code) == Some([Digits[code - Key0]])
    ensures code == KeyReturn || code == KeyEnter ==> MapQtKey(code) == Some("ENTER")
    ensures code in {KeyEscape, KeyBackspace, KeyDelete, KeyShift, KeyControl, KeyMeta, KeyAlt} ==> MapQtKey(code) == None
  {
  }

  /** The modifier names in the fixed order CTRL, SHIFT, ALT, WIN. */
  function ModifierNames(modifiers: bv32): (names: seq<string>)
    ensures |names| <= 4
    ensures forall i :: 0 <= i < |names| ==> names[i] in ["CTRL", "SHIFT", "ALT", "WIN"]
  {
    (if modifiers & ControlModifier != 0 then ["CTRL"] else [])
    + (if modifiers & ShiftModifier != 0 then ["SHIFT"] else [])
    + (if modifiers & AltModifier != 0 then ["ALT"] else [])
    + (if modifiers & MetaModifier != 0 then ["WIN"] else [])
  }

  /** The position of a modifier name in the order the recorder writes. */
  function ModifierRank(name: string): nat {
    if name == "CTRL" then 0 else if name == "SHIFT" then 1 else if name == "ALT" then 2 else 3
  }

  /** Exactly the held modifiers are named. */
  lemma ModifierNamesExact(modifiers: bv32)
    ensures "CTRL" in ModifierNames(modifiers) <==> modifiers & ControlModifier != 0
    ensures "SHIFT" in ModifierNames(modifiers) <==> modifiers & ShiftModifier != 0
    ensures "ALT" in ModifierNames(modifiers) <==> modifiers & AltModifier != 0
    ensures "WIN" in ModifierNames(modifiers) <==> modifiers & MetaModifier != 0
  {
    var ctrl: seq<string> := if modifiers & ControlModifier != 0 then ["CTRL"] else [];
    var shift: seq<string> := if modifiers & ShiftModifier != 0 then ["SHIFT"] else [];
    var alt: seq<string> := if modifiers & AltModifier != 0 then ["ALT"] else [];
    var win: seq<string> := if modifiers & MetaModifier != 0 then ["WIN"] else [];
    assert ModifierNames(modifiers) == ctrl + shift + alt + win;
  }

  /** The names come in the order CTRL, SHIFT, ALT, WIN: each ranks above
      the one before it, so none repeats. */
  lemma ModifierNamesOrdered(modifiers: bv32)
    ensures forall i :: 0 < i < |ModifierNames(modifiers)| ==>
      ModifierRank(ModifierNames(modifiers)[i - 1]) < ModifierRank(ModifierNames(modifiers)[i])
  {
    var ctrl: seq<string> := if modifiers & ControlModifier != 0 then ["CTRL"] else [];
    var shift: seq<string> := if modifiers & ShiftModifier != 0 then ["SHIFT"] else [];
    var alt: seq<string> := if modifiers & AltModifier != 0 then ["ALT"] else [];
    var win: seq<string> := if modifiers & MetaModifier != 0 then ["WIN"] else [];
    assert ModifierNames(modifiers) == ctrl + shift + alt + win;
  }

  /** What the recorder writes for a key with a token: the held modifiers,
      then the token, joined by "+". */
  function Recorded(modifiers: bv32, token: string): string {
    Strings.Join(ModifierNames(modifiers) + [token], "+")
  }

  /** Splitting recorded text on "+" gives back the modifier list followed by
      the key token. */
  lemma RecordedSplits(modifiers: bv32, code: int)
    requires MapQtKey(code).Some?
    ensures Strings.Split(Recorded(modifiers, MapQtKey(code).value), '+') ==
      ModifierNames(modifiers) + [MapQtKey(code).value]
  {
    var parts := ModifierNames(modifiers) + [MapQtKey(code).value];
    forall i | 0 <= i < |parts| ensures '+' !in parts[i] {
      if i < |ModifierNames(modifiers)| {
        assert parts[i] in ["CTRL", "SHIFT", "ALT", "WIN"];
      }
    }
    Strings.SplitJoin(parts, '+');
  }

  /** With every modifier held the order is CTRL, SHIFT, ALT, WIN; with none
      held only the token is written. */
  lemma ModifierOrder(token: string)
    ensures ModifierNames(ControlModifier | ShiftModifier | AltModifier | MetaModifier) == ["CTRL", "SHIFT", "ALT", "WIN"]
    ensures ModifierNames(ShiftModifier | AltModifier) == ["SHIFT", "ALT"]
    ensures Recorded(0, token) == token
  {
  }

  class HotkeyRecorder {
    var text: string
    var hasFocus: bool

    /** `keyPressEvent`: Backspace or Delete clears the text; Escape drops
        the focus and keeps the text; a bare modifier, or a key without a
        token, changes nothing; otherwise the text becomes the recorded
        combination and the focus is dropped. */
    method KeyPress(key: int, modifiers: bv32)
      modifies this
      ensures key == KeyBackspace || key == KeyDelete ==> text == "" && hasFocus == old(hasFocus)
      ensures key == KeyEscape ==> text == old(text) && !hasFocus
      ensures key in {KeyControl, KeyShift, KeyAlt, KeyMeta} ==> text == old(text) && hasFocus == old(hasFocus)
      ensures key !in {KeyBackspace, KeyDelete, KeyEscape, KeyControl, KeyShift, KeyAlt, KeyMeta} ==>
        if MapQtKey(key).None? then text == old(text) && hasFocus == old(hasFocus)
        else text == Recorded(modifiers, MapQtKey(key).value) && !hasFocus
    {
      if key == KeyBackspace || key == KeyDelete {
        text := "";
        return;
      }
      if key == KeyEscape {
        hasFocus := false;
        return;
      }
      if key in {KeyControl, KeyShift, KeyAlt, KeyMeta} {
        return;
      }
      var parts: seq<string> := [];
      if modifiers & ControlModifier != 0 {
        parts := parts + ["CTRL"];
      }
      if modifiers & ShiftModifier != 0 {
        parts := parts + ["SHIFT"];
      }
      if modifiers & AltModifier != 0 {
        parts := parts + ["ALT"];
      }
      if modifiers & MetaModifier != 0 {
        parts := parts + ["WIN"];
      }
      assert parts == ModifierNames(modifiers);
      var keyText := MapQtKey(key);
      if keyText.None? {
        return;
      }
      parts := parts + [keyText.value];
      text := Strings.Join(parts, "+");
      hasFocus := false;
    }
  }
}
