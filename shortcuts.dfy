// The keyboard shortcuts of multinav/src/main.ts (wireBeforeInputFor): a decision on the
// modifier flags, the key and the physical key code, where the order of the checks in
// the source decides which shortcut wins.
module Shortcuts {

  /** What a key press asks for; `Ignore` lets the page have the event. */
  datatype Action =
    | ReloadAll
    | FocusControlUrl
    | ToggleMirror
    | SetSource(index: int)
    | ZoomIn
    | ZoomOut
    | ZoomReset
    | Ignore

  /** The press names digit `d` by its physical key code, its numpad code or its key. */
  predicate NamesDigit(key: string, code: string, d: char)
  {
    code == "Digit" + [d] || code == "Numpad" + [d] || key == [d]
  }

  /** `Ctrl+Alt+<digit>`: the pane a digit key selects, checked for 1, 2, 3, 4 in turn. */
  function SourceDigit(key: string, code: string): (r: int)
    ensures -1 <= r <= 3
    ensures r == 0 <==> NamesDigit(key, code, '1')
    ensures r == 1 <==> !NamesDigit(key, code, '1') && NamesDigit(key, code, '2')
    ensures r == 2 <==> !NamesDigit(key, code, '1') && !NamesDigit(key, code, '2') && NamesDigit(key, code, '3')
    ensures r == -1 <==>
      !NamesDigit(key, code, '1') && !NamesDigit(key, code, '2') && !NamesDigit(key, code, '3') && !NamesDigit(key, code, '4')
  {
    if code == "Digit1" || code == "Numpad1" || key == "1" then 0
    else if code == "Digit2" || code == "Numpad2" || key == "2" then 1
    else if code == "Digit3" || code == "Numpad3" || key == "3" then 2
    else if code == "Digit4" || code == "Numpad4" || key == "4" then 3
    else -1
  }

  /** Without Alt, the key spells one of the three commands checked before zooming. */
  predicate CommandKey(shift: bool, key: string)
  {
    if shift then key in {"R", "r", "M", "m"} else key in {"L", "l"}
  }

  /** The `before-input-event` handler's decision. */
  function Classify(ctrl: bool, shift: bool, alt: bool, key: string, code: string): (a: Action)
    ensures !ctrl ==> a == Ignore
    ensures a == ReloadAll <==> ctrl && shift && !alt && (key == "R" || key == "r")
    ensures a == FocusControlUrl <==> ctrl && !shift && !alt && (key == "L" || key == "l")
    ensures a == ToggleMirror <==> ctrl && shift && !alt && (key == "M" || key == "m")
    ensures a.SetSource? <==> ctrl && !shift && alt && SourceDigit(key, code) >= 0
    ensures a.SetSource? ==> 0 <= a.index <= 3 && a.index == SourceDigit(key, code)
    ensures a == ZoomIn <==> ctrl && !alt && !CommandKey(shift, key) && (code == "Equal" || key == "+")
    ensures a == ZoomOut <==>
      ctrl && !alt && !CommandKey(shift, key) && !(code == "Equal" || key == "+") && (code == "Minus" || key == "-")
    ensures a == ZoomReset <==>
      ctrl && !alt && !CommandKey(shift, key) && !(code == "Equal" || key == "+") && !(code == "Minus" || key == "-")
      && (code == "Digit0" || key == "0")
    ensures ctrl && alt && (shift || SourceDigit(key, code) < 0) ==> a == Ignore
  {
    if ctrl && shift && !alt && (key == "R" || key == "r") then ReloadAll
    else if ctrl && !shift && !alt && (key == "L" || key == "l") then FocusControlUrl
    else if ctrl && shift && !alt && (key == "M" || key == "m") then ToggleMirror
    else if ctrl && !shift && alt && SourceDigit(key, code) >= 0 then SetSource(SourceDigit(key, code))
    else if ctrl && !alt && (code == "Equal" || key == "+") then ZoomIn
    else if ctrl && !alt && (code == "Minus" || key == "-") then ZoomOut
    else if ctrl && !alt && (code == "Digit0" || key == "0") then ZoomReset
    else Ignore
  }

  /** Earlier checks win, whatever the other fields of the press say: a key that spells a
      command beats a key code that means zoom, Ctrl+Alt never zooms, and the first digit
      named picks the source pane. */
  lemma ClassifyPrecedence(shift: bool, key: string, code: string, d: char)
    ensures shift && (key == "R" || key == "r") ==> Classify(true, shift, false, key, code) == ReloadAll
    ensures !shift && (key == "L" || key == "l") ==> Classify(true, shift, false, key, code) == FocusControlUrl
    ensures shift && (key == "M" || key == "m") ==> Classify(true, shift, false, key, code) == ToggleMirror
    ensures Classify(true, shift, true, key, code) !in {ZoomIn, ZoomOut, ZoomReset}
    ensures '1' <= d <= '4' && NamesDigit(key, code, d) && (forall e :: '1' <= e < d ==> !NamesDigit(key, code, e))
      ==> Classify(true, false, true, key, code) == SetSource(d as int - '1' as int)
  {
  }
}
