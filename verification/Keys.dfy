/** X11 keysyms by key name, and for single characters. */
module Keys {

  datatype Keysym = Keysym(value: nat) | UnknownKey

  function EditingKey(name: string): Keysym {
    match name
    case "return" => Keysym(0xff0d)
    case "enter" => Keysym(0xff0d)
    case "escape" => Keysym(0xff1b)
    case "esc" => Keysym(0xff1b)
    case "backspace" => Keysym(0xff08)
    case "tab" => Keysym(0xff09)
    case "space" => Keysym(0x0020)
    case "delete" => Keysym(0xffff)
    case "insert" => Keysym(0xff63)
    case "home" => Keysym(0xff50)
    case "end" => Keysym(0xff57)
    case "pageup" => Keysym(0xff55)
    case "pagedown" => Keysym(0xff56)
    case "left" => Keysym(0xff51)
    case "up" => Keysym(0xff52)
    case "right" => Keysym(0xff53)
    case "down" => Keysym(0xff54)
    case _ => UnknownKey
  }

  function FunctionKey(name: string): Keysym {
    match name
    case "f1" => Keysym(0xffbe)
    case "f2" => Keysym(0xffbf)
    case "f3" => Keysym(0xffc0)
    case "f4" => Keysym(0xffc1)
    case "f5" => Keysym(0xffc2)
    case "f6" => Keysym(0xffc3)
    case "f7" => Keysym(0xffc4)
    case "f8" => Keysym(0xffc5)
    case "f9" => Keysym(0xffc6)
    case "f10" => Keysym(0xffc7)
    case "f11" => Keysym(0xffc8)
    case "f12" => Keysym(0xffc9)
    case _ => UnknownKey
  }

  function ModifierKey(name: string): Keysym {
    match name
    case "shift" => Keysym(0xffe1)
    case "shift_l" => Keysym(0xffe1)
    case "shift_r" => Keysym(0xffe2)
    case "ctrl" => Keysym(0xffe3)
    case "control" => Keysym(0xffe3)
    case "control_l" => Keysym(0xffe3)
    case "control_r" => Keysym(0xffe4)
    case "alt" => Keysym(0xffe9)
    case "alt_l" => Keysym(0xffe9)
    case "alt_r" => Keysym(0xffea)
    case "altgr" => Keysym(0xfe03)
    case "super" => Keysym(0xffeb)
    case "super_l" => Keysym(0xffeb)
    case "super_r" => Keysym(0xffec)
    case "meta" => Keysym(0xffeb)
    case "meta_l" => Keysym(0xffeb)
    case "meta_r" => Keysym(0xffec)
    case _ => UnknownKey
  }

  function LockKey(name: string): Keysym {
    match name
    case "capslock" => Keysym(0xffe5)
    case "numlock" => Keysym(0xff7f)
    case "scrolllock" => Keysym(0xff14)
    case "printscreen" => Keysym(0xff61)
    case "pause" => Keysym(0xff13)
    case "menu" => Keysym(0xff67)
    case _ => UnknownKey
  }

  /** The keysym a lower-case name stands for. */
  function NamedKey(name: string): Keysym {
    if EditingKey(name).Keysym? then EditingKey(name)
    else if FunctionKey(name).Keysym? then FunctionKey(name)
    else if ModifierKey(name).Keysym? then ModifierKey(name)
    else LockKey(name)
  }

  /** The Kelvin sign is the one character outside ASCII that lower-cases into it. */
  function Lower(c: char): char {
    if 'A' <= c <= 'Z' then (c as int + 32) as char
    else if c == '\U{212A}' then 'k'
    else c
  }

  function LowerCase(s: string): (t: string)
    ensures |t| == |s|
  {
    if s == "" then "" else [Lower(s[0])] + LowerCase(s[1..])
  }

  /** A character by itself: Latin-1 by code point, the rest of the BMP in the Unicode range. */
  function CharacterKey(c: char): Keysym {
    var code := c as int;
    if 0x20 <= code <= 0x7e || 0xa0 <= code <= 0xff then Keysym(code)
    else if 0xff < code <= 0xffff then Keysym(0x0100_0000 + code)
    else UnknownKey
  }

  function CharToKeysym(key: string): (k: Keysym)
    ensures k.Keysym? ==> k.value < 0x1_0000_0000
  {
    var named := NamedKey(LowerCase(key));
    if named.Keysym? then named
    else if |key| == 1 then CharacterKey(key[0])
    else UnknownKey
  }

  lemma SingleCharacterHasNoName(name: string)
    requires |name| == 1
    ensures NamedKey(name) == UnknownKey
  {
  }

  /** Two characters typed by themselves are never the same key. */
  lemma DistinctCharacters(a: char, b: char)
    requires CharToKeysym([a]).Keysym? && CharToKeysym([a]) == CharToKeysym([b])
    ensures a == b
  {
    SingleCharacterHasNoName(LowerCase([a]));
    SingleCharacterHasNoName(LowerCase([b]));
  }

  /** The characters a US keyboard types with shift held. */
  predicate Shifted(c: char) {
    c in "~!@#$%^&*()_+{}|:\"<>?" || 'A' <= c <= 'Z'
  }

  /** Newline, carriage return and tab are typed as keys. */
  function TypedName(c: char): string {
    if c == '\n' || c == '\r' then "enter" else if c == '\t' then "tab" else [c]
  }

  /** Any other control character is skipped. */
  predicate Skipped(c: char) {
    (c as int < 0x20 || c as int == 0x7f) && c != '\n' && c != '\r' && c != '\t'
  }

  const SHIFT := CharToKeysym("shift")

  /** Capitals and the upper symbols of a US keyboard, by their place in ASCII. */
  predicate UpperCase(c: char) {
    || '!' <= c <= '&' || '(' <= c <= '+' || c == ':' || c == '<' || '>' <= c <= 'Z'
    || c == '^' || c == '_' || '{' <= c <= '~'
  }

  lemma ShiftedIff(c: char)
    ensures Shifted(c) <==> UpperCase(c)
  {
    var symbols := "~!@#$%^&*()_+{}|:\"<>?";
    assert symbols == "~!@#$%^&" + "*()_+{}|" + ":\"<>?";
  }

  lemma ShiftIs()
    ensures SHIFT == Keysym(0xffe1)
  {
    Lowercase("shift");
  }

  lemma ControlKeys()
    ensures CharToKeysym("enter") == Keysym(0xff0d) && CharToKeysym("tab") == Keysym(0xff09)
  {
    Lowercase("enter");
    Lowercase("tab");
  }

  lemma {:induction false} Lowercase(name: string)
    requires forall i :: 0 <= i < |name| ==> !('A' <= name[i] <= 'Z') && name[i] as int < 0x80
    ensures LowerCase(name) == name
  {
    if name != "" {
      Lowercase(name[1..]);
    }
  }

  /** Whatever case a name is written in, it is looked up in lower case. */
  lemma {:induction false} LowerCaseAt(name: string, i: nat)
    requires i < |name|
    ensures LowerCase(name)[i] == Lower(name[i])
  {
    if i != 0 {
      LowerCaseAt(name[1..], i - 1);
    }
  }

  /** ASCII and Latin-1 characters are their own keysyms, apart from controls; beyond them Unicode plus 2^24. */
  lemma CharacterKeys(c: char)
    ensures CharToKeysym([c])
            == if ' ' <= c <= '~' || '\U{a0}' <= c <= '\U{ff}' then Keysym(c as int)
               else if '\U{100}' <= c <= '\U{ffff}' then Keysym(16777216 + c as int)
               else UnknownKey
  {
    SingleCharacterHasNoName(LowerCase([c]));
  }

  /** The keysyms of names in a row, counted up from the first. */
  predicate InARow(names: seq<string>, first: nat) {
    forall i :: 0 <= i < |names| ==> NamedKey(names[i]) == Keysym(first + i)
  }

  /** X11 numbers the keys of one block in a row. */
  lemma CursorKeysInARow()
    ensures InARow(["home", "left", "up", "right", "down", "pageup", "pagedown", "end"], 0xff50)
    ensures InARow(["backspace", "tab"], 0xff08) && InARow(["insert"], 0xff63) && InARow(["delete"], 0xffff)
    ensures InARow(["return"], 0xff0d) && InARow(["escape"], 0xff1b) && InARow(["space"], 0x20)
  {
  }

  lemma FunctionKeysInARow()
    ensures InARow(["f1", "f2", "f3", "f4", "f5", "f6"], 0xffbe)
    ensures InARow(["f7", "f8", "f9", "f10", "f11", "f12"], 0xffc4)
  {
  }

  lemma ModifierKeysInARow()
    ensures InARow(["shift_l", "shift_r", "control_l", "control_r", "capslock"], 0xffe1)
  {
  }

  lemma AltKeysInARow()
    ensures InARow(["alt_l", "alt_r", "super_l", "super_r"], 0xffe9) && InARow(["altgr"], 0xfe03)
  {
  }

  lemma OtherKeysInARow()
    ensures InARow(["pause", "scrolllock"], 0xff13) && InARow(["printscreen"], 0xff61)
    ensures InARow(["menu"], 0xff67) && InARow(["numlock"], 0xff7f)
  {
  }

  /** Other names for the same keys. */
  lemma OtherNames()
    ensures InARow(["enter"], 0xff0d) && InARow(["esc"], 0xff1b)
    ensures InARow(["shift"], 0xffe1) && InARow(["ctrl"], 0xffe3) && InARow(["control"], 0xffe3)
  {
  }

  lemma OtherAltNames()
    ensures InARow(["alt"], 0xffe9) && InARow(["super"], 0xffeb)
    ensures InARow(["meta", "meta_r"], 0xffeb) && InARow(["meta_l"], 0xffeb)
  {
  }
}
