/**
  * Mapping one upper-cased key token of a hotkey string to its Win32
  * virtual-key code (HotkeyManager.GetVirtualKeyCode). Code 0 means
  * "not a key".
  */
module KeyCodes {
  import opened Wrappers

  const VK_F1: nat := 0x70

  // ---------------------------------------------------------------------------
  // `int.TryParse` with the default `NumberStyles.Integer`

  /** The whitespace `NumberStyles.AllowLeadingWhite`/`AllowTrailingWhite` accept. */
  predicate IsNumberWhite(c: char) {
    9 <= c as int <= 13 || c == ' '
  }

  function StripNumberWhite(s: string): (r: string)
    ensures |r| <= |s|
  {
    if |s| > 0 && IsNumberWhite(s[0]) then StripNumberWhite(s[1..])
    else if |s| > 0 && IsNumberWhite(s[|s| - 1]) then StripNumberWhite(s[..|s| - 1])
    else s
  }

  predicate IsDigit(c: char) {
    '0' <= c <= '9'
  }

  predicate AllDigits(s: string) {
    forall i :: 0 <= i < |s| ==> IsDigit(s[i])
  }

  /** The value of a string of decimal digits (leading zeros allowed). */
  function DigitsValue(s: string): nat
    requires AllDigits(s)
  {
    if s == [] then 0
    else 10 * DigitsValue(s[..|s| - 1]) + (s[|s| - 1] as int - '0' as int)
  }

  /** `int.TryParse(s, out n)`: optional surrounding whitespace, an optional sign, decimal digits, and a value that fits in 32 bits. */
  function TryParseInt32(s: string): (r: Option<int>)
    ensures r.Some? ==> -0x8000_0000 <= r.value <= 0x7FFF_FFFF
  {
    var t := StripNumberWhite(s);
    var signed := |t| > 0 && (t[0] == '+' || t[0] == '-');
    var digits := if signed then t[1..] else t;
    if |digits| == 0 || !AllDigits(digits) then None
    else
      var v: int := if signed && t[0] == '-' then 0 - DigitsValue(digits) as int else DigitsValue(digits);
      if -0x8000_0000 <= v <= 0x7FFF_FFFF then Some(v) else None
  }

  /** The shortest decimal spelling of `n`. */
  function Decimal(n: nat): (s: string)
    ensures |s| >= 1 && AllDigits(s)
  {
    if n < 10 then ['0' + n as char]
    else Decimal(n / 10) + ['0' + (n % 10) as char]
  }

  /** Reading back a decimal spelling gives the number spelled. */
  lemma {:induction false} DecimalRoundTrip(n: nat)
    ensures DigitsValue(Decimal(n)) == n
  {
    if n >= 10 {
      DecimalRoundTrip(n / 10);
      var s := Decimal(n);
      assert s[..|s| - 1] == Decimal(n / 10);
    }
  }

  /** A plain decimal number parses as itself. */
  lemma ParseDecimal(n: nat)
    requires n <= 0x7FFF_FFFF
    ensures TryParseInt32(Decimal(n)) == Some(n)
  {
    var s := Decimal(n);
    DecimalRoundTrip(n);
    assert !IsNumberWhite(s[0]) && !IsNumberWhite(s[|s| - 1]);
    assert StripNumberWhite(s) == s;
  }

  // ---------------------------------------------------------------------------
  // The key table

  /**
    * The fixed table of named keys (the `switch` expression); 0 for anything
    * not listed. No entry collides with a letter, a digit or a function key.
    */
  function NamedKeyCode(key: string): (code: nat)
    ensures code == 0 || (0x08 <= code <= 0xDE && !(0x30 <= code <= 0x5A) && !(0x70 <= code <= 0x87))
  {
    match key
    case "SPACE" => 0x20
    case "ENTER" => 0x0D
    case "RETURN" => 0x0D
    case "TAB" => 0x09
    case "ESCAPE" => 0x1B
    case "ESC" => 0x1B
    case "BACKSPACE" => 0x08
    case "DELETE" => 0x2E
    case "DEL" => 0x2E
    case "INSERT" => 0x2D
    case "INS" => 0x2D
    case "HOME" => 0x24
    case "END" => 0x23
    case "PAGEUP" => 0x21
    case "PGUP" => 0x21
    case "PAGEDOWN" => 0x22
    case "PGDN" => 0x22
    case "UP" => 0x26
    case "DOWN" => 0x28
    case "LEFT" => 0x25
    case "RIGHT" => 0x27
    case "PRINTSCREEN" => 0x2C
    case "PRTSC" => 0x2C
    case "SCROLLLOCK" => 0x91
    case "PAUSE" => 0x13
    case "NUMLOCK" => 0x90
    case "CAPSLOCK" => 0x14
    case "NUMPAD0" => 0x60
    case "NUMPAD1" => 0x61
    case "NUMPAD2" => 0x62
    case "NUMPAD3" => 0x63
    case "NUMPAD4" => 0x64
    case "NUMPAD5" => 0x65
    case "NUMPAD6" => 0x66
    case "NUMPAD7" => 0x67
    case "NUMPAD8" => 0x68
    case "NUMPAD9" => 0x69
    case "MULTIPLY" => 0x6A
    case "ADD" => 0x6B
    case "SUBTRACT" => 0x6D
    case "DECIMAL" => 0x6E
    case "DIVIDE" => 0x6F
    case ";" => 0xBA
    case "SEMICOLON" => 0xBA
    case "=" => 0xBB
    case "EQUALS" => 0xBB
    case "," => 0xBC
    case "COMMA" => 0xBC
    case "-" => 0xBD
    case "MINUS" => 0xBD
    case "." => 0xBE
    case "PERIOD" => 0xBE
    case "/" => 0xBF
    case "SLASH" => 0xBF
    case "`" => 0xC0
    case "BACKTICK" => 0xC0
    case "TILDE" => 0xC0
    case "[" => 0xDB
    case "OPENBRACKET" => 0xDB
    case "\\" => 0xDC
    case "BACKSLASH" => 0xDC
    case "]" => 0xDD
    case "CLOSEBRACKET" => 0xDD
    case "'" => 0xDE
    case "QUOTE" => 0xDE
    case _ => 0
  }

  predicate IsLetterOrDigit(c: char) {
    'A' <= c <= 'Z' || '0' <= c <= '9'
  }

  /** The number after a leading `F`, when it names one of F1..F24. */
  function FunctionKeyNumber(key: string): (n: Option<int>)
    ensures n.Some? ==> |key| >= 1 && key[0] == 'F' && n == TryParseInt32(key[1..]) && 1 <= n.value <= 24
  {
    if |key| >= 1 && key[0] == 'F' then
      var n := TryParseInt32(key[1..]);
      if n.Some? && 1 <= n.value <= 24 then n else None
    else None
  }

  /**
    * The virtual-key code of an upper-cased key token: first a single letter
    * or digit, then F1..F24, then the table. Every code is a valid one-byte
    * virtual-key code.
    */
  function VirtualKeyCode(key: string): (code: nat)
    ensures code <= 0xDE
  {
    if |key| == 1 && IsLetterOrDigit(key[0]) then key[0] as nat
    else if FunctionKeyNumber(key).Some? then VK_F1 + FunctionKeyNumber(key).value - 1
    else NamedKeyCode(key)
  }

  // ---------------------------------------------------------------------------
  // Properties

  /** A single letter or digit is its own ASCII code. */
  lemma SingleCharacterKeys(c: char)
    requires IsLetterOrDigit(c)
    ensures VirtualKeyCode([c]) == c as nat
    ensures 0x30 <= VirtualKeyCode([c]) <= 0x5A
  {
  }

  /** `F1`..`F24` are the codes 0x70..0x87, in order. */
  lemma FunctionKeys(n: nat)
    requires 1 <= n <= 24
    ensures VirtualKeyCode("F" + Decimal(n)) == 0x6F + n
  {
    var key := "F" + Decimal(n);
    ParseDecimal(n);
    assert key[1..] == Decimal(n);
    assert |key| >= 2;
  }

  /** Leading zeros and leading whitespace after the `F` are accepted, as `int.TryParse` accepts them. */
  lemma FunctionKeySpellings()
    ensures VirtualKeyCode("F09") == VirtualKeyCode("F9") == 0x78
    ensures VirtualKeyCode("F 9") == 0x78
  {
    assert "F09"[1..] == "09" && "F9"[1..] == "9" && "F 9"[1..] == " 9";
    assert DigitsValue("09") == 9 by { assert "09"[..1] == "0"; }
    assert StripNumberWhite(" 9") == "9" by { assert " 9"[1..] == "9"; }
  }

  /** A bare `F` is the letter F, and F24 is the last function key. */
  lemma FunctionKeyEnds()
    ensures VirtualKeyCode("F") == 0x46
    ensures VirtualKeyCode("F24") == 0x87
  {
    assert "F24"[1..] == "24";
    assert DigitsValue("24") == 24 by { assert "24"[..1] == "2"; }
  }

  /** F0 is below F1..F24 and is not a key at all. */
  lemma FunctionKeyZero()
    ensures VirtualKeyCode("F0") == 0
  {
    assert "F0"[1..] == "0";
  }

  /** F25 is above F1..F24 and is not a key at all. */
  lemma FunctionKeyTooLarge()
    ensures VirtualKeyCode("F25") == 0
  {
    assert "F25"[1..] == "25";
    assert DigitsValue("25") == 25 by { assert "25"[..1] == "2"; }
  }

  // Each alias pair of the table names one key.

  /** Enter is also spelled RETURN. */
  lemma EnterAlias()
    ensures VirtualKeyCode("ENTER") == VirtualKeyCode("RETURN") == 0x0D
  {
    TableLookup("ENTER");
    TableLookup("RETURN");
  }

  /** Escape is also spelled ESC. */
  lemma EscapeAlias()
    ensures VirtualKeyCode("ESCAPE") == VirtualKeyCode("ESC") == 0x1B
  {
    TableLookup("ESCAPE");
    TableLookup("ESC");
  }

  /** Delete is also spelled DEL. */
  lemma DeleteAlias()
    ensures VirtualKeyCode("DELETE") == VirtualKeyCode("DEL") == 0x2E
  {
    TableLookup("DELETE");
    TableLookup("DEL");
  }

  /** Insert is also spelled INS. */
  lemma InsertAlias()
    ensures VirtualKeyCode("INSERT") == VirtualKeyCode("INS") == 0x2D
  {
    TableLookup("INSERT");
    TableLookup("INS");
  }

  /** Page Up is also spelled PGUP. */
  lemma PageUpAlias()
    ensures VirtualKeyCode("PAGEUP") == VirtualKeyCode("PGUP") == 0x21
  {
    TableLookup("PAGEUP");
    TableLookup("PGUP");
  }

  /** Page Down is also spelled PGDN. */
  lemma PageDownAlias()
    ensures VirtualKeyCode("PAGEDOWN") == VirtualKeyCode("PGDN") == 0x22
  {
    TableLookup("PAGEDOWN");
    TableLookup("PGDN");
  }

  /** Print Screen is also spelled PRTSC. */
  lemma PrintScreenAlias()
    ensures VirtualKeyCode("PRINTSCREEN") == VirtualKeyCode("PRTSC") == 0x2C
  {
    TableLookup("PRINTSCREEN");
    TableLookup("PRTSC");
  }

  /** `;` is also spelled SEMICOLON. */
  lemma SemicolonAlias()
    ensures VirtualKeyCode(";") == VirtualKeyCode("SEMICOLON") == 0xBA
  {
    TableLookup(";");
    TableLookup("SEMICOLON");
  }

  /** `=` is also spelled EQUALS. */
  lemma EqualsAlias()
    ensures VirtualKeyCode("=") == VirtualKeyCode("EQUALS") == 0xBB
  {
    TableLookup("=");
    TableLookup("EQUALS");
  }

  /** `,` is also spelled COMMA. */
  lemma CommaAlias()
    ensures VirtualKeyCode(",") == VirtualKeyCode("COMMA") == 0xBC
  {
    TableLookup(",");
    TableLookup("COMMA");
  }

  /** `-` is also spelled MINUS. */
  lemma MinusAlias()
    ensures VirtualKeyCode("-") == VirtualKeyCode("MINUS") == 0xBD
  {
    TableLookup("-");
    TableLookup("MINUS");
  }

  /** `.` is also spelled PERIOD. */
  lemma PeriodAlias()
    ensures VirtualKeyCode(".") == VirtualKeyCode("PERIOD") == 0xBE
  {
    TableLookup(".");
    TableLookup("PERIOD");
  }

  /** `/` is also spelled SLASH. */
  lemma SlashAlias()
    ensures VirtualKeyCode("/") == VirtualKeyCode("SLASH") == 0xBF
  {
    TableLookup("/");
    TableLookup("SLASH");
  }

  /** The backtick is also spelled BACKTICK. */
  lemma BacktickAlias()
    ensures VirtualKeyCode("`") == VirtualKeyCode("BACKTICK") == 0xC0
  {
    TableLookup("`");
    TableLookup("BACKTICK");
  }

  /** The backtick key is also spelled TILDE. */
  lemma TildeAlias()
    ensures VirtualKeyCode("`") == VirtualKeyCode("TILDE") == 0xC0
  {
    TableLookup("`");
    TableLookup("TILDE");
  }

  /** `[` is also spelled OPENBRACKET. */
  lemma OpenBracketAlias()
    ensures VirtualKeyCode("[") == VirtualKeyCode("OPENBRACKET") == 0xDB
  {
    TableLookup("[");
    TableLookup("OPENBRACKET");
  }

  /** `]` is also spelled CLOSEBRACKET. */
  lemma CloseBracketAlias()
    ensures VirtualKeyCode("]") == VirtualKeyCode("CLOSEBRACKET") == 0xDD
  {
    TableLookup("]");
    TableLookup("CLOSEBRACKET");
  }

  /** The backslash is also spelled BACKSLASH. */
  lemma BackslashAlias()
    ensures VirtualKeyCode("\\") == VirtualKeyCode("BACKSLASH") == 0xDC
  {
    TableLookup("\\");
    TableLookup("BACKSLASH");
  }

  /** `'` is also spelled QUOTE. */
  lemma QuoteAlias()
    ensures VirtualKeyCode("'") == VirtualKeyCode("QUOTE") == 0xDE
  {
    TableLookup("'");
    TableLookup("QUOTE");
  }

  /** A token that is not a single letter or digit and does not start with `F` is looked up in the table alone, so an unlisted one is not a key. */
  lemma TableLookup(key: string)
    requires !(|key| == 1 && IsLetterOrDigit(key[0]))
    requires |key| == 0 || key[0] != 'F'
    ensures VirtualKeyCode(key) == NamedKeyCode(key)
    ensures NamedKeyCode(key) == 0 ==> VirtualKeyCode(key) == 0
  {
  }

  /** Lower-case letters and the empty token are not keys: callers must upper-case first. */
  lemma LowerCaseAndEmptyRejected()
    ensures VirtualKeyCode("t") == 0 && VirtualKeyCode("") == 0 && VirtualKeyCode("esc") == 0
  {
  }
}
