/**
 Text that other programs read back: shell words and TOML strings for agent configuration
 (frontend/lib/agent-connection-config.ts), HTML for Telegram messages (worker/src/telegram-alert.ts).
 */
module Printers {
  import opened Options

  // ----- shellQuote -----

  const QUOTED_APOSTROPHE: string := "'\"'\"'"

  /** Every `c` of `s` replaced by `by`. */
  function ReplaceAll(s: string, c: char, replacement: string): string {
    if s == "" then "" else (if s[0] == c then replacement else [s[0]]) + ReplaceAll(s[1..], c, replacement)
  }

  function ShellQuote(value: string): string { "'" + ReplaceAll(value, '\'', QUOTED_APOSTROPHE) + "'" }

  datatype Quoting = UNQUOTED | SINGLE | DOUBLE

  predicate IsBlank(c: char) { c == ' ' || c == '\t' || c == '\n' }

  /** Characters whose unquoted or double-quoted meaning the reader does not follow. */
  predicate IsSpecial(c: char) {
    c in {'|', '&', ';', '<', '>', '(', ')', '$', '`', '\\', '*', '?', '[', '#', '~', '=', '%'}
  }

  /**
   One shell word, quotes removed, by sections 2.2.2 and 2.2.3 of POSIX.1 XCU: nothing is
   special between apostrophes, and `$`, the grave accent and the backslash are between
   double quotes. `None` where a NUL, an open quote or an expansion stops the reader.
   */
  function ReadWord(s: string, mode: Quoting, word: string): Option<(string, string)>
    decreases |s|
  {
    if s == "" then (if mode == UNQUOTED then Some((word, "")) else None)
    else
      var c, rest := s[0], s[1..];
      if c == '\0' then None
      else
        match mode
        case UNQUOTED =>
          if IsBlank(c) then Some((word, s))
          else if c == '\'' then ReadWord(rest, SINGLE, word)
          else if c == '"' then ReadWord(rest, DOUBLE, word)
          else if IsSpecial(c) then None
          else ReadWord(rest, UNQUOTED, word + [c])
        case SINGLE => if c == '\'' then ReadWord(rest, UNQUOTED, word) else ReadWord(rest, SINGLE, word + [c])
        case DOUBLE =>
          if c == '"' then ReadWord(rest, UNQUOTED, word)
          else if c in {'$', '`', '\\'} then None
          else ReadWord(rest, DOUBLE, word + [c])
  }

  predicate EndsWord(rest: string) { rest == "" || IsBlank(rest[0]) }

  /** A quoted apostrophe in the middle of a quotation adds an apostrophe and stays in it. */
  lemma ReadsQuotedApostrophe(tail: string, word: string)
    ensures ReadWord(QUOTED_APOSTROPHE + tail, SINGLE, word) == ReadWord(tail, SINGLE, word + "'")
  {
    var s := QUOTED_APOSTROPHE + tail;
    assert s[0] == '\'' && s[1..] == "\"'\"'" + tail;
    assert s[1..][0] == '"' && s[1..][1..] == "'\"'" + tail;
    assert s[1..][1..][0] == '\'' && s[1..][1..][1..] == "\"'" + tail;
    assert s[1..][1..][1..][0] == '"' && s[1..][1..][1..][1..] == "'" + tail;
    assert s[1..][1..][1..][1..][0] == '\'' && s[1..][1..][1..][1..][1..] == tail;
    assert ReadWord(s[1..][1..][1..][1..], UNQUOTED, word + "'") == ReadWord(tail, SINGLE, word + "'");
    assert ReadWord(s[1..][1..][1..], DOUBLE, word + "'") == ReadWord(s[1..][1..][1..][1..], UNQUOTED, word + "'");
    assert ReadWord(s[1..][1..], DOUBLE, word) == ReadWord(s[1..][1..][1..], DOUBLE, word + "'");
  }

  lemma {:induction false} ReadsQuotation(value: string, rest: string, word: string)
    ensures ReadWord(ReplaceAll(value, '\'', QUOTED_APOSTROPHE) + "'" + rest, SINGLE, word)
         == if '\0' in value then None else ReadWord(rest, UNQUOTED, word + value)
    decreases |value|
  {
    var quoted := ReplaceAll(value, '\'', QUOTED_APOSTROPHE) + "'" + rest;
    if value == "" {
      assert quoted[0] == '\'' && quoted[1..] == rest;
      assert word + value == word;
    } else {
      var tail := ReplaceAll(value[1..], '\'', QUOTED_APOSTROPHE) + "'" + rest;
      assert value == [value[0]] + value[1..];
      ReadsQuotation(value[1..], rest, word + [value[0]]);
      assert word + [value[0]] + value[1..] == word + value;
      if value[0] == '\'' {
        assert quoted == QUOTED_APOSTROPHE + tail;
        ReadsQuotedApostrophe(tail, word);
      } else {
        assert quoted[0] == value[0] && quoted[1..] == tail;
      }
    }
  }

  /** A quoted value reads back as one word equal to it, in any context, exactly when it holds no NUL. */
  lemma ShellQuoteReadsBackIff(value: string, rest: string)
    requires EndsWord(rest)
    ensures ReadWord(ShellQuote(value) + rest, UNQUOTED, "") == Some((value, rest)) <==> '\0' !in value
  {
    var s := ShellQuote(value) + rest;
    var tail := ReplaceAll(value, '\'', QUOTED_APOSTROPHE) + "'" + rest;
    assert s[0] == '\'' && s[1..] == tail;
    ReadsQuotation(value, rest, "");
    assert "" + value == value;
    if rest != "" {
      assert IsBlank(rest[0]);
    }
  }

  // ----- tomlString -----

  function HexDigit(n: nat): char
    requires n < 16
  {
    if n < 10 then ('0' as int + n) as char else ('A' as int + n - 10) as char
  }

  /** `toString(16)` in upper case. */
  function Hex(n: nat): string { if n < 16 then [HexDigit(n)] else Hex(n / 16) + [HexDigit(n % 16)] }

  function Zeros(n: nat): string { if n == 0 then "" else Zeros(n - 1) + "0" }

  function PadStart(s: string, length: nat): string { if |s| >= length then s else Zeros(length - |s|) + s }

  function TomlEscape(c: char): string {
    match c
    case '"' => "\\\""
    case '\\' => "\\\\"
    case '\U{0008}' => "\\b"
    case '\t' => "\\t"
    case '\n' => "\\n"
    case '\U{000C}' => "\\f"
    case '\r' => "\\r"
    case _ => if c as int <= 0x1f || c as int == 0x7f then "\\u" + PadStart(Hex(c as int), 4) else [c]
  }

  function TomlEscaped(value: string): string {
    if value == "" then "" else TomlEscape(value[0]) + TomlEscaped(value[1..])
  }

  method TomlString(value: string) returns (escaped: string)
    ensures escaped == "\"" + TomlEscaped(value) + "\""
  {
    escaped := "\"";
    var i := 0;
    while i < |value|
      invariant 0 <= i <= |value|
      invariant escaped + TomlEscaped(value[i..]) == "\"" + TomlEscaped(value)
    {
      var character := TomlEscape(value[i]);
      assert value[i..][1..] == value[i + 1..];
      assert escaped + (character + TomlEscaped(value[i + 1..])) == (escaped + character) + TomlEscaped(value[i + 1..]);
      escaped := escaped + character;
      i := i + 1;
    }
    assert TomlEscaped(value[i..]) == "";
    escaped := escaped + "\"";
  }

  /** The value of a hexadecimal digit of either case. */
  function HexValue(c: char): Option<nat> {
    if '0' <= c <= '9' then Some(c as int - '0' as int)
    else if 'A' <= c <= 'F' then Some(c as int - 'A' as int + 10)
    else if 'a' <= c <= 'f' then Some(c as int - 'a' as int + 10)
    else None
  }

  function ReadHex(s: string): Option<nat> {
    if s == "" then Some(0)
    else
      var front, last := ReadHex(s[..|s| - 1]), HexValue(s[|s| - 1]);
      if front.Some? && last.Some? then Some(front.value * 16 + last.value) else None
  }

  predicate IsScalar(n: nat) { n < 0xD800 || 0xE000 <= n < 0x11_0000 }

  /** A character TOML v1.0.0 allows unescaped in a basic string. */
  predicate IsBasicUnescaped(c: char) { c == '\t' || (c as int >= 0x20 && c != '"' && c != '\\' && c as int != 0x7f) }

  /** The character an escape sequence stands for, and what follows it; `s` starts after the backslash. */
  function ReadEscape(s: string): Option<(char, string)> {
    if s == "" then None
    else
      match s[0]
      case 'b' => Some(('\U{0008}', s[1..]))
      case 't' => Some(('\t', s[1..]))
      case 'n' => Some(('\n', s[1..]))
      case 'f' => Some(('\U{000C}', s[1..]))
      case 'r' => Some(('\r', s[1..]))
      case '"' => Some(('"', s[1..]))
      case '\\' => Some(('\\', s[1..]))
      case 'u' => if |s| < 5 then None else ReadCodePoint(s[1..5], s[5..])
      case 'U' => if |s| < 9 then None else ReadCodePoint(s[1..9], s[9..])
      case _ => None
  }

  function ReadCodePoint(digits: string, rest: string): Option<(char, string)> {
    var code := ReadHex(digits);
    if code.Some? && IsScalar(code.value) then Some((code.value as char, rest)) else None
  }

  /** The rest of a basic string after its opening quotation mark (TOML v1.0.0, String). */
  function ReadBasic(s: string, read: string): Option<(string, string)>
    decreases |s|
  {
    if s == "" then None
    else if s[0] == '"' then Some((read, s[1..]))
    else if s[0] == '\\' then
      var escape := ReadEscape(s[1..]);
      if escape.Some? && |escape.value.1| < |s| then ReadBasic(escape.value.1, read + [escape.value.0]) else None
    else if IsBasicUnescaped(s[0]) then ReadBasic(s[1..], read + [s[0]])
    else None
  }

  /** A TOML reader given text that starts with a basic string. */
  function ReadTomlString(s: string): Option<(string, string)> {
    if s != "" && s[0] == '"' then ReadBasic(s[1..], "") else None
  }

  lemma {:induction false} HexReadsBack(n: nat)
    ensures ReadHex(Hex(n)) == Some(n)
  {
    assert HexValue(HexDigit(n % 16)) == Some(n % 16);
    if n < 16 {
      assert Hex(n)[..0] == "";
    } else {
      HexReadsBack(n / 16);
      assert Hex(n)[..|Hex(n)| - 1] == Hex(n / 16);
    }
  }

  lemma {:induction false} LeadingZeros(zeros: nat, s: string)
    ensures |Zeros(zeros)| == zeros && ReadHex(Zeros(zeros) + s) == ReadHex(s)
    decreases |s|, zeros
  {
    var padded := Zeros(zeros) + s;
    if s != "" {
      LeadingZeros(zeros, s[..|s| - 1]);
      assert padded[..|padded| - 1] == Zeros(zeros) + s[..|s| - 1];
    } else if zeros > 0 {
      LeadingZeros(zeros - 1, "");
      assert Zeros(zeros - 1) + "" == Zeros(zeros - 1);
      assert padded[..|padded| - 1] == Zeros(zeros - 1) && padded[|padded| - 1] == '0';
    }
  }

  lemma ControlHexReadsBack(n: nat)
    requires n <= 0x7f
    ensures |PadStart(Hex(n), 4)| == 4 && ReadHex(PadStart(Hex(n), 4)) == Some(n)
  {
    HexReadsBack(n);
    assert |Hex(n)| <= 2 by {
      assert |Hex(n / 16)| == 1;
    }
    LeadingZeros(4 - |Hex(n)|, Hex(n));
  }

  /** Whatever one character is written as is read back as that character. */
  lemma ReadsEscapedChar(c: char, rest: string, read: string)
    ensures ReadBasic(TomlEscape(c) + rest, read) == ReadBasic(rest, read + [c])
  {
    var escape := TomlEscape(c);
    var s := escape + rest;
    if escape[0] != '\\' {
      assert escape == [c] && s[1..] == rest;
    } else if c in {'"', '\\', '\U{0008}', '\t', '\n', '\U{000C}', '\r'} {
      assert s[1..][0] == escape[1] && s[1..][1..] == rest;
      assert ReadEscape(s[1..]) == Some((c, rest));
    } else {
      var digits := PadStart(Hex(c as int), 4);
      ControlHexReadsBack(c as int);
      assert s[0] == '\\' && s[1..] == "u" + digits + rest;
      assert s[1..][1..5] == digits && s[1..][5..] == rest;
      assert ReadEscape(s[1..]) == Some((c, rest));
    }
  }

  lemma {:induction false} ReadsEscaped(value: string, rest: string, read: string)
    ensures ReadBasic(TomlEscaped(value) + "\"" + rest, read) == Some((read + value, rest))
    decreases |value|
  {
    if value == "" {
      assert ("\"" + rest)[1..] == rest && TomlEscaped(value) + "\"" + rest == "\"" + rest;
      assert read + value == read;
    } else {
      var tail := TomlEscaped(value[1..]) + "\"" + rest;
      assert TomlEscaped(value) + "\"" + rest == TomlEscape(value[0]) + tail;
      ReadsEscapedChar(value[0], tail, read);
      ReadsEscaped(value[1..], rest, read + [value[0]]);
      assert read + [value[0]] + value[1..] == read + value;
    }
  }

  /** Every string of Unicode scalar values, written as a TOML basic string, reads back as itself in any context. */
  lemma TomlStringReadsBack(value: string, rest: string)
    ensures ReadTomlString("\"" + TomlEscaped(value) + "\"" + rest) == Some((value, rest))
  {
    var s := "\"" + TomlEscaped(value) + "\"" + rest;
    assert s[1..] == TomlEscaped(value) + "\"" + rest;
    ReadsEscaped(value, rest, "");
    assert "" + value == value;
  }

  // ----- escapeHtml -----

  function EscapeHtml(value: string): string {
    ReplaceAll(ReplaceAll(ReplaceAll(ReplaceAll(value, '&', "&amp;"), '<', "&lt;"), '>', "&gt;"), '"', "&quot;")
  }

  function Entity(c: char): string {
    match c
    case '&' => "&amp;"
    case '<' => "&lt;"
    case '>' => "&gt;"
    case '"' => "&quot;"
    case _ => [c]
  }

  function EntitiesOf(value: string): string {
    if value == "" then "" else Entity(value[0]) + EntitiesOf(value[1..])
  }

  lemma {:induction false} ReplaceDistributes(a: string, b: string, c: char, replacement: string)
    ensures ReplaceAll(a + b, c, replacement) == ReplaceAll(a, c, replacement) + ReplaceAll(b, c, replacement)
  {
    if a == "" {
      assert a + b == b;
    } else {
      assert (a + b)[1..] == a[1..] + b;
      ReplaceDistributes(a[1..], b, c, replacement);
    }
  }

  lemma {:induction false} ReplaceAbsent(s: string, c: char, replacement: string)
    requires c !in s
    ensures ReplaceAll(s, c, replacement) == s
  {
    if s != "" {
      ReplaceAbsent(s[1..], c, replacement);
      assert s == [s[0]] + s[1..];
    }
  }

  lemma ReplaceOne(x: char, c: char, replacement: string)
    ensures ReplaceAll([x], c, replacement) == if x == c then replacement else [x]
  {
    assert [x][1..] == "" && ReplaceAll("", c, replacement) == "";
    assert replacement + "" == replacement;
  }

  lemma AmpersandStays()
    ensures ReplaceAll(ReplaceAll(ReplaceAll("&amp;", '<', "&lt;"), '>', "&gt;"), '"', "&quot;") == "&amp;"
  {
    assert forall c :: c in "&amp;" ==> c != '<' && c != '>' && c != '"';
    ReplaceAbsent("&amp;", '<', "&lt;");
    ReplaceAbsent("&amp;", '>', "&gt;");
    ReplaceAbsent("&amp;", '"', "&quot;");
  }

  lemma EscapedChar(c: char)
    ensures EscapeHtml([c]) == Entity(c)
  {
    ReplaceOne(c, '&', "&amp;");
    ReplaceOne(c, '<', "&lt;");
    ReplaceOne(c, '>', "&gt;");
    ReplaceOne(c, '"', "&quot;");
    if c == '&' {
      AmpersandStays();
    } else if c == '<' {
      ReplaceAbsent("&lt;", '>', "&gt;");
      ReplaceAbsent("&lt;", '"', "&quot;");
    } else if c == '>' {
      ReplaceAbsent("&gt;", '"', "&quot;");
    }
  }

  lemma EscapeDistributes(a: string, b: string)
    ensures EscapeHtml(a + b) == EscapeHtml(a) + EscapeHtml(b)
  {
    var a1, b1 := ReplaceAll(a, '&', "&amp;"), ReplaceAll(b, '&', "&amp;");
    var a2, b2 := ReplaceAll(a1, '<', "&lt;"), ReplaceAll(b1, '<', "&lt;");
    ReplaceDistributes(a, b, '&', "&amp;");
    ReplaceDistributes(a1, b1, '<', "&lt;");
    ReplaceDistributes(a2, b2, '>', "&gt;");
    ReplaceDistributes(ReplaceAll(a2, '>', "&gt;"), ReplaceAll(b2, '>', "&gt;"), '"', "&quot;");
  }

  /** The four replacements one after the other are one replacement per character. */
  lemma {:induction false} EscapeHtmlIsPerCharacter(value: string)
    ensures EscapeHtml(value) == EntitiesOf(value)
  {
    if value != "" {
      assert value == [value[0]] + value[1..];
      EscapeDistributes([value[0]], value[1..]);
      EscapedChar(value[0]);
      EscapeHtmlIsPerCharacter(value[1..]);
    }
  }

  /** An HTML reader of the four entities. */
  function ReadHtml(s: string): string
    decreases |s|
  {
    if s == "" then ""
    else if "&amp;" <= s then "&" + ReadHtml(s[5..])
    else if "&lt;" <= s then "<" + ReadHtml(s[4..])
    else if "&gt;" <= s then ">" + ReadHtml(s[4..])
    else if "&quot;" <= s then "\"" + ReadHtml(s[6..])
    else [s[0]] + ReadHtml(s[1..])
  }

  lemma ReadsEntity(c: char, rest: string)
    ensures ReadHtml(Entity(c) + rest) == [c] + ReadHtml(rest)
  {
    var s := Entity(c) + rest;
    assert s[|Entity(c)|..] == rest;
    if c == '<' || c == '>' || c == '"' {
      assert s[1] != 'a';
      assert c == '>' ==> s[1] == 'g';
      assert c == '"' ==> s[1] == 'q';
    } else if c != '&' {
      assert s[0] == c;
    }
  }

  lemma {:induction false} ReadsEntities(value: string)
    ensures ReadHtml(EntitiesOf(value)) == value
  {
    if value != "" {
      ReadsEntity(value[0], EntitiesOf(value[1..]));
      ReadsEntities(value[1..]);
      assert value == [value[0]] + value[1..];
    }
  }

  predicate IsMarkup(c: char) { c == '<' || c == '>' || c == '"' }

  lemma {:induction false} NoMarkup(value: string)
    ensures forall c :: c in EntitiesOf(value) ==> !IsMarkup(c)
  {
    if value != "" {
      NoMarkup(value[1..]);
      assert forall c :: c in Entity(value[0]) ==> !IsMarkup(c);
    }
  }

  /** Escaped text reads back as the text, and holds no markup of its own. */
  lemma EscapeHtmlReadsBack(value: string)
    ensures ReadHtml(EscapeHtml(value)) == value
    ensures forall c :: c in EscapeHtml(value) ==> !IsMarkup(c)
  {
    EscapeHtmlIsPerCharacter(value);
    ReadsEntities(value);
    NoMarkup(value);
  }
}
