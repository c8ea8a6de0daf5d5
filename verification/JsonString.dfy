/** serde_json's string form: quotes, short escapes, and `\u00xx` for the other C0 controls. */
module JsonString {
  import opened Text

  const HEX_LOWER := "0123456789abcdef"

  function EscapeChar(c: char): (r: string)
    ensures r != [] && r[0] != '"'
    ensures r[0] == '\\' || r == [c]
  {
    var u := c as int;
    if c == '"' then ['\\', '"']
    else if c == '\\' then ['\\', '\\']
    else if u == 0x08 then ['\\', 'b']
    else if u == 0x09 then ['\\', 't']
    else if u == 0x0A then ['\\', 'n']
    else if u == 0x0C then ['\\', 'f']
    else if u == 0x0D then ['\\', 'r']
    else if u < 0x20 then ['\\', 'u', '0', '0', HEX_LOWER[u / 16], HEX_LOWER[u % 16]]
    else [c]
  }

  function Escape(s: string): string {
    if s == [] then [] else EscapeChar(s[0]) + Escape(s[1..])
  }

  /** `Value::String(s).to_string()`. */
  function Quote(s: string): string {
    ['"'] + Escape(s) + ['"']
  }

  function HexLower(c: char): Option<nat> {
    if '0' <= c <= '9' then Some(c as int - '0' as int)
    else if 'a' <= c <= 'f' then Some(c as int - 'a' as int + 10)
    else None
  }

  /** The character an escape at the head of `s` stands for, and the escape's length. */
  function Unescape(s: string): (r: Option<(char, nat)>)
    requires |s| >= 1 && s[0] == '\\'
    ensures r.Some? ==> 2 <= r.value.1 <= |s|
  {
    if |s| < 2 then None
    else match s[1]
      case '"' => Some(('"', 2))
      case '\\' => Some(('\\', 2))
      case 'b' => Some((8 as char, 2))
      case 't' => Some((9 as char, 2))
      case 'n' => Some((10 as char, 2))
      case 'f' => Some((12 as char, 2))
      case 'r' => Some((13 as char, 2))
      case 'u' =>
        if |s| < 6 || s[2] != '0' || s[3] != '0' then None
        else (match (HexLower(s[4]), HexLower(s[5]))
              case (Some(hi), Some(lo)) => Some(((hi * 16 + lo) as char, 6))
              case _ => None)
      case _ => None
  }

  /** Read string content up to its closing quote: the content and what follows the quote. */
  function ReadChars(s: string): (r: Option<(string, string)>)
    ensures r.Some? ==> |r.value.1| < |s|
    decreases |s|
  {
    if s == [] then None
    else if s[0] == '"' then Some(([], s[1..]))
    else
      var head := if s[0] == '\\' then Unescape(s) else Some((s[0], 1));
      match head
      case None => None
      case Some((c, n)) =>
        match ReadChars(s[n..])
        case None => None
        case Some((text, rest)) => Some(([c] + text, rest))
  }

  lemma UnescapeEscape(c: char, rest: string)
    requires EscapeChar(c)[0] == '\\'
    ensures Unescape(EscapeChar(c) + rest) == Some((c, |EscapeChar(c)|))
  {
    var u := c as int;
    if EscapeChar(c)[1] == 'u' {
      assert HexLower(HEX_LOWER[u / 16]) == Some(u / 16);
      assert HexLower(HEX_LOWER[u % 16]) == Some(u % 16);
      assert u / 16 * 16 + u % 16 == u;
    }
  }

  /** Reading back an escaped string gives the string, whatever follows. */
  lemma {:induction false} ReadEscape(s: string, rest: string)
    ensures ReadChars(Escape(s) + ['"'] + rest) == Some((s, rest))
  {
    var t := Escape(s) + ['"'] + rest;
    if s == [] {
      assert t[1..] == rest;
    } else {
      var e := EscapeChar(s[0]);
      var tail := Escape(s[1..]) + ['"'] + rest;
      assert t == e + tail;
      assert t[|e|..] == tail;
      ReadEscape(s[1..], rest);
      assert [s[0]] + s[1..] == s;
      if e[0] == '\\' {
        UnescapeEscape(s[0], tail);
      }
    }
  }
}
