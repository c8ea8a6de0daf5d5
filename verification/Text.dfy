/** Strings as Rust sees them: Unicode whitespace, trimming, UTF-8, splitting on one character. */
module Text {

  datatype Option<+T> = None | Some(value: T)

  newtype byte = b: int | 0 <= b < 256

  /** `char::is_whitespace`: the Unicode White_Space property. */
  predicate IsSpace(c: char) {
    var u := c as int;
    || 0x09 <= u <= 0x0D || u == 0x20 || u == 0x85 || u == 0xA0 || u == 0x1680
    || 0x2000 <= u <= 0x200A || u == 0x2028 || u == 0x2029 || u == 0x202F || u == 0x205F || u == 0x3000
  }

  predicate Blank(s: string) {
    forall i :: 0 <= i < |s| ==> IsSpace(s[i])
  }

  function TrimStart(s: string): (r: string)
    ensures |r| <= |s| && r == s[|s| - |r|..]
    ensures r != [] ==> !IsSpace(r[0])
    ensures Blank(s[..|s| - |r|])
  {
    if s != [] && IsSpace(s[0]) then TrimStart(s[1..]) else s
  }

  function TrimEnd(s: string): (r: string)
    ensures r <= s
    ensures r != [] ==> !IsSpace(r[|r| - 1])
    ensures Blank(s[|r|..])
  {
    if s != [] && IsSpace(s[|s| - 1]) then TrimEnd(s[..|s| - 1]) else s
  }

  function Trim(s: string): (r: string) {
    TrimEnd(TrimStart(s))
  }

  /** A string that neither starts nor ends with whitespace is its own trimming. */
  lemma TrimFixed(s: string)
    requires s != [] ==> !IsSpace(s[0]) && !IsSpace(s[|s| - 1])
    ensures Trim(s) == s
  {}

  /** A blank string trims to nothing, and only a blank string does. */
  lemma TrimBlank(s: string)
    ensures Trim(s) == [] <==> Blank(s)
  {
    var t := TrimStart(s);
    var r := TrimEnd(t);
    assert t != [] ==> t[0] == s[|s| - |t|];
    assert r == [] ==> t[0..] == t && Blank(t);
    assert t == [] ==> s[..|s|] == s;
  }

  // ---- UTF-8 -------------------------------------------------------------------------

  function Utf8Char(c: char): (r: seq<byte>)
    ensures 1 <= |r| <= 4
  {
    var u := c as int;
    if u < 0x80 then [u as byte]
    else if u < 0x800 then [(0xC0 + u / 64) as byte, (0x80 + u % 64) as byte]
    else if u < 0x10000 then
      [(0xE0 + u / 4096) as byte, (0x80 + u / 64 % 64) as byte, (0x80 + u % 64) as byte]
    else
      [(0xF0 + u / 262144) as byte, (0x80 + u / 4096 % 64) as byte,
       (0x80 + u / 64 % 64) as byte, (0x80 + u % 64) as byte]
  }

  /** `str::as_bytes`. */
  function Utf8(s: string): (r: seq<byte>)
    ensures |r| >= |s|
  {
    if s == [] then [] else Utf8Char(s[0]) + Utf8(s[1..])
  }

  predicate Continuation(b: byte) {
    0x80 <= b < 0xC0
  }

  /** The scalar value a lead byte and its continuation bytes spell, if they are well formed. */
  function ScalarAt(b: seq<byte>): (r: Option<(char, nat)>)
    requires b != []
    ensures r.Some? ==> 1 <= r.value.1 <= |b|
  {
    var b0 := b[0] as int;
    if b0 < 0x80 then Some((b0 as char, 1))
    else if 0xC2 <= b0 < 0xE0 && |b| >= 2 && Continuation(b[1]) then
      Some((((b0 - 0xC0) * 64 + (b[1] as int - 0x80)) as char, 2))
    else if 0xE0 <= b0 < 0xF0 && |b| >= 3 && Continuation(b[1]) && Continuation(b[2]) then
      var u := (b0 - 0xE0) * 4096 + (b[1] as int - 0x80) * 64 + (b[2] as int - 0x80);
      if u < 0x800 || 0xD800 <= u < 0xE000 then None else Some((u as char, 3))
    else if 0xF0 <= b0 < 0xF5 && |b| >= 4
      && Continuation(b[1]) && Continuation(b[2]) && Continuation(b[3]) then
      var u := (b0 - 0xF0) * 262144 + (b[1] as int - 0x80) * 4096
               + (b[2] as int - 0x80) * 64 + (b[3] as int - 0x80);
      if u < 0x10000 || 0x110000 <= u then None else Some((u as char, 4))
    else None
  }

  /** `String::from_utf8`. */
  function FromUtf8(b: seq<byte>): (r: Option<string>)
    decreases |b|
  {
    if b == [] then Some([])
    else match ScalarAt(b)
      case None => None
      case Some((c, n)) =>
        match FromUtf8(b[n..])
        case None => None
        case Some(rest) => Some([c] + rest)
  }

  lemma ScalarRoundTrip(c: char, rest: seq<byte>)
    ensures ScalarAt(Utf8Char(c) + rest) == Some((c, |Utf8Char(c)|))
  {
    var u := c as int;
    if u < 0x80 {
    } else if u < 0x800 {
      assert u == u / 64 * 64 + u % 64;
    } else if u < 0x10000 {
      assert u / 64 / 64 == u / 4096;
      assert u == u / 4096 * 4096 + u / 64 % 64 * 64 + u % 64;
    } else {
      assert u / 64 / 64 == u / 4096;
      assert u / 4096 / 64 == u / 262144;
      assert u == u / 262144 * 262144 + u / 4096 % 64 * 4096 + u / 64 % 64 * 64 + u % 64;
    }
  }

  lemma {:induction false} Utf8RoundTrip(s: string)
    ensures FromUtf8(Utf8(s)) == Some(s)
  {
    if s != [] {
      ScalarRoundTrip(s[0], Utf8(s[1..]));
      assert Utf8(s)[|Utf8Char(s[0])|..] == Utf8(s[1..]);
      Utf8RoundTrip(s[1..]);
      assert [s[0]] + s[1..] == s;
    }
  }

  // ---- splitting ---------------------------------------------------------------------

  /** The text before the first `sep`, all of it when there is none. */
  function Before(s: string, sep: char): (r: string)
    ensures r <= s && sep !in r
    ensures |r| < |s| ==> s[|r|] == sep
  {
    if s == [] || s[0] == sep then [] else [s[0]] + Before(s[1..], sep)
  }

  /** `Before` stops exactly at the separator that follows a separator-free text. */
  lemma BeforeStops(a: string, sep: char, b: string)
    requires sep !in a
    ensures Before(a + [sep] + b, sep) == a
  {
    var s := a + [sep] + b;
    var r := Before(s, sep);
    assert forall i :: 0 <= i < |a| ==> s[i] == a[i] && s[i] != sep;
    assert s[|a|] == sep;
    assert s[..|a|] == a;
  }
}
