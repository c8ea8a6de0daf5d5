/** The one-paste enrollment string `qenr1.<fingerprint>.<base64url(url)>.<token>`. */
module Enrollment {
  import opened Text
  import Base64Url

  type Fingerprint = b: seq<byte> | |b| == 32 witness seq(32, _ => 0 as byte)

  datatype Blob = Blob(url: string, fingerprint: Option<Fingerprint>, token: string)

  datatype Error =
    | WrongVersion
    | MissingFingerprint
    | MissingUrl
    | MissingToken
    | BadFingerprint
    | NotBase64Url
    | NotUtf8
    | NotTls
    | EmptyToken

  datatype Parsed = Ok(blob: Blob) | Err(error: Error)

  const BLOB_PREFIX := "qenr1"

  // ---- fingerprints ----------------------------------------------------------------------

  function HexUpper(v: nat): (c: char)
    requires v < 16
    ensures c != ':' && c != '.' && c != 's' && c != 'S' && !IsSpace(c)
    ensures HexValue(c) == Some(v)
  {
    if v < 10 then ('0' as int + v) as char else ('A' as int + (v - 10)) as char
  }

  /** `is_ascii_hexdigit` and the digit's value. */
  function HexValue(c: char): (r: Option<nat>)
    ensures r.Some? ==> r.value < 16
  {
    if '0' <= c <= '9' then Some(c as int - '0' as int)
    else if 'a' <= c <= 'f' then Some(c as int - 'a' as int + 10)
    else if 'A' <= c <= 'F' then Some(c as int - 'A' as int + 10)
    else None
  }

  function HexPair(b: byte): string {
    [HexUpper(b as nat / 16), HexUpper(b as nat % 16)]
  }

  /** `to_colon_hex`: uppercase pairs joined with colons. */
  function ColonHex(b: seq<byte>): (r: string) {
    if b == [] then ""
    else if |b| == 1 then HexPair(b[0])
    else HexPair(b[0]) + ":" + ColonHex(b[1..])
  }

  function WithoutColons(s: string): string {
    if s == "" then "" else (if s[0] == ':' then "" else [s[0]]) + WithoutColons(s[1..])
  }

  function StripSha(s: string): string {
    if "sha256:" <= s || "SHA256:" <= s then s[7..] else s
  }

  predicate AllHex(s: string) {
    forall i :: 0 <= i < |s| ==> HexValue(s[i]).Some?
  }

  /** The bytes an even number of hex digits spell. */
  function HexBytes(s: string): (r: seq<byte>)
    requires |s| % 2 == 0 && AllHex(s)
    ensures |r| == |s| / 2
  {
    if s == "" then []
    else [(HexValue(s[0]).value * 16 + HexValue(s[1]).value) as byte] + HexBytes(s[2..])
  }

  /** `Fingerprint::parse`: colons anywhere, either case, an optional `sha256:` in front. */
  function ParseFingerprint(raw: string): (r: Option<Fingerprint>) {
    FromHex(WithoutColons(StripSha(Trim(raw))))
  }

  function FromHex(hex: string): (r: Option<Fingerprint>) {
    if |hex| != 64 || !AllHex(hex) then None else Some(HexBytes(hex))
  }

  lemma {:induction false} HexBytesAt(s: string, i: nat)
    requires |s| % 2 == 0 && AllHex(s) && i < |s| / 2
    ensures HexBytes(s)[i] == (HexValue(s[2 * i]).value * 16 + HexValue(s[2 * i + 1]).value) as byte
  {
    if i > 0 {
      HexBytesAt(s[2..], i - 1);
    }
  }

  /** The loop of `Fingerprint::parse` that fills the 32-byte array two digits at a time. */
  method FillBytes(hex: string) returns (out: array<byte>)
    requires |hex| == 64 && AllHex(hex)
    ensures out[..] == HexBytes(hex)
  {
    out := new byte[32](_ => 0);
    for i := 0 to 32
      invariant forall k :: 0 <= k < i ==> out[k] == HexBytes(hex)[k]
    {
      HexBytesAt(hex, i);
      out[i] := (HexValue(hex[2 * i]).value * 16 + HexValue(hex[2 * i + 1]).value) as byte;
    }
  }

  function HexText(b: seq<byte>): (r: string)
    ensures |r| == 2 * |b| && AllHex(r)
  {
    if b == [] then "" else HexPair(b[0]) + HexText(b[1..])
  }

  lemma {:induction false} HexTextBytes(b: seq<byte>)
    ensures HexBytes(HexText(b)) == b
  {
    if b != [] {
      assert HexText(b)[2..] == HexText(b[1..]);
      HexTextBytes(b[1..]);
      assert b[0] as nat / 16 * 16 + b[0] as nat % 16 == b[0] as nat;
      assert [b[0]] + b[1..] == b;
    }
  }

  lemma {:induction false} KeepsChar(x: char, s: string)
    ensures WithoutColons([x] + s) == (if x == ':' then "" else [x]) + WithoutColons(s)
  {
    assert ([x] + s)[1..] == s;
  }

  lemma {:induction false} PairWithoutColons(x: char, y: char, s: string)
    requires x != ':' && y != ':'
    ensures WithoutColons([x, y] + s) == [x, y] + WithoutColons(s)
  {
    assert [x, y] + s == [x] + ([y] + s);
    KeepsChar(x, [y] + s);
    KeepsChar(y, s);
    assert [x] + ([y] + WithoutColons(s)) == [x, y] + WithoutColons(s);
  }

  lemma {:induction false} ColonHexWithoutColons(b: seq<byte>)
    ensures WithoutColons(ColonHex(b)) == HexText(b)
  {
    if |b| == 1 {
      PairWithoutColons(HexPair(b[0])[0], HexPair(b[0])[1], "");
      assert HexPair(b[0]) + "" == HexPair(b[0]);
    } else if |b| > 1 {
      var rest := ColonHex(b[1..]);
      assert HexPair(b[0]) + ":" + rest == HexPair(b[0]) + (":" + rest);
      PairWithoutColons(HexPair(b[0])[0], HexPair(b[0])[1], ":" + rest);
      KeepsChar(':', rest);
      ColonHexWithoutColons(b[1..]);
    }
  }

  /** Printed fingerprints hold neither a dot nor whitespace, and start with a hex digit. */
  lemma {:induction false} ColonHexPlain(b: seq<byte>)
    ensures forall i :: 0 <= i < |ColonHex(b)| ==> ColonHex(b)[i] != '.' && !IsSpace(ColonHex(b)[i])
    ensures b != [] ==> ColonHex(b) != "" && ColonHex(b)[0] != 's' && ColonHex(b)[0] != 'S'
  {
    if |b| > 1 {
      ColonHexPlain(b[1..]);
    }
  }

  /** The control plane's own form parses back to the same 32 bytes. */
  lemma {:induction false} FingerprintRoundTrip(fp: Fingerprint)
    ensures ParseFingerprint(ColonHex(fp)) == Some(fp)
  {
    ColonHexEnds(fp);
    ColonHexWithoutColons(fp);
    HexTextBytes(fp);
    ParsePlain(ColonHex(fp), HexText(fp), fp);
  }

  /** Neither end of a printed fingerprint is whitespace. */
  lemma {:induction false} ColonHexEnds(b: seq<byte>)
    ensures var s := ColonHex(b);
            s != "" ==> !IsSpace(s[0]) && !IsSpace(s[|s| - 1]) && s[0] != 's' && s[0] != 'S'
  {
    ColonHexPlain(b);
  }

  lemma {:induction false} ParsePlain(s: string, hex: string, b: seq<byte>)
    requires s != "" && !IsSpace(s[0]) && !IsSpace(s[|s| - 1]) && s[0] != 's' && s[0] != 'S'
    requires WithoutColons(s) == hex && |hex| == 64 && AllHex(hex) && HexBytes(hex) == b
    ensures ParseFingerprint(s) == Some(b)
  {
    TrimFixed(s);
    assert StripSha(s) == s;
  }

  // ---- the blob --------------------------------------------------------------------------

  /** `t` ends like `s`, if it is not empty. */
  predicate SameEnd(t: string, s: string) {
    t != "" ==> s != "" && t[|t| - 1] == s[|s| - 1]
  }

  /** The text after the first dot, if there is one. */
  function AfterDot(s: string): (r: Option<string>)
    ensures r.Some? ==> SameEnd(r.value, s)
  {
    var b := Before(s, '.');
    if |b| == |s| then None else Some(s[|b| + 1..])
  }

  function ParseBlob(raw: string): (r: Parsed) {
    ParseTrimmed(Trim(raw))
  }

  /** `splitn(4, '.')` and its missing-segment errors. */
  function ParseTrimmed(s: string): (r: Parsed)
    ensures r.Ok? ==>
      "wss://" <= r.blob.url && Trim(r.blob.token) != "" && SameEnd(r.blob.token, s)
  {
    if Before(s, '.') != BLOB_PREFIX then Err(WrongVersion)
    else match AfterDot(s)
      case None => Err(MissingFingerprint)
      case Some(s1) =>
        match AfterDot(s1)
        case None => Err(MissingUrl)
        case Some(s2) =>
          match AfterDot(s2)
          case None => Err(MissingToken)
          case Some(token) => ParseParts(Before(s1, '.'), Before(s2, '.'), token)
  }

  /** The checks on the three segments, in the order they are made. */
  function ParseParts(fp: string, urlText: string, token: string): (r: Parsed)
    ensures r.Ok? ==> r.blob.token == token && "wss://" <= r.blob.url && Trim(token) != ""
  {
    if fp != "" && ParseFingerprint(fp).None? then Err(BadFingerprint)
    else match Base64Url.Decode(urlText)
      case None => Err(NotBase64Url)
      case Some(bytes) =>
        match FromUtf8(bytes)
        case None => Err(NotUtf8)
        case Some(url) =>
          CheckedBlob(url, if fp == "" then None else ParseFingerprint(fp), token)
  }

  function CheckedBlob(url: string, f: Option<Fingerprint>, token: string): (r: Parsed)
    ensures r.Ok? ==> r.blob == Blob(url, f, token) && "wss://" <= url && Trim(token) != ""
  {
    if !("wss://" <= url) then Err(NotTls)
    else if Trim(token) == "" then Err(EmptyToken)
    else Ok(Blob(url, f, token))
  }

  function ComposeBlob(url: string, fingerprint: Option<Fingerprint>, token: string): (r: string) {
    BLOB_PREFIX + "." + FingerprintText(fingerprint) + "." + Base64Url.Encode(Utf8(url)) + "." + token
  }

  function FingerprintText(f: Option<Fingerprint>): string {
    match f
    case None => ""
    case Some(fp) => ColonHex(fp)
  }

  /** What the source's documentation asks of a blob: a TLS URL and a token that is not blank
      and does not end in whitespace (the whole string is trimmed before it is split). */
  predicate Transportable(url: string, token: string) {
    "wss://" <= url && !Blank(token) && !IsSpace(token[|token| - 1])
  }

  lemma {:induction false} Dotted(a: string, rest: string)
    requires '.' !in a
    ensures Before(a + "." + rest, '.') == a && AfterDot(a + "." + rest) == Some(rest)
  {
    BeforeStops(a, '.', rest);
    assert (a + "." + rest)[|a| + 1..] == rest;
  }

  lemma {:induction false} NestDots(a: string, b: string, c: string, d: string)
    ensures a + "." + b + "." + c + "." + d == a + "." + (b + "." + (c + "." + d))
  {}

  lemma {:induction false} PartsRoundTrip(url: string, f: Option<Fingerprint>, token: string)
    requires Transportable(url, token)
    ensures ParseParts(FingerprintText(f), Base64Url.Encode(Utf8(url)), token) == Ok(Blob(url, f, token))
  {
    if f.Some? {
      FingerprintRoundTrip(f.value);
      ColonHexPlain(f.value);
    }
    Base64Url.DecodeEncode(Utf8(url));
    Utf8RoundTrip(url);
    TrimBlank(token);
  }

  lemma {:induction false} ComposedTrims(url: string, f: Option<Fingerprint>, token: string)
    requires Transportable(url, token)
    ensures Trim(ComposeBlob(url, f, token)) == ComposeBlob(url, f, token)
  {
    var s := ComposeBlob(url, f, token);
    assert s[0] == 'q' && s[|s| - 1] == token[|token| - 1];
    TrimFixed(s);
  }

  lemma {:induction false} SegmentsSplit(fp: string, u: string, token: string)
    requires '.' !in fp && '.' !in u
    ensures ParseTrimmed(BLOB_PREFIX + "." + (fp + "." + (u + "." + token))) == ParseParts(fp, u, token)
  {
    Dotted(BLOB_PREFIX, fp + "." + (u + "." + token));
    Dotted(fp, u + "." + token);
    Dotted(u, token);
  }

  lemma {:induction false} NoDots(f: Option<Fingerprint>)
    ensures '.' !in FingerprintText(f)
  {
    if f.Some? {
      ColonHexPlain(f.value);
    }
  }

  lemma {:induction false} ComposedSplits(url: string, f: Option<Fingerprint>, token: string)
    ensures ParseTrimmed(ComposeBlob(url, f, token))
         == ParseParts(FingerprintText(f), Base64Url.Encode(Utf8(url)), token)
  {
    var fp, u := FingerprintText(f), Base64Url.Encode(Utf8(url));
    NoDots(f);
    NestDots(BLOB_PREFIX, fp, u, token);
    SegmentsSplit(fp, u, token);
  }

  lemma {:induction false} ComposedParses(url: string, f: Option<Fingerprint>, token: string)
    requires Transportable(url, token)
    ensures ParseBlob(ComposeBlob(url, f, token)) == Ok(Blob(url, f, token))
  {
    ComposedTrims(url, f, token);
    ComposedSplits(url, f, token);
    PartsRoundTrip(url, f, token);
  }

  /** Every blob the parser accepts has a TLS URL and a token that survives trimming. */
  lemma {:induction false} ParsedIsTransportable(raw: string)
    ensures ParseBlob(raw).Ok? ==> Transportable(ParseBlob(raw).blob.url, ParseBlob(raw).blob.token)
  {
    if ParseBlob(raw).Ok? {
      var s := Trim(raw);
      var token := ParseTrimmed(s).blob.token;
      TrimBlank(token);
    }
  }

  /** Composing then parsing gives back exactly the three parts, precisely for a TLS URL and a
      token that is not blank and does not end in whitespace; dots in the token are fine. */
  lemma {:induction false} BlobRoundTrip(url: string, f: Option<Fingerprint>, token: string)
    ensures ParseBlob(ComposeBlob(url, f, token)) == Ok(Blob(url, f, token)) <==> Transportable(url, token)
  {
    if Transportable(url, token) {
      ComposedParses(url, f, token);
    }
    if ParseBlob(ComposeBlob(url, f, token)) == Ok(Blob(url, f, token)) {
      ParsedIsTransportable(ComposeBlob(url, f, token));
    }
  }

  /** Whatever form an accepted blob was pasted in, composing it again keeps its meaning. */
  lemma {:induction false} AcceptedRecomposes(raw: string)
    ensures match ParseBlob(raw)
            case Ok(b) => ParseBlob(ComposeBlob(b.url, b.fingerprint, b.token)) == ParseBlob(raw)
            case _ => true
  {
    if ParseBlob(raw).Ok? {
      ParsedIsTransportable(raw);
      var b := ParseBlob(raw).blob;
      ComposedParses(b.url, b.fingerprint, b.token);
    }
  }
}
