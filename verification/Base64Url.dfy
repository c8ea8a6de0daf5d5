/** Base64url without padding, section 5 of RFC 4648, decoded strictly. */
module Base64Url {
  import opened Text

  function SextetChar(v: nat): (c: char)
    requires v < 64
    ensures c != '.' && !IsSpace(c)
  {
    if v < 26 then ('A' as int + v) as char
    else if v < 52 then ('a' as int + (v - 26)) as char
    else if v < 62 then ('0' as int + (v - 52)) as char
    else if v == 62 then '-' else '_'
  }

  function CharSextet(c: char): (r: Option<nat>)
    ensures r.Some? ==> r.value < 64 && SextetChar(r.value) == c
  {
    if 'A' <= c <= 'Z' then Some(c as int - 'A' as int)
    else if 'a' <= c <= 'z' then Some(c as int - 'a' as int + 26)
    else if '0' <= c <= '9' then Some(c as int - '0' as int + 52)
    else if c == '-' then Some(62)
    else if c == '_' then Some(63)
    else None
  }

  lemma SextetRoundTrip(v: nat)
    requires v < 64
    ensures CharSextet(SextetChar(v)) == Some(v)
  {}

  /** Six-bit groups of one to three bytes. */
  function Sextets(b: seq<byte>): (r: seq<nat>)
    requires 1 <= |b| <= 3
    ensures |r| == |b| + 1 && forall i :: 0 <= i < |r| ==> r[i] < 64
  {
    var x := b[0] as nat;
    if |b| == 1 then [x / 4, x % 4 * 16]
    else
      var y := b[1] as nat;
      if |b| == 2 then [x / 4, x % 4 * 16 + y / 16, y % 16 * 4]
      else
        var z := b[2] as nat;
        [x / 4, x % 4 * 16 + y / 16, y % 16 * 4 + z / 64, z % 64]
  }

  /** The bytes two to four six-bit groups spell; the bits they leave over must be zero. */
  function Bytes(v: seq<nat>): (r: Option<seq<byte>>)
    requires 2 <= |v| <= 4 && forall i :: 0 <= i < |v| ==> v[i] < 64
    ensures r.Some? ==> |r.value| == |v| - 1
  {
    var x := (v[0] * 4 + v[1] / 16) as byte;
    if |v| == 2 then (if v[1] % 16 == 0 then Some([x]) else None)
    else
      var y := (v[1] % 16 * 16 + v[2] / 4) as byte;
      if |v| == 3 then (if v[2] % 4 == 0 then Some([x, y]) else None)
      else Some([x, y, (v[2] % 4 * 64 + v[3]) as byte])
  }

  lemma BytesOfSextets(b: seq<byte>)
    requires 1 <= |b| <= 3
    ensures Bytes(Sextets(b)) == Some(b)
  {
    if |b| == 1 {
      assert b == [b[0]];
    } else if |b| == 2 {
      assert b == [b[0], b[1]];
    } else {
      assert b == [b[0], b[1], b[2]];
    }
  }

  lemma FirstByte(p: nat, q: nat)
    requires p < 64 && q < 64
    ensures (p * 4 + q / 16) / 4 == p && (p * 4 + q / 16) % 4 == q / 16
  {}

  lemma SecondByte(p: nat, q: nat)
    requires p < 64 && q < 64
    ensures (p % 16 * 16 + q / 4) / 16 == p % 16 && (p % 16 * 16 + q / 4) % 16 == q / 4
  {}

  lemma ThirdByte(p: nat, q: nat)
    requires p < 64 && q < 64
    ensures (p % 4 * 64 + q) / 64 == p % 4 && (p % 4 * 64 + q) % 64 == q
  {}

  lemma SextetsOfBytes(v: seq<nat>)
    requires 2 <= |v| <= 4 && (forall i :: 0 <= i < |v| ==> v[i] < 64) && Bytes(v).Some?
    ensures Sextets(Bytes(v).value) == v
  {
    FirstByte(v[0], v[1]);
    if |v| == 2 {
      assert v == [v[0], v[1]];
    } else {
      SecondByte(v[1], v[2]);
      if |v| == 3 {
        assert v == [v[0], v[1], v[2]];
      } else {
        ThirdByte(v[2], v[3]);
        assert v == [v[0], v[1], v[2], v[3]];
      }
    }
  }

  function Chars(v: seq<nat>): (r: string)
    requires forall i :: 0 <= i < |v| ==> v[i] < 64
    ensures |r| == |v| && forall i :: 0 <= i < |r| ==> r[i] == SextetChar(v[i])
  {
    seq(|v|, i requires 0 <= i < |v| => SextetChar(v[i]))
  }

  /** The six-bit values of a text, if every character is in the alphabet. */
  function Values(s: string): (r: Option<seq<nat>>)
    ensures r.Some? ==> |r.value| == |s| && forall i :: 0 <= i < |s| ==> CharSextet(s[i]) == Some(r.value[i])
  {
    if s == [] then Some([])
    else match (CharSextet(s[0]), Values(s[1..]))
      case (Some(v), Some(vs)) => Some([v] + vs)
      case _ => None
  }

  lemma {:induction false} ValuesOfChars(v: seq<nat>)
    requires forall i :: 0 <= i < |v| ==> v[i] < 64
    ensures Values(Chars(v)) == Some(v)
  {
    if v != [] {
      SextetRoundTrip(v[0]);
      assert Chars(v)[1..] == Chars(v[1..]);
      ValuesOfChars(v[1..]);
      assert [v[0]] + v[1..] == v;
    }
  }

  lemma {:induction false} CharsOfValues(s: string)
    requires Values(s).Some?
    ensures Chars(Values(s).value) == s
  {}

  /** `URL_SAFE_NO_PAD.encode`. */
  function Encode(b: seq<byte>): (r: string)
    ensures forall i :: 0 <= i < |r| ==> r[i] != '.' && !IsSpace(r[i])
  {
    if b == [] then []
    else if |b| <= 3 then Chars(Sextets(b))
    else Chars(Sextets(b[..3])) + Encode(b[3..])
  }

  /** `URL_SAFE_NO_PAD.decode`: `None` for a foreign character, a lone last character or stray bits. */
  function Decode(s: string): (r: Option<seq<byte>>)
    decreases |s|
  {
    if s == [] then Some([])
    else if |s| == 1 then None
    else if |s| <= 4 then DecodeGroup(s)
    else match (DecodeGroup(s[..4]), Decode(s[4..]))
      case (Some(a), Some(b)) => Some(a + b)
      case _ => None
  }

  function DecodeGroup(s: string): (r: Option<seq<byte>>)
    requires 2 <= |s| <= 4
    ensures r.Some? ==> |r.value| == |s| - 1
  {
    match Values(s)
    case None => None
    case Some(v) => Bytes(v)
  }

  lemma {:induction false} GroupRoundTrip(b: seq<byte>)
    requires 1 <= |b| <= 3
    ensures DecodeGroup(Chars(Sextets(b))) == Some(b)
  {
    ValuesOfChars(Sextets(b));
    BytesOfSextets(b);
  }

  lemma {:induction false} GroupCanonical(s: string)
    requires 2 <= |s| <= 4 && DecodeGroup(s).Some?
    ensures Chars(Sextets(DecodeGroup(s).value)) == s
  {
    CharsOfValues(s);
    SextetsOfBytes(Values(s).value);
  }

  lemma {:induction false} EncodeNonEmpty(b: seq<byte>)
    requires b != []
    ensures |Encode(b)| >= 2
  {}

  /** Decoding undoes encoding. */
  lemma {:induction false} DecodeEncode(b: seq<byte>)
    ensures Decode(Encode(b)) == Some(b)
  {
    if 1 <= |b| <= 3 {
      GroupRoundTrip(b);
    } else if |b| > 3 {
      GroupRoundTrip(b[..3]);
      DecodeEncode(b[3..]);
      EncodeNonEmpty(b[3..]);
      var head, tail := Chars(Sextets(b[..3])), Encode(b[3..]);
      assert (head + tail)[..4] == head && (head + tail)[4..] == tail;
      assert b[..3] + b[3..] == b;
    }
  }

  /** Only the encoder's own output decodes: each byte string has one accepted text. */
  lemma {:induction false} EncodeDecode(s: string)
    requires Decode(s).Some?
    ensures Encode(Decode(s).value) == s
    decreases |s|
  {
    if 2 <= |s| <= 4 {
      GroupCanonical(s);
    } else if |s| > 4 {
      GroupCanonical(s[..4]);
      EncodeDecode(s[4..]);
      var a, b := DecodeGroup(s[..4]).value, Decode(s[4..]).value;
      DecodeNonEmpty(s[4..]);
      assert (a + b)[..3] == a && (a + b)[3..] == b;
      assert s == s[..4] + s[4..];
    }
  }

  lemma {:induction false} DecodeNonEmpty(s: string)
    requires s != [] && Decode(s).Some?
    ensures Decode(s).value != []
  {}
}
