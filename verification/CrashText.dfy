/** Building the reporter's lines without the heap: a bounded buffer, and numbers in radix 10 and 16. */
module CrashText {
  import opened Text

  const U64 := 0x1_0000_0000_0000_0000
  const I64_MIN := -0x8000_0000_0000_0000
  const I64_MAX := 0x7FFF_FFFF_FFFF_FFFF

  type u64 = n: nat | n < U64
  type i64 = n: int | I64_MIN <= n <= I64_MAX
  type radix = r: nat | r == 10 || r == 16 witness 10

  function Ascii(s: string): (r: seq<byte>)
    requires forall i :: 0 <= i < |s| ==> s[i] < 128 as char
    ensures |r| == |s| && forall i :: 0 <= i < |s| ==> r[i] as int == s[i] as int
  {
    seq(|s|, i requires 0 <= i < |s| => s[i] as byte)
  }

  // ---- digits --------------------------------------------------------------------------------

  function Digit(d: nat): byte
    requires d < 16
  {
    if d < 10 then (48 + d) as byte else (87 + d) as byte
  }

  /** The value of a digit, upper or lower case. */
  function DigitValue(b: byte): Option<nat> {
    if 48 <= b <= 57 then Some(b as nat - 48)
    else if 97 <= b <= 102 then Some(b as nat - 87)
    else if 65 <= b <= 70 then Some(b as nat - 55)
    else None
  }

  /** The text of a number. */
  function Digits(v: nat, r: radix): (t: seq<byte>)
    ensures t != []
    decreases v
  {
    if v < r then [Digit(v)] else Digits(v / r, r) + [Digit(v % r)]
  }

  /** What a text denotes, if it is one or more digits of the radix. */
  function Denotes(t: seq<byte>, r: radix): Option<nat>
    decreases |t|
  {
    if t == [] then None
    else
      var d := DigitValue(t[|t| - 1]);
      if d.None? || d.value >= r then None
      else if |t| == 1 then d
      else
        var front := Denotes(t[..|t| - 1], r);
        if front.None? then None else Some(front.value * r + d.value)
  }

  lemma {:induction false} DivMod(v: nat, r: radix)
    ensures 0 <= v % r < r && (v / r) * r + v % r == v && 0 <= v / r <= v && (v >= r ==> v / r < v)
    ensures v / r == 0 <==> v < r
  {
    if r == 10 {
      assert (v / 10) * 10 + v % 10 == v;
    } else {
      assert (v / 16) * 16 + v % 16 == v;
    }
  }

  lemma {:induction false} DenotesSnoc(t: seq<byte>, d: nat, r: radix)
    requires d < r && t != [] && Denotes(t, r).Some?
    ensures Denotes(t + [Digit(d)], r) == Some(Denotes(t, r).value * r + d)
  {
    assert (t + [Digit(d)])[..|t|] == t;
  }

  /** The printed text denotes the value it was made from. */
  lemma {:induction false} DigitsDenote(v: nat, r: radix)
    ensures Denotes(Digits(v, r), r) == Some(v)
    decreases v
  {
    if v >= r {
      DivMod(v, r);
      DigitsDenote(v / r, r);
      DenotesSnoc(Digits(v / r, r), v % r, r);
    }
  }

  function Pow(r: nat, k: nat): nat {
    if k == 0 then 1 else r * Pow(r, k - 1)
  }

  lemma {:induction false} Quotient(v: nat, r: radix, p: nat)
    requires v < r * p
    ensures v / r < p
  {}

  lemma {:induction false} DigitsShort(v: nat, r: radix, k: nat)
    requires 1 <= k && v < Pow(r, k)
    ensures |Digits(v, r)| <= k
    decreases k
  {
    if v >= r {
      assert k >= 2;
      Quotient(v, r, Pow(r, k - 1));
      DigitsShort(v / r, r, k - 1);
    }
  }

  /** Every u64 fits the 20-byte buffer in either radix. */
  lemma {:induction false} DigitsFit(v: u64, r: radix)
    ensures |Digits(v, r)| <= if r == 10 then 20 else 16
  {
    if r == 10 {
      assert Pow(10, 4) == 10_000 && Pow(10, 8) == 100_000_000 && Pow(10, 12) == 1_000_000_000_000;
      assert Pow(10, 16) == 10_000_000_000_000_000 && Pow(10, 20) == 100_000_000_000_000_000_000;
      DigitsShort(v, 10, 20);
    } else {
      assert Pow(16, 4) == 0x1_0000 && Pow(16, 8) == 0x1_0000_0000 && Pow(16, 12) == 0x1_0000_0000_0000;
      assert Pow(16, 16) == U64;
      DigitsShort(v, 16, 16);
    }
  }

  // ---- lines ---------------------------------------------------------------------------------

  /** At most `n` bytes of `s`. */
  function Cut(s: seq<byte>, n: nat): seq<byte> {
    if |s| <= n then s else s[..n]
  }

  /** Cutting as one goes is cutting at the end. */
  lemma {:induction false} CutGrows(a: seq<byte>, b: seq<byte>, n: nat)
    ensures Cut(Cut(a, n) + b, n) == Cut(a + b, n)
  {}

  lemma {:induction false} CutTwo(s: seq<byte>, a: seq<byte>, b: seq<byte>, n: nat)
    ensures Cut(Cut(s + a, n) + b, n) == Cut(s + (a + b), n)
  {
    CutGrows(s + a, b, n);
    assert s + a + b == s + (a + b);
  }

  class Line {
    const bytes: array<byte>
    var len: nat

    ghost predicate Valid()
      reads this
    {
      len <= bytes.Length
    }

    function Contents(): seq<byte>
      requires Valid()
      reads this, bytes
    {
      bytes[..len]
    }

    constructor (bytes: array<byte>)
      ensures Valid() && this.bytes == bytes && len == 0
    {
      this.bytes, len := bytes, 0;
    }

    /** `Line::text`: as much of the text as there is room for. */
    method Text(text: seq<byte>)
      requires Valid()
      modifies `len, bytes
      ensures Valid() && Contents() == Cut(old(Contents()) + text, bytes.Length)
    {
      for i := 0 to |text|
        invariant Valid() && Contents() == Cut(old(Contents()) + text[..i], bytes.Length)
      {
        assert text[..i + 1] == text[..i] + [text[i]];
        assert old(Contents()) + text[..i + 1] == old(Contents()) + text[..i] + [text[i]];
        if len < bytes.Length {
          bytes[len] := text[i];
          len := len + 1;
        }
      }
      assert text[..|text|] == text;
    }

    /** `Line::digits`: the index never leaves the 20-byte buffer, and the line gains the number's text. */
    method Number(value: u64, r: radix)
      requires Valid()
      modifies `len, bytes
      ensures Valid() && Contents() == Cut(old(Contents()) + Digits(value, r), bytes.Length)
    {
      var text := PrintDigits(value, r);
      Text(text);
    }

    /** `Line::dec`. */
    method Dec(value: i64)
      requires Valid()
      modifies `len, bytes
      ensures Valid() && Contents() == Cut(old(Contents()) + DecText(value), bytes.Length)
    {
      var magnitude: nat := if value < 0 then 0 - (value as int) else value;
      CutTwo(Contents(), [45], Digits(magnitude, 10), bytes.Length);
      if value < 0 {
        Text([45]);
      }
      Number(magnitude, 10);
    }

    /** `Line::hex`. */
    method Hex(value: u64)
      requires Valid()
      modifies `len, bytes
      ensures Valid() && Contents() == Cut(old(Contents()) + HexText(value), bytes.Length)
    {
      CutTwo(Contents(), [48, 120], Digits(value, 16), bytes.Length);
      Text([48, 120]);
      Number(value, 16);
    }
  }

  /** The digits still to be written once some were: none of a zero. */
  function Rest(v: nat, r: radix): seq<byte> {
    if v == 0 then [] else Digits(v, r)
  }

  lemma {:induction false} OneDigit(v: nat, r: radix, tail: seq<byte>)
    ensures Digits(v, r) + tail == Rest(v / r, r) + ([Digit(v % r)] + tail)
    ensures |Digits(v, r)| == |Rest(v / r, r)| + 1
  {
    DivMod(v, r);
    if v >= r {
      assert Digits(v / r, r) + [Digit(v % r)] + tail == Digits(v / r, r) + ([Digit(v % r)] + tail);
    } else {
      assert v % r == v;
    }
  }

  /** The digit loop of `Line::digits`: from the end of a 20-byte buffer toward its start. */
  method PrintDigits(value: u64, r: radix) returns (text: seq<byte>)
    ensures text == Digits(value, r)
  {
    var digits := new byte[20];
    var at, v: nat, more := 20, value, true;
    DigitsFit(value, r);
    while more
      invariant at <= 20 && more == (v != 0 || at == 20)
      invariant |if more then Digits(v, r) else []| <= at
      invariant Digits(value, r) == (if more then Digits(v, r) else []) + digits[at..]
      decreases more, v
    {
      OneDigit(v, r, digits[at..]);
      DivMod(v, r);
      at := at - 1;
      digits[at] := Digit(v % r);
      assert digits[at..] == [Digit(v % r)] + digits[at + 1..];
      v := v / r;
      more := v != 0;
    }
    text := digits[at..];
  }

  function DecText(value: int): seq<byte> {
    if value < 0 then [45] + Digits(0 - value, 10) else Digits(value, 10)
  }

  function HexText(value: nat): seq<byte> {
    [48, 120] + Digits(value, 16)
  }
}
