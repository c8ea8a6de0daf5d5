/**
 RFC 8785 canonical JSON as the agent prints it before hashing, with a reader that undoes it.
 A float is given as its sign, its shortest digits and its exponent, the way `{:e}` prints them.
 */
module CanonicalJson {
  import opened Text
  import opened Decimal
  import opened JsonString

  lemma {:induction false} Assoc(a: string, b: string, c: string)
    ensures (a + b) + c == a + (b + c)
  {}

  // ---- numbers -------------------------------------------------------------------------

  /** serde_json::Number: `as_u64`, else `as_i64` (here only negative), else a finite float. */
  datatype Number =
    | Unsigned(u: nat)
    | Negative(magnitude: nat)
    | FloatZero
    | Float(neg: bool, digits: string, exp: int)

  /** What the types and `{:e}` guarantee: u64 and i64 ranges, shortest digits. */
  predicate WellFormed(n: Number) {
    match n
    case Unsigned(u) => u < 0x1_0000_0000_0000_0000
    case Negative(m) => 1 <= m <= 0x8000_0000_0000_0000
    case FloatZero => true
    case Float(_, digits, _) => NormalDigits(digits)
  }

  /** The four layouts of ECMA-262 Number::toString for 0.d1…dk * 10^n. */
  function Layout(digits: string, n: int): (r: string)
    requires digits != []
    ensures r != []
  {
    var k := |digits|;
    if k <= n <= 21 then digits + Zeros(n - k)
    else if 0 < n <= 21 then digits[..n] + ['.'] + digits[n..]
    else if -6 < n <= 0 then "0." + Zeros(-n) + digits
    else Scientific(digits, n - 1)
  }

  function Scientific(digits: string, e: int): (r: string)
    requires digits != []
    ensures r != []
  {
    if |digits| == 1 then digits + PowerText(Some(e))
    else digits[..1] + ['.'] + digits[1..] + PowerText(Some(e))
  }

  function Es6Number(n: Number): (r: string)
    requires WellFormed(n)
  {
    match n
    case Unsigned(u) => NatText(u)
    case Negative(m) => Signed(true, NatText(m))
    case FloatZero => "0"
    case Float(neg, digits, exp) => Signed(neg, Layout(digits, exp + 1))
  }

  function Signed(neg: bool, s: string): string {
    if neg then ['-'] + s else s
  }

  /** The exact number, independent of how it is stored. */
  function NumberValue(n: Number): (d: Dec)
    requires WellFormed(n)
  {
    match n
    case Unsigned(u) => Normal(false, NatText(u), |NatText(u)|)
    case Negative(m) => Normal(true, NatText(m), |NatText(m)|)
    case FloatZero => Dec(false, [], 0)
    case Float(neg, digits, exp) => Dec(neg, digits, exp + 1)
  }

  function DigitRun(s: string): (r: string)
    ensures r <= s && AllDigits(r)
    ensures |r| < |s| ==> !IsDigit(s[|r|])
  {
    if s == [] || !IsDigit(s[0]) then [] else [s[0]] + DigitRun(s[1..])
  }

  function Head(s: string): (c: char) {
    if s == [] then ' ' else s[0]
  }

  lemma {:induction false} RunStops(d: string, rest: string)
    requires AllDigits(d) && !IsDigit(Head(rest))
    ensures DigitRun(d + rest) == d && (d + rest)[|d|..] == rest
  {
    if d == [] {
      assert d + rest == rest;
    } else {
      assert (d + rest)[1..] == d[1..] + rest;
      RunStops(d[1..], rest);
    }
  }

  // A number text without its sign: whole part, fraction, and power of ten if one is written.
  datatype Token = Token(whole: string, fraction: string, power: Option<int>)

  predicate TokenOk(k: Token) {
    k.whole != [] && AllDigits(k.whole) && AllDigits(k.fraction)
  }

  function FractionText(f: string): string {
    if f == [] then [] else ['.'] + f
  }

  function PowerText(p: Option<int>): string {
    match p
    case None => []
    case Some(e) => ['e', if e < 0 then '-' else '+'] + NatText(if e < 0 then -e else e)
  }

  function Render(k: Token): string {
    k.whole + FractionText(k.fraction) + PowerText(k.power)
  }

  /** The exact value of a token. */
  function TokenValue(neg: bool, k: Token): (d: Dec)
    requires TokenOk(k)
  {
    Normal(neg, k.whole + k.fraction, |k.whole| + (match k.power case None => 0 case Some(e) => e))
  }

  // ---- reading a token back --------------------------------------------------------------

  function ReadFraction(t: string): (r: (string, string))
    ensures AllDigits(r.0) && |r.1| <= |t|
  {
    if Head(t) == '.' then
      var d := DigitRun(t[1..]);
      (d, t[1..][|d|..])
    else ([], t)
  }

  function ReadPower(t: string): (r: (Option<int>, string))
    ensures |r.1| <= |t|
  {
    if Head(t) == 'e' && |t| >= 2 then
      var d := DigitRun(t[2..]);
      (Some(if t[1] == '-' then 0 - Value(d) else Value(d)), t[2..][|d|..])
    else (None, t)
  }

  function ReadToken(s: string): (r: Option<(Token, string)>)
    ensures r.Some? ==> TokenOk(r.value.0) && |r.value.1| < |s|
  {
    var whole := DigitRun(s);
    if whole == [] then None
    else
      var (fraction, t) := ReadFraction(s[|whole|..]);
      var (power, rest) := ReadPower(t);
      Some((Token(whole, fraction, power), rest))
  }

  function ReadNumber(s: string): (r: Option<(Dec, string)>)
    ensures r.Some? ==> |r.value.1| < |s|
  {
    var neg := Head(s) == '-';
    match ReadToken(if neg then s[1..] else s)
    case None => None
    case Some((k, rest)) => Some((TokenValue(neg, k), rest))
  }

  /** What can follow a value in canonical text: nothing, a comma or a closing bracket. */
  predicate Stops(rest: string) {
    rest == [] || rest[0] in {',', ']', '}'}
  }

  lemma {:induction false} PowerReads(p: Option<int>, rest: string)
    requires Stops(rest)
    ensures ReadPower(PowerText(p) + rest) == (p, rest)
  {
    if p.None? {
      assert PowerText(p) + rest == rest;
    } else {
      SignedPowerReads(p.value, NatText(if p.value < 0 then -p.value else p.value), rest);
    }
  }

  lemma {:induction false} SignedPowerReads(e: int, d: string, rest: string)
    requires AllDigits(d) && Stops(rest) && Value(d) == if e < 0 then -e else e
    ensures ReadPower(['e', if e < 0 then '-' else '+'] + d + rest) == (Some(e), rest)
  {
    var t := ['e', if e < 0 then '-' else '+'] + d + rest;
    assert t[2..] == d + rest;
    RunStops(d, rest);
  }

  lemma {:induction false} FractionReads(f: string, u: string)
    requires AllDigits(f) && !IsDigit(Head(u)) && Head(u) != '.'
    ensures ReadFraction(FractionText(f) + u) == (f, u)
  {
    var t := FractionText(f) + u;
    if f == [] {
      assert t == u;
    } else {
      assert t[1..] == f + u;
      RunStops(f, u);
    }
  }

  /** A rendered token reads back as itself, whatever follows. */
  lemma {:induction false} TokenReads(k: Token, rest: string)
    requires TokenOk(k) && Stops(rest)
    ensures ReadToken(Render(k) + rest) == Some((k, rest))
  {
    var u := PowerText(k.power) + rest;
    var t := FractionText(k.fraction) + u;
    assert Render(k) + rest == k.whole + t;
    RunStops(k.whole, t);
    FractionReads(k.fraction, u);
    PowerReads(k.power, rest);
  }

  lemma {:induction false} SignedAppends(neg: bool, t: string, rest: string)
    ensures Signed(neg, t) + rest == Signed(neg, t + rest)
  {
    Assoc("-", t, rest);
  }

  /** A sign before a text that reads as a token. */
  lemma {:induction false} SignedTokenReads(neg: bool, body: string, k: Token, rest: string)
    requires ReadToken(body) == Some((k, rest)) && Head(body) != '-'
    ensures ReadNumber(Signed(neg, body)) == Some((TokenValue(neg, k), rest))
  {
    if neg {
      assert Signed(neg, body)[1..] == body;
    }
  }

  lemma {:induction false} RenderHead(k: Token, rest: string)
    requires TokenOk(k)
    ensures Head(Render(k) + rest) == k.whole[0]
  {}

  lemma {:induction false} SignReads(neg: bool, k: Token, rest: string)
    requires TokenOk(k) && Stops(rest)
    ensures ReadNumber(Signed(neg, Render(k)) + rest) == Some((TokenValue(neg, k), rest))
  {
    SignedAppends(neg, Render(k), rest);
    TokenReads(k, rest);
    RenderHead(k, rest);
    SignedTokenReads(neg, Render(k) + rest, k, rest);
  }

  // ---- the layouts as tokens -------------------------------------------------------------

  function LayoutToken(digits: string, n: int): (k: Token)
    requires digits != [] && AllDigits(digits)
    ensures TokenOk(k)
  {
    var k := |digits|;
    if k <= n <= 21 then Token(digits + Zeros(n - k), [], None)
    else if 0 < n <= 21 then Token(digits[..n], digits[n..], None)
    else if -6 < n <= 0 then Token("0", Zeros(-n) + digits, None)
    else Token(digits[..1], digits[1..], Some(n - 1))
  }

  lemma {:induction false} LayoutIsRendered(digits: string, n: int)
    requires digits != [] && AllDigits(digits)
    ensures Layout(digits, n) == Render(LayoutToken(digits, n))
  {
    var k := LayoutToken(digits, n);
    var f, p := FractionText(k.fraction), PowerText(k.power);
    if |digits| <= n <= 21 {
      assert k.whole + f + p == k.whole;
    } else if 0 < n <= 21 {
      Assoc(digits[..n], ['.'], digits[n..]);
      assert k.whole + f + p == k.whole + f;
    } else if -6 < n <= 0 {
      Assoc("0", ['.'], k.fraction);
      Assoc("0.", Zeros(-n), digits);
      assert k.whole + f + p == k.whole + f;
    } else if |digits| == 1 {
      assert digits[..1] == digits && k.whole + f == k.whole;
    } else {
      Assoc(digits[..1], ['.'], digits[1..]);
    }
  }

  /** Every layout denotes 0.digits * 10^n. */
  lemma {:induction false} LayoutValue(neg: bool, digits: string, n: int)
    requires NormalDigits(digits)
    ensures TokenValue(neg, LayoutToken(digits, n)) == Dec(neg, digits, n)
  {
    var k := LayoutToken(digits, n);
    var point := |k.whole| + (match k.power case None => 0 case Some(e) => e);
    assert Normal(neg, k.whole + k.fraction, point) == Normal(neg, digits, n) by {
      LayoutDigits(neg, digits, n);
    }
    assert Normal(neg, digits, n) == Dec(neg, digits, n);
  }

  lemma {:induction false} LayoutDigits(neg: bool, digits: string, n: int)
    requires NormalDigits(digits)
    ensures var k := LayoutToken(digits, n);
            var point := |k.whole| + (match k.power case None => 0 case Some(e) => e);
            Normal(neg, k.whole + k.fraction, point) == Normal(neg, digits, n)
  {
    var k := LayoutToken(digits, n);
    if |digits| <= n <= 21 {
      assert k.whole + k.fraction == digits + Zeros(n - |digits|);
      NormalTrailing(neg, digits, n - |digits|, n);
    } else if -6 < n <= 0 {
      assert k.whole + k.fraction == Zeros(1 - n) + digits;
      NormalLeading(neg, 1 - n, digits, 1);
    } else {
      assert k.whole + k.fraction == digits;
    }
  }

  lemma {:induction false} FloatReads(neg: bool, digits: string, n: int, rest: string)
    requires NormalDigits(digits) && Stops(rest)
    ensures ReadNumber(Signed(neg, Layout(digits, n)) + rest) == Some((Dec(neg, digits, n), rest))
  {
    LayoutIsRendered(digits, n);
    LayoutValue(neg, digits, n);
    SignReads(neg, LayoutToken(digits, n), rest);
  }

  lemma {:induction false} IntegerReads(neg: bool, d: string, rest: string)
    requires d != [] && AllDigits(d) && Stops(rest)
    ensures ReadNumber(Signed(neg, d) + rest) == Some((Normal(neg, d, |d|), rest))
  {
    var k := Token(d, [], None);
    assert Render(k) == d && k.whole + k.fraction == d;
    SignReads(neg, k, rest);
  }

  lemma {:induction false} ZeroReads(rest: string)
    requires Stops(rest)
    ensures ReadNumber("0" + rest) == Some((Dec(false, [], 0), rest))
  {
    IntegerReads(false, "0", rest);
    assert "0"[1..] == [] && Normal(false, "0", 1) == Dec(false, [], 0);
  }

  lemma {:induction false} UnsignedReads(u: nat, rest: string)
    requires Stops(rest) && WellFormed(Unsigned(u))
    ensures ReadNumber(Es6Number(Unsigned(u)) + rest) == Some((NumberValue(Unsigned(u)), rest))
  {
    IntegerReads(false, NatText(u), rest);
  }

  lemma {:induction false} NegativeReads(m: nat, rest: string)
    requires Stops(rest) && WellFormed(Negative(m))
    ensures ReadNumber(Es6Number(Negative(m)) + rest) == Some((NumberValue(Negative(m)), rest))
  {
    IntegerReads(true, NatText(m), rest);
  }

  lemma {:induction false} FloatZeroReads(rest: string)
    requires Stops(rest)
    ensures ReadNumber(Es6Number(FloatZero) + rest) == Some((NumberValue(FloatZero), rest))
  {
    ZeroReads(rest);
  }

  lemma {:induction false} AnyFloatReads(n: Number, rest: string)
    requires Stops(rest) && n.Float? && WellFormed(n)
    ensures ReadNumber(Es6Number(n) + rest) == Some((NumberValue(n), rest))
  {
    FloatReads(n.neg, n.digits, n.exp + 1, rest);
  }

  /** Reading a printed number gives its exact value. */
  lemma {:induction false} NumberReads(n: Number, rest: string)
    requires WellFormed(n) && Stops(rest)
    ensures ReadNumber(Es6Number(n) + rest) == Some((NumberValue(n), rest))
  {
    match n
    case Unsigned(u) => UnsignedReads(u, rest);
    case Negative(m) => NegativeReads(m, rest);
    case FloatZero => FloatZeroReads(rest);
    case Float(neg, digits, exp) => AnyFloatReads(n, rest);
  }

  // ---- one text per number ---------------------------------------------------------------

  /** The one text of an exact number. */
  function TextOf(d: Dec): (r: string) {
    if d.digits == [] then "0" else Signed(d.neg, Layout(d.digits, d.point))
  }

  lemma {:induction false} AtMostTwentyDigits(u: nat)
    requires u < 0x1_0000_0000_0000_0000
    ensures |NatText(u)| <= 20
  {
    assert TenTo(5) == 100_000 && TenTo(10) == 10_000_000_000;
    assert TenTo(15) == 1_000_000_000_000_000 && TenTo(20) == 100_000_000_000_000_000_000;
    NatTextLength(u, 20);
  }

  lemma {:induction false} IntegerText(neg: bool, d: string)
    requires d != [] && d[0] != '0' && |d| <= 20
    ensures TextOf(Normal(neg, d, |d|)) == Signed(neg, d)
  {
    StripStartKeeps(d);
    StripEndSplit(d);
    assert StripEnd(d) != [] by { assert d != Zeros(|d|); }
  }

  /** The printed text depends on the exact value alone. */
  lemma {:induction false} NumberText(n: Number)
    requires WellFormed(n)
    ensures Es6Number(n) == TextOf(NumberValue(n))
  {
    match n
    case Unsigned(u) =>
      if u > 0 {
        AtMostTwentyDigits(u);
        IntegerText(false, NatText(u));
      } else {
        assert NatText(0) == "0" && "0"[1..] == [];
      }
    case Negative(m) =>
      AtMostTwentyDigits(m);
      IntegerText(true, NatText(m));
    case FloatZero =>
    case Float(neg, digits, exp) =>
  }

  lemma {:induction false} NumberCanonical(a: Number, b: Number)
    requires WellFormed(a) && WellFormed(b)
    ensures Es6Number(a) == Es6Number(b) <==> NumberValue(a) == NumberValue(b)
  {
    NumberText(a);
    NumberText(b);
    if Es6Number(a) == Es6Number(b) {
      NumberReads(a, []);
      NumberReads(b, []);
    }
  }

  // ---- the value is the number -----------------------------------------------------------

  predicate IsZero(n: Number) {
    n.FloatZero? || n == Unsigned(0)
  }

  predicate IsNegative(n: Number) {
    n.Negative? || (n.Float? && n.neg)
  }

  /** The absolute value of a number as mantissa * 10^scale. */
  function Mantissa(n: Number): (m: nat)
    requires WellFormed(n)
  {
    match n
    case Unsigned(u) => u
    case Negative(m) => m
    case FloatZero => 0
    case Float(_, digits, _) => Value(digits)
  }

  function Scale(n: Number): (e: int) {
    if n.Float? then n.exp + 1 - |n.digits| else 0
  }

  /** `1` and `1.0` are the same number; `1` and `-1`, `1` and `10` are not. */
  predicate SameNumeric(a: Number, b: Number)
    requires WellFormed(a) && WellFormed(b)
  {
    if IsZero(a) || IsZero(b) then IsZero(a) && IsZero(b)
    else IsNegative(a) == IsNegative(b) && SameNumber(Mantissa(a), Scale(a), Mantissa(b), Scale(b))
  }

  lemma {:induction false} ValueScaled(n: Number) returns (z: nat)
    requires WellFormed(n) && !IsZero(n)
    ensures var d := NumberValue(n);
            && NormalDigits(d.digits) && d.neg == IsNegative(n)
            && d.point - |d.digits| == Scale(n) + z
            && Mantissa(n) == Value(d.digits) * TenTo(z)
  {
    if n.Float? {
      z := 0;
    } else {
      z := IntegerScaled(IsNegative(n), Mantissa(n));
    }
  }

  lemma {:induction false} IntegerScaled(neg: bool, u: nat) returns (z: nat)
    requires u > 0
    ensures var d := Normal(neg, NatText(u), |NatText(u)|);
            && NormalDigits(d.digits) && d.neg == neg && d.point - |d.digits| == z
            && u == Value(d.digits) * TenTo(z)
  {
    var s := NatText(u);
    var d := Normal(neg, s, |s|);
    NormalDenotes(neg, s, |s|);
    StripStartKeeps(s);
    StripEndSplit(s);
    assert d.digits[0] == s[0];
    z := d.point - |d.digits|;
  }

  /** The normal form a number is read back to is the number itself, in the arithmetic sense. */
  lemma {:induction false} ValueIsNumeric(a: Number, b: Number)
    requires WellFormed(a) && WellFormed(b)
    ensures NumberValue(a) == NumberValue(b) <==> SameNumeric(a, b)
  {
    if IsZero(a) || IsZero(b) {
      ZeroValue(a);
      ZeroValue(b);
    } else {
      var y := ValueScaled(a);
      var z := ValueScaled(b);
      var c, d := NumberValue(a), NumberValue(b);
      if Scale(a) <= Scale(b) {
        ScaledSame(c.digits, y, Mantissa(a), d.digits, z, Mantissa(b), Scale(b) - Scale(a));
      } else {
        ScaledSame(d.digits, z, Mantissa(b), c.digits, y, Mantissa(a), Scale(a) - Scale(b));
      }
    }
  }

  lemma {:induction false} ZeroValue(n: Number)
    requires WellFormed(n)
    ensures IsZero(n) <==> NumberValue(n).digits == []
    ensures IsZero(n) ==> NumberValue(n) == Dec(false, [], 0)
  {
    if n.Unsigned? && n.u == 0 {
      assert NatText(0) == "0" && "0"[1..] == [];
    } else if !IsZero(n) {
      var z := ValueScaled(n);
    }
  }

  /** Numbers print alike exactly when they are the same number. */
  lemma {:induction false} NumbersPrintAlike(a: Number, b: Number)
    requires WellFormed(a) && WellFormed(b)
    ensures Es6Number(a) == Es6Number(b) <==> SameNumeric(a, b)
  {
    NumberCanonical(a, b);
    ValueIsNumeric(a, b);
  }

  /** A float counts as the number its shortest digits spell, which need not be the double itself: an integer and a
      float print alike exactly when the integer is those digits, padded with zeros to the exponent. */
  lemma {:induction false} IntegerPrintsLikeFloat(a: Number, b: Number)
    requires WellFormed(a) && WellFormed(b) && a.Unsigned? && a.u > 0 && b.Float? && !b.neg
    ensures Es6Number(a) == Es6Number(b) <==> Scale(b) >= 0 && a.u == Value(b.digits) * TenTo(Scale(b))
  {
    NumbersPrintAlike(a, b);
    IntegerIsFloat(a, b);
  }

  lemma {:induction false} IntegerIsFloat(a: Number, b: Number)
    requires WellFormed(a) && WellFormed(b) && a.Unsigned? && a.u > 0 && b.Float? && !b.neg
    ensures SameNumeric(a, b) <==> Scale(b) >= 0 && a.u == Value(b.digits) * TenTo(Scale(b))
  {
    LastDigit(b.digits);
    ScaledInteger(a.u, Value(b.digits), Scale(b));
  }

  /** Every shortest digits that fit 64 bits when padded have such an integer. The double 2^63 has the digits of
      m == 9223372036854776 with z == 3, so it prints like the integer 9223372036854776000, 192 above it. */
  lemma {:induction false} PaddedDigitsCollide(m: nat, z: nat, integer: Number, float: Number)
    requires m % 10 != 0 && integer == Unsigned(m * TenTo(z)) && WellFormed(integer)
    requires float == Float(false, NatText(m), |NatText(m)| - 1 + z)
    ensures WellFormed(float) && Es6Number(integer) == Es6Number(float)
  {
    ShortestDigits(m);
    Positive(m, TenTo(z));
    IntegerPrintsLikeFloat(integer, float);
  }

  lemma {:induction false} ShortestDigits(m: nat)
    requires m % 10 != 0
    ensures NormalDigits(NatText(m))
  {
    LastDigit(NatText(m));
  }

  lemma {:induction false} Positive(m: nat, p: nat)
    requires m > 0 && p > 0
    ensures m * p > 0
  {}

  // ---- values --------------------------------------------------------------------------

  /** serde_json::Value. `Object` lists its fields in the map's key order. */
  datatype Json =
    | Null
    | Boolean(b: bool)
    | Num(n: Number)
    | Text(s: string)
    | Array(items: seq<Json>)
    | Object(fields: seq<Field>)
  datatype Field = Field(key: string, value: Json)

  /** What a value means: numbers by exact value, everything else by structure. */
  datatype Meaning =
    | MNull
    | MBoolean(b: bool)
    | MNumber(d: Dec)
    | MText(s: string)
    | MArray(items: seq<Meaning>)
    | MObject(fields: seq<MField>)
  datatype MField = MField(key: string, value: Meaning)

  predicate Valid(v: Json) {
    match v
    case Num(n) => WellFormed(n)
    case Array(items) => forall i :: 0 <= i < |items| ==> Valid(items[i])
    case Object(fields) => forall i :: 0 <= i < |fields| ==> Valid(fields[i].value)
    case _ => true
  }

  function Mean(v: Json): (m: Meaning)
    requires Valid(v)
    decreases v
  {
    match v
    case Null => MNull
    case Boolean(b) => MBoolean(b)
    case Num(n) => MNumber(NumberValue(n))
    case Text(s) => MText(s)
    case Array(items) => MArray(MeanItems(items))
    case Object(fields) => MObject(MeanFields(fields))
  }

  function MeanItems(items: seq<Json>): (r: seq<Meaning>)
    requires forall i :: 0 <= i < |items| ==> Valid(items[i])
    decreases items
  {
    if items == [] then [] else [Mean(items[0])] + MeanItems(items[1..])
  }

  function MeanField(f: Field): (r: MField)
    requires Valid(f.value)
    decreases f
  {
    MField(f.key, Mean(f.value))
  }

  function MeanFields(fields: seq<Field>): (r: seq<MField>)
    requires forall i :: 0 <= i < |fields| ==> Valid(fields[i].value)
    decreases fields
  {
    if fields == [] then [] else [MeanField(fields[0])] + MeanFields(fields[1..])
  }

  /** `canonical_json`. */
  function Canonical(v: Json): (r: string)
    requires Valid(v)
    decreases v
  {
    match v
    case Null => "null"
    case Boolean(b) => if b then "true" else "false"
    case Num(n) => Es6Number(n)
    case Text(s) => Quote(s)
    case Array(items) => ['['] + CanonicalItems(items) + [']']
    case Object(fields) => ['{'] + CanonicalFields(fields) + ['}']
  }

  function CanonicalItems(items: seq<Json>): (r: string)
    requires forall i :: 0 <= i < |items| ==> Valid(items[i])
    decreases items
  {
    if items == [] then []
    else if |items| == 1 then Canonical(items[0])
    else Canonical(items[0]) + [','] + CanonicalItems(items[1..])
  }

  function CanonicalField(f: Field): (r: string)
    requires Valid(f.value)
    decreases f
  {
    Quote(f.key) + [':'] + Canonical(f.value)
  }

  function CanonicalFields(fields: seq<Field>): (r: string)
    requires forall i :: 0 <= i < |fields| ==> Valid(fields[i].value)
    decreases fields
  {
    if fields == [] then []
    else if |fields| == 1 then CanonicalField(fields[0])
    else CanonicalField(fields[0]) + [','] + CanonicalFields(fields[1..])
  }

  // ---- reading values back ---------------------------------------------------------------

  function ReadValue(s: string): (r: Option<(Meaning, string)>)
    ensures r.Some? ==> |r.value.1| < |s|
    decreases |s|, 0
  {
    if Head(s) == '-' || IsDigit(Head(s)) then
      (match ReadNumber(s)
       case None => None
       case Some((d, rest)) => Some((MNumber(d), rest)))
    else match Head(s)
    case '"' =>
      (match ReadChars(s[1..])
       case None => None
       case Some((text, rest)) => Some((MText(text), rest)))
    case '[' =>
      if Head(s[1..]) == ']' then Some((MArray([]), s[2..]))
      else (match ReadItems(s[1..])
            case None => None
            case Some((items, rest)) => Some((MArray(items), rest)))
    case '{' =>
      if Head(s[1..]) == '}' then Some((MObject([]), s[2..]))
      else (match ReadFields(s[1..])
            case None => None
            case Some((fields, rest)) => Some((MObject(fields), rest)))
    case 'n' => if "null" <= s then Some((MNull, s[4..])) else None
    case 't' => if "true" <= s then Some((MBoolean(true), s[4..])) else None
    case 'f' => if "false" <= s then Some((MBoolean(false), s[5..])) else None
    case _ => None
  }

  /** One or more values separated by commas, up to the closing bracket. */
  function ReadItems(s: string): (r: Option<(seq<Meaning>, string)>)
    ensures r.Some? ==> |r.value.1| < |s|
    decreases |s|, 1
  {
    match ReadValue(s)
    case None => None
    case Some((v, rest)) =>
      if Head(rest) == ']' then Some(([v], rest[1..]))
      else if Head(rest) == ',' then
        (match ReadItems(rest[1..])
         case None => None
         case Some((vs, rest')) => Some(([v] + vs, rest')))
      else None
  }

  function ReadField(s: string): (r: Option<(MField, string)>)
    ensures r.Some? ==> |r.value.1| < |s|
    decreases |s|, 0
  {
    if Head(s) != '"' then None
    else match ReadChars(s[1..])
      case None => None
      case Some((key, rest)) =>
        if Head(rest) != ':' then None
        else match ReadValue(rest[1..])
          case None => None
          case Some((v, rest')) => Some((MField(key, v), rest'))
  }

  function ReadFields(s: string): (r: Option<(seq<MField>, string)>)
    ensures r.Some? ==> |r.value.1| < |s|
    decreases |s|, 1
  {
    match ReadField(s)
    case None => None
    case Some((f, rest)) =>
      if Head(rest) == '}' then Some(([f], rest[1..]))
      else if Head(rest) == ',' then
        (match ReadFields(rest[1..])
         case None => None
         case Some((fs, rest')) => Some(([f] + fs, rest')))
      else None
  }

  lemma {:induction false} NumberHead(n: Number)
    requires WellFormed(n)
    ensures Es6Number(n) != [] && (Es6Number(n)[0] == '-' || IsDigit(Es6Number(n)[0]))
  {}

  lemma {:induction false} ValueHead(v: Json)
    requires Valid(v)
    ensures Canonical(v) != [] && Canonical(v)[0] !in {']', '}', ',', ':'}
  {
    if v.Num? {
      NumberHead(v.n);
    }
  }

  lemma {:induction false} TextReads(s: string, rest: string)
    ensures ReadValue(Quote(s) + rest) == Some((MText(s), rest))
  {
    assert (Quote(s) + rest)[1..] == Escape(s) + ['"'] + rest;
    ReadEscape(s, rest);
  }

  lemma {:induction false} DigitHead(s: string)
    requires Head(s) == '-' || IsDigit(Head(s))
    ensures ReadNumber(s).Some? ==> ReadValue(s) == Some((MNumber(ReadNumber(s).value.0), ReadNumber(s).value.1))
  {}

  lemma {:induction false} NumReads(n: Number, rest: string)
    requires WellFormed(n) && Stops(rest)
    ensures ReadValue(Es6Number(n) + rest) == Some((MNumber(NumberValue(n)), rest))
  {
    var s := Es6Number(n) + rest;
    assert Head(s) == '-' || IsDigit(Head(s)) by { NumberHead(n); }
    assert ReadNumber(s) == Some((NumberValue(n), rest)) by { NumberReads(n, rest); }
    DigitHead(s);
  }

  lemma {:induction false} Enclosed(a: string, b: string, c: string, d: string)
    ensures a + b + c + d == a + (b + (c + d))
  {}

  lemma {:induction false} NullReads(rest: string)
    ensures ReadValue("null" + rest) == Some((MNull, rest))
  {}

  lemma {:induction false} BooleanReads(b: bool, rest: string)
    ensures ReadValue((if b then "true" else "false") + rest) == Some((MBoolean(b), rest))
  {
    assert ("true" + rest)[4..] == rest;
    assert ("false" + rest)[5..] == rest;
  }

  /** Reading canonical text gives back what the value means, whatever follows. */
  lemma {:induction false} ValueReads(v: Json, rest: string)
    requires Valid(v) && Stops(rest)
    ensures ReadValue(Canonical(v) + rest) == Some((Mean(v), rest))
    decreases v
  {
    var s := Canonical(v) + rest;
    match v
    case Null => NullReads(rest);
    case Boolean(b) => BooleanReads(b, rest);
    case Num(n) => NumReads(n, rest);
    case Text(t) => TextReads(t, rest);
    case Array(items) =>
      var inner := CanonicalItems(items) + ([']'] + rest);
      Enclosed(['['], CanonicalItems(items), [']'], rest);
      if items != [] {
        ItemsHead(items);
        ItemsRead(items, rest);
      }
      ArrayParts(inner, MeanItems(items), rest);
    case Object(fields) =>
      var inner := CanonicalFields(fields) + (['}'] + rest);
      Enclosed(['{'], CanonicalFields(fields), ['}'], rest);
      if fields != [] {
        FieldsHead(fields);
        FieldsRead(fields, rest);
      }
      ObjectParts(inner, MeanFields(fields), rest);
  }

  lemma {:induction false} ArrayParts(inner: string, items: seq<Meaning>, rest: string)
    requires if items == [] then inner == [']'] + rest
             else inner != [] && inner[0] != ']' && ReadItems(inner) == Some((items, rest))
    ensures ReadValue(['['] + inner) == Some((MArray(items), rest))
  {
    assert (['['] + inner)[1..] == inner;
    assert inner != [] ==> (['['] + inner)[2..] == inner[1..];
  }

  lemma {:induction false} ObjectParts(inner: string, fields: seq<MField>, rest: string)
    requires if fields == [] then inner == ['}'] + rest
             else inner != [] && inner[0] != '}' && ReadFields(inner) == Some((fields, rest))
    ensures ReadValue(['{'] + inner) == Some((MObject(fields), rest))
  {
    assert (['{'] + inner)[1..] == inner;
    assert inner != [] ==> (['{'] + inner)[2..] == inner[1..];
  }

  lemma {:induction false} ItemsLast(s: string, v: Meaning, rest: string)
    ensures ReadValue(s) == Some((v, [']'] + rest)) ==> ReadItems(s) == Some(([v], rest))
  {}

  lemma {:induction false} ItemsMore(s: string, v: Meaning, more: string, vs: seq<Meaning>, rest: string)
    ensures ReadValue(s) == Some((v, [','] + more)) && ReadItems(more) == Some((vs, rest)) ==>
              ReadItems(s) == Some(([v] + vs, rest))
  {}

  lemma {:induction false} FieldsLast(s: string, f: MField, rest: string)
    ensures ReadField(s) == Some((f, ['}'] + rest)) ==> ReadFields(s) == Some(([f], rest))
  {}

  lemma {:induction false} FieldsMore(s: string, f: MField, more: string, fs: seq<MField>, rest: string)
    ensures ReadField(s) == Some((f, [','] + more)) && ReadFields(more) == Some((fs, rest)) ==>
              ReadFields(s) == Some(([f] + fs, rest))
  {}

  lemma {:induction false} ItemsHead(items: seq<Json>)
    requires items != [] && forall i :: 0 <= i < |items| ==> Valid(items[i])
    ensures CanonicalItems(items) != [] && CanonicalItems(items)[0] != ']'
  {
    ValueHead(items[0]);
  }

  lemma {:induction false} FieldsHead(fields: seq<Field>)
    requires fields != [] && forall i :: 0 <= i < |fields| ==> Valid(fields[i].value)
    ensures CanonicalFields(fields) != [] && CanonicalFields(fields)[0] == '"'
  {}

  lemma {:induction false} Regroup(a: string, b: string, c: string, d: string, e: string)
    ensures a + b + c + (d + e) == a + (b + (c + (d + e)))
  {}

  lemma {:induction false} ItemsRead(items: seq<Json>, rest: string)
    requires items != [] && forall i :: 0 <= i < |items| ==> Valid(items[i])
    ensures ReadItems(CanonicalItems(items) + ([']'] + rest)) == Some((MeanItems(items), rest))
    decreases items
  {
    var s := CanonicalItems(items) + ([']'] + rest);
    if |items| == 1 {
      ValueReads(items[0], [']'] + rest);
      ItemsLast(s, Mean(items[0]), rest);
      assert MeanItems(items) == [Mean(items[0])];
    } else {
      var more := CanonicalItems(items[1..]) + ([']'] + rest);
      Regroup(Canonical(items[0]), [','], CanonicalItems(items[1..]), [']'], rest);
      ValueReads(items[0], [','] + more);
      ItemsRead(items[1..], rest);
      ItemsMore(s, Mean(items[0]), more, MeanItems(items[1..]), rest);
    }
  }

  lemma {:induction false} FieldText(key: string, value: string, rest: string)
    ensures var s := Quote(key) + [':'] + value + rest;
            Head(s) == '"' && s[1..] == Escape(key) + ['"'] + ([':'] + (value + rest))
    ensures ([':'] + (value + rest))[1..] == value + rest
  {}

  lemma {:induction false} FieldParts(s: string, key: string, tail: string, v: Meaning, rest: string)
    requires Head(s) == '"' && ReadChars(s[1..]) == Some((key, tail))
    requires Head(tail) == ':' && ReadValue(tail[1..]) == Some((v, rest))
    ensures ReadField(s) == Some((MField(key, v), rest))
  {}

  lemma {:induction false} FieldReads(f: Field, rest: string)
    requires Valid(f.value) && Stops(rest)
    ensures ReadField(CanonicalField(f) + rest) == Some((MeanField(f), rest))
    decreases f
  {
    var after := Canonical(f.value) + rest;
    FieldText(f.key, Canonical(f.value), rest);
    ReadEscape(f.key, [':'] + after);
    ValueReads(f.value, rest);
    FieldParts(CanonicalField(f) + rest, f.key, [':'] + after, Mean(f.value), rest);
  }

  lemma {:induction false} FieldsRead(fields: seq<Field>, rest: string)
    requires fields != [] && forall i :: 0 <= i < |fields| ==> Valid(fields[i].value)
    ensures ReadFields(CanonicalFields(fields) + (['}'] + rest)) == Some((MeanFields(fields), rest))
    decreases fields
  {
    var s := CanonicalFields(fields) + (['}'] + rest);
    if |fields| == 1 {
      FieldReads(fields[0], ['}'] + rest);
      FieldsLast(s, MeanField(fields[0]), rest);
      assert MeanFields(fields) == [MeanField(fields[0])];
    } else {
      var more := CanonicalFields(fields[1..]) + (['}'] + rest);
      Regroup(CanonicalField(fields[0]), [','], CanonicalFields(fields[1..]), ['}'], rest);
      FieldReads(fields[0], [','] + more);
      FieldsRead(fields[1..], rest);
      FieldsMore(s, MeanField(fields[0]), more, MeanFields(fields[1..]), rest);
    }
  }

  // ---- canonicity ------------------------------------------------------------------------

  lemma {:induction false} SameText(a: Json, b: Json)
    requires Valid(a) && Valid(b) && Mean(a) == Mean(b)
    ensures Canonical(a) == Canonical(b)
    decreases a
  {
    match a
    case Num(n) => NumberCanonical(n, b.n);
    case Array(items) => SameItems(items, b.items);
    case Object(fields) => SameFields(fields, b.fields);
    case _ =>
  }

  lemma {:induction false} SameItems(a: seq<Json>, b: seq<Json>)
    requires forall i :: 0 <= i < |a| ==> Valid(a[i])
    requires forall i :: 0 <= i < |b| ==> Valid(b[i])
    requires MeanItems(a) == MeanItems(b)
    ensures |a| == |b| && CanonicalItems(a) == CanonicalItems(b)
    decreases a
  {
    if a != [] && b != [] {
      assert MeanItems(a)[1..] == MeanItems(a[1..]) && MeanItems(b)[1..] == MeanItems(b[1..]);
      assert MeanItems(a)[0] == Mean(a[0]) && MeanItems(b)[0] == Mean(b[0]);
      SameText(a[0], b[0]);
      SameItems(a[1..], b[1..]);
    }
  }

  lemma {:induction false} SameFields(a: seq<Field>, b: seq<Field>)
    requires forall i :: 0 <= i < |a| ==> Valid(a[i].value)
    requires forall i :: 0 <= i < |b| ==> Valid(b[i].value)
    requires MeanFields(a) == MeanFields(b)
    ensures |a| == |b| && CanonicalFields(a) == CanonicalFields(b)
    decreases a
  {
    if a != [] && b != [] {
      assert MeanFields(a)[1..] == MeanFields(a[1..]) && MeanFields(b)[1..] == MeanFields(b[1..]);
      assert MeanFields(a)[0] == MeanField(a[0]) && MeanFields(b)[0] == MeanField(b[0]);
      SameText(a[0].value, b[0].value);
      SameFields(a[1..], b[1..]);
    }
  }

  /** Equal canonical texts mean equal values, and equal values have equal texts. */
  lemma {:induction false} CanonicalDecides(a: Json, b: Json)
    requires Valid(a) && Valid(b)
    ensures Canonical(a) == Canonical(b) <==> Mean(a) == Mean(b)
  {
    if Canonical(a) == Canonical(b) {
      ValueReads(a, []);
      ValueReads(b, []);
    }
    if Mean(a) == Mean(b) {
      SameText(a, b);
    }
  }

  // ---- the writer ------------------------------------------------------------------------

  /** What is still to be written of a list once `i` of its items are. */
  function ItemsFrom(items: seq<Json>, i: nat): (r: string)
    requires i <= |items| && forall k :: 0 <= k < |items| ==> Valid(items[k])
  {
    (if 0 < i < |items| then [','] else []) + CanonicalItems(items[i..])
  }

  function FieldsFrom(fields: seq<Field>, i: nat): (r: string)
    requires i <= |fields| && forall k :: 0 <= k < |fields| ==> Valid(fields[k].value)
  {
    (if 0 < i < |fields| then [','] else []) + CanonicalFields(fields[i..])
  }

  lemma {:induction false} ItemsStep(items: seq<Json>, i: nat)
    requires i < |items| && forall k :: 0 <= k < |items| ==> Valid(items[k])
    ensures ItemsFrom(items, i)
         == (if i > 0 then [','] else []) + Canonical(items[i]) + ItemsFrom(items, i + 1)
  {
    assert items[i..][1..] == items[i + 1..] && items[i..][0] == items[i];
  }

  lemma {:induction false} FieldsStep(fields: seq<Field>, i: nat)
    requires i < |fields| && forall k :: 0 <= k < |fields| ==> Valid(fields[k].value)
    ensures FieldsFrom(fields, i)
         == (if i > 0 then [','] else []) + CanonicalField(fields[i]) + FieldsFrom(fields, i + 1)
  {
    assert fields[i..][1..] == fields[i + 1..] && fields[i..][0] == fields[i];
  }

  lemma {:induction false} Appended(done: string, at: string, comma: bool, text: string, more: string)
    requires at == if comma then done + [','] else done
    ensures (at + text) + more == done + ((if comma then [','] else []) + text + more)
  {}

  lemma {:induction false} FieldAppended(at: string, key: string, value: string)
    ensures at + key + [':'] + value == at + (key + [':'] + value)
  {}

  /** `write_canonical`: append the text of `value` to the buffer `before`. */
  method WriteCanonical(value: Json, before: string) returns (out: string)
    requires Valid(value)
    ensures out == before + Canonical(value)
    decreases value
  {
    match value
    case Num(n) => out := before + Es6Number(n);
    case Array(items) =>
      out := WriteItems(items, before + ['[']);
      out := out + [']'];
    case Object(fields) =>
      out := WriteFields(fields, before + ['{']);
      out := out + ['}'];
    case Null => out := before + "null";
    case Boolean(b) => out := before + if b then "true" else "false";
    case Text(s) => out := before + Quote(s);
  }

  method WriteItems(items: seq<Json>, before: string) returns (out: string)
    requires forall k :: 0 <= k < |items| ==> Valid(items[k])
    ensures out == before + CanonicalItems(items)
    decreases items
  {
    out := before;
    assert items[0..] == items;
    for i := 0 to |items|
      invariant out + ItemsFrom(items, i) == before + CanonicalItems(items)
    {
      ItemsStep(items, i);
      ghost var done := out;
      if i > 0 { out := out + [',']; }
      ghost var at := out;
      out := WriteCanonical(items[i], out);
      Appended(done, at, i > 0, Canonical(items[i]), ItemsFrom(items, i + 1));
    }
    assert ItemsFrom(items, |items|) == [];
    assert out + [] == out;
  }

  method WriteFields(fields: seq<Field>, before: string) returns (out: string)
    requires forall k :: 0 <= k < |fields| ==> Valid(fields[k].value)
    ensures out == before + CanonicalFields(fields)
    decreases fields
  {
    out := before;
    assert fields[0..] == fields;
    for i := 0 to |fields|
      invariant out + FieldsFrom(fields, i) == before + CanonicalFields(fields)
    {
      FieldsStep(fields, i);
      ghost var done := out;
      if i > 0 { out := out + [',']; }
      ghost var at := out;
      out := out + Quote(fields[i].key) + [':'];
      out := WriteCanonical(fields[i].value, out);
      assert out == at + CanonicalField(fields[i]) by {
        FieldAppended(at, Quote(fields[i].key), Canonical(fields[i].value));
      }
      Appended(done, at, i > 0, CanonicalField(fields[i]), FieldsFrom(fields, i + 1));
    }
    assert FieldsFrom(fields, |fields|) == [];
    assert out + [] == out;
  }
}
