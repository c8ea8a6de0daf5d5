/** Decimal digit strings and exact powers of ten. */
module Decimal {

  predicate IsDigit(c: char) {
    '0' <= c <= '9'
  }

  predicate AllDigits(s: string) {
    forall i :: 0 <= i < |s| ==> IsDigit(s[i])
  }

  function DigitValue(c: char): (d: nat)
    requires IsDigit(c)
  {
    c as int - '0' as int
  }

  /** The number a digit string denotes. */
  function Value(s: string): (n: nat)
    requires AllDigits(s)
  {
    if s == [] then 0 else Value(s[..|s| - 1]) * 10 + DigitValue(s[|s| - 1])
  }

  /** `u64::to_string`: shortest decimal text. */
  function NatText(n: nat): (s: string)
    ensures s != [] && AllDigits(s)
    ensures Value(s) == n
    ensures s[0] == '0' ==> n == 0
  {
    var last := [('0' as int + n % 10) as char];
    if n < 10 then
      assert last[..0] == [];
      last
    else
      var front := NatText(n / 10);
      var s := front + last;
      assert s[..|s| - 1] == front;
      s
  }

  function Zeros(n: nat): (s: string)
    ensures |s| == n && AllDigits(s) && forall i :: 0 <= i < n ==> s[i] == '0'
  {
    seq(n, _ => '0')
  }

  function TenTo(n: nat): (r: nat)
    ensures r >= 1
  {
    if n == 0 then 1 else 10 * TenTo(n - 1)
  }

  lemma TimesTen(m: nat, p: nat)
    ensures (m * p) * 10 == m * (10 * p) == 10 * (m * p)
  {}

  lemma {:induction false} TrailingZeros(s: string, z: nat)
    requires AllDigits(s)
    ensures AllDigits(s + Zeros(z)) && Value(s + Zeros(z)) == Value(s) * TenTo(z)
  {
    var t := s + Zeros(z);
    if z == 0 {
      assert t == s;
    } else {
      assert t[..|t| - 1] == s + Zeros(z - 1);
      TrailingZeros(s, z - 1);
      TimesTen(Value(s), TenTo(z - 1));
    }
  }

  lemma {:induction false} LeadingZeros(z: nat, s: string)
    requires AllDigits(s)
    ensures AllDigits(Zeros(z) + s) && Value(Zeros(z) + s) == Value(s)
  {
    var t := Zeros(z) + s;
    if s == [] {
      assert t == [] + Zeros(z);
      TrailingZeros([], z);
    } else {
      assert t[..|t| - 1] == Zeros(z) + s[..|s| - 1];
      LeadingZeros(z, s[..|s| - 1]);
    }
  }

  /** No leading zero: only zero itself may start with one. */
  predicate Shortest(s: string) {
    s != [] && AllDigits(s) && (s[0] == '0' ==> |s| == 1)
  }

  /** A shortest text is the only shortest text of its value. */
  lemma {:induction false} ShortestIsNatText(s: string)
    requires Shortest(s)
    ensures NatText(Value(s)) == s
    ensures s[0] != '0' ==> Value(s) > 0
  {
    if |s| > 1 {
      var front, last := s[..|s| - 1], s[|s| - 1];
      ShortestIsNatText(front);
      NatTextStep(Value(front), last);
      assert front + [last] == s;
    } else {
      assert s[..0] == [] && Value([]) == 0;
      assert s == [s[0]];
    }
  }

  lemma {:induction false} NatTextStep(n: nat, c: char)
    requires n > 0 && IsDigit(c)
    ensures NatText(n * 10 + DigitValue(c)) == NatText(n) + [c]
  {
    var m := n * 10 + DigitValue(c);
    assert m / 10 == n && m % 10 == DigitValue(c);
  }

  lemma {:induction false} NatTextLength(n: nat, k: nat)
    requires k >= 1 && n < TenTo(k)
    ensures |NatText(n)| <= k
  {
    if n >= 10 {
      assert TenTo(1) == 10 && TenTo(k) == 10 * TenTo(k - 1);
      NatTextLength(n / 10, k - 1);
    }
  }

  // ---- exact decimal numbers -----------------------------------------------------------

  function StripEnd(s: string): (r: string)
    ensures |r| <= |s| && (r != [] ==> r[|r| - 1] != '0')
  {
    if s != [] && s[|s| - 1] == '0' then StripEnd(s[..|s| - 1]) else s
  }

  function StripStart(s: string): (r: string)
    ensures |r| <= |s| && (r != [] ==> r[0] != '0')
  {
    if s != [] && s[0] == '0' then StripStart(s[1..]) else s
  }

  lemma {:induction false} StripEndSplit(s: string)
    ensures s == StripEnd(s) + Zeros(|s| - |StripEnd(s)|)
  {
    if s != [] && s[|s| - 1] == '0' {
      StripEndSplit(s[..|s| - 1]);
      assert s == s[..|s| - 1] + ['0'];
    }
  }

  lemma {:induction false} StripStartSplit(s: string)
    ensures s == Zeros(|s| - |StripStart(s)|) + StripStart(s)
  {
    if s != [] && s[0] == '0' {
      StripStartSplit(s[1..]);
      assert s == ['0'] + s[1..];
    }
  }

  lemma {:induction false} StripStartKeeps(s: string)
    requires s != [] && s[0] != '0'
    ensures StripStart(s) == s
  {}

  /** An exact decimal number, 0.digits * 10^point: no leading or trailing zeros, empty for zero. */
  datatype Dec = Dec(neg: bool, digits: string, point: int)

  /** The number 0.s * 10^point in normal form. */
  function Normal(neg: bool, s: string, point: int): (d: Dec) {
    var t := StripStart(s);
    var u := StripEnd(t);
    if u == [] then Dec(false, [], 0) else Dec(neg, u, point - (|s| - |t|))
  }

  lemma {:induction false} StripStartZeros(z: nat, s: string)
    ensures StripStart(Zeros(z) + s) == StripStart(s)
  {
    var t := Zeros(z) + s;
    if z == 0 {
      assert t == s;
    } else {
      assert t[1..] == Zeros(z - 1) + s;
      StripStartZeros(z - 1, s);
    }
  }

  lemma {:induction false} StripEndZeros(s: string, z: nat)
    ensures StripEnd(s + Zeros(z)) == StripEnd(s)
  {
    var t := s + Zeros(z);
    if z == 0 {
      assert t == s;
    } else {
      assert t[..|t| - 1] == s + Zeros(z - 1);
      StripEndZeros(s, z - 1);
    }
  }

  lemma {:induction false} NormalLeading(neg: bool, z: nat, s: string, point: int)
    ensures Normal(neg, Zeros(z) + s, point) == Normal(neg, s, point - z)
  {
    StripStartZeros(z, s);
  }

  lemma {:induction false} NormalTrailing(neg: bool, s: string, z: nat, point: int)
    requires s != [] && s[0] != '0'
    ensures Normal(neg, s + Zeros(z), point) == Normal(neg, s, point)
  {
    StripStartKeeps(s);
    StripStartKeeps(s + Zeros(z));
    StripEndZeros(s, z);
  }

  /** A normal form denotes the number it was made from: Value(s) * 10^(point - |s|). */
  lemma {:induction false} NormalDenotes(neg: bool, s: string, point: int)
    requires AllDigits(s)
    ensures var d := Normal(neg, s, point);
            if d.digits == [] then Value(s) == 0
            else
              var z := (d.point - |d.digits|) - (point - |s|);
              && AllDigits(d.digits) && z >= 0 && Value(s) == Value(d.digits) * TenTo(z)
  {
    StripStartValue(s);
    StripEndValue(StripStart(s));
  }

  lemma {:induction false} StripStartValue(s: string)
    requires AllDigits(s)
    ensures AllDigits(StripStart(s)) && Value(StripStart(s)) == Value(s)
  {
    var t := StripStart(s);
    StripStartSplit(s);
    assert forall i :: 0 <= i < |t| ==> t[i] == s[|s| - |t| + i];
    LeadingZeros(|s| - |t|, t);
  }

  lemma {:induction false} StripEndValue(s: string)
    requires AllDigits(s)
    ensures AllDigits(StripEnd(s)) && Value(s) == Value(StripEnd(s)) * TenTo(|s| - |StripEnd(s)|)
  {
    var t := StripEnd(s);
    StripEndSplit(s);
    assert forall i :: 0 <= i < |t| ==> t[i] == s[i];
    TrailingZeros(t, |s| - |t|);
  }

  lemma {:induction false} TenToAdd(a: nat, b: nat)
    ensures TenTo(a + b) == TenTo(a) * TenTo(b)
  {
    if a > 0 {
      TenToAdd(a - 1, b);
      TimesTen(TenTo(b), TenTo(a - 1));
    }
  }

  lemma {:induction false} TensDiffer(m: nat, n: nat, d: nat)
    requires d > 0 && m % 10 != 0
    ensures m != n * TenTo(d)
  {
    TimesTen(n, TenTo(d - 1));
  }

  /** m * 10^a determines both factors when m does not end in a zero. */
  lemma {:induction false} UniqueTens(m: nat, a: nat, n: nat, b: nat)
    requires m % 10 != 0 && n % 10 != 0 && m * TenTo(a) == n * TenTo(b)
    ensures m == n && a == b
  {
    if a > 0 && b > 0 {
      TimesTen(m, TenTo(a - 1));
      TimesTen(n, TenTo(b - 1));
      UniqueTens(m, a - 1, n, b - 1);
    } else if a > 0 {
      TensDiffer(n, m, a);
    } else if b > 0 {
      TensDiffer(m, n, b);
    }
  }

  lemma {:induction false} SameDigits(d: string, e: string)
    requires Shortest(d) && Shortest(e) && Value(d) == Value(e)
    ensures d == e
  {
    ShortestIsNatText(d);
    ShortestIsNatText(e);
  }

  lemma {:induction false} LastDigit(s: string)
    requires s != [] && AllDigits(s)
    ensures Value(s) % 10 == DigitValue(s[|s| - 1])
  {}

  predicate NormalDigits(d: string) {
    d != [] && AllDigits(d) && d[0] != '0' && d[|d| - 1] != '0'
  }

  /** Two normal digit strings scaled to the same number are the same string, equally scaled. */
  lemma {:induction false} NormalUnique(d: string, a: nat, e: string, b: nat)
    requires NormalDigits(d) && NormalDigits(e) && Value(d) * TenTo(a) == Value(e) * TenTo(b)
    ensures d == e && a == b
  {
    LastDigit(d);
    LastDigit(e);
    UniqueTens(Value(d), a, Value(e), b);
    SameDigits(d, e);
  }

  /** m * 10^e and n * 10^f are the same number, compared at the lower exponent. */
  predicate SameNumber(m: nat, e: int, n: nat, f: int) {
    if e <= f then m == n * TenTo(f - e) else n == m * TenTo(e - f)
  }

  /** A whole number is m * 10^e, with m not ending in a zero, only for a non-negative e. */
  lemma {:induction false} ScaledInteger(u: nat, m: nat, e: int)
    requires m % 10 != 0
    ensures SameNumber(u, 0, m, e) <==> e >= 0 && u == m * TenTo(e)
  {
    if e < 0 {
      TimesTen(u, TenTo(-e - 1));
    }
  }

  lemma {:induction false} Assoc3(x: nat, y: nat, z: nat)
    ensures (x * y) * z == x * (y * z)
  {}

  /** Scaled normal digits denote the same number exactly when the digits and the scale agree. */
  lemma {:induction false} ScaledSame(d: string, a: nat, m: nat, c: string, b: nat, n: nat, gap: nat)
    requires NormalDigits(d) && NormalDigits(c)
    requires m == Value(d) * TenTo(a) && n == Value(c) * TenTo(b)
    ensures m == n * TenTo(gap) <==> d == c && a == b + gap
  {
    TenToAdd(b, gap);
    Assoc3(Value(c), TenTo(b), TenTo(gap));
    if m == n * TenTo(gap) {
      NormalUnique(d, a, c, b + gap);
    }
  }
}
