/** The order of a `BTreeMap<String, _>`: by UTF-8 bytes, which is the order by code points. And the order section 3.2.3
    of RFC 8785 asks for: by UTF-16 units, which is another. */
module KeyOrder {
  import opened Text

  predicate Precedes(a: string, b: string) {
    b != [] && (a == [] || a[0] < b[0] || (a[0] == b[0] && Precedes(a[1..], b[1..])))
  }

  lemma {:induction false} Irreflexive(a: string)
    ensures !Precedes(a, a)
  {
    if a != [] {
      Irreflexive(a[1..]);
    }
  }

  lemma {:induction false} Transitive(a: string, b: string, c: string)
    requires Precedes(a, b) && Precedes(b, c)
    ensures Precedes(a, c)
  {
    if a != [] && a[0] == b[0] == c[0] {
      Transitive(a[1..], b[1..], c[1..]);
    }
  }

  lemma {:induction false} Total(a: string, b: string)
    ensures a == b || Precedes(a, b) || Precedes(b, a)
  {
    if a != [] && b != [] && a[0] == b[0] {
      Total(a[1..], b[1..]);
      assert a == [a[0]] + a[1..] && b == [b[0]] + b[1..];
    }
  }

  predicate Ascending(keys: seq<string>) {
    |keys| <= 1 || (Precedes(keys[0], keys[1]) && Ascending(keys[1..]))
  }

  /** Each key precedes all the later ones, so none comes twice. */
  lemma {:induction false} AscendingPair(keys: seq<string>, i: nat, j: nat)
    requires Ascending(keys) && i < j < |keys|
    ensures Precedes(keys[i], keys[j]) && keys[i] != keys[j]
  {
    if i > 0 {
      AscendingPair(keys[1..], i - 1, j - 1);
    } else if j > 1 {
      AscendingPair(keys[1..], 0, j - 1);
      Transitive(keys[0], keys[1], keys[j]);
    }
    Irreflexive(keys[i]);
  }

  /** A new key at its place. */
  function Inserted(keys: seq<string>, key: string): seq<string> {
    if keys == [] || Precedes(key, keys[0]) then [key] + keys else [keys[0]] + Inserted(keys[1..], key)
  }

  lemma {:induction false} InsertedHas(keys: seq<string>, key: string, k: string)
    ensures k in Inserted(keys, key) <==> k == key || k in keys
  {
    if keys != [] && !Precedes(key, keys[0]) {
      InsertedHas(keys[1..], key, k);
      assert keys == [keys[0]] + keys[1..];
    }
  }

  lemma {:induction false} InsertedAscends(keys: seq<string>, key: string)
    requires Ascending(keys) && key !in keys
    ensures Ascending(Inserted(keys, key))
  {
    if keys != [] {
      if Precedes(key, keys[0]) {
        assert ([key] + keys)[1..] == keys;
      } else {
        Total(key, keys[0]);
        InsertedAscends(keys[1..], key);
        var rest := Inserted(keys[1..], key);
        assert rest[0] == key || (|keys| > 1 && rest[0] == keys[1]);
        assert ([keys[0]] + rest)[1..] == rest;
      }
    }
  }

  method Insert(keys: seq<string>, key: string) returns (r: seq<string>)
    requires Ascending(keys) && key !in keys
    ensures Ascending(r) && forall k :: k in r <==> k == key || k in keys
  {
    r := Inserted(keys, key);
    InsertedAscends(keys, key);
    forall k
      ensures k in r <==> k == key || k in keys
    {
      InsertedHas(keys, key, k);
    }
  }

  // ---- by the units of an encoding ---------------------------------------------------------------

  /** The order of two unit sequences: at their first difference, or the shorter first. */
  predicate Lex(a: seq<int>, b: seq<int>) {
    b != [] && (a == [] || a[0] < b[0] || (a[0] == b[0] && Lex(a[1..], b[1..])))
  }

  lemma {:induction false} LexTransitive(a: seq<int>, b: seq<int>, c: seq<int>)
    requires Lex(a, b) && Lex(b, c)
    ensures Lex(a, c)
  {
    if a != [] && a[0] == b[0] == c[0] {
      LexTransitive(a[1..], b[1..], c[1..]);
    }
  }

  lemma {:induction false} LexSame(x: seq<int>, u: seq<int>, v: seq<int>)
    ensures Lex(x + u, x + v) <==> Lex(u, v)
  {
    if x == [] {
      assert x + u == u && x + v == v;
    } else {
      assert (x + u)[1..] == x[1..] + u && (x + v)[1..] == x[1..] + v;
      LexSame(x[1..], u, v);
    }
  }

  /** They differ at a place both have. */
  predicate Differ(x: seq<int>, y: seq<int>) {
    x != [] && y != [] && (x[0] != y[0] || Differ(x[1..], y[1..]))
  }

  lemma {:induction false} LexDiffer(x: seq<int>, y: seq<int>, u: seq<int>, v: seq<int>)
    requires Differ(x, y)
    ensures Lex(x + u, y + v) <==> Lex(x, y)
  {
    assert (x + u)[1..] == x[1..] + u && (y + v)[1..] == y[1..] + v;
    if x[0] == y[0] {
      LexDiffer(x[1..], y[1..], u, v);
    }
  }

  /** A string character by character. */
  function Encoded(units: char -> seq<int>, s: string): seq<int> {
    if s == [] then [] else units(s[0]) + Encoded(units, s[1..])
  }

  /** Encoded strings are ordered by the first character in which they differ, if neither one's units are a prefix of
      the other's. */
  lemma {:induction false} EncodedOrder(units: char -> seq<int>, a: string, b: string)
    requires a == [] && b != [] ==> units(b[0]) != []
    requires a != [] && b != [] && a[0] != b[0] ==> Differ(units(a[0]), units(b[0]))
    ensures Lex(Encoded(units, a), Encoded(units, b)) <==>
            b != [] && (a == [] || if a[0] == b[0] then Lex(Encoded(units, a[1..]), Encoded(units, b[1..]))
                                   else Lex(units(a[0]), units(b[0])))
  {
    if a != [] && b != [] {
      if a[0] == b[0] {
        LexSame(units(a[0]), Encoded(units, a[1..]), Encoded(units, b[1..]));
      } else {
        LexDiffer(units(a[0]), units(b[0]), Encoded(units, a[1..]), Encoded(units, b[1..]));
      }
    }
  }

  // ---- UTF-8 -------------------------------------------------------------------------------------

  function Values(b: seq<byte>): seq<int> {
    seq(|b|, i requires 0 <= i < |b| => b[i] as int)
  }

  function Octets(c: char): seq<int> {
    Values(Utf8Char(c))
  }

  lemma {:induction false} Utf8IsEncoded(s: string)
    ensures Values(Utf8(s)) == Encoded(Octets, s)
  {
    if s != [] {
      Utf8IsEncoded(s[1..]);
      assert Values(Utf8(s)) == Octets(s[0]) + Values(Utf8(s[1..]));
    }
  }

  /** A lead byte and `n` continuation bytes that spell `u` in base 64. */
  function Spelled(lead: int, u: nat, n: nat): (r: seq<int>)
    ensures |r| == n + 1
  {
    if n == 0 then [lead + u] else Spelled(lead, u / 64, n - 1) + [0x80 + u % 64]
  }

  lemma {:induction false} SpelledOrder(lead: int, u: nat, v: nat, n: nat)
    requires u < v
    ensures Differ(Spelled(lead, u, n), Spelled(lead, v, n)) && Lex(Spelled(lead, u, n), Spelled(lead, v, n))
  {
    if n > 0 {
      var x, y := Spelled(lead, u / 64, n - 1), Spelled(lead, v / 64, n - 1);
      if u / 64 < v / 64 {
        SpelledOrder(lead, u / 64, v / 64, n - 1);
        LexDiffer(x, y, [0x80 + u % 64], [0x80 + v % 64]);
        DifferGrows(x, y, [0x80 + u % 64], [0x80 + v % 64]);
      } else {
        assert u / 64 == v / 64 && u % 64 < v % 64;
        LexSame(x, [0x80 + u % 64], [0x80 + v % 64]);
        DifferAfter(x, [0x80 + u % 64], [0x80 + v % 64]);
      }
    }
  }

  lemma {:induction false} DifferGrows(x: seq<int>, y: seq<int>, u: seq<int>, v: seq<int>)
    requires Differ(x, y)
    ensures Differ(x + u, y + v)
  {
    assert (x + u)[1..] == x[1..] + u && (y + v)[1..] == y[1..] + v;
    if x[0] == y[0] {
      DifferGrows(x[1..], y[1..], u, v);
    }
  }

  lemma {:induction false} DifferAfter(x: seq<int>, u: seq<int>, v: seq<int>)
    requires Differ(u, v)
    ensures Differ(x + u, x + v)
  {
    if x == [] {
      assert x + u == u && x + v == v;
    } else {
      assert (x + u)[1..] == x[1..] + u && (x + v)[1..] == x[1..] + v;
      DifferAfter(x[1..], u, v);
    }
  }

  lemma {:induction false} DifferBack(x: seq<int>, y: seq<int>)
    requires Differ(x, y)
    ensures Differ(y, x) && (Lex(y, x) <==> !Lex(x, y))
  {
    if x[0] == y[0] {
      DifferBack(x[1..], y[1..]);
    }
  }

  /** How many continuation bytes a character takes. */
  function Length(c: char): (n: nat)
    ensures n <= 3
  {
    var u := c as int;
    if u < 0x80 then 0 else if u < 0x800 then 1 else if u < 0x1_0000 then 2 else 3
  }

  function Mark(n: nat): int {
    if n == 0 then 0 else if n == 1 then 0xC0 else if n == 2 then 0xE0 else 0xF0
  }

  lemma {:induction false} OctetsSpelled(c: char)
    ensures Octets(c) == Spelled(Mark(Length(c)), c as int, Length(c))
  {
    var u := c as int;
    assert u / 64 / 64 == u / 4096 && u / 4096 / 64 == u / 262144;
    SpelledOut(Mark(Length(c)), u);
  }

  lemma {:induction false} SpelledOut(lead: int, u: nat)
    ensures Spelled(lead, u, 0) == [lead + u]
    ensures Spelled(lead, u, 1) == [lead + u / 64, 0x80 + u % 64]
    ensures Spelled(lead, u, 2) == [lead + u / 64 / 64, 0x80 + u / 64 % 64, 0x80 + u % 64]
    ensures Spelled(lead, u, 3)
         == [lead + u / 64 / 64 / 64, 0x80 + u / 64 / 64 % 64, 0x80 + u / 64 % 64, 0x80 + u % 64]
  {
    assert Spelled(lead, u / 64 / 64, 1) == Spelled(lead, u / 64 / 64 / 64, 0) + [0x80 + u / 64 / 64 % 64];
    assert Spelled(lead, u / 64, 2) == Spelled(lead, u / 64 / 64, 1) + [0x80 + u / 64 % 64];
    assert Spelled(lead, u / 64, 1) == Spelled(lead, u / 64 / 64, 0) + [0x80 + u / 64 % 64];
  }

  /** The lead bytes of longer characters are greater. */
  lemma {:induction false} LeadsOrdered(c: char, d: char)
    requires Length(c) < Length(d)
    ensures Octets(c)[0] < Octets(d)[0]
  {
  }

  lemma {:induction false} OctetsOrder(c: char, d: char)
    requires c < d
    ensures Differ(Octets(c), Octets(d)) && Lex(Octets(c), Octets(d))
  {
    if Length(c) == Length(d) {
      OctetsSpelled(c);
      OctetsSpelled(d);
      SpelledOrder(Mark(Length(c)), c as int, d as int, Length(c));
    } else {
      LeadsOrdered(c, d);
    }
  }

  /** Code points and UTF-8 bytes order keys alike. */
  lemma {:induction false} Utf8Order(a: string, b: string)
    ensures Precedes(a, b) <==> Lex(Values(Utf8(a)), Values(Utf8(b)))
  {
    Utf8IsEncoded(a);
    Utf8IsEncoded(b);
    EncodedOctets(a, b);
  }

  lemma {:induction false} EncodedOctets(a: string, b: string)
    ensures Precedes(a, b) <==> Lex(Encoded(Octets, a), Encoded(Octets, b))
  {
    if a != [] && b != [] {
      if a[0] == b[0] {
        EncodedOctets(a[1..], b[1..]);
      } else if a[0] < b[0] {
        OctetsOrder(a[0], b[0]);
      } else {
        OctetsOrder(b[0], a[0]);
        DifferBack(Octets(b[0]), Octets(a[0]));
      }
    }
    EncodedOrder(Octets, a, b);
  }

  // ---- UTF-16 ------------------------------------------------------------------------------------

  /** The UTF-16 units of a character: itself, or a surrogate pair. */
  function Units(c: char): seq<int> {
    var u := c as int;
    if u < 0x1_0000 then [u] else [0xD800 + (u - 0x1_0000) / 0x400, 0xDC00 + (u - 0x1_0000) % 0x400]
  }

  /** One is beyond the basic plane and the other in it, but above the surrogates. */
  predicate Crosses(c: char, d: char) {
    || (c as int >= 0x1_0000 && 0xE000 <= d as int <= 0xFFFF)
    || (d as int >= 0x1_0000 && 0xE000 <= c as int <= 0xFFFF)
  }

  lemma {:induction false} UnitsOrder(c: char, d: char)
    requires c != d
    ensures Differ(Units(c), Units(d))
    ensures Lex(Units(c), Units(d)) <==> (c < d) != Crosses(c, d)
  {
  }

  /** The order of section 3.2.3 of RFC 8785. */
  predicate Precedes16(a: string, b: string) {
    Lex(Encoded(Units, a), Encoded(Units, b))
  }

  /** At the first difference of the keys, the characters cross. */
  predicate Diverge(a: string, b: string) {
    a != [] && b != [] && if a[0] == b[0] then Diverge(a[1..], b[1..]) else Crosses(a[0], b[0])
  }

  /** The two orders agree on a pair of keys if and only if the keys do not diverge. */
  lemma {:induction false} OrdersAgree(a: string, b: string)
    ensures (Precedes16(a, b) <==> Precedes(a, b)) <==> !Diverge(a, b)
  {
    if a != [] && b != [] {
      if a[0] == b[0] {
        OrdersAgree(a[1..], b[1..]);
      } else {
        UnitsOrder(a[0], b[0]);
      }
    }
    EncodedOrder(Units, a, b);
  }

  predicate Ascending16(keys: seq<string>) {
    |keys| <= 1 || (Precedes16(keys[0], keys[1]) && Ascending16(keys[1..]))
  }

  predicate NoneDiverge(keys: seq<string>) {
    forall i, j :: 0 <= i < j < |keys| ==> !Diverge(keys[i], keys[j])
  }

  lemma {:induction false} Ascending16Pair(keys: seq<string>, i: nat, j: nat)
    requires Ascending16(keys) && i < j < |keys|
    ensures Precedes16(keys[i], keys[j])
  {
    if i > 0 {
      Ascending16Pair(keys[1..], i - 1, j - 1);
    } else if j > 1 {
      Ascending16Pair(keys[1..], 0, j - 1);
      LexTransitive(Encoded(Units, keys[0]), Encoded(Units, keys[1]), Encoded(Units, keys[j]));
    }
  }

  /** A map's keys come in the order of RFC 8785 if and only if no two of them diverge. */
  lemma {:induction false} KeysInOrder(keys: seq<string>)
    requires Ascending(keys)
    ensures Ascending16(keys) <==> NoneDiverge(keys)
  {
    if Ascending16(keys) {
      forall i, j | 0 <= i < j < |keys|
        ensures !Diverge(keys[i], keys[j])
      {
        AscendingPair(keys, i, j);
        Ascending16Pair(keys, i, j);
        OrdersAgree(keys[i], keys[j]);
      }
    }
    if NoneDiverge(keys) {
      Ascends16(keys);
    }
  }

  lemma {:induction false} Ascends16(keys: seq<string>)
    requires Ascending(keys) && NoneDiverge(keys)
    ensures Ascending16(keys)
  {
    if |keys| > 1 {
      OrdersAgree(keys[0], keys[1]);
      Ascends16(keys[1..]);
    }
  }
}
