/** Lexical containment of a path in a mount, `path_within` of the policy catalog. */
module PathWithin {
  import opened Text

  /** `str::split` on one character: at least one piece, none holding the separator. */
  function Split(s: string, sep: char): (r: seq<string>)
    ensures r != [] && forall i :: 0 <= i < |r| ==> sep !in r[i]
  {
    var b := Before(s, sep);
    if |b| == |s| then [b] else [b] + Split(s[|b| + 1..], sep)
  }

  /** One path part met: empty and `.` do nothing, `..` drops the last kept part, if any. */
  function Push(stack: seq<string>, part: string): (r: seq<string>) {
    if part == "" || part == "." then stack
    else if part == ".." then (if stack == [] then [] else stack[..|stack| - 1])
    else stack + [part]
  }

  function Resolve(stack: seq<string>, parts: seq<string>): (r: seq<string>)
    decreases parts
  {
    if parts == [] then stack else Resolve(Push(stack, parts[0]), parts[1..])
  }

  /** The cleaned component list of a path. */
  function Components(p: string): (r: seq<string>) {
    Resolve([], Split(p, '/'))
  }

  function Join(parts: seq<string>): string {
    if parts == [] then "" else if |parts| == 1 then parts[0] else parts[0] + "/" + Join(parts[1..])
  }

  function CleanText(p: string): (r: string) {
    "/" + Join(Components(p))
  }

  predicate PathWithin(candidate: string, mount: string) {
    var m := Trim(mount);
    if m == "" || m[0] != '/' then false
    else
      var c, t := CleanText(candidate), CleanText(m);
      c == t || t == "/" || t + "/" <= c
  }

  // ---- kept components -------------------------------------------------------------------

  /** A part that stays on the stack. */
  predicate Kept(part: string) {
    part != "" && part != "." && part != ".." && '/' !in part
  }

  predicate AllKept(parts: seq<string>) {
    forall i :: 0 <= i < |parts| ==> Kept(parts[i])
  }

  lemma {:induction false} ResolveKept(stack: seq<string>, parts: seq<string>)
    requires AllKept(stack) && forall i :: 0 <= i < |parts| ==> '/' !in parts[i]
    ensures AllKept(Resolve(stack, parts))
    decreases parts
  {
    if parts != [] {
      ResolveKept(Push(stack, parts[0]), parts[1..]);
    }
  }

  lemma {:induction false} ResolveOfKept(stack: seq<string>, parts: seq<string>)
    requires AllKept(parts)
    ensures Resolve(stack, parts) == stack + parts
    decreases parts
  {
    if parts != [] {
      ResolveOfKept(stack + [parts[0]], parts[1..]);
      assert stack + [parts[0]] + parts[1..] == stack + parts;
    }
  }

  // ---- text and components ---------------------------------------------------------------

  /** Each component with a slash before it. */
  function Slashed(parts: seq<string>): (r: string)
    ensures parts != [] ==> |r| >= 1 && r[0] == '/'
  {
    if parts == [] then "" else "/" + parts[0] + Slashed(parts[1..])
  }

  lemma {:induction false} SlashedIsJoined(parts: seq<string>)
    requires parts != []
    ensures Slashed(parts) == "/" + Join(parts)
    decreases parts
  {
    if |parts| == 1 {
      assert Slashed(parts[1..]) == "";
      assert "/" + parts[0] + "" == "/" + parts[0];
    } else {
      SlashedIsJoined(parts[1..]);
      Regroup(parts[0], Join(parts[1..]));
    }
  }

  lemma {:induction false} Regroup(a: string, b: string)
    ensures "/" + a + ("/" + b) == "/" + (a + "/" + b)
  {}

  /** The first component of a slash-ended text is decided by the text. */
  lemma {:induction false} FirstComponent(a: string, x: string, b: string, y: string)
    requires '/' !in a && '/' !in b && a + "/" + x <= b + "/" + y
    ensures a == b && x <= y
  {
    var s := b + "/" + y;
    var t := a + "/" + x;
    var z := s[|t|..];
    assert s == a + "/" + (x + z) by { assert s == t + z; }
    BeforeStops(a, '/', x + z);
    BeforeStops(b, '/', y);
    assert s[|a| + 1..] == x + z && s[|b| + 1..] == y;
  }

  lemma {:induction false} SlashedTail(parts: seq<string>)
    requires parts != []
    ensures Slashed(parts) + "/" == "/" + (parts[0] + (Slashed(parts[1..]) + "/"))
    ensures (Slashed(parts[1..]) + "/")[0] == '/'
  {}

  /** Prefix of slash-ended texts is prefix of component lists. */
  lemma {:induction false} SlashedPrefix(a: seq<string>, b: seq<string>)
    requires AllKept(a) && AllKept(b)
    ensures Slashed(a) + "/" <= Slashed(b) + "/" <==> a <= b
    decreases a
  {
    if a == [] {
      assert Slashed(a) + "/" == "/";
    } else if b != [] {
      var x, y := Slashed(a[1..]) + "/", Slashed(b[1..]) + "/";
      SlashedTail(a);
      SlashedTail(b);
      SlashedPrefix(a[1..], b[1..]);
      HeadPrefix(a[0], x, b[0], y);
      assert a == [a[0]] + a[1..] && b == [b[0]] + b[1..];
    }
  }

  lemma {:induction false} HeadPrefix(a: string, x: string, b: string, y: string)
    requires '/' !in a && '/' !in b && x != "" && x[0] == '/' && y != "" && y[0] == '/'
    ensures "/" + (a + x) <= "/" + (b + y) <==> a == b && x <= y
  {
    assert ("/" + (a + x))[1..] == a + x && ("/" + (b + y))[1..] == b + y;
    if a + x <= b + y {
      assert a + x == a + "/" + x[1..] && b + y == b + "/" + y[1..];
      FirstComponent(a, x[1..], b, y[1..]);
      assert x == "/" + x[1..] && y == "/" + y[1..];
    }
  }

  /** Text equality or `mount/` as a string prefix, said with both texts slash-ended. */
  lemma {:induction false} SlashEnded(t: string, c: string)
    ensures c == t || t + "/" <= c <==> t + "/" <= c + "/"
  {
    if t + "/" <= c + "/" && |t| < |c| {
      assert (c + "/")[..|c|] == c;
    }
    if t + "/" <= c {
      assert c <= c + "/";
    }
    if t + "/" <= c + "/" && |t| >= |c| {
      assert t == (t + "/")[..|t|];
      assert c == (c + "/")[..|c|];
    }
  }

  lemma {:induction false} ComponentsKept(p: string)
    ensures AllKept(Components(p))
  {
    ResolveKept([], Split(p, '/'));
  }

  /** The string test is the component-prefix relation, for every candidate and mount. */
  lemma {:induction false} WithinIsComponentPrefix(candidate: string, mount: string)
    ensures PathWithin(candidate, mount)
      <==> Trim(mount) != "" && Trim(mount)[0] == '/' && Components(Trim(mount)) <= Components(candidate)
  {
    var m := Trim(mount);
    if m != "" && m[0] == '/' {
      var a, b := Components(m), Components(candidate);
      ComponentsKept(m);
      ComponentsKept(candidate);
      TextsPrefix(a, b);
    }
  }

  lemma {:induction false} TextsPrefix(a: seq<string>, b: seq<string>)
    requires AllKept(a) && AllKept(b)
    ensures var c, t := "/" + Join(b), "/" + Join(a);
            (c == t || t == "/" || t + "/" <= c) <==> a <= b
  {
    var c, t := "/" + Join(b), "/" + Join(a);
    if a != [] {
      SlashedIsJoined(a);
      assert |t| >= 2;
      if b == [] {
        assert c == "/";
      } else {
        SlashedIsJoined(b);
        SlashEnded(t, c);
        SlashedPrefix(a, b);
      }
    }
  }

  // ---- cleaning --------------------------------------------------------------------------

  lemma {:induction false} SplitSlash(a: string, rest: string)
    requires '/' !in a
    ensures Split(a + "/" + rest, '/') == [a] + Split(rest, '/')
  {
    BeforeStops(a, '/', rest);
    assert (a + "/" + rest)[|a| + 1..] == rest;
  }

  lemma {:induction false} SplitJoin(parts: seq<string>)
    requires parts != [] && AllKept(parts)
    ensures Split(Join(parts), '/') == parts
    decreases parts
  {
    if |parts| == 1 {
      var b := Before(parts[0], '/');
      assert |b| == |parts[0]| && b == parts[0][..|b|] == parts[0];
      assert parts == [parts[0]];
    } else {
      SplitSlash(parts[0], Join(parts[1..]));
      SplitJoin(parts[1..]);
    }
  }

  /** Cleaning a cleaned path changes nothing. */
  lemma {:induction false} CleanIdempotent(p: string)
    ensures Components(CleanText(p)) == Components(p)
    ensures CleanText(CleanText(p)) == CleanText(p)
  {
    var parts := Components(p);
    var t := CleanText(p);
    ComponentsKept(p);
    assert t == "" + "/" + Join(parts);
    SplitSlash("", Join(parts));
    if parts == [] {
      assert Split("", '/') == [""];
      assert Split(t, '/') == ["", ""];
      assert ["", ""][1..] == [""] && [""][1..] == [];
      assert Resolve([], [""]) == [];
    } else {
      SplitJoin(parts);
      var all := Split(t, '/');
      assert all[0] == "" && all[1..] == parts;
      ResolveOfKept([], parts);
      assert [] + parts == parts;
    }
  }

  lemma {:induction false} SlashRegroups(a: string, b: string, c: string)
    ensures (a + "/" + b) + "/" + c == a + "/" + (b + "/" + c)
  {}

  lemma {:induction false} CutAtSlash(p: string)
    requires |Before(p, '/')| < |p|
    ensures p == Before(p, '/') + "/" + p[|Before(p, '/')| + 1..]
  {}

  lemma {:induction false} SplitAppend(p: string, q: string)
    ensures Split(p + "/" + q, '/') == Split(p, '/') + Split(q, '/')
    decreases |p|
  {
    var b := Before(p, '/');
    if |b| == |p| {
      assert b == p[..|p|] == p;
      SplitSlash(p, q);
    } else {
      var rest := p[|b| + 1..];
      CutAtSlash(p);
      SlashRegroups(b, rest, q);
      SplitSlash(b, rest + "/" + q);
      SplitAppend(rest, q);
      ConsAppend(b, Split(rest, '/'), Split(q, '/'));
    }
  }

  lemma {:induction false} ConsAppend(b: string, x: seq<string>, y: seq<string>)
    ensures [b] + (x + y) == [b] + x + y
  {}

  lemma {:induction false} ResolveAppend(stack: seq<string>, a: seq<string>, b: seq<string>)
    ensures Resolve(stack, a + b) == Resolve(Resolve(stack, a), b)
    decreases a
  {
    if a == [] {
      assert a + b == b;
    } else {
      assert (a + b)[1..] == a[1..] + b;
      ResolveAppend(Push(stack, a[0]), a[1..], b);
    }
  }

  /** Wherever it stands, `..` takes back the last component the path has so far, if it has one. */
  lemma {:induction false} DotDotTakesBack(p: string, q: string)
    ensures var kept := Components(p);
            Components(p + "/../" + q) == Resolve(if kept == [] then [] else kept[..|kept| - 1], Split(q, '/'))
  {
    var tail := ".." + "/" + q;
    assert p + "/../" + q == p + "/" + tail;
    SplitAppend(p, tail);
    SplitSlash("..", q);
    var parts := [".."] + Split(q, '/');
    assert parts[1..] == Split(q, '/');
    ResolveAppend([], Split(p, '/'), parts);
  }

  /** So a path cannot climb above the root: a `..` where nothing is left to take back changes nothing, at the start
      of a path or after any part of it. */
  lemma {:induction false} NeverAboveRoot(p: string, q: string)
    ensures Components("../" + q) == Components(q)
    ensures Components(p) == [] ==> Components(p + "/../" + q) == Components(q) == Components(p + "/" + q)
  {
    SplitSlash("..", q);
    assert "../" + q == ".." + "/" + q;
    assert ([".."] + Split(q, '/'))[1..] == Split(q, '/');
    DotDotTakesBack(p, q);
    SplitAppend(p, q);
    ResolveAppend([], Split(p, '/'), Split(q, '/'));
  }

  /** `clean`, with its component stack. */
  method Clean(p: string) returns (r: string)
    ensures r == CleanText(p)
  {
    var parts: seq<string> := [];
    var pieces := Split(p, '/');
    assert pieces[0..] == pieces;
    for i := 0 to |pieces|
      invariant Resolve(parts, pieces[i..]) == Components(p)
    {
      assert pieces[i..][0] == pieces[i] && pieces[i..][1..] == pieces[i + 1..];
      var part := pieces[i];
      if part == "" || part == "." {
      } else if part == ".." {
        if parts != [] { parts := parts[..|parts| - 1]; }
      } else {
        parts := parts + [part];
      }
    }
    r := "/" + Join(parts);
  }
}
