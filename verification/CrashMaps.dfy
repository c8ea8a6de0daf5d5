/** Scanning /proc/self/maps in whatever pieces it is read, with one bounded line buffer. */
module CrashMaps {
  import opened Text
  import opened CrashText

  const NEWLINE: byte := 10
  const DASH: byte := 45
  const SPACE: byte := 32
  const SLASH: byte := 47
  const LOWER_R: byte := 114
  const LOWER_X: byte := 120

  // ---- parse_map -----------------------------------------------------------------------------

  /** A mapping: its range, whether it is readable code, and whether it is printed. */
  datatype Mapping = Mapping(start: nat, end: nat, code: bool, printed: bool)

  /** How many hex digits a text starts with. */
  function HexCount(bytes: seq<byte>): (n: nat)
    ensures n <= |bytes|
  {
    if bytes == [] || DigitValue(bytes[0]).None? then 0 else 1 + HexCount(bytes[1..])
  }

  /** A hex number that fits 64 bits, and what follows it. */
  function HexField(bytes: seq<byte>): Option<(nat, seq<byte>)> {
    var n := HexCount(bytes);
    var value := Denotes(bytes[..n], 16);
    if value.None? || value.value >= U64 then None else Some((value.value, bytes[n..]))
  }

  function StripByte(bytes: seq<byte>, b: byte): Option<seq<byte>> {
    if bytes != [] && bytes[0] == b then Some(bytes[1..]) else None
  }

  /** A separator byte, then a hex number. */
  function AfterByte(bytes: seq<byte>, b: byte): Option<(nat, seq<byte>)> {
    var rest := StripByte(bytes, b);
    if rest.None? then None else HexField(rest.value)
  }

  /** `parse_map` after the two addresses: the permissions, the offset and the rest. */
  function ParseFields(start: nat, end: nat, bytes: seq<byte>): Option<Mapping> {
    var rest := StripByte(bytes, SPACE);
    if rest.None? || |rest.value| < 4 then None else
    var perms := rest.value[..4];
    var offset := AfterByte(rest.value[4..], SPACE);
    if offset.None? then None else
    Some(Classify(start, end, perms, offset.value.0, offset.value.1))
  }

  /** `parse_map`. */
  function ParseMap(line: seq<byte>): Option<Mapping> {
    var start := HexField(line);
    if start.None? then None else
    var end := AfterByte(start.value.1, DASH);
    if end.None? then None else
    ParseFields(start.value.0, end.value.0, end.value.1)
  }

  function Classify(start: nat, end: nat, perms: seq<byte>, offset: nat, rest: seq<byte>): Mapping
    requires |perms| == 4
  {
    var executable := perms[2] == LOWER_X;
    Mapping(start, end, executable && perms[0] == LOWER_R, executable || (offset == 0 && SLASH in rest))
  }

  /** Hex text of a 64-bit value, with any number of leading zeros. */
  predicate HexOf(t: seq<byte>, value: nat) {
    value < U64 && Denotes(t, 16) == Some(value)
  }

  predicate StopsHex(rest: seq<byte>) {
    rest == [] || DigitValue(rest[0]).None?
  }

  lemma {:induction false} AllHex(t: seq<byte>, i: nat)
    requires Denotes(t, 16).Some? && i < |t|
    ensures DigitValue(t[i]).Some?
    decreases |t|
  {
    if i < |t| - 1 {
      AllHex(t[..|t| - 1], i);
    }
  }

  lemma {:induction false} HexCountStops(t: seq<byte>, rest: seq<byte>)
    requires forall i :: 0 <= i < |t| ==> DigitValue(t[i]).Some?
    requires StopsHex(rest)
    ensures HexCount(t + rest) == |t|
  {
    if t == [] {
      assert t + rest == rest;
    } else {
      assert (t + rest)[1..] == t[1..] + rest;
      HexCountStops(t[1..], rest);
    }
  }

  lemma {:induction false} HexFieldReads(t: seq<byte>, value: nat, rest: seq<byte>)
    requires HexOf(t, value) && StopsHex(rest)
    ensures HexField(t + rest) == Some((value, rest))
  {
    forall i | 0 <= i < |t|
      ensures DigitValue(t[i]).Some?
    {
      AllHex(t, i);
    }
    HexCountStops(t, rest);
    assert (t + rest)[..|t|] == t && (t + rest)[|t|..] == rest;
  }

  lemma {:induction false} AfterByteReads(b: byte, t: seq<byte>, value: nat, rest: seq<byte>)
    requires HexOf(t, value) && StopsHex(rest)
    ensures AfterByte([b] + (t + rest), b) == Some((value, rest))
  {
    assert ([b] + (t + rest))[1..] == t + rest;
    HexFieldReads(t, value, rest);
  }

  /** A line as the kernel writes it. */
  function MapLine(start: seq<byte>, end: seq<byte>, perms: seq<byte>, offset: seq<byte>, rest: seq<byte>): seq<byte> {
    start + ([DASH] + (end + ([SPACE] + (perms + ([SPACE] + (offset + rest))))))
  }

  lemma {:induction false} FieldsRead(s: nat, e: nat, perms: seq<byte>, offset: seq<byte>, rest: seq<byte>, o: nat)
    requires HexOf(offset, o) && |perms| == 4 && StopsHex(rest)
    ensures ParseFields(s, e, [SPACE] + (perms + ([SPACE] + (offset + rest)))) == Some(Classify(s, e, perms, o, rest))
  {
    var tail := [SPACE] + (offset + rest);
    assert ([SPACE] + (perms + tail))[1..] == perms + tail;
    assert (perms + tail)[..4] == perms && (perms + tail)[4..] == tail;
    AfterByteReads(SPACE, offset, o, rest);
  }

  /** `parse_map` reads every such line back. */
  lemma {:induction false} MapLineReads(
      start: seq<byte>, end: seq<byte>, perms: seq<byte>, offset: seq<byte>, rest: seq<byte>, s: nat, e: nat, o: nat)
    requires HexOf(start, s) && HexOf(end, e) && HexOf(offset, o) && |perms| == 4 && StopsHex(rest)
    ensures ParseMap(MapLine(start, end, perms, offset, rest)) == Some(Classify(s, e, perms, o, rest))
  {
    var tail := [SPACE] + (perms + ([SPACE] + (offset + rest)));
    HexFieldReads(start, s, [DASH] + (end + tail));
    AfterByteReads(DASH, end, e, tail);
    FieldsRead(s, e, perms, offset, rest, o);
  }

  // ---- lines of a file -----------------------------------------------------------------------

  /** The newline-ended lines of a text, and what follows the last newline. */
  function RawLines(file: seq<byte>): (r: (seq<seq<byte>>, seq<byte>))
    decreases |file|
  {
    if file == [] then ([], [])
    else
      var (lines, rest) := RawLines(file[..|file| - 1]);
      if file[|file| - 1] == NEWLINE then (lines + [rest], []) else (lines, rest + [file[|file| - 1]])
  }

  function Join(lines: seq<seq<byte>>): seq<byte> {
    if lines == [] then [] else Join(lines[..|lines| - 1]) + (lines[|lines| - 1] + [NEWLINE])
  }

  /** The lines hold no newline, and with one after each they make up the text. */
  lemma {:induction false} RawLinesJoin(file: seq<byte>)
    ensures var (lines, rest) := RawLines(file);
            Join(lines) + rest == file && NEWLINE !in rest
            && forall i :: 0 <= i < |lines| ==> NEWLINE !in lines[i]
    decreases |file|
  {
    if file != [] {
      var front, b := file[..|file| - 1], file[|file| - 1];
      RawLinesJoin(front);
      var (lines, rest) := RawLines(front);
      assert file == front + [b];
      if b == NEWLINE {
        assert (lines + [rest])[..|lines|] == lines;
        assert Join(lines) + (rest + [b]) == Join(lines) + rest + [b];
      } else {
        assert Join(lines) + (rest + [b]) == Join(lines) + rest + [b];
      }
    }
  }

  // ---- the scan ------------------------------------------------------------------------------

  const LINE: nat := 512
  const OUT: nat := 640

  /** A line as `parse_map` gets to see it. */
  function Seen(line: seq<byte>): Option<Mapping> {
    ParseMap(Cut(line, LINE))
  }

  predicate Covers(m: Option<Mapping>, ip: nat) {
    m.Some? && m.value.code && m.value.start <= ip < m.value.end
  }

  /** Whether some line maps the faulting instruction as readable code. */
  predicate Hit(lines: seq<seq<byte>>, ip: nat) {
    exists i :: 0 <= i < |lines| && Covers(Seen(lines[i]), ip)
  }

  /** One printed line. */
  function Printed(prefix: seq<byte>, held: seq<byte>): seq<byte> {
    Cut(prefix + (Ascii("map ") + (held + [NEWLINE])), OUT)
  }

  /** The lines that are printed, in order. */
  function Shown(lines: seq<seq<byte>>, prefix: seq<byte>): seq<seq<byte>> {
    if lines == [] then []
    else
      var line := lines[|lines| - 1];
      Shown(lines[..|lines| - 1], prefix)
      + if Seen(line).Some? && Seen(line).value.printed then [Printed(prefix, Cut(line, LINE))] else []
  }

  /** What the scan knows after the bytes `seen`. */
  ghost predicate ScanOk(
      seen: seq<byte>, ip: nat, prefix: seq<byte>, current: seq<byte>, hit: bool, out: seq<seq<byte>>) {
    var (lines, rest) := RawLines(seen);
    current == Cut(rest, LINE) && hit == Hit(lines, ip) && out == Shown(lines, prefix)
  }

  lemma {:induction false} ScanByte(
      seen: seq<byte>, ip: nat, prefix: seq<byte>, current: seq<byte>, hit: bool, out: seq<seq<byte>>, b: byte)
    requires ScanOk(seen, ip, prefix, current, hit, out) && b != NEWLINE
    ensures ScanOk(seen + [b], ip, prefix, if |current| < LINE then current + [b] else current, hit, out)
  {
    assert (seen + [b])[..|seen|] == seen;
  }

  lemma {:induction false} HitMore(lines: seq<seq<byte>>, line: seq<byte>, ip: nat)
    ensures Hit(lines + [line], ip) <==> Hit(lines, ip) || Covers(Seen(line), ip)
  {
    var all := lines + [line];
    assert all[|lines|] == line;
    assert forall i :: 0 <= i < |lines| ==> all[i] == lines[i];
    if Hit(lines, ip) {
      var i :| 0 <= i < |lines| && Covers(Seen(lines[i]), ip);
      assert Covers(Seen(all[i]), ip);
    }
  }

  lemma {:induction false} ScanNewline(
      seen: seq<byte>, ip: nat, prefix: seq<byte>, current: seq<byte>, hit: bool, out: seq<seq<byte>>)
    requires ScanOk(seen, ip, prefix, current, hit, out)
    ensures var m := ParseMap(current);
            ScanOk(seen + [NEWLINE], ip, prefix, [], hit || Covers(m, ip),
                   out + if m.Some? && m.value.printed then [Printed(prefix, current)] else [])
  {
    var (lines, rest) := RawLines(seen);
    NewlineEndsLine(seen);
    HitMore(lines, rest, ip);
    ShownMore(lines, rest, prefix);
  }

  lemma {:induction false} NewlineEndsLine(seen: seq<byte>)
    ensures RawLines(seen + [NEWLINE]) == (RawLines(seen).0 + [RawLines(seen).1], [])
  {
    assert (seen + [NEWLINE])[..|seen|] == seen;
  }

  lemma {:induction false} ShownMore(lines: seq<seq<byte>>, line: seq<byte>, prefix: seq<byte>)
    ensures Shown(lines + [line], prefix)
         == Shown(lines, prefix)
          + if Seen(line).Some? && Seen(line).value.printed then [Printed(prefix, Cut(line, LINE))] else []
  {
    assert (lines + [line])[..|lines|] == lines;
  }

  /** One read: some bytes (none at the end), or an error other than an interruption. */
  datatype Read = Bytes(data: seq<byte>) | Broken

  /** What the reads deliver, and whether they reach the end. */
  function Delivered(parts: seq<Read>): (seq<byte>, bool) {
    if parts == [] then ([], true)
    else if parts[0].Broken? then ([], false)
    else if parts[0].data == [] then ([], true)
    else
      var (rest, whole) := Delivered(parts[1..]);
      (parts[0].data + rest, whole)
  }

  /** `maps`: for every way the file may be cut into reads, the answer and the printed lines are those of its
      newline-ended lines, each cut to 512 bytes. */
  method Maps(ip: nat, parts: seq<Read>, prefix: seq<byte>) returns (mapped: Option<bool>, out: seq<seq<byte>>)
    ensures var (file, whole) := Delivered(parts);
            var lines := RawLines(file).0;
            mapped == (if whole then Some(Hit(lines, ip)) else None) && out == Shown(lines, prefix)
  {
    var mapLine := new byte[LINE];
    var held: nat := 0;
    var ipMapped := false;
    out := [];
    ghost var seen: seq<byte> := [];
    var rest := parts;
    assert [] + Delivered(parts).0 == Delivered(parts).0;
    while rest != []
      invariant held <= LINE && ScanOk(seen, ip, prefix, mapLine[..held], ipMapped, out)
      invariant Delivered(parts) == (seen + Delivered(rest).0, Delivered(rest).1)
      decreases |rest|
    {
      if rest[0].Broken? {
        assert seen + [] == seen;
        return None, out;
      }
      if rest[0].data == [] {
        break;
      }
      ghost var before := seen;
      held, ipMapped, out := ScanChunk(mapLine, held, rest[0].data, ip, prefix, ipMapped, out, seen);
      seen := before + rest[0].data;
      Regroup(before, rest[0].data, Delivered(rest[1..]).0);
      rest := rest[1..];
    }
    assert seen + [] == seen;
    mapped := Some(ipMapped);
  }

  lemma {:induction false} Regroup(a: seq<byte>, b: seq<byte>, c: seq<byte>)
    ensures a + (b + c) == a + b + c
  {}

  /** A line has ended: look whether it covers the address, and print it. */
  method EndLine(line: seq<byte>, ip: nat, prefix: seq<byte>, hit: bool, shown: seq<seq<byte>>)
      returns (ipMapped: bool, out: seq<seq<byte>>)
    ensures ipMapped <==> hit || Covers(ParseMap(line), ip)
    ensures out == shown + if ParseMap(line).Some? && ParseMap(line).value.printed then [Printed(prefix, line)] else []
  {
    ipMapped, out := hit, shown;
    var parsed := ParseMap(line);
    if parsed.Some? {
      ipMapped := ipMapped || (parsed.value.code && parsed.value.start <= ip < parsed.value.end);
      if parsed.value.printed {
        var text := PrintMap(prefix, line);
        out := out + [text];
      }
    }
  }

  /** One byte: kept while the line has room, or the end of the line. */
  method ScanOne(
      mapLine: array<byte>, start: nat, byte: byte, ip: nat, prefix: seq<byte>,
      hit: bool, shown: seq<seq<byte>>, ghost seen: seq<byte>)
      returns (held: nat, ipMapped: bool, out: seq<seq<byte>>)
    requires mapLine.Length == LINE && start <= LINE
    requires ScanOk(seen, ip, prefix, mapLine[..start], hit, shown)
    modifies mapLine
    ensures held <= LINE && ScanOk(seen + [byte], ip, prefix, mapLine[..held], ipMapped, out)
  {
    held, ipMapped, out := start, hit, shown;
    var line := mapLine[..held];
    if byte != NEWLINE {
      ScanByte(seen, ip, prefix, line, ipMapped, out, byte);
      if held < LINE {
        mapLine[held] := byte;
        held := held + 1;
        assert mapLine[..held] == line + [byte];
      }
    } else {
      ScanNewline(seen, ip, prefix, line, ipMapped, out);
      held := 0;
      ipMapped, out := EndLine(line, ip, prefix, ipMapped, out);
      assert mapLine[..0] == [];
    }
  }

  /** The loop over one chunk's bytes. */
  method ScanChunk(
      mapLine: array<byte>, start: nat, chunk: seq<byte>, ip: nat, prefix: seq<byte>,
      hit: bool, shown: seq<seq<byte>>, ghost seen: seq<byte>)
      returns (held: nat, ipMapped: bool, out: seq<seq<byte>>)
    requires mapLine.Length == LINE && start <= LINE
    requires ScanOk(seen, ip, prefix, mapLine[..start], hit, shown)
    modifies mapLine
    ensures held <= LINE && ScanOk(seen + chunk, ip, prefix, mapLine[..held], ipMapped, out)
  {
    held, ipMapped, out := start, hit, shown;
    assert seen + chunk[..0] == seen;
    for i := 0 to |chunk|
      invariant held <= LINE && ScanOk(seen + chunk[..i], ip, prefix, mapLine[..held], ipMapped, out)
    {
      Snoc(seen, chunk, i);
      held, ipMapped, out := ScanOne(mapLine, held, chunk[i], ip, prefix, ipMapped, out, seen + chunk[..i]);
    }
    assert chunk[..|chunk|] == chunk;
  }

  lemma {:induction false} Snoc(seen: seq<byte>, chunk: seq<byte>, i: nat)
    requires i < |chunk|
    ensures seen + chunk[..i + 1] == seen + chunk[..i] + [chunk[i]]
  {}

  /** Writing one line through the 640-byte line buffer. */
  method PrintMap(prefix: seq<byte>, mapping: seq<byte>) returns (text: seq<byte>)
    ensures text == Printed(prefix, mapping)
  {
    var buffer := new byte[OUT];
    var line := new Line(buffer);
    line.Text(prefix);
    line.Text(Ascii("map "));
    line.Text(mapping);
    line.Text([NEWLINE]);
    CutFour(prefix, Ascii("map "), mapping, [NEWLINE], OUT);
    text := line.Contents();
  }

  lemma {:induction false} CutFour(a: seq<byte>, b: seq<byte>, c: seq<byte>, d: seq<byte>, n: nat)
    ensures Cut(Cut(Cut(Cut([] + a, n) + b, n) + c, n) + d, n) == Cut(a + (b + (c + d)), n)
  {
    NothingFirst(a);
    CutGrows(a, b, n);
    CutGrows(a + b, c, n);
    CutGrows(a + b + c, d, n);
    Regroup(a, b, c + d);
    Regroup(a + b, c, d);
  }

  lemma {:induction false} NothingFirst(a: seq<byte>)
    ensures [] + a == a
  {}

  /** How a line starts: the program, at most 24 bytes of role, and the process ID. */
  function Begin(role: seq<byte>, pid: int): seq<byte> {
    Ascii("quasar-node-agent ") + role + Ascii("[") + DecText(pid) + Ascii("]: ")
  }

  /** A printed mapping is never cut by the output buffer, so it always ends its line. */
  lemma {:induction false} PrintedWhole(role: seq<byte>, pid: int, line: seq<byte>)
    requires |role| <= 24 && -0x8000_0000 <= pid <= 0x7FFF_FFFF
    ensures Printed(Begin(role, pid), Cut(line, LINE))
         == Begin(role, pid) + (Ascii("map ") + (Cut(line, LINE) + [NEWLINE]))
  {
    assert Pow(10, 4) == 10_000 && Pow(10, 8) == 100_000_000 && Pow(10, 10) == 10_000_000_000;
    DigitsShort(if pid < 0 then 0 - pid else pid, 10, 10);
  }
}
