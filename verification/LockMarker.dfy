/** The text of the provisioning marker file, and when an acquirer that holds the kernel lock replaces it. */
module LockMarker {
  import opened Text
  import opened Decimal

  const HEARTBEAT_INTERVAL := 30
  const MIN_HEARTBEAT_STALE := 5 * 60
  const LOCK_STALE_AFTER := 90 * 60
  const KERNEL_FIELD := "kernel_lock=1"
  const U64_MAX := 0xFFFF_FFFF_FFFF_FFFF
  const NANOS := 1_000_000_000

  /** `lock_body`. */
  function LockBody(pid: nat, version: string): string {
    Lead(pid, version) + KERNEL_FIELD + "\n"
  }

  function PidField(pid: nat): string {
    "pid=" + NatText(pid)
  }

  function AgentField(version: string): string {
    "agent=" + version
  }

  function BeatField(): string {
    "heartbeat=" + NatText(HEARTBEAT_INTERVAL)
  }

  function Lead(pid: nat, version: string): string {
    PidField(pid) + " " + (AgentField(version) + " " + (BeatField() + " "))
  }

  /** A build stamp holds no whitespace. */
  predicate VersionText(v: string) {
    forall i :: 0 <= i < |v| ==> !IsSpace(v[i])
  }

  // ---- split_whitespace ----------------------------------------------------------------------

  function Word(s: string): (w: string)
    ensures w <= s && (forall i :: 0 <= i < |w| ==> !IsSpace(w[i]))
    ensures |w| < |s| ==> IsSpace(s[|w|])
  {
    if s == "" || IsSpace(s[0]) then "" else [s[0]] + Word(s[1..])
  }

  function Fields(s: string): (r: seq<string>)
    decreases |s|
  {
    if s == "" then []
    else if IsSpace(s[0]) then Fields(s[1..])
    else [Word(s)] + Fields(s[|Word(s)|..])
  }

  predicate Unbroken(w: string) {
    w != "" && forall i :: 0 <= i < |w| ==> !IsSpace(w[i])
  }

  lemma {:induction false} WordStops(w: string, rest: string)
    requires Unbroken(w) && (rest != "" ==> IsSpace(rest[0]))
    ensures Word(w + rest) == w
  {
    var s := w + rest;
    var r := Word(s);
    assert forall i :: 0 <= i < |w| ==> s[i] == w[i];
    assert rest != "" ==> s[|w|] == rest[0];
    assert s[..|w|] == w;
  }

  lemma {:induction false} FieldThenSpace(w: string, rest: string)
    requires Unbroken(w)
    ensures Fields(w + " " + rest) == [w] + Fields(rest)
  {
    var s := w + (" " + rest);
    assert w + " " + rest == s;
    WordStops(w, " " + rest);
    assert s[|w|..] == " " + rest && (" " + rest)[1..] == rest;
    assert s[0] == w[0];
  }

  lemma {:induction false} LastField(w: string, end: string)
    requires Unbroken(w) && (end == "" || end == "\n")
    ensures Fields(w + end) == [w]
  {
    WordStops(w, end);
    assert (w + end)[|w|..] == end && (w + end)[0] == w[0];
    assert end != "" ==> end[1..] == "";
    assert Fields(end) == [] && [w] + [] == [w];
  }

  predicate HasKernelField(s: string) {
    KERNEL_FIELD in Fields(s)
  }

  lemma {:induction false} FieldsUnbroken(pid: nat, version: string)
    requires VersionText(version)
    ensures Unbroken(PidField(pid)) && Unbroken(AgentField(version)) && Unbroken(BeatField())
  {}

  lemma {:induction false} LeadFields(pid: nat, version: string, tail: string)
    requires VersionText(version)
    ensures Fields(Lead(pid, version) + tail)
         == [PidField(pid)] + ([AgentField(version)] + ([BeatField()] + Fields(tail)))
  {
    var p, a, b := PidField(pid), AgentField(version), BeatField();
    FieldsUnbroken(pid, version);
    LeadText(p, a, b, tail);
    FieldThenSpace(p, a + " " + (b + " " + tail));
    FieldThenSpace(a, b + " " + tail);
    FieldThenSpace(b, tail);
  }

  lemma {:induction false} LeadText(p: string, a: string, b: string, tail: string)
    ensures p + " " + (a + " " + (b + " ")) + tail == p + " " + (a + " " + (b + " " + tail))
  {}

  /** A field that does not start like the kernel field makes no difference to a prefix, whole or cut. */
  lemma {:induction false} SkipField(w: string, rest: string, k: nat)
    requires Unbroken(w) && w[0] != KERNEL_FIELD[0] && k <= |w| + 1 + |rest|
    ensures HasKernelField((w + " " + rest)[..k]) <==> k > |w| && HasKernelField(rest[..k - |w| - 1])
  {
    var s := (w + " " + rest)[..k];
    if k <= |w| {
      assert s == w[..k];
      if k > 0 {
        assert s + "" == s;
        LastField(s, "");
      }
    } else {
      assert s == w + " " + rest[..k - |w| - 1];
      FieldThenSpace(w, rest[..k - |w| - 1]);
    }
  }

  lemma {:induction false} BodyText(p: string, a: string, b: string, f: string)
    ensures p + " " + (a + " " + (b + " ")) + f + "\n" == p + " " + (a + " " + (b + " " + (f + "\n")))
  {}

  /** A holder killed while writing its marker is recognised at once exactly when everything but the
      final newline was written. */
  lemma {:induction false} KernelFieldOfPrefix(pid: nat, version: string, k: nat)
    requires VersionText(version) && k <= |LockBody(pid, version)|
    ensures HasKernelField(LockBody(pid, version)[..k]) <==> k >= |LockBody(pid, version)| - 1
  {
    var p, a, b := PidField(pid), AgentField(version), BeatField();
    FieldsUnbroken(pid, version);
    BodyText(p, a, b, KERNEL_FIELD);
    var tail := KERNEL_FIELD + "\n";
    SkipField(p, a + " " + (b + " " + tail), k);
    if k > |p| {
      SkipField(a, b + " " + tail, k - |p| - 1);
      if k > |p| + 1 + |a| {
        SkipField(b, tail, k - |p| - |a| - 2);
        if k > |p| + |a| + |b| + 2 {
          KernelTail(k - |p| - |a| - |b| - 3);
        }
      }
    }
  }

  lemma {:induction false} KernelTail(j: nat)
    requires j <= |KERNEL_FIELD| + 1
    ensures HasKernelField((KERNEL_FIELD + "\n")[..j]) <==> j >= |KERNEL_FIELD|
  {
    var tail := (KERNEL_FIELD + "\n")[..j];
    if j == 0 {
      assert tail == "";
    } else if j <= |KERNEL_FIELD| {
      assert tail == KERNEL_FIELD[..j] && tail + "" == tail;
      LastField(tail, "");
    } else {
      assert tail == KERNEL_FIELD + "\n";
      LastField(KERNEL_FIELD, "\n");
    }
  }

  // ---- the takeover window -------------------------------------------------------------------

  /** `str::parse::<u64>`. */
  function ParseU64(s: string): Option<nat> {
    var d := if s != "" && s[0] == '+' then s[1..] else s;
    if d == "" || !AllDigits(d) || Value(d) > U64_MAX then None else Some(Value(d))
  }

  function FirstBeat(fields: seq<string>): Option<string> {
    if fields == [] then None
    else if "heartbeat=" <= fields[0] then Some(fields[0][|"heartbeat="|..])
    else FirstBeat(fields[1..])
  }

  /** `heartbeat_interval`, in seconds. */
  function HeartbeatInterval(body: string): Option<nat> {
    match FirstBeat(Fields(body))
    case None => None
    case Some(v) =>
      match ParseU64(v)
      case None => None
      case Some(n) => if n > 0 then Some(n) else None
  }

  /** `stale_after_for`, in seconds; `None` where multiplying the interval by five overflows and panics. */
  function StaleAfter(body: string): (r: Option<nat>) {
    match HeartbeatInterval(body)
    case None => Some(LOCK_STALE_AFTER)
    case Some(i) =>
      if 5 * i > U64_MAX then None
      else Some(if 5 * i > MIN_HEARTBEAT_STALE then 5 * i else MIN_HEARTBEAT_STALE)
  }

  /** An agent's own marker has the five-minute window. */
  lemma {:induction false} OwnWindow(pid: nat, version: string)
    requires VersionText(version)
    ensures StaleAfter(LockBody(pid, version)) == Some(MIN_HEARTBEAT_STALE)
  {
    var p, a, b := PidField(pid), AgentField(version), BeatField();
    var tail := KERNEL_FIELD + "\n";
    assert LockBody(pid, version) == Lead(pid, version) + tail;
    LeadFields(pid, version, tail);
    var fields := Fields(LockBody(pid, version));
    var rest := [b] + Fields(tail);
    assert fields == [p] + ([a] + rest) && fields[1..] == [a] + rest && ([a] + rest)[1..] == rest;
    assert p[0] == 'p' && a[0] == 'a' && "heartbeat="[0] == 'h';
    assert !("heartbeat=" <= p) && !("heartbeat=" <= a);
    assert FirstBeat(fields) == FirstBeat([a] + rest) == FirstBeat(rest);
    BeatParses();
  }

  lemma {:induction false} BeatParses()
    ensures "heartbeat=" <= BeatField() && ParseU64(BeatField()[|"heartbeat="|..]) == Some(30)
  {
    var t := NatText(HEARTBEAT_INTERVAL);
    assert BeatField()[|"heartbeat="|..] == t;
    assert t[0] != '+';
  }

  // ---- acquiring with the kernel lock in hand ------------------------------------------------

  /** Whether an acquirer that holds the kernel lock replaces a marker with this text, last written `age`
      nanoseconds ago; no answer where computing the window panics. */
  function Replaces(body: string, age: nat): Option<bool> {
    match StaleAfter(body)
    case None => None
    case Some(window) => Some(HasKernelField(body) || age > window * NANOS)
  }

  /** The marker as the acquirer finds it: its text and how long ago, in nanoseconds, it was last written. */
  datatype Marker = Absent | Present(body: string, age: nat)

  datatype Outcome = Acquired | Refused | Panicked

  /** The two-attempt loop of `Lock::acquire` once the kernel lock is held and no other agent runs:
      a marker is replaced at once if it names the kernel lock, whatever its age, else when it is stale. */
  method AcquireMarker(found: Marker) returns (r: Outcome)
    ensures r == Acquired <==> found.Absent? || Replaces(found.body, found.age) == Some(true)
    ensures r == Panicked <==> found.Present? && Replaces(found.body, found.age) == None
  {
    var marker := found;
    r := Refused;
    for attempt := 0 to 2
      invariant attempt == 0 ==> marker == found
      invariant attempt == 1 ==> marker.Absent? && found.Present? && Replaces(found.body, found.age) == Some(true)
      invariant attempt < 2
    {
      if marker.Absent? { return Acquired; }
      var window := StaleAfter(marker.body);
      if window.None? { return Panicked; }
      if !HasKernelField(marker.body) && marker.age <= window.value * NANOS { return Refused; }
      marker := Absent;
    }
    assert false;
  }

  /** A killed holder's complete marker never delays its successor. */
  lemma {:induction false} CompleteMarkerIsReplaced(pid: nat, version: string)
    requires VersionText(version)
    ensures var body := LockBody(pid, version); StaleAfter(body).Some? && HasKernelField(body)
  {
    var body := LockBody(pid, version);
    OwnWindow(pid, version);
    KernelFieldOfPrefix(pid, version, |body|);
    assert body[..|body|] == body;
  }
}
