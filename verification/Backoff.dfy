/** Persisted exponential backoff of provisioning attempts. Durations are in nanoseconds, clocks in seconds. */
module Backoff {
  import opened Text

  const NANOS := 1_000_000_000
  const U32_MAX := 0xFFFF_FFFF
  const U64_MAX := 0xFFFF_FFFF_FFFF_FFFF
  const DURATION_MAX := U64_MAX * NANOS + 999_999_999

  type Duration = d: nat | d <= DURATION_MAX

  type u32 = n: nat | n <= U32_MAX

  datatype Attempts = Attempts(version: string, attempts: u32, lastAttempt: nat, lastError: string)

  /** What a missing or unreadable file reads as. */
  const NoAttempts := Attempts("", 0, 0, "")

  function Pow2(k: nat): (r: nat)
    ensures r >= 1
  {
    if k == 0 then 1 else 2 * Pow2(k - 1)
  }

  /** `1u32.checked_shl(k).unwrap_or(u32::MAX)`: the shift itself would drop high bits. */
  function ShiftedOne(k: nat): nat {
    if k < 32 then Pow2(k) % (U32_MAX + 1) else U32_MAX
  }

  function SaturatingMul(d: Duration, n: nat): Duration {
    if d * n > DURATION_MAX then DURATION_MAX else d * n
  }

  function Min(a: nat, b: nat): nat {
    if a < b then a else b
  }

  /** The wait `backoff_remaining` computes for a record with `attempts` attempts. */
  function ComputedWait(attempts: nat, base: Duration, max: Duration): (w: nat)
    requires attempts >= 1
  {
    Min(SaturatingMul(base, ShiftedOne(Min(attempts, 20) - 1)), max)
  }

  /** `backoff_remaining`. */
  function BackoffRemaining(a: Attempts, version: string, now: nat, base: Duration, max: Duration): (r: Option<nat>) {
    if a.version != version || a.attempts == 0 then None
    else
      var wait := ComputedWait(a.attempts, base, max);
      var elapsed := if now > a.lastAttempt then (now - a.lastAttempt) * NANOS else 0;
      if elapsed < wait then Some(wait - elapsed) else None
  }

  /** `note_attempt`, when the write reaches the disk. */
  function Noted(prev: Attempts, version: string, now: nat): Attempts {
    Attempts(version, if prev.version == version then Min(prev.attempts + 1, U32_MAX) else 1, now, "")
  }

  /** `note_failure`. */
  function NoteFailure(prev: Attempts, error: string): Attempts {
    if prev.attempts == 0 then prev else prev.(lastError := error)
  }

  // ---- the wait ------------------------------------------------------------------------------

  /** The wait before attempt k + 1: base * 2^(k-1), capped at max, but the exponent stops at 19. */
  function Wait(k: nat, base: Duration, max: Duration): (w: nat)
    requires k >= 1
  {
    Min(base * Pow2(Min(k, 20) - 1), max)
  }

  lemma {:induction false} Pow2Bounded(k: nat, n: nat)
    requires k <= n
    ensures Pow2(k) <= Pow2(n)
    decreases n
  {
    if k < n {
      Pow2Bounded(k, n - 1);
    }
  }

  /** Neither the shift nor the multiplication ever loses anything. */
  lemma {:induction false} NeverOverflows(attempts: nat, base: Duration, max: Duration)
    requires attempts >= 1
    ensures ShiftedOne(Min(attempts, 20) - 1) == Pow2(Min(attempts, 20) - 1)
    ensures ComputedWait(attempts, base, max) == Wait(attempts, base, max)
  {
    Pow2Bounded(Min(attempts, 20) - 1, 19);
    assert Pow2(10) == 1024 && Pow2(19) == 524288;
  }

  /** The wait as the documentation has it. */
  function DocumentedWait(k: nat, base: Duration, max: Duration): (w: nat)
    requires k >= 1
  {
    Min(base * Pow2(k - 1), max)
  }

  lemma {:induction false} CapsDiffer(base: nat, p: nat, q: nat, max: nat)
    requires p < q
    ensures Min(base * p, max) != Min(base * q, max) <==> base > 0 && base * p < max
  {
    assert base * q == base * p + base * (q - p);
    assert base > 0 ==> base * (q - p) > 0;
  }

  /** The two differ exactly after the twentieth attempt, if base * 2^19 is not zero and below the cap. */
  lemma {:induction false} ExponentStops(k: nat, base: Duration, max: Duration)
    requires k >= 1
    ensures Wait(k, base, max) != DocumentedWait(k, base, max) <==> k > 20 && base > 0 && base * Pow2(19) < max
  {
    if k > 20 {
      Pow2Bounded(20, k - 1);
      CapsDiffer(base, Pow2(19), Pow2(k - 1), max);
    }
  }

  /** A clock behind the record counts as no time passed. */
  function Elapsed(a: Attempts, now: nat): nat {
    if now > a.lastAttempt then (now - a.lastAttempt) * NANOS else 0
  }

  lemma {:induction false} WaitPositive(k: nat, base: Duration, max: Duration)
    requires k >= 1 && base > 0 && max > 0
    ensures Wait(k, base, max) > 0
  {
    Scaled(base, 1, Pow2(Min(k, 20) - 1));
  }

  /** What is left is exactly that wait less the time since the attempt: the next one may go if and
      only if that much time has passed. */
  lemma {:induction false} RemainingIsExact(a: Attempts, now: nat, base: Duration, max: Duration)
    requires a.attempts >= 1
    ensures var elapsed := Elapsed(a, now);
            var left := BackoffRemaining(a, a.version, now, base, max);
            (left.None? <==> elapsed >= Wait(a.attempts, base, max))
            && (left.Some? ==> elapsed + left.value == Wait(a.attempts, base, max))
  {
    NeverOverflows(a.attempts, base, max);
  }

  lemma {:induction false} Scaled(base: nat, p: nat, q: nat)
    requires p <= q
    ensures base * p <= base * q
  {}

  /** More attempts never mean a shorter wait. */
  lemma {:induction false} WaitMonotone(k: nat, n: nat, base: Duration, max: Duration)
    requires 1 <= k <= n
    ensures Wait(k, base, max) <= Wait(n, base, max) <= max
  {
    Pow2Bounded(Min(k, 20) - 1, Min(n, 20) - 1);
    Scaled(base, Pow2(Min(k, 20) - 1), Pow2(Min(n, 20) - 1));
  }

  // ---- runs ----------------------------------------------------------------------------------

  /** What became of a write: it reached the disk, it changed nothing (the open failed), or it left a file that
      does not parse (a kill or an error after the truncation). */
  datatype Fate = Kept | Old | Torn

  function Stored(before: Attempts, record: Attempts, fate: Fate): Attempts {
    match fate
    case Kept => record
    case Old => before
    case Torn => NoAttempts
  }

  /** What `read_attempts` answers: the record, or the default if the read itself fails. */
  function Got(file: Attempts, read: bool): Attempts {
    if read then file else NoAttempts
  }

  /** What happens around one version's record: a provisioning pass (the file and the clock are read for the backoff
      check and again for the record, with the free-space check between), a noted failure, or a restart, which only
      forgets memory. Any read may fail, and either write may be lost. */
  datatype Event =
    | Pass(checked: nat, read: bool, room: bool, noted: nat, reread: bool, fate: Fate)
    | Failure(error: string, read: bool, fate: Fate)
    | Restart

  /** Whether a pass goes on to the download. */
  predicate Attempted(file: Attempts, e: Event, version: string, base: Duration, max: Duration) {
    e.Pass? && BackoffRemaining(Got(file, e.read), version, e.checked, base, max).None? && e.room
  }

  /** The record such a pass writes. */
  function RecordOf(file: Attempts, e: Event, version: string): Attempts
    requires e.Pass?
  {
    Noted(Got(file, e.reread), version, e.noted)
  }

  /** The record is written before the download starts; a failure rewrites it if there is one. */
  function Next(file: Attempts, e: Event, version: string, base: Duration, max: Duration): Attempts {
    match e
    case Pass(_, _, _, _, _, fate) =>
      if Attempted(file, e, version, base, max) then Stored(file, RecordOf(file, e, version), fate) else file
    case Failure(error, read, fate) =>
      if Got(file, read).attempts == 0 then file else Stored(file, NoteFailure(file, error), fate)
    case Restart => file
  }

  function After(file: Attempts, run: seq<Event>, version: string, base: Duration, max: Duration): Attempts
    decreases |run|
  {
    if run == [] then file else After(Next(file, run[0], version, base, max), run[1..], version, base, max)
  }

  /** The times at which attempts were made. */
  function AttemptTimes(file: Attempts, run: seq<Event>, version: string, base: Duration, max: Duration): (r: seq<nat>)
    decreases |run|
  {
    if run == [] then []
    else
      (if Attempted(file, run[0], version, base, max) then [run[0].noted] else [])
      + AttemptTimes(Next(file, run[0], version, base, max), run[1..], version, base, max)
  }

  /** The clock does not run backwards, and is not behind the record. */
  predicate ClockOk(after: nat, run: seq<Event>)
    decreases |run|
  {
    run == [] ||
    (if run[0].Pass? then after <= run[0].checked <= run[0].noted && ClockOk(run[0].noted, run[1..])
     else ClockOk(after, run[1..]))
  }

  /** Every attempt read the file and its record reached the disk, and none was torn by noting a failure. */
  predicate NothingLost(file: Attempts, run: seq<Event>, version: string, base: Duration, max: Duration)
    decreases |run|
  {
    run == [] ||
    (!(run[0].Failure? && run[0].read && run[0].fate.Torn?)
     && (Attempted(file, run[0], version, base, max) ==> run[0].read && run[0].reread && run[0].fate.Kept?)
     && NothingLost(Next(file, run[0], version, base, max), run[1..], version, base, max))
  }

  /** The k-th and later waits, for n more attempts. */
  function Waits(k: nat, n: nat, base: Duration, max: Duration): (r: nat)
    requires k >= 1
    decreases n
  {
    if n == 0 then 0 else Wait(k, base, max) + Waits(k + 1, n - 1, base, max)
  }

  /** Every later attempt keeps its distance from the one before it. */
  predicate Spaced(last: nat, k: nat, times: seq<nat>, base: Duration, max: Duration)
    requires k >= 1
    decreases |times|
  {
    times == [] ||
    (&& last <= times[0] && (times[0] - last) * NANOS >= Wait(k, base, max)
     && Spaced(times[0], k + 1, times[1..], base, max))
  }

  /** The record after the k-th attempt (the counter saturates, far beyond where the wait stops growing). */
  predicate AfterAttempt(file: Attempts, version: string, k: nat, last: nat) {
    file.version == version && file.attempts == Min(k, U32_MAX) && file.lastAttempt == last && k >= 1
  }

  lemma {:induction false} WaitSaturates(k: nat, base: Duration, max: Duration)
    requires k >= 1
    ensures Wait(Min(k, U32_MAX), base, max) == Wait(k, base, max)
  {}

  /** After the k-th attempt at `last`, whatever passes, failures and restarts follow without losing a record, attempt
      k+1 waits at least min(max, base * 2^(min(k,20)-1)), and so does each one after it. */
  lemma {:induction false} AttemptsAreSpaced(
      file: Attempts, run: seq<Event>, version: string, base: Duration, max: Duration, k: nat, last: nat, clock: nat)
    requires AfterAttempt(file, version, k, last) && last <= clock && ClockOk(clock, run)
    requires NothingLost(file, run, version, base, max)
    ensures Spaced(last, k, AttemptTimes(file, run, version, base, max), base, max)
    decreases |run|
  {
    if run != [] {
      var e, file' := run[0], Next(file, run[0], version, base, max);
      var times := AttemptTimes(file, run, version, base, max);
      if Attempted(file, e, version, base, max) {
        NeverOverflows(file.attempts, base, max);
        WaitSaturates(k, base, max);
        AttemptsAreSpaced(file', run[1..], version, base, max, k + 1, e.noted, e.noted);
        assert times[1..] == AttemptTimes(file', run[1..], version, base, max);
      } else {
        AttemptsAreSpaced(file', run[1..], version, base, max, k, last, if e.Pass? then e.noted else clock);
        assert times == AttemptTimes(file', run[1..], version, base, max);
      }
    }
  }

  lemma {:induction false} SpacedSums(last: nat, k: nat, times: seq<nat>, base: Duration, max: Duration)
    requires k >= 1 && Spaced(last, k, times, base, max)
    ensures times != [] ==> (times[|times| - 1] - last) * NANOS >= Waits(k, |times|, base, max)
    decreases |times|
  {
    if times != [] {
      SpacedSums(times[0], k + 1, times[1..], base, max);
    }
  }

  /** From the first attempt to the last, at least the sum of the waits between them. */
  predicate TakesAtLeast(times: seq<nat>, base: Duration, max: Duration) {
    times != [] ==> (times[|times| - 1] - times[0]) * NANOS >= Waits(1, |times| - 1, base, max)
  }

  /** A run starts with no record of this version; n attempts then take at least the sum of the first
      n - 1 waits, however often the agent is killed, if no record is lost. */
  lemma {:induction false} RunTakesSumOfWaits(
      file: Attempts, run: seq<Event>, version: string, base: Duration, max: Duration, clock: nat)
    requires file.version != version && ClockOk(clock, run) && NothingLost(file, run, version, base, max)
    ensures TakesAtLeast(AttemptTimes(file, run, version, base, max), base, max)
    decreases |run|
  {
    if run != [] {
      var e, file' := run[0], Next(file, run[0], version, base, max);
      var times := AttemptTimes(file, run, version, base, max);
      if Attempted(file, e, version, base, max) {
        AttemptsAreSpaced(file', run[1..], version, base, max, 1, e.noted, e.noted);
        assert times[0] == e.noted && times[1..] == AttemptTimes(file', run[1..], version, base, max);
        SpacedSums(e.noted, 1, times[1..], base, max);
      } else {
        RunTakesSumOfWaits(file', run[1..], version, base, max, if e.Pass? then e.noted else clock);
        assert times == AttemptTimes(file', run[1..], version, base, max);
      }
    }
  }

  // ---- lost records --------------------------------------------------------------------------

  /** The record read back is the one the attempt wrote, but for the error noted since. */
  predicate ReadBack(file: Attempts, r: Attempts) {
    file.version == r.version && file.attempts == r.attempts && file.lastAttempt == r.lastAttempt
  }

  /** From the attempt recorded by `r` on, no other goes before its wait is over. */
  ghost predicate Held(file: Attempts, r: Attempts, base: Duration, max: Duration)
    requires r.attempts >= 1
  {
    forall now :: now >= r.lastAttempt && BackoffRemaining(file, r.version, now, base, max).None? ==>
      Elapsed(r, now) >= Wait(r.attempts, base, max)
  }

  /** Another attempt may go at the very instant of the one recorded by `r`. */
  predicate Free(file: Attempts, r: Attempts, base: Duration, max: Duration) {
    BackoffRemaining(file, r.version, r.lastAttempt, base, max).None?
  }

  lemma {:induction false} ReadBackIsHeld(file: Attempts, r: Attempts, base: Duration, max: Duration)
    requires ReadBack(file, r) && r.attempts >= 1
    ensures Held(file, r, base, max)
  {
    forall now | now >= r.lastAttempt && BackoffRemaining(file, r.version, now, base, max).None?
      ensures Elapsed(r, now) >= Wait(r.attempts, base, max)
    {
      RemainingIsExact(file, now, base, max);
    }
  }

  lemma {:induction false} FreeIsNotHeld(file: Attempts, r: Attempts, base: Duration, max: Duration)
    requires Free(file, r, base, max) && r.attempts >= 1 && base > 0 && max > 0
    ensures !Held(file, r, base, max) && !ReadBack(file, r)
  {
    WaitPositive(r.attempts, base, max);
    assert Elapsed(r, r.lastAttempt) == 0;
    if ReadBack(file, r) {
      ReadBackIsHeld(file, r, base, max);
    }
  }

  /** A record that allowed an attempt still allows one when the attempt is noted. */
  lemma {:induction false} AllowedLater(
      file: Attempts, version: string, t: nat, now: nat, base: Duration, max: Duration)
    ensures t <= now && BackoffRemaining(file, version, t, base, max).None? ==>
              BackoffRemaining(file, version, now, base, max).None?
  {}

  /** Between one attempt and the next, the file holds that attempt's record or one that allows another at once;
      the former exactly as long as no write lost it. */
  lemma {:induction false} RecordSince(
      file: Attempts, run: seq<Event>, version: string, base: Duration, max: Duration, r: Attempts)
    requires r.version == version && r.attempts >= 1 && base > 0 && max > 0
    requires ReadBack(file, r) || Free(file, r, base, max)
    requires AttemptTimes(file, run, version, base, max) == []
    ensures var end := After(file, run, version, base, max);
            (ReadBack(end, r) || Free(end, r, base, max))
            && (ReadBack(end, r) <==> ReadBack(file, r) && NothingLost(file, run, version, base, max))
    decreases |run|
  {
    if run != [] {
      var file' := Next(file, run[0], version, base, max);
      if Free(file, r, base, max) {
        FreeIsNotHeld(file, r, base, max);
      }
      if Free(file', r, base, max) {
        FreeIsNotHeld(file', r, base, max);
      }
      RecordSince(file', run[1..], version, base, max, r);
    }
  }

  /** What follows attempt `e` by record `r`, as the next read, which may fail, gets it from the file. */
  function GotAfter(
      file: Attempts, e: Event, run: seq<Event>, version: string, base: Duration, max: Duration, read: bool): Attempts {
    Got(After(Next(file, e, version, base, max), run, version, base, max), read)
  }

  /** Whatever happens after an attempt, short of another: the next one is held to this one's wait if and only if
      the record read back is this attempt's, and that if and only if that read works and neither its own write nor
      noting a failure lost it. Otherwise another attempt may go at the same instant. (A base or cap of zero asks for
      no wait.) All this unless the attempt neither read the file for its check nor changed it: then the file is as
      if it had not been. */
  lemma {:induction false} HeldIffReadBack(
      file: Attempts, e: Event, run: seq<Event>, version: string, base: Duration, max: Duration, read: bool)
    requires base > 0 && max > 0 && Attempted(file, e, version, base, max) && e.checked <= e.noted
    requires AttemptTimes(Next(file, e, version, base, max), run, version, base, max) == []
    ensures !e.read && e.fate.Old? ==> Next(file, e, version, base, max) == file
    ensures e.read || !e.fate.Old? ==>
              var r, got := RecordOf(file, e, version), GotAfter(file, e, run, version, base, max, read);
              && (Held(got, r, base, max) <==> ReadBack(got, r))
              && (ReadBack(got, r) <==>
                    read && e.fate.Kept? && NothingLost(Next(file, e, version, base, max), run, version, base, max))
              && (!ReadBack(got, r) ==> Free(got, r, base, max))
  {
    var r, file' := RecordOf(file, e, version), Next(file, e, version, base, max);
    if e.read || !e.fate.Old? {
      if !e.fate.Kept? {
        AllowedLater(Got(file, e.read), version, e.checked, e.noted, base, max);
        FreeIsNotHeld(file', r, base, max);
      }
      RecordSince(file', run, version, base, max, r);
      var got := GotAfter(file, e, run, version, base, max, read);
      if ReadBack(got, r) {
        ReadBackIsHeld(got, r, base, max);
      } else {
        FreeIsNotHeld(got, r, base, max);
      }
    }
  }

  // ---- the file ------------------------------------------------------------------------------

  /** The attempts file; None when it is missing or does not parse. */
  class AttemptsFile {
    var contents: Option<Attempts>

    /** The record on file. */
    function Record(): Attempts
      reads this
    {
      if contents.Some? then contents.value else NoAttempts
    }

    /** `read_attempts`. */
    method Read() returns (record: Attempts, read: bool)
      ensures record == Got(Record(), read)
    {
      read := *;
      record := if read && contents.Some? then contents.value else NoAttempts;
    }

    /** `fs::write` with its result dropped. */
    method Write(record: Attempts) returns (fate: Fate)
      modifies this
      ensures Record() == Stored(old(Record()), record, fate)
    {
      var truncated: bool, filled: bool := *, *;
      if !truncated {
        return Old;
      }
      contents := None;
      if !filled {
        return Torn;
      }
      contents := Some(record);
      return Kept;
    }

    /** `note_attempt`. */
    method NoteAttempt(version: string, now: nat) returns (read: bool, fate: Fate)
      modifies this
      ensures Record() == Stored(old(Record()), Noted(Got(old(Record()), read), version, now), fate)
    {
      var prev;
      prev, read := Read();
      var attempts := 1;
      if prev.version == version {
        attempts := prev.attempts;
        if attempts < U32_MAX {
          attempts := attempts + 1;
        }
      }
      fate := Write(Attempts(version, attempts, now, ""));
    }

    /** `note_failure`: nothing is written when nothing was recorded, or nothing could be read. */
    method NoteFailure(error: string) returns (read: bool, fate: Fate)
      modifies this
      ensures !read || old(Record()).attempts == 0 ==> Record() == old(Record())
      ensures read && old(Record()).attempts != 0 ==>
                Record() == Stored(old(Record()), old(Record()).(lastError := error), fate)
    {
      var record;
      record, read := Read();
      if record.attempts == 0 {
        return read, Kept;
      }
      fate := Write(record.(lastError := error));
    }
  }
}
