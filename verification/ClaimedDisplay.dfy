/** When to read a claimed monitor's power over DDC: rarely, never during play, and never starved. */
module ClaimedDisplay {
  import opened Text

  // Instants and durations are nanoseconds.
  const SECOND := 1_000_000_000
  const QUIET := 600 * SECOND
  const INTERVAL := 300 * SECOND
  const RECHECK := 10 * SECOND

  /** The fields of `ClaimedDdc` that decide a read. */
  datatype Ddc = Ddc(lastRead: Option<nat>, off: seq<string>, wokeAt: Option<nat>, afterInput: bool)

  const Fresh := Ddc(None, [], None, false)

  function Since(now: nat, at: nat): nat {
    if now >= at then now - at else 0
  }

  /** `woke_at` once a poll has looked for input after the last read. */
  function Woken(s: Ddc, idle: nat, now: nat): Option<nat> {
    if s.wokeAt.None? && s.lastRead.Some? && idle < Since(now, s.lastRead.value) then Some(now - idle) else s.wokeAt
  }

  /** Whether `due` answers true. */
  predicate Reads(s: Ddc, idle: Option<nat>, now: nat) {
    idle.Some? &&
    if idle.value >= QUIET then s.lastRead.None? || Since(now, s.lastRead.value) >= INTERVAL
    else
      s.off != [] &&
      var woke := Woken(s, idle.value, now);
      if woke.Some? then Since(now, woke.value) >= RECHECK
      else s.afterInput && s.lastRead.Some? && Since(now, s.lastRead.value) >= INTERVAL
  }

  /** What `due` leaves behind. */
  function After(s: Ddc, idle: Option<nat>, now: nat): Ddc {
    if idle.None? then s.(off := [], wokeAt := None)
    else if Reads(s, idle, now) then
      Ddc(Some(now), s.off, if idle.value < RECHECK then Some(now) else None, idle.value < QUIET)
    else if idle.value >= QUIET || s.off == [] then s
    else s.(wokeAt := Woken(s, idle.value, now))
  }

  /** `woke_at` is never before the last read, and nothing is in the future. */
  predicate Inv(s: Ddc, clock: nat) {
    && (s.lastRead.Some? ==> s.lastRead.value <= clock)
    && (s.wokeAt.Some? ==> s.lastRead.Some? && s.lastRead.value <= s.wokeAt.value <= clock)
  }

  lemma {:induction false} DueKeepsInv(s: Ddc, idle: Option<nat>, clock: nat, now: nat)
    requires Inv(s, clock) && clock <= now
    ensures Inv(After(s, idle, now), now)
  {}

  /** When input is first noticed after a read, `now - idle` lies after that read, so it is a valid instant. */
  lemma {:induction false} WakeIsAfterRead(s: Ddc, idle: nat, clock: nat, now: nat)
    requires Inv(s, clock) && clock <= now && s.wokeAt.None? && Woken(s, idle, now).Some?
    ensures s.lastRead.Some? && idle < now && s.lastRead.value < now - idle == Woken(s, idle, now).value
  {}

  // ---- spacing -------------------------------------------------------------------------------

  /** A poll, or anything else that changes the list of connectors found off. */
  datatype Event = Poll(idle: Option<nat>, now: nat) | SetOff(off: seq<string>)

  function Next(s: Ddc, e: Event): Ddc {
    match e
    case Poll(idle, now) => After(s, idle, now)
    case SetOff(off) => s.(off := off)
  }

  predicate ReadsAt(s: Ddc, e: Event) {
    e.Poll? && Reads(s, e.idle, e.now)
  }

  /** The reads of a run: when, and whether no connector was known off. */
  function ReadsOf(s: Ddc, run: seq<Event>): seq<(nat, bool)>
    decreases |run|
  {
    if run == [] then []
    else (if ReadsAt(s, run[0]) then [(run[0].now, s.off == [])] else []) + ReadsOf(Next(s, run[0]), run[1..])
  }

  predicate ClockOk(clock: nat, run: seq<Event>)
    decreases |run|
  {
    run == [] ||
    (if run[0].Poll? then clock <= run[0].now && ClockOk(run[0].now, run[1..]) else ClockOk(clock, run[1..]))
  }

  predicate FarFrom(at: nat, later: (nat, bool)) {
    later.0 >= at + RECHECK && (later.1 ==> later.0 >= at + INTERVAL)
  }

  /** One read keeps its distance from the last. */
  lemma {:induction false} ReadIsFarFromLast(s: Ddc, idle: Option<nat>, clock: nat, now: nat)
    requires Inv(s, clock) && clock <= now && s.lastRead.Some? && Reads(s, idle, now)
    ensures FarFrom(s.lastRead.value, (now, s.off == []))
  {}

  /** Every later read keeps its distance from an earlier instant no later than the last read. */
  lemma {:induction false} ReadsAreFar(s: Ddc, clock: nat, run: seq<Event>, at: nat)
    requires Inv(s, clock) && ClockOk(clock, run) && s.lastRead.Some? && at <= s.lastRead.value
    ensures forall k :: 0 <= k < |ReadsOf(s, run)| ==> FarFrom(at, ReadsOf(s, run)[k])
    decreases |run|
  {
    if run != [] {
      var e := run[0];
      if e.Poll? {
        DueKeepsInv(s, e.idle, clock, e.now);
        if ReadsAt(s, e) {
          ReadIsFarFromLast(s, e.idle, clock, e.now);
        }
        ReadsAreFar(Next(s, e), e.now, run[1..], at);
      } else {
        ReadsAreFar(Next(s, e), clock, run[1..], at);
      }
    }
  }

  /** In every run, any two reads are at least ten seconds apart, and at least five minutes apart when no
      connector is known off at the later one. */
  lemma {:induction false} ReadsAreSpaced(s: Ddc, clock: nat, run: seq<Event>, i: nat, j: nat)
    requires Inv(s, clock) && ClockOk(clock, run) && i < j < |ReadsOf(s, run)|
    ensures FarFrom(ReadsOf(s, run)[i].0, ReadsOf(s, run)[j])
    decreases |run|
  {
    var e := run[0];
    var s' := Next(s, e);
    if e.Poll? {
      DueKeepsInv(s, e.idle, clock, e.now);
    }
    var clock' := if e.Poll? then e.now else clock;
    if !ReadsAt(s, e) {
      ReadsAreSpaced(s', clock', run[1..], i, j);
    } else if i > 0 {
      ReadsAreSpaced(s', clock', run[1..], i - 1, j - 1);
    } else {
      ReadsAreFar(s', clock', run[1..], e.now);
    }
  }

  // ---- what one poll does --------------------------------------------------------------------

  /** A poll whose input watch works. The watch reads the clock (`drained`) before it drains the devices and
      then knows the last input (`last`); the decider reads it again (`now`), later. */
  datatype Sight = Sight(drained: nat, last: nat, now: nat, off: seq<string>)

  /** The last input as this poll sees it: never after its own clock reading. */
  function LastSeen(p: Sight): nat {
    if p.last < p.drained then p.last else p.drained
  }

  function IdleAt(p: Sight): nat {
    Since(p.drained, p.last)
  }

  predicate SightReads(s: Ddc, p: Sight) {
    Reads(s.(off := p.off), Some(IdleAt(p)), p.now)
  }

  function See(s: Ddc, p: Sight): Ddc {
    After(s.(off := p.off), Some(IdleAt(p)), p.now)
  }

  function SeeAll(s: Ddc, polls: seq<Sight>): Ddc
    decreases |polls|
  {
    if polls == [] then s else SeeAll(See(s, polls[0]), polls[1..])
  }

  /** Decisions come one after the other; the polls behind them may overlap. */
  predicate Ordered(clock: nat, polls: seq<Sight>)
    decreases |polls|
  {
    polls == [] ||
    (clock <= polls[0].now && polls[0].drained <= polls[0].now && Ordered(polls[0].now, polls[1..]))
  }

  /** Whether any of these polls reads. */
  predicate AnyReads(s: Ddc, polls: seq<Sight>)
    decreases |polls|
  {
    polls != [] && (SightReads(s, polls[0]) || AnyReads(See(s, polls[0]), polls[1..]))
  }

  /** After a read at `at` and no reading since. */
  predicate SinceRead(s: Ddc, at: nat, clock: nat) {
    Inv(s, clock) && s.lastRead == Some(at)
  }

  /** The last input was before the read, by at least as much as the decider's clock is ahead of the watch's. */
  predicate Misses(at: nat, p: Sight) {
    LastSeen(p) <= at && p.now - p.drained <= at - LastSeen(p)
  }

  /** After a read made in quiet, a poll that finds less than ten minutes of idling fails to notice the input
      behind it exactly when it misses it. */
  lemma {:induction false} MissedInput(s: Ddc, at: nat, clock: nat, p: Sight)
    requires SinceRead(s, at, clock) && s.wokeAt.None? && !s.afterInput
    requires clock <= p.now && p.drained <= p.now && p.off != [] && IdleAt(p) < QUIET
    ensures !SightReads(s, p) ==> (See(s, p).wokeAt.None? <==> Misses(at, p))
    ensures Misses(at, p) ==> !SightReads(s, p)
  {}

  /** With nothing known off, a monitor is read exactly when nobody has used the host for ten minutes and the
      last read, if any, is five minutes old; so no such read lands during play. */
  lemma {:induction false} QuietReads(s: Ddc, p: Sight)
    requires p.off == []
    ensures SightReads(s, p) <==>
            p.drained >= p.last + QUIET && (s.lastRead.None? || Since(p.now, s.lastRead.value) >= INTERVAL)
  {}

  // ---- no starvation -------------------------------------------------------------------------

  lemma {:induction false} StretchGoesOn(s: Ddc, at: nat, clock: nat, p: Sight)
    requires SinceRead(s, at, clock) && clock <= p.now && !SightReads(s, p)
    ensures SinceRead(See(s, p), at, p.now) && See(s, p).afterInput == s.afterInput
    ensures s.wokeAt.Some? ==> See(s, p).wokeAt == s.wokeAt
  {}

  /** A poll five minutes after the read that still does not read has noticed input, unless it missed it. */
  lemma {:induction false} NotReadingMeansWoken(s: Ddc, at: nat, clock: nat, p: Sight)
    requires SinceRead(s, at, clock) && clock <= p.now && p.drained <= p.now && at + INTERVAL <= p.now
    requires p.off != [] && !SightReads(s, p)
    ensures See(s, p).wokeAt.None? <==> s.wokeAt.None? && Misses(at, p)
  {}

  lemma {:induction false} WokenReads(s: Ddc, at: nat, clock: nat, woke: nat, p: Sight)
    requires SinceRead(s, at, clock) && clock <= p.now && at + INTERVAL <= p.now
    requires s.wokeAt == Some(woke) && woke + RECHECK <= p.now && p.off != []
    ensures SightReads(s, p)
  {}

  lemma {:induction false} WokenIsServed(s: Ddc, at: nat, clock: nat, woke: nat, more: seq<Sight>)
    requires SinceRead(s, at, clock) && s.wokeAt == Some(woke)
    requires more != [] && Ordered(clock, more)
    requires var q := more[|more| - 1]; q.off != [] && at + INTERVAL <= q.now && woke + RECHECK <= q.now
    ensures AnyReads(s, more)
    decreases |more|
  {
    var p := more[0];
    if !SightReads(s, p) {
      if |more| == 1 {
        WokenReads(s, at, clock, woke, p);
      } else {
        StretchGoesOn(s, at, clock, p);
        WokenIsServed(See(s, p), at, p.now, woke, more[1..]);
      }
    }
  }

  /** Polls that end ten seconds on or more, with a connector still known off at the end. */
  predicate TenSecondsOn(p: Sight, more: seq<Sight>) {
    more != [] && Ordered(p.now, more)
    && more[|more| - 1].now >= p.now + RECHECK && more[|more| - 1].off != []
  }

  /** At a poll at least five minutes after the last read, with a connector known off, that does not read: every
      course of polls that goes on for ten seconds reads, unless the input was missed. */
  lemma {:induction false} NoStarvation(s: Ddc, at: nat, clock: nat, p: Sight, more: seq<Sight>)
    requires SinceRead(s, at, clock) && clock <= p.now && p.drained <= p.now && at + INTERVAL <= p.now
    requires p.off != [] && !SightReads(s, p) && TenSecondsOn(p, more)
    requires s.wokeAt.Some? || !Misses(at, p)
    ensures AnyReads(See(s, p), more)
  {
    NotReadingMeansWoken(s, at, clock, p);
    StretchGoesOn(s, at, clock, p);
    WokenIsServed(See(s, p), at, p.now, See(s, p).wokeAt.value, more);
  }

  ghost predicate AlwaysServed(s: Ddc, p: Sight) {
    forall more :: TenSecondsOn(p, more) ==> AnyReads(See(s, p), more)
  }

  /** And the condition is exact. */
  lemma {:induction false} ServedUnlessMissed(s: Ddc, at: nat, clock: nat, p: Sight)
    requires SinceRead(s, at, clock) && clock <= p.now && p.drained <= p.now && at + INTERVAL <= p.now
    requires p.off != [] && !SightReads(s, p)
    ensures AlwaysServed(s, p) <==> s.wokeAt.Some? || !Misses(at, p)
  {
    if s.wokeAt.None? && Misses(at, p) {
      MissedStarves(s, at, clock, p);
    } else {
      forall more | TenSecondsOn(p, more)
        ensures AnyReads(See(s, p), more)
      {
        NoStarvation(s, at, clock, p, more);
      }
    }
  }

  /** Fresh input ten seconds later is only noticed then. */
  lemma {:induction false} MissedStarves(s: Ddc, at: nat, clock: nat, p: Sight)
    requires SinceRead(s, at, clock) && clock <= p.now && p.drained <= p.now && at + INTERVAL <= p.now
    requires p.off != [] && !SightReads(s, p) && s.wokeAt.None? && Misses(at, p)
    ensures !AlwaysServed(s, p)
  {
    var t := p.now + RECHECK;
    var q := Sight(t, t, t, p.off);
    NotReadingMeansWoken(s, at, clock, p);
    StretchGoesOn(s, at, clock, p);
    OneReads(See(s, p), q);
    assert TenSecondsOn(p, [q]);
  }

  lemma {:induction false} OneReads(s: Ddc, q: Sight)
    ensures AnyReads(s, [q]) <==> SightReads(s, q)
  {
    assert [q][1..] == [];
  }

  lemma {:induction false} WokenStaysThrough(s: Ddc, polls: seq<Sight>)
    requires s.wokeAt.Some? && !AnyReads(s, polls)
    ensures SeeAll(s, polls).wokeAt == s.wokeAt
    decreases |polls|
  {
    if polls != [] {
      WokenStaysThrough(See(s, polls[0]), polls[1..]);
    }
  }

  /** While input goes on and the monitor still reads off, it is read again ten seconds after each read. */
  lemma {:induction false} RecheckWhileInput(s: Ddc, read: Sight, before: seq<Sight>, p: Sight)
    requires SightReads(s, read) && IdleAt(read) < RECHECK && !AnyReads(See(s, read), before)
    requires p.off != [] && p.now >= read.now + RECHECK && IdleAt(p) < QUIET
    ensures SightReads(SeeAll(See(s, read), before), p)
  {
    WokenStaysThrough(See(s, read), before);
  }

  // ---- polls one at a time -------------------------------------------------------------------

  /** A whole poll: the watch's clock reading, whether it drained input, and the decision. */
  datatype Turn = Turn(drained: nat, input: bool, now: nat, off: seq<string>)

  /** The watch's last input only ever jumps to a poll's own clock reading. */
  function LastAfter(last: nat, t: Turn): nat {
    if t.input then t.drained else last
  }

  function SightOf(last: nat, t: Turn): Sight {
    Sight(t.drained, LastAfter(last, t), t.now, t.off)
  }

  function SightsOf(last: nat, turns: seq<Turn>): (r: seq<Sight>)
    ensures |r| == |turns|
    ensures forall i :: 0 <= i < |r| ==> r[i].now == turns[i].now && r[i].off == turns[i].off
    decreases |turns|
  {
    if turns == [] then [] else [SightOf(last, turns[0])] + SightsOf(LastAfter(last, turns[0]), turns[1..])
  }

  function LastAfterAll(last: nat, turns: seq<Turn>): nat
    decreases |turns|
  {
    if turns == [] then last else LastAfterAll(LastAfter(last, turns[0]), turns[1..])
  }

  /** No poll starts before the one before it has decided. */
  predicate Serial(clock: nat, turns: seq<Turn>)
    decreases |turns|
  {
    turns == [] || (clock <= turns[0].drained <= turns[0].now && Serial(turns[0].now, turns[1..]))
  }

  lemma {:induction false} SerialIsOrdered(clock: nat, last: nat, turns: seq<Turn>)
    requires Serial(clock, turns)
    ensures Ordered(clock, SightsOf(last, turns))
    decreases |turns|
  {
    if turns != [] {
      SerialIsOrdered(turns[0].now, LastAfter(last, turns[0]), turns[1..]);
    }
  }

  function EndTime(clock: nat, turns: seq<Turn>): nat {
    if turns == [] then clock else turns[|turns| - 1].now
  }

  /** Between a read at `at` and the next, the last input is the one the read knew or no earlier than the read. */
  lemma {:induction false} InputSinceRead(s: Ddc, at: nat, clock: nat, last: nat, turns: seq<Turn>)
    requires SinceRead(s, at, clock) && Serial(clock, turns) && !AnyReads(s, SightsOf(last, turns))
    ensures SinceRead(SeeAll(s, SightsOf(last, turns)), at, EndTime(clock, turns))
    ensures SeeAll(s, SightsOf(last, turns)).afterInput == s.afterInput
    ensures LastAfterAll(last, turns) == last || LastAfterAll(last, turns) >= clock
    decreases |turns|
  {
    if turns != [] {
      var t := turns[0];
      StretchGoesOn(s, at, clock, SightOf(last, t));
      InputSinceRead(See(s, SightOf(last, t)), at, t.now, LastAfter(last, t), turns[1..]);
    }
  }

  /** No starvation for polls that do not overlap: a read, any polls that do not read, then polls `p` and (ending
      `more`) one at least ten seconds later, both at least five minutes after that read and both with a
      connector known off. One of the polls from `p` on reads, if the clock moved at all between the two
      readings of `p`, or the last input was not drained at the read's own instant. */
  lemma {:induction false} NoStarvationInRun(
      s: Ddc, clock: nat, last: nat, read: Turn, before: seq<Turn>, p: Turn, more: seq<Turn>)
    requires Inv(s, clock) && last <= clock <= read.drained <= read.now && SightReads(s, SightOf(last, read))
    requires Serial(read.now, before) && Serial(EndTime(read.now, before), [p] + more)
    requires var known := LastAfter(last, read);
             !AnyReads(See(s, SightOf(last, read)), SightsOf(known, before))
    requires p.off != [] && read.now + INTERVAL <= p.now
    requires p.drained < p.now || LastAfterAll(LastAfter(last, read), before) != read.now
    requires more != [] && more[|more| - 1].off != [] && more[|more| - 1].now >= p.now + RECHECK
    ensures var known := LastAfter(last, read);
            AnyReads(SeeAll(See(s, SightOf(last, read)), SightsOf(known, before)),
                     SightsOf(LastAfterAll(known, before), [p] + more))
  {
    var at, known, s1 := read.now, LastAfter(last, read), See(s, SightOf(last, read));
    InputSinceRead(s1, at, at, known, before);
    var s2, end, l2 := SeeAll(s1, SightsOf(known, before)), EndTime(at, before), LastAfterAll(known, before);
    var sight := SightOf(l2, p);
    assert ([p] + more)[1..] == more;
    if !SightReads(s2, sight) {
      SerialIsOrdered(p.now, LastAfter(l2, p), more);
      assert !(s2.wokeAt.None? && Misses(at, sight));
      NoStarvation(s2, at, end, sight, SightsOf(LastAfter(l2, p), more));
    }
  }

  // ---- overlapping polls ---------------------------------------------------------------------

  /** Two callers poll independently: the hotplug thread and the capacity re-detect. A poll is two steps; the
      watch's clock is read before its lock is taken. */
  datatype Step = Drain(caller: nat, stamp: nat, input: bool) | Decide(caller: nat, now: nat, off: seq<string>)

  /** The decider, the watch's last input, and what each caller's drain found. */
  datatype World = World(ddc: Ddc, lastInput: nat, found: map<nat, (nat, nat)>)

  function SightIn(w: World, d: Step): Sight
    requires d.Decide? && d.caller in w.found
  {
    Sight(w.found[d.caller].0, w.found[d.caller].1, d.now, d.off)
  }

  function Do(w: World, step: Step): World {
    match step
    case Drain(c, stamp, input) =>
      var last := if input then stamp else w.lastInput;
      w.(lastInput := last, found := w.found[c := (stamp, last)])
    case Decide(c, _, _) => if c in w.found then w.(ddc := See(w.ddc, SightIn(w, step))) else w
  }

  function DoAll(w: World, steps: seq<Step>): World
    decreases |steps|
  {
    if steps == [] then w else DoAll(Do(w, steps[0]), steps[1..])
  }

  /** The decisions of a run, as the decider sees them. */
  function Decisions(w: World, steps: seq<Step>): seq<Sight>
    decreases |steps|
  {
    if steps == [] then []
    else
      (if steps[0].Decide? && steps[0].caller in w.found then [SightIn(w, steps[0])] else [])
      + Decisions(Do(w, steps[0]), steps[1..])
  }

  /** Clock readings lie in the past when they are used. */
  predicate Timely(clock: nat, steps: seq<Step>)
    decreases |steps|
  {
    steps == [] ||
    match steps[0]
    case Drain(_, stamp, _) => Timely(if stamp > clock then stamp else clock, steps[1..])
    case Decide(_, now, _) => clock <= now && Timely(now, steps[1..])
  }

  predicate FoundBy(w: World, clock: nat) {
    forall c :: c in w.found ==> w.found[c].0 <= clock
  }

  lemma {:induction false} PrependSights(s: Ddc, p: Sight, rest: seq<Sight>)
    ensures SeeAll(s, [p] + rest) == SeeAll(See(s, p), rest)
    ensures forall clock: nat :: Ordered(clock, [p] + rest) <==>
                            clock <= p.now && p.drained <= p.now && Ordered(p.now, rest)
  {
    assert ([p] + rest)[1..] == rest;
  }

  /** However the callers' polls overlap, the decider sees ordered decisions, so all of the above holds of them. */
  lemma {:induction false} OverlapIsOrdered(w: World, clock: nat, steps: seq<Step>)
    requires FoundBy(w, clock) && Timely(clock, steps)
    ensures Ordered(clock, Decisions(w, steps))
    ensures DoAll(w, steps).ddc == SeeAll(w.ddc, Decisions(w, steps))
    decreases |steps|
  {
    if steps != [] {
      var w', rest := Do(w, steps[0]), Decisions(Do(w, steps[0]), steps[1..]);
      match steps[0]
      case Drain(_, stamp, _) =>
        var later := if stamp > clock then stamp else clock;
        OverlapIsOrdered(w', later, steps[1..]);
        assert [] + rest == rest;
        EarlierClock(clock, later, rest);
      case Decide(c, now, _) =>
        OverlapIsOrdered(w', now, steps[1..]);
        if c in w.found {
          PrependSights(w.ddc, SightIn(w, steps[0]), rest);
        } else {
          assert [] + rest == rest;
          EarlierClock(clock, now, rest);
        }
    }
  }

  lemma {:induction false} EarlierClock(clock: nat, later: nat, polls: seq<Sight>)
    requires clock <= later && Ordered(later, polls)
    ensures Ordered(clock, polls)
  {}

  // A run that starves.
  const T: nat := QUIET + INTERVAL
  const OFF := ["DP-1"]
  const Quiet := [Drain(0, QUIET, false), Decide(0, QUIET + 1, [])]
  const Played := [Drain(0, T + 1, false), Drain(1, T + 2, true), Decide(1, T + 3, OFF)]
  const Forgetful := Decide(0, T + 4, OFF)
  const Fruitless := [
    Drain(1, T + INTERVAL + 4, false), Decide(1, T + INTERVAL + 5, OFF),
    Drain(1, T + INTERVAL + RECHECK + 4, false), Decide(1, T + INTERVAL + RECHECK + 5, OFF)]

  lemma {:induction false} DoTwo(w: World, a: Step, b: Step)
    ensures DoAll(w, [a, b]) == Do(Do(w, a), b)
  {
    assert [a, b][1..] == [b];
    assert [b][1..] == [];
    assert DoAll(Do(w, a), [b]) == DoAll(Do(Do(w, a), b), []);
  }

  lemma {:induction false} QuietRun()
    ensures DoAll(World(Fresh, 0, map[]), Quiet)
         == World(Ddc(Some(QUIET + 1), [], None, false), 0, map[0 := (QUIET, 0)])
  {
    DoTwo(World(Fresh, 0, map[]), Quiet[0], Quiet[1]);
    assert Quiet == [Quiet[0], Quiet[1]];
  }

  lemma {:induction false} PlayedRun(w: World)
    requires w.ddc == Ddc(Some(QUIET + 1), [], None, false) && w.lastInput == 0
    ensures var w' := DoAll(w, Played);
            w'.ddc == Ddc(Some(QUIET + 1), OFF, Some(T + 3), false) && w'.lastInput == T + 2
            && 0 in w'.found && w'.found[0] == (T + 1, 0)
  {
    assert Played[1..] == [Played[1], Played[2]];
    DoTwo(Do(w, Played[0]), Played[1], Played[2]);
  }

  lemma {:induction false} FruitlessRun(w: World)
    requires w.ddc == Ddc(Some(T + 4), OFF, None, false) && w.lastInput == T + 2
    ensures !AnyReads(w.ddc, Decisions(w, Fruitless))
  {
    var w1 := Do(w, Fruitless[0]);
    var p := SightIn(w1, Fruitless[1]);
    var w2 := Do(w1, Fruitless[1]);
    var w3 := Do(w2, Fruitless[2]);
    var q := SightIn(w3, Fruitless[3]);
    assert Fruitless[1..][1..][1..][1..] == [];
    assert Decisions(w3, Fruitless[1..][1..][1..]) == [q];
    assert Decisions(w2, Fruitless[1..][1..]) == [q];
    assert Decisions(w1, Fruitless[1..]) == [p, q];
    assert See(w.ddc, p) == w.ddc;
    OneReads(w.ddc, q);
    assert [p, q][1..] == [q];
    assert Decisions(w, Fruitless) == [p, q];
  }

  lemma {:induction false} StarvedIsTimely()
    ensures Timely(0, Quiet) && Timely(QUIET + 1, Played) && Timely(T + 3, [Forgetful]) && Timely(T + 4, Fruitless)
  {
    assert Quiet[1..][1..] == [] && Played[1..][1..][1..] == [] && [Forgetful][1..] == [];
    assert Timely(T + 2, Played[1..][1..]) && Timely(T + 1, Played[1..]);
    var late := Fruitless[1..][1..];
    assert late[1..][1..] == [];
    assert Timely(T + INTERVAL + RECHECK + 4, late[1..]) && Timely(T + INTERVAL + 5, late);
    assert Timely(T + INTERVAL + 4, Fruitless[1..]);
  }

  /** Overlapping polls can starve, though the clock moves between the two readings of every poll. Caller 0 finds
      the host quiet; caller 1 then drains input and notes the wake; caller 0's decision reads and forgets it.
      Polls five minutes later, ten seconds apart, find the monitor off and do not read. */
  lemma {:induction false} StarvedRun()
    ensures Timely(0, Quiet) && Timely(QUIET + 1, Played) && Timely(T + 3, [Forgetful]) && Timely(T + 4, Fruitless)
    ensures var w := DoAll(DoAll(World(Fresh, 0, map[]), Quiet), Played);
            && w.ddc.wokeAt == Some(T + 3)
            && 0 in w.found && SightReads(w.ddc, SightIn(w, Forgetful))
            && !AnyReads(Do(w, Forgetful).ddc, Decisions(Do(w, Forgetful), Fruitless))
  {
    StarvedIsTimely();
    QuietRun();
    var w := DoAll(World(Fresh, 0, map[]), Quiet);
    PlayedRun(w);
    FruitlessRun(Do(DoAll(w, Played), Forgetful));
  }

  // ---- the objects ---------------------------------------------------------------------------

  /** `Vec::retain` of the connectors not known off. */
  function Present(connectors: seq<string>, off: seq<string>): seq<string> {
    if connectors == [] then []
    else (if connectors[0] in off then [] else [connectors[0]]) + Present(connectors[1..], off)
  }

  lemma {:induction false} PresentNext(shown: seq<string>, rest: seq<string>, off: seq<string>)
    requires rest != []
    ensures shown + Present(rest, off)
         == (if rest[0] in off then shown else shown + [rest[0]]) + Present(rest[1..], off)
  {
    Joined(shown, if rest[0] in off then [] else [rest[0]], Present(rest[1..], off));
    assert shown + [] == shown;
  }

  lemma {:induction false} Joined(a: seq<string>, b: seq<string>, c: seq<string>)
    ensures a + (b + c) == a + b + c
  {}

  /** The connectors a read did not find powered. */
  function NotIn(connectors: seq<string>, powered: seq<string>): seq<string> {
    Present(connectors, powered)
  }

  lemma {:induction false} PresentMembers(connectors: seq<string>, off: seq<string>, c: string)
    ensures c in Present(connectors, off) <==> c in connectors && c !in off
  {
    if connectors != [] {
      PresentMembers(connectors[1..], off, c);
    }
  }

  /** What is shown after a read is exactly what the read found powered, in the connectors' own order. */
  lemma {:induction false} ShownIsPowered(connectors: seq<string>, all: seq<string>, powered: seq<string>)
    requires forall c :: c in connectors ==> c in all
    ensures Present(connectors, NotIn(all, powered)) == Kept(connectors, powered)
  {
    if connectors != [] {
      PresentMembers(all, powered, connectors[0]);
      ShownIsPowered(connectors[1..], all, powered);
    }
  }

  function Kept(connectors: seq<string>, powered: seq<string>): seq<string> {
    if connectors == [] then []
    else (if connectors[0] in powered then [connectors[0]] else []) + Kept(connectors[1..], powered)
  }

  class ClaimedDdc {
    var lastRead: Option<nat>
    var off: seq<string>
    var wokeAt: Option<nat>
    var afterInput: bool

    function State(): Ddc
      reads this
    {
      Ddc(lastRead, off, wokeAt, afterInput)
    }

    constructor ()
      ensures State() == Fresh
    {
      lastRead, off, wokeAt, afterInput := None, [], None, false;
    }

    /** `due`. */
    method Due(idle: Option<nat>, now: nat) returns (read: bool)
      modifies this
      ensures read == Reads(old(State()), idle, now)
      ensures State() == After(old(State()), idle, now)
    {
      if idle.None? {
        off, wokeAt := [], None;
        return false;
      }
      var sinceRead := if lastRead.Some? then Some(Since(now, lastRead.value)) else None;
      if idle.value >= QUIET {
        if sinceRead.Some? && sinceRead.value < INTERVAL {
          return false;
        }
      } else {
        if off == [] {
          return false;
        }
        if wokeAt.None? && sinceRead.Some? && idle.value < sinceRead.value {
          wokeAt := Some(now - idle.value);
        }
        if wokeAt.Some? {
          if Since(now, wokeAt.value) < RECHECK {
            return false;
          }
        } else if !(afterInput && sinceRead.Some? && sinceRead.value >= INTERVAL) {
          return false;
        }
      }
      afterInput := idle.value < QUIET;
      lastRead := Some(now);
      wokeAt := if idle.value < RECHECK then Some(now) else None;
      return true;
    }

    /** `present`. */
    method Show(connectors: seq<string>) returns (shown: seq<string>)
      ensures shown == Present(connectors, off)
    {
      shown := [];
      var rest := connectors;
      while rest != []
        invariant Present(connectors, off) == shown + Present(rest, off)
        decreases |rest|
      {
        PresentNext(shown, rest, off);
        if rest[0] !in off {
          shown := shown + [rest[0]];
        }
        rest := rest[1..];
      }
    }

    /** The end of a read, which ran unlocked while other polls went on: what it found is what is known off, and
        exactly the powered connectors are shown. */
    method Finish(connected: seq<string>, powered: seq<string>) returns (shown: seq<string>)
      modifies `off
      ensures off == NotIn(connected, powered) && shown == Kept(connected, powered)
    {
      off := NotIn(connected, powered);
      ShownIsPowered(connected, connected, powered);
      shown := Show(connected);
    }

    /** `claimed_connectors_with`: the monitors are asked only when a read is due; a read shows exactly the
        powered connectors, and a poll that does not read leaves what is known off alone, unless the input
        watch failed. */
    method Claimed(connected: seq<string>, idle: Option<nat>, now: nat, powered: seq<string> -> seq<string>)
        returns (shown: seq<string>)
      modifies this
      ensures Reads(old(State()), idle, now) ==>
                shown == Kept(connected, powered(connected)) && off == NotIn(connected, powered(connected))
      ensures !Reads(old(State()), idle, now) ==> shown == Present(connected, if idle.Some? then old(off) else [])
      ensures State() == After(old(State()), idle, now).(off := off)
    {
      var read := Due(idle, now);
      if read {
        shown := Finish(connected, powered(connected));
      } else {
        shown := Show(connected);
      }
    }
  }

  /** What one input node gave at a poll: not a device that counts, a device that went away, or a live one. */
  datatype Node = Ignored | Gone | Live(had: bool, physical: bool)

  predicate AnyInput(nodes: seq<Node>) {
    exists i :: 0 <= i < |nodes| && nodes[i].Live? && nodes[i].had
  }

  predicate AnyPhysical(nodes: seq<Node>) {
    exists i :: 0 <= i < |nodes| && nodes[i].Live? && nodes[i].had && nodes[i].physical
  }

  predicate AnyLive(nodes: seq<Node>) {
    exists i :: 0 <= i < |nodes| && nodes[i].Live?
  }

  class Watch {
    var lastInput: nat
    var lastSeen: Option<nat>

    /** `Watch::poll`: the last input jumps to the poll's own time or stays, even when the poll fails. */
    method Poll(nodes: seq<Node>, unreadable: bool, now: nat) returns (idle: Option<nat>)
      modifies this
      ensures lastInput == if AnyInput(nodes) then now else old(lastInput)
      ensures lastSeen == if AnyPhysical(nodes) then Some(now) else old(lastSeen)
      ensures idle == if unreadable || !AnyLive(nodes) then None else Some(Since(now, lastInput))
    {
      var input, physical, live := false, false, false;
      for i := 0 to |nodes|
        invariant input == AnyInput(nodes[..i]) && physical == AnyPhysical(nodes[..i]) && live == AnyLive(nodes[..i])
      {
        assert nodes[..i + 1] == nodes[..i] + [nodes[i]];
        if nodes[i].Live? {
          input, physical, live := input || nodes[i].had, physical || (nodes[i].had && nodes[i].physical), true;
          assert nodes[..i + 1][i] == nodes[i];
        }
      }
      assert nodes[..|nodes|] == nodes;
      if input {
        lastInput := now;
      }
      if physical {
        lastSeen := Some(now);
      }
      return if unreadable || !live then None else Some(Since(now, lastInput));
    }
  }
}
