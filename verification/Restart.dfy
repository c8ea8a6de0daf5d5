/** Refusing sessions before a restart: wait until idle, refuse, and look again after a settle delay that
    outlasts any admission already under way. */
module Restart {
  // ---- against admissions --------------------------------------------------------------------

  /** Where the sealing thread is: about to do the thing named. */
  datatype Pc =
    | Look
    | Set
    | Settle(setAt: nat)
    | Recheck(setAt: nat)
    | Unset
    | Pause
    | Sealed
    | GaveUp

  /** The flag, the session count, the admissions that saw the flag clear and have not registered yet (by the
      time of their check), the clock, and whether anyone else cleared or set the flag while the seal was on. */
  datatype State = State(
    pc: Pc, pending: bool, live: nat, admitting: map<nat, nat>, clock: nat, otherCleared: bool, otherSet: bool)

  datatype Action =
    | Seal(stop: bool)          // the sealing thread's next step; `stop`: the deadline has passed
    | Admit(id: nat)            // the session manager checks the flag for an assignment
    | Register(id: nat)         // and registers the session
    | EndSession
    | Tick(d: nat)
    | OtherSets                 // another restart path marks or clears the flag
    | OtherClears

  /** Where a look leads. */
  function AfterLook(pc: Pc, live: nat): Pc {
    if pc.Look? then (if live == 0 then Set else Pause) else if live == 0 then Sealed else Unset
  }

  function SealStep(s: State, stop: bool, settle: nat): State {
    match s.pc
    case Look => s.(pc := AfterLook(s.pc, s.live))
    case Set => s.(pc := Settle(s.clock), pending := true, otherCleared := false)
    case Settle(setAt) => if s.clock >= setAt + settle then s.(pc := Recheck(setAt)) else s
    case Recheck(_) => s.(pc := AfterLook(s.pc, s.live))
    case Unset => s.(pc := Pause, pending := false)
    case Pause => s.(pc := if stop then GaveUp else Look)
    case Sealed => s
    case GaveUp => s
  }

  /** Every admission registers at most `bound` after its check: time does not pass beyond that with one under
      way. */
  predicate InTime(s: State, d: nat, bound: nat) {
    forall id :: id in s.admitting ==> s.clock + d <= s.admitting[id] + bound
  }

  function Without(m: map<nat, nat>, k: nat): map<nat, nat> {
    map x | x in m && x != k :: m[x]
  }

  function Step(s: State, a: Action, settle: nat, bound: nat): State {
    match a
    case Seal(stop) => SealStep(s, stop, settle)
    case Admit(id) => if s.pending || id in s.admitting then s else s.(admitting := s.admitting[id := s.clock])
    case Register(id) =>
      if id in s.admitting then s.(admitting := Without(s.admitting, id), live := s.live + 1) else s
    case EndSession => if s.live > 0 then s.(live := s.live - 1) else s
    case Tick(d) => if InTime(s, d, bound) then s.(clock := s.clock + d) else s
    case OtherSets => s.(pending := true, otherSet := true)
    case OtherClears => s.(pending := false, otherCleared := true)
  }

  /** The sealing thread has the flag set. */
  predicate Holding(pc: Pc) {
    pc.Settle? || pc.Recheck? || pc.Unset? || pc.Sealed?
  }

  /** Everything under way checked the flag before it was set. */
  predicate AdmittedBefore(s: State, setAt: nat) {
    setAt <= s.clock && forall id :: id in s.admitting ==> s.admitting[id] <= setAt
  }

  predicate PcOk(s: State, settle: nat) {
    match s.pc
    case Settle(setAt) => AdmittedBefore(s, setAt)
    case Recheck(setAt) => AdmittedBefore(s, setAt) && s.clock >= setAt + settle
    case Sealed => s.live == 0 && s.admitting == map[]
    case _ => true
  }

  /** A check is never later than the clock. */
  predicate ChecksPast(s: State) {
    forall id :: id in s.admitting ==> s.admitting[id] <= s.clock
  }

  /** A flag the sealing thread does not hold is clear, unless someone else set it. */
  predicate ClearOk(s: State) {
    !Holding(s.pc) && !s.otherSet ==> !s.pending
  }

  /** One it holds is set and keeps admissions out, unless someone else cleared it. */
  predicate Inv(s: State, settle: nat, bound: nat) {
    && InTime(s, 0, bound) && ChecksPast(s)
    && (Holding(s.pc) && !s.otherCleared ==> s.pending && PcOk(s, settle))
  }

  /** A settle delay longer than any admission takes outlasts every one that checked before it began. */
  lemma {:induction false} SettleDrains(s: State, setAt: nat, settle: nat, bound: nat)
    requires InTime(s, 0, bound) && AdmittedBefore(s, setAt) && s.clock >= setAt + settle && bound < settle
    ensures s.admitting == map[]
  {
    assert forall id :: id !in s.admitting;
  }

  lemma {:induction false} StepKeepsClear(s: State, a: Action, settle: nat, bound: nat)
    requires ClearOk(s)
    ensures ClearOk(Step(s, a, settle, bound))
  {}

  lemma {:induction false} SealStepKeepsInv(s: State, stop: bool, settle: nat, bound: nat)
    requires Inv(s, settle, bound) && bound < settle
    ensures Inv(SealStep(s, stop, settle), settle, bound)
  {
    if s.pc.Recheck? && !s.otherCleared {
      SettleDrains(s, s.pc.setAt, settle, bound);
    }
    if s.pc.Set? {
      assert AdmittedBefore(SealStep(s, stop, settle), s.clock);
    }
  }

  lemma {:induction false} OtherStepsKeepInv(s: State, a: Action, settle: nat, bound: nat)
    requires Inv(s, settle, bound) && !a.Seal?
    ensures Inv(Step(s, a, settle, bound), settle, bound)
  {}

  function Runs(s: State, acts: seq<Action>, settle: nat, bound: nat): State
    decreases |acts|
  {
    if acts == [] then s else Runs(Step(s, acts[0], settle, bound), acts[1..], settle, bound)
  }

  lemma {:induction false} RunKeepsClear(s: State, acts: seq<Action>, settle: nat, bound: nat)
    requires ClearOk(s)
    ensures ClearOk(Runs(s, acts, settle, bound))
    decreases |acts|
  {
    if acts != [] {
      StepKeepsClear(s, acts[0], settle, bound);
      RunKeepsClear(Step(s, acts[0], settle, bound), acts[1..], settle, bound);
    }
  }

  lemma {:induction false} RunKeepsInv(s: State, acts: seq<Action>, settle: nat, bound: nat)
    requires Inv(s, settle, bound) && bound < settle
    ensures Inv(Runs(s, acts, settle, bound), settle, bound)
    decreases |acts|
  {
    if acts != [] {
      var a := acts[0];
      if a.Seal? {
        SealStepKeepsInv(s, a.stop, settle, bound);
      } else {
        OtherStepsKeepInv(s, a, settle, bound);
      }
      RunKeepsInv(Step(s, a, settle, bound), acts[1..], settle, bound);
    }
  }

  /** Where the seal loop starts: the flag set or clear, whatever sessions and admissions there are. */
  predicate Starts(s: State, bound: nat) {
    s.pc.Look? && InTime(s, 0, bound) && ChecksPast(s)
  }

  /** After a true answer, while nobody else clears the flag, no session is live and none is being admitted. */
  predicate IdleIfSealed(s: State) {
    s.pc.Sealed? && !s.otherCleared ==> s.pending && s.live == 0 && s.admitting == map[]
  }

  /** If admissions are quicker than the settle delay, this holds at every step of every run. */
  lemma {:induction false} SealedMeansIdle(s: State, acts: seq<Action>, settle: nat, bound: nat)
    requires Starts(s, bound) && bound < settle
    ensures IdleIfSealed(Runs(s, acts, settle, bound))
  {
    RunKeepsInv(s, acts, settle, bound);
  }

  /** A false answer leaves a flag that was clear clear, unless someone else set it; this needs no bound on
      admissions. */
  lemma {:induction false} GivingUpLeavesClear(s: State, acts: seq<Action>, settle: nat, bound: nat)
    requires s.pc.Look? && !s.pending
    ensures var r := Runs(s, acts, settle, bound);
            r.pc.GaveUp? && !r.otherSet ==> !r.pending
  {
    RunKeepsClear(s, acts, settle, bound);
  }

  ghost predicate AlwaysIdle(settle: nat, bound: nat) {
    forall s, acts :: Starts(s, bound) ==> IdleIfSealed(Runs(s, acts, settle, bound))
  }

  /** A seal means idle in every run if and only if every admission is quicker than the settle delay. */
  lemma {:induction false} SettleMustOutlast(settle: nat, bound: nat)
    ensures AlwaysIdle(settle, bound) <==> bound < settle
  {
    if bound < settle {
      forall s, acts | Starts(s, bound)
        ensures IdleIfSealed(Runs(s, acts, settle, bound))
      {
        SealedMeansIdle(s, acts, settle, bound);
      }
    } else {
      SlowAdmission(settle, bound);
      assert Starts(Idle, bound);
    }
  }

  const Idle := State(Look, false, 0, map[], 0, false, false)

  /** An admission checks the flag, the seal sets it and settles, finds nobody and answers; then it registers. */
  function SlowRun(settle: nat): seq<Action> {
    [Admit(0), Seal(false), Seal(false), Tick(settle), Seal(false), Seal(false), Register(0)]
  }

  lemma {:induction false} SlowAdmission(settle: nat, bound: nat)
    requires bound >= settle
    ensures !IdleIfSealed(Runs(Idle, SlowRun(settle), settle, bound))
  {
    var acts := SlowRun(settle);
    var s3 := State(Settle(0), true, 0, map[0 := 0], 0, false, false);
    FirstThree(Idle, acts, settle, bound);
    assert Step(Step(Step(Idle, acts[0], settle, bound), acts[1], settle, bound), acts[2], settle, bound) == s3;
    FirstThree(s3, acts[3..], settle, bound);
    var s6 := State(Sealed, true, 0, map[0 := 0], settle, false, false);
    assert Step(Step(Step(s3, acts[3], settle, bound), acts[4], settle, bound), acts[5], settle, bound) == s6;
    assert acts[3..][3..] == [Register(0)] && [Register(0)][1..] == [];
    assert Runs(s6, [Register(0)], settle, bound) == Runs(Step(s6, Register(0), settle, bound), [], settle, bound);
  }

  lemma {:induction false} FirstThree(s: State, acts: seq<Action>, settle: nat, bound: nat)
    requires |acts| >= 3
    ensures Runs(s, acts, settle, bound)
         == Runs(Step(Step(Step(s, acts[0], settle, bound), acts[1], settle, bound), acts[2], settle, bound),
                 acts[3..], settle, bound)
  {
    var s1 := Step(s, acts[0], settle, bound);
    var s2 := Step(s1, acts[1], settle, bound);
    assert acts[1..][1..] == acts[2..] && acts[2..][1..] == acts[3..];
    assert Runs(s1, acts[1..], settle, bound) == Runs(s2, acts[2..], settle, bound);
  }

  // ---- the loop itself, amid what others do ----------------------------------------------------

  /** How many polls fit before `max` is reached. */
  function CeilDiv(max: nat, poll: nat): nat
    requires poll > 0
  {
    (max + poll - 1) / poll
  }

  lemma {:induction false} RoundsBounded(n: nat, max: nat, poll: nat)
    requires poll > 0 && n * poll < max
    ensures n < CeilDiv(max, poll)
  {
    var c := CeilDiv(max, poll);
    assert n * poll < max <= c * poll;
    Unscale(n, c, poll);
  }

  lemma {:induction false} Unscale(a: nat, b: nat, k: nat)
    requires a * k < b * k
    ensures a < b
  {}

  predicate NoSeal(acts: seq<Action>) {
    forall i :: 0 <= i < |acts| ==> !acts[i].Seal?
  }

  /** What others do at the k-th of the sealing thread's steps, in the state it finds, while it sleeps `d`: anything,
      but the clock is then at least `d` further. */
  ghost predicate Passes(others: (nat, State, nat) -> seq<Action>, settle: nat, bound: nat) {
    forall k, s, d ::
      NoSeal(others(k, s, d)) && Runs(s, others(k, s, d), settle, bound).clock >= s.clock + d
  }

  lemma {:induction false} RunsAppend(s: State, a: seq<Action>, b: seq<Action>, settle: nat, bound: nat)
    ensures Runs(s, a + b, settle, bound) == Runs(Runs(s, a, settle, bound), b, settle, bound)
    decreases |a|
  {
    if a == [] {
      assert a + b == b;
    } else {
      assert (a + b)[1..] == a[1..] + b;
      RunsAppend(Step(s, a[0], settle, bound), a[1..], b, settle, bound);
    }
  }

  /** Every admission under way registers. */
  ghost function Registers(admitting: map<nat, nat>): seq<Action>
    decreases |admitting|
  {
    if admitting == map[] then []
    else
      var id :| id in admitting;
      Shrinks(admitting, id);
      [Register(id)] + Registers(Without(admitting, id))
  }

  lemma {:induction false} Shrinks(m: map<nat, nat>, k: nat)
    requires k in m
    ensures |Without(m, k)| < |m|
  {
    assert Without(m, k).Keys == m.Keys - {k};
    assert |m.Keys| == |m| && |Without(m, k).Keys| == |Without(m, k)|;
  }

  lemma {:induction false} RegistersAll(s: State, settle: nat, bound: nat)
    ensures var acts := Registers(s.admitting);
            && NoSeal(acts) && Runs(s, acts, settle, bound).admitting == map[]
            && Runs(s, acts, settle, bound).clock == s.clock
    decreases |s.admitting|
  {
    if s.admitting != map[] {
      var acts := Registers(s.admitting);
      var id := acts[0].id;
      Shrinks(s.admitting, id);
      RegistersAll(Step(s, acts[0], settle, bound), settle, bound);
      assert acts[1..] == Registers(Without(s.admitting, id));
    }
  }

  /** Others can let the clock pass from every state: those being admitted register first. */
  lemma {:induction false} OthersCanPass(settle: nat, bound: nat) returns (others: (nat, State, nat) -> seq<Action>)
    ensures Passes(others, settle, bound)
  {
    others := (k: nat, s: State, d: nat) => Registers(s.admitting) + [Tick(d)];
    forall k, s, d
      ensures NoSeal(others(k, s, d)) && Runs(s, others(k, s, d), settle, bound).clock >= s.clock + d
    {
      RegistersAll(s, settle, bound);
      RunsAppend(s, Registers(s.admitting), [Tick(d)], settle, bound);
      var r := Runs(s, Registers(s.admitting), settle, bound);
      assert Runs(r, [Tick(d)], settle, bound) == Runs(Step(r, Tick(d), settle, bound), [], settle, bound);
    }
  }

  /** Time goes on, and whether others set the flag, or cleared it, is not forgotten; nor does it change otherwise. */
  predicate Since(s: State, s': State) {
    && s'.clock >= s.clock && (s.otherSet ==> s'.otherSet) && (s.otherCleared ==> s'.otherCleared)
    && (s'.pending && !s'.otherSet ==> s.pending) && (s.pending && !s'.otherCleared ==> s'.pending)
  }

  /** All that others do leaves the sealing thread where it is. */
  predicate OthersKeep(s: State, s': State) {
    s'.pc == s.pc && Since(s, s')
  }

  lemma {:induction false} OthersRun(s: State, acts: seq<Action>, settle: nat, bound: nat)
    requires NoSeal(acts)
    ensures OthersKeep(s, Runs(s, acts, settle, bound))
    decreases |acts|
  {
    if acts != [] {
      assert OthersKeep(s, Step(s, acts[0], settle, bound));
      OthersRun(Step(s, acts[0], settle, bound), acts[1..], settle, bound);
    }
  }

  class Agent {
    /** The flag, the count, the clock and all that others have a hand in. */
    var world: State
    var k: nat
    const settle: nat
    const bound: nat
    // The run this is part of.
    ghost const start: State
    ghost var acts: seq<Action>

    ghost predicate Running()
      reads this
    {
      world == Runs(start, acts, settle, bound)
    }

    constructor (s: State, settle: nat, bound: nat)
      ensures Running() && world == s && start == s && acts == [] && this.settle == settle && this.bound == bound
    {
      world, k, this.settle, this.bound := s, 0, settle, bound;
      start, acts := s, [];
    }

    ghost method Note(stop: bool, before: State)
      requires before == Runs(start, acts, settle, bound) && world == SealStep(before, stop, settle)
      modifies this`acts
      ensures Running() && acts == old(acts) + [Seal(stop)]
    {
      RunsAppend(start, acts, [Seal(stop)], settle, bound);
      assert [Seal(stop)][1..] == [];
      assert Runs(before, [Seal(stop)], settle, bound) == Runs(world, [], settle, bound);
      acts := acts + [Seal(stop)];
    }

    /** Others act between two steps, for at least `d`. */
    method Sleep(d: nat, others: (nat, State, nat) -> seq<Action>)
      requires Running() && Passes(others, settle, bound)
      modifies this`world, this`k, this`acts
      ensures Running() && old(acts) <= acts
      ensures OthersKeep(old(world), world) && world.clock >= old(world).clock + d
    {
      var a := others(k, world, d);
      RunsAppend(start, acts, a, settle, bound);
      OthersRun(world, a, settle, bound);
      world, k := Runs(world, a, settle, bound), k + 1;
      acts := acts + a;
    }

    /** `live()`, whose answer decides where the sealing thread goes next. */
    method Live(others: (nat, State, nat) -> seq<Action>) returns (n: nat)
      requires Running() && Passes(others, settle, bound) && (world.pc.Look? || world.pc.Recheck?)
      modifies this`world, this`k, this`acts
      ensures Running() && old(acts) <= acts && n == world.live && Since(old(world), world)
      ensures world.pc == AfterLook(old(world).pc, n)
    {
      Sleep(0, others);
      n := world.live;
      ghost var before := world;
      world := world.(pc := AfterLook(world.pc, n));
      Note(false, before);
    }

    /** `set_pending`. */
    method SetPending(on: bool, others: (nat, State, nat) -> seq<Action>)
      requires Running() && Passes(others, settle, bound) && world.pc == if on then Set else Unset
      modifies this`world, this`k, this`acts
      ensures Running() && old(acts) <= acts && world.pending == on && world.clock >= old(world).clock
      ensures world.pc == if on then Settle(world.clock) else Pause
      ensures (old(world).otherSet ==> world.otherSet) && (on ==> !world.otherCleared)
    {
      Sleep(0, others);
      ghost var before := world;
      if on {
        world := world.(pc := Settle(world.clock), pending := true, otherCleared := false);
      } else {
        world := world.(pc := Pause, pending := false);
      }
      Note(false, before);
    }

    /** `sleep(settle)`. */
    method SettleDown(others: (nat, State, nat) -> seq<Action>)
      requires Running() && Passes(others, settle, bound) && world.pc == Settle(world.clock)
      modifies this`world, this`k, this`acts
      ensures Running() && old(acts) <= acts && Since(old(world), world) && world.pc == Recheck(old(world).clock)
    {
      Sleep(settle, others);
      ghost var before := world;
      world := world.(pc := Recheck(world.pc.setAt));
      Note(false, before);
    }

    /** The end of a round: stop if the time is up, else `sleep(poll)`. */
    method EndRound(waited: nat, max: nat, poll: nat, started: nat, others: (nat, State, nat) -> seq<Action>)
        returns (stop: bool)
      requires Running() && Passes(others, settle, bound) && world.pc.Pause? && world.clock >= started + waited
      modifies this`world, this`k, this`acts
      ensures Running() && old(acts) <= acts && Since(old(world), world)
      ensures world.pc == if stop then GaveUp else Look
      ensures if stop then world.clock >= started + max
              else waited < max && world.clock >= started + waited + poll
    {
      Sleep(0, others);
      stop := waited >= max || world.clock - started >= max;
      ghost var before := world;
      world := world.(pc := if stop then GaveUp else Look);
      Note(stop, before);
      if !stop {
        Sleep(poll, others);
      }
    }

    /** `wait_until_idle_then_seal_with`, while others do as they please: all of it is a run of the machine above. A
        true answer comes right after two idle looks with the flag set in between, a false one only after `max`. */
    method WaitUntilIdleThenSeal(max: nat, poll: nat, others: (nat, State, nat) -> seq<Action>)
        returns (sealed: bool, looks: seq<nat>, rounds: nat)
      requires poll > 0 && Running() && Passes(others, settle, bound) && world.pc.Look?
      modifies this
      ensures Running() && old(acts) <= acts && world.pc == if sealed then Sealed else GaveUp
      ensures sealed ==> |looks| >= 2 && looks[|looks| - 2] == 0 && looks[|looks| - 1] == 0 && world.live == 0
      ensures sealed && !world.otherCleared ==> world.pending
      ensures !sealed && world.pending && !world.otherSet ==> old(world).pending && 0 !in looks
      ensures !sealed ==> world.clock >= old(world).clock + max
      ensures 1 <= rounds <= CeilDiv(max, poll) + 1
    {
      var waited, started := 0, world.clock;
      looks, rounds := [], 0;
      while true
        invariant Running() && old(acts) <= acts && world.pc.Look?
        invariant waited == rounds * poll && world.clock >= started + waited
        invariant rounds <= CeilDiv(max, poll)
        invariant world.pending && !world.otherSet ==> old(world).pending && 0 !in looks
        decreases CeilDiv(max, poll) - rounds
      {
        rounds := rounds + 1;
        var n := Live(others);
        looks := looks + [n];
        if n == 0 {
          SetPending(true, others);
          SettleDown(others);
          n := Live(others);
          looks := looks + [n];
          if n == 0 {
            return true, looks, rounds;
          }
          SetPending(false, others);
        }
        var stop := EndRound(waited, max, poll, started, others);
        if stop {
          return false, looks, rounds;
        }
        RoundsBounded(rounds - 1, max, poll);
        waited := waited + poll;
      }
    }
  }
}
