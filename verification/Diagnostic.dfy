/** Diagnostic mode: the startup phase, the check that explains it, and resuming exactly once. */
module Diagnostic {
  import opened Text

  datatype Work = HomesGc | DriverVolumeProvisioner | CudaRuntimeProvisioner | ImagePulls | ImagePruning | HostProbes

  datatype Fault = RuntimeUnusable(detail: string) | CleanupUnresolved(detail: string)
                 | PolicyJournalCorrupt | PolicyJournalWriteFailed

  /** One cleanup pass: the error of each half, if it had one. */
  datatype Attempt = Attempt(engine: Option<string>, retirement: Option<string>)

  datatype Phase = Diagnosing(fault: Fault) | Normal

  datatype Transition = StillDiagnostic | Resumed | AlreadyNormal

  predicate IsJournal(f: Fault) {
    f.PolicyJournalCorrupt? || f.PolicyJournalWriteFailed?
  }

  /** `CleanupAttempt::fault`: the engine's first, whenever both failed. */
  function FaultOf(a: Attempt): (f: Option<Fault>)
    ensures f.None? <==> a.engine.None? && a.retirement.None?
    ensures a.engine.Some? ==> f == Some(RuntimeUnusable(a.engine.value))
    ensures f.Some? ==> !IsJournal(f.value)
  {
    if a.engine.Some? then Some(RuntimeUnusable(a.engine.value))
    else if a.retirement.Some? then Some(CleanupUnresolved(a.retirement.value))
    else None
  }

  /** `Phase::may_start`. */
  predicate PhaseMayStart(p: Phase, w: Work) {
    match p
    case Normal => true
    case Diagnosing(f) => IsJournal(f) && (w.ImagePulls? || w.ImagePruning?)
  }

  const STARTUP_CLEANUP_ID := "startup_cleanup"
  const POLICY_JOURNAL_ID := "policy_journal"

  /** The ID of the check that explains a fault. */
  function CheckId(f: Fault): string {
    if IsJournal(f) then POLICY_JOURNAL_ID else STARTUP_CLEANUP_ID
  }

  /** A retained check: the fault it explains, and when it was observed. */
  datatype Check = Check(fault: Fault, at: nat)

  /** What a station holds: its phase, the retained checks by ID, how often it resumed, and the value its watch
      channel carries. */
  datatype State = State(phase: Phase, retained: map<string, Check>, resumes: nat, resumed: bool)

  /** `ReadinessReport::retain`: an older observation does not replace a newer one. */
  function Retain(retained: map<string, Check>, f: Fault, at: nat): map<string, Check> {
    if CheckId(f) in retained && at < retained[CheckId(f)].at then retained else retained[CheckId(f) := Check(f, at)]
  }

  function Forget(retained: map<string, Check>, id: string): map<string, Check> {
    map x | x in retained && x != id :: retained[x]
  }

  function StateOf(f: Fault, at: nat): State {
    State(Diagnosing(f), Retain(map[], f, at), 0, false)
  }

  /** `Startup::observe`. */
  function PhaseAfter(p: Phase, retry: Attempt): (Phase, Transition) {
    if p.Normal? then (p, AlreadyNormal)
    else if IsJournal(p.fault) then (p, StillDiagnostic)
    else
      match FaultOf(retry)
      case Some(f) => (Diagnosing(f), StillDiagnostic)
      case None => (Normal, Resumed)
  }

  /** `Station::observe`. */
  function After(s: State, retry: Attempt, at: nat): State {
    var (phase, transition) := PhaseAfter(s.phase, retry);
    match transition
    case AlreadyNormal => s
    case StillDiagnostic =>
      State(phase, if phase.Diagnosing? then Retain(s.retained, phase.fault, at) else s.retained, s.resumes, s.resumed)
    case Resumed => State(phase, Forget(s.retained, STARTUP_CLEANUP_ID), s.resumes + 1, true)
  }

  // ---- what holds of every station -----------------------------------------------------------

  /** Phase, resume count, watch value and retained checks say the same thing. */
  predicate Agree(s: State) {
    && s.phase.Normal? == (s.resumes == 1) == s.resumed == (s.retained == map[])
    && s.resumes <= 1
    && (s.phase.Diagnosing? ==> s.retained.Keys == {CheckId(s.phase.fault)})
  }

  lemma {:induction false} StationStarts(f: Fault, at: nat)
    ensures Agree(StateOf(f, at))
  {
    assert CheckId(f) in StateOf(f, at).retained;
  }

  lemma {:induction false} ObserveKeepsAgree(s: State, retry: Attempt, at: nat)
    requires Agree(s)
    ensures Agree(After(s, retry, at))
  {
    var s' := After(s, retry, at);
    if s.phase.Diagnosing? {
      if s'.phase.Normal? {
        assert s'.retained == map[];
      } else {
        assert CheckId(s'.phase.fault) in s'.retained;
      }
    }
  }

  /** A retry pass, and when it was observed. */
  datatype Retry = Retry(attempt: Attempt, at: nat)

  function Runs(s: State, retries: seq<Retry>): State
    decreases |retries|
  {
    if retries == [] then s else Runs(After(s, retries[0].attempt, retries[0].at), retries[1..])
  }

  /** How many of the retries were told to resume. */
  function Resumes(s: State, retries: seq<Retry>): nat
    decreases |retries|
  {
    if retries == [] then 0
    else
      (if PhaseAfter(s.phase, retries[0].attempt).1.Resumed? then 1 else 0)
      + Resumes(After(s, retries[0].attempt, retries[0].at), retries[1..])
  }

  /** Over every sequence of retries the four views of a station agree, and it resumes at most once. */
  lemma {:induction false} ViewsAgree(s: State, retries: seq<Retry>)
    requires Agree(s)
    ensures Agree(Runs(s, retries))
    ensures s.resumes + Resumes(s, retries) == Runs(s, retries).resumes <= 1
    decreases |retries|
  {
    if retries != [] {
      ObserveKeepsAgree(s, retries[0].attempt, retries[0].at);
      ViewsAgree(After(s, retries[0].attempt, retries[0].at), retries[1..]);
    }
  }

  /** Normal is absorbing, and a journal fault never resumes. */
  lemma {:induction false} SettledPhases(s: State, retries: seq<Retry>)
    ensures s.phase.Normal? ==> Runs(s, retries) == s
    ensures s.phase.Diagnosing? && IsJournal(s.phase.fault) ==> Runs(s, retries).phase == s.phase
    decreases |retries|
  {
    if retries != [] {
      SettledPhases(After(s, retries[0].attempt, retries[0].at), retries[1..]);
    }
  }

  /** A station resumes exactly when it has no journal fault and some retry was clean in both halves. */
  lemma {:induction false} ResumesIffClean(s: State, retries: seq<Retry>)
    requires s.phase.Diagnosing?
    ensures Runs(s, retries).phase.Normal? <==>
            !IsJournal(s.phase.fault) && exists i :: 0 <= i < |retries| && FaultOf(retries[i].attempt).None?
    decreases |retries|
  {
    if IsJournal(s.phase.fault) {
      SettledPhases(s, retries);
    } else if retries != [] {
      var s' := After(s, retries[0].attempt, retries[0].at);
      if s'.phase.Normal? {
        SettledPhases(s', retries[1..]);
      } else {
        ResumesIffClean(s', retries[1..]);
        ShiftExists(retries);
      }
    }
  }

  lemma {:induction false} ShiftExists(retries: seq<Retry>)
    requires retries != [] && FaultOf(retries[0].attempt).Some?
    ensures (exists i :: 0 <= i < |retries| && FaultOf(retries[i].attempt).None?)
       <==> (exists i :: 0 <= i < |retries| - 1 && FaultOf(retries[1..][i].attempt).None?)
  {
    if i :| 0 <= i < |retries| && FaultOf(retries[i].attempt).None? {
      assert retries[1..][i - 1] == retries[i];
    }
  }

  // ---- what the retained check tells ---------------------------------------------------------

  /** The retained check explains the fault the station is in now. */
  predicate Explains(s: State) {
    s.phase.Diagnosing? ==>
      CheckId(s.phase.fault) in s.retained && s.retained[CheckId(s.phase.fault)].fault == s.phase.fault
  }

  /** One observation that leaves the station in diagnosis: the check explains the fault after it if and only if it
      was not observed earlier than the one held, or the one held tells the same fault. */
  lemma {:induction false} ExplainsAfterRetry(s: State, retry: Attempt, at: nat)
    requires Agree(s) && s.phase.Diagnosing? && !IsJournal(s.phase.fault) && FaultOf(retry).Some?
    ensures var held := s.retained[STARTUP_CLEANUP_ID];
            Explains(After(s, retry, at)) <==> at >= held.at || held.fault == FaultOf(retry).value
  {
    assert STARTUP_CLEANUP_ID in s.retained;
  }

  /** The check a retry that failed would leave on its own. */
  function Observed(r: Retry): Check
    requires FaultOf(r.attempt).Some?
  {
    Check(FaultOf(r.attempt).value, r.at)
  }

  predicate AllFail(retries: seq<Retry>) {
    forall i :: 0 <= i < |retries| ==> FaultOf(retries[i].attempt).Some?
  }

  /** All the checks there were: the one held at the start, then one from each retry. */
  function Checks(held: Check, retries: seq<Retry>): (r: seq<Check>)
    requires AllFail(retries)
    ensures |r| == |retries| + 1
  {
    [held] + seq(|retries|, i requires 0 <= i < |retries| => Observed(retries[i]))
  }

  /** The newest of some checks, the last of them if several are equally new. */
  predicate IsNewest(checks: seq<Check>, j: nat) {
    j < |checks|
    && (forall i :: 0 <= i < |checks| ==> checks[i].at <= checks[j].at)
    && (forall i :: j < i < |checks| ==> checks[i].at < checks[j].at)
  }

  lemma {:induction false} NewestIsRetained(s: State, retries: seq<Retry>) returns (j: nat)
    requires Agree(s) && s.phase.Diagnosing? && !IsJournal(s.phase.fault) && AllFail(retries)
    ensures var checks := Checks(s.retained[STARTUP_CLEANUP_ID], retries);
            var end := Runs(s, retries);
            IsNewest(checks, j) && end.retained == map[STARTUP_CLEANUP_ID := checks[j]]
            && end.phase == if retries == [] then s.phase else Diagnosing(checks[|checks| - 1].fault)
    decreases |retries|
  {
    assert STARTUP_CLEANUP_ID in s.retained;
    var held := s.retained[STARTUP_CLEANUP_ID];
    var checks := Checks(held, retries);
    if retries == [] {
      j := 0;
      assert s.retained == map[STARTUP_CLEANUP_ID := held];
    } else {
      var s' := After(s, retries[0].attempt, retries[0].at);
      ObserveKeepsAgree(s, retries[0].attempt, retries[0].at);
      var k := NewestIsRetained(s', retries[1..]);
      var rest := Checks(s'.retained[STARTUP_CLEANUP_ID], retries[1..]);
      j := NewestOfMore(checks, rest, k);
    }
  }

  /** The newer of the first two stands for both. */
  lemma {:induction false} NewestOfMore(checks: seq<Check>, rest: seq<Check>, k: nat) returns (j: nat)
    requires |checks| >= 2 && |rest| == |checks| - 1 && IsNewest(rest, k)
    requires rest[0] == if checks[1].at < checks[0].at then checks[0] else checks[1]
    requires forall i :: 1 <= i < |rest| ==> rest[i] == checks[i + 1]
    ensures IsNewest(checks, j) && checks[j] == rest[k]
  {
    j := if k == 0 && checks[1].at < checks[0].at then 0 else k + 1;
    forall i | 2 <= i < |checks|
      ensures checks[i] == rest[i - 1]
    {}
  }

  /** Over every sequence of failing retries: the check explains the present fault if and only if the newest
      observation, the last of the newest, told that same fault. */
  lemma {:induction false} ExplainsIffNewestAgrees(s: State, retries: seq<Retry>, j: nat)
    requires Agree(s) && s.phase.Diagnosing? && !IsJournal(s.phase.fault) && AllFail(retries) && retries != []
    requires IsNewest(Checks(s.retained[STARTUP_CLEANUP_ID], retries), j)
    ensures Explains(Runs(s, retries)) <==>
            Checks(s.retained[STARTUP_CLEANUP_ID], retries)[j].fault == FaultOf(retries[|retries| - 1].attempt).value
  {
    var checks := Checks(s.retained[STARTUP_CLEANUP_ID], retries);
    var k := NewestIsRetained(s, retries);
    assert j == k;
    assert checks[|checks| - 1] == Observed(retries[|retries| - 1]);
    NeverJournal(s, retries);
  }

  predicate ClockOk(clock: nat, retries: seq<Retry>)
    decreases |retries|
  {
    retries == [] || (clock <= retries[0].at && ClockOk(retries[0].at, retries[1..]))
  }

  /** So it always does while the clock does not step back, for a journal fault too. */
  lemma {:induction false} CheckExplains(s: State, clock: nat, retries: seq<Retry>)
    requires Agree(s) && Explains(s) && ClockOk(clock, retries)
    requires forall id :: id in s.retained ==> s.retained[id].at <= clock
    ensures Explains(Runs(s, retries))
    decreases |retries|
  {
    if retries != [] {
      ObserveKeepsAgree(s, retries[0].attempt, retries[0].at);
      CheckExplains(After(s, retries[0].attempt, retries[0].at), retries[0].at, retries[1..]);
    }
  }

  // ---- the objects ---------------------------------------------------------------------------

  class Startup {
    var phase: Phase

    /** `Startup::begin`. */
    constructor (first: Attempt)
      ensures phase == match FaultOf(first) case Some(f) => Diagnosing(f) case None => Normal
    {
      phase := match FaultOf(first) case Some(f) => Diagnosing(f) case None => Normal;
    }

    /** A phase fixed from the start, as for a broken journal. */
    constructor Fixed(phase: Phase)
      ensures this.phase == phase
    {
      this.phase := phase;
    }

    /** `Startup::observe`. */
    method Observe(retry: Attempt) returns (transition: Transition)
      modifies this
      ensures (phase, transition) == PhaseAfter(old(phase), retry)
    {
      if phase.Normal? {
        return AlreadyNormal;
      }
      if IsJournal(phase.fault) {
        return StillDiagnostic;
      }
      var fault := FaultOf(retry);
      if fault.Some? {
        phase := Diagnosing(fault.value);
        return StillDiagnostic;
      }
      phase := Normal;
      return Resumed;
    }
  }

  class Station {
    const startup: Startup
    var retained: map<string, Check>
    var resumes: nat
    var resumed: bool

    ghost function View(): State
      reads this, startup
    {
      State(startup.phase, retained, resumes, resumed)
    }

    /** `Station::from_startup`, for a phase that has a fault. */
    constructor (f: Fault, at: nat)
      ensures fresh(startup) && View() == StateOf(f, at) && Agree(View())
    {
      startup := new Startup.Fixed(Diagnosing(f));
      retained, resumes, resumed := Retain(map[], f, at), 0, false;
      new;
      StationStarts(f, at);
    }

    /** `Station::observe`. */
    method Observe(retry: Attempt, at: nat) returns (transition: Transition)
      requires Agree(View())
      modifies this, startup
      ensures View() == After(old(View()), retry, at) && Agree(View())
      ensures transition == PhaseAfter(old(startup.phase), retry).1
    {
      ObserveKeepsAgree(View(), retry, at);
      transition := startup.Observe(retry);
      match transition
      case StillDiagnostic =>
        if startup.phase.Diagnosing? {
          retained := Retain(retained, startup.phase.fault, at);
        }
      case Resumed =>
        retained := Forget(retained, STARTUP_CLEANUP_ID);
        resumes := resumes + 1;
        resumed := true;
      case AlreadyNormal =>
    }

    /** `Station::host_probes_withheld`. */
    predicate HostProbesWithheld()
      reads this, startup
    {
      startup.phase.Diagnosing?
    }
  }

  /** `Station::enter`: none when the first pass was clean. */
  method Enter(first: Attempt, at: nat) returns (station: Station?)
    ensures station == null <==> FaultOf(first).None?
    ensures station != null ==> fresh(station) && fresh(station.startup)
    ensures station != null ==> station.View() == StateOf(FaultOf(first).value, at) && Agree(station.View())
  {
    var fault := FaultOf(first);
    station := null;
    if fault.Some? {
      station := new Station(fault.value, at);
    }
  }

  // ---- the process ---------------------------------------------------------------------------

  /** Work the whole process may start: what every installed station allows. */
  predicate AllMayStart(phases: seq<Phase>, w: Work) {
    forall i :: 0 <= i < |phases| ==> PhaseMayStart(phases[i], w)
  }

  predicate AnyDiagnosing(phases: seq<Phase>) {
    exists i :: 0 <= i < |phases| && phases[i].Diagnosing?
  }

  /** The probe orchestrator's flag and the general gate agree. */
  lemma {:induction false} WithheldIsNotAllowed(phases: seq<Phase>)
    ensures AnyDiagnosing(phases) <==> !AllMayStart(phases, HostProbes)
  {
    if i :| 0 <= i < |phases| && phases[i].Diagnosing? {
      assert !PhaseMayStart(phases[i], HostProbes);
    }
  }

  /** Retries never take back what a station allowed. */
  lemma {:induction false} AllowedStaysAllowed(s: State, retries: seq<Retry>, w: Work)
    requires PhaseMayStart(s.phase, w)
    ensures PhaseMayStart(Runs(s, retries).phase, w)
  {
    SettledPhases(s, retries);
  }

  predicate ImageWork(w: Work) {
    w.ImagePulls? || w.ImagePruning?
  }

  /** What a station lets start, over every sequence of retries: everything once it resumed, and before that
      nothing, or image work alone under a journal fault. */
  lemma {:induction false} WorkAllowed(f: Fault, at: nat, retries: seq<Retry>, w: Work)
    ensures var s := Runs(StateOf(f, at), retries);
            PhaseMayStart(s.phase, w) <==> s.resumes == 1 || (IsJournal(f) && ImageWork(w))
  {
    var s0 := StateOf(f, at);
    StationStarts(f, at);
    ViewsAgree(s0, retries);
    if IsJournal(f) {
      SettledPhases(s0, retries);
    } else {
      NeverJournal(s0, retries);
    }
  }

  /** Retries never find a journal fault. */
  lemma {:induction false} NeverJournal(s: State, retries: seq<Retry>)
    requires s.phase.Diagnosing? ==> !IsJournal(s.phase.fault)
    ensures Runs(s, retries).phase.Diagnosing? ==> !IsJournal(Runs(s, retries).phase.fault)
    decreases |retries|
  {
    if retries != [] {
      NeverJournal(After(s, retries[0].attempt, retries[0].at), retries[1..]);
    }
  }

  class Process {
    var stations: seq<Station>

    ghost function Phases(): seq<Phase>
      reads this, stations, set s | s in stations :: s.startup
    {
      seq(|stations|, i requires 0 <= i < |stations| reads this, stations, set s | s in stations :: s.startup =>
        stations[i].startup.phase)
    }

    /** `install_process_wide`: a station is installed once, and none is ever dropped. */
    method Install(station: Station)
      modifies this
      ensures station in stations
      ensures forall s :: s in stations <==> s in old(stations) || s == station
      ensures station in old(stations) ==> stations == old(stations)
    {
      if station !in stations {
        stations := stations + [station];
      }
    }

    /** `may_start`. */
    method MayStart(w: Work) returns (allowed: bool)
      ensures allowed == AllMayStart(Phases(), w)
    {
      for i := 0 to |stations|
        invariant forall k :: 0 <= k < i ==> PhaseMayStart(stations[k].startup.phase, w)
      {
        if !PhaseMayStart(stations[i].startup.phase, w) {
          assert Phases()[i] == stations[i].startup.phase;
          return false;
        }
      }
      return true;
    }

    /** `host_probes_withheld`: exactly when host probes may not start. */
    method HostProbesWithheld() returns (withheld: bool)
      ensures withheld == !AllMayStart(Phases(), HostProbes)
    {
      WithheldIsNotAllowed(Phases());
      for i := 0 to |stations|
        invariant forall k :: 0 <= k < i ==> !stations[k].startup.phase.Diagnosing?
      {
        if stations[i].HostProbesWithheld() {
          assert Phases()[i] == stations[i].startup.phase;
          return true;
        }
      }
      return false;
    }
  }
}
