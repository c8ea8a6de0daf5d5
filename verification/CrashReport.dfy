/** The fatal-signal reporter: handlers on any number of threads, nested on one thread at any point, sharing
    four atomics and one static scratch area. */
module CrashReport {
  import opened Text

  /** SIGILL, SIGTRAP, SIGABRT, SIGBUS, SIGFPE, SIGSEGV. */
  const SIGNALS: set<nat> := {4, 5, 6, 7, 8, 11}
  const SIGTRAP: nat := 5
  const SIGBUS: nat := 7
  const SIGSEGV: nat := 11
  const WAIT_FOR_REPORT_MS: nat := 2000

  /** What was installed before the reporter. */
  datatype Previous = Default | Ignore | Other

  /** Why the process ends: by a handler (re-entry, a wait that is over, retiring, a signal another process
      sent), or by the kernel (a signal the reporter no longer catches, a fault whose number thread `t` has
      blocked, no room for a handler's frame). */
  datatype Cause = Reentry | Waited(since: nat) | Retired | Sent | Uncaught | Blocked(t: nat) | NoRoom

  /** Where a handler is: about to do the thing named. */
  datatype Pc =
    | Enter
    | CheckTid
    | LoadSignal
    | StartWait
    | Wait(started: nat)
    | AfterWait(started: nat)
    | StoreSignal
    | StoreTid
    | Report
    | ClearTid
    | MarkDone
    | Retire
    | Die(of: nat, cause: Cause)

  /** One running handler: its signal, whether that was raised rather than a fault, and whether another
      process sent it. */
  datatype Frame = Frame(signal: nat, sent: bool, foreign: bool, pc: Pc)

  /** How far the one report has come. */
  datatype Stage = Idle | Won | SignalStored | InReport | Reported | TidCleared | Done

  /** The handler that won `REPORTING`: its place, its signal, and when it won. */
  datatype Winner = Winner(tid: nat, depth: nat, signal: nat, at: nat)

  datatype End = End(of: nat, cause: Cause)

  /** What all threads share: the atomics, the dispositions, the clock; then the history the properties speak
      of: who won, how far the report came, how often it was entered, and how the process ended. */
  datatype Shared = Shared(
    reporting: bool,
    reporterTid: nat,
    reportedSignal: nat,
    reportDone: bool,
    sentOnce: set<nat>,
    handled: set<nat>,
    clock: nat,
    winner: Option<Winner>,
    stage: Stage,
    entered: nat,
    ended: Option<End>)

  const Start := Shared(false, 0, 0, false, {}, SIGNALS, 0, None, Idle, 0, None)

  /** `runs_again`. */
  predicate RunsAgain(signal: nat, sent: bool) {
    !sent && signal != SIGTRAP
  }

  // ---- one step of one handler ---------------------------------------------------------------

  /** What the handler does next, or that it returned. */
  datatype Then = Goto(pc: Pc) | Return

  /** The step of a handler that runs the report. */
  function WinnerStep(sh: Shared, t: nat, f: Frame): (Shared, Then)
    requires f.pc.StoreSignal? || f.pc.StoreTid? || f.pc.Report? || f.pc.ClearTid? || f.pc.MarkDone? || f.pc.Retire?
  {
    match f.pc
    case StoreSignal => (sh.(reportedSignal := f.signal, stage := SignalStored), Goto(StoreTid))
    case StoreTid => (sh.(reporterTid := t, stage := InReport, entered := sh.entered + 1), Goto(Report))
    case Report => (sh.(stage := Reported), Goto(ClearTid))
    case ClearTid => (sh.(reporterTid := 0, stage := TidCleared), Goto(MarkDone))
    case MarkDone => (sh.(reportDone := true, stage := Done), Goto(Retire))
    case Retire =>
      (sh.(handled := {}), if RunsAgain(f.signal, f.sent) then Return else Goto(Die(f.signal, Retired)))
  }

  /** The step of a handler that found the report taken. */
  function LoserStep(sh: Shared, t: nat, f: Frame): (Shared, Then)
    requires f.pc.CheckTid? || f.pc.LoadSignal? || f.pc.StartWait? || f.pc.Wait? || f.pc.AfterWait?
  {
    match f.pc
    case CheckTid => (sh, Goto(if t == sh.reporterTid then LoadSignal else StartWait))
    case LoadSignal => (sh, Goto(Die(sh.reportedSignal, Reentry)))
    case StartWait => (sh, Goto(Wait(sh.clock)))
    case Wait(started) =>
      (sh, Goto(if !sh.reportDone && sh.clock < started + WAIT_FOR_REPORT_MS then f.pc else AfterWait(started)))
    case AfterWait(started) =>
      if RunsAgain(f.signal, f.sent) then (sh.(handled := sh.handled - {f.signal}), Return)
      else (sh, Goto(Die(f.signal, Waited(started))))
  }

  /** `sent_by_another`: the first SIGSEGV or SIGBUS another process sends is ignored where Rust's own handler
      was installed before, and everything else kills. */
  function SentStep(sh: Shared, f: Frame, previous: nat -> Previous): (Shared, Then) {
    match previous(f.signal)
    case Ignore => (sh, Return)
    case Default => (sh, Goto(Die(f.signal, Sent)))
    case Other =>
      (sh.(sentOnce := sh.sentOnce + {f.signal}),
       if f.signal in sh.sentOnce then Goto(Die(f.signal, Sent)) else Return)
  }

  /** One step of the handler `f`, which is the innermost of `depth + 1` on thread `t`. */
  function HandlerStep(sh: Shared, t: nat, depth: nat, f: Frame, previous: nat -> Previous): (Shared, Then) {
    match f.pc
    case Enter =>
      if f.foreign then SentStep(sh, f, previous)
      else if sh.reporting then (sh, Goto(CheckTid))
      else
        (sh.(reporting := true, stage := Won, winner := Some(Winner(t, depth, f.signal, sh.clock))), Goto(StoreSignal))
    case Die(of, cause) => (sh.(ended := Some(End(of, cause))), Return)
    case CheckTid => LoserStep(sh, t, f)
    case LoadSignal => LoserStep(sh, t, f)
    case StartWait => LoserStep(sh, t, f)
    case Wait(_) => LoserStep(sh, t, f)
    case AfterWait(_) => LoserStep(sh, t, f)
    case _ => WinnerStep(sh, t, f)
  }

  // ---- what holds ----------------------------------------------------------------------------

  /** The report is over, or two seconds passed since it began. */
  predicate Late(sh: Shared) {
    sh.reportDone || (sh.winner.Some? && sh.clock >= sh.winner.value.at + WAIT_FOR_REPORT_MS)
  }

  predicate EndOk(sh: Shared, e: End) {
    match e.cause
    case Reentry => sh.winner.Some? && e.of == sh.winner.value.signal
    case Waited(since) => sh.reportDone || sh.clock >= since + WAIT_FOR_REPORT_MS
    case Retired => sh.reportDone
    case Sent => true
    case Uncaught => Late(sh)
    case Blocked(_) => true
    case NoRoom => e.of == SIGSEGV
  }

  predicate CauseOk(sh: Shared, e: End) {
    EndOk(sh, e) && (e.cause.Waited? || e.cause.Retired? ==> Late(sh))
  }

  predicate ByHandler(c: Cause) {
    c.Reentry? || c.Waited? || c.Retired? || c.Sent?
  }

  predicate AtomicsOk(sh: Shared) {
    && sh.reporting == sh.winner.Some? == !sh.stage.Idle?
    && sh.reporterTid == (if sh.stage.InReport? || sh.stage.Reported? then sh.winner.value.tid else 0)
    && (!sh.stage.Idle? && !sh.stage.Won? ==> sh.reportedSignal == sh.winner.value.signal)
    && sh.reportDone == sh.stage.Done?
  }

  predicate HistoryOk(sh: Shared) {
    && (sh.winner.Some? ==> sh.winner.value.at <= sh.clock && sh.winner.value.tid != 0)
    && sh.entered == (if sh.stage.Idle? || sh.stage.Won? || sh.stage.SignalStored? then 0 else 1)
    && (sh.handled != SIGNALS ==> Late(sh))
    && (sh.ended.Some? ==> CauseOk(sh, sh.ended.value))
  }

  predicate SharedOk(sh: Shared) {
    AtomicsOk(sh) && HistoryOk(sh)
  }

  predicate IsWinner(sh: Shared, t: nat, i: nat, f: Frame) {
    sh.winner.Some? && sh.winner.value.tid == t && sh.winner.value.depth == i && sh.winner.value.signal == f.signal
  }

  /** What holds of the handler at depth `i` of thread `t`. */
  predicate FrameOk(sh: Shared, t: nat, i: nat, f: Frame) {
    t != 0 &&
    match f.pc
    case Enter => true
    case CheckTid => sh.winner.Some?
    case LoadSignal =>
      sh.winner.Some? && sh.winner.value.tid == t && sh.winner.value.depth < i
      && (sh.stage.InReport? || sh.stage.Reported?)
    case StartWait => sh.winner.Some?
    case Wait(started) => sh.winner.Some? && sh.winner.value.at <= started <= sh.clock
    case AfterWait(started) => Late(sh) && (sh.reportDone || sh.clock >= started + WAIT_FOR_REPORT_MS)
    case StoreSignal => IsWinner(sh, t, i, f) && sh.stage.Won?
    case StoreTid => IsWinner(sh, t, i, f) && sh.stage.SignalStored?
    case Report => IsWinner(sh, t, i, f) && sh.stage.InReport?
    case ClearTid => IsWinner(sh, t, i, f) && sh.stage.Reported?
    case MarkDone => IsWinner(sh, t, i, f) && sh.stage.TidCleared?
    case Retire => IsWinner(sh, t, i, f) && sh.stage.Done?
    case Die(of, cause) => CauseOk(sh, End(of, cause)) && ByHandler(cause)
  }

  // ---- one handler's step keeps it -----------------------------------------------------------

  /** The innermost handler of a thread: if it stands above the winner of a report in progress, it is not the
      winner itself, because that one is elsewhere in its code. */
  predicate ActorOk(sh: Shared, t: nat, d: nat, f: Frame) {
    SharedOk(sh) && sh.ended.None? && FrameOk(sh, t, d, f)
    && (f.pc.CheckTid? && t == sh.reporterTid ==> sh.winner.value.depth < d)
  }

  lemma {:induction false} WinnerStepOk(sh: Shared, t: nat, d: nat, f: Frame, previous: nat -> Previous)
    requires ActorOk(sh, t, d, f)
    requires f.pc.StoreSignal? || f.pc.StoreTid? || f.pc.Report? || f.pc.ClearTid? || f.pc.MarkDone? || f.pc.Retire?
    ensures var (sh', next) := HandlerStep(sh, t, d, f, previous);
            SharedOk(sh') && (next.Goto? ==> FrameOk(sh', t, d, f.(pc := next.pc)))
  {}

  lemma {:induction false} LoserStepOk(sh: Shared, t: nat, d: nat, f: Frame, previous: nat -> Previous)
    requires ActorOk(sh, t, d, f)
    requires f.pc.CheckTid? || f.pc.LoadSignal? || f.pc.StartWait? || f.pc.Wait? || f.pc.AfterWait?
    ensures var (sh', next) := HandlerStep(sh, t, d, f, previous);
            SharedOk(sh') && (next.Goto? ==> FrameOk(sh', t, d, f.(pc := next.pc)))
  {}

  lemma {:induction false} EnterOrDieOk(sh: Shared, t: nat, d: nat, f: Frame, previous: nat -> Previous)
    requires ActorOk(sh, t, d, f) && (f.pc.Enter? || f.pc.Die?)
    ensures var (sh', next) := HandlerStep(sh, t, d, f, previous);
            SharedOk(sh') && (next.Goto? ==> FrameOk(sh', t, d, f.(pc := next.pc)))
  {}

  lemma {:induction false} HandlerStepOk(sh: Shared, t: nat, d: nat, f: Frame, previous: nat -> Previous)
    requires ActorOk(sh, t, d, f)
    ensures var (sh', next) := HandlerStep(sh, t, d, f, previous);
            SharedOk(sh') && (next.Goto? ==> FrameOk(sh', t, d, f.(pc := next.pc)))
  {
    if f.pc.Enter? || f.pc.Die? {
      EnterOrDieOk(sh, t, d, f, previous);
    } else if f.pc.CheckTid? || f.pc.LoadSignal? || f.pc.StartWait? || f.pc.Wait? || f.pc.AfterWait? {
      LoserStepOk(sh, t, d, f, previous);
    } else {
      WinnerStepOk(sh, t, d, f, previous);
    }
  }

  /** Nothing a step does can be undone: the winner stays, and only the winner itself moves the stage. */
  predicate Forward(sh: Shared, sh': Shared, t: nat, d: nat) {
    && sh.clock <= sh'.clock
    && (sh.winner.Some? ==> sh'.winner == sh.winner)
    && (sh.reportDone ==> sh'.reportDone)
    && (sh.stage != sh'.stage ==> sh.winner.None? || (sh.winner.value.tid == t && sh.winner.value.depth == d))
  }

  lemma {:induction false} StepIsForward(sh: Shared, t: nat, d: nat, f: Frame, previous: nat -> Previous)
    requires ActorOk(sh, t, d, f)
    ensures Forward(sh, HandlerStep(sh, t, d, f, previous).0, t, d)
  {}

  /** A step on one thread keeps what holds of every other handler. */
  lemma {:induction false} OthersKept(sh: Shared, sh': Shared, t: nat, d: nat, t2: nat, i2: nat, f2: Frame)
    requires AtomicsOk(sh) && Forward(sh, sh', t, d) && FrameOk(sh, t2, i2, f2) && (t2 != t || i2 < d)
    ensures FrameOk(sh', t2, i2, f2)
  {}

  // ---- whole runs ----------------------------------------------------------------------------

  datatype State = State(sh: Shared, stacks: map<nat, seq<Frame>>)

  /** A signal: its number, whether it was raised rather than a fault, whether another process sent it, whether the
      stack it is to be handled on has room for a frame, and whether it ends the process when the reporter no
      longer catches it. */
  datatype Arrival = Arrival(signal: nat, sent: bool, foreign: bool, room: bool, fatal: bool)

  /** Time passes; a signal arrives on a thread, at any point of whatever it runs; a thread's innermost handler
      takes a step. */
  datatype Action = Tick(ms: nat) | Signal(t: nat, arrival: Arrival) | Run(t: nat)

  function Stack(s: State, t: nat): seq<Frame> {
    if t in s.stacks then s.stacks[t] else []
  }

  /** Actions that cannot happen leave the state alone, as does everything after the end. */
  function Step(s: State, a: Action, previous: nat -> Previous): State {
    if s.sh.ended.Some? then s
    else
      match a
      case Tick(ms) => s.(sh := s.sh.(clock := s.sh.clock + ms))
      case Signal(t, arrival) => if t == 0 || arrival.signal !in SIGNALS then s else SignalStep(s, t, arrival)
      case Run(t) => if Stack(s, t) == [] then s else RunStep(s, t, previous)
  }

  /** While a handler runs, its own signal is blocked on its thread; the others are not. */
  predicate Masked(stack: seq<Frame>, signal: nat) {
    exists i :: 0 <= i < |stack| && stack[i].signal == signal
  }

  /** A blocked signal that was raised stays pending; a blocked fault ends the process by its default action; and
      without room for a frame the kernel ends it with SIGSEGV. */
  function SignalStep(s: State, t: nat, a: Arrival): State {
    if a.signal !in s.sh.handled then
      if a.fatal then s.(sh := s.sh.(ended := Some(End(a.signal, Uncaught)))) else s
    else if Masked(Stack(s, t), a.signal) then
      if a.sent then s else s.(sh := s.sh.(ended := Some(End(a.signal, Blocked(t)))))
    else if !a.room then s.(sh := s.sh.(ended := Some(End(SIGSEGV, NoRoom))))
    else s.(stacks := s.stacks[t := Stack(s, t) + [Frame(a.signal, a.sent, a.sent && a.foreign, Enter)]])
  }

  function RunStep(s: State, t: nat, previous: nat -> Previous): State
    requires Stack(s, t) != []
  {
    var stack := s.stacks[t];
    var d := |stack| - 1;
    var (sh', next) := HandlerStep(s.sh, t, d, stack[d], previous);
    State(sh', s.stacks[t := Onward(stack, next)])
  }

  function Onward(stack: seq<Frame>, next: Then): seq<Frame>
    requires stack != []
  {
    var d := |stack| - 1;
    match next
    case Goto(pc) => stack[d := stack[d].(pc := pc)]
    case Return => stack[..d]
  }

  predicate FramesOk(sh: Shared, t: nat, stack: seq<Frame>) {
    forall i :: 0 <= i < |stack| ==> FrameOk(sh, t, i, stack[i])
  }

  /** Where the winner stands at each stage. */
  function PcOf(stage: Stage): Pc
    requires !stage.Idle? && !stage.Done?
  {
    match stage
    case Won => StoreSignal
    case SignalStored => StoreTid
    case InReport => Report
    case Reported => ClearTid
    case TidCleared => MarkDone
  }

  /** Until the report is done, the winner is on its thread's stack. */
  predicate WinnerThere(sh: Shared, t: nat, stack: seq<Frame>) {
    !sh.stage.Idle? && !sh.stage.Done? && sh.winner.Some? && sh.winner.value.tid == t ==>
      sh.winner.value.depth < |stack| && stack[sh.winner.value.depth].pc == PcOf(sh.stage)
  }

  predicate ThreadOk(s: State, t: nat) {
    FramesOk(s.sh, t, Stack(s, t)) && WinnerThere(s.sh, t, Stack(s, t))
  }

  /** A thread whose own mask ended the process runs a handler of that signal. */
  predicate BlockedOk(s: State) {
    s.sh.ended.Some? && s.sh.ended.value.cause.Blocked? ==>
      Masked(Stack(s, s.sh.ended.value.cause.t), s.sh.ended.value.of)
  }

  ghost predicate Inv(s: State) {
    SharedOk(s.sh) && BlockedOk(s) && forall t: nat :: ThreadOk(s, t)
  }

  lemma {:induction false} ActorIsOk(s: State, t: nat)
    requires Inv(s) && s.sh.ended.None? && Stack(s, t) != []
    ensures ActorOk(s.sh, t, |Stack(s, t)| - 1, Stack(s, t)[|Stack(s, t)| - 1])
  {
    assert ThreadOk(s, t);
    var d := |Stack(s, t)| - 1;
    assert FrameOk(s.sh, t, d, Stack(s, t)[d]);
  }

  lemma {:induction false} OnwardOk(sh: Shared, t: nat, stack: seq<Frame>, next: Then)
    requires stack != [] && FramesOk(sh, t, stack[..|stack| - 1])
    requires next.Goto? ==> FrameOk(sh, t, |stack| - 1, stack[|stack| - 1].(pc := next.pc))
    ensures FramesOk(sh, t, Onward(stack, next))
  {
    var d := |stack| - 1;
    assert forall i :: 0 <= i < d ==> stack[i] == stack[..d][i];
  }

  lemma {:induction false} BelowKept(s: State, t: nat, sh': Shared)
    requires Inv(s) && Stack(s, t) != [] && Forward(s.sh, sh', t, |Stack(s, t)| - 1)
    ensures FramesOk(sh', t, Stack(s, t)[..|Stack(s, t)| - 1])
  {
    assert ThreadOk(s, t);
    var stack := Stack(s, t);
    var d := |stack| - 1;
    forall i | 0 <= i < d
      ensures FrameOk(sh', t, i, stack[..d][i])
    {
      OthersKept(s.sh, sh', t, d, t, i, stack[i]);
    }
  }

  /** The running thread stays well. */
  lemma {:induction false} RunnerKept(s: State, t: nat, previous: nat -> Previous)
    requires Inv(s) && s.sh.ended.None? && Stack(s, t) != []
    ensures SharedOk(RunStep(s, t, previous).sh)
    ensures FramesOk(RunStep(s, t, previous).sh, t, Stack(RunStep(s, t, previous), t))
  {
    ActorIsOk(s, t);
    var stack := Stack(s, t);
    var d := |stack| - 1;
    var (sh', next) := HandlerStep(s.sh, t, d, stack[d], previous);
    HandlerStepOk(s.sh, t, d, stack[d], previous);
    StepIsForward(s.sh, t, d, stack[d], previous);
    BelowKept(s, t, sh');
    OnwardOk(sh', t, stack, next);
  }

  lemma {:induction false} WinnerMoves(sh: Shared, t: nat, d: nat, f: Frame, previous: nat -> Previous)
    requires ActorOk(sh, t, d, f)
    ensures var (sh', next) := HandlerStep(sh, t, d, f, previous);
            if sh'.stage == sh.stage then sh'.winner == sh.winner && !(IsWinner(sh, t, d, f) && f.pc == PcAt(sh.stage))
            else sh'.winner.Some? && sh'.winner.value.tid == t && sh'.winner.value.depth == d
                 && (sh'.stage.Done? || next == Goto(PcOf(sh'.stage)))
  {}

  function PcAt(stage: Stage): Pc {
    if stage.Idle? then StoreSignal else if stage.Done? then StoreSignal else PcOf(stage)
  }

  /** And the winner stays on its stack. */
  lemma {:induction false} RunnerWinnerThere(s: State, t: nat, previous: nat -> Previous)
    requires Inv(s) && s.sh.ended.None? && Stack(s, t) != []
    ensures WinnerThere(RunStep(s, t, previous).sh, t, Stack(RunStep(s, t, previous), t))
  {
    ActorIsOk(s, t);
    assert ThreadOk(s, t);
    var stack := Stack(s, t);
    var d := |stack| - 1;
    WinnerMoves(s.sh, t, d, stack[d], previous);
  }

  lemma {:induction false} OtherFramesKept(sh: Shared, sh': Shared, t: nat, d: nat, t2: nat, stack: seq<Frame>)
    requires AtomicsOk(sh) && Forward(sh, sh', t, d) && t2 != t && FramesOk(sh, t2, stack)
    ensures FramesOk(sh', t2, stack)
  {
    forall i | 0 <= i < |stack|
      ensures FrameOk(sh', t2, i, stack[i])
    {
      OthersKept(sh, sh', t, d, t2, i, stack[i]);
    }
  }

  /** A step of one thread moves no other thread's report. */
  lemma {:induction false} OtherWinnerThere(
      sh: Shared, t: nat, d: nat, f: Frame, previous: nat -> Previous, t2: nat, stack: seq<Frame>)
    requires ActorOk(sh, t, d, f) && t2 != t && WinnerThere(sh, t2, stack)
    ensures WinnerThere(HandlerStep(sh, t, d, f, previous).0, t2, stack)
  {
    WinnerMoves(sh, t, d, f, previous);
  }

  lemma {:induction false} OtherThreadKept(s: State, t: nat, previous: nat -> Previous, t2: nat)
    requires Inv(s) && s.sh.ended.None? && Stack(s, t) != [] && t2 != t
    ensures ThreadOk(RunStep(s, t, previous), t2)
  {
    ActorIsOk(s, t);
    assert ThreadOk(s, t2);
    var stack := Stack(s, t);
    var d := |stack| - 1;
    var sh' := HandlerStep(s.sh, t, d, stack[d], previous).0;
    StepIsForward(s.sh, t, d, stack[d], previous);
    OtherFramesKept(s.sh, sh', t, d, t2, Stack(s, t2));
    OtherWinnerThere(s.sh, t, d, stack[d], previous, t2, Stack(s, t2));
  }

  lemma {:induction false} RunKeepsInv(s: State, t: nat, previous: nat -> Previous)
    requires Inv(s) && s.sh.ended.None? && Stack(s, t) != []
    ensures Inv(RunStep(s, t, previous))
  {
    ActorIsOk(s, t);
    RunnerKept(s, t, previous);
    RunnerWinnerThere(s, t, previous);
    forall t2: nat
      ensures ThreadOk(RunStep(s, t, previous), t2)
    {
      if t2 != t {
        OtherThreadKept(s, t, previous, t2);
      }
    }
  }

  lemma {:induction false} TickKeepsInv(s: State, ms: nat)
    requires Inv(s) && s.sh.ended.None?
    ensures Inv(s.(sh := s.sh.(clock := s.sh.clock + ms)))
  {
    var sh' := s.sh.(clock := s.sh.clock + ms);
    forall t: nat
      ensures ThreadOk(s.(sh := sh'), t)
    {
      assert ThreadOk(s, t);
      forall i | 0 <= i < |Stack(s, t)|
        ensures FrameOk(sh', t, i, Stack(s, t)[i])
      {
        OthersKept(s.sh, sh', t + 1, 0, t, i, Stack(s, t)[i]);
      }
    }
  }

  lemma {:induction false} EndKeepsInv(s: State, e: End)
    requires Inv(s) && s.sh.ended.None? && CauseOk(s.sh, e)
    requires e.cause.Blocked? ==> Masked(Stack(s, e.cause.t), e.of)
    ensures Inv(s.(sh := s.sh.(ended := Some(e))))
  {
    var sh' := s.sh.(ended := Some(e));
    forall t: nat
      ensures ThreadOk(s.(sh := sh'), t)
    {
      assert ThreadOk(s, t);
      forall i | 0 <= i < |Stack(s, t)|
        ensures FrameOk(sh', t, i, Stack(s, t)[i])
      {
        OthersKept(s.sh, sh', t + 1, 0, t, i, Stack(s, t)[i]);
      }
    }
  }

  lemma {:induction false} PushKeepsInv(s: State, t: nat, f: Frame)
    requires Inv(s) && s.sh.ended.None? && t != 0 && f.pc.Enter?
    ensures Inv(s.(stacks := s.stacks[t := Stack(s, t) + [f]]))
  {
    var s' := s.(stacks := s.stacks[t := Stack(s, t) + [f]]);
    forall t2: nat
      ensures ThreadOk(s', t2)
    {
      assert ThreadOk(s, t2);
    }
  }

  lemma {:induction false} SignalKeepsInv(s: State, t: nat, a: Arrival)
    requires Inv(s) && s.sh.ended.None? && t != 0 && a.signal in SIGNALS
    ensures Inv(SignalStep(s, t, a))
  {
    if a.signal !in s.sh.handled {
      EndKeepsInv(s, End(a.signal, Uncaught));
    } else if Masked(Stack(s, t), a.signal) {
      EndKeepsInv(s, End(a.signal, Blocked(t)));
    } else if !a.room {
      EndKeepsInv(s, End(SIGSEGV, NoRoom));
    } else {
      PushKeepsInv(s, t, Frame(a.signal, a.sent, a.sent && a.foreign, Enter));
    }
  }

  lemma {:induction false} StepKeepsInv(s: State, a: Action, previous: nat -> Previous)
    requires Inv(s)
    ensures Inv(Step(s, a, previous))
  {
    if s.sh.ended.None? {
      match a
      case Tick(ms) => TickKeepsInv(s, ms);
      case Signal(t, arrival) =>
        if t != 0 && arrival.signal in SIGNALS {
          SignalKeepsInv(s, t, arrival);
        }
      case Run(t) =>
        if Stack(s, t) != [] {
          RunKeepsInv(s, t, previous);
        }
    }
  }

  function Runs(s: State, acts: seq<Action>, previous: nat -> Previous): State
    decreases |acts|
  {
    if acts == [] then s else Runs(Step(s, acts[0], previous), acts[1..], previous)
  }

  lemma {:induction false} RunInv(s: State, acts: seq<Action>, previous: nat -> Previous)
    requires Inv(s)
    ensures Inv(Runs(s, acts, previous))
    decreases |acts|
  {
    if acts != [] {
      StepKeepsInv(s, acts[0], previous);
      RunInv(Step(s, acts[0], previous), acts[1..], previous);
    }
  }

  // ---- main results --------------------------------------------------------------------------

  const Init := State(Start, map[])

  ghost predicate InReportAt(s: State, t: nat, i: nat) {
    i < |Stack(s, t)| && Stack(s, t)[i].pc.Report?
  }

  /** In every run the report is entered at most once, and at most one handler is ever inside it, so the
      static scratch area has one user. */
  lemma {:induction false} OneReport(acts: seq<Action>, previous: nat -> Previous, t: nat, i: nat, t2: nat, i2: nat)
    ensures Runs(Init, acts, previous).sh.entered <= 1
    ensures var s := Runs(Init, acts, previous);
            InReportAt(s, t, i) && InReportAt(s, t2, i2) ==> t == t2 && i == i2
  {
    var s := Runs(Init, acts, previous);
    RunInv(Init, acts, previous);
    assert ThreadOk(s, t) && ThreadOk(s, t2);
    if InReportAt(s, t, i) && InReportAt(s, t2, i2) {
      assert FrameOk(s.sh, t, i, Stack(s, t)[i]) && FrameOk(s.sh, t2, i2, Stack(s, t2)[i2]);
    }
  }

  /** A handler about to read `REPORTED_SIGNAL` stands above the handler whose report is in progress, and reads
      that handler's signal. */
  lemma {:induction false} ReentryReadsTheReport(acts: seq<Action>, previous: nat -> Previous, t: nat, i: nat)
    requires var s := Runs(Init, acts, previous);
             i < |Stack(s, t)| && Stack(s, t)[i].pc.LoadSignal?
    ensures var s := Runs(Init, acts, previous);
            exists j :: 0 <= j < i && (Stack(s, t)[j].pc.Report? || Stack(s, t)[j].pc.ClearTid?)
                        && Stack(s, t)[j].signal == s.sh.reportedSignal
  {
    var s := Runs(Init, acts, previous);
    RunInv(Init, acts, previous);
    assert ThreadOk(s, t);
    assert FrameOk(s.sh, t, i, Stack(s, t)[i]);
    var j := s.sh.winner.value.depth;
    assert FrameOk(s.sh, t, j, Stack(s, t)[j]);
  }

  /** A handler that lost to another thread dies, or gives its signal back, only once the report is done or
      after its two seconds. */
  lemma {:induction false} OthersWait(acts: seq<Action>, previous: nat -> Previous, t: nat, i: nat)
    requires i < |Stack(Runs(Init, acts, previous), t)|
    ensures var s := Runs(Init, acts, previous);
            var pc := Stack(s, t)[i].pc;
            && (pc.AfterWait? ==> s.sh.reportDone || s.sh.clock >= pc.started + WAIT_FOR_REPORT_MS)
            && (pc.Die? && pc.cause.Waited? ==> s.sh.reportDone || s.sh.clock >= pc.cause.since + WAIT_FOR_REPORT_MS)
  {
    var s := Runs(Init, acts, previous);
    RunInv(Init, acts, previous);
    assert ThreadOk(s, t);
    assert FrameOk(s.sh, t, i, Stack(s, t)[i]);
  }

  /** So a report that has not been going for two seconds is cut short only by a signal of its own thread, and then
      the process dies of the reported signal; by another process; or by the kernel, where a thread faults with the
      number its own handler blocks, or has no room for a handler's frame, which is SIGSEGV. */
  lemma {:induction false} ReportIsNotCutShort(acts: seq<Action>, previous: nat -> Previous)
    requires var sh := Runs(Init, acts, previous).sh; sh.ended.Some? && !Late(sh)
    ensures var s := Runs(Init, acts, previous);
            var end := s.sh.ended.value;
            match end.cause
            case Reentry => s.sh.winner.Some? && end.of == s.sh.winner.value.signal
            case Sent => true
            case Blocked(t) => Masked(Stack(s, t), end.of)
            case NoRoom => end.of == SIGSEGV
            case _ => false
  {
    RunInv(Init, acts, previous);
  }

  lemma {:induction false} FourSteps(s: State, a: seq<Action>, previous: nat -> Previous)
    requires |a| == 4
    ensures Runs(s, a, previous)
         == Step(Step(Step(Step(s, a[0], previous), a[1], previous), a[2], previous), a[3], previous)
  {
    var s1 := Step(s, a[0], previous);
    var s2 := Step(s1, a[1], previous);
    var s3 := Step(s2, a[2], previous);
    assert a[1..][1..] == a[2..] && a[2..][1..] == a[3..] && a[3..][1..] == [];
    assert Runs(s3, a[3..], previous) == Runs(Step(s3, a[3], previous), [], previous);
    assert Runs(s2, a[2..], previous) == Runs(s3, a[3..], previous);
    assert Runs(s1, a[1..], previous) == Runs(s2, a[2..], previous);
  }

  /** The innermost handler of `t` goes from one place to the next and changes nothing shared. */
  lemma {:induction false} TopGoes(s: State, t: nat, f: Frame, pc: Pc, previous: nat -> Previous)
    requires s.sh.ended.None? && Stack(s, t) != [] && Stack(s, t)[|Stack(s, t)| - 1] == f
    requires HandlerStep(s.sh, t, |Stack(s, t)| - 1, f, previous) == (s.sh, Goto(pc))
    ensures var s' := Step(s, Run(t), previous);
            s'.sh == s.sh && |Stack(s', t)| == |Stack(s, t)| && Stack(s', t)[|Stack(s, t)| - 1] == f.(pc := pc)
  {}

  /** A fault above the running report takes four steps to end the process with the reported signal. */
  lemma {:induction false} ReentryDies(s: State, t: nat, f: Frame, previous: nat -> Previous)
    requires s.sh.ended.None? && Stack(s, t) != [] && Stack(s, t)[|Stack(s, t)| - 1] == f
    requires f.pc.Enter? && !f.foreign && s.sh.reporting && s.sh.reporterTid == t
    ensures Runs(s, [Run(t), Run(t), Run(t), Run(t)], previous).sh.ended == Some(End(s.sh.reportedSignal, Reentry))
  {
    FourSteps(s, [Run(t), Run(t), Run(t), Run(t)], previous);
    TopGoes(s, t, f, CheckTid, previous);
    var s1 := Step(s, Run(t), previous);
    TopGoes(s1, t, f.(pc := CheckTid), LoadSignal, previous);
    var s2 := Step(s1, Run(t), previous);
    TopGoes(s2, t, f.(pc := LoadSignal), Die(s.sh.reportedSignal, Reentry), previous);
  }

  /** On the reporting thread itself: a second fault with the reported number dies of it at once, any other that is
      handled dies of the reported signal too, and only a missing frame's room, or a number an outer handler blocks,
      changes that. */
  lemma {:induction false} ReporterDiesOfItsSignal(s: State, a: Arrival, previous: nat -> Previous)
    requires Inv(s) && s.sh.ended.None? && s.sh.stage.InReport? && a.signal in s.sh.handled && !a.sent
    requires s.sh.winner.Some? && |Stack(s, s.sh.winner.value.tid)| == s.sh.winner.value.depth + 1
    ensures var w := s.sh.winner.value;
            var s' := SignalStep(s, w.tid, a);
            && (a.signal == w.signal ==> s'.sh.ended == Some(End(w.signal, Blocked(w.tid))))
            && (s'.sh.ended.Some? && s'.sh.ended.value.of != w.signal ==>
                  !a.room || Masked(Stack(s, w.tid)[..w.depth], a.signal))
            && (s'.sh.ended.None? ==>
                  Runs(s', [Run(w.tid), Run(w.tid), Run(w.tid), Run(w.tid)], previous).sh.ended
                  == Some(End(w.signal, Reentry)))
  {
    var w := s.sh.winner.value;
    var stack := Stack(s, w.tid);
    assert ThreadOk(s, w.tid);
    assert FrameOk(s.sh, w.tid, w.depth, stack[w.depth]);
    assert a.signal == w.signal ==> Masked(stack, a.signal);
    if Masked(stack, a.signal) && a.signal != w.signal {
      var i :| 0 <= i < |stack| && stack[i].signal == a.signal;
      assert stack[..w.depth][i].signal == a.signal;
    }
    var s' := SignalStep(s, w.tid, a);
    if s'.sh.ended.None? {
      ReentryDies(s', w.tid, Frame(a.signal, false, false, Enter), previous);
    }
  }

  /** A nested signal is told apart from the report's own exactly between the two stores of the thread's ID: one
      that lands between winning and the first of them waits for a report that cannot go on. */
  lemma {:induction false} NestedIsRecognised(s: State, t: nat, previous: nat -> Previous)
    requires Inv(s) && s.sh.ended.None? && |Stack(s, t)| >= 1 && Stack(s, t)[|Stack(s, t)| - 1].pc.CheckTid?
    requires s.sh.winner.Some? && s.sh.winner.value.tid == t
    ensures var s' := RunStep(s, t, previous);
            Stack(s', t)[|Stack(s, t)| - 1].pc.LoadSignal? <==> s.sh.stage.InReport? || s.sh.stage.Reported?
  {
    assert ThreadOk(s, t);
  }

  // ---- a fault before the thread's ID is stored --------------------------------------------------

  /** Thread `t` stays at least `n + 1` handlers deep throughout. */
  predicate StaysDeep(s: State, t: nat, n: nat, acts: seq<Action>, previous: nat -> Previous)
    decreases |acts|
  {
    |Stack(s, t)| > n && (acts == [] || StaysDeep(Step(s, acts[0], previous), t, n, acts[1..], previous))
  }

  predicate Winning(s: State, t: nat, depth: nat) {
    s.sh.winner.Some? && s.sh.winner.value.tid == t && s.sh.winner.value.depth == depth
  }

  lemma {:induction false} StageStays(s: State, a: Action, t: nat, depth: nat, previous: nat -> Previous)
    requires Inv(s) && Winning(s, t, depth) && |Stack(s, t)| > depth + 1
    ensures Step(s, a, previous).sh.stage == s.sh.stage && Winning(Step(s, a, previous), t, depth)
  {
    if a.Run? && s.sh.ended.None? && Stack(s, a.t) != [] {
      ActorIsOk(s, a.t);
      var stack := Stack(s, a.t);
      StepIsForward(s.sh, a.t, |stack| - 1, stack[|stack| - 1], previous);
    }
  }

  /** While a handler stands above the reporting one, the report does not go on, whatever all threads do. */
  lemma {:induction false} NestedHoldsReport(
      s: State, acts: seq<Action>, t: nat, depth: nat, previous: nat -> Previous)
    requires Inv(s) && Winning(s, t, depth) && StaysDeep(s, t, depth + 1, acts, previous)
    ensures Inv(Runs(s, acts, previous)) && Runs(s, acts, previous).sh.stage == s.sh.stage
    decreases |acts|
  {
    if acts != [] {
      StepKeepsInv(s, acts[0], previous);
      StageStays(s, acts[0], t, depth, previous);
      NestedHoldsReport(Step(s, acts[0], previous), acts[1..], t, depth, previous);
    }
  }

  /** So one that took the report for another thread's and began to wait before the report was done waits its two
      seconds out. */
  lemma {:induction false} NestedWaitsItOut(
      s: State, acts: seq<Action>, t: nat, depth: nat, i: nat, previous: nat -> Previous)
    requires Inv(s) && Winning(s, t, depth) && !s.sh.stage.Done? && StaysDeep(s, t, depth + 1, acts, previous)
    ensures var s' := Runs(s, acts, previous);
            i < |Stack(s', t)| && Stack(s', t)[i].pc.AfterWait? ==>
              s'.sh.clock >= Stack(s', t)[i].pc.started + WAIT_FOR_REPORT_MS
  {
    NestedHoldsReport(s, acts, t, depth, previous);
    var s' := Runs(s, acts, previous);
    assert ThreadOk(s', t);
    if i < |Stack(s', t)| {
      assert FrameOk(s'.sh, t, i, Stack(s', t)[i]);
    }
  }

  const Fault := Arrival(SIGSEGV, false, false, true, true)
  const SecondFault := Arrival(SIGBUS, false, false, true, true)

  /** A thread faults and wins the report; before it stores its ID it faults again. */
  const NestedFault: seq<Action> := [Signal(1, Fault), Run(1), Signal(1, SecondFault), Run(1)]

  const WonShared := Start.(reporting := true, stage := Won, winner := Some(Winner(1, 0, SIGSEGV, 0)))
  const WonFrame := Frame(SIGSEGV, false, false, StoreSignal)

  /** The second handler above the winner, which has stored nothing yet. */
  function NestedAt(pc: Pc, clock: nat): State {
    State(WonShared.(clock := clock), map[1 := [WonFrame] + [Frame(SIGBUS, false, false, pc)]])
  }

  lemma {:induction false} OneThreadRuns(sh: Shared, below: seq<Frame>, f: Frame, next: Then, previous: nat -> Previous)
    requires sh.ended.None?
    requires HandlerStep(sh, 1, |below|, f, previous).1 == next
    ensures Step(State(sh, map[1 := below + [f]]), Run(1), previous)
         == State(HandlerStep(sh, 1, |below|, f, previous).0,
                  map[1 := if next.Goto? then below + [f.(pc := next.pc)] else below])
  {
    var stack := below + [f];
    assert stack[..|below|] == below;
    assert Onward(stack, next) == if next.Goto? then below + [f.(pc := next.pc)] else below;
  }

  lemma {:induction false} OneThreadFaults(sh: Shared, below: seq<Frame>, a: Arrival, previous: nat -> Previous)
    requires sh.ended.None? && a.signal in SIGNALS && a.signal in sh.handled && !Masked(below, a.signal) && a.room
    ensures Step(State(sh, map[1 := below]), Signal(1, a), previous)
         == State(sh, map[1 := below + [Frame(a.signal, a.sent, a.sent && a.foreign, Enter)]])
  {}

  lemma {:induction false} NestedFaultWins(previous: nat -> Previous)
    ensures Step(Step(Init, Signal(1, Fault), previous), Run(1), previous) == State(WonShared, map[1 := [WonFrame]])
  {
    var f := Frame(SIGSEGV, false, false, Enter);
    assert !Masked([], SIGSEGV);
    assert Step(Init, Signal(1, Fault), previous) == State(Start, map[1 := [] + [f]]);
    OneThreadRuns(Start, [], f, Goto(StoreSignal), previous);
    assert [] + [WonFrame] == [WonFrame];
  }

  lemma {:induction false} NestedFaultReaches(previous: nat -> Previous)
    ensures Runs(Init, NestedFault, previous) == NestedAt(CheckTid, 0)
  {
    FourSteps(Init, NestedFault, previous);
    NestedFaultWins(previous);
    assert !Masked([WonFrame], SIGBUS);
    OneThreadFaults(WonShared, [WonFrame], SecondFault, previous);
    NestedGoes(Enter, CheckTid, 0, previous);
  }

  lemma {:induction false} NestedGoes(pc: Pc, pc': Pc, clock: nat, previous: nat -> Previous)
    requires HandlerStep(WonShared.(clock := clock), 1, 1, Frame(SIGBUS, false, false, pc), previous)
          == (WonShared.(clock := clock), Goto(pc'))
    ensures Step(NestedAt(pc, clock), Run(1), previous) == NestedAt(pc', clock)
  {
    OneThreadRuns(WonShared.(clock := clock), [WonFrame], Frame(SIGBUS, false, false, pc), Goto(pc'), previous);
  }

  lemma {:induction false} NestedTicks(pc: Pc, ms: nat, previous: nat -> Previous)
    ensures Step(NestedAt(pc, 0), Tick(ms), previous) == NestedAt(pc, ms)
  {}

  function WaitedFor(ms: nat): Pc {
    if ms < WAIT_FOR_REPORT_MS then Wait(0) else AfterWait(0)
  }

  lemma {:induction false} NestedStarts(previous: nat -> Previous)
    ensures Step(Step(NestedAt(CheckTid, 0), Run(1), previous), Run(1), previous) == NestedAt(Wait(0), 0)
  {
    NestedGoes(CheckTid, StartWait, 0, previous);
    NestedGoes(StartWait, Wait(0), 0, previous);
  }

  /** From there it waits, and after `ms` it still waits exactly if they are less than two seconds. */
  lemma {:induction false} NestedFaultWaits(ms: nat, previous: nat -> Previous)
    ensures Runs(Init, NestedFault, previous) == NestedAt(CheckTid, 0)
    ensures Runs(NestedAt(CheckTid, 0), [Run(1), Run(1), Tick(ms), Run(1)], previous) == NestedAt(WaitedFor(ms), ms)
  {
    NestedFaultReaches(previous);
    FourSteps(NestedAt(CheckTid, 0), [Run(1), Run(1), Tick(ms), Run(1)], previous);
    NestedStarts(previous);
    NestedTicks(Wait(0), ms, previous);
    NestedGoes(Wait(0), WaitedFor(ms), ms, previous);
  }

  lemma {:induction false} SentIsRemembered(s: State, acts: seq<Action>, previous: nat -> Previous, signal: nat)
    requires signal in s.sh.sentOnce
    ensures signal in Runs(s, acts, previous).sh.sentOnce
    decreases |acts|
  {
    if acts != [] {
      assert signal in Step(s, acts[0], previous).sh.sentOnce;
      SentIsRemembered(Step(s, acts[0], previous), acts[1..], previous, signal);
    }
  }

  /** A signal another process sends is ignored at most once where Rust's handler stood before: whatever happens
      after the first, the next one kills. */
  lemma {:induction false} IgnoredOnce(
      s: State, t: nat, acts: seq<Action>, previous: nat -> Previous, f: Frame)
    requires s.sh.ended.None? && Stack(s, t) != [] && Stack(s, t)[|Stack(s, t)| - 1] == f
    requires f.pc.Enter? && f.foreign && previous(f.signal) == Other
    ensures var later := Runs(RunStep(s, t, previous), acts, previous);
            SentStep(later.sh, f, previous).1 == Goto(Die(f.signal, Sent))
    ensures f.signal !in s.sh.sentOnce ==> |Stack(RunStep(s, t, previous), t)| == |Stack(s, t)| - 1
  {
    SentIsRemembered(RunStep(s, t, previous), acts, previous, f.signal);
  }
}
