/** Waiting for a resume: a watch channel that is published to once, and waiters that come and go around it. */
module ResumeWatch {
  import opened Text
  import opened Diagnostic

  /** Where a `resumed()` future is: about to look at the value, or waiting for one it has not seen. */
  datatype Waiter = Checking(seen: nat) | Awaiting(seen: nat) | Woken

  /** The station, the channel's version, and the waiters subscribed at the moment. */
  datatype World = World(station: State, version: nat, waiters: map<nat, Waiter>)

  datatype Action =
    | Subscribe(w: nat)
    | Poll(w: nat)
    | Drop(w: nat)
    | Observe(retry: Attempt, at: nat)

  /** `send_replace`: the value changes and every receiver's version is behind, subscribed or not. */
  function Publish(s: World, station: State): World {
    s.(station := station, version := s.version + 1)
  }

  /** One poll of a waiter: look at the value and mark it seen, or wait for a version it has not seen. */
  function PollWaiter(s: World, w: Waiter): Waiter {
    match w
    case Checking(_) => if s.station.resumed then Woken else Awaiting(s.version)
    case Awaiting(seen) => if s.version != seen then Checking(s.version) else w
    case Woken => w
  }

  function Step(s: World, a: Action): World {
    match a
    case Subscribe(w) => if w in s.waiters then s else s.(waiters := s.waiters[w := Checking(s.version)])
    case Poll(w) => if w in s.waiters then s.(waiters := s.waiters[w := PollWaiter(s, s.waiters[w])]) else s
    case Drop(w) => s.(waiters := map x | x in s.waiters && x != w :: s.waiters[x])
    case Observe(retry, at) =>
      var station := After(s.station, retry, at);
      if PhaseAfter(s.station.phase, retry).1.Resumed? then Publish(s, station) else s.(station := station)
  }

  /** A waiter that waits has a version to come if the resume was published; one that woke, woke to a resume. */
  predicate WaiterOk(s: World, w: Waiter) {
    match w
    case Checking(seen) => seen <= s.version
    case Awaiting(seen) => seen <= s.version && (s.station.resumed ==> seen < s.version)
    case Woken => s.station.resumed
  }

  predicate Inv(s: World) {
    Agree(s.station) && forall w :: w in s.waiters ==> WaiterOk(s, s.waiters[w])
  }

  lemma {:induction false} StepKeepsInv(s: World, a: Action)
    requires Inv(s)
    ensures Inv(Step(s, a))
  {
    if a.Observe? {
      ObserveKeepsAgree(s.station, a.retry, a.at);
      var s' := Step(s, a);
      assert forall w :: w in s'.waiters ==> WaiterOk(s, s.waiters[w]);
    }
  }

  function Runs(s: World, acts: seq<Action>): World
    decreases |acts|
  {
    if acts == [] then s else Runs(Step(s, acts[0]), acts[1..])
  }

  lemma {:induction false} RunKeepsInv(s: World, acts: seq<Action>)
    requires Inv(s)
    ensures Inv(Runs(s, acts))
    decreases |acts|
  {
    if acts != [] {
      StepKeepsInv(s, acts[0]);
      RunKeepsInv(Step(s, acts[0]), acts[1..]);
    }
  }

  function Begin(f: Fault, at: nat): World {
    World(StateOf(f, at), 0, map[])
  }

  /** In every run: a waiter woke only to a resume, and once the station resumed every waiter wakes within two
      polls, whether it subscribed before or after. */
  lemma {:induction false} NoWaiterIsLost(f: Fault, at: nat, acts: seq<Action>, w: nat)
    requires w in Runs(Begin(f, at), acts).waiters
    ensures var s := Runs(Begin(f, at), acts);
            (s.waiters[w].Woken? ==> s.station.phase.Normal?)
            && (s.station.phase.Normal? ==> Step(Step(s, Poll(w)), Poll(w)).waiters[w].Woken?)
  {
    StationStarts(f, at);
    RunKeepsInv(Begin(f, at), acts);
    var s := Runs(Begin(f, at), acts);
    assert WaiterOk(s, s.waiters[w]);
  }

  /** `send` in its place: nothing changes when no receiver exists. */
  function Send(s: World, station: State): World {
    if s.waiters == map[] then s.(station := station.(resumed := s.station.resumed)) else Publish(s, station)
  }

  /** Why it must not be `send`: a resume published between two waiters leaves the station normal and its watch
      false, and no retry publishes it again, so later waiters wait forever. */
  lemma {:induction false} SendLosesTheResume(f: Fault, at: nat, clean: Attempt, retries: seq<Retry>)
    requires !IsJournal(f) && FaultOf(clean).None?
    ensures var s := Send(Begin(f, at), After(Begin(f, at).station, clean, at));
            s.station.phase.Normal? && !s.station.resumed
            && Diagnostic.Runs(s.station, retries) == s.station
            && PollWaiter(s, Checking(s.version)) == Awaiting(s.version)
            && PollWaiter(s, Awaiting(s.version)) == Awaiting(s.version)
  {
    var s := Send(Begin(f, at), After(Begin(f, at).station, clean, at));
    SettledPhases(s.station, retries);
  }
}
