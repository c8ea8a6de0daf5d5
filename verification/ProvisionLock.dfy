/**
 The provisioning lock across processes: a kernel lock on a persistent guard file, a marker file
 beside it, a heartbeat that rewrites the marker through its own descriptor, and a per-process
 count of held locks. Any number of agents run, and any of them can be killed at any step.
 Assumed of the kernel: one holder per guard file, released when the holder's process ends, and
 no inode number reused while a descriptor refers to it.
 */
module ProvisionLock {
  import opened Text
  import opened LockMarker

  type TaskId = nat
  type Path = string
  type Inode = nat

  /** One process lifetime. A restarted agent may get its predecessor's pid back. */
  datatype Agent = Agent(instance: nat, pid: nat, version: string)

  function Body(a: Agent): string {
    LockBody(a.pid, a.version)
  }

  /** Where one call of `Lock::acquire`, or the Lock it returned, has come to. */
  datatype Pc =
    | Opening
    | Guarded(attempt: nat)
    | Inspecting
    | Replacing
    | Created(ino: Inode)
    | Cleaning(ino: Inode)
    | Bodied(ino: Inode)
    | Held(ino: Inode)
    | Stopping(ino: Inode)
    | Unlinked
    | Uncounted
    | Finished

  datatype Task = Task(agent: Agent, path: Path, pc: Pc)

  /** A heartbeat thread: `armed` once it has read the stop flag as clear and is about to write. */
  datatype Beat = Beat(ino: Inode, armed: bool, stop: bool)

  datatype State = State(
    tasks: map<TaskId, Task>,
    guard: map<Path, TaskId>,
    marker: map<Path, Inode>,
    body: map<Inode, string>,
    maker: map<Inode, TaskId>,
    beats: map<TaskId, Beat>,
    count: map<Agent, nat>,
    dead: set<Agent>)

  /** One step of `Lock::acquire`. */
  datatype AcquireStep =
    | GiveUp
    | TakeGuard
    | CreateNew(ino: Inode)
    | FindExisting
    | CreateFails
    | Inspect(age: nat, read: bool)
    | RemoveStale(ok: bool)
    | WriteSome(k: nat)
    | WriteAll
    | WriteFails
    | CleanUp(ok: bool)
    | CloneFails
    | Hold(beating: bool)

  /** One step of dropping a `Lock`. */
  datatype DropStep = SetStop | Unlink(ok: bool) | Uncount | CloseGuard

  datatype Action =
    | Spawn(t: TaskId, agent: Agent, path: Path)
    | Acquire(t: TaskId, step: AcquireStep)
    | Drop(t: TaskId, drop: DropStep)
    | Arm(t: TaskId)
    | BeatWrite(t: TaskId)
    | Kill(agent: Agent)

  /** From taking the kernel lock to closing its descriptor. */
  predicate HasGuard(pc: Pc) {
    !pc.Opening? && !pc.Finished?
  }

  /** From creating the marker to removing it. */
  predicate HasMarker(pc: Pc) {
    pc.Created? || pc.Cleaning? || pc.Bodied? || pc.Held? || pc.Stopping?
  }

  /** A live `Lock` as `PROVISIONS_IN_FLIGHT` counts them. */
  predicate Counting(pc: Pc) {
    pc.Held? || pc.Stopping? || pc.Unlinked?
  }

  predicate AcquireEnabled(s: State, t: TaskId, step: AcquireStep)
    requires t in s.tasks
  {
    var Task(agent, path, pc) := s.tasks[t];
    match step
    case GiveUp => pc.Opening?
    case TakeGuard => pc.Opening?
    case CreateNew(ino) => pc.Guarded? && path !in s.marker && ino !in s.body && ino !in s.maker
    case FindExisting => pc.Guarded? && path in s.marker
    case CreateFails => pc.Guarded?
    case Inspect(_, _) => pc.Inspecting? && path in s.marker && s.marker[path] in s.body
    case RemoveStale(_) => pc.Replacing?
    case WriteSome(k) => pc.Created? && k < |Body(agent)|
    case WriteAll => pc.Created?
    case WriteFails => pc.Created?
    case CleanUp(_) => pc.Cleaning?
    case CloneFails => pc.Bodied?
    case Hold(_) => pc.Bodied?
  }

  predicate DropEnabled(pc: Pc, d: DropStep) {
    match d
    case SetStop => pc.Held?
    case Unlink(_) => pc.Stopping?
    case Uncount => pc.Unlinked?
    case CloseGuard => pc.Uncounted?
  }

  predicate Enabled(s: State, a: Action) {
    match a
    case Spawn(t, agent, path) =>
      t !in s.tasks && t !in s.maker.Values && agent !in s.dead && VersionText(agent.version)
    case Acquire(t, step) => t in s.tasks && AcquireEnabled(s, t, step)
    case Drop(t, d) => t in s.tasks && DropEnabled(s.tasks[t].pc, d)
    case Arm(t) => t in s.beats && !s.beats[t].armed
    case BeatWrite(t) => t in s.beats && s.beats[t].armed && t in s.tasks
    case Kill(_) => true
  }

  type Tasks = map<TaskId, Task>

  function Moved(tasks: Tasks, t: TaskId, pc: Pc): Tasks
    requires t in tasks
  {
    tasks[t := tasks[t].(pc := pc)]
  }

  /** The files: which inode a marker path names, what each inode holds, and who created it. */
  datatype Files = Files(marker: map<Path, Inode>, body: map<Inode, string>, maker: map<Inode, TaskId>)

  function FilesOf(s: State): Files {
    Files(s.marker, s.body, s.maker)
  }

  /** `remove_file(path)`, whatever is there; its failure is ignored. */
  function Remove(f: Files, path: Path, ok: bool): Files {
    if ok then f.(marker := f.marker - {path}) else f
  }

  const USIZE_MAX := 0xFFFF_FFFF_FFFF_FFFF

  function Tally(count: map<Agent, nat>, a: Agent): nat {
    if a in count then count[a] else 0
  }

  /** Whether an acquirer that holds the kernel lock replaces the marker it found; a text that cannot be read
      counts as empty. */
  predicate Replaceable(body: string, read: bool, age: nat) {
    Replaces(if read then body else "", age) == Some(true)
  }

  /** Where an acquire step leads; `Finished` is an error return, which closes the guard. */
  function AcquirePc(s: State, t: TaskId, step: AcquireStep): (pc': Pc)
    requires t in s.tasks && AcquireEnabled(s, t, step)
  {
    var Task(agent, path, pc) := s.tasks[t];
    match step
    case GiveUp => Finished
    case TakeGuard => if path in s.guard then Finished else Guarded(0)
    case CreateNew(ino) => Created(ino)
    case FindExisting => if pc.attempt == 0 then Inspecting else Finished
    case CreateFails => Finished
    case Inspect(age, read) => if Replaceable(s.body[s.marker[path]], read, age) then Replacing else Finished
    case RemoveStale(_) => Guarded(1)
    case WriteSome(_) => pc
    case WriteAll => Bodied(pc.ino)
    case WriteFails => Cleaning(pc.ino)
    case CleanUp(_) => Finished
    case CloneFails => Finished
    case Hold(_) => Held(pc.ino)
  }

  function AcquireFiles(s: State, t: TaskId, step: AcquireStep): (f': Files)
    requires t in s.tasks && AcquireEnabled(s, t, step)
  {
    var Task(agent, path, pc) := s.tasks[t];
    var f := FilesOf(s);
    match step
    case CreateNew(ino) => Files(f.marker[path := ino], f.body[ino := ""], f.maker[ino := t])
    case RemoveStale(ok) => Remove(f, path, ok)
    case CleanUp(ok) => Remove(f, path, ok)
    case WriteSome(k) => f.(body := f.body[pc.ino := Body(agent)[..k]])
    case WriteAll => f.(body := f.body[pc.ino := Body(agent)])
    case _ => f
  }

  /** The kernel lock follows its holder: taken on entry, released when that one finishes. */
  function GuardAfter(guard: map<Path, TaskId>, t: TaskId, path: Path, before: Pc, after: Pc): map<Path, TaskId> {
    if !HasGuard(before) && HasGuard(after) then guard[path := t]
    else if HasGuard(before) && !HasGuard(after) then guard - {path}
    else guard
  }

  function StepAcquire(s: State, t: TaskId, step: AcquireStep): (s': State)
    requires t in s.tasks && AcquireEnabled(s, t, step)
  {
    var Task(agent, path, pc) := s.tasks[t];
    var pc', f := AcquirePc(s, t, step), AcquireFiles(s, t, step);
    s.(tasks := Moved(s.tasks, t, pc'),
       guard := GuardAfter(s.guard, t, path, pc, pc'),
       marker := f.marker, body := f.body, maker := f.maker,
       count := if step.Hold? then s.count[agent := Tally(s.count, agent) + 1] else s.count,
       beats := if step.Hold? && step.beating then s.beats[t := Beat(pc.ino, false, false)] else s.beats)
  }

  function DropPc(pc: Pc, d: DropStep): (pc': Pc)
    requires DropEnabled(pc, d)
  {
    match d
    case SetStop => Stopping(pc.ino)
    case Unlink(_) => Unlinked
    case Uncount => Uncounted
    case CloseGuard => Finished
  }

  function DropFiles(f: Files, path: Path, d: DropStep): (f': Files) {
    if d.Unlink? then Remove(f, path, d.ok) else f
  }

  function StepDrop(s: State, t: TaskId, d: DropStep): (s': State)
    requires t in s.tasks && DropEnabled(s.tasks[t].pc, d)
  {
    var Task(agent, path, pc) := s.tasks[t];
    var pc' := DropPc(pc, d);
    var n := Tally(s.count, agent);
    s.(tasks := Moved(s.tasks, t, pc'),
       guard := GuardAfter(s.guard, t, path, pc, pc'),
       marker := DropFiles(FilesOf(s), path, d).marker,
       count := if d.Uncount? then s.count[agent := if n == 0 then USIZE_MAX else n - 1] else s.count,
       beats := if d.SetStop? && t in s.beats then s.beats[t := s.beats[t].(stop := true)] else s.beats)
  }

  function Survivors(tasks: Tasks, agent: Agent): Tasks {
    map t | t in tasks && tasks[t].agent != agent :: tasks[t]
  }

  function Step(s: State, a: Action): (s': State)
    requires Enabled(s, a)
  {
    match a
    case Spawn(t, agent, path) => s.(tasks := s.tasks[t := Task(agent, path, Opening)])
    case Acquire(t, step) => StepAcquire(s, t, step)
    case Drop(t, d) => StepDrop(s, t, d)
    case Arm(t) => s.(beats := if s.beats[t].stop then s.beats - {t} else s.beats[t := s.beats[t].(armed := true)])
    case BeatWrite(t) =>
      s.(body := s.body[s.beats[t].ino := Body(s.tasks[t].agent)], beats := s.beats[t := s.beats[t].(armed := false)])
    case Kill(agent) =>
      s.(tasks := Survivors(s.tasks, agent),
         guard := map p | p in s.guard && s.guard[p] in Survivors(s.tasks, agent) :: s.guard[p],
         beats := map t | t in s.beats && t in Survivors(s.tasks, agent) :: s.beats[t],
         count := s.count - {agent},
         dead := s.dead + {agent})
  }

  // ---- the kernel lock -------------------------------------------------------------------------

  predicate GuardOk(tasks: Tasks, guard: map<Path, TaskId>) {
    && (forall p :: p in guard ==> guard[p] in tasks && tasks[guard[p]].path == p && HasGuard(tasks[guard[p]].pc))
    && (forall t :: t in tasks && HasGuard(tasks[t].pc) ==> tasks[t].path in guard && guard[tasks[t].path] == t)
  }

  lemma {:induction false} GuardFollows(tasks: Tasks, guard: map<Path, TaskId>, t: TaskId, pc: Pc)
    requires GuardOk(tasks, guard) && t in tasks
    requires !HasGuard(tasks[t].pc) && HasGuard(pc) ==> tasks[t].path !in guard
    ensures GuardOk(Moved(tasks, t, pc), GuardAfter(guard, t, tasks[t].path, tasks[t].pc, pc))
  {}

  lemma {:induction false} StepGuard(s: State, a: Action)
    requires GuardOk(s.tasks, s.guard) && Enabled(s, a)
    ensures GuardOk(Step(s, a).tasks, Step(s, a).guard)
  {
    match a
    case Acquire(t, step) => GuardFollows(s.tasks, s.guard, t, AcquirePc(s, t, step));
    case Drop(t, d) => GuardFollows(s.tasks, s.guard, t, DropPc(s.tasks[t].pc, d));
    case _ =>
  }

  // ---- the marker --------------------------------------------------------------------------------

  predicate FilesOk(f: Files) {
    f.maker.Keys == f.body.Keys && forall p :: p in f.marker ==> f.marker[p] in f.body
  }

  /** A task with a marker: its path names the inode it made, complete once the body was written. */
  predicate MarkerOk(f: Files, t: TaskId, task: Task) {
    HasMarker(task.pc) ==>
      && task.path in f.marker && f.marker[task.path] == task.pc.ino
      && task.pc.ino in f.body && task.pc.ino in f.maker && f.maker[task.pc.ino] == t
      && (task.pc.Created? || task.pc.Cleaning? || f.body[task.pc.ino] == Body(task.agent))
  }

  predicate MarkersOk(f: Files, tasks: Tasks) {
    FilesOk(f) && forall t :: t in tasks ==> MarkerOk(f, t, tasks[t])
  }

  predicate PastHold(pc: Pc) {
    pc.Held? || pc.Stopping? || pc.Unlinked? || pc.Uncounted? || pc.Finished?
  }

  /** A heartbeat writes the inode its own Lock created, and that inode holds its Lock's text. */
  predicate BeatOk(f: Files, tasks: Tasks, t: TaskId, b: Beat) {
    && t in tasks && PastHold(tasks[t].pc)
    && b.ino in f.body && b.ino in f.maker && f.maker[b.ino] == t && f.body[b.ino] == Body(tasks[t].agent)
  }

  predicate BeatsOk(f: Files, tasks: Tasks, beats: map<TaskId, Beat>) {
    forall t :: t in beats ==> BeatOk(f, tasks, t, beats[t])
  }

  ghost predicate Inv(s: State) {
    && GuardOk(s.tasks, s.guard)
    && MarkersOk(FilesOf(s), s.tasks)
    && BeatsOk(FilesOf(s), s.tasks, s.beats)
    && CountOk(s.tasks, s.count)
  }

  // A task that holds the kernel lock may change the marker of its path and any inode of its own
  // making: no other task has a marker there, and no other task made those inodes.

  lemma {:induction false} OthersKeepMarkers(s: State, t: TaskId, task': Task, f: Files)
    requires GuardOk(s.tasks, s.guard) && MarkersOk(FilesOf(s), s.tasks) && t in s.tasks
    requires HasGuard(s.tasks[t].pc) && MarkerOk(f, t, task') && FilesOk(f) && OwnFiles(s, t, f)
    ensures MarkersOk(f, s.tasks[t := task'])
  {
    forall u | u in s.tasks && u != t ensures MarkerOk(f, u, s.tasks[u]) {
      assert MarkerOk(FilesOf(s), u, s.tasks[u]);
    }
  }

  /** The files after a step that changes them touch nobody else's marker. */
  predicate OwnFiles(s: State, t: TaskId, f: Files)
    requires t in s.tasks
  {
    && (forall p :: p in s.marker && p != s.tasks[t].path ==> p in f.marker && f.marker[p] == s.marker[p])
    && (forall i :: i in s.body && i in s.maker ==> i in f.body && i in f.maker && f.maker[i] == s.maker[i])
    && (forall i :: i in s.body && i in s.maker && s.maker[i] != t ==> i in f.body && f.body[i] == s.body[i])
  }

  lemma {:induction false} TaskKeepsOthers(s: State, t: TaskId, task': Task, f: Files)
    requires GuardOk(s.tasks, s.guard) && MarkersOk(FilesOf(s), s.tasks) && t in s.tasks
    requires OwnFiles(s, t, f) && FilesOk(f) && MarkerOk(f, t, task')
    requires !HasGuard(s.tasks[t].pc) ==> f == FilesOf(s)
    ensures MarkersOk(f, s.tasks[t := task'])
  {
    if HasGuard(s.tasks[t].pc) {
      OthersKeepMarkers(s, t, task', f);
    }
  }

  lemma {:induction false} AcquireOwnFiles(s: State, t: TaskId, step: AcquireStep)
    requires MarkersOk(FilesOf(s), s.tasks) && t in s.tasks && AcquireEnabled(s, t, step)
    ensures OwnFiles(s, t, AcquireFiles(s, t, step)) && FilesOk(AcquireFiles(s, t, step))
    ensures !HasGuard(s.tasks[t].pc) ==> AcquireFiles(s, t, step) == FilesOf(s)
  {
    assert MarkerOk(FilesOf(s), t, s.tasks[t]);
  }

  lemma {:induction false} AcquireOwnMarker(s: State, t: TaskId, step: AcquireStep)
    requires MarkersOk(FilesOf(s), s.tasks) && t in s.tasks && AcquireEnabled(s, t, step)
    ensures MarkerOk(AcquireFiles(s, t, step), t, s.tasks[t].(pc := AcquirePc(s, t, step)))
  {
    assert MarkerOk(FilesOf(s), t, s.tasks[t]);
  }

  lemma {:induction false} AcquireMarkers(s: State, t: TaskId, step: AcquireStep)
    requires GuardOk(s.tasks, s.guard) && MarkersOk(FilesOf(s), s.tasks)
    requires t in s.tasks && AcquireEnabled(s, t, step)
    ensures MarkersOk(AcquireFiles(s, t, step), Moved(s.tasks, t, AcquirePc(s, t, step)))
  {
    AcquireOwnFiles(s, t, step);
    AcquireOwnMarker(s, t, step);
    TaskKeepsOthers(s, t, s.tasks[t].(pc := AcquirePc(s, t, step)), AcquireFiles(s, t, step));
  }

  lemma {:induction false} DropOwn(s: State, t: TaskId, d: DropStep)
    requires MarkersOk(FilesOf(s), s.tasks) && t in s.tasks && DropEnabled(s.tasks[t].pc, d)
    ensures var f := DropFiles(FilesOf(s), s.tasks[t].path, d);
            OwnFiles(s, t, f) && FilesOk(f) && MarkerOk(f, t, s.tasks[t].(pc := DropPc(s.tasks[t].pc, d)))
  {
    assert MarkerOk(FilesOf(s), t, s.tasks[t]);
  }

  lemma {:induction false} DropMarkers(s: State, t: TaskId, d: DropStep)
    requires GuardOk(s.tasks, s.guard) && MarkersOk(FilesOf(s), s.tasks)
    requires t in s.tasks && DropEnabled(s.tasks[t].pc, d)
    ensures MarkersOk(DropFiles(FilesOf(s), s.tasks[t].path, d), Moved(s.tasks, t, DropPc(s.tasks[t].pc, d)))
  {
    DropOwn(s, t, d);
    TaskKeepsOthers(s, t, s.tasks[t].(pc := DropPc(s.tasks[t].pc, d)), DropFiles(FilesOf(s), s.tasks[t].path, d));
  }

  /** A heartbeat, however late, writes back what its inode already holds. */
  lemma {:induction false} BeatWritesNothingNew(s: State, t: TaskId)
    requires BeatsOk(FilesOf(s), s.tasks, s.beats) && Enabled(s, BeatWrite(t))
    ensures Step(s, BeatWrite(t)).body == s.body
  {
    assert BeatOk(FilesOf(s), s.tasks, t, s.beats[t]);
  }

  lemma {:induction false} StepMarkers(s: State, a: Action)
    requires GuardOk(s.tasks, s.guard) && MarkersOk(FilesOf(s), s.tasks) && Enabled(s, a)
    requires BeatsOk(FilesOf(s), s.tasks, s.beats)
    ensures MarkersOk(FilesOf(Step(s, a)), Step(s, a).tasks)
  {
    match a
    case Acquire(t, step) => AcquireMarkers(s, t, step);
    case Drop(t, d) => DropMarkers(s, t, d);
    case BeatWrite(t) => BeatWritesNothingNew(s, t);
    case _ =>
  }

  // ---- the heartbeats ------------------------------------------------------------------------------

  /** A task without a heartbeat leaves every heartbeat as it is. */
  lemma {:induction false} OthersKeepBeats(s: State, t: TaskId, task': Task, f: Files)
    requires BeatsOk(FilesOf(s), s.tasks, s.beats) && t in s.tasks && t !in s.beats && OwnFiles(s, t, f)
    ensures BeatsOk(f, s.tasks[t := task'], s.beats)
  {
    forall u | u in s.beats ensures BeatOk(f, s.tasks[t := task'], u, s.beats[u]) {
      assert BeatOk(FilesOf(s), s.tasks, u, s.beats[u]);
    }
  }

  lemma {:induction false} NoBeatYet(s: State, t: TaskId)
    requires BeatsOk(FilesOf(s), s.tasks, s.beats) && t in s.tasks && !PastHold(s.tasks[t].pc)
    ensures t !in s.beats
  {
    if t in s.beats {
      var ok := BeatOk(FilesOf(s), s.tasks, t, s.beats[t]);
    }
  }

  lemma {:induction false} AcquireBeats(s: State, t: TaskId, step: AcquireStep)
    requires MarkersOk(FilesOf(s), s.tasks) && BeatsOk(FilesOf(s), s.tasks, s.beats)
    requires t in s.tasks && AcquireEnabled(s, t, step)
    ensures BeatsOk(AcquireFiles(s, t, step), Moved(s.tasks, t, AcquirePc(s, t, step)), StepAcquire(s, t, step).beats)
  {
    NoBeatYet(s, t);
    AcquireOwnFiles(s, t, step);
    OthersKeepBeats(s, t, s.tasks[t].(pc := AcquirePc(s, t, step)), AcquireFiles(s, t, step));
    if step.Hold? {
      assert MarkerOk(FilesOf(s), t, s.tasks[t]);
    }
  }

  lemma {:induction false} DropBeats(s: State, t: TaskId, d: DropStep)
    requires MarkersOk(FilesOf(s), s.tasks) && BeatsOk(FilesOf(s), s.tasks, s.beats)
    requires t in s.tasks && DropEnabled(s.tasks[t].pc, d)
    ensures var s' := StepDrop(s, t, d); BeatsOk(FilesOf(s'), s'.tasks, s'.beats)
  {
    var s' := StepDrop(s, t, d);
    forall u | u in s'.beats ensures BeatOk(FilesOf(s'), s'.tasks, u, s'.beats[u]) {
      assert BeatOk(FilesOf(s), s.tasks, u, s.beats[u]);
    }
  }

  lemma {:induction false} StepBeats(s: State, a: Action)
    requires MarkersOk(FilesOf(s), s.tasks) && BeatsOk(FilesOf(s), s.tasks, s.beats) && Enabled(s, a)
    ensures var s' := Step(s, a); BeatsOk(FilesOf(s'), s'.tasks, s'.beats)
  {
    match a
    case Acquire(t, step) => AcquireBeats(s, t, step);
    case Drop(t, d) => DropBeats(s, t, d);
    case BeatWrite(t) => BeatWritesNothingNew(s, t);
    case _ =>
  }

  // ---- the count -------------------------------------------------------------------------------------

  /** The live Locks of one process. */
  function Live(tasks: Tasks, agent: Agent): (r: set<TaskId>) {
    set t | t in tasks && tasks[t].agent == agent && Counting(tasks[t].pc)
  }

  ghost predicate CountOk(tasks: Tasks, count: map<Agent, nat>) {
    forall a :: Tally(count, a) == |Live(tasks, a)|
  }

  lemma {:induction false} LiveMoves(tasks: Tasks, t: TaskId, pc: Pc, a: Agent)
    requires t in tasks
    ensures Live(Moved(tasks, t, pc), a)
         == if tasks[t].agent == a && Counting(pc) then Live(tasks, a) + {t}
            else Live(tasks, a) - (if tasks[t].agent == a then {t} else {})
  {}

  lemma {:induction false} CountSame(tasks: Tasks, count: map<Agent, nat>, t: TaskId, pc: Pc)
    requires CountOk(tasks, count) && t in tasks && Counting(pc) == Counting(tasks[t].pc)
    ensures CountOk(Moved(tasks, t, pc), count)
  {
    forall a ensures Tally(count, a) == |Live(Moved(tasks, t, pc), a)| {
      LiveMoves(tasks, t, pc, a);
      assert Live(Moved(tasks, t, pc), a) == Live(tasks, a);
    }
  }

  lemma {:induction false} CountUp(tasks: Tasks, count: map<Agent, nat>, t: TaskId, pc: Pc)
    requires CountOk(tasks, count) && t in tasks && Counting(pc) && !Counting(tasks[t].pc)
    ensures CountOk(Moved(tasks, t, pc), count[tasks[t].agent := Tally(count, tasks[t].agent) + 1])
  {
    var count' := count[tasks[t].agent := Tally(count, tasks[t].agent) + 1];
    forall a ensures Tally(count', a) == |Live(Moved(tasks, t, pc), a)| {
      LiveMoves(tasks, t, pc, a);
      assert a != tasks[t].agent ==> Live(Moved(tasks, t, pc), a) == Live(tasks, a);
    }
  }

  /** A Lock being dropped is among those counted, so the decrement never wraps. */
  lemma {:induction false} CountDown(tasks: Tasks, count: map<Agent, nat>, t: TaskId, pc: Pc)
    requires CountOk(tasks, count) && t in tasks && !Counting(pc) && Counting(tasks[t].pc)
    ensures Tally(count, tasks[t].agent) > 0
    ensures CountOk(Moved(tasks, t, pc), count[tasks[t].agent := Tally(count, tasks[t].agent) - 1])
  {
    assert t in Live(tasks, tasks[t].agent);
    assert Tally(count, tasks[t].agent) == |Live(tasks, tasks[t].agent)|;
    var count' := count[tasks[t].agent := Tally(count, tasks[t].agent) - 1];
    forall a ensures Tally(count', a) == |Live(Moved(tasks, t, pc), a)| {
      LiveMoves(tasks, t, pc, a);
      assert a != tasks[t].agent ==> Live(Moved(tasks, t, pc), a) == Live(tasks, a);
    }
  }

  lemma {:induction false} CountKill(tasks: Tasks, count: map<Agent, nat>, agent: Agent)
    requires CountOk(tasks, count)
    ensures CountOk(Survivors(tasks, agent), count - {agent})
  {
    forall a ensures Tally(count - {agent}, a) == |Live(Survivors(tasks, agent), a)| {
      assert a == agent ==> Live(Survivors(tasks, agent), a) == {};
      assert a != agent ==> Live(Survivors(tasks, agent), a) == Live(tasks, a);
    }
  }

  lemma {:induction false} CountSpawn(tasks: Tasks, count: map<Agent, nat>, t: TaskId, task: Task)
    requires CountOk(tasks, count) && t !in tasks && !Counting(task.pc)
    ensures CountOk(tasks[t := task], count)
  {
    forall a ensures Tally(count, a) == |Live(tasks[t := task], a)| {
      assert Live(tasks[t := task], a) == Live(tasks, a);
    }
  }

  lemma {:induction false} AcquireCount(s: State, t: TaskId, step: AcquireStep)
    requires CountOk(s.tasks, s.count) && t in s.tasks && AcquireEnabled(s, t, step)
    ensures CountOk(StepAcquire(s, t, step).tasks, StepAcquire(s, t, step).count)
  {
    if step.Hold? {
      CountUp(s.tasks, s.count, t, Held(s.tasks[t].pc.ino));
    } else {
      CountSame(s.tasks, s.count, t, AcquirePc(s, t, step));
    }
  }

  lemma {:induction false} DropCount(s: State, t: TaskId, d: DropStep)
    requires CountOk(s.tasks, s.count) && t in s.tasks && DropEnabled(s.tasks[t].pc, d)
    ensures CountOk(StepDrop(s, t, d).tasks, StepDrop(s, t, d).count)
  {
    if d.Uncount? {
      CountDown(s.tasks, s.count, t, Uncounted);
    } else {
      CountSame(s.tasks, s.count, t, DropPc(s.tasks[t].pc, d));
    }
  }

  lemma {:induction false} StepCount(s: State, a: Action)
    requires CountOk(s.tasks, s.count) && Enabled(s, a)
    ensures CountOk(Step(s, a).tasks, Step(s, a).count)
  {
    match a
    case Spawn(t, agent, path) => CountSpawn(s.tasks, s.count, t, Task(agent, path, Opening));
    case Acquire(t, step) => AcquireCount(s, t, step);
    case Drop(t, d) => DropCount(s, t, d);
    case Kill(agent) => CountKill(s.tasks, s.count, agent);
    case _ =>
  }

  // ---- every reachable state ---------------------------------------------------------------------

  lemma {:induction false} StepInv(s: State, a: Action)
    requires Inv(s) && Enabled(s, a)
    ensures Inv(Step(s, a))
  {
    StepGuard(s, a);
    StepMarkers(s, a);
    StepBeats(s, a);
    StepCount(s, a);
  }

  /** A boot: nothing runs, and whatever markers earlier agents left are there. */
  predicate Boots(s: State) {
    s.tasks == map[] && s.guard == map[] && s.beats == map[] && s.count == map[] && FilesOk(FilesOf(s))
  }

  lemma {:induction false} BootInv(s: State)
    requires Boots(s)
    ensures Inv(s)
  {
    forall a ensures Tally(s.count, a) == |Live(s.tasks, a)| {
      assert Live(s.tasks, a) == {};
    }
  }

  predicate Runs(s: State, acts: seq<Action>)
    decreases |acts|
  {
    acts == [] || (Enabled(s, acts[0]) && Runs(Step(s, acts[0]), acts[1..]))
  }

  function After(s: State, acts: seq<Action>): State
    requires Runs(s, acts)
    decreases |acts|
  {
    if acts == [] then s else After(Step(s, acts[0]), acts[1..])
  }

  lemma {:induction false} RunInv(s: State, acts: seq<Action>)
    requires Inv(s) && Runs(s, acts)
    ensures Inv(After(s, acts))
    decreases |acts|
  {
    if acts != [] {
      StepInv(s, acts[0]);
      RunInv(Step(s, acts[0]), acts[1..]);
    }
  }

  /** At most one task is between taking the kernel lock of a path and closing it. */
  predicate Exclusive(s: State) {
    forall t, u :: t in s.tasks && u in s.tasks && t != u && HasGuard(s.tasks[t].pc) && HasGuard(s.tasks[u].pc)
      ==> s.tasks[t].path != s.tasks[u].path
  }

  /** The path of every live Lock names the inode that Lock created, with its complete text. */
  predicate HoldersMarked(s: State) {
    forall t :: t in s.tasks && s.tasks[t].pc.Held? ==>
      var path, ino := s.tasks[t].path, s.tasks[t].pc.ino;
      && path in s.marker && s.marker[path] == ino
      && ino in s.body && s.body[ino] == Body(s.tasks[t].agent)
      && ino in s.maker && s.maker[ino] == t
  }

  /** In every state of every run, whatever markers there were at the start: one holder per path, every live Lock
      marked with its own marker, and each process's counter equal to the number of its live Locks. */
  lemma {:induction false} LockSafety(boot: State, acts: seq<Action>)
    requires Boots(boot) && Runs(boot, acts)
    ensures var s := After(boot, acts);
            Exclusive(s) && HoldersMarked(s) && forall a :: Tally(s.count, a) == |Live(s.tasks, a)|
  {
    BootInv(boot);
    RunInv(boot, acts);
    var s := After(boot, acts);
    assert forall t :: t in s.tasks ==> MarkerOk(FilesOf(s), t, s.tasks[t]);
  }

  /** Whose code an action runs, if it is one of the acquiring threads. */
  predicate ByTask(a: Action, u: TaskId) {
    match a
    case Acquire(t, _) => t == u
    case Drop(t, _) => t == u
    case _ => false
  }

  lemma {:induction false} OthersTask(s: State, a: Action, u: TaskId)
    requires Enabled(s, a) && u in s.tasks && !ByTask(a, u) && a != Kill(s.tasks[u].agent)
    ensures u in Step(s, a).tasks && Step(s, a).tasks[u] == s.tasks[u]
  {}

  /** While a Lock lives, no other task, heartbeat or death of another agent unlinks or rewrites its marker. */
  lemma {:induction false} NobodyElseTouchesTheMarker(s: State, a: Action, u: TaskId)
    requires Inv(s) && Enabled(s, a) && u in s.tasks && !ByTask(a, u) && a != Kill(s.tasks[u].agent)
    requires s.tasks[u].pc.Bodied? || s.tasks[u].pc.Held? || s.tasks[u].pc.Stopping?
    ensures var s' := Step(s, a); var p, ino := s.tasks[u].path, s.tasks[u].pc.ino;
      && p in s'.marker && s'.marker[p] == ino == s.marker[p]
      && ino in s'.body && s'.body[ino] == s.body[ino] == Body(s.tasks[u].agent)
  {
    StepInv(s, a);
    OthersTask(s, a, u);
    assert MarkerOk(FilesOf(s), u, s.tasks[u]);
    assert MarkerOk(FilesOf(Step(s, a)), u, Step(s, a).tasks[u]);
  }

  /** A heartbeat that outlives its Lock writes an inode no later holder's marker names. */
  lemma {:induction false} LateBeatMissesSuccessor(s: State, t: TaskId, u: TaskId)
    requires Inv(s) && t in s.beats && u in s.tasks && t != u && HasMarker(s.tasks[u].pc)
    ensures s.tasks[u].path in s.marker && s.beats[t].ino != s.marker[s.tasks[u].path]
  {
    assert BeatOk(FilesOf(s), s.tasks, t, s.beats[t]);
    assert MarkerOk(FilesOf(s), u, s.tasks[u]);
  }

  // ---- recovery ------------------------------------------------------------------------------------

  /** No other task of this path is running. */
  predicate Alone(s: State, t: TaskId, path: Path) {
    forall u :: u in s.tasks && u != t && s.tasks[u].path == path ==> s.tasks[u].pc.Finished?
  }

  /** There is no marker, or one that no running task made and that is replaceable from this age on. */
  predicate DeadMarker(s: State, path: Path, age: nat) {
    path in s.marker ==>
      && s.marker[path] in s.body && s.marker[path] in s.maker
      && s.maker[s.marker[path]] !in s.tasks
      && Replaceable(s.body[s.marker[path]], true, age)
  }

  /** On the way to the lock. */
  predicate OnTrack(s: State, t: TaskId, path: Path, age: nat) {
    && t in s.tasks && s.tasks[t].path == path && Alone(s, t, path)
    && match s.tasks[t].pc
       case Opening => path !in s.guard && DeadMarker(s, path, age)
       case Guarded(attempt) => if attempt == 0 then DeadMarker(s, path, age) else path !in s.marker
       case Inspecting => path in s.marker && DeadMarker(s, path, age)
       case Replacing => true
       case Created(_) => true
       case Bodied(_) => true
       case _ => false
  }

  /** A step of acquiring in which no system call fails, and a marker is not found younger than it is. */
  predicate CleanStep(step: AcquireStep, age: nat) {
    match step
    case GiveUp => false
    case CreateFails => false
    case Inspect(seen, read) => read && seen >= age
    case RemoveStale(ok) => ok
    case WriteFails => false
    case CloneFails => false
    case _ => true
  }

  /** None of the acquirer's own system calls fails, it is not killed, and nobody else asks for the path. */
  predicate Clean(a: Action, t: TaskId, agent: Agent, path: Path, age: nat) {
    match a
    case Spawn(_, _, p) => p != path
    case Kill(killed) => killed != agent
    case Acquire(u, step) => u == t ==> CleanStep(step, age)
    case _ => true
  }

  lemma {:induction false} EarlyStepOnTrack(s: State, t: TaskId, path: Path, age: nat, step: AcquireStep)
    requires OnTrack(s, t, path, age) && AcquireEnabled(s, t, step) && CleanStep(step, age)
    requires s.tasks[t].pc.Opening? || s.tasks[t].pc.Guarded? || s.tasks[t].pc.Inspecting?
    ensures OnTrack(StepAcquire(s, t, step), t, path, age)
  {}

  lemma {:induction false} LateStepOnTrack(s: State, t: TaskId, path: Path, age: nat, step: AcquireStep)
    requires OnTrack(s, t, path, age) && AcquireEnabled(s, t, step) && CleanStep(step, age)
    requires s.tasks[t].pc.Replacing? || s.tasks[t].pc.Created? || s.tasks[t].pc.Bodied?
    ensures var s' := StepAcquire(s, t, step); OnTrack(s', t, path, age) || s'.tasks[t].pc.Held?
  {}

  lemma {:induction false} StepsDown(s: State, t: TaskId, path: Path, age: nat, step: AcquireStep)
    requires OnTrack(s, t, path, age) && AcquireEnabled(s, t, step) && CleanStep(step, age) && !step.WriteSome?
    ensures Rank(AcquirePc(s, t, step)) < Rank(s.tasks[t].pc)
  {}

  lemma {:induction false} OwnStepOnTrack(s: State, t: TaskId, path: Path, age: nat, step: AcquireStep)
    requires OnTrack(s, t, path, age) && Enabled(s, Acquire(t, step)) && CleanStep(step, age)
    ensures var s' := Step(s, Acquire(t, step));
            OnTrack(s', t, path, age) || (t in s'.tasks && s'.tasks[t].pc.Held?)
  {
    if s.tasks[t].pc.Opening? || s.tasks[t].pc.Guarded? || s.tasks[t].pc.Inspecting? {
      EarlyStepOnTrack(s, t, path, age, step);
    } else {
      LateStepOnTrack(s, t, path, age, step);
    }
  }

  /** How many steps are left. */
  function Rank(pc: Pc): nat {
    match pc
    case Opening => 7
    case Guarded(attempt) => if attempt == 0 then 6 else 3
    case Inspecting => 5
    case Replacing => 4
    case Created(_) => 2
    case Bodied(_) => 1
    case _ => 0
  }

  /** What another's step leaves alone: this path's guard, its marker, and a dead marker's text. */
  predicate StayedAway(s: State, s': State, t: TaskId, path: Path, age: nat) {
    && Alone(s', t, path)
    && (path !in s.guard ==> path !in s'.guard)
    && (path in s'.marker <==> path in s.marker)
    && (DeadMarker(s, path, age) ==> DeadMarker(s', path, age))
  }

  /** An acquire step of another path's task, by its effect on the files. */
  lemma {:induction false} OtherFilesStayAway(s: State, path: Path, age: nat, u: TaskId, step: AcquireStep)
    requires Inv(s) && u in s.tasks && s.tasks[u].path != path && AcquireEnabled(s, u, step)
    ensures var f := AcquireFiles(s, u, step);
            && (path in f.marker <==> path in s.marker)
            && (path in s.marker ==> f.marker[path] == s.marker[path])
            && (forall i :: i in s.body && i in s.maker && s.maker[i] != u ==>
                  i in f.body && f.body[i] == s.body[i] && i in f.maker && f.maker[i] == s.maker[i])
  {
    AcquireOwnFiles(s, u, step);
  }

  lemma {:induction false} OtherAcquireStaysAway(
      s: State, t: TaskId, path: Path, age: nat, u: TaskId, step: AcquireStep)
    requires Inv(s) && u in s.tasks && s.tasks[u].path != path && AcquireEnabled(s, u, step) && Alone(s, t, path)
    ensures StayedAway(s, StepAcquire(s, u, step), t, path, age)
  {
    OtherFilesStayAway(s, path, age, u, step);
    MovedStaysAway(s, t, path, u, AcquirePc(s, u, step));
  }

  lemma {:induction false} MovedStaysAway(s: State, t: TaskId, path: Path, u: TaskId, pc: Pc)
    requires u in s.tasks && s.tasks[u].path != path && Alone(s, t, path)
    ensures Alone(s.(tasks := Moved(s.tasks, u, pc)), t, path)
    ensures path !in s.guard ==> path !in GuardAfter(s.guard, u, s.tasks[u].path, s.tasks[u].pc, pc)
    ensures Moved(s.tasks, u, pc).Keys == s.tasks.Keys
  {}

  lemma {:induction false} OtherDropStaysAway(s: State, t: TaskId, path: Path, age: nat, u: TaskId, d: DropStep)
    requires u in s.tasks && s.tasks[u].path != path && DropEnabled(s.tasks[u].pc, d) && Alone(s, t, path)
    ensures StayedAway(s, StepDrop(s, u, d), t, path, age)
  {
    MovedStaysAway(s, t, path, u, DropPc(s.tasks[u].pc, d));
  }

  lemma {:induction false} OthersStayAway(s: State, t: TaskId, path: Path, age: nat, a: Action)
    requires Inv(s) && t in s.tasks && s.tasks[t].path == path && Alone(s, t, path)
    requires Enabled(s, a) && !ByTask(a, t) && Clean(a, t, s.tasks[t].agent, path, age)
    ensures StayedAway(s, Step(s, a), t, path, age)
  {
    match a
    case Acquire(u, step) => OtherAcquireStaysAway(s, t, path, age, u, step);
    case Drop(u, d) => OtherDropStaysAway(s, t, path, age, u, d);
    case BeatWrite(u) => assert BeatOk(FilesOf(s), s.tasks, u, s.beats[u]);
    case _ =>
  }

  lemma {:induction false} CleanStepOnTrack(s: State, t: TaskId, path: Path, age: nat, a: Action)
    requires Inv(s) && OnTrack(s, t, path, age) && Enabled(s, a) && Clean(a, t, s.tasks[t].agent, path, age)
    ensures OnTrack(Step(s, a), t, path, age) || (t in Step(s, a).tasks && Step(s, a).tasks[t].pc.Held?)
    ensures t in Step(s, a).tasks && Step(s, a).tasks[t].agent == s.tasks[t].agent
  {
    if ByTask(a, t) {
      OwnStepOnTrack(s, t, path, age, a.step);
    } else {
      OthersTask(s, a, t);
      OthersStayAway(s, t, path, age, a);
    }
  }

  predicate AllClean(acts: seq<Action>, t: TaskId, agent: Agent, path: Path, age: nat) {
    forall i :: 0 <= i < |acts| ==> Clean(acts[i], t, agent, path, age)
  }

  /** Through the whole run the acquirer is on its way, until it holds the lock. */
  predicate NeverRefused(s: State, acts: seq<Action>, t: TaskId)
    requires Runs(s, acts)
    decreases |acts|
  {
    && t in s.tasks
    && (s.tasks[t].pc.Held?
        || (!s.tasks[t].pc.Finished? && (acts == [] || NeverRefused(Step(s, acts[0]), acts[1..], t))))
  }

  lemma {:induction false} OnTrackNeverRefused(
      s: State, acts: seq<Action>, t: TaskId, path: Path, age: nat, agent: Agent)
    requires Inv(s) && OnTrack(s, t, path, age) && s.tasks[t].agent == agent
    requires Runs(s, acts) && AllClean(acts, t, agent, path, age)
    ensures NeverRefused(s, acts, t)
    decreases |acts|
  {
    if acts != [] {
      var s' := Step(s, acts[0]);
      StepInv(s, acts[0]);
      CleanStepOnTrack(s, t, path, age, acts[0]);
      if OnTrack(s', t, path, age) {
        OnTrackNeverRefused(s', acts[1..], t, path, age, agent);
      }
    }
  }

  lemma {:induction false} FreshInode(used: set<Inode>) returns (ino: Inode)
    ensures forall i :: i in used ==> i < ino
    decreases used
  {
    if used == {} {
      ino := 0;
    } else {
      var one :| one in used;
      var rest := FreshInode(used - {one});
      ino := if rest > one then rest else one + 1;
      assert forall i :: i in used ==> i == one || i in used - {one};
    }
  }

  /** Some clean step of its own is enabled until it holds the lock. */
  lemma {:induction false} CanGoOn(s: State, t: TaskId, path: Path, age: nat) returns (step: AcquireStep)
    requires Inv(s) && OnTrack(s, t, path, age)
    ensures Enabled(s, Acquire(t, step)) && CleanStep(step, age) && !step.WriteSome?
  {
    var ino := FreshInode(s.body.Keys + s.maker.Keys);
    assert ino !in s.body.Keys + s.maker.Keys;
    match s.tasks[t].pc
    case Opening => step := TakeGuard;
    case Guarded(_) => step := if path in s.marker then FindExisting else CreateNew(ino);
    case Inspecting => step := Inspect(age, true);
    case Replacing => step := RemoveStale(true);
    case Created(_) => step := WriteAll;
    case Bodied(_) => step := Hold(true);
  }

  /** So its own steps alone take it there. */
  lemma {:induction false} ReachesHeld(s: State, t: TaskId, path: Path, age: nat) returns (acts: seq<Action>)
    requires Inv(s) && OnTrack(s, t, path, age)
    ensures Runs(s, acts) && t in After(s, acts).tasks && After(s, acts).tasks[t].pc.Held?
    ensures forall i :: 0 <= i < |acts| ==> ByTask(acts[i], t)
    decreases Rank(s.tasks[t].pc)
  {
    var step := CanGoOn(s, t, path, age);
    var a := Acquire(t, step);
    var s' := Step(s, a);
    StepInv(s, a);
    OwnStepOnTrack(s, t, path, age, step);
    StepsDown(s, t, path, age, step);
    var rest: seq<Action> := [];
    if s'.tasks[t].pc.Held? {
      assert After(s', rest) == s';
    } else {
      rest := ReachesHeld(s', t, path, age);
    }
    acts := [a] + rest;
    assert acts[1..] == rest;
  }

  /** With the kernel lock free and no marker, or one that no running task made and that is old enough or names the
      kernel lock: no run refuses the next acquire, if nothing of its own fails and nobody else asks for the path,
      and its own steps suffice to hold the lock. */
  lemma {:induction false} FreeLockIsTakenOver(
      s: State, t: TaskId, agent: Agent, path: Path, age: nat, acts: seq<Action>) returns (own: seq<Action>)
    requires Inv(s) && Enabled(s, Spawn(t, agent, path)) && path !in s.guard && Alone(s, t, path)
    requires DeadMarker(s, path, age)
    requires Runs(Step(s, Spawn(t, agent, path)), acts) && AllClean(acts, t, agent, path, age)
    ensures NeverRefused(Step(s, Spawn(t, agent, path)), acts, t)
    ensures var s' := Step(s, Spawn(t, agent, path));
            Runs(s', own) && t in After(s', own).tasks && After(s', own).tasks[t].pc.Held?
  {
    var s' := Step(s, Spawn(t, agent, path));
    StepInv(s, Spawn(t, agent, path));
    OnTrackNeverRefused(s', acts, t, path, age, agent);
    own := ReachesHeld(s', t, path, age);
  }

  /** In particular after a holder was killed once its marker body was written, whatever the marker's age. */
  lemma {:induction false} KilledHolderIsReplaced(
      s: State, u: TaskId, t: TaskId, next: Agent, acts: seq<Action>) returns (own: seq<Action>)
    requires Inv(s) && u in s.tasks && VersionText(s.tasks[u].agent.version)
    requires s.tasks[u].pc.Bodied? || s.tasks[u].pc.Held? || s.tasks[u].pc.Stopping?
    requires Enabled(s, Spawn(t, next, s.tasks[u].path)) && next != s.tasks[u].agent
    requires var dead := Step(s, Kill(s.tasks[u].agent)); Alone(dead, t, s.tasks[u].path)
    requires var s' := Step(Step(s, Kill(s.tasks[u].agent)), Spawn(t, next, s.tasks[u].path));
             Runs(s', acts) && AllClean(acts, t, next, s.tasks[u].path, 0)
    ensures var s' := Step(Step(s, Kill(s.tasks[u].agent)), Spawn(t, next, s.tasks[u].path));
            && NeverRefused(s', acts, t)
            && Runs(s', own) && t in After(s', own).tasks && After(s', own).tasks[t].pc.Held?
  {
    var agent, path := s.tasks[u].agent, s.tasks[u].path;
    StepInv(s, Kill(agent));
    assert MarkerOk(FilesOf(s), u, s.tasks[u]);
    CompleteMarkerIsReplaced(agent.pid, agent.version);
    own := FreeLockIsTakenOver(Step(s, Kill(agent)), t, next, path, 0, acts);
  }
}
