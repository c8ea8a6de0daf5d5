/**
 The durable session-ID ledger: temp file, fsync, rename, directory fsync, then the in-memory map.
 The disk keeps two views. A process crash leaves the volatile view; a machine crash leaves the
 durable one plus any of the renames not yet synced. Record names are injective in the session ID.
 */
module HomeCleanup {
  import opened Text
  import JsonString

  type Id = string
  datatype Terminal = Stopped | Failed
  datatype Record = Active(id: Id) | Retired(id: Id, terminal: Terminal)

  // ---- the size a record takes on disk -------------------------------------------------------

  const MAX_RECORD_BYTES := 4096

  /** Length of the record's JSON text in bytes; all of it but the quoted ID is ASCII. */
  function RecordBytes(r: Record): nat {
    |Utf8(JsonString.Quote(r.id))| +
    match r
    case Active(_) => |"{\"phase\":\"active\",\"session_id\":}"|
    case Retired(_, Stopped) => |"{\"phase\":\"retired\",\"session_id\":,\"terminal\":\"stopped\"}"|
    case Retired(_, Failed) => |"{\"phase\":\"retired\",\"session_id\":,\"terminal\":\"failed\"}"|
  }

  /** Retiring an ID lengthens its record. */
  lemma RetiredIsLonger(id: Id, t: Terminal)
    ensures RecordBytes(Active(id)) < RecordBytes(Retired(id, t))
  {}

  // ---- the disk ------------------------------------------------------------------------------

  /** `Final` is the hash of an ID, `Temp` an unfinished replacement (it has an extension). */
  datatype Name = Final(id: Id) | Temp(id: Id, pid: nat, sequence: nat) | Foreign(text: string)
  datatype Data = Torn | Whole(record: Record)
  datatype Entry = NotAFile | File(data: Data, synced: bool)
  type Dir = map<Name, Entry>

  datatype Root = Missing | Unsynced | Synced
  datatype Change = Change(name: Name, entry: Entry)

  /** `pending` holds the renames since the directory was last synced. */
  datatype Disk = Disk(root: Root, volatile: Dir, durable: Dir, pending: seq<Change>)

  /** What a machine crash can make of a file: all of it if it was synced, anything if not. */
  predicate Survives(before: Entry, after: Entry) {
    if before.File? && !before.synced then after.File? else after == before
  }

  ghost predicate FromPending(pending: seq<Change>, n: Name, after: Entry) {
    exists i :: 0 <= i < |pending| && pending[i].name == n && Survives(pending[i].entry, after)
  }

  /** A directory a machine crash can leave; unfinished temps may be in any state. */
  ghost predicate CrashOutcome(d: Disk, after: Dir) {
    && (forall n :: n in after && !n.Temp? ==>
          (n in d.durable && Survives(d.durable[n], after[n])) || FromPending(d.pending, n, after[n]))
    && (forall n :: n in d.durable && !n.Temp? ==> n in after)
  }

  /** The checks `open` makes on an entry that is not an unfinished temp. */
  predicate EntryLoads(n: Name, e: Entry) {
    && e.File? && e.data.Whole?
    && RecordBytes(e.data.record) <= MAX_RECORD_BYTES
    && n == Final(e.data.record.id)
  }

  ghost predicate Loadable(d: Dir) {
    forall n :: n in d && !n.Temp? ==> EntryLoads(n, d[n])
  }

  /** The records of a loadable directory, by ID. */
  ghost function Loaded(d: Dir): (m: map<Id, Record>)
    requires Loadable(d)
    ensures forall id :: id in m <==> Final(id) in d
    ensures forall id :: id in m ==> d[Final(id)].data == Whole(m[id]) && m[id].id == id
  {
    assert forall n :: n in d && n.Final? ==> EntryLoads(n, d[n]);
    map n | n in d && n.Final? :: n.id := d[n].data.record
  }

  // ---- the machine ---------------------------------------------------------------------------

  /** How far one `write` has come. */
  datatype Stage = Begun | Created(temp: Name) | Filled(temp: Name) | Flushed(temp: Name) | Renamed
  datatype Op = Idle | Writing(record: Record, stage: Stage)
  datatype Process =
    | Down
    | RootMade
    | ParentSynced
    | RootSynced
    | Up(records: map<Id, Record>, op: Op)

  datatype State = State(disk: Disk, proc: Process)

  datatype Action =
    | ProcessCrash
    | MachineCrash(after: Dir)
    | RootLost
    | MakeRoot
    | SyncParent
    | SyncRoot
    | Load
    | Begin(record: Record)
    | CreateTemp(temp: Name)
    | Fill
    | FlushFile
    | RenameOver
    | SyncDir
    | Fail
    | AnswerKnown(id: Id)

  /** What the outside sees: an accepted assignment, a terminal verdict, a refused open. */
  datatype Event = Quiet | Accepted(id: Id) | Answered(id: Id, terminal: Terminal) | OpenRefused

  predicate IsRetired(records: map<Id, Record>, id: Id) {
    id in records && records[id].Retired?
  }

  ghost predicate Enabled(s: State, a: Action) {
    var d, p := s.disk, s.proc;
    match a
    case ProcessCrash => true
    case MachineCrash(after) => d.root != Missing && CrashOutcome(d, after)
    case RootLost => d.root == Unsynced
    case MakeRoot => p.Down?
    case SyncParent => p.RootMade?
    case SyncRoot => p.ParentSynced?
    case Load => p.RootSynced?
    case Begin(r) =>
      p.Up? && p.op.Idle? && (if r.Active? then r.id !in p.records else !IsRetired(p.records, r.id))
    case CreateTemp(t) =>
      p.Up? && p.op.Writing? && p.op.stage.Begun? && t.Temp? && t.id == p.op.record.id && t !in d.volatile
    case Fill => p.Up? && p.op.Writing? && p.op.stage.Created?
    case FlushFile => p.Up? && p.op.Writing? && p.op.stage.Filled?
    case RenameOver => p.Up? && p.op.Writing? && p.op.stage.Flushed? && p.op.stage.temp in d.volatile
    case SyncDir => p.Up? && p.op.Writing? && p.op.stage.Renamed?
    case Fail => p.RootMade? || p.ParentSynced? || p.RootSynced? || (p.Up? && p.op.Writing?)
    case AnswerKnown(id) => p.Up? && p.op.Idle? && IsRetired(p.records, id)
  }

  function At(p: Process, stage: Stage): Process
    requires p.Up? && p.op.Writing?
  {
    p.(op := p.op.(stage := stage))
  }

  ghost function Step(s: State, a: Action): (s': State)
    requires Enabled(s, a)
  {
    var d, p := s.disk, s.proc;
    match a
    case ProcessCrash => State(d, Down)
    case MachineCrash(after) => State(Disk(Synced, after, after, []), Down)
    case RootLost => State(Disk(Missing, map[], map[], []), Down)
    case MakeRoot => State(if d.root == Missing then Disk(Unsynced, map[], map[], []) else d, RootMade)
    case SyncParent => State(d.(root := Synced), ParentSynced)
    case SyncRoot => State(d.(durable := d.volatile, pending := []), RootSynced)
    case Load => State(d, if Loadable(d.volatile) then Up(Loaded(d.volatile), Idle) else Down)
    case Begin(r) => State(d, p.(op := Writing(r, Begun)))
    case CreateTemp(t) => State(d.(volatile := d.volatile[t := File(Torn, false)]), At(p, Created(t)))
    case Fill =>
      var t := p.op.stage.temp;
      State(d.(volatile := d.volatile[t := File(Whole(p.op.record), false)]), At(p, Filled(t)))
    case FlushFile =>
      var t := p.op.stage.temp;
      State(d.(volatile := d.volatile[t := File(Whole(p.op.record), true)]), At(p, Flushed(t)))
    case RenameOver =>
      var t := p.op.stage.temp;
      var n, e := Final(p.op.record.id), d.volatile[t];
      State(d.(volatile := (d.volatile - {t})[n := e], pending := d.pending + [Change(n, e)]), At(p, Renamed))
    case SyncDir =>
      State(d.(durable := d.volatile, pending := []),
            Up(p.records[p.op.record.id := p.op.record], Idle))
    case Fail => State(d, if p.Up? then p.(op := Idle) else Down)
    case AnswerKnown(_) => s
  }

  ghost function Emits(s: State, a: Action): (e: Event)
    requires Enabled(s, a)
  {
    match a
    case Load => if Loadable(s.disk.volatile) then Quiet else OpenRefused
    case SyncDir =>
      (match s.proc.op.record
       case Active(id) => Accepted(id)
       case Retired(id, t) => Answered(id, t))
    case AnswerKnown(id) => Answered(id, s.proc.records[id].terminal)
    case _ => Quiet
  }

  const Fresh := State(Disk(Missing, map[], map[], []), Down)

  // ---- what every step keeps -----------------------------------------------------------------

  /** A record file as the ledger itself leaves it: whole, synced, under its own name. */
  predicate Settled(n: Name, e: Entry) {
    n.Final? && e.File? && e.synced && e.data.Whole? && e.data.record.id == n.id
  }

  predicate SettledDir(d: Dir) {
    forall n :: n in d && !n.Temp? ==> Settled(n, d[n])
  }

  predicate SettledChanges(c: seq<Change>) {
    forall i :: 0 <= i < |c| ==> Settled(c[i].name, c[i].entry)
  }

  predicate Unpending(c: seq<Change>, n: Name) {
    forall i :: 0 <= i < |c| ==> c[i].name != n
  }

  /** `e` is what the name holds, volatile and durable alike, with no rename outstanding. */
  predicate Fixed(d: Disk, n: Name, e: Entry) {
    n in d.volatile && n in d.durable && d.volatile[n] == e && d.durable[n] == e && Unpending(d.pending, n)
  }

  function RetiredEntry(id: Id, t: Terminal): Entry {
    File(Whole(Retired(id, t)), true)
  }

  /** Everything in memory is on disk for good; a retired record admits no other outcome. */
  predicate Backed(d: Disk, records: map<Id, Record>) {
    forall id :: id in records ==>
      && records[id].id == id
      && Final(id) in d.volatile && Final(id) in d.durable
      && (records[id].Retired? ==> Fixed(d, Final(id), RetiredEntry(id, records[id].terminal)))
  }

  predicate OpOk(d: Disk, records: map<Id, Record>, op: Op) {
    op.Writing? ==>
      && (if op.record.Active? then op.record.id !in records else !IsRetired(records, op.record.id))
      && (match op.stage
          case Begun => true
          case Created(t) => t.Temp?
          case Filled(t) => t.Temp?
          case Flushed(t) => t.Temp? && t in d.volatile && d.volatile[t] == File(Whole(op.record), true)
          case Renamed =>
            Final(op.record.id) in d.volatile && d.volatile[Final(op.record.id)] == File(Whole(op.record), true))
  }

  predicate Inv(s: State) {
    var d := s.disk;
    && SettledDir(d.volatile) && SettledDir(d.durable) && SettledChanges(d.pending)
    && (d.root == Missing ==> d == Fresh.disk && s.proc.Down?)
    && (s.proc.ParentSynced? || s.proc.RootSynced? || s.proc.Up? ==> d.root == Synced)
    && (s.proc.RootSynced? ==> d.durable == d.volatile && d.pending == [])
    && (s.proc.Up? ==> Backed(d, s.proc.records) && OpOk(d, s.proc.records, s.proc.op))
  }

  /** A verdict given out: on disk beyond recall, and in memory whenever the ledger is open. */
  predicate Promised(s: State, id: Id, t: Terminal) {
    && s.disk.root == Synced
    && Fixed(s.disk, Final(id), RetiredEntry(id, t))
    && (s.proc.Up? ==> id in s.proc.records && s.proc.records[id] == Retired(id, t))
  }

  /** An ID once accepted: some record of it is on disk beyond recall, and in memory when open. */
  predicate Known(s: State, id: Id) {
    && s.disk.root == Synced
    && Final(id) in s.disk.volatile && Final(id) in s.disk.durable
    && (s.proc.Up? ==> id in s.proc.records)
  }

  // ---- one step ------------------------------------------------------------------------------

  /** Whatever a crash leaves of a settled disk is settled. */
  lemma {:induction false} CrashSettled(d: Disk, after: Dir)
    requires SettledDir(d.durable) && SettledChanges(d.pending) && CrashOutcome(d, after)
    ensures SettledDir(after)
  {
    forall n | n in after && !n.Temp? ensures Settled(n, after[n]) {
      if !(n in d.durable && Survives(d.durable[n], after[n])) {
        var i :| 0 <= i < |d.pending| && d.pending[i].name == n && Survives(d.pending[i].entry, after[n]);
      }
    }
  }

  /** A name with one fixed content keeps it through a machine crash. */
  lemma {:induction false} CrashKeepsFixed(d: Disk, after: Dir, n: Name, e: Entry)
    requires CrashOutcome(d, after) && Fixed(d, n, e) && Settled(n, e)
    ensures n in after && after[n] == e
  {}

  lemma {:induction false} StepInv(s: State, a: Action)
    requires Inv(s) && Enabled(s, a)
    ensures Inv(Step(s, a))
  {
    match a
    case MachineCrash(after) => CrashSettled(s.disk, after);
    case _ =>
  }

  /** A verdict once given stays on disk and in memory through every step, crashes included. */
  lemma {:induction false} StepPromised(s: State, a: Action, id: Id, t: Terminal)
    requires Inv(s) && Enabled(s, a) && Promised(s, id, t)
    ensures Promised(Step(s, a), id, t)
  {
    match a
    case MachineCrash(after) => CrashKeepsFixed(s.disk, after, Final(id), RetiredEntry(id, t));
    case _ =>
  }

  lemma {:induction false} StepKnown(s: State, a: Action, id: Id)
    requires Inv(s) && Enabled(s, a) && Known(s, id)
    ensures Known(Step(s, a), id)
  {}

  /** Giving a verdict makes it permanent; a verdict already given is the only one left to give. */
  lemma {:induction false} AnswerPromises(s: State, a: Action)
    requires Inv(s) && Enabled(s, a) && Emits(s, a).Answered?
    ensures Promised(Step(s, a), Emits(s, a).id, Emits(s, a).terminal)
  {}

  lemma {:induction false} PromiseAnswers(s: State, a: Action, id: Id, t: Terminal, u: Terminal)
    requires Inv(s) && Enabled(s, a) && Promised(s, id, t) && Emits(s, a) == Answered(id, u)
    ensures u == t
  {}

  lemma {:induction false} AcceptMakesKnown(s: State, a: Action)
    requires Inv(s) && Enabled(s, a) && Emits(s, a).Accepted?
    ensures Known(Step(s, a), Emits(s, a).id) && !Known(s, Emits(s, a).id)
  {}

  // ---- runs ----------------------------------------------------------------------------------

  ghost predicate Runs(s: State, acts: seq<Action>)
    decreases |acts|
  {
    acts == [] || (Enabled(s, acts[0]) && Runs(Step(s, acts[0]), acts[1..]))
  }

  /** The state before action `i` of a run. */
  ghost function StateAt(s: State, acts: seq<Action>, i: nat): State
    requires Runs(s, acts) && i <= |acts|
    ensures i < |acts| ==> Enabled(StateAt(s, acts, i), acts[i])
    decreases i
  {
    if i == 0 then s else StateAt(Step(s, acts[0]), acts[1..], i - 1)
  }

  ghost function EventAt(s: State, acts: seq<Action>, i: nat): Event
    requires Runs(s, acts) && i < |acts|
  {
    Emits(StateAt(s, acts, i), acts[i])
  }

  lemma {:induction false} RunInv(s: State, acts: seq<Action>, i: nat)
    requires Inv(s) && Runs(s, acts) && i <= |acts|
    ensures Inv(StateAt(s, acts, i))
    decreases i
  {
    if i > 0 {
      StepInv(s, acts[0]);
      RunInv(Step(s, acts[0]), acts[1..], i - 1);
    }
  }

  lemma {:induction false} RunPromised(s: State, acts: seq<Action>, j: nat, id: Id, t: Terminal)
    requires Inv(s) && Runs(s, acts) && j <= |acts| && Promised(s, id, t)
    ensures Promised(StateAt(s, acts, j), id, t)
    decreases j
  {
    if j > 0 {
      StepInv(s, acts[0]);
      StepPromised(s, acts[0], id, t);
      RunPromised(Step(s, acts[0]), acts[1..], j - 1, id, t);
    }
  }

  lemma {:induction false} RunKnown(s: State, acts: seq<Action>, j: nat, id: Id)
    requires Inv(s) && Runs(s, acts) && j <= |acts| && Known(s, id)
    ensures Known(StateAt(s, acts, j), id)
    decreases j
  {
    if j > 0 {
      StepInv(s, acts[0]);
      StepKnown(s, acts[0], id);
      RunKnown(Step(s, acts[0]), acts[1..], j - 1, id);
    }
  }

  /** Once an ID has a verdict, every later answer in every later process is that verdict. */
  lemma {:induction false} VerdictNeverChanges(
      s: State, acts: seq<Action>, i: nat, j: nat, id: Id, t: Terminal, u: Terminal)
    requires Inv(s) && Runs(s, acts) && i <= j < |acts|
    requires EventAt(s, acts, i) == Answered(id, t) && EventAt(s, acts, j) == Answered(id, u)
    ensures t == u
    decreases i
  {
    StepInv(s, acts[0]);
    if i > 0 {
      VerdictNeverChanges(Step(s, acts[0]), acts[1..], i - 1, j - 1, id, t, u);
    } else if j > 0 {
      var s' := Step(s, acts[0]);
      AnswerPromises(s, acts[0]);
      RunPromised(s', acts[1..], j - 1, id, t);
      RunInv(s', acts[1..], j - 1);
      PromiseAnswers(StateAt(s', acts[1..], j - 1), acts[j], id, t, u);
    }
  }

  /** An ID is accepted at most once, whatever crashes and restarts happen between. */
  lemma {:induction false} AcceptedOnce(s: State, acts: seq<Action>, i: nat, j: nat, id: Id)
    requires Inv(s) && Runs(s, acts) && i < j < |acts|
    requires EventAt(s, acts, i) == Accepted(id)
    ensures EventAt(s, acts, j) != Accepted(id)
    decreases i
  {
    StepInv(s, acts[0]);
    var s' := Step(s, acts[0]);
    if i > 0 {
      AcceptedOnce(s', acts[1..], i - 1, j - 1, id);
    } else {
      AcceptMakesKnown(s, acts[0]);
      RunKnown(s', acts[1..], j - 1, id);
      RunInv(s', acts[1..], j - 1);
      var mid := StateAt(s', acts[1..], j - 1);
      if Emits(mid, acts[j]).Accepted? {
        AcceptMakesKnown(mid, acts[j]);
      }
    }
  }

  /** No verdict precedes a later acceptance: a retired ID is never accepted again. */
  lemma {:induction false} RetiredNeverAccepted(
      s: State, acts: seq<Action>, i: nat, j: nat, id: Id, t: Terminal)
    requires Inv(s) && Runs(s, acts) && i < j < |acts|
    requires EventAt(s, acts, i) == Answered(id, t)
    ensures EventAt(s, acts, j) != Accepted(id)
    decreases i
  {
    StepInv(s, acts[0]);
    var s' := Step(s, acts[0]);
    if i > 0 {
      RetiredNeverAccepted(s', acts[1..], i - 1, j - 1, id, t);
    } else {
      AnswerPromises(s, acts[0]);
      RunPromised(s', acts[1..], j - 1, id, t);
      RunInv(s', acts[1..], j - 1);
      var mid := StateAt(s', acts[1..], j - 1);
      if Emits(mid, acts[j]).Accepted? {
        AcceptMakesKnown(mid, acts[j]);
      }
    }
  }

  // ---- reopening -----------------------------------------------------------------------------

  predicate Fits(r: Record) {
    RecordBytes(r) <= MAX_RECORD_BYTES
  }

  predicate FittingDir(d: Dir) {
    forall n :: n in d && n.Final? && d[n].File? && d[n].data.Whole? ==> Fits(d[n].data.record)
  }

  predicate FittingChanges(c: seq<Change>) {
    forall i :: 0 <= i < |c| && c[i].entry.File? && c[i].entry.data.Whole? ==> Fits(c[i].entry.data.record)
  }

  /** Every record on disk, on its way to disk or about to be written fits the reader's bound. */
  predicate AllFit(s: State) {
    && FittingDir(s.disk.volatile) && FittingDir(s.disk.durable) && FittingChanges(s.disk.pending)
    && (s.proc.Up? && s.proc.op.Writing? ==> Fits(s.proc.op.record))
  }

  /** Nothing but its size keeps a record the ledger wrote from being loaded again. */
  lemma {:induction false} LoadableIffFitting(d: Dir)
    requires SettledDir(d)
    ensures Loadable(d) <==> FittingDir(d)
  {
    assert forall n :: n in d && n.Final? ==> Settled(n, d[n]);
  }

  lemma {:induction false} CrashFits(d: Disk, after: Dir)
    requires SettledDir(d.durable) && SettledChanges(d.pending) && CrashOutcome(d, after)
    requires FittingDir(d.durable) && FittingChanges(d.pending)
    ensures FittingDir(after)
  {
    forall n | n in after && n.Final? && after[n].File? && after[n].data.Whole?
      ensures Fits(after[n].data.record)
    {
      if !(n in d.durable && Survives(d.durable[n], after[n])) {
        var i :| 0 <= i < |d.pending| && d.pending[i].name == n && Survives(d.pending[i].entry, after[n]);
      }
    }
  }

  lemma {:induction false} StepFits(s: State, a: Action)
    requires Inv(s) && AllFit(s) && Enabled(s, a) && (a.Begin? ==> Fits(a.record))
    ensures AllFit(Step(s, a)) && Emits(s, a) != OpenRefused
  {
    match a
    case MachineCrash(after) => CrashFits(s.disk, after);
    case Load => LoadableIffFitting(s.disk.volatile);
    case _ =>
  }

  /** If every record handed to `write` fits, no crash of the ledger's own writes can make a later open fail. */
  lemma {:induction false} OpenNeverRefused(s: State, acts: seq<Action>, i: nat)
    requires Inv(s) && AllFit(s) && Runs(s, acts) && i < |acts|
    requires forall k :: 0 <= k < |acts| && acts[k].Begin? ==> Fits(acts[k].record)
    ensures EventAt(s, acts, i) != OpenRefused
    decreases i
  {
    StepInv(s, acts[0]);
    StepFits(s, acts[0]);
    if i > 0 {
      OpenNeverRefused(Step(s, acts[0]), acts[1..], i - 1);
    }
  }

  /** 4063 characters are already too many. */
  lemma {:induction false} LongIdsDoNotFit(id: Id)
    requires |id| > MAX_RECORD_BYTES - |"{\"phase\":\"active\",\"session_id\":\"\"}"|
    ensures !Fits(Active(id))
  {
    EscapeLength(id);
  }

  lemma {:induction false} EscapeLength(s: string)
    ensures |JsonString.Escape(s)| >= |s|
  {
    if s != "" {
      EscapeLength(s[1..]);
    }
  }

  lemma {:induction false} OversizeBlocks(d: Dir, id: Id)
    requires SettledDir(d) && Final(id) in d && !Fits(Active(id))
    ensures !Loadable(d)
  {
    var r := d[Final(id)].data.record;
    assert Settled(Final(id), d[Final(id)]);
    assert !EntryLoads(Final(id), d[Final(id)]) by {
      if r.Retired? { RetiredIsLonger(id, r.terminal); }
    }
  }

  /** The answer of a write whose record is over the reader's bound. */
  predicate Oversize(e: Event) {
    match e
    case Accepted(id) => !Fits(Active(id))
    case Answered(id, t) => !Fits(Retired(id, t))
    case _ => false
  }

  /** What an oversize write leaves: a record that stays, or is only ever replaced by a longer one. */
  predicate Poisoned(s: State, e: Event) {
    match e
    case Accepted(id) => Known(s, id)
    case Answered(id, t) => Promised(s, id, t)
    case _ => false
  }

  lemma {:induction false} RunPoisoned(s: State, acts: seq<Action>, j: nat, e: Event)
    requires Inv(s) && Runs(s, acts) && j <= |acts| && Poisoned(s, e)
    ensures Poisoned(StateAt(s, acts, j), e)
  {
    match e
    case Accepted(id) => RunKnown(s, acts, j, id);
    case Answered(id, t) => RunPromised(s, acts, j, id, t);
  }

  lemma {:induction false} PoisonBlocks(s: State, e: Event)
    requires Inv(s) && Poisoned(s, e) && Oversize(e)
    ensures !Loadable(s.disk.volatile)
  {
    match e
    case Accepted(id) => OversizeBlocks(s.disk.volatile, id);
    case Answered(id, t) => assert !EntryLoads(Final(id), s.disk.volatile[Final(id)]);
  }

  lemma {:induction false} AnswerPoisons(s: State, a: Action)
    requires Inv(s) && Enabled(s, a) && (Emits(s, a).Accepted? || Emits(s, a).Answered?)
    ensures Poisoned(Step(s, a), Emits(s, a))
  {
    if Emits(s, a).Accepted? {
      AcceptMakesKnown(s, a);
    } else {
      AnswerPromises(s, a);
    }
  }

  /** What a write left stays, whatever comes after. */
  lemma {:induction false} AnswerStays(s: State, acts: seq<Action>, i: nat, j: nat, e: Event)
    requires Inv(s) && Runs(s, acts) && i < j <= |acts| && EventAt(s, acts, i) == e && (e.Accepted? || e.Answered?)
    ensures Poisoned(StateAt(s, acts, j), e)
    decreases i
  {
    StepInv(s, acts[0]);
    var s' := Step(s, acts[0]);
    if i > 0 {
      AnswerStays(s', acts[1..], i - 1, j - 1, e);
    } else {
      AnswerPoisons(s, acts[0]);
      RunPoisoned(s', acts[1..], j - 1, e);
    }
  }

  /** Nothing stops the ledger from writing a record over the bound, be it of an over-long ID or of one that only
      outgrows the bound when it is retired; after that every later open is refused, for good. */
  lemma {:induction false} OversizeRefusesEveryOpen(s: State, acts: seq<Action>, i: nat, j: nat, e: Event)
    requires Inv(s) && Runs(s, acts) && i < j < |acts|
    requires EventAt(s, acts, i) == e && Oversize(e) && acts[j].Load?
    ensures EventAt(s, acts, j) == OpenRefused
  {
    AnswerStays(s, acts, i, j, e);
    RunInv(s, acts, j);
    PoisonBlocks(StateAt(s, acts, j), e);
  }
}
