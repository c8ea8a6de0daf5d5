/** `HomeCleanupLedger` as the program runs it: every call is a stretch of a run of the ledger machine. */
module CleanupLedger {
  import opened Text
  import opened HomeCleanup
  import opened KeyOrder

  datatype Outcome<+T> = Ok(value: T) | Err

  lemma {:induction false} Extend(s: State, acts: seq<Action>, a: Action)
    requires Runs(s, acts) && Enabled(StateAt(s, acts, |acts|), a)
    ensures Runs(s, acts + [a])
    ensures StateAt(s, acts + [a], |acts| + 1) == Step(StateAt(s, acts, |acts|), a)
    ensures forall i :: 0 <= i <= |acts| ==> StateAt(s, acts + [a], i) == StateAt(s, acts, i)
    decreases |acts|
  {
    var more := acts + [a];
    if acts == [] {
      assert more[1..] == [];
    } else {
      assert more[0] == acts[0] && more[1..] == acts[1..] + [a];
      Extend(Step(s, acts[0]), acts[1..], a);
      forall i | 0 < i <= |acts| ensures StateAt(s, more, i) == StateAt(s, acts, i) {
        assert StateAt(s, more, i) == StateAt(Step(s, acts[0]), more[1..], i - 1);
      }
    }
  }

  /** `acts` led from `s` to `now`, emitting `events`, one for each action. */
  ghost predicate History(s: State, acts: seq<Action>, events: seq<Event>, now: State)
    decreases |acts|, 0
  {
    if acts == [] then events == [] && now == s
    else
      var k := |acts| - 1;
      |events| == k + 1 && exists before :: HistoryStep(s, acts[..k], events[..k], before, acts[k], events[k], now)
  }

  ghost predicate HistoryStep(
      s: State, acts: seq<Action>, events: seq<Event>, before: State, a: Action, e: Event, now: State)
    decreases |acts|, 1
  {
    History(s, acts, events, before) && Enabled(before, a) && e == Emits(before, a) && now == Step(before, a)
  }

  lemma {:induction false} HistoryGrows(s: State, acts: seq<Action>, events: seq<Event>, now: State, a: Action)
    requires History(s, acts, events, now) && Enabled(now, a)
    ensures History(s, acts + [a], events + [Emits(now, a)], Step(now, a))
  {
    var more, es := acts + [a], events + [Emits(now, a)];
    assert more[..|acts|] == acts && es[..|acts|] == events by { HistoryLength(s, acts, events, now); }
    HistoryLength(s, acts, events, now);
    assert HistoryStep(s, more[..|acts|], es[..|acts|], now, more[|acts|], es[|acts|], Step(now, a));
  }

  lemma {:induction false} HistoryLength(s: State, acts: seq<Action>, events: seq<Event>, now: State)
    requires History(s, acts, events, now)
    ensures |events| == |acts|
  {}

  /** A history is a run of the machine, so everything proved of runs holds at each of its points. */
  lemma {:induction false} HistoryIsRun(s: State, acts: seq<Action>, events: seq<Event>, now: State)
    requires History(s, acts, events, now)
    ensures Runs(s, acts) && StateAt(s, acts, |acts|) == now && |events| == |acts|
    ensures forall i :: 0 <= i < |acts| ==> events[i] == EventAt(s, acts, i)
    decreases |acts|
  {
    if acts != [] {
      var k := |acts| - 1;
      var before :| HistoryStep(s, acts[..k], events[..k], before, acts[k], events[k], now);
      HistoryIsRun(s, acts[..k], events[..k], before);
      Extend(s, acts[..k], acts[k]);
      assert acts[..k] + [acts[k]] == acts;
      forall i | 0 <= i < |acts| ensures events[i] == EventAt(s, acts, i) {
        if i < k {
          assert events[i] == events[..k][i] == EventAt(s, acts[..k], i);
        }
      }
    }
  }

  /** A fresh host opens with an empty ledger. */
  lemma {:induction false} FreshOpens() returns (acts: seq<Action>, events: seq<Event>, d: Disk)
    ensures History(Fresh, acts, events, State(d, Up(map[], Idle))) && d == Disk(Synced, map[], map[], [])
  {
    var d0 := Disk(Unsynced, map[], map[], []);
    d := Disk(Synced, map[], map[], []);
    HistoryGrows(Fresh, [], [], Fresh, MakeRoot);
    var a, e := [] + [MakeRoot], [] + [Quiet];
    HistoryGrows(Fresh, a, e, State(d0, RootMade), SyncParent);
    a, e := a + [SyncParent], e + [Quiet];
    HistoryGrows(Fresh, a, e, State(d, ParentSynced), SyncRoot);
    a, e := a + [SyncRoot], e + [Quiet];
    HistoryGrows(Fresh, a, e, State(d, RootSynced), Load);
    acts, events := a + [Load], e + [Quiet];
    assert Loaded(map[]) == map[];
  }

  /** `record_active` takes any ID on a fresh host, however long. */
  lemma {:induction false} AnyIdAccepted(id: Id) returns (acts: seq<Action>, events: seq<Event>, now: State)
    ensures History(Fresh, acts, events, now) && events != [] && events[|events| - 1] == Accepted(id)
  {
    var a, e, d := FreshOpens();
    var r, t := Active(id), Temp(id, 1, 1);
    var s := State(d, Up(map[], Idle));
    a, e, s := Next(a, e, s, Begin(r));
    a, e, s := Next(a, e, s, CreateTemp(t));
    a, e, s := Next(a, e, s, Fill);
    a, e, s := Next(a, e, s, FlushFile);
    a, e, s := Next(a, e, s, RenameOver);
    a, e, s := Next(a, e, s, SyncDir);
    acts, events, now := a, e, s;
  }

  lemma {:induction false} Next(acts: seq<Action>, events: seq<Event>, now: State, a: Action)
    returns (acts': seq<Action>, events': seq<Event>, now': State)
    requires History(Fresh, acts, events, now) && Enabled(now, a)
    ensures History(Fresh, acts', events', now') && now' == Step(now, a)
    ensures events' == events + [Emits(now, a)]
  {
    HistoryGrows(Fresh, acts, events, now, a);
    acts', events', now' := acts + [a], events + [Emits(now, a)], Step(now, a);
  }

  /** The scan of `open`: skip unfinished temps, refuse anything that is not a record under its own name. */
  method LoadRecords(dir: Dir) returns (r: Option<map<Id, Record>>)
    ensures r.Some? <==> Loadable(dir)
    ensures r.Some? ==> r.value == Loaded(dir)
  {
    var records: map<Id, Record> := map[];
    var rest := dir.Keys;
    while rest != {}
      invariant rest <= dir.Keys
      invariant forall n :: n in dir && n !in rest && !n.Temp? ==> EntryLoads(n, dir[n])
      invariant forall id :: id in records <==> Final(id) in dir && Final(id) !in rest
      invariant forall id :: id in records ==> dir[Final(id)].File? && dir[Final(id)].data == Whole(records[id])
      decreases rest
    {
      var n :| n in rest;
      rest := rest - {n};
      if n.Temp? { continue; }
      if !dir[n].File? || dir[n].data.Torn? { return None; }
      var record := dir[n].data.record;
      if RecordBytes(record) > MAX_RECORD_BYTES || n != Final(record.id) { return None; }
      assert record.id !in records;
      records := records[record.id := record];
    }
    r := Some(records);
  }

  /** A write takes some steps, the last of them a failure if it fails. It is silent until it succeeds, and then
      answers for its record. */
  ghost predicate Wrote(
      acts: seq<Action>, events: seq<Event>, acts': seq<Action>, events': seq<Event>, record: Record, ok: bool) {
    && acts < acts' && events < events'
    && (!ok ==> acts'[|acts'| - 1] == Fail)
    && (forall i :: |events| <= i < |events'| - 1 ==> events'[i] == Quiet)
    && events'[|events'| - 1] ==
       if !ok then Quiet
       else if record.Active? then Accepted(record.id) else Answered(record.id, record.terminal)
  }

  lemma {:induction false} WriteGoesOn(
      acts: seq<Action>, events: seq<Event>, a: Action,
      acts': seq<Action>, events': seq<Event>, record: Record, ok: bool)
    requires Wrote(acts + [a], events + [Quiet], acts', events', record, ok)
    ensures Wrote(acts, events, acts', events', record, ok)
  {
    assert acts == (acts + [a])[..|acts|];
    assert events == (events + [Quiet])[..|events|] && (events + [Quiet])[|events|] == Quiet;
  }

  /** `create_new`: an empty file at a name that was free. */
  function WithTemp(d: Disk, temp: Name): Disk {
    d.(volatile := d.volatile[temp := File(Torn, false)])
  }

  /** `rename`: at once for every reader, on disk only with the next sync of the directory. */
  function RenamedOver(d: Disk, temp: Name, n: Name): Disk
    requires temp in d.volatile
  {
    var e := d.volatile[temp];
    d.(volatile := (d.volatile - {temp})[n := e], pending := d.pending + [Change(n, e)])
  }

  /** The records with these IDs retired as failed and the others as they were. */
  function WithFailed(records: map<Id, Record>, ids: seq<Id>): map<Id, Record> {
    map id | id in records :: if id in ids then Retired(id, Failed) else records[id]
  }

  lemma {:induction false} NoneFailed(records: map<Id, Record>)
    ensures WithFailed(records, []) == records
  {}

  lemma {:induction false} OneMoreFailed(records: map<Id, Record>, ids: seq<Id>, id: Id)
    requires id in records && id !in ids
    ensures WithFailed(records, ids)[id := Retired(id, Failed)] == WithFailed(records, ids + [id])
    ensures WithFailed(records, ids)[id] == records[id]
  {}

  class HomeCleanupLedger {
    var disk: Disk
    var records: map<Id, Record>
    var recovered: seq<Id>
    const pid: nat
    var sequence: nat
    // The run this process is part of, from the first boot on.
    ghost var start: State
    ghost var acts: seq<Action>
    ghost var events: seq<Event>
    ghost var now: State

    ghost predicate Running()
      reads this
    {
      Inv(start) && History(start, acts, events, now)
    }

    /** Between calls the run has come to this object's disk and records, with no write under way. */
    ghost predicate Valid()
      reads this
    {
      Running() && now == State(disk, Up(records, Idle))
    }

    constructor (d: Disk, r: map<Id, Record>, p: nat, ghost s: State, ghost a: seq<Action>, ghost e: seq<Event>)
      requires Inv(s) && History(s, a, e, State(d, Up(r, Idle)))
      ensures Valid() && disk == d && records == r && recovered == [] && pid == p
      ensures start == s && acts == a && events == e
    {
      disk, records, recovered, pid, sequence := d, r, [], p, 1;
      start, acts, events, now := s, a, e, State(d, Up(r, Idle));
    }

    ghost method Note(a: Action)
      requires Running() && Enabled(now, a)
      modifies this`acts, this`events, this`now
      ensures Running() && acts == old(acts) + [a] && now == Step(old(now), a)
      ensures events == old(events) + [Emits(old(now), a)]
    {
      HistoryGrows(start, acts, events, now, a);
      acts, events, now := acts + [a], events + [Emits(now, a)], Step(now, a);
    }

    /** A step of `write` fails, and with it the write. */
    ghost method NoteFail(record: Record, stage: Stage)
      requires Running() && now == State(disk, Up(records, Writing(record, stage)))
      modifies this`acts, this`events, this`now
      ensures Running()
      ensures now == State(disk, Up(records, Idle))
      ensures Wrote(old(acts), old(events), acts, events, record, false)
    {
      Note(Fail);
    }

    ghost method NoteCreate(record: Record, temp: Name)
      requires Running() && now == State(disk, Up(records, Writing(record, Begun)))
      requires temp.Temp? && temp.id == record.id && temp !in disk.volatile
      modifies this`acts, this`events, this`now
      ensures Running() && acts == old(acts) + [CreateTemp(temp)] && events == old(events) + [Quiet]
      ensures now == State(WithTemp(disk, temp), Up(records, Writing(record, Created(temp))))
    {
      Note(CreateTemp(temp));
    }

    ghost method NoteRename(record: Record, temp: Name)
      requires Running() && temp in disk.volatile
      requires now == State(disk, Up(records, Writing(record, Flushed(temp))))
      modifies this`acts, this`events, this`now
      ensures Running() && acts == old(acts) + [RenameOver] && events == old(events) + [Quiet]
      ensures now == State(RenamedOver(disk, temp, Final(record.id)), Up(records, Writing(record, Renamed)))
    {
      Note(RenameOver);
    }

    // `write` in stretches: any step may fail, and the process may die between any two.

    method Write(record: Record) returns (ok: bool)
      requires Valid() && Enabled(now, Begin(record))
      modifies this`disk, this`sequence, this`acts, this`events, this`now
      ensures Running() && Wrote(old(acts), old(events), acts, events, record, ok)
      ensures now == State(disk, Up(if ok then records[record.id := record] else records, Idle))
    {
      Note(Begin(record));
      ok := CreateTempFile(record);
      WriteGoesOn(old(acts), old(events), Begin(record), acts, events, record, ok);
    }

    /** Create the temp under a name of its own. */
    method CreateTempFile(record: Record) returns (ok: bool)
      requires Running() && now == State(disk, Up(records, Writing(record, Begun)))
      modifies this`disk, this`sequence, this`acts, this`events, this`now
      ensures Running() && Wrote(old(acts), old(events), acts, events, record, ok)
      ensures now == State(disk, Up(if ok then records[record.id := record] else records, Idle))
    {
      var temp := Temp(record.id, pid, sequence);
      sequence := sequence + 1;
      var created: bool := *;
      if !created || temp in disk.volatile {
        NoteFail(record, Begun);
        return false;
      }
      NoteCreate(record, temp);
      disk := WithTemp(disk, temp);
      ok := FillTemp(record, temp);
      WriteGoesOn(old(acts), old(events), CreateTemp(temp), acts, events, record, ok);
    }

    method FillTemp(record: Record, temp: Name) returns (ok: bool)
      requires Running() && temp.Temp?
      requires now == State(disk, Up(records, Writing(record, Created(temp))))
      modifies this`disk, this`acts, this`events, this`now
      ensures Running() && Wrote(old(acts), old(events), acts, events, record, ok)
      ensures now == State(disk, Up(if ok then records[record.id := record] else records, Idle))
    {
      var filled: bool := *;
      if !filled {
        NoteFail(record, Created(temp));
        return false;
      }
      disk := disk.(volatile := disk.volatile[temp := File(Whole(record), false)]);
      Note(Fill);
      ok := FlushTemp(record, temp);
      WriteGoesOn(old(acts), old(events), Fill, acts, events, record, ok);
    }

    method FlushTemp(record: Record, temp: Name) returns (ok: bool)
      requires Running() && temp.Temp?
      requires now == State(disk, Up(records, Writing(record, Filled(temp))))
      modifies this`disk, this`acts, this`events, this`now
      ensures Running() && Wrote(old(acts), old(events), acts, events, record, ok)
      ensures now == State(disk, Up(if ok then records[record.id := record] else records, Idle))
    {
      var flushed: bool := *;
      if !flushed {
        NoteFail(record, Filled(temp));
        return false;
      }
      disk := disk.(volatile := disk.volatile[temp := File(Whole(record), true)]);
      Note(FlushFile);
      ok := Install(record, temp);
      WriteGoesOn(old(acts), old(events), FlushFile, acts, events, record, ok);
    }

    /** `write` from the synced temp on: rename it over the record and sync the directory. */
    method Install(record: Record, temp: Name) returns (ok: bool)
      requires Running() && temp in disk.volatile
      requires now == State(disk, Up(records, Writing(record, Flushed(temp))))
      modifies this`disk, this`acts, this`events, this`now
      ensures Running() && Wrote(old(acts), old(events), acts, events, record, ok)
      ensures now == State(disk, Up(if ok then records[record.id := record] else records, Idle))
    {
      var renamed: bool := *;
      if !renamed {
        NoteFail(record, Flushed(temp));
        return false;
      }
      NoteRename(record, temp);
      disk := RenamedOver(disk, temp, Final(record.id));
      ok := SyncRename(record);
      WriteGoesOn(old(acts), old(events), RenameOver, acts, events, record, ok);
    }

    method SyncRename(record: Record) returns (ok: bool)
      requires Running() && now == State(disk, Up(records, Writing(record, Renamed)))
      modifies this`disk, this`acts, this`events, this`now
      ensures Running() && Wrote(old(acts), old(events), acts, events, record, ok)
      ensures now == State(disk, Up(if ok then records[record.id := record] else records, Idle))
    {
      var synced: bool := *;
      if !synced {
        NoteFail(record, Renamed);
        return false;
      }
      disk := disk.(durable := disk.volatile, pending := []);
      Note(SyncDir);
      ok := true;
    }

    /** `record_active`: true means the ID is on disk for good and was never known before. */
    method RecordActive(id: Id) returns (r: Outcome<bool>)
      requires Valid()
      modifies this`disk, this`records, this`sequence, this`acts, this`events, this`now
      ensures Valid() && old(acts) <= acts && old(events) <= events
      ensures r == Ok(false) <==> id in old(records)
      ensures r == Ok(true) ==>
                && records == old(records)[id := Active(id)]
                && old(events) < events && events[|events| - 1] == Accepted(id)
      ensures r != Ok(true) ==>
                records == old(records) && forall i :: |old(events)| <= i < |events| ==> events[i] == Quiet
      ensures r.Err? ==> old(acts) < acts && acts[|acts| - 1] == Fail
    {
      if id in records { return Ok(false); }
      var ok := Write(Active(id));
      if !ok { return Err; }
      records := records[id := Active(id)];
      r := Ok(true);
    }

    /** `retire`: the verdict already recorded if there is one, else the one asked for, once it is on disk. */
    method Retire(id: Id, terminal: Terminal) returns (r: Outcome<Terminal>)
      requires Valid()
      modifies this`disk, this`records, this`sequence, this`acts, this`events, this`now
      ensures Valid() && old(acts) <= acts && old(events) <= events
      ensures IsRetired(old(records), id) ==> r == Ok(old(records)[id].terminal) && records == old(records)
      ensures !IsRetired(old(records), id) && r.Ok? ==>
                r.value == terminal && records == old(records)[id := Retired(id, terminal)]
      ensures r.Ok? ==> old(events) < events && events[|events| - 1] == Answered(id, r.value)
      ensures r.Err? ==>
                records == old(records) && forall i :: |old(events)| <= i < |events| ==> events[i] == Quiet
      ensures r.Err? ==> old(acts) < acts && acts[|acts| - 1] == Fail
    {
      if IsRetired(records, id) {
        Note(AnswerKnown(id));
        return Ok(records[id].terminal);
      }
      var ok := Write(Retired(id, terminal));
      if !ok { return Err; }
      records := records[id := Retired(id, terminal)];
      r := Ok(terminal);
    }

    /** `state`: the verdict of a retired ID, nothing for an active or unknown one. */
    method StateOf(id: Id) returns (r: Option<Terminal>)
      requires Valid()
      modifies this`acts, this`events, this`now
      ensures Valid()
      ensures r == if IsRetired(records, id) then Some(records[id].terminal) else None
      ensures r.Some? ==> events == old(events) + [Answered(id, r.value)]
      ensures r.None? ==> events == old(events)
    {
      if IsRetired(records, id) {
        Note(AnswerKnown(id));
        return Some(records[id].terminal);
      }
      r := None;
    }

    /** The active IDs, in the map's key order. */
    method ActiveIds() returns (ids: seq<Id>)
      ensures Ascending(ids)
      ensures forall id :: id in ids <==> id in records && records[id].Active?
    {
      ids := [];
      var rest := records.Keys;
      while rest != {}
        invariant rest <= records.Keys && Ascending(ids)
        invariant forall id :: id in ids <==> id in records && id !in rest && records[id].Active?
        decreases rest
      {
        var id :| id in rest;
        rest := rest - {id};
        if records[id].Active? {
          ids := Insert(ids, id);
        }
      }
    }

    /** The loop of `recover_active`: retire as failed exactly the first `done` of the IDs, each proved absent first,
        and stop at the first ID whose absence or whose write fails. */
    method RetireAbsent(active: seq<Id>, absent: Id -> bool) returns (done: nat)
      requires Valid() && Distinct(active)
      requires forall id :: id in active ==> id in records && records[id].Active?
      modifies this
      ensures Valid() && old(acts) <= acts
      ensures done <= |active| && recovered == old(recovered) + active[..done]
      ensures forall i :: 0 <= i < done ==> absent(active[i])
      ensures done < |active| && absent(active[done]) ==> old(acts) < acts && acts[|acts| - 1] == Fail
      ensures records == WithFailed(old(records), active[..done])
    {
      done := 0;
      NoneFailed(records);
      while done < |active|
        invariant Valid() && old(acts) <= acts && done <= |active|
        invariant recovered == old(recovered) + active[..done]
        invariant forall i :: 0 <= i < done ==> absent(active[i])
        invariant records == WithFailed(old(records), active[..done])
      {
        var id := active[done];
        if !absent(id) { return; }
        assert id !in active[..done];
        OneMoreFailed(old(records), active[..done], id);
        var r := Retire(id, Failed);
        if r.Err? { return; }
        recovered := recovered + [id];
        assert active[..done + 1] == active[..done] + [id];
        done := done + 1;
      }
    }

    /** `recover_active`: the active IDs in key order, as far as that loop gets; Ok if it got through. */
    method RecoverActive(absent: Id -> bool) returns (ok: bool, active: seq<Id>, done: nat)
      requires Valid()
      modifies this
      ensures Valid() && old(acts) <= acts
      ensures forall id :: id in active <==> id in old(records) && old(records)[id].Active?
      ensures Ascending(active)
      ensures done <= |active| && recovered == old(recovered) + active[..done]
      ensures forall i :: 0 <= i < done ==> absent(active[i])
      ensures done < |active| && absent(active[done]) ==> old(acts) < acts && acts[|acts| - 1] == Fail
      ensures records == WithFailed(old(records), active[..done])
      ensures ok <==> done == |active|
      ensures ok ==> forall id :: id in records ==> records[id].Retired?
    {
      active := ActiveIds();
      AscendingIsDistinct(active);
      done := RetireAbsent(active, absent);
      ok := done == |active|;
      assert active[..|active|] == active;
    }
  }

  predicate Distinct(ids: seq<Id>) {
    forall i, j :: 0 <= i < j < |ids| ==> ids[i] != ids[j]
  }

  lemma {:induction false} AscendingIsDistinct(ids: seq<Id>)
    requires Ascending(ids)
    ensures Distinct(ids)
  {
    forall i, j | 0 <= i < j < |ids|
      ensures ids[i] != ids[j]
    {
      AscendingPair(ids, i, j);
    }
  }

  /** Why an open failed: the directory could not be made, a later step failed, or an entry is no record. */
  ghost predicate NotOpened(d: Disk, disk: Disk, a: seq<Action>, a': seq<Action>, e': seq<Event>) {
    || (a' == a && disk == d)
    || (a < a' && a'[|a'| - 1] == Fail)
    || (a < a' && e' != [] && e'[|e'| - 1] == OpenRefused && !Loadable(disk.volatile))
  }

  /** A ledger opened from disk `d`: all it holds was synced before it was read. */
  ghost predicate Opened(ledger: HomeCleanupLedger, disk: Disk, s: State, a: seq<Action>)
    reads ledger
  {
    && ledger.Valid() && ledger.start == s && a <= ledger.acts && ledger.disk == disk
    && Loadable(disk.volatile) && ledger.records == Loaded(disk.volatile)
    && disk.durable == disk.volatile && disk.pending == [] && disk.root == Synced
  }

  /** `open_with_parent_sync`: make the directory, sync its parent, sync it, and only then read it. Whether it succeeds
      or fails, and wherever it fails, what it did is part of the run. */
  method Open(d: Disk, pid: nat, ghost s: State, ghost a: seq<Action>, ghost e: seq<Event>)
    returns (ledger: HomeCleanupLedger?, disk: Disk, ghost a': seq<Action>, ghost e': seq<Event>)
    requires Inv(s) && History(s, a, e, State(d, Down))
    ensures ledger != null ==> fresh(ledger) && Opened(ledger, disk, s, a)
    ensures ledger == null ==> History(s, a', e', State(disk, Down)) && NotOpened(d, disk, a, a', e')
  {
    ledger, disk, a', e' := null, d, a, e;
    var made: bool := *;
    if !made { return; }
    if disk.root == Missing { disk := Disk(Unsynced, map[], map[], []); }
    HistoryGrows(s, a, e, State(d, Down), MakeRoot);
    ledger, disk, a', e' := OpenMade(disk, pid, s, a + [MakeRoot], e + [Quiet]);
    assert a == (a + [MakeRoot])[..|a|];
  }

  method OpenMade(d: Disk, pid: nat, ghost s: State, ghost a: seq<Action>, ghost e: seq<Event>)
    returns (ledger: HomeCleanupLedger?, disk: Disk, ghost a': seq<Action>, ghost e': seq<Event>)
    requires Inv(s) && History(s, a, e, State(d, RootMade))
    ensures ledger != null ==> fresh(ledger) && Opened(ledger, disk, s, a)
    ensures ledger == null ==> History(s, a', e', State(disk, Down)) && a < a' && NotOpened(d, disk, a, a', e')
  {
    ledger, disk := null, d;
    var parentSynced: bool := *;
    if !parentSynced {
      HistoryGrows(s, a, e, State(d, RootMade), Fail);
      a', e' := a + [Fail], e + [Quiet];
      return;
    }
    HistoryGrows(s, a, e, State(d, RootMade), SyncParent);
    disk := disk.(root := Synced);
    ledger, disk, a', e' := OpenSynced(disk, pid, s, a + [SyncParent], e + [Quiet]);
    assert a == (a + [SyncParent])[..|a|];
  }

  method OpenSynced(d: Disk, pid: nat, ghost s: State, ghost a: seq<Action>, ghost e: seq<Event>)
    returns (ledger: HomeCleanupLedger?, disk: Disk, ghost a': seq<Action>, ghost e': seq<Event>)
    requires Inv(s) && History(s, a, e, State(d, ParentSynced)) && d.root == Synced
    ensures ledger != null ==> fresh(ledger) && Opened(ledger, disk, s, a)
    ensures ledger == null ==> History(s, a', e', State(disk, Down)) && a < a' && NotOpened(d, disk, a, a', e')
  {
    ledger, disk := null, d;
    var rootSynced: bool := *;
    if !rootSynced {
      HistoryGrows(s, a, e, State(d, ParentSynced), Fail);
      a', e' := a + [Fail], e + [Quiet];
      return;
    }
    disk := disk.(durable := disk.volatile, pending := []);
    HistoryGrows(s, a, e, State(d, ParentSynced), SyncRoot);
    ledger, a', e' := LoadSynced(disk, pid, s, a + [SyncRoot], e + [Quiet]);
    assert a == (a + [SyncRoot])[..|a|];
  }

  method LoadSynced(disk: Disk, pid: nat, ghost s: State, ghost a: seq<Action>, ghost e: seq<Event>)
    returns (ledger: HomeCleanupLedger?, ghost a': seq<Action>, ghost e': seq<Event>)
    requires Inv(s) && History(s, a, e, State(disk, RootSynced))
    requires disk.durable == disk.volatile && disk.pending == [] && disk.root == Synced
    ensures ledger != null ==> fresh(ledger) && Opened(ledger, disk, s, a)
    ensures ledger == null ==> History(s, a', e', State(disk, Down)) && a < a' && NotOpened(disk, disk, a, a', e')
  {
    ledger := null;
    var readable: bool := *;
    if !readable {
      HistoryGrows(s, a, e, State(disk, RootSynced), Fail);
      a', e' := a + [Fail], e + [Quiet];
      return;
    }
    HistoryGrows(s, a, e, State(disk, RootSynced), Load);
    var records := LoadRecords(disk.volatile);
    if records.None? {
      a', e' := a + [Load], e + [OpenRefused];
      return;
    }
    a', e' := a + [Load], e + [Quiet];
    ledger := new HomeCleanupLedger(disk, records.value, pid, s, a', e');
  }
}
