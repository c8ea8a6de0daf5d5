/** Owner-marked entries of a runtime directory: a directory and, beside it, the file that proves whose it is.
    The marker is made first and removed last. */
module OwnedEntry {
  const SUFFIX := ".owner"

  /** A marker file's body: complete, or nothing `read_marker` accepts (half written, too long, not a marker). */
  datatype Body = Complete(owner: string) | Broken

  datatype Child = PlainFile | NotAFile

  /** A name in the runtime directory: a file, a directory with its contents, or anything else. */
  datatype Node = File(body: Body) | Folder(children: seq<Child>) | Link

  type Names = map<string, Node>

  function EntryName(prefix: string, id: string): string {
    prefix + id
  }

  function MarkerName(prefix: string, id: string): string {
    prefix + (id + SUFFIX)
  }

  lemma {:induction false} NamesAreInjective(prefix: string, a: string, b: string)
    ensures EntryName(prefix, a) == EntryName(prefix, b) ==> a == b
    ensures MarkerName(prefix, a) == MarkerName(prefix, b) ==> a == b
  {
    SameTail(prefix, a, b);
    if MarkerName(prefix, a) == MarkerName(prefix, b) {
      SameTail(prefix, a + SUFFIX, b + SUFFIX);
      assert (a + SUFFIX)[..|a|] == a && (b + SUFFIX)[..|b|] == b;
    }
  }

  lemma {:induction false} SameTail(p: string, a: string, b: string)
    ensures p + a == p + b ==> a == b
  {
    assert (p + a)[|p|..] == a && (p + b)[|p|..] == b;
  }

  predicate IsFolder(names: Names, name: string) {
    name in names && names[name].Folder?
  }

  predicate IsFile(names: Names, name: string) {
    name in names && names[name].File?
  }

  /** A complete marker of this owner. */
  predicate Owned(names: Names, prefix: string, id: string, owner: string) {
    var name := MarkerName(prefix, id);
    name in names && names[name] == File(Complete(owner))
  }

  // ---- creating and retiring, overlapping and killed anywhere ----------------------------------

  /** A create: whose it is, and the step at which it opened its marker, which tells its marker file from others. */
  datatype Maker = Maker(owner: string, at: nat)

  /** How far a create is: the marker file exists, empty; its body is complete; it is on disk and the directory
      comes next. */
  datatype Stage = Opened | Written | Synced

  /** A create under way, or a retire: removing the directory, or (`gone`) past that and about to remove the marker. */
  datatype Task = Creating(id: string, maker: Maker, stage: Stage) | Retiring(id: string, gone: bool)

  /** The directory, the creates and retires under way, the creates that opened the marker files now at their names,
      and for each entry the create that last made its directory. */
  datatype State = State(
    names: Names, tasks: map<nat, Task>, markers: map<string, Maker>, made: map<string, Maker>, clock: nat)

  datatype Action =
    | Create(task: nat, id: string, owner: string)
    | Retire(task: nat, id: string)
    | Go(task: nat)
    | Fail(task: nat)
    | AddFile(id: string, child: Child)
    | Kill

  function Without<K, T>(m: map<K, T>, k: K): map<K, T> {
    map x | x in m && x != k :: m[x]
  }

  function Begin(names: Names): State {
    State(names, map[], map[], map[], 0)
  }

  /** The marker file this create opened is still at its name. */
  predicate Stands(s: State, id: string, m: Maker) {
    id in s.markers && s.markers[id] == m
  }

  /** A create's next step. Its body goes to the file it opened, which need no longer have a name. */
  function CreateOn(s: State, prefix: string, t: nat, id: string, m: Maker, stage: Stage): State {
    var entry, marker := EntryName(prefix, id), MarkerName(prefix, id);
    match stage
    case Opened =>
      s.(names := if Stands(s, id, m) then s.names[marker := File(Complete(m.owner))] else s.names,
         tasks := s.tasks[t := Creating(id, m, Written)])
    case Written => s.(tasks := s.tasks[t := Creating(id, m, Synced)])
    case Synced =>
      if entry in s.names then s.(tasks := Without(s.tasks, t))
      else s.(names := s.names[entry := Folder([])], tasks := Without(s.tasks, t), made := s.made[id := m])
  }

  predicate Unlinkable(names: Names, name: string) {
    name in names && !names[name].Folder?
  }

  /** A retire's next step: one file of the directory, the directory, or the marker. */
  function RetireOn(s: State, prefix: string, t: nat, id: string, gone: bool): State {
    var entry, marker := EntryName(prefix, id), MarkerName(prefix, id);
    var done := s.(tasks := Without(s.tasks, t));
    if gone then
      if !Unlinkable(s.names, marker) then done
      else done.(names := Without(s.names, marker), markers := Without(s.markers, id))
    else if !IsFolder(s.names, entry) then done
    else if s.names[entry].children == [] then
      s.(names := Without(s.names, entry), tasks := s.tasks[t := Retiring(id, true)])
    else if s.names[entry].children[0].NotAFile? then done
    else s.(names := s.names[entry := Folder(s.names[entry].children[1..])])
  }

  function GoOn(s: State, prefix: string, t: nat, k: Task): State {
    match k
    case Creating(id, m, stage) => CreateOn(s, prefix, t, id, m, stage)
    case Retiring(id, gone) => RetireOn(s, prefix, t, id, gone)
  }

  /** A create opens its marker, unless there is one. */
  predicate Opens(s: State, prefix: string, a: Action) {
    a.Create? && a.task !in s.tasks && MarkerName(prefix, a.id) !in s.names
  }

  function Effect(s: State, prefix: string, a: Action): State {
    match a
    case Create(t, id, owner) =>
      if !Opens(s, prefix, a) then s
      else
        var m := Maker(owner, s.clock);
        s.(names := s.names[MarkerName(prefix, id) := File(Broken)],
           markers := s.markers[id := m],
           tasks := s.tasks[t := Creating(id, m, Opened)])
    case Retire(t, id) =>
      var entry := EntryName(prefix, id);
      if t in s.tasks || (entry in s.names && !IsFolder(s.names, entry)) then s
      else s.(tasks := s.tasks[t := Retiring(id, entry !in s.names)])
    case Go(t) => if t in s.tasks then GoOn(s, prefix, t, s.tasks[t]) else s
    case Fail(t) => s.(tasks := Without(s.tasks, t))
    case AddFile(id, child) =>
      var entry := EntryName(prefix, id);
      if IsFolder(s.names, entry) then s.(names := s.names[entry := Folder(s.names[entry].children + [child])]) else s
    case Kill => s.(tasks := map[])
  }

  /** One thing that happens; any number of creates and retires of any entries interleave. */
  function Step(s: State, prefix: string, a: Action): State {
    Effect(s, prefix, a).(clock := s.clock + 1)
  }

  function Runs(s: State, prefix: string, acts: seq<Action>): State {
    if acts == [] then s else Step(Runs(s, prefix, acts[..|acts| - 1]), prefix, acts[|acts| - 1])
  }

  // ---- what every step keeps -------------------------------------------------------------------

  /** A marker file opened in this run is empty or complete, and its opener's. */
  predicate MarkerOk(s: State, prefix: string, id: string) {
    var marker := MarkerName(prefix, id);
    id in s.markers ==>
      && s.markers[id].at < s.clock && marker in s.names
      && (s.names[marker] == File(Broken) || s.names[marker] == File(Complete(s.markers[id].owner)))
  }

  /** Any marker of `id` is the one create `m` opened, complete if `m` got that far, or one opened later. */
  predicate Claim(s: State, prefix: string, id: string, m: Maker, complete: bool) {
    && m.at < s.clock
    && (IsFile(s.names, MarkerName(prefix, id)) ==> id in s.markers && s.markers[id].at >= m.at)
    && (Stands(s, id, m) && complete ==> Owned(s.names, prefix, id, m.owner))
  }

  predicate TaskOk(s: State, prefix: string, k: Task) {
    k.Creating? ==> Claim(s, prefix, k.id, k.maker, !k.stage.Opened?)
  }

  predicate MadeOk(s: State, prefix: string, id: string) {
    id in s.made ==> Claim(s, prefix, id, s.made[id], true)
  }

  ghost predicate Inv(s: State, prefix: string) {
    && (forall id :: MarkerOk(s, prefix, id))
    && (forall id :: MadeOk(s, prefix, id))
    && (forall t :: t in s.tasks ==> TaskOk(s, prefix, s.tasks[t]))
  }

  /** All that happens to a marker in one step: nothing, or it is opened, completed or unlinked. */
  predicate MarkerStep(s: State, s': State, prefix: string, id: string) {
    var marker := MarkerName(prefix, id);
    || (&& (IsFile(s.names, marker) <==> IsFile(s'.names, marker))
        && (IsFile(s.names, marker) ==> s'.names[marker] == s.names[marker])
        && (id in s.markers <==> id in s'.markers) && (id in s.markers ==> s'.markers[id] == s.markers[id]))
    || (!IsFile(s.names, marker) && id in s'.markers && s'.markers[id].at == s.clock
        && marker in s'.names && s'.names[marker] == File(Broken))
    || (id in s.markers && id in s'.markers && s'.markers[id] == s.markers[id]
        && marker in s'.names && s'.names[marker] == File(Complete(s.markers[id].owner)))
    || (!IsFile(s'.names, marker) && id !in s'.markers)
  }

  lemma {:induction false} MarkerOkKept(s: State, s': State, prefix: string, id: string)
    requires MarkerOk(s, prefix, id) && MarkerStep(s, s', prefix, id) && s'.clock == s.clock + 1
    ensures MarkerOk(s', prefix, id)
  {}

  lemma {:induction false} ClaimKept(s: State, s': State, prefix: string, id: string, m: Maker, complete: bool)
    requires MarkerOk(s, prefix, id) && MarkerStep(s, s', prefix, id) && s'.clock == s.clock + 1
    requires Claim(s, prefix, id, m, complete)
    ensures Claim(s', prefix, id, m, complete)
  {}

  lemma {:induction false} NamesDiffer(prefix: string, id: string)
    ensures EntryName(prefix, id) != MarkerName(prefix, id)
  {
    assert |MarkerName(prefix, id)| == |EntryName(prefix, id)| + |SUFFIX|;
  }

  lemma {:induction false} CreateMarkerSteps(
      s: State, prefix: string, t: nat, id: string, m: Maker, stage: Stage, other: string)
    requires MarkerOk(s, prefix, id)
    ensures MarkerStep(s, CreateOn(s, prefix, t, id, m, stage), prefix, other)
  {
    NamesAreInjective(prefix, id, other);
  }

  lemma {:induction false} RetireMarkerSteps(s: State, prefix: string, t: nat, id: string, gone: bool, other: string)
    ensures MarkerStep(s, RetireOn(s, prefix, t, id, gone), prefix, other)
  {
    NamesAreInjective(prefix, id, other);
  }

  lemma {:induction false} EveryMarkerSteps(s: State, prefix: string, a: Action, id: string)
    requires Inv(s, prefix)
    ensures MarkerStep(s, Step(s, prefix, a), prefix, id)
  {
    if a.Create? {
      NamesAreInjective(prefix, a.id, id);
    } else if a.Go? && a.task in s.tasks {
      match s.tasks[a.task]
      case Creating(x, m, stage) =>
        assert MarkerOk(s, prefix, x);
        CreateMarkerSteps(s, prefix, a.task, x, m, stage, id);
      case Retiring(x, gone) => RetireMarkerSteps(s, prefix, a.task, x, gone, id);
    }
  }

  predicate Begins(s: State, prefix: string, a: Action, k: Task) {
    Opens(s, prefix, a) && k == Creating(a.id, Maker(a.owner, s.clock), Opened)
  }

  /** A task's step ends it, or leaves it a create by the same maker or a retire, of the same entry. */
  lemma {:induction false} GoTasks(s: State, prefix: string, t: nat)
    requires t in s.tasks
    ensures var k, ts := s.tasks[t], GoOn(s, prefix, t, s.tasks[t]).tasks;
            || ts == Without(s.tasks, t)
            || (&& t in ts && ts == s.tasks[t := ts[t]] && ts[t].id == k.id && (ts[t].Creating? <==> k.Creating?)
                && (k.Creating? ==> ts[t].maker == k.maker))
  {
    var ts := GoOn(s, prefix, t, s.tasks[t]).tasks;
    if t in ts {
      assert ts == s.tasks[t := ts[t]];
    }
  }

  /** A step begins a create, or at most takes it a stage further; past the first it has written its body. */
  lemma {:induction false} TaskSteps(s: State, prefix: string, a: Action, t: nat)
    requires t in Step(s, prefix, a).tasks && Step(s, prefix, a).tasks[t].Creating?
    requires !Begins(s, prefix, a, Step(s, prefix, a).tasks[t])
    ensures var s' := Step(s, prefix, a);
            var k' := s'.tasks[t];
            && t in s.tasks && s.tasks[t].Creating? && s.tasks[t].id == k'.id && s.tasks[t].maker == k'.maker
            && (s.tasks[t].stage.Opened? && !k'.stage.Opened? && Stands(s', k'.id, k'.maker) ==>
                  Owned(s'.names, prefix, k'.id, k'.maker.owner))
  {
    if a.Go? && a.task in s.tasks {
      GoTasks(s, prefix, a.task);
    }
  }

  /** A create that was under way, or begins, has its claim after the step. */
  lemma {:induction false} TaskKept(s: State, prefix: string, a: Action, t: nat)
    requires Inv(s, prefix) && t in Step(s, prefix, a).tasks
    ensures TaskOk(Step(s, prefix, a), prefix, Step(s, prefix, a).tasks[t])
  {
    var s' := Step(s, prefix, a);
    var k' := s'.tasks[t];
    if k'.Creating? && !Begins(s, prefix, a, k') {
      TaskSteps(s, prefix, a, t);
      var k := s.tasks[t];
      assert TaskOk(s, prefix, k) && MarkerOk(s, prefix, k.id);
      EveryMarkerSteps(s, prefix, a, k.id);
      ClaimKept(s, s', prefix, k.id, k.maker, !k.stage.Opened?);
    }
  }

  lemma {:induction false} MadeKept(s: State, prefix: string, a: Action, id: string)
    requires Inv(s, prefix)
    ensures MadeOk(Step(s, prefix, a), prefix, id)
  {
    var s' := Step(s, prefix, a);
    if id in s'.made {
      assert MarkerOk(s, prefix, id) && MadeOk(s, prefix, id);
      EveryMarkerSteps(s, prefix, a, id);
      if a.Go? && a.task in s.tasks {
        assert TaskOk(s, prefix, s.tasks[a.task]);
      }
      ClaimKept(s, s', prefix, id, s'.made[id], true);
    }
  }

  lemma {:induction false} StepKeepsInv(s: State, prefix: string, a: Action)
    requires Inv(s, prefix)
    ensures Inv(Step(s, prefix, a), prefix)
  {
    var s' := Step(s, prefix, a);
    forall id
      ensures MarkerOk(s', prefix, id) && MadeOk(s', prefix, id)
    {
      assert MarkerOk(s, prefix, id);
      EveryMarkerSteps(s, prefix, a, id);
      MarkerOkKept(s, s', prefix, id);
      MadeKept(s, prefix, a, id);
    }
    forall t | t in s'.tasks
      ensures TaskOk(s', prefix, s'.tasks[t])
    {
      TaskKept(s, prefix, a, t);
    }
  }

  lemma {:induction false} RunKeepsInv(names: Names, prefix: string, acts: seq<Action>)
    ensures Inv(Runs(Begin(names), prefix, acts), prefix) && Runs(Begin(names), prefix, acts).clock == |acts|
  {
    if acts != [] {
      var n := |acts| - 1;
      RunKeepsInv(names, prefix, acts[..n]);
      StepKeepsInv(Runs(Begin(names), prefix, acts[..n]), prefix, acts[n]);
    }
  }

  // ---- a directory keeps its marker until a retire unlinks it ------------------------------------

  /** This step is a retire of `id` removing whatever is at its marker's name. */
  predicate Unlinks(s: State, prefix: string, a: Action, id: string) {
    && a.Go? && a.task in s.tasks && s.tasks[a.task] == Retiring(id, true)
    && Unlinkable(s.names, MarkerName(prefix, id))
  }

  /** The state before step `i` of a run. */
  function Before(names: Names, prefix: string, acts: seq<Action>, i: nat): State
    requires i <= |acts|
  {
    Runs(Begin(names), prefix, acts[..i])
  }

  predicate UnlinksAt(names: Names, prefix: string, acts: seq<Action>, id: string, j: nat) {
    j < |acts| && Unlinks(Before(names, prefix, acts, j), prefix, acts[j], id)
  }

  /** Some step after step `i` unlinks the marker of `id`. */
  ghost predicate UnlinkedSince(names: Names, prefix: string, acts: seq<Action>, id: string, i: nat) {
    exists j :: i < j && UnlinksAt(names, prefix, acts, id, j)
  }

  /** Step `m.at` was the create of `id` by this owner opening its marker. */
  predicate OpenedAt(names: Names, prefix: string, acts: seq<Action>, id: string, m: Maker) {
    && m.at < |acts| && Opens(Before(names, prefix, acts, m.at), prefix, acts[m.at])
    && acts[m.at].id == id && acts[m.at].owner == m.owner
  }

  lemma {:induction false} BeforeGrows(names: Names, prefix: string, acts: seq<Action>, i: nat)
    requires i < |acts|
    ensures Before(names, prefix, acts, i) == Before(names, prefix, acts[..|acts| - 1], i)
  {
    assert acts[..|acts| - 1][..i] == acts[..i];
  }

  lemma {:induction false} OpenedGrows(names: Names, prefix: string, acts: seq<Action>, id: string, m: Maker)
    requires acts != [] && OpenedAt(names, prefix, acts[..|acts| - 1], id, m)
    ensures OpenedAt(names, prefix, acts, id, m)
  {
    BeforeGrows(names, prefix, acts, m.at);
  }

  lemma {:induction false} UnlinksAtGrows(names: Names, prefix: string, acts: seq<Action>, id: string, j: nat)
    requires j < |acts| - 1
    ensures UnlinksAt(names, prefix, acts, id, j) <==> UnlinksAt(names, prefix, acts[..|acts| - 1], id, j)
  {
    BeforeGrows(names, prefix, acts, j);
  }

  lemma {:induction false} UnlinkedGrows(names: Names, prefix: string, acts: seq<Action>, id: string, i: nat)
    requires i < |acts| - 1
    ensures var n := |acts| - 1;
            UnlinkedSince(names, prefix, acts, id, i) <==>
            UnlinkedSince(names, prefix, acts[..n], id, i) || UnlinksAt(names, prefix, acts, id, n)
  {
    var n := |acts| - 1;
    forall j: nat | j < n
      ensures UnlinksAt(names, prefix, acts, id, j) <==> UnlinksAt(names, prefix, acts[..n], id, j)
    {
      UnlinksAtGrows(names, prefix, acts, id, j);
    }
  }

  /** In one step a marker file loses its name exactly by being unlinked, and a new one is told by its step. */
  lemma {:induction false} StandsStep(s: State, prefix: string, a: Action, id: string)
    requires Inv(s, prefix)
    ensures var s' := Step(s, prefix, a);
            && (id in s.markers && !Unlinks(s, prefix, a, id) ==> Stands(s', id, s.markers[id]))
            && (id in s.markers && Unlinks(s, prefix, a, id) ==> id !in s'.markers)
            && (id !in s.markers && id in s'.markers ==> s'.markers[id].at == s.clock)
  {
    assert MarkerOk(s, prefix, id);
  }

  /** The file a create opened has its name until a retire unlinks it, and not after. */
  lemma {:induction false} StandsUntilUnlinked(names: Names, prefix: string, acts: seq<Action>, id: string, m: Maker)
    requires OpenedAt(names, prefix, acts, id, m)
    ensures Stands(Runs(Begin(names), prefix, acts), id, m) <==> !UnlinkedSince(names, prefix, acts, id, m.at)
    decreases |acts|
  {
    var n := |acts| - 1;
    var s := Runs(Begin(names), prefix, acts[..n]);
    RunKeepsInv(names, prefix, acts[..n]);
    if m.at < n {
      BeforeGrows(names, prefix, acts, m.at);
      StandsUntilUnlinked(names, prefix, acts[..n], id, m);
      UnlinkedGrows(names, prefix, acts, id, m.at);
      StandsStep(s, prefix, acts[n], id);
    }
  }

  /** Every create under way, every maker and every opener opened its marker at the step it is told by. */
  ghost predicate Attested(names: Names, prefix: string, acts: seq<Action>, s: State) {
    && (forall t :: t in s.tasks && s.tasks[t].Creating? ==>
          OpenedAt(names, prefix, acts, s.tasks[t].id, s.tasks[t].maker))
    && (forall id :: id in s.made ==> OpenedAt(names, prefix, acts, id, s.made[id]))
    && (forall id :: id in s.markers ==> OpenedAt(names, prefix, acts, id, s.markers[id]))
  }

  /** A marker file at its name was there before, or is the one a create opened in this step. */
  lemma {:induction false} MarkerWas(s: State, prefix: string, a: Action, id: string)
    requires id in Step(s, prefix, a).markers
    ensures var m := Step(s, prefix, a).markers[id];
            || Stands(s, id, m)
            || (Opens(s, prefix, a) && a.id == id && m == Maker(a.owner, s.clock))
  {}

  /** A maker was one before, or was the create that took the step. */
  lemma {:induction false} MakerWas(s: State, prefix: string, a: Action, id: string)
    requires id in Step(s, prefix, a).made
    ensures var m := Step(s, prefix, a).made[id];
            || (id in s.made && s.made[id] == m)
            || (a.Go? && a.task in s.tasks && s.tasks[a.task] == Creating(id, m, Synced))
  {}

  lemma {:induction false} RunAttested(names: Names, prefix: string, acts: seq<Action>)
    ensures Attested(names, prefix, acts, Runs(Begin(names), prefix, acts))
  {
    if acts != [] {
      var n := |acts| - 1;
      var s, s' := Runs(Begin(names), prefix, acts[..n]), Runs(Begin(names), prefix, acts);
      RunAttested(names, prefix, acts[..n]);
      RunKeepsInv(names, prefix, acts[..n]);
      forall t | t in s'.tasks && s'.tasks[t].Creating?
        ensures OpenedAt(names, prefix, acts, s'.tasks[t].id, s'.tasks[t].maker)
      {
        if !Begins(s, prefix, acts[n], s'.tasks[t]) {
          TaskSteps(s, prefix, acts[n], t);
          OpenedGrows(names, prefix, acts, s.tasks[t].id, s.tasks[t].maker);
        }
      }
      forall id | id in s'.made
        ensures OpenedAt(names, prefix, acts, id, s'.made[id])
      {
        MakerWas(s, prefix, acts[n], id);
        OpenedGrows(names, prefix, acts, id, s'.made[id]);
      }
      forall id | id in s'.markers
        ensures OpenedAt(names, prefix, acts, id, s'.markers[id])
      {
        MarkerWas(s, prefix, acts[n], id);
        if Stands(s, id, s'.markers[id]) {
          OpenedGrows(names, prefix, acts, id, s'.markers[id]);
        }
      }
    }
  }

  /** From any directory, after any run of creates and retires of any entries, overlapping and killed anywhere: an
      entry directory has the marker its own create opened, complete, if and only if no retire of its ID unlinked a
      marker after that create opened it. If one did, any marker naming its maker is of a create that came later. */
  lemma {:induction false} MarkedUnlessUnlinked(names: Names, prefix: string, acts: seq<Action>, id: string)
    ensures var s := Runs(Begin(names), prefix, acts);
            id in s.made ==>
              && (Stands(s, id, s.made[id]) <==> !UnlinkedSince(names, prefix, acts, id, s.made[id].at))
              && (Stands(s, id, s.made[id]) ==> Owned(s.names, prefix, id, s.made[id].owner))
              && (Owned(s.names, prefix, id, s.made[id].owner) && !Stands(s, id, s.made[id]) ==>
                    id in s.markers && s.markers[id].at > s.made[id].at)
  {
    var s := Runs(Begin(names), prefix, acts);
    RunKeepsInv(names, prefix, acts);
    RunAttested(names, prefix, acts);
    if id in s.made {
      assert MadeOk(s, prefix, id);
      StandsUntilUnlinked(names, prefix, acts, id, s.made[id]);
    }
  }

  // ---- when no two of one entry overlap --------------------------------------------------------

  /** This step begins no create and no retire of an entry that has one under way. */
  ghost predicate Alone(s: State, a: Action) {
    a.Create? || a.Retire? ==> forall t :: t in s.tasks ==> s.tasks[t].id != a.id
  }

  ghost predicate Orderly(names: Names, prefix: string, acts: seq<Action>) {
    forall i :: 0 <= i < |acts| ==> Alone(Before(names, prefix, acts, i), acts[i])
  }

  ghost predicate OnePerEntry(s: State) {
    forall t, u :: t in s.tasks && u in s.tasks && s.tasks[t].id == s.tasks[u].id ==> t == u
  }

  /** A create has its marker; a retire past the directory has none left to lose one. */
  predicate TaskApart(s: State, prefix: string, k: Task) {
    match k
    case Creating(id, m, _) => Stands(s, id, m)
    case Retiring(id, gone) => gone ==> !IsFolder(s.names, EntryName(prefix, id))
  }

  predicate MadeApart(s: State, prefix: string, id: string) {
    id in s.made && IsFolder(s.names, EntryName(prefix, id)) ==> Stands(s, id, s.made[id])
  }

  ghost predicate Apart(s: State, prefix: string) {
    && OnePerEntry(s)
    && (forall t :: t in s.tasks ==> TaskApart(s, prefix, s.tasks[t]))
    && (forall id :: MadeApart(s, prefix, id))
  }

  lemma {:induction false} TaskWas(s: State, prefix: string, a: Action, t: nat)
    requires t in Step(s, prefix, a).tasks
    ensures var id := Step(s, prefix, a).tasks[t].id;
            (t in s.tasks && s.tasks[t].id == id) || ((a.Create? || a.Retire?) && a.task == t && a.id == id)
  {
    if a.Go? && a.task in s.tasks {
      GoTasks(s, prefix, a.task);
    }
  }

  lemma {:induction false} OnePerEntryKept(s: State, prefix: string, a: Action)
    requires OnePerEntry(s) && Alone(s, a)
    ensures OnePerEntry(Step(s, prefix, a))
  {
    var s' := Step(s, prefix, a);
    forall t, u | t in s'.tasks && u in s'.tasks && s'.tasks[t].id == s'.tasks[u].id
      ensures t == u
    {
      TaskWas(s, prefix, a, t);
      TaskWas(s, prefix, a, u);
    }
  }

  /** A directory is new only if its own create makes it. */
  lemma {:induction false} FolderWas(s: State, prefix: string, a: Action, id: string)
    requires Inv(s, prefix)
    requires !IsFolder(s.names, EntryName(prefix, id)) && IsFolder(Step(s, prefix, a).names, EntryName(prefix, id))
    ensures a.Go? && a.task in s.tasks && s.tasks[a.task].Creating? && s.tasks[a.task].id == id
    ensures Step(s, prefix, a).made == s.made[id := s.tasks[a.task].maker]
  {
    if a.Go? && a.task in s.tasks {
      NamesAreInjective(prefix, s.tasks[a.task].id, id);
    }
  }

  lemma {:induction false} ApartKept(s: State, prefix: string, a: Action)
    requires Inv(s, prefix) && Apart(s, prefix) && Alone(s, a)
    ensures Apart(Step(s, prefix, a), prefix)
  {
    var s' := Step(s, prefix, a);
    OnePerEntryKept(s, prefix, a);
    forall t | t in s'.tasks
      ensures TaskApart(s', prefix, s'.tasks[t])
    {
      TaskApartKept(s, prefix, a, t);
    }
    forall id
      ensures MadeApart(s', prefix, id)
    {
      MadeApartKept(s, prefix, a, id);
    }
  }

  lemma {:induction false} TaskApartKept(s: State, prefix: string, a: Action, t: nat)
    requires Inv(s, prefix) && Apart(s, prefix) && Alone(s, a) && t in Step(s, prefix, a).tasks
    ensures TaskApart(Step(s, prefix, a), prefix, Step(s, prefix, a).tasks[t])
  {
    var s' := Step(s, prefix, a);
    var k' := s'.tasks[t];
    if k'.Creating? {
      if !Begins(s, prefix, a, k') {
        TaskSteps(s, prefix, a, t);
        assert TaskApart(s, prefix, s.tasks[t]);
        StandsStep(s, prefix, a, k'.id);
      }
    } else if k'.gone {
      GoneWas(s, prefix, a, t);
      if t in s.tasks && s.tasks[t] == k' {
        GoneStays(s, prefix, a, t);
      }
    }
  }

  /** A retire past the directory was there before, or has just found or made the directory missing. */
  lemma {:induction false} GoneWas(s: State, prefix: string, a: Action, t: nat)
    requires t in Step(s, prefix, a).tasks
    ensures var k := Step(s, prefix, a).tasks[t];
            k.Retiring? && k.gone ==>
              (t in s.tasks && s.tasks[t] == k) || !IsFolder(Step(s, prefix, a).names, EntryName(prefix, k.id))
  {
    if a.Go? && a.task in s.tasks {
      GoTasks(s, prefix, a.task);
    }
  }

  lemma {:induction false} GoneStays(s: State, prefix: string, a: Action, t: nat)
    requires Inv(s, prefix) && Apart(s, prefix) && t in s.tasks && t in Step(s, prefix, a).tasks
    requires s.tasks[t].Retiring? && s.tasks[t].gone
    ensures !IsFolder(Step(s, prefix, a).names, EntryName(prefix, s.tasks[t].id))
  {
    var id := s.tasks[t].id;
    assert TaskApart(s, prefix, s.tasks[t]);
    if IsFolder(Step(s, prefix, a).names, EntryName(prefix, id)) {
      FolderWas(s, prefix, a, id);
      assert false;
    }
  }

  lemma {:induction false} MadeApartKept(s: State, prefix: string, a: Action, id: string)
    requires Inv(s, prefix) && Apart(s, prefix)
    ensures MadeApart(Step(s, prefix, a), prefix, id)
  {
    var s' := Step(s, prefix, a);
    if id in s'.made && IsFolder(s'.names, EntryName(prefix, id)) {
      assert MadeApart(s, prefix, id);
      StandsStep(s, prefix, a, id);
      if a.Go? && a.task in s.tasks {
        assert TaskApart(s, prefix, s.tasks[a.task]);
      }
      if !IsFolder(s.names, EntryName(prefix, id)) {
        FolderWas(s, prefix, a, id);
      }
    }
  }

  lemma {:induction false} OrderlyApart(names: Names, prefix: string, acts: seq<Action>)
    requires Orderly(names, prefix, acts)
    ensures Apart(Runs(Begin(names), prefix, acts), prefix)
  {
    if acts != [] {
      var n := |acts| - 1;
      forall i | 0 <= i < n
        ensures Alone(Before(names, prefix, acts[..n], i), acts[..n][i])
      {
        BeforeGrows(names, prefix, acts, i);
      }
      OrderlyApart(names, prefix, acts[..n]);
      RunKeepsInv(names, prefix, acts[..n]);
      ApartKept(Runs(Begin(names), prefix, acts[..n]), prefix, acts[n]);
    }
  }

  /** If a create and a retire of one entry never overlap, then after any run, killed anywhere, every entry directory
      that was made here and still exists has its complete marker beside it, naming its maker. */
  lemma {:induction false} EntriesStayMarked(names: Names, prefix: string, acts: seq<Action>, id: string)
    requires Orderly(names, prefix, acts)
    ensures var s := Runs(Begin(names), prefix, acts);
            id in s.made && IsFolder(s.names, EntryName(prefix, id)) ==>
              Stands(s, id, s.made[id]) && Owned(s.names, prefix, id, s.made[id].owner)
  {
    OrderlyApart(names, prefix, acts);
    assert MadeApart(Runs(Begin(names), prefix, acts), prefix, id);
    MarkedUnlessUnlinked(names, prefix, acts, id);
  }

  // ---- two runs that lose a marker ---------------------------------------------------------------

  /** The create has its marker on disk; a retire finds no directory and unlinks the marker; the create goes on. */
  function RetireBetween(id: string, owner: string): seq<Action> {
    [Create(0, id, owner), Go(0), Go(0), Retire(1, id), Go(1), Go(0)]
  }

  /** The retire finds neither; the create makes both; the retire unlinks the marker. */
  function RetireAround(id: string, owner: string): seq<Action> {
    [Retire(1, id), Create(0, id, owner), Go(0), Go(0), Go(0), Go(1)]
  }

  predicate Free(names: Names, prefix: string, id: string) {
    EntryName(prefix, id) !in names && MarkerName(prefix, id) !in names
  }

  /** The entry directory was made by this create and has no marker of its owner. */
  predicate Lost(s: State, prefix: string, id: string, m: Maker) {
    && id in s.made && s.made[id] == m && IsFolder(s.names, EntryName(prefix, id))
    && MarkerName(prefix, id) !in s.names
  }

  lemma {:induction false} SixSteps(s: State, prefix: string, a: seq<Action>)
    requires |a| == 6
    ensures Runs(s, prefix, a)
         == Step(Step(Step(Step(Step(Step(s, prefix, a[0]), prefix, a[1]), prefix, a[2]), prefix, a[3]), prefix, a[4]),
                 prefix, a[5])
  {
    ThreeSteps(s, prefix, a[..3]);
    assert a[..5][..4] == a[..4] && a[..4][..3] == a[..3];
    assert Runs(s, prefix, a[..5]) == Step(Runs(s, prefix, a[..4]), prefix, a[4]);
    assert Runs(s, prefix, a[..4]) == Step(Runs(s, prefix, a[..3]), prefix, a[3]);
  }

  lemma {:induction false} ThreeSteps(s: State, prefix: string, a: seq<Action>)
    requires |a| == 3
    ensures Runs(s, prefix, a) == Step(Step(Step(s, prefix, a[0]), prefix, a[1]), prefix, a[2])
  {
    assert a[..2][..1] == a[..1] && a[..1][..0] == [];
    assert Runs(s, prefix, a[..2]) == Step(Runs(s, prefix, a[..1]), prefix, a[1]);
    assert Runs(s, prefix, a[..1]) == Step(Runs(s, prefix, []), prefix, a[0]);
  }

  /** Without that, directories do lose their markers, in any directory where both names are free: to a retire between
      the create's open and its mkdir, and to one that began before the create and ends after it. */
  lemma {:induction false} OverlapLosesMarker(names: Names, prefix: string, id: string, owner: string)
    requires Free(names, prefix, id)
    ensures Lost(Runs(Begin(names), prefix, RetireBetween(id, owner)), prefix, id, Maker(owner, 0))
    ensures Lost(Runs(Begin(names), prefix, RetireAround(id, owner)), prefix, id, Maker(owner, 1))
  {
    NamesDiffer(prefix, id);
    BetweenLoses(names, prefix, id, owner);
    AroundLoses(names, prefix, id, owner);
  }

  /** A create that nothing interrupts, up to the directory. */
  lemma {:induction false} CreateToSynced(s: State, prefix: string, id: string, owner: string)
    requires 0 !in s.tasks && MarkerName(prefix, id) !in s.names
    ensures Step(Step(Step(s, prefix, Create(0, id, owner)), prefix, Go(0)), prefix, Go(0))
         == State(s.names[MarkerName(prefix, id) := File(Complete(owner))],
                  s.tasks[0 := Creating(id, Maker(owner, s.clock), Synced)],
                  s.markers[id := Maker(owner, s.clock)], s.made, s.clock + 3)
  {
    var m := Maker(owner, s.clock);
    var s1 := Step(s, prefix, Create(0, id, owner));
    assert s1.tasks == s.tasks[0 := Creating(id, m, Opened)] && Stands(s1, id, m);
    var s2 := Step(s1, prefix, Go(0));
    assert s2.names == s.names[MarkerName(prefix, id) := File(Complete(owner))];
  }

  lemma {:induction false} Mkdir(s: State, prefix: string, id: string, m: Maker)
    requires 0 in s.tasks && s.tasks[0] == Creating(id, m, Synced) && EntryName(prefix, id) !in s.names
    ensures Step(s, prefix, Go(0))
         == State(s.names[EntryName(prefix, id) := Folder([])], Without(s.tasks, 0), s.markers, s.made[id := m],
                  s.clock + 1)
  {}

  lemma {:induction false} UnlinkMarker(s: State, prefix: string, id: string)
    requires 1 in s.tasks && s.tasks[1] == Retiring(id, true) && Unlinkable(s.names, MarkerName(prefix, id))
    ensures Step(s, prefix, Go(1))
         == State(Without(s.names, MarkerName(prefix, id)), Without(s.tasks, 1), Without(s.markers, id), s.made,
                  s.clock + 1)
  {}

  lemma {:induction false} BetweenLoses(names: Names, prefix: string, id: string, owner: string)
    requires Free(names, prefix, id)
    ensures Lost(Runs(Begin(names), prefix, RetireBetween(id, owner)), prefix, id, Maker(owner, 0))
  {
    var m := Maker(owner, 0);
    NamesDiffer(prefix, id);
    SixSteps(Begin(names), prefix, RetireBetween(id, owner));
    CreateToSynced(Begin(names), prefix, id, owner);
    var s3 := State(names[MarkerName(prefix, id) := File(Complete(owner))], map[0 := Creating(id, m, Synced)],
                    map[id := m], map[], 3);
    var s4 := Step(s3, prefix, Retire(1, id));
    assert s4 == s3.(tasks := s3.tasks[1 := Retiring(id, true)], clock := 4);
    UnlinkMarker(s4, prefix, id);
    assert Without(s4.tasks, 1) == s3.tasks;
    Mkdir(Step(s4, prefix, Go(1)), prefix, id, m);
  }

  lemma {:induction false} AroundLoses(names: Names, prefix: string, id: string, owner: string)
    requires Free(names, prefix, id)
    ensures Lost(Runs(Begin(names), prefix, RetireAround(id, owner)), prefix, id, Maker(owner, 1))
  {
    SixSteps(Begin(names), prefix, RetireAround(id, owner));
    var s1 := Step(Begin(names), prefix, Retire(1, id));
    assert s1 == Begin(names).(tasks := map[1 := Retiring(id, true)], clock := 1);
    CreateToSynced(s1, prefix, id, owner);
    var s4 := State(names[MarkerName(prefix, id) := File(Complete(owner))],
                    s1.tasks[0 := Creating(id, Maker(owner, 1), Synced)], map[id := Maker(owner, 1)], map[], 4);
    LateUnlink(s4, prefix, id, Maker(owner, 1));
  }

  lemma {:induction false} LateUnlink(s: State, prefix: string, id: string, m: Maker)
    requires s.tasks == map[1 := Retiring(id, true)][0 := Creating(id, m, Synced)]
    requires EntryName(prefix, id) !in s.names && IsFile(s.names, MarkerName(prefix, id))
    ensures Lost(Step(Step(s, prefix, Go(0)), prefix, Go(1)), prefix, id, m)
  {
    NamesDiffer(prefix, id);
    Mkdir(s, prefix, id, m);
    UnlinkMarker(Step(s, prefix, Go(0)), prefix, id);
  }
}
