/** Retiring one owner-marked entry, and the boot pass that retires all of an owner's. */
module BootPass {
  import opened Text
  import opened OwnedEntry

  /** What `read_marker` finds. */
  datatype Found = Missing | Unusable | By(owner: string)

  /** `readable` says for which names the open, stat and read go through. */
  function ReadMarker(names: Names, name: string, readable: string -> bool): Found {
    if name !in names then Missing
    else if readable(name) && names[name].File? && names[name].body.Complete? then By(names[name].body.owner)
    else Unusable
  }

  datatype Summary = Summary(removed: nat, unattributable: nat, errors: nat)

  // ---- one entry -----------------------------------------------------------------------------

  /** Names other than these two keep their nodes. */
  ghost predicate OnlyThese(names: Names, names': Names, entry: string, marker: string) {
    forall n :: n != entry && n != marker ==>
      (n in names' <==> n in names) && (n in names ==> names'[n] == names[n])
  }

  predicate AllPlain(children: seq<Child>) {
    forall i :: 0 <= i < |children| ==> children[i].PlainFile?
  }

  /** A directory that `remove_entry_dir` can remove: it holds plain files only. */
  predicate Removable(n: Node) {
    n.Folder? && AllPlain(n.children)
  }

  /** A directory may have lost plain files. */
  predicate Shrunk(n: Node, n': Node) {
    n' == n || (n.Folder? && n'.Folder? && (Removable(n') ==> Removable(n)))
  }

  /** What retiring an entry may do, whether it succeeds or fails part way: the directory only loses plain files
      or goes away, and the marker only goes away, after the directory. */
  ghost predicate RetireEffect(names: Names, names': Names, entry: string, marker: string) {
    && OnlyThese(names, names', entry, marker)
    && (entry in names' ==> entry in names && Shrunk(names[entry], names'[entry]))
    && (entry !in names' && entry in names ==> Removable(names[entry]))
    && (marker in names' ==> marker in names && names'[marker] == names[marker])
    && (marker in names && marker !in names' ==> entry !in names')
  }

  /** Both gone, nothing else touched. */
  function Retired(names: Names, entry: string, marker: string): Names {
    Without(Without(names, entry), marker)
  }

  lemma {:induction false} OneLess(children: seq<Child>)
    requires children != [] && children[0].PlainFile?
    ensures AllPlain(children) <==> AllPlain(children[1..])
  {
    assert forall i :: 0 < i < |children| ==> children[i] == children[1..][i - 1];
  }

  /** A marker file was made, but not surely its body. */
  predicate HalfMade(names: Names, names': Names, marker: string, owner: string) {
    marker !in names
    && (names' == names[marker := File(Broken)] || names' == names[marker := File(Complete(owner))])
  }

  class RuntimeDir {
    var names: Names

    /** `try_write_marker`: Some(false) when the name is taken, None on an error, which may leave the file empty,
        half written or not yet synced. */
    method TryWriteMarker(marker: string, owner: string) returns (written: Option<bool>)
      modifies this
      ensures written == Some(true) ==> marker !in old(names) && names == old(names)[marker := File(Complete(owner))]
      ensures written == Some(false) ==> marker in old(names) && names == old(names)
      ensures written == None ==> names == old(names) || HalfMade(old(names), names, marker, owner)
    {
      var openOk: bool, writeOk: bool, syncOk: bool := *, *, *;
      if !openOk {
        return None;
      }
      if marker in names {
        return Some(false);
      }
      names := names[marker := File(Broken)];
      if writeOk {
        names := names[marker := File(Complete(owner))];
      }
      return if writeOk && syncOk then Some(true) else None;
    }

    /** `remove_entry_dir`. Any system call may fail. */
    method RemoveEntryDir(entry: string) returns (ok: bool)
      modifies this
      ensures OnlyThese(old(names), names, entry, entry)
      ensures ok ==> names == Without(old(names), entry) && (entry in old(names) ==> Removable(old(names)[entry]))
      ensures !ok ==> (entry in names <==> entry in old(names))
      ensures !ok && entry in names ==> Shrunk(old(names)[entry], names[entry])
    {
      var statOk: bool, listOk: bool := *, *;
      if entry !in names {
        return statOk;
      }
      if !statOk || !names[entry].Folder? || !listOk {
        return false;
      }
      var left := names[entry].children;
      while left != []
        invariant OnlyThese(old(names), names, entry, entry)
        invariant entry in names && names[entry] == Folder(left)
        invariant AllPlain(left) ==> AllPlain(old(names)[entry].children)
        decreases |left|
      {
        var removed: bool := *;
        if left[0].NotAFile? || !removed {
          return false;
        }
        OneLess(left);
        left := left[1..];
        names := names[entry := Folder(left)];
      }
      ok := *;
      if ok {
        names := Without(names, entry);
      }
    }

    /** `remove_marker`: unlinks a file or a link, never a directory. */
    method RemoveMarker(marker: string) returns (ok: bool)
      modifies this
      ensures ok ==> names == Without(old(names), marker)
      ensures !ok ==> names == old(names)
    {
      if marker !in names {
        return true;
      }
      ok := *;
      ok := ok && !names[marker].Folder?;
      if ok {
        names := Without(names, marker);
      }
    }

    /** `retire_entry`: the directory, then its marker. */
    method RetireEntry(prefix: string, id: string) returns (ok: bool)
      modifies this
      ensures RetireEffect(old(names), names, EntryName(prefix, id), MarkerName(prefix, id))
      ensures ok ==> names == Retired(old(names), EntryName(prefix, id), MarkerName(prefix, id))
      ensures ok && EntryName(prefix, id) in old(names) ==> Removable(old(names)[EntryName(prefix, id)])
    {
      NamesDiffer(prefix, id);
      ok := RemoveEntryDir(EntryName(prefix, id));
      if ok {
        ok := RemoveMarker(MarkerName(prefix, id));
      }
    }

    /** One turn of the second loop of `retire_all_owned`. */
    method Attend(id: string, pass: Pass) returns (turn: Turn)
      modifies this
      ensures Possible(pass, old(names), names, id, turn)
    {
      if pass.malformed(id) {
        return Left;
      }
      var found := ReadMarker(names, MarkerName(pass.prefix, id), pass.readable);
      if found == By(pass.owner) {
        var ok := RetireEntry(pass.prefix, id);
        return if ok then Removed else Failed;
      }
      return if found.Missing? then Vanished else Left;
    }

    /** The second loop of `retire_all_owned`: one turn for each marker listed. */
    method RetireMarked(ids: seq<string>, dirIds: set<string>, pass: Pass)
        returns (summary: Summary, unmarked: set<string>, ghost turns: seq<Turn>)
      requires pass.names == names
      modifies this
      ensures PassRun(pass, ids, turns, names) && summary == Tally(turns)
      ensures unmarked == dirIds - Elements(ids)
    {
      summary, unmarked, turns := Summary(0, 0, 0), dirIds, [];
      for i := 0 to |ids|
        invariant PassRun(pass, ids[..i], turns, names) && summary == Tally(turns)
        invariant unmarked == dirIds - Elements(ids[..i])
      {
        ghost var before := names;
        unmarked := unmarked - {ids[i]};
        var turn := Attend(ids[i], pass);
        assert ids[..i + 1] == ids[..i] + [ids[i]];
        RunGrows(pass, ids[..i], turns, before, ids[i], turn, names);
        TallyGrows(turns, turn);
        ElementsGrow(ids[..i], ids[i]);
        turns := turns + [turn];
        match turn
        case Removed => summary := summary.(removed := summary.removed + 1);
        case Failed => summary := summary.(errors := summary.errors + 1);
        case Left => summary := summary.(unattributable := summary.unattributable + 1);
        case Vanished =>
      }
      assert ids[..|ids|] == ids;
    }

    /** `retire_all_owned`, given the listing of the directory, or None when it could not be listed. */
    method RetireAllOwned(
        prefix: string, owner: string, malformed: string -> bool, readable: string -> bool,
        listing: Option<seq<string>>)
        returns (summary: Summary, ghost turns: seq<Turn>)
      requires listing.Some? ==> Lists(listing.value, names)
      modifies this
      ensures listing.None? ==> names == old(names) && summary == Summary(0, 0, 0)
      ensures listing.Some? ==>
                PassDone(Pass(old(names), prefix, owner, malformed, readable), listing.value, turns, names, summary)
    {
      summary, turns := Summary(0, 0, 0), [];
      if listing.None? {
        return;
      }
      var pass := Pass(names, prefix, owner, malformed, readable);
      var ids, dirIds := SortListing(listing.value, names, prefix);
      UnmarkedAre(pass, listing.value, dirIds);
      var unmarked;
      summary, unmarked, turns := RetireMarked(ids, dirIds, pass);
      summary := summary.(unattributable := summary.unattributable + |unmarked|);
    }
  }

  /** A listing names everything, once. */
  ghost predicate Lists(listing: seq<string>, names: Names) {
    Distinct(listing) && forall n :: n in listing <==> n in names
  }

  /** The listed directories without a marker: counted, and left alone. */
  ghost function Unmarked(pass: Pass): set<string> {
    set n | n in pass.names && IsFolder(pass.names, n) && IsUnmarked(pass, n) :: n[|pass.prefix|..]
  }

  predicate IsUnmarked(pass: Pass, n: string) {
    && pass.prefix <= n && !EndsLikeMarker(n[|pass.prefix|..])
    && MarkerName(pass.prefix, n[|pass.prefix|..]) !in pass.names
  }

  /** The distinct IDs a pass finds. */
  ghost function Listed(pass: Pass, listing: seq<string>): set<string> {
    Elements(MarkerIds(listing, pass.prefix)) + Unmarked(pass)
  }

  function Sum(s: Summary): nat {
    s.removed + s.unattributable + s.errors
  }

  /** What a whole pass does: one turn for each marker listed, and the directories without one counted. */
  ghost predicate PassDone(pass: Pass, listing: seq<string>, turns: seq<Turn>, names: Names, summary: Summary) {
    && Lists(listing, pass.names)
    && PassRun(pass, MarkerIds(listing, pass.prefix), turns, names)
    && summary == Tally(turns).(unattributable := Tally(turns).unattributable + |Unmarked(pass)|)
  }

  /** The ID a name is the marker of. */
  function MarkerId(prefix: string, name: string): Option<string> {
    if prefix <= name && EndsLikeMarker(name[|prefix|..]) then Some(name[|prefix|..|name| - |SUFFIX|]) else None
  }

  lemma {:induction false} MarkerIdIs(prefix: string, name: string, id: string)
    ensures MarkerId(prefix, name) == Some(id) <==> name == MarkerName(prefix, id)
  {
    if prefix <= name && EndsLikeMarker(name[|prefix|..]) {
      var front := name[|prefix|..|name| - |SUFFIX|];
      assert name == prefix + (front + SUFFIX);
      NamesAreInjective(prefix, front, id);
    }
    if name == MarkerName(prefix, id) {
      assert name[|prefix|..] == id + SUFFIX;
      assert (id + SUFFIX)[|id|..] == SUFFIX;
    }
  }

  lemma {:induction false} EntryNameIs(prefix: string, name: string)
    requires prefix <= name
    ensures name == EntryName(prefix, name[|prefix|..])
  {}

  /** The IDs of the markers listed, in the listing's order. */
  function MarkerIds(listing: seq<string>, prefix: string): seq<string> {
    if listing == [] then []
    else
      var id := MarkerId(prefix, listing[|listing| - 1]);
      MarkerIds(listing[..|listing| - 1], prefix) + if id.Some? then [id.value] else []
  }

  /** The first loop of `retire_all_owned`. */
  method SortListing(listing: seq<string>, names: Names, prefix: string) returns (ids: seq<string>, dirIds: set<string>)
    ensures ids == MarkerIds(listing, prefix)
    ensures forall id :: id in dirIds <==> IsDirId(listing, names, prefix, id)
  {
    ids, dirIds := [], {};
    for i := 0 to |listing|
      invariant ids == MarkerIds(listing[..i], prefix)
      invariant forall id :: id in dirIds <==> IsDirId(listing[..i], names, prefix, id)
    {
      var name := listing[i];
      assert listing[..i + 1][..i] == listing[..i];
      SortOne(listing, names, prefix, dirIds, i);
      var marker := MarkerId(prefix, name);
      if marker.Some? {
        ids := ids + [marker.value];
      } else if prefix <= name && IsFolder(names, name) {
        dirIds := dirIds + {name[|prefix|..]};
      }
    }
    assert listing[..|listing|] == listing;
  }

  predicate IsDirId(listing: seq<string>, names: Names, prefix: string, id: string) {
    !EndsLikeMarker(id) && EntryName(prefix, id) in listing && IsFolder(names, EntryName(prefix, id))
  }

  lemma {:induction false} SortOne(listing: seq<string>, names: Names, prefix: string, dirIds: set<string>, i: nat)
    requires i < |listing|
    requires forall id :: id in dirIds <==> IsDirId(listing[..i], names, prefix, id)
    ensures var name := listing[i];
            var isDir := MarkerId(prefix, name).None? && prefix <= name && IsFolder(names, name);
            var dirIds' := if isDir then dirIds + {name[|prefix|..]} else dirIds;
            forall id :: id in dirIds' <==> IsDirId(listing[..i + 1], names, prefix, id)
  {
    var name := listing[i];
    assert listing[..i + 1] == listing[..i] + [name];
    forall id
      ensures EntryName(prefix, id) == name ==> prefix <= name && id == name[|prefix|..]
    {
      if EntryName(prefix, id) == name {
        SameTail(prefix, id, name[|prefix|..]);
      }
    }
    if prefix <= name {
      EntryNameIs(prefix, name);
    }
  }

  /** Distinct names are the markers of distinct IDs. */
  lemma {:induction false} MarkerIdsAre(listing: seq<string>, prefix: string, id: string)
    requires Distinct(listing)
    ensures id in MarkerIds(listing, prefix) <==> MarkerName(prefix, id) in listing
    ensures Distinct(MarkerIds(listing, prefix))
  {
    if listing != [] {
      var front, name := listing[..|listing| - 1], listing[|listing| - 1];
      assert listing == front + [name];
      MarkerIdsAre(front, prefix, id);
      MarkerIdIs(prefix, name, id);
      var last := MarkerId(prefix, name);
      if last.Some? {
        MarkerIdIs(prefix, name, last.value);
        MarkerIdsAre(front, prefix, last.value);
        assert name !in front;
      }
    }
  }

  lemma {:induction false} MarkerIdsJoin(a: seq<string>, b: seq<string>, prefix: string)
    ensures MarkerIds(a + b, prefix) == MarkerIds(a, prefix) + MarkerIds(b, prefix)
    decreases |b|
  {
    if b == [] {
      assert a + b == a;
    } else {
      assert (a + b)[..|a + b| - 1] == a + b[..|b| - 1];
      MarkerIdsJoin(a, b[..|b| - 1], prefix);
    }
  }

  lemma {:induction false} UnmarkedAre(pass: Pass, listing: seq<string>, dirIds: set<string>)
    requires Lists(listing, pass.names)
    requires forall id :: id in dirIds <==> IsDirId(listing, pass.names, pass.prefix, id)
    ensures dirIds - Elements(MarkerIds(listing, pass.prefix)) == Unmarked(pass)
  {
    forall id
      ensures id in Elements(MarkerIds(listing, pass.prefix)) <==> MarkerName(pass.prefix, id) in pass.names
    {
      ElementsAre(MarkerIds(listing, pass.prefix), id);
      MarkerIdsAre(listing, pass.prefix, id);
    }
    forall id
      ensures id in Unmarked(pass) <==> id in dirIds && MarkerName(pass.prefix, id) !in pass.names
    {
      var n := EntryName(pass.prefix, id);
      assert n[|pass.prefix|..] == id;
      if id in Unmarked(pass) {
        var m :| m in pass.names && IsFolder(pass.names, m) && IsUnmarked(pass, m) && m[|pass.prefix|..] == id;
        EntryNameIs(pass.prefix, m);
      }
    }
  }

  /** What became of one marker: its entry retired, or failed to; left alone; or gone before it was read. */
  datatype Turn = Removed | Failed | Left | Vanished

  function Count(turns: seq<Turn>, t: Turn): nat {
    if turns == [] then 0 else Count(turns[..|turns| - 1], t) + if turns[|turns| - 1] == t then 1 else 0
  }

  /** The counts; a vanished marker is in none of them. */
  function Tally(turns: seq<Turn>): Summary {
    Summary(Count(turns, Removed), Count(turns, Left), Count(turns, Failed))
  }

  /** The counts after one more turn. */
  function Counting(s: Summary, turn: Turn): Summary {
    match turn
    case Removed => s.(removed := s.removed + 1)
    case Failed => s.(errors := s.errors + 1)
    case Left => s.(unattributable := s.unattributable + 1)
    case Vanished => s
  }

  /** What one turn may be and do. */
  ghost predicate Possible(pass: Pass, names: Names, names': Names, id: string, turn: Turn) {
    var entry, marker := EntryName(pass.prefix, id), MarkerName(pass.prefix, id);
    if !pass.malformed(id) && ReadMarker(names, marker, pass.readable) == By(pass.owner) then
      match turn
      case Removed => names' == Retired(names, entry, marker) && (entry in names ==> Removable(names[entry]))
      case Failed => RetireEffect(names, names', entry, marker)
      case _ => false
    else
      names' == names && turn == if !pass.malformed(id) && marker !in names then Vanished else Left
  }

  /** The turns of a pass over these IDs, in this order, and the directory they leave. */
  ghost predicate PassRun(pass: Pass, ids: seq<string>, turns: seq<Turn>, names: Names)
    decreases |ids|, 0
  {
    |turns| == |ids| &&
    if ids == [] then names == pass.names
    else
      var n := |ids| - 1;
      exists before :: PassStep(pass, ids[..n], turns[..n], before, ids[n], turns[n], names)
  }

  ghost predicate PassStep(
      pass: Pass, ids: seq<string>, turns: seq<Turn>, before: Names, id: string, turn: Turn, names: Names)
    decreases |ids|, 1
  {
    PassRun(pass, ids, turns, before) && Possible(pass, before, names, id, turn)
  }

  lemma {:induction false} RunGrows(
      pass: Pass, ids: seq<string>, turns: seq<Turn>, before: Names, id: string, turn: Turn, names: Names)
    requires PassRun(pass, ids, turns, before) && Possible(pass, before, names, id, turn)
    ensures PassRun(pass, ids + [id], turns + [turn], names)
  {
    var more, ts, n := ids + [id], turns + [turn], |ids|;
    assert more[..n] == ids && ts[..n] == turns;
    assert PassStep(pass, more[..n], ts[..n], before, more[n], ts[n], names);
  }

  lemma {:induction false} TallyGrows(turns: seq<Turn>, turn: Turn)
    ensures Tally(turns + [turn]) == Counting(Tally(turns), turn)
  {
    assert (turns + [turn])[..|turns|] == turns;
  }

  lemma {:induction false} ElementsGrow(ids: seq<string>, id: string)
    ensures Elements(ids + [id]) == Elements(ids) + {id}
  {
    assert (ids + [id])[..|ids|] == ids;
  }

  // ---- what a pass may do --------------------------------------------------------------------

  /** A boot pass: the directory it finds, whose entries it retires, and which IDs and markers it can use. */
  datatype Pass = Pass(
    names: Names, prefix: string, owner: string, malformed: string -> bool, readable: string -> bool)

  predicate Distinct(ids: seq<string>) {
    forall i, j :: 0 <= i < j < |ids| ==> ids[i] != ids[j]
  }

  function Elements(ids: seq<string>): set<string> {
    if ids == [] then {} else Elements(ids[..|ids| - 1]) + {ids[|ids| - 1]}
  }

  lemma {:induction false} ElementsAre(ids: seq<string>, id: string)
    ensures id in Elements(ids) <==> id in ids
  {
    if ids != [] {
      ElementsAre(ids[..|ids| - 1], id);
      assert ids == ids[..|ids| - 1] + [ids[|ids| - 1]];
    }
  }

  lemma {:induction false} DistinctCount(ids: seq<string>)
    requires Distinct(ids)
    ensures |Elements(ids)| == |ids|
  {
    if ids != [] {
      var front, last := ids[..|ids| - 1], ids[|ids| - 1];
      DistinctCount(front);
      ElementsAre(front, last);
      assert last !in front;
    }
  }

  /** An entry the pass is to retire: well-formed, and marked as this owner's when the pass began. */
  predicate Mine(pass: Pass, id: string) {
    !pass.malformed(id) && pass.readable(MarkerName(pass.prefix, id)) && Owned(pass.names, pass.prefix, id, pass.owner)
  }

  /** An ID whose marker's name is also the name of a removable entry directory of this owner. */
  predicate Clashes(pass: Pass, id: string) {
    var other := EntryName(pass.prefix, id + SUFFIX);
    !pass.malformed(id) && Mine(pass, id + SUFFIX) && other in pass.names && Removable(pass.names[other])
  }

  ghost predicate NoClash(pass: Pass) {
    forall id :: !Clashes(pass, id)
  }

  predicate EndsLikeMarker(id: string) {
    |id| >= |SUFFIX| && id[|id| - |SUFFIX|..] == SUFFIX
  }

  /** What the pass may change: the directories and the marker files of this owner's entries. */
  ghost predicate Touchable(pass: Pass, n: string) {
    exists id :: Mine(pass, id)
                 && ((n == EntryName(pass.prefix, id) && IsFolder(pass.names, n)) || n == MarkerName(pass.prefix, id))
  }

  /** Nothing is new, no file is rewritten, nothing becomes a directory, and nothing that is not this owner's
      changes at all. */
  ghost predicate Touched(pass: Pass, names: Names) {
    && (forall n :: n in names ==> n in pass.names)
    && (forall n :: n in names && (IsFile(pass.names, n) || IsFile(names, n)) ==> names[n] == pass.names[n])
    && (forall n :: IsFolder(names, n) ==> IsFolder(pass.names, n) && Shrunk(pass.names[n], names[n]))
    && (forall n :: n in pass.names && !Touchable(pass, n) ==> n in names && names[n] == pass.names[n])
  }

  predicate Gone(pass: Pass, names: Names, id: string) {
    EntryName(pass.prefix, id) !in names && MarkerName(pass.prefix, id) !in names
  }

  ghost predicate AllGone(pass: Pass, names: Names, ids: seq<string>) {
    forall id :: id in ids && Mine(pass, id) ==> Gone(pass, names, id)
  }

  /** A marker still to be read is there, at least if it is a file. */
  ghost predicate Pending(pass: Pass, names: Names, id: string) {
    IsFile(pass.names, MarkerName(pass.prefix, id)) || (NoClash(pass) && !pass.malformed(id)) ==>
      MarkerName(pass.prefix, id) in names
  }

  ghost predicate Waiting(pass: Pass, names: Names, ids: seq<string>) {
    forall id :: id in ids ==> Pending(pass, names, id)
  }

  /** The marker of an ID in turn: it is retired exactly when it was this owner's at the start. */
  lemma {:induction false} ReadsAsBefore(pass: Pass, names: Names, id: string)
    requires Touched(pass, names) && Pending(pass, names, id)
    ensures Mine(pass, id) <==>
            !pass.malformed(id) && ReadMarker(names, MarkerName(pass.prefix, id), pass.readable) == By(pass.owner)
  {}

  lemma {:induction false} RetireTouches(pass: Pass, before: Names, names: Names, id: string)
    requires Touched(pass, before) && Mine(pass, id)
    requires RetireEffect(before, names, EntryName(pass.prefix, id), MarkerName(pass.prefix, id))
    ensures Touched(pass, names)
  {
    var entry, marker := EntryName(pass.prefix, id), MarkerName(pass.prefix, id);
    assert Touchable(pass, marker);
    assert IsFolder(pass.names, entry) ==> Touchable(pass, entry);
    assert IsFolder(before, entry) ==> IsFolder(pass.names, entry);
  }

  lemma {:induction false} MarkerIsEntry(prefix: string, id: string, other: string)
    requires MarkerName(prefix, other) == EntryName(prefix, id)
    ensures id == other + SUFFIX
  {
    SameTail(prefix, other + SUFFIX, id);
  }

  lemma {:induction false} RetireLeavesOthersWaiting(pass: Pass, before: Names, names: Names, id: string, other: string)
    requires Touched(pass, before) && Mine(pass, id) && other != id
    requires RetireEffect(before, names, EntryName(pass.prefix, id), MarkerName(pass.prefix, id))
    requires Pending(pass, before, other)
    ensures Pending(pass, names, other)
  {
    var marker := MarkerName(pass.prefix, other);
    NamesAreInjective(pass.prefix, id, other);
    if marker == EntryName(pass.prefix, id) {
      MarkerIsEntry(pass.prefix, id, other);
      assert !pass.malformed(other) && marker in before && marker !in names ==> Clashes(pass, other);
    }
  }

  lemma {:induction false} GoneStaysGone(pass: Pass, before: Names, names: Names, id: string, gone: string)
    requires RetireEffect(before, names, EntryName(pass.prefix, id), MarkerName(pass.prefix, id))
    requires Gone(pass, before, gone)
    ensures Gone(pass, names, gone)
  {}

  /** Success is one of the effects retiring may have. */
  lemma {:induction false} RemovedIsEffect(pass: Pass, before: Names, names: Names, id: string, turn: Turn)
    requires Possible(pass, before, names, id, turn) && (turn.Removed? || turn.Failed?)
    ensures RetireEffect(before, names, EntryName(pass.prefix, id), MarkerName(pass.prefix, id))
    ensures turn.Removed? ==> Gone(pass, names, id)
  {
    NamesDiffer(pass.prefix, id);
  }

  /** What a turn means, given what the turns before it left alone. */
  ghost predicate TurnOk(pass: Pass, id: string, turn: Turn) {
    (turn.Removed? || turn.Failed? <==> Mine(pass, id)) && (turn.Vanished? ==> !NoClash(pass))
  }

  lemma {:induction false} TurnKeeps(pass: Pass, before: Names, names: Names, id: string, turn: Turn, rest: seq<string>)
    requires Touched(pass, before) && Pending(pass, before, id) && Waiting(pass, before, rest) && id !in rest
    requires Possible(pass, before, names, id, turn)
    ensures Touched(pass, names) && Waiting(pass, names, rest) && TurnOk(pass, id, turn)
  {
    ReadsAsBefore(pass, before, id);
    if turn.Removed? || turn.Failed? {
      RemovedIsEffect(pass, before, names, id, turn);
      RetireTouches(pass, before, names, id);
      forall other | other in rest
        ensures Pending(pass, names, other)
      {
        RetireLeavesOthersWaiting(pass, before, names, id, other);
      }
    }
  }

  lemma {:induction false} TurnKeepsGone(
      pass: Pass, before: Names, names: Names, ids: seq<string>, id: string, turn: Turn)
    requires AllGone(pass, before, ids) && Possible(pass, before, names, id, turn)
    requires TurnOk(pass, id, turn) && !turn.Failed?
    ensures AllGone(pass, names, ids + [id])
  {
    if turn.Removed? {
      RemovedIsEffect(pass, before, names, id, turn);
      forall gone | gone in ids + [id] && Mine(pass, gone)
        ensures Gone(pass, names, gone)
      {
        if gone != id {
          GoneStaysGone(pass, before, names, id, gone);
        }
      }
    }
  }

  /** The IDs of a pass: distinct, with a marker listed for each. */
  ghost predicate Marked(pass: Pass, ids: seq<string>) {
    Distinct(ids) && forall id :: id in ids ==> MarkerName(pass.prefix, id) in pass.names
  }

  lemma {:induction false} LastOf(pass: Pass, ids: seq<string>, turns: seq<Turn>, names: Names) returns (before: Names)
    requires ids != [] && PassRun(pass, ids, turns, names)
    ensures var n := |ids| - 1;
            PassRun(pass, ids[..n], turns[..n], before) && Possible(pass, before, names, ids[n], turns[n])
  {
    var n := |ids| - 1;
    before :| PassStep(pass, ids[..n], turns[..n], before, ids[n], turns[n], names);
  }

  lemma {:induction false} LastTurn(pass: Pass, ids: seq<string>, k: nat, turns: seq<Turn>, names: Names)
      returns (before: Names)
    requires k < |ids| && PassRun(pass, ids[..k + 1], turns, names)
    ensures PassRun(pass, ids[..k], turns[..k], before) && Possible(pass, before, names, ids[k], turns[k])
  {
    before := LastOf(pass, ids[..k + 1], turns, names);
    assert ids[..k + 1][..k] == ids[..k];
  }

  /** Part way through a pass: only this owner's entries were touched, and the markers to come are there. */
  lemma {:induction false} RunTouched(pass: Pass, ids: seq<string>, i: nat, turns: seq<Turn>, names: Names)
    requires Marked(pass, ids) && i <= |ids| && PassRun(pass, ids[..i], turns, names)
    ensures Touched(pass, names) && Waiting(pass, names, ids[i..])
    ensures i > 0 ==> TurnOk(pass, ids[i - 1], turns[i - 1])
    decreases i
  {
    if i > 0 {
      var k := i - 1;
      var before := LastTurn(pass, ids, k, turns, names);
      RunTouched(pass, ids, k, turns[..k], before);
      assert ids[k..] == [ids[k]] + ids[i..];
      TurnKeeps(pass, before, names, ids[k], turns[k], ids[i..]);
    }
  }

  /** Every turn was right. */
  lemma {:induction false} RunTurns(pass: Pass, ids: seq<string>, i: nat, turns: seq<Turn>, names: Names, j: nat)
    requires Marked(pass, ids) && j < i <= |ids| && PassRun(pass, ids[..i], turns, names)
    ensures TurnOk(pass, ids[j], turns[j])
    decreases i
  {
    if j == i - 1 {
      RunTouched(pass, ids, i, turns, names);
    } else {
      var before := LastTurn(pass, ids, i - 1, turns, names);
      RunTurns(pass, ids, i - 1, turns[..i - 1], before, j);
    }
  }

  /** Without failures all of this owner's are gone. */
  lemma {:induction false} RunGone(pass: Pass, ids: seq<string>, i: nat, turns: seq<Turn>, names: Names)
    requires Marked(pass, ids) && i <= |ids| && PassRun(pass, ids[..i], turns, names) && Failed !in turns
    ensures AllGone(pass, names, ids[..i])
    decreases i
  {
    if i > 0 {
      var k := i - 1;
      var before := LastTurn(pass, ids, k, turns, names);
      RunGone(pass, ids, k, turns[..k], before);
      RunTurns(pass, ids, i, turns, names, k);
      assert ids[..i] == ids[..k] + [ids[k]];
      TurnKeepsGone(pass, before, names, ids[..k], ids[k], turns[k]);
    }
  }

  // ---- main results --------------------------------------------------------------------------

  /** A pass never touches what is not this owner's: entry directories and marker files of other owners, of
      malformed IDs, without a marker or with a broken one are as they were. */
  lemma {:induction false} ForeignUntouched(pass: Pass, names: Names, id: string)
    requires Touched(pass, names) && !Mine(pass, id)
    ensures var entry := EntryName(pass.prefix, id);
            IsFolder(pass.names, entry) ==> entry in names && names[entry] == pass.names[entry]
    ensures var marker := MarkerName(pass.prefix, id);
            IsFile(pass.names, marker) ==> marker in names && names[marker] == pass.names[marker]
  {
    forall other | Mine(pass, other)
      ensures EntryName(pass.prefix, other) == EntryName(pass.prefix, id) ==> other == id
      ensures MarkerName(pass.prefix, other) == MarkerName(pass.prefix, id) ==> other == id
    {
      NamesAreInjective(pass.prefix, other, id);
    }
  }

  lemma {:induction false} ListingIsOrder(pass: Pass, listing: seq<string>)
    requires Lists(listing, pass.names)
    ensures var ids := MarkerIds(listing, pass.prefix);
            Distinct(ids) && forall id :: id in ids <==> MarkerName(pass.prefix, id) in pass.names
  {
    MarkerIdsAre(listing, pass.prefix, "");
    forall id
      ensures id in MarkerIds(listing, pass.prefix) <==> MarkerName(pass.prefix, id) in listing
    {
      MarkerIdsAre(listing, pass.prefix, id);
    }
  }

  /** What a pass leaves: nothing touched but this owner's, and without errors none of this owner's entries. */
  lemma {:induction false} PassLeaves(
      pass: Pass, listing: seq<string>, turns: seq<Turn>, names: Names, summary: Summary)
    requires PassDone(pass, listing, turns, names, summary)
    ensures Touched(pass, names)
    ensures summary.errors == 0 ==> forall id :: Mine(pass, id) ==> Gone(pass, names, id)
  {
    var ids := MarkerIds(listing, pass.prefix);
    ListingIsOrder(pass, listing);
    assert ids[..|ids|] == ids;
    RunTouched(pass, ids, |ids|, turns, names);
    NoneCounted(turns, Failed);
    if summary.errors == 0 {
      RunGone(pass, ids, |ids|, turns, names);
    }
  }

  lemma {:induction false} NoneCounted(turns: seq<Turn>, t: Turn)
    ensures Count(turns, t) == 0 <==> t !in turns
  {
    if turns != [] {
      NoneCounted(turns[..|turns| - 1], t);
      assert turns == turns[..|turns| - 1] + [turns[|turns| - 1]];
    }
  }

  lemma {:induction false} EveryTurnIsOne(turns: seq<Turn>)
    ensures Sum(Tally(turns)) + Count(turns, Vanished) == |turns|
  {
    if turns != [] {
      EveryTurnIsOne(turns[..|turns| - 1]);
    }
  }

  /** The three counts and the vanished markers add up to the distinct IDs. */
  lemma {:induction false} CountsAndVanished(
      pass: Pass, listing: seq<string>, turns: seq<Turn>, names: Names, summary: Summary)
    requires PassDone(pass, listing, turns, names, summary)
    ensures Sum(summary) + Count(turns, Vanished) == |Listed(pass, listing)|
  {
    var ids := MarkerIds(listing, pass.prefix);
    ListingIsOrder(pass, listing);
    DistinctCount(ids);
    EveryTurnIsOne(turns);
    forall id | id in Unmarked(pass)
      ensures id !in Elements(ids)
    {
      ElementsAre(ids, id);
    }
  }

  ghost predicate AlwaysAddsUp(pass: Pass) {
    forall listing, turns, names, summary ::
      PassDone(pass, listing, turns, names, summary) ==> Sum(summary) == |Listed(pass, listing)|
  }

  /** The counts add up to the distinct IDs for every listing order and every outcome of the system calls, if and
      only if no ID clashes. */
  lemma {:induction false} CountsAddUpUnlessClash(pass: Pass)
    ensures AlwaysAddsUp(pass) <==> NoClash(pass)
  {
    if NoClash(pass) {
      forall listing, turns, names, summary | PassDone(pass, listing, turns, names, summary)
        ensures Sum(summary) == |Listed(pass, listing)|
      {
        NothingVanishes(pass, listing, turns, names, summary);
        CountsAndVanished(pass, listing, turns, names, summary);
      }
    } else {
      var id :| Clashes(pass, id);
      var listing, turns, names, summary := ShortPass(pass, id);
      CountsAndVanished(pass, listing, turns, names, summary);
    }
  }

  lemma {:induction false} NothingVanishes(
      pass: Pass, listing: seq<string>, turns: seq<Turn>, names: Names, summary: Summary)
    requires PassDone(pass, listing, turns, names, summary) && NoClash(pass)
    ensures Count(turns, Vanished) == 0
  {
    var ids := MarkerIds(listing, pass.prefix);
    ListingIsOrder(pass, listing);
    assert ids[..|ids|] == ids;
    forall j | 0 <= j < |turns|
      ensures turns[j] != Vanished
    {
      RunTurns(pass, ids, |ids|, turns, names, j);
    }
    NoneCounted(turns, Vanished);
  }

  /** A pass that lists a clashing entry's marker first, and succeeds in retiring it, loses count of the other. */
  lemma {:induction false} ShortPass(pass: Pass, id: string)
      returns (listing: seq<string>, turns: seq<Turn>, names: Names, summary: Summary)
    requires Clashes(pass, id)
    ensures PassDone(pass, listing, turns, names, summary) && Vanished in turns
    ensures Count(turns, Vanished) > 0
  {
    var first, second := MarkerName(pass.prefix, id + SUFFIX), MarkerName(pass.prefix, id);
    assert second == EntryName(pass.prefix, id + SUFFIX);
    NamesDiffer(pass.prefix, id + SUFFIX);
    var others := Enumerate(pass.names.Keys - {first, second});
    listing := [first, second] + others;
    FirstTwo(pass, id, others);
    var rest := MarkerIds(others, pass.prefix);
    var gone := TwoTurns(pass, id);
    turns, names := GoOn(pass, [id + SUFFIX, id], [Removed, Vanished], gone, rest);
    summary := Tally(turns).(unattributable := Tally(turns).unattributable + |Unmarked(pass)|);
    assert turns[1] == Vanished;
    NoneCounted(turns, Vanished);
  }

  lemma {:induction false} FirstTwo(pass: Pass, id: string, others: seq<string>)
    ensures MarkerIds([MarkerName(pass.prefix, id + SUFFIX), MarkerName(pass.prefix, id)] + others, pass.prefix)
         == [id + SUFFIX, id] + MarkerIds(others, pass.prefix)
  {
    var two := [MarkerName(pass.prefix, id + SUFFIX), MarkerName(pass.prefix, id)];
    MarkerIdIs(pass.prefix, two[0], id + SUFFIX);
    MarkerIdIs(pass.prefix, two[1], id);
    assert two[..1] == [two[0]] && [two[0]][..0] == [];
    assert MarkerIds([two[0]], pass.prefix) == [id + SUFFIX];
    assert MarkerIds(two, pass.prefix) == [id + SUFFIX, id];
    MarkerIdsJoin(two, others, pass.prefix);
  }

  lemma {:induction false} TwoTurns(pass: Pass, id: string) returns (gone: Names)
    requires Clashes(pass, id)
    ensures PassRun(pass, [id + SUFFIX, id], [Removed, Vanished], gone)
  {
    var a := id + SUFFIX;
    var entry, marker := EntryName(pass.prefix, a), MarkerName(pass.prefix, a);
    gone := Retired(pass.names, entry, marker);
    assert entry == MarkerName(pass.prefix, id);
    assert PassRun(pass, [], [], pass.names);
    RunGrows(pass, [], [], pass.names, a, Removed, gone);
    assert [] + [a] == [a] && [] + [Removed] == [Removed];
    RunGrows(pass, [a], [Removed], gone, id, Vanished, gone);
    assert [a] + [id] == [a, id] && [Removed] + [Vanished] == [Removed, Vanished];
  }

  /** Some turn is always possible: a retire that fails at once, if nothing else. */
  lemma {:induction false} AnyTurn(pass: Pass, names: Names, id: string) returns (turn: Turn)
    ensures Possible(pass, names, names, id, turn)
  {
    var marker := MarkerName(pass.prefix, id);
    var ours := !pass.malformed(id) && ReadMarker(names, marker, pass.readable) == By(pass.owner);
    turn := if ours then Failed else if !pass.malformed(id) && marker !in names then Vanished else Left;
  }

  /** A pass can always go on. */
  lemma {:induction false} GoOn(pass: Pass, ids: seq<string>, turns: seq<Turn>, names: Names, rest: seq<string>)
      returns (turns': seq<Turn>, names': Names)
    requires PassRun(pass, ids, turns, names)
    ensures PassRun(pass, ids + rest, turns', names') && turns <= turns'
    decreases |rest|
  {
    if rest == [] {
      turns', names' := turns, names;
      assert ids + rest == ids;
    } else {
      var id := rest[0];
      var turn := AnyTurn(pass, names, id);
      RunGrows(pass, ids, turns, names, id, turn, names);
      turns', names' := GoOn(pass, ids + [id], turns + [turn], names, rest[1..]);
      assert ids + [id] + rest[1..] == ids + rest;
    }
  }

  lemma {:induction false} Enumerate(names: set<string>) returns (listing: seq<string>)
    ensures Distinct(listing) && forall n :: n in listing <==> n in names
    decreases names
  {
    if names == {} {
      listing := [];
    } else {
      var n :| n in names;
      var rest := Enumerate(names - {n});
      listing := [n] + rest;
    }
  }

  // ---- a pass that counts one ID short -------------------------------------------------------

  /** The callers' own check: empty, or not one path component. */
  predicate MalformedId(id: string) {
    id == "" || '/' in id || exists i :: 0 <= i < |id| - 1 && id[i] == '.' && id[i + 1] == '.'
  }

  /** Two names: the marker of the entry "a.owner", and its empty directory, which is spelled like a marker of "a". */
  const TwoNames: Names := map["p-a.owner.owner" := File(Complete("me")), "p-a.owner" := Folder([])]

  const Short := Pass(TwoNames, "p-", "me", MalformedId, n => true)

  const TwoListed := ["p-a.owner.owner", "p-a.owner"]

  lemma {:induction false} ShortNames()
    ensures "a" + SUFFIX == "a.owner" && MarkerName("p-", "a.owner") == TwoListed[0]
    ensures EntryName("p-", "a.owner") == TwoListed[1] == MarkerName("p-", "a")
  {}

  lemma {:induction false} ShortClash()
    ensures Clashes(Short, "a")
  {
    ShortNames();
    assert !MalformedId("a") && !MalformedId("a.owner");
  }

  lemma {:induction false} ShortListing()
    ensures Lists(TwoListed, TwoNames) && MarkerIds(TwoListed, "p-") == ["a.owner", "a"]
  {
    ShortNames();
    FirstTwo(Short, "a", []);
    assert TwoListed == [MarkerName("p-", "a" + SUFFIX), MarkerName("p-", "a")] + [];
    assert MarkerIds([], "p-") == [] && ["a.owner", "a"] + [] == ["a.owner", "a"];
  }

  lemma {:induction false} ShortUnmarked()
    ensures Unmarked(Short) == {}
  {
    assert TwoListed[1][2..] == "a.owner";
    assert EndsLikeMarker("a.owner");
    assert forall n :: n in TwoNames && IsFolder(TwoNames, n) ==> n == TwoListed[1];
  }

  /** The callers' check lets this through: two IDs are listed, and the counts add up to one. */
  lemma {:induction false} ShortCount() returns (names: Names)
    ensures PassDone(Short, TwoListed, [Removed, Vanished], names, Summary(1, 0, 0))
    ensures |Listed(Short, TwoListed)| == 2
  {
    ShortClash();
    ShortNames();
    ShortListing();
    ShortUnmarked();
    names := TwoTurns(Short, "a");
    TallyShort();
    CountsAndVanished(Short, TwoListed, [Removed, Vanished], names, Summary(1, 0, 0));
  }

  lemma {:induction false} TallyShort()
    ensures Tally([Removed, Vanished]) == Summary(1, 0, 0) && Count([Removed, Vanished], Vanished) == 1
  {
    assert [Removed, Vanished][..1] == [Removed] && [Removed][..0] == [];
    assert forall t: Turn :: Count([Removed], t) == if t == Removed then 1 else 0;
  }

  // ---- after an interruption -----------------------------------------------------------------

  /** However earlier creates, retires and passes overlapped and were killed, a pass without errors leaves no
      well-formed, readable marker of this owner, and no directory this owner made, unless a retire unlinked that
      directory's marker. So it finishes what an interrupted one began. */
  lemma {:induction false} NextPassFinishes(
      start: Names, acts: seq<Action>, pass: Pass, listing: seq<string>, turns: seq<Turn>, names: Names,
      summary: Summary, id: string)
    requires pass.names == Runs(Begin(start), pass.prefix, acts).names
    requires PassDone(pass, listing, turns, names, summary) && summary.errors == 0
    requires !pass.malformed(id) && pass.readable(MarkerName(pass.prefix, id))
    ensures !Owned(names, pass.prefix, id, pass.owner)
    ensures var made := Runs(Begin(start), pass.prefix, acts).made;
            id in made && made[id].owner == pass.owner
            && !UnlinkedSince(start, pass.prefix, acts, id, made[id].at) ==>
              !IsFolder(names, EntryName(pass.prefix, id))
  {
    PassLeaves(pass, listing, turns, names, summary);
    MarkedUnlessUnlinked(start, pass.prefix, acts, id);
    if Owned(pass.names, pass.prefix, id, pass.owner) {
      assert Mine(pass, id);
      assert Gone(pass, names, id);
    }
  }
}
