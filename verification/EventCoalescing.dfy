/** Coalescing file events before they reach the index: one pending kind per path, and what a
    coalesced batch does to the index compared with its events one at a time. */
module EventCoalescing {
  import opened Options

  type Path = string
  type Key = string
  type Entry = string
  type IndexMap = map<Key, Entry>

  datatype Kind = Created | Modified | Removed | Renamed

  datatype FileEvent = FileEvent(paths: seq<Path>, kind: Kind)

  /** The surroundings of a batch, fixed while it is handled: the index key of a path, whether paths
      like it are indexed at all, whether its language is one that is, and what its file now yields
      (nothing if missing or unreadable). */
  datatype World = World(key: Path -> Key, indexed: Path -> bool, supported: Path -> bool, entry: Path -> Option<Entry>)

  /** One path touched in one way. */
  datatype Touch = Touch(path: Path, kind: Kind)

  /** A rename carries two paths: the first goes, the second comes. */
  function Touches(e: FileEvent): seq<Touch> {
    if e.kind == Renamed && |e.paths| >= 2 then [Touch(e.paths[0], Removed), Touch(e.paths[1], Created)]
    else seq(|e.paths|, k requires 0 <= k < |e.paths| => Touch(e.paths[k], e.kind))
  }

  function AllTouches(events: seq<FileEvent>): seq<Touch> {
    if events == [] then [] else AllTouches(events[..|events| - 1]) + Touches(events[|events| - 1])
  }

  // ----- Coalescing -----

  type Pending = map<Path, Kind>

  /** What one more touch makes of a path's pending kind. */
  function Merge(pending: Option<Kind>, kind: Kind): Option<Kind> {
    match pending
    case None => Some(kind)
    case Some(prev) =>
      if (prev == Created || prev == Modified) && kind == Removed then None
      else if prev == Removed && (kind == Created || kind == Modified) then Some(Created)
      else Some(kind)
  }

  function PendingOf(events: Pending, path: Path): Option<Kind> {
    if path in events then Some(events[path]) else None
  }

  /** The pending kind of one path after some touches, looking at that path alone. */
  function PathState(touches: seq<Touch>, path: Path): Option<Kind> {
    if touches == [] then None
    else
      var before, last := PathState(touches[..|touches| - 1], path), touches[|touches| - 1];
      if last.path == path then Merge(before, last.kind) else before
  }

  /** The last touch of a path. */
  function LastTouch(touches: seq<Touch>, path: Path): Option<Kind> {
    if touches == [] then None
    else if touches[|touches| - 1].path == path then Some(touches[|touches| - 1].kind)
    else LastTouch(touches[..|touches| - 1], path)
  }

  /** A pending kind stands for the path's last touch: it is a removal exactly if that was one. When
      nothing is pending although the path was touched, the last touch was a removal that cancelled. */
  lemma {:induction false} PathStateIsLast(touches: seq<Touch>, path: Path)
    ensures var state, last := PathState(touches, path), LastTouch(touches, path);
      && (last.None? ==> state.None?)
      && (last.Some? && state.Some? ==> (state.value == Removed <==> last.value == Removed))
      && (last.Some? && state.None? ==> last.value == Removed)
  {
    if touches != [] {
      PathStateIsLast(touches[..|touches| - 1], path);
    }
  }

  /** The touch of a path before its last one. */
  function Previous(touches: seq<Touch>, path: Path): Option<Kind> {
    if touches == [] then None
    else
      var before := touches[..|touches| - 1];
      if touches[|touches| - 1].path == path then LastTouch(before, path) else Previous(before, path)
  }

  /** The path's last two touches are a creation or modification, then a removal. */
  predicate CancelsOut(touches: seq<Touch>, path: Path) {
    LastTouch(touches, path) == Some(Removed) && Previous(touches, path) in {Some(Created), Some(Modified)}
  }

  /** Nothing is pending for a path if and only if it was not touched or its last two touches cancel. */
  lemma {:induction false} NothingPendingIff(touches: seq<Touch>, path: Path)
    ensures PathState(touches, path).None? <==> LastTouch(touches, path).None? || CancelsOut(touches, path)
    ensures PathState(touches, path) in {Some(Created), Some(Modified)} <==>
      LastTouch(touches, path) in {Some(Created), Some(Modified)}
  {
    if touches != [] {
      NothingPendingIff(touches[..|touches| - 1], path);
    }
  }

  ghost predicate Coalesced(events: Pending, touches: seq<Touch>) {
    forall path :: PendingOf(events, path) == PathState(touches, path)
  }

  lemma {:induction false} TouchesPush(touches: seq<Touch>, t: Touch, path: Path)
    ensures PathState(touches + [t], path) ==
      if t.path == path then Merge(PathState(touches, path), t.kind) else PathState(touches, path)
  {
    assert (touches + [t])[..|touches|] == touches;
  }

  class CoalescedEvents {
    var events: Pending

    constructor ()
      ensures Coalesced(events, [])
    {
      events := map[];
    }

    method Insert(path: Path, kind: Kind, ghost touches: seq<Touch>)
      requires Coalesced(events, touches)
      modifies this
      ensures Coalesced(events, touches + [Touch(path, kind)])
    {
      forall p ensures PathState(touches + [Touch(path, kind)], p) ==
        if p == path then Merge(PathState(touches, path), kind) else PathState(touches, p)
      {
        TouchesPush(touches, Touch(path, kind), p);
      }
      hide PathState;
      assert PendingOf(events, path) == PathState(touches, path);
      if path !in events {
        events := events[path := kind];
      } else {
        var prev := events[path];
        if (prev == Created || prev == Modified) && kind == Removed {
          events := events - {path};
        } else if prev == Removed && (kind == Created || kind == Modified) {
          events := events[path := Created];
        } else {
          events := events[path := kind];
        }
      }
    }

    method Add(event: FileEvent, ghost touches: seq<Touch>)
      requires Coalesced(events, touches)
      modifies this
      ensures Coalesced(events, touches + Touches(event))
    {
      if event.kind == Renamed && |event.paths| >= 2 {
        Insert(event.paths[0], Removed, touches);
        Insert(event.paths[1], Created, touches + [Touch(event.paths[0], Removed)]);
        assert touches + [Touch(event.paths[0], Removed)] + [Touch(event.paths[1], Created)] ==
          touches + Touches(event);
      } else {
        assert touches + Touches(event)[..0] == touches;
        for k := 0 to |event.paths|
          invariant Coalesced(events, touches + Touches(event)[..k])
        {
          Insert(event.paths[k], event.kind, touches + Touches(event)[..k]);
          assert touches + Touches(event)[..k] + [Touch(event.paths[k], event.kind)] ==
            touches + Touches(event)[..k + 1];
        }
        assert Touches(event)[..|event.paths|] == Touches(event);
      }
    }
  }

  // ----- Applying to the index -----

  /** What handling one path leaves under its key. */
  function Outcome(w: World, t: Touch): Option<Entry> {
    if t.kind == Removed then None else w.entry(t.path)
  }

  function Store(index: IndexMap, key: Key, entry: Option<Entry>): IndexMap {
    match entry
    case Some(e) => index[key := e]
    case None => index - {key}
  }

  function ApplyTouch(w: World, index: IndexMap, t: Touch): IndexMap {
    if w.indexed(t.path) then Store(index, w.key(t.path), Outcome(w, t)) else index
  }

  /** Touches handled one at a time, in order. */
  function ApplyAll(w: World, index: IndexMap, touches: seq<Touch>): IndexMap {
    if touches == [] then index
    else ApplyTouch(w, ApplyAll(w, index, touches[..|touches| - 1]), touches[|touches| - 1])
  }

  function EntryOf(index: IndexMap, key: Key): Option<Entry> {
    if key in index then Some(index[key]) else None
  }

  /** Some order in which the pending paths can be visited. */
  ghost predicate IsOrderOf(order: seq<Touch>, events: Pending) {
    && (forall k :: 0 <= k < |order| ==> order[k].path in events && events[order[k].path] == order[k].kind)
    && (forall j, k :: 0 <= j < k < |order| ==> order[j].path != order[k].path)
    && (forall path :: path in events ==> exists k :: 0 <= k < |order| && order[k].path == path)
  }

  /** An order of the paths visited so far. */
  ghost predicate Visited(order: seq<Touch>, events: Pending, todo: set<Path>) {
    IsOrderOf(order, map path | path in events.Keys - todo :: events[path])
  }

  lemma VisitOne(order: seq<Touch>, events: Pending, todo: set<Path>, path: Path)
    requires Visited(order, events, todo) && path in todo && todo <= events.Keys
    ensures Visited(order + [Touch(path, events[path])], events, todo - {path})
  {
    var before := map p | p in events.Keys - todo :: events[p];
    var after := map p | p in events.Keys - (todo - {path}) :: events[p];
    var longer := order + [Touch(path, events[path])];
    forall k | 0 <= k < |order| ensures order[k].path in before && longer[k] == order[k] {}
    forall p | p in after ensures exists k :: 0 <= k < |longer| && longer[k].path == p {
      if p == path {
        assert longer[|order|].path == p;
      } else {
        assert p in before;
        var k :| 0 <= k < |order| && order[k].path == p;
        assert longer[k].path == p;
      }
    }
  }

  predicate SameKey(w: World, p: Path, q: Path) {
    w.indexed(p) && w.indexed(q) && w.key(p) == w.key(q)
  }

  /** No two indexed paths of a batch share an index key. */
  ghost predicate KeysApart(w: World, touches: seq<Touch>) {
    forall j, k :: 0 <= j < |touches| && 0 <= k < |touches| && SameKey(w, touches[j].path, touches[k].path) ==>
      touches[j].path == touches[k].path
  }

  /** A path's key holds what the path's last touch left, or what it held before. */
  lemma {:induction false} ApplyAllAt(w: World, index: IndexMap, touches: seq<Touch>, path: Path)
    requires w.indexed(path)
    requires forall k :: 0 <= k < |touches| && w.indexed(touches[k].path) && w.key(touches[k].path) == w.key(path) ==>
      touches[k].path == path
    ensures EntryOf(ApplyAll(w, index, touches), w.key(path)) ==
      match LastTouch(touches, path)
      case Some(kind) => Outcome(w, Touch(path, kind))
      case None => EntryOf(index, w.key(path))
  {
    if touches != [] {
      ApplyAllAt(w, index, touches[..|touches| - 1], path);
    }
  }

  /** A key no indexed path of the batch has stays as it was. */
  lemma {:induction false} ApplyAllElsewhere(w: World, index: IndexMap, touches: seq<Touch>, key: Key)
    requires forall k :: 0 <= k < |touches| && w.indexed(touches[k].path) ==> w.key(touches[k].path) != key
    ensures EntryOf(ApplyAll(w, index, touches), key) == EntryOf(index, key)
  {
    if touches != [] {
      ApplyAllElsewhere(w, index, touches[..|touches| - 1], key);
    }
  }

  ghost predicate IsTouched(touches: seq<Touch>, path: Path) {
    exists k :: 0 <= k < |touches| && touches[k].path == path
  }

  lemma {:induction false} LastTouchIn(touches: seq<Touch>, path: Path)
    ensures LastTouch(touches, path).Some? <==> IsTouched(touches, path)
    ensures LastTouch(touches, path).Some? ==> Touch(path, LastTouch(touches, path).value) in touches
  {
    if touches != [] {
      var n := |touches| - 1;
      LastTouchIn(touches[..n], path);
      assert touches == touches[..n] + [touches[n]];
      if k :| 0 <= k < |touches| && touches[k].path == path && k < n {
        assert touches[..n][k].path == path;
      }
    }
  }

  lemma {:induction false} OrderTouches(order: seq<Touch>, events: Pending, path: Path)
    requires IsOrderOf(order, events)
    ensures LastTouch(order, path) == PendingOf(events, path)
  {
    LastTouchIn(order, path);
    if LastTouch(order, path).Some? {
      var k :| 0 <= k < |order| && order[k] == Touch(path, LastTouch(order, path).value);
    }
  }

  /** A previously indexed path whose last two events are a creation or modification and the removal
      that coalescing cancels it with. */
  ghost predicate CancelledRemoval(w: World, index: IndexMap, touches: seq<Touch>, path: Path) {
    w.indexed(path) && w.key(path) in index && CancelsOut(touches, path)
  }

  /** Whatever the order the coalesced paths are visited in, the index ends up as if the events had
      been handled one by one, under every key, with one exception: a previously indexed path whose
      last event was a cancelled removal keeps its stale entry. */
  lemma {:induction false} CoalescedMatchesSequential(w: World, index: IndexMap, touches: seq<Touch>, events: Pending,
      order: seq<Touch>, path: Path)
    requires Coalesced(events, touches) && IsOrderOf(order, events) && KeysApart(w, touches)
    requires w.indexed(path) && LastTouch(touches, path).Some?
    ensures EntryOf(ApplyAll(w, index, order), w.key(path)) == EntryOf(ApplyAll(w, index, touches), w.key(path))
      <==> !CancelledRemoval(w, index, touches, path)
  {
    LastTouchIn(touches, path);
    var m :| 0 <= m < |touches| && touches[m].path == path;
    OrderPathsTouched(touches, events, order);
    forall k | 0 <= k < |order| && w.indexed(order[k].path) && w.key(order[k].path) == w.key(path)
      ensures order[k].path == path
    {
      var j :| 0 <= j < |touches| && touches[j].path == order[k].path;
    }
    OrderTouches(order, events, path);
    PathStateIsLast(touches, path);
    NothingPendingIff(touches, path);
    hide PathState, LastTouch, Previous, IsOrderOf;
    ApplyAllAt(w, index, touches, path);
    ApplyAllAt(w, index, order, path);
  }

  lemma {:induction false} OrderPathsTouched(touches: seq<Touch>, events: Pending, order: seq<Touch>)
    requires Coalesced(events, touches) && IsOrderOf(order, events)
    ensures forall k :: 0 <= k < |order| ==> IsTouched(touches, order[k].path)
  {
    forall k | 0 <= k < |order| ensures IsTouched(touches, order[k].path) {
      PendingTouched(touches, events, order[k].path);
    }
  }

  lemma PendingTouched(touches: seq<Touch>, events: Pending, path: Path)
    requires Coalesced(events, touches) && path in events
    ensures IsTouched(touches, path)
  {
    assert PendingOf(events, path) == PathState(touches, path);
    PathStateIsLast(touches, path);
    LastTouchIn(touches, path);
  }

  /** The whole index comes out the same, for every visiting order, exactly when no path was removed
      by a cancelled event while it was indexed; in particular whenever no touched path was. */
  lemma {:induction false} CoalescedIndexIff(w: World, index: IndexMap, touches: seq<Touch>, events: Pending,
      order: seq<Touch>)
    requires Coalesced(events, touches) && IsOrderOf(order, events) && KeysApart(w, touches)
    ensures ApplyAll(w, index, order) == ApplyAll(w, index, touches) <==>
      forall path :: !CancelledRemoval(w, index, touches, path)
  {
    hide ApplyAll, CancelledRemoval, Coalesced, IsOrderOf, KeysApart;
    if ApplyAll(w, index, order) == ApplyAll(w, index, touches) {
      forall path ensures !CancelledRemoval(w, index, touches, path) {
        SameIndexNotCancelled(w, index, touches, events, order, path);
      }
    }
    if forall path :: !CancelledRemoval(w, index, touches, path) {
      forall key ensures EntryOf(ApplyAll(w, index, order), key) == EntryOf(ApplyAll(w, index, touches), key) {
        SameUnderKey(w, index, touches, events, order, key);
      }
      SameEntriesSameIndex(ApplyAll(w, index, order), ApplyAll(w, index, touches));
    }
  }

  lemma {:induction false} SameIndexNotCancelled(w: World, index: IndexMap, touches: seq<Touch>, events: Pending,
      order: seq<Touch>, path: Path)
    requires Coalesced(events, touches) && IsOrderOf(order, events) && KeysApart(w, touches)
    requires ApplyAll(w, index, order) == ApplyAll(w, index, touches)
    ensures !CancelledRemoval(w, index, touches, path)
  {
    if w.indexed(path) && LastTouch(touches, path).Some? {
      CoalescedMatchesSequential(w, index, touches, events, order, path);
    }
  }

  lemma {:induction false} SameUnderKey(w: World, index: IndexMap, touches: seq<Touch>, events: Pending,
      order: seq<Touch>, key: Key)
    requires Coalesced(events, touches) && IsOrderOf(order, events) && KeysApart(w, touches)
    requires forall path :: !CancelledRemoval(w, index, touches, path)
    ensures EntryOf(ApplyAll(w, index, order), key) == EntryOf(ApplyAll(w, index, touches), key)
  {
    if k :| 0 <= k < |touches| && w.indexed(touches[k].path) && w.key(touches[k].path) == key {
      LastTouchIn(touches, touches[k].path);
      CoalescedMatchesSequential(w, index, touches, events, order, touches[k].path);
    } else {
      OrderPathsTouched(touches, events, order);
      forall k | 0 <= k < |order| && w.indexed(order[k].path) ensures w.key(order[k].path) != key {
        var j :| 0 <= j < |touches| && touches[j].path == order[k].path;
      }
      hide IsOrderOf, Coalesced, CancelledRemoval;
      ApplyAllElsewhere(w, index, touches, key);
      ApplyAllElsewhere(w, index, order, key);
    }
  }

  lemma SameEntriesSameIndex(a: IndexMap, b: IndexMap)
    requires forall key :: EntryOf(a, key) == EntryOf(b, key)
    ensures a == b
  {
    assert forall key :: key in a <==> EntryOf(a, key).Some?;
    assert forall key :: key in b <==> EntryOf(b, key).Some?;
    assert forall key :: key in a ==> EntryOf(a, key) == Some(a[key]);
    assert forall key :: key in b ==> EntryOf(b, key) == Some(b[key]);
  }

  /** A file that was indexed is modified and removed in one batch: one by one it leaves the index,
      coalesced it stays. */
  lemma CancelledRemovalWitness(w: World, index: IndexMap, path: Path, events: Pending, order: seq<Touch>)
    requires w.indexed(path) && w.key(path) in index
    requires Coalesced(events, [Touch(path, Modified), Touch(path, Removed)]) && IsOrderOf(order, events)
    ensures w.key(path) in ApplyAll(w, index, order)
    ensures w.key(path) !in ApplyAll(w, index, [Touch(path, Modified), Touch(path, Removed)])
  {
    var touches := [Touch(path, Modified), Touch(path, Removed)];
    assert touches[..1] == [Touch(path, Modified)] && touches[..1][..0] == [];
    forall p ensures PathState(touches, p) == None {
      assert PathState(touches[..1], p) == if p == path then Some(Modified) else None;
    }
    assert forall p :: PendingOf(events, p) == None;
    FirstIsPending(order, events);
  }

  lemma FirstIsPending(order: seq<Touch>, events: Pending)
    requires IsOrderOf(order, events)
    ensures order == [] || PendingOf(events, order[0].path).Some?
  {
  }

  /** What a batch shows afterwards, in whatever order it is applied: a path last created or modified is
      indexed with what its file yields, and one last removed is gone, unless its removal cancelled. */
  lemma {:induction false} BatchShows(w: World, index: IndexMap, touches: seq<Touch>, events: Pending,
      order: seq<Touch>, path: Path)
    requires Coalesced(events, touches) && IsOrderOf(order, events) && KeysApart(w, touches) && w.indexed(path)
    ensures var after := EntryOf(ApplyAll(w, index, order), w.key(path));
      match LastTouch(touches, path)
      case Some(kind) =>
        && (kind != Removed ==> after == w.entry(path))
        && (kind == Removed ==> after == if CancelsOut(touches, path) then EntryOf(index, w.key(path)) else None)
      case None => true
  {
    if LastTouch(touches, path).Some? {
      LastTouchIn(touches, path);
      var m :| 0 <= m < |touches| && touches[m].path == path;
      OrderPathsTouched(touches, events, order);
      forall k | 0 <= k < |order| && w.indexed(order[k].path) && w.key(order[k].path) == w.key(path)
        ensures order[k].path == path
      {
        var j :| 0 <= j < |touches| && touches[j].path == order[k].path;
      }
      OrderTouches(order, events, path);
      PathStateIsLast(touches, path);
      NothingPendingIff(touches, path);
      hide PathState, LastTouch, Previous, IsOrderOf;
      ApplyAllAt(w, index, order, path);
    }
  }

  /** A rename takes the entry from the old path's key and puts what the file yields under the new one's. */
  lemma {:induction false} RenameMoves(w: World, index: IndexMap, from: Path, to: Path, events: Pending,
      order: seq<Touch>)
    requires Coalesced(events, Touches(FileEvent([from, to], Renamed))) && IsOrderOf(order, events)
    requires w.indexed(from) && w.indexed(to) && w.key(from) != w.key(to)
    ensures EntryOf(ApplyAll(w, index, order), w.key(from)) == None
    ensures EntryOf(ApplyAll(w, index, order), w.key(to)) == w.entry(to)
  {
    var touches := Touches(FileEvent([from, to], Renamed));
    assert touches[..1][..0] == [] && touches[..1] == [touches[0]];
    assert LastTouch(touches, to) == Some(Created);
    assert LastTouch(touches[..1], from) == Some(Removed);
    assert LastTouch(touches, from) == Some(Removed) && Previous(touches, from) == None;
    BatchShows(w, index, touches, events, order, from);
    BatchShows(w, index, touches, events, order, to);
  }

  // ----- The index manager's command loop -----

  datatype Command =
    | Event(event: FileEvent)
    | EventBatch(events: seq<FileEvent>)
    | Rebuild(rebuilt: IndexMap)
    | BackgroundRefresh(stale: seq<Path>, deleted: seq<Key>)
    | Query
    | Shutdown

  predicate IsFileCommand(c: Command) { c.Event? || c.EventBatch? }

  function EventsOf(c: Command): seq<FileEvent> {
    match c
    case Event(e) => [e]
    case EventBatch(es) => es
    case _ => []
  }

  /** The file commands waiting at the front of the queue. */
  function Drained(queue: seq<Command>): (n: nat)
    ensures n <= |queue| && (n < |queue| ==> !queue[n].Event? && !queue[n].EventBatch?)
    ensures forall k :: 0 <= k < n ==> queue[k].Event? || queue[k].EventBatch?
  {
    if queue == [] || !IsFileCommand(queue[0]) then 0 else 1 + Drained(queue[1..])
  }

  function EventsIn(queue: seq<Command>): seq<FileEvent> {
    if queue == [] then [] else EventsIn(queue[..|queue| - 1]) + EventsOf(queue[|queue| - 1])
  }

  predicate Carries(c: Command, e: FileEvent) {
    c == Event(e) || (c.EventBatch? && e in c.events)
  }

  /** The events taken from a stretch of the queue are those its commands carry, alone or in batches. */
  lemma {:induction false} EventsInAre(queue: seq<Command>, e: FileEvent)
    ensures e in EventsIn(queue) <==> exists k :: 0 <= k < |queue| && Carries(queue[k], e)
  {
    if queue != [] {
      var n := |queue| - 1;
      EventsInAre(queue[..n], e);
      assert queue == queue[..n] + [queue[n]];
      assert e in EventsOf(queue[n]) <==> Carries(queue[n], e);
    }
  }

  /** What a refresh leaves under a key: what the last stale file with that key and a known language now
      yields, or what was there. */
  function RefreshedEntry(w: World, index: IndexMap, stale: seq<Path>, key: Key): Option<Entry> {
    if stale == [] then EntryOf(index, key)
    else
      var last := stale[|stale| - 1];
      if w.supported(last) && w.key(last) == key then w.entry(last)
      else RefreshedEntry(w, index, stale[..|stale| - 1], key)
  }

  ghost predicate Refreshed(w: World, index: IndexMap, stale: seq<Path>, deleted: seq<Key>, index': IndexMap) {
    forall key :: EntryOf(index', key) == RefreshedEntry(w, index - (set d | d in deleted), stale, key)
  }

  /** `k` is the last stale file a refresh reindexes under the key. */
  predicate LastStale(w: World, stale: seq<Path>, key: Key, k: nat) {
    && k < |stale| && w.supported(stale[k]) && w.key(stale[k]) == key
    && forall j :: k < j < |stale| ==> !(w.supported(stale[j]) && w.key(stale[j]) == key)
  }

  /** After a refresh a key holds what its last stale file yields; without one, nothing if it was found
      deleted, and else what it held. */
  lemma {:induction false} RefreshShows(w: World, index: IndexMap, stale: seq<Path>, deleted: seq<Key>,
      index': IndexMap, key: Key)
    requires Refreshed(w, index, stale, deleted, index')
    ensures forall k: nat :: LastStale(w, stale, key, k) ==> EntryOf(index', key) == w.entry(stale[k])
    ensures (forall k: nat :: !LastStale(w, stale, key, k)) ==>
      EntryOf(index', key) == if key in deleted then None else EntryOf(index, key)
  {
    var kept := index - (set d | d in deleted);
    assert EntryOf(kept, key) == if key in deleted then None else EntryOf(index, key);
    RefreshedBy(w, kept, stale, key);
  }

  lemma {:induction false} RefreshedBy(w: World, index: IndexMap, stale: seq<Path>, key: Key)
    ensures forall k: nat :: LastStale(w, stale, key, k) ==> RefreshedEntry(w, index, stale, key) == w.entry(stale[k])
    ensures (forall k: nat :: !LastStale(w, stale, key, k)) ==>
      RefreshedEntry(w, index, stale, key) == EntryOf(index, key)
  {
    if stale != [] {
      var n := |stale| - 1;
      RefreshedBy(w, index, stale[..n], key);
      if w.supported(stale[n]) && w.key(stale[n]) == key {
        assert LastStale(w, stale, key, n);
      } else {
        forall k: nat ensures LastStale(w, stale, key, k) <==> LastStale(w, stale[..n], key, k) {
          LastStaleBefore(w, stale, key, k);
        }
      }
    }
  }

  lemma LastStaleBefore(w: World, stale: seq<Path>, key: Key, k: nat)
    requires stale != [] && !(w.supported(stale[|stale| - 1]) && w.key(stale[|stale| - 1]) == key)
    ensures LastStale(w, stale, key, k) <==> LastStale(w, stale[..|stale| - 1], key, k)
    ensures LastStale(w, stale, key, k) ==> stale[..|stale| - 1][k] == stale[k]
  {
    var front := stale[..|stale| - 1];
    assert forall j :: 0 <= j < |front| ==> front[j] == stale[j];
  }

  /** What handling a command that is no file event does to the index. */
  ghost predicate Handled(w: World, index: IndexMap, command: Command, index': IndexMap) {
    match command
    case Rebuild(rebuilt) => index' == rebuilt
    case BackgroundRefresh(stale, deleted) => Refreshed(w, index, stale, deleted, index')
    case _ => index' == index
  }

  class IndexManager {
    const world: World
    var index: IndexMap
    var queue: seq<Command>

    constructor (world: World, index: IndexMap, queue: seq<Command>)
      ensures this.world == world && this.index == index && this.queue == queue
    {
      this.world, this.index, this.queue := world, index, queue;
    }

    /** Visits the coalesced paths in whatever order the hash map yields them. */
    method ApplyCoalesced(events: Pending) returns (ghost order: seq<Touch>)
      modifies this`index
      ensures IsOrderOf(order, events)
      ensures index == ApplyAll(world, old(index), order)
    {
      hide ApplyTouch;
      order := [];
      var todo := events.Keys;
      while todo != {}
        invariant todo <= events.Keys && Visited(order, events, todo)
        invariant index == ApplyAll(world, old(index), order)
        decreases todo
      {
        var path :| path in todo;
        var t := Touch(path, events[path]);
        VisitOne(order, events, todo, path);
        assert (order + [t])[..|order|] == order;
        index := ApplyTouch(world, index, t);
        order := order + [t];
        todo := todo - {path};
      }
      assert (map path | path in events.Keys - todo :: events[path]) == events;
    }

    /** Takes out the files found deleted, then reindexes the stale ones. */
    method Refresh(stale: seq<Path>, deleted: seq<Key>)
      modifies this`index
      ensures Refreshed(world, old(index), stale, deleted, index)
    {
      for k := 0 to |deleted|
        invariant index == old(index) - (set key | key in deleted[..k])
      {
        index := index - {deleted[k]};
        assert deleted[..k + 1] == deleted[..k] + [deleted[k]];
      }
      assert deleted[..|deleted|] == deleted;
      ghost var kept := index;
      for k := 0 to |stale|
        invariant forall key :: EntryOf(index, key) == RefreshedEntry(world, kept, stale[..k], key)
      {
        if world.supported(stale[k]) {
          index := Store(index, world.key(stale[k]), world.entry(stale[k]));
        }
        assert stale[..k + 1][..k] == stale[..k];
      }
      assert stale[..|stale|] == stale;
    }

    /** Handles a command that is no file event. */
    method ProcessOther(command: Command) returns (running: bool)
      requires !IsFileCommand(command)
      modifies this`index
      ensures running <==> command != Shutdown
      ensures Handled(world, old(index), command, index)
    {
      match command {
        case Rebuild(rebuilt) => index := rebuilt;
        case BackgroundRefresh(stale, deleted) => Refresh(stale, deleted);
        case _ =>
      }
      return command != Shutdown;
    }

    method AddAll(coalesced: CoalescedEvents, events: seq<FileEvent>, ghost touches: seq<Touch>)
      requires Coalesced(coalesced.events, touches)
      modifies coalesced
      ensures Coalesced(coalesced.events, touches + AllTouches(events))
    {
      assert touches + AllTouches(events[..0]) == touches;
      hide Coalesced, AllTouches, Touches;
      for k := 0 to |events|
        invariant Coalesced(coalesced.events, touches + AllTouches(events[..k]))
      {
        coalesced.Add(events[k], touches + AllTouches(events[..k]));
        OneMoreEvent(events, k);
        AppendTwo(touches, AllTouches(events[..k]), Touches(events[k]));
      }
      assert events[..|events|] == events;
    }

    /** A batch command is coalesced and applied without draining the queue. */
    method ProcessFileEventBatch(events: seq<FileEvent>) returns (ghost pending: Pending, ghost order: seq<Touch>)
      modifies this`index
      ensures Coalesced(pending, AllTouches(events)) && IsOrderOf(order, pending)
      ensures index == ApplyAll(world, old(index), order)
    {
      hide Coalesced, IsOrderOf, ApplyAll;
      var coalesced := new CoalescedEvents();
      AddAll(coalesced, events, []);
      assert [] + AllTouches(events) == AllTouches(events);
      pending := coalesced.events;
      order := ApplyCoalesced(coalesced.events);
    }

    /** Handles a file event together with all file commands waiting behind it, as one batch; then the
        command that ended the draining, if any. Returns the batch's touches, what was pending after
        coalescing them, and the order they were visited in. */
    method ProcessFileEvent(event: FileEvent) returns (running: bool, ghost touches: seq<Touch>,
        ghost pending: Pending, ghost order: seq<Touch>)
      modifies this
      ensures var n := Drained(old(queue));
        && touches == Touches(event) + AllTouches(EventsIn(old(queue)[..n]))
        && Coalesced(pending, touches) && IsOrderOf(order, pending)
        && queue == (if n < |old(queue)| then old(queue)[n + 1..] else [])
        && running == (n < |old(queue)| ==> old(queue)[n] != Shutdown)
        && (if n < |old(queue)| then Handled(world, ApplyAll(world, old(index), order), old(queue)[n], index)
            else index == ApplyAll(world, old(index), order))
    {
      hide Coalesced, IsOrderOf, ApplyAll, Handled;
      var coalesced := new CoalescedEvents();
      coalesced.Add(event, []);
      touches := Touches(event);
      assert [] + Touches(event) == touches && touches + AllTouches([]) == touches;
      ghost var waiting := queue;
      var drained := 0;
      assert waiting[..0] == [] && waiting[0..] == waiting;
      while queue != [] && IsFileCommand(queue[0])
        invariant drained <= |waiting| && queue == waiting[drained..]
        invariant forall k :: 0 <= k < drained ==> IsFileCommand(waiting[k])
        invariant Coalesced(coalesced.events, touches)
        invariant touches == Touches(event) + AllTouches(EventsIn(waiting[..drained]))
        invariant fresh(coalesced) && index == old(index)
        decreases |queue|
      {
        var command := queue[0];
        AddAll(coalesced, EventsOf(command), touches);
        DrainStep(waiting, drained, Touches(event));
        touches := touches + AllTouches(EventsOf(command));
        queue := queue[1..];
        drained := drained + 1;
      }
      DrainedIs(waiting, drained);
      pending := coalesced.events;
      order := ApplyCoalesced(coalesced.events);
      running := true;
      if queue != [] {
        var command := queue[0];
        queue := queue[1..];
        running := ProcessOther(command);
      }
    }
  }

  lemma {:induction false} DrainStep(queue: seq<Command>, n: nat, first: seq<Touch>)
    requires n < |queue|
    ensures first + AllTouches(EventsIn(queue[..n])) + AllTouches(EventsOf(queue[n])) ==
      first + AllTouches(EventsIn(queue[..n + 1]))
  {
    hide AllTouches, EventsOf;
    var a, b := EventsIn(queue[..n]), EventsOf(queue[n]);
    assert queue[..n + 1][..n] == queue[..n];
    assert EventsIn(queue[..n + 1]) == a + b;
    AllTouchesConcat(a, b);
    AppendTwo(first, AllTouches(a), AllTouches(b));
  }

  lemma OneMoreEvent(events: seq<FileEvent>, k: nat)
    requires k < |events|
    ensures AllTouches(events[..k + 1]) == AllTouches(events[..k]) + Touches(events[k])
  {
    hide Touches;
    assert events[..k + 1][..k] == events[..k];
  }

  lemma AppendTwo<T>(a: seq<T>, b: seq<T>, c: seq<T>)
    ensures a + b + c == a + (b + c)
  {
  }

  lemma {:induction false} AllTouchesConcat(a: seq<FileEvent>, b: seq<FileEvent>)
    ensures AllTouches(a + b) == AllTouches(a) + AllTouches(b)
  {
    hide Touches;
    if b == [] {
      assert a + b == a;
      assert AllTouches(a) + [] == AllTouches(a);
    } else {
      var n := |b| - 1;
      assert (a + b)[..|a + b| - 1] == a + b[..n] && (a + b)[|a + b| - 1] == b[n];
      AllTouchesConcat(a, b[..n]);
      assert AllTouches(a) + AllTouches(b[..n]) + Touches(b[n]) == AllTouches(a) + (AllTouches(b[..n]) + Touches(b[n]));
    }
  }

  lemma {:induction false} DrainedIs(queue: seq<Command>, n: nat)
    requires n <= |queue| && (n < |queue| ==> !IsFileCommand(queue[n]))
    requires forall k :: 0 <= k < n ==> IsFileCommand(queue[k])
    ensures Drained(queue) == n
  {
    var m := Drained(queue);
  }
}
