/** Splicing a preserved segment of messages under its anchor: the state after it, what the parent
    chains become, and exactly when the splice closes a cycle. */
module PreservedSegment {
  import opened Options
  import opened Collections
  import opened ClaudeRecords
  import opened ClaudeChain

  // ----- Boundaries -----

  /** The last position of `order[..n]` that satisfies `p`, or -1. */
  function LastWhere(order: seq<Uuid>, p: Uuid -> bool): (k: int)
    ensures -1 <= k < |order|
    ensures k >= 0 ==> p(order[k])
    ensures forall i :: k < i < |order| ==> !p(order[i])
  {
    if order == [] then -1
    else if p(order[|order| - 1]) then |order| - 1
    else LastWhere(order[..|order| - 1], p)
  }

  predicate IsBoundary(records: Records, u: Uuid) {
    u in records && records[u].boundary.Boundary?
  }

  predicate HasSegment(records: Records, u: Uuid) {
    u in records && records[u].boundary.Boundary? && records[u].boundary.segment.Some?
  }

  function LastBoundary(order: seq<Uuid>, records: Records): int {
    LastWhere(order, u => IsBoundary(records, u))
  }

  function LastSegment(order: seq<Uuid>, records: Records): int {
    LastWhere(order, u => HasSegment(records, u))
  }

  predicate Given(name: Option<Uuid>) { name.Some? && name.value != "" }

  predicate Complete(segment: Segment) {
    Given(segment.head) && Given(segment.anchor) && Given(segment.tail)
  }

  // ----- The new links -----

  function Relink(records: Records, head: Uuid, anchor: Uuid, tail: Uuid, u: Uuid): Record
    requires u in records
  {
    if u == head then SetParent(records[u], Some(anchor))
    else if ParentOf(records[u]) == Some(anchor) then SetParent(records[u], Some(tail))
    else records[u]
  }

  function Spliced(records: Records, head: Uuid, anchor: Uuid, tail: Uuid): Records {
    map u | u in records :: Relink(records, head, anchor, tail, u)
  }

  /** The climb from the tail that ends in the head: the records the segment preserves. */
  ghost predicate IsSegment(records: Records, tail: Uuid, head: Uuid, path: seq<Uuid>) {
    IsClimb(records, tail, path) && path[|path| - 1] == head
  }

  lemma {:induction false} SegmentUnique(records: Records, tail: Uuid, head: Uuid, a: seq<Uuid>, b: seq<Uuid>)
    requires IsSegment(records, tail, head, a) && IsSegment(records, tail, head, b)
    ensures a == b
  {
    var n := if |a| <= |b| then |a| else |b|;
    forall k | 0 <= k < n ensures a[k] == b[k] {
      if |a| <= |b| {
        ClimbAgrees(records, tail, a, b, k);
      } else {
        ClimbAgrees(records, tail, b, a, k);
      }
    }
    assert a[n - 1] == b[n - 1] == head;
  }

  /** The records of a segment that has a path, tail to head. */
  ghost function SegmentPath(records: Records, tail: Uuid, head: Uuid): (path: seq<Uuid>)
    requires HasPath(records, tail, head)
    ensures IsSegment(records, tail, head, path)
    ensures forall p :: IsSegment(records, tail, head, p) ==> p == path
  {
    var path :| IsSegment(records, tail, head, path);
    assert forall p :: IsSegment(records, tail, head, p) ==> p == path by {
      forall p | IsSegment(records, tail, head, p) ensures p == path {
        SegmentUnique(records, tail, head, p, path);
      }
    }
    path
  }

  function Kept(order: seq<Uuid>, boundary: nat, preserved: set<Uuid>): (kept: seq<Uuid>)
    requires boundary <= |order|
  {
    Only(order[..boundary], preserved) + order[boundary..]
  }

  lemma KeptAre(order: seq<Uuid>, boundary: nat, preserved: set<Uuid>)
    requires boundary <= |order| && NoDuplicates(order)
    ensures NoDuplicates(Kept(order, boundary, preserved))
    ensures forall u :: u in Kept(order, boundary, preserved) <==>
      u in order[boundary..] || (u in order && u in preserved)
  {
    var before, after := order[..boundary], order[boundary..];
    assert order == before + after;
    assert NoDuplicates(before) && NoDuplicates(after);
    NoDuplicatesConcat(Only(before, preserved), after);
  }

  function Restricted(records: Records, kept: seq<Uuid>): Records {
    map u | u in records && u in kept :: records[u]
  }

  /** Some climb leads from the tail to the head. */
  ghost predicate HasPath(records: Records, tail: Uuid, head: Uuid) {
    exists path :: IsSegment(records, tail, head, path)
  }

  lemma {:induction false} OnlyInOrder(s: seq<Uuid>, all: set<Uuid>, j: nat, k: nat)
    requires j < k < |Only(s, all)|
    ensures ListedBefore(s, Only(s, all)[j], Only(s, all)[k])
  {
    var rest, r := Only(s[1..], all), Only(s, all);
    if s[0] !in all {
      OnlyInOrder(s[1..], all, j, k);
      ListedLater(s, r[j], r[k]);
    } else if j > 0 {
      OnlyInOrder(s[1..], all, j - 1, k - 1);
      ListedLater(s, r[j], r[k]);
    } else {
      assert r[k] == rest[k - 1] && rest[k - 1] in s[1..];
      var i :| 0 <= i < |s[1..]| && s[1..][i] == r[k];
      assert s[0] == r[0] && s[i + 1] == r[k];
    }
  }

  /** A cut leaves the records in the order they had. */
  lemma {:induction false} KeptInOrder(order: seq<Uuid>, boundary: nat, preserved: set<Uuid>, j: nat, k: nat)
    requires boundary <= |order| && j < k < |Kept(order, boundary, preserved)|
    ensures ListedBefore(order, Kept(order, boundary, preserved)[j], Kept(order, boundary, preserved)[k])
  {
    var before, after := order[..boundary], order[boundary..];
    var only, kept := Only(before, preserved), Kept(order, boundary, preserved);
    assert order == before + after;
    if k < |only| {
      OnlyInOrder(before, preserved, j, k);
      var i, m :| 0 <= i < m < |before| && before[i] == kept[j] && before[m] == kept[k];
      assert order[i] == kept[j] && order[m] == kept[k];
    } else {
      assert order[boundary + (k - |only|)] == kept[k];
      if j < |only| {
        assert only[j] in before;
        var i :| 0 <= i < |before| && before[i] == kept[j];
        assert order[i] == kept[j];
      } else {
        assert order[boundary + (j - |only|)] == kept[j];
      }
    }
  }

  /** The messages after applying the newest preserved segment. Without one nothing happens; with a
      newer boundary everything before that boundary goes; a live segment whose names are incomplete
      or whose records do not lead from tail to head changes nothing; otherwise the segment is spliced
      in under its anchor and survives the cut. */
  ghost predicate Applied(order: seq<Uuid>, records: Records, order': seq<Uuid>, records': Records)
    requires IsDictionary(order, records)
  {
    var boundary, at := LastBoundary(order, records), LastSegment(order, records);
    if at < 0 then order' == order && records' == records
    else if at != boundary then
      boundary >= 0 && order' == Kept(order, boundary, {}) && records' == Restricted(records, order')
    else
      var segment := records[order[at]].boundary.segment.value;
      if !Complete(segment) || !HasPath(records, segment.tail.value, segment.head.value) then
        order' == order && records' == records
      else
        && order' == Kept(order, boundary, set u | u in SegmentPath(records, segment.tail.value, segment.head.value))
        && records' == Restricted(Spliced(records, segment.head.value, segment.anchor.value, segment.tail.value),
          order')
  }

  /** `b` is the place of the newest boundary. */
  ghost predicate NewestBoundary(order: seq<Uuid>, records: Records, b: nat) {
    b < |order| && IsBoundary(records, order[b]) && forall i :: b < i < |order| ==> !IsBoundary(records, order[i])
  }

  /** The newest boundary names a segment whose records lead from its tail to its head. */
  ghost predicate LiveSegment(records: Records, u: Uuid, head: Uuid, anchor: Uuid, tail: Uuid, path: seq<Uuid>) {
    && u in records && records[u].boundary == Boundary(Some(Segment(Some(head), Some(anchor), Some(tail))))
    && head != "" && anchor != "" && tail != "" && IsSegment(records, tail, head, path)
  }

  ghost predicate NeverLive(records: Records, u: Uuid) {
    forall head, anchor, tail, path :: !LiveSegment(records, u, head, anchor, tail, path)
  }

  lemma {:induction false} NewestIs(order: seq<Uuid>, records: Records, b: nat)
    requires NewestBoundary(order, records, b)
    ensures LastBoundary(order, records) == b
    ensures HasSegment(records, order[b]) ==> LastSegment(order, records) == b
    ensures !HasSegment(records, order[b]) ==> LastSegment(order, records) < b
  {
    hide LastWhere;
    var at, last := LastBoundary(order, records), LastSegment(order, records);
    assert last >= 0 ==> IsBoundary(records, order[last]);
  }

  /** Behind a live segment: its records and what the newest boundary begins are left, the head hangs from
      the anchor, what hung from the anchor hangs from the tail, and nothing else has changed. */
  lemma {:induction false} LiveSegmentSpliced(order: seq<Uuid>, records: Records, order': seq<Uuid>,
      records': Records, b: nat, head: Uuid, anchor: Uuid, tail: Uuid, path: seq<Uuid>)
    requires IsDictionary(order, records) && Applied(order, records, order', records')
    requires NewestBoundary(order, records, b) && LiveSegment(records, order[b], head, anchor, tail, path)
    ensures forall u :: u in order' <==> u in order && (u in order[b..] || u in path)
    ensures records'.Keys == (set u | u in order') && head in records' && ParentOf(records'[head]) == Some(anchor)
    ensures forall u :: u in order' && u != head && ParentOf(records[u]) == Some(anchor) ==>
      u in records' && ParentOf(records'[u]) == Some(tail)
    ensures forall u :: u in order' && u != head && ParentOf(records[u]) != Some(anchor) ==>
      u in records' && records'[u] == records[u]
  {
    NewestIs(order, records, b);
    assert head in path && path[|path| - 1] == head;
    hide LastWhere, Kept, ParentOf, SetParent, IsSegment, IsClimb;
    assert HasPath(records, tail, head);
    assert SegmentPath(records, tail, head) == path;
    KeptAre(order, b, set u | u in path);
    HeadOnPath(records, tail, head, path);
  }

  lemma HeadOnPath(records: Records, tail: Uuid, head: Uuid, path: seq<Uuid>)
    requires IsSegment(records, tail, head, path)
    ensures head in records && head in path
  {
    assert path[|path| - 1] in path;
  }

  /** A newer boundary without a segment only cuts; without any segment, or with one that cannot be
      followed from tail to head, nothing happens. */
  lemma {:induction false} OtherwiseApplied(order: seq<Uuid>, records: Records, order': seq<Uuid>, records': Records,
      b: nat)
    requires IsDictionary(order, records) && Applied(order, records, order', records')
    requires NewestBoundary(order, records, b)
    ensures !HasSegment(records, order[b]) && (exists i :: 0 <= i < b && HasSegment(records, order[i])) ==>
      && (forall u :: u in order' <==> u in order[b..])
      && records'.Keys == (set u | u in order')
      && forall u :: u in records' ==> u in records && records'[u] == records[u]
    ensures (forall i :: 0 <= i <= b ==> !HasSegment(records, order[i])) ==> order' == order && records' == records
    ensures HasSegment(records, order[b]) && NeverLive(records, order[b]) ==> order' == order && records' == records
  {
    NewestIs(order, records, b);
    hide LastWhere, Kept, ParentOf, SetParent, IsClimb, IsSegment;
    KeptAre(order, b, {});
    if HasSegment(records, order[b]) {
      var segment := records[order[b]].boundary.segment.value;
      if Complete(segment) && HasPath(records, segment.tail.value, segment.head.value) {
        var path :| IsSegment(records, segment.tail.value, segment.head.value, path);
        assert LiveSegment(records, order[b], segment.head.value, segment.anchor.value, segment.tail.value, path);
      }
    }
  }

  lemma NoPath(records: Records, tail: Uuid, head: Uuid, up: seq<Uuid>)
    requires IsChainUp(records, tail, up) && head !in up
    ensures !HasPath(records, tail, head)
  {
    forall path ensures !IsSegment(records, tail, head, path) {
      if IsSegment(records, tail, head, path) {
        if |path| <= |up| {
          ClimbAgrees(records, tail, path, up, |path| - 1);
        } else {
          forall k | 0 <= k < |up| ensures up[k] == path[k] { ClimbAgrees(records, tail, up, path, k); }
          ChainCannotGoOn(records, tail, up, path);
        }
        assert false;
      }
    }
  }

  /** A walk from the tail that has not met the head yet: the records so far, and where it goes next. */
  ghost predicate Walking(records: Records, tail: Uuid, head: Uuid, path: seq<Uuid>, seen: set<Uuid>,
      current: Option<Uuid>) {
    && (forall u :: u in seen <==> u in path)
    && seen <= records.Keys && head !in path
    && (current.Some? ==> current.value in records)
    && (if path == [] then current == (if tail in records then Some(tail) else None)
        else IsClimb(records, tail, path) && current == Parent(records, path[|path| - 1]))
  }

  /** One more record of the walk. */
  lemma WalkStep(records: Records, tail: Uuid, head: Uuid, path: seq<Uuid>, seen: set<Uuid>, uuid: Uuid)
    requires Walking(records, tail, head, path, seen, Some(uuid)) && uuid !in seen
    ensures uuid in records && |records.Keys - (seen + {uuid})| < |records.Keys - seen|
    ensures uuid == head ==> IsSegment(records, tail, head, path + [uuid])
    ensures uuid != head ==> Walking(records, tail, head, path + [uuid], seen + {uuid}, Parent(records, uuid))
  {
    hide NoDuplicates, ParentOf;
    SmallerSet(records.Keys - (seen + {uuid}), records.Keys - seen);
    if path == [] {
      ClimbStart(records, tail);
      assert path + [uuid] == [tail];
    } else {
      ClimbFurther(records, tail, path, uuid);
    }
    hide IsClimb;
    assert IsClimb(records, tail, path + [uuid]);
    assert (path + [uuid])[|path|] == uuid;
  }

  /** A walk that ends without the head: there is nothing above, or it has run into itself. */
  lemma WalkEnds(records: Records, tail: Uuid, head: Uuid, path: seq<Uuid>, seen: set<Uuid>, current: Option<Uuid>)
    requires Walking(records, tail, head, path, seen, current) && (current.Some? ==> current.value in seen)
    ensures !HasPath(records, tail, head)
  {
    if path != [] {
      NoPath(records, tail, head, path);
    }
  }

  /** The walk from the tail, up to the head if it gets there. */
  method WalkToHead(records: Records, tail: Uuid, head: Uuid) returns (path: seq<Uuid>, reached: bool)
    ensures reached <==> HasPath(records, tail, head)
    ensures reached ==> IsSegment(records, tail, head, path)
  {
    path := [];
    var seen: set<Uuid> := {};
    var current := if tail in records then Some(tail) else None;
    assert Walking(records, tail, head, path, seen, current);
    while current.Some?
      invariant Walking(records, tail, head, path, seen, current)
      decreases |records.Keys - seen|
    {
      hide Walking, IsSegment, Parent;
      var uuid := current.value;
      if uuid in seen {
        break;
      }
      WalkStep(records, tail, head, path, seen, uuid);
      seen := seen + {uuid};
      path := path + [uuid];
      if uuid == head {
        return path, true;
      }
      current := Parent(records, uuid);
    }
    WalkEnds(records, tail, head, path, seen, current);
    reached := false;
  }

  // ----- Ranks: a graph is acyclic if some rank falls along every link -----

  function Parent(records: Records, u: Uuid): Option<Uuid>
    requires u in records
  {
    var p := ParentOf(records[u]);
    if p.Some? && p.value in records then p else None
  }

  predicate FallsAt(records: Records, rank: Uuid -> nat, u: Uuid) {
    u in records && Parent(records, u).Some? ==> rank(Parent(records, u).value) < rank(u)
  }

  ghost predicate Falls(records: Records, rank: Uuid -> nat) {
    forall u :: FallsAt(records, rank, u)
  }

  ghost predicate Acyclic(records: Records) {
    exists rank: Uuid -> nat :: Falls(records, rank)
  }

  /** The record `n` links above `u`. */
  function Up(records: Records, u: Uuid, n: nat): Option<Uuid>
    requires u in records
    decreases n
  {
    if n == 0 then Some(u)
    else match Parent(records, u)
      case None => None
      case Some(p) => Up(records, p, n - 1)
  }

  /** `v` is `u` or an ancestor of it. */
  ghost predicate Reaches(records: Records, u: Uuid, v: Uuid) {
    u in records && exists n: nat :: Up(records, u, n) == Some(v)
  }

  lemma SplicedParents(records: Records, head: Uuid, anchor: Uuid, tail: Uuid, u: Uuid)
    requires u in records && anchor != "" && tail != ""
    ensures var after := Spliced(records, head, anchor, tail);
      && after.Keys == records.Keys && u in after
      && ParentOf(after[u]) == (
        if u == head then Some(anchor)
        else if ParentOf(records[u]) == Some(anchor) then Some(tail)
        else ParentOf(records[u]))
  {
    assert Spliced(records, head, anchor, tail)[u] == Relink(records, head, anchor, tail, u);
  }

  // ----- When the splice keeps the graph acyclic -----

  /** The splice gives this record a new parent. */
  predicate Affected(records: Records, head: Uuid, anchor: Uuid, u: Uuid)
    requires u in records
  {
    u == head || ParentOf(records[u]) == Some(anchor)
  }

  /** What a climb meets first: 1 for the head, 2 for another child of the anchor, 0 for neither. */
  ghost function Meets(records: Records, rank: Uuid -> nat, head: Uuid, anchor: Uuid, u: Uuid): nat
    requires u in records && Falls(records, rank)
    decreases rank(u)
  {
    assert FallsAt(records, rank, u);
    if u == head then 1
    else if ParentOf(records[u]) == Some(anchor) then 2
    else match Parent(records, u)
      case None => 0
      case Some(p) => Meets(records, rank, head, anchor, p)
  }

  lemma {:induction false} UpFalls(records: Records, rank: Uuid -> nat, u: Uuid, n: nat)
    requires u in records && Falls(records, rank) && Up(records, u, n).Some?
    ensures rank(Up(records, u, n).value) + n <= rank(u)
    decreases n
  {
    if n > 0 {
      assert FallsAt(records, rank, u);
      UpFalls(records, rank, Parent(records, u).value, n - 1);
    }
  }

  lemma ReachesSelf(records: Records, u: Uuid)
    requires u in records
    ensures Reaches(records, u, u)
  {
    assert Up(records, u, 0) == Some(u);
  }

  lemma ReachesFurther(records: Records, u: Uuid, v: Uuid)
    requires u in records && Parent(records, u).Some? && Reaches(records, Parent(records, u).value, v)
    ensures Reaches(records, u, v)
  {
    var n: nat :| Up(records, Parent(records, u).value, n) == Some(v);
    assert Up(records, u, n + 1) == Some(v);
  }

  /** A climb that meets the head first reaches it; one that meets a child of the anchor started
      above the anchor's rank. */
  lemma {:induction false} MeetsMeans(records: Records, rank: Uuid -> nat, head: Uuid, anchor: Uuid, u: Uuid)
    requires u in records && Falls(records, rank)
    ensures Meets(records, rank, head, anchor, u) == 1 ==> Reaches(records, u, head)
    ensures Meets(records, rank, head, anchor, u) == 2 && anchor in records ==> rank(anchor) < rank(u)
    ensures Meets(records, rank, head, anchor, u) <= 2
    decreases rank(u)
  {
    assert FallsAt(records, rank, u);
    if u == head {
      ReachesSelf(records, u);
    } else if ParentOf(records[u]) != Some(anchor) && Parent(records, u).Some? {
      MeetsMeans(records, rank, head, anchor, Parent(records, u).value);
      if Meets(records, rank, head, anchor, u) == 1 {
        ReachesFurther(records, u, head);
      }
    }
  }

  /** Climbing the segment from any of its records meets the head first, if the anchor lies elsewhere. */
  lemma {:induction false} SegmentMeetsHead(records: Records, rank: Uuid -> nat, tail: Uuid, head: Uuid, anchor: Uuid,
      path: seq<Uuid>, k: nat)
    requires Falls(records, rank) && IsSegment(records, tail, head, path) && k < |path|
    requires !Reaches(records, anchor, head)
    ensures path[k] in records && Meets(records, rank, head, anchor, path[k]) == 1 && Reaches(records, path[k], head)
    decreases |path| - k
  {
    assert path[k] in path;
    if k < |path| - 1 {
      SegmentMeetsHead(records, rank, tail, head, anchor, path, k + 1);
      assert ParentOf(records[path[k]]) == Some(path[k + 1]);
      assert Parent(records, path[k]) == Some(path[k + 1]);
      ReachesFurther(records, path[k], head);
    } else {
      ReachesSelf(records, head);
    }
  }

  ghost function MaxRank(s: set<Uuid>, rank: Uuid -> nat): (m: nat)
    ensures forall u :: u in s ==> rank(u) <= m
  {
    if s == {} then 0
    else
      var u :| u in s;
      var m := MaxRank(s - {u}, rank);
      if rank(u) > m then rank(u) else m
  }

  ghost function NewRank(records: Records, rank: Uuid -> nat, head: Uuid, anchor: Uuid, m: nat): Uuid -> nat
    requires Falls(records, rank)
  {
    u => if u in records then Level(Meets(records, rank, head, anchor, u), m) + rank(u) else 0
  }

  function Level(met: nat, m: nat): nat { if met == 0 then 0 else if met == 1 then m else m + m }

  /** Ranks rise by one level where a climb will pass the segment, by two where it enters it. */
  lemma {:induction false} SpliceFalls(records: Records, rank: Uuid -> nat, tail: Uuid, head: Uuid, anchor: Uuid,
      path: seq<Uuid>)
    requires Falls(records, rank) && IsSegment(records, tail, head, path) && !Reaches(records, anchor, head)
    requires anchor != "" && tail != ""
    ensures Falls(Spliced(records, head, anchor, tail),
      NewRank(records, rank, head, anchor, MaxRank(records.Keys, rank) + 1))
  {
    var m := MaxRank(records.Keys, rank) + 1;
    var after, newRank := Spliced(records, head, anchor, tail), NewRank(records, rank, head, anchor, m);
    SegmentMeetsHead(records, rank, tail, head, anchor, path, 0);
    assert tail in records && forall v :: v in records ==> rank(v) < m;
    hide FallsAt, Spliced, Reaches, IsSegment, Meets, MaxRank, NewRank;
    forall u ensures FallsAt(after, newRank, u) {
      NewRankFalls(records, rank, tail, head, anchor, m, u);
    }
  }

  lemma {:induction false} NewRankFalls(records: Records, rank: Uuid -> nat, tail: Uuid, head: Uuid, anchor: Uuid,
      m: nat, u: Uuid)
    requires Falls(records, rank) && !Reaches(records, anchor, head)
    requires tail in records && Meets(records, rank, head, anchor, tail) == 1
    requires anchor != "" && tail != "" && (forall v :: v in records ==> rank(v) < m)
    ensures FallsAt(Spliced(records, head, anchor, tail), NewRank(records, rank, head, anchor, m), u)
  {
    if u in records {
      assert FallsAt(records, rank, u);
      SplicedParents(records, head, anchor, tail, u);
      if anchor in records {
        MeetsMeans(records, rank, head, anchor, anchor);
      }
      if !Affected(records, head, anchor, u) {
        assert Parent(Spliced(records, head, anchor, tail), u) == Parent(records, u);
      }
    }
  }

  /** An ancestor of the anchor is still one after the splice, as far up as the head. */
  lemma {:induction false} StillReaches(records: Records, rank: Uuid -> nat, tail: Uuid, head: Uuid, anchor: Uuid,
      v: Uuid, n: nat)
    requires Falls(records, rank) && anchor in records && anchor != "" && tail != ""
    requires v in records && rank(v) <= rank(anchor) && Up(records, v, n) == Some(head)
    ensures Reaches(Spliced(records, head, anchor, tail), v, head)
    decreases n
  {
    var after := Spliced(records, head, anchor, tail);
    SplicedParents(records, head, anchor, tail, v);
    assert FallsAt(records, rank, v);
    if v == head {
      ReachesSelf(after, head);
    } else {
      assert Parent(after, v) == Parent(records, v);
      StillReaches(records, rank, tail, head, anchor, Parent(records, v).value, n - 1);
      ReachesFurther(after, v, head);
    }
  }

  lemma {:induction false} SpliceCloses(records: Records, rank: Uuid -> nat, tail: Uuid, head: Uuid, anchor: Uuid,
      newRank: Uuid -> nat)
    requires Falls(records, rank) && head in records && Reaches(records, anchor, head)
    requires anchor != "" && tail != ""
    ensures !Falls(Spliced(records, head, anchor, tail), newRank)
  {
    var after := Spliced(records, head, anchor, tail);
    if Falls(after, newRank) {
      var n: nat :| Up(records, anchor, n) == Some(head);
      StillReaches(records, rank, tail, head, anchor, anchor, n);
      var m: nat :| Up(after, anchor, m) == Some(head);
      UpFalls(after, newRank, anchor, m);
      SplicedParents(records, head, anchor, tail, head);
      ParentFalls(after, newRank, head);
      assert false;
    }
  }

  lemma ParentFalls(records: Records, rank: Uuid -> nat, u: Uuid)
    requires Falls(records, rank) && u in records && Parent(records, u).Some?
    ensures rank(Parent(records, u).value) < rank(u)
  {
    assert FallsAt(records, rank, u);
  }

  /** Splicing a segment into an acyclic message graph keeps it acyclic if and only if the anchor is
      neither the segment's head nor below it. */
  lemma {:induction false} SpliceAcyclicIff(records: Records, tail: Uuid, head: Uuid, anchor: Uuid, path: seq<Uuid>)
    requires Acyclic(records) && IsSegment(records, tail, head, path) && anchor != "" && tail != ""
    ensures Acyclic(Spliced(records, head, anchor, tail)) <==> !Reaches(records, anchor, head)
  {
    var rank: Uuid -> nat :| Falls(records, rank);
    if Reaches(records, anchor, head) {
      assert head in path;
      forall newRank: Uuid -> nat ensures !Falls(Spliced(records, head, anchor, tail), newRank) {
        SpliceCloses(records, rank, tail, head, anchor, newRank);
      }
    } else {
      SpliceFalls(records, rank, tail, head, anchor, path);
    }
  }

  /** The smallest splice that closes a cycle: one record that is head, tail and anchor. */
  lemma SpliceCycleWitness()
    ensures var records := map["a" := Record(UserRecord, None, None, None, false, "", [], NoBoundary)];
      Acyclic(records) && IsSegment(records, "a", "a", ["a"]) && !Acyclic(Spliced(records, "a", "a", "a"))
  {
    var records: Records := map["a" := Record(UserRecord, None, None, None, false, "", [], NoBoundary)];
    assert Falls(records, u => 0);
    assert "a" in ["a"] && IsSegment(records, "a", "a", ["a"]);
    ReachesSelf(records, "a");
    SpliceAcyclicIff(records, "a", "a", "a", ["a"]);
  }
}
