/** The messages of one transcript, rewritten in place: the preserved segment spliced in, then the
    snipped records taken out. */
module PreparedMessages {
  import opened Options
  import opened Collections
  import opened ClaudeRecords
  import opened ClaudeChain
  import opened PreservedSegment
  import opened SnipRemoval

  class Messages {
    var order: seq<Uuid>
    var records: Records

    ghost predicate Valid()
      reads this
    {
      IsDictionary(order, records)
    }

    /** Hangs the head under the anchor and the anchor's other children under the tail, in place. */
    method SpliceSegment(head: Uuid, anchor: Uuid, tail: Uuid)
      requires Valid() && head in records && anchor != "" && tail != ""
      modifies this`records
      ensures records == Spliced(old(records), head, anchor, tail)
    {
      hide ParentOf, SetParent;
      ghost var before := records;
      records := records[head := SetParent(records[head], Some(anchor))];
      for k := 0 to |order|
        invariant records.Keys == before.Keys
        invariant forall i :: 0 <= i < k && i < |order| ==>
          records[order[i]] == Relink(before, head, anchor, tail, order[i])
        invariant forall i :: k <= i < |order| && order[i] != head ==> records[order[i]] == before[order[i]]
        invariant records[head] == Relink(before, head, anchor, tail, head)
      {
        var uuid := order[k];
        if uuid != head && ParentOf(records[uuid]) == Some(anchor) {
          records := records[uuid := SetParent(records[uuid], Some(tail))];
        }
      }
    }

    method CutBefore(boundary: nat, preserved: set<Uuid>)
      requires Valid() && boundary <= |order|
      modifies this
      ensures Valid() && order == Kept(old(order), boundary, preserved)
      ensures records == Restricted(old(records), order)
    {
      for k := 0 to boundary
        invariant order == old(order)
        invariant CutUpTo(order, old(records), k, preserved, records)
      {
        CutOne(order, old(records), k, preserved, records);
        if order[k] !in preserved {
          records := records - {order[k]};
        }
      }
      CutAll(order, old(records), boundary, preserved, records);
      KeptAre(order, boundary, preserved);
      order := Kept(order, boundary, preserved);
    }

    /** Applies the newest preserved segment. */
    method ApplyPreservedSegment()
      requires Valid()
      modifies this
      ensures Valid()
      ensures Applied(old(order), old(records), order, records)
    {
      hide Spliced, Kept, Restricted, LastWhere, IsClimb;
      var boundary, at := LastBoundary(order, records), LastSegment(order, records);
      if at < 0 {
        return;
      }
      SegmentIsBoundary(order, records);
      var preserved: set<Uuid> := {};
      if at == boundary {
        var segment := records[order[at]].boundary.segment.value;
        if !Complete(segment) {
          return;
        }
        var head, anchor, tail := segment.head.value, segment.anchor.value, segment.tail.value;
        var path, reached := WalkToHead(records, tail, head);
        if !reached {
          return;
        }
        HeadIsThere(records, tail, head, path);
        SpliceSegment(head, anchor, tail);
        SplicedKeys(old(records), head, anchor, tail);
        preserved := set u | u in path;
      }
      CutBefore(boundary, preserved);
    }

    /** Relinks the surviving records one by one, compressing the removed links on the way. */
    method RelinkSurvivors(removed: set<Uuid>, plain: Links)
      requires Valid() && LinksNonEmpty(plain)
      modifies this
      ensures order == old(order) && records.Keys == old(records.Keys)
      ensures forall u :: u in records ==> Relinked(removed, plain, old(records)[u], records[u])
    {
      hide Exits, SameWalks, Trapped, Relinked, Walk;
      var links := plain;
      SameWalksSelf(removed, plain);
      for k := 0 to |order|
        invariant order == old(order) && records.Keys == old(records).Keys
        invariant SameWalks(removed, plain, links) && LinksNonEmpty(links)
        invariant forall i :: 0 <= i < k && i < |order| ==>
          Relinked(removed, plain, old(records)[order[i]], records[order[i]])
        invariant forall i :: k <= i < |order| ==> records[order[i]] == old(records)[order[i]]
      {
        var uuid := order[k];
        var parent := ParentOf(records[uuid]);
        if parent.Some? && parent.value in removed {
          var target, compressed := Resolve(removed, links, parent.value);
          ResolvedRelinks(removed, plain, links, records[uuid], target);
          SameWalksChain(removed, plain, links, compressed);
          links := compressed;
          records := records[uuid := SetParent(records[uuid], target)];
        } else {
          UntouchedRelinks(removed, plain, records[uuid]);
        }
      }
    }

    method ApplySnipRemovals()
      requires Valid()
      modifies this
      ensures Valid()
      ensures Snipped(old(order), old(records), order, records)
    {
      var removed := RemovedBy(order, records);
      SurvivorsAre(order, removed);
      hide Relinked;
      var rest, links := PopRemoved(records, removed);
      order := Survivors(order, removed);
      records := rest;
      RelinkSurvivors(removed, links);
    }

    /** Both rewrites, in the order the reader runs them. */
    method Prepare() returns (ghost middle: (seq<Uuid>, Records))
      requires Valid()
      modifies this
      ensures Valid() && IsDictionary(middle.0, middle.1)
      ensures Applied(old(order), old(records), middle.0, middle.1)
      ensures Snipped(middle.0, middle.1, order, records)
    {
      ApplyPreservedSegment();
      middle := (order, records);
      ApplySnipRemovals();
    }
  }

  /** The records without those before position `n` that are not preserved. */
  ghost predicate CutUpTo(order: seq<Uuid>, records: Records, n: nat, preserved: set<Uuid>, cut: Records)
    requires n <= |order|
  {
    && (forall u :: u in cut <==> u in records && (u in preserved || u !in order[..n]))
    && (forall u :: u in cut ==> cut[u] == records[u])
  }

  lemma CutOne(order: seq<Uuid>, records: Records, n: nat, preserved: set<Uuid>, cut: Records)
    requires n < |order| && CutUpTo(order, records, n, preserved, cut)
    ensures CutUpTo(order, records, n + 1, preserved, if order[n] in preserved then cut else cut - {order[n]})
  {
    assert order[..n + 1] == order[..n] + [order[n]];
  }

  lemma CutAll(order: seq<Uuid>, records: Records, boundary: nat, preserved: set<Uuid>, cut: Records)
    requires IsDictionary(order, records) && boundary <= |order| && CutUpTo(order, records, boundary, preserved, cut)
    ensures cut == Restricted(records, Kept(order, boundary, preserved))
    ensures IsDictionary(Kept(order, boundary, preserved), cut)
  {
    KeptAre(order, boundary, preserved);
    assert order == order[..boundary] + order[boundary..];
  }

  lemma SegmentIsBoundary(order: seq<Uuid>, records: Records)
    requires LastSegment(order, records) >= 0
    ensures LastBoundary(order, records) >= LastSegment(order, records)
    ensures HasSegment(records, order[LastSegment(order, records)])
  {
    assert IsBoundary(records, order[LastSegment(order, records)]);
  }

  lemma HeadIsThere(records: Records, tail: Uuid, head: Uuid, path: seq<Uuid>)
    requires IsSegment(records, tail, head, path)
    ensures head in records
  {
    assert head in path;
  }

  lemma SplicedKeys(records: Records, head: Uuid, anchor: Uuid, tail: Uuid)
    ensures Spliced(records, head, anchor, tail).Keys == records.Keys
  {
  }

  /** What taking out the snipped records leaves: every other record, in order, relinked. */
  ghost predicate Snipped(order: seq<Uuid>, records: Records, order': seq<Uuid>, records': Records)
    requires IsDictionary(order, records)
  {
    var removed := RemovedBy(order, records);
    && order' == Survivors(order, removed)
    && records'.Keys == records.Keys - removed
    && forall u :: u in records' ==> Relinked(removed, RemovedLinks(records, removed), records[u], records'[u])
  }

  /** Some record of the transcript asks for `u` to be taken out. */
  ghost predicate IsSnipped(order: seq<Uuid>, records: Records, u: Uuid)
    requires IsDictionary(order, records)
  {
    exists v :: v in order && u in records[v].removedUuids
  }

  function ParentIn(records: Records, u: Uuid): Option<Uuid> {
    if u in records then ParentOf(records[u]) else None
  }

  /** Snipped records, each the parent of the one before; `e` is the last one's parent, none if the last is
      not there at all. */
  ghost predicate SnippedLine(order: seq<Uuid>, records: Records, path: seq<Uuid>, e: Option<Uuid>)
    requires IsDictionary(order, records)
  {
    && path != [] && IsSnipped(order, records, path[0])
    && if |path| == 1 then e == ParentIn(records, path[0])
       else ParentIn(records, path[0]) == Some(path[1]) && SnippedLine(order, records, path[1..], e)
  }

  lemma RemovedLink(order: seq<Uuid>, records: Records, u: Uuid)
    requires IsDictionary(order, records)
    ensures var removed := RemovedBy(order, records);
      && (u in removed <==> IsSnipped(order, records, u))
      && (u in removed ==> Link(RemovedLinks(records, removed), u) == ParentIn(records, u))
  {
  }

  lemma {:induction false} LineExits(order: seq<Uuid>, records: Records, path: seq<Uuid>, e: Option<Uuid>)
    requires IsDictionary(order, records) && SnippedLine(order, records, path, e)
    requires e.None? || !IsSnipped(order, records, e.value)
    ensures var removed := RemovedBy(order, records); Exits(removed, RemovedLinks(records, removed), Some(path[0]), e)
    decreases |path|
  {
    var removed := RemovedBy(order, records);
    var links := RemovedLinks(records, removed);
    hide IsDictionary, IsSnipped, RemovedBy, RemovedLinks, ParentIn, Exits;
    RemovedLink(order, records, path[0]);
    if |path| == 1 {
      if e.Some? {
        RemovedLink(order, records, e.value);
      }
      OutsideExits(removed, links, e);
    } else {
      LineExits(order, records, path[1..], e);
    }
    ExitFurther(removed, links, path[0], e);
  }

  lemma OutsideExits(removed: set<Uuid>, links: Links, x: Option<Uuid>)
    requires x.None? || x.value !in removed
    ensures Exits(removed, links, x, x)
  {
    assert Walk(removed, links, x, 0) == Some(x);
  }

  /** A survivor behind a line of snipped records hangs from where that line comes to. */
  lemma {:induction false} SnipSkips(order: seq<Uuid>, records: Records, order': seq<Uuid>, records': Records, u: Uuid,
      path: seq<Uuid>, e: Option<Uuid>)
    requires IsDictionary(order, records) && Snipped(order, records, order', records') && u in records'
    requires SnippedLine(order, records, path, e) && ParentOf(records[u]) == Some(path[0])
    requires e.None? || !IsSnipped(order, records, e.value)
    ensures ParentOf(records'[u]) == e
  {
    var removed := RemovedBy(order, records);
    var links := RemovedLinks(records, removed);
    LineExits(order, records, path, e);
    RemovedLink(order, records, path[0]);
    assert Relinked(removed, links, records[u], records'[u]);
    hide IsDictionary, IsSnipped, RemovedBy, RemovedLinks, ParentIn, Exits, Trapped, Snipped;
    ExitOrTrapped(removed, links, Some(path[0]));
    ExitUnique(removed, links, Some(path[0]), e, ParentOf(records'[u]));
  }

  /** A snipped record that is its own parent: its child survives and points at it still. */
  lemma DanglingWitness(order': seq<Uuid>, records': Records)
    requires var (order, records) := SelfLinked(); Snipped(order, records, order', records')
    ensures "child" in records' && "self" !in records' && ParentOf(records'["child"]) == Some("self")
  {
    var (order, records) := SelfLinked();
    var removed := RemovedBy(order, records);
    assert order[1] == "child" && records["child"].removedUuids == ["self"] && records["self"].removedUuids == [];
    assert "self" in records[order[1]].removedUuids;
    assert removed == {"self"};
    var links := RemovedLinks(records, removed);
    assert Link(links, "self") == Some("self");
    TrappedIff(removed, links, Some("self"));
    assert |removed| == 1 && Walk(removed, links, Some("self"), 1).None?;
    assert Relinked(removed, links, records["child"], records'["child"]);
    ExitOrTrapped(removed, links, Some("self"));
  }

  function SelfLinked(): (messages: (seq<Uuid>, Records))
    ensures IsDictionary(messages.0, messages.1)
  {
    (["self", "child"], map[
      "self" := Record(UserRecord, Some("self"), None, None, false, "", [], NoBoundary),
      "child" := Record(UserRecord, Some("self"), None, None, false, "", ["self"], NoBoundary)])
  }
}
