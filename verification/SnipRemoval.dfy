/** Removing snipped records from the transcript and relinking the survivors, with the parent
    links of the removed records compressed while they are walked. */
module SnipRemoval {
  import opened Options
  import opened Collections
  import opened ClaudeRecords

  type Links = map<Uuid, Option<Uuid>>

  function Link(links: Links, uuid: Uuid): Option<Uuid> {
    if uuid in links then links[uuid] else None
  }

  /** The plain walk: where the links lead from `x` once they leave the removed records, if they do
      so within `n` steps. */
  function Walk(removed: set<Uuid>, links: Links, x: Option<Uuid>, n: nat): Option<Option<Uuid>>
    decreases n
  {
    if x.None? || x.value !in removed then Some(x)
    else if n == 0 then None
    else Walk(removed, links, Link(links, x.value), n - 1)
  }

  ghost predicate Exits(removed: set<Uuid>, links: Links, x: Option<Uuid>, e: Option<Uuid>) {
    exists n: nat :: Walk(removed, links, x, n) == Some(e)
  }

  /** The walk goes round in removed records for ever. */
  ghost predicate Trapped(removed: set<Uuid>, links: Links, x: Option<Uuid>) {
    forall n: nat :: Walk(removed, links, x, n) == None
  }

  /** Two link maps that lead every walk to the same place. */
  ghost predicate SameWalks(removed: set<Uuid>, links: Links, links': Links) {
    forall x, e :: Exits(removed, links, x, e) <==> Exits(removed, links', x, e)
  }

  lemma {:induction false} WalkLonger(removed: set<Uuid>, links: Links, x: Option<Uuid>, n: nat, m: nat)
    requires n <= m && Walk(removed, links, x, n).Some?
    ensures Walk(removed, links, x, m) == Walk(removed, links, x, n)
    decreases n
  {
    if x.Some? && x.value in removed {
      WalkLonger(removed, links, Link(links, x.value), n - 1, m - 1);
    }
  }

  lemma {:induction false} ExitUnique(removed: set<Uuid>, links: Links, x: Option<Uuid>, e: Option<Uuid>,
      e': Option<Uuid>)
    requires Exits(removed, links, x, e) && Exits(removed, links, x, e')
    ensures e == e'
  {
    var n: nat :| Walk(removed, links, x, n) == Some(e);
    var m: nat :| Walk(removed, links, x, m) == Some(e');
    WalkLonger(removed, links, x, n, n + m);
    WalkLonger(removed, links, x, m, n + m);
  }

  lemma {:induction false} ExitOrTrapped(removed: set<Uuid>, links: Links, x: Option<Uuid>)
    ensures Trapped(removed, links, x) <==> !exists e :: Exits(removed, links, x, e)
  {
    if !Trapped(removed, links, x) {
      var n: nat :| Walk(removed, links, x, n) != None;
      assert Exits(removed, links, x, Walk(removed, links, x, n).value);
    }
  }

  lemma {:induction false} ExitFurther(removed: set<Uuid>, links: Links, uuid: Uuid, e: Option<Uuid>)
    requires uuid in removed
    ensures Exits(removed, links, Some(uuid), e) <==> Exits(removed, links, Link(links, uuid), e)
  {
    if Exits(removed, links, Some(uuid), e) {
      var n: nat :| Walk(removed, links, Some(uuid), n) == Some(e);
      assert Walk(removed, links, Link(links, uuid), n - 1) == Some(e);
    }
    if Exits(removed, links, Link(links, uuid), e) {
      var n: nat :| Walk(removed, links, Link(links, uuid), n) == Some(e);
      assert Walk(removed, links, Some(uuid), n + 1) == Some(e);
    }
  }

  // ----- A walked path -----

  /** The walk from `start` so far: removed records, each linked to the next, now at `current`. */
  ghost predicate IsPath(removed: set<Uuid>, links: Links, start: Uuid, path: seq<Uuid>, current: Option<Uuid>) {
    && (forall k :: 0 <= k < |path| ==> path[k] in removed)
    && (forall k :: 0 <= k < |path| - 1 ==> Link(links, path[k]) == Some(path[k + 1]))
    && (if path == [] then current == Some(start) else path[0] == start && Link(links, path[|path| - 1]) == current)
  }

  /** The link map with every record of the path pointing straight at `target`. */
  ghost predicate Compressed(links: Links, links': Links, path: seq<Uuid>, target: Option<Uuid>) {
    && (forall k :: 0 <= k < |path| ==> Link(links', path[k]) == target)
    && (forall u :: u !in path ==> Link(links', u) == Link(links, u))
  }

  lemma {:induction false} PathExits(removed: set<Uuid>, links: Links, start: Uuid, path: seq<Uuid>,
      current: Option<Uuid>, k: nat)
    requires IsPath(removed, links, start, path, current) && k < |path|
    requires current.None? || current.value !in removed
    ensures Exits(removed, links, Some(path[k]), current)
    decreases |path| - k
  {
    assert Walk(removed, links, current, 0) == Some(current);
    ExitFurther(removed, links, path[k], current);
    if k < |path| - 1 {
      PathExits(removed, links, start, path, current, k + 1);
    }
  }

  /** A set of removed records closed under their links traps every walk that enters it. */
  lemma {:induction false} ClosedTraps(removed: set<Uuid>, links: Links, path: seq<Uuid>, x: Uuid, n: nat)
    requires forall u :: u in path ==> u in removed && Link(links, u).Some? && Link(links, u).value in path
    requires x in path
    ensures Walk(removed, links, Some(x), n) == None
    decreases n
  {
    if n > 0 {
      ClosedTraps(removed, links, path, Link(links, x).value, n - 1);
    }
  }

  lemma {:induction false} CompressKeeps(removed: set<Uuid>, links: Links, links': Links, path: seq<Uuid>,
      target: Option<Uuid>, x: Option<Uuid>, n: nat)
    requires Compressed(links, links', path, target)
    requires forall k :: 0 <= k < |path| ==> path[k] in removed
    requires forall k, e :: 0 <= k < |path| ==>
      (Exits(removed, links, Some(path[k]), e) <==> Exits(removed, links', Some(path[k]), e))
    ensures Walk(removed, links, x, n).Some? ==> Exits(removed, links', x, Walk(removed, links, x, n).value)
    ensures Walk(removed, links', x, n).Some? ==> Exits(removed, links, x, Walk(removed, links', x, n).value)
    decreases n
  {
    var w, w' := Walk(removed, links, x, n), Walk(removed, links', x, n);
    if x.None? || x.value !in removed {
      assert Walk(removed, links, x, 0) == Walk(removed, links', x, 0) == Some(x);
    } else if x.value in path {
      var k: nat :| k < |path| && path[k] == x.value;
      assert w.Some? ==> Exits(removed, links, Some(path[k]), w.value);
      assert w'.Some? ==> Exits(removed, links', Some(path[k]), w'.value);
    } else if n > 0 {
      CompressKeeps(removed, links, links', path, target, Link(links, x.value), n - 1);
      if w.Some? { ExitFurther(removed, links', x.value, w.value); }
      if w'.Some? { ExitFurther(removed, links, x.value, w'.value); }
    }
  }

  lemma {:induction false} CompressKeepsAll(removed: set<Uuid>, links: Links, links': Links, path: seq<Uuid>,
      target: Option<Uuid>)
    requires Compressed(links, links', path, target)
    requires forall k :: 0 <= k < |path| ==> path[k] in removed
    requires forall k, e :: 0 <= k < |path| ==>
      (Exits(removed, links, Some(path[k]), e) <==> Exits(removed, links', Some(path[k]), e))
    ensures SameWalks(removed, links, links')
  {
    forall x, e ensures Exits(removed, links, x, e) <==> Exits(removed, links', x, e) {
      if n: nat :| Walk(removed, links, x, n) == Some(e) {
        CompressKeeps(removed, links, links', path, target, x, n);
      }
      if n: nat :| Walk(removed, links', x, n) == Some(e) {
        CompressKeeps(removed, links, links', path, target, x, n);
      }
    }
  }

  /** Compressing a path that has left the removed records changes no walk. */
  lemma {:induction false} CompressExit(removed: set<Uuid>, links: Links, links': Links, start: Uuid, path: seq<Uuid>,
      current: Option<Uuid>)
    requires IsPath(removed, links, start, path, current) && Compressed(links, links', path, current)
    requires current.None? || current.value !in removed
    ensures SameWalks(removed, links, links')
  {
    forall k, e | 0 <= k < |path|
      ensures Exits(removed, links, Some(path[k]), e) <==> Exits(removed, links', Some(path[k]), e)
    {
      PathExits(removed, links, start, path, current, k);
      assert Walk(removed, links', current, 0) == Some(current);
      ExitFurther(removed, links', path[k], current);
      if Exits(removed, links, Some(path[k]), e) { ExitUnique(removed, links, Some(path[k]), e, current); }
      if Exits(removed, links', Some(path[k]), e) { ExitUnique(removed, links', Some(path[k]), e, current); }
    }
    CompressKeepsAll(removed, links, links', path, current);
  }

  /** Compressing a path that has run into itself changes no walk either: its records stay trapped. */
  lemma {:induction false} CompressCycle(removed: set<Uuid>, links: Links, links': Links, start: Uuid, path: seq<Uuid>,
      current: Option<Uuid>)
    requires IsPath(removed, links, start, path, current) && Compressed(links, links', path, current)
    requires current.Some? && current.value in path
    ensures SameWalks(removed, links, links')
    ensures forall k :: 0 <= k < |path| ==> Trapped(removed, links, Some(path[k]))
  {
    forall u | u in path
      ensures u in removed && Link(links, u).Some? && Link(links, u).value in path && Link(links', u) == current
    {
      var k: nat :| k < |path| && path[k] == u;
      assert k < |path| - 1 ==> Link(links, path[k]) == Some(path[k + 1]);
    }
    forall k | 0 <= k < |path|
      ensures Trapped(removed, links, Some(path[k])) && Trapped(removed, links', Some(path[k]))
    {
      forall n: nat
        ensures Walk(removed, links, Some(path[k]), n) == None && Walk(removed, links', Some(path[k]), n) == None
      {
        ClosedTraps(removed, links, path, path[k], n);
        ClosedTraps(removed, links', path, path[k], n);
      }
      ExitOrTrapped(removed, links, Some(path[k]));
      ExitOrTrapped(removed, links', Some(path[k]));
    }
    CompressKeepsAll(removed, links, links', path, current);
  }

  // ----- The code -----

  ghost predicate LinksNonEmpty(links: Links) {
    forall u :: u in links ==> NonEmpty(links[u])
  }

  /** The inner `resolve`: walk, then point everything walked at where the walk ended. */
  method Resolve(removed: set<Uuid>, links: Links, start: Uuid) returns (current: Option<Uuid>, links': Links)
    requires start in removed && start != "" && LinksNonEmpty(links)
    ensures SameWalks(removed, links, links') && LinksNonEmpty(links') && NonEmpty(current)
    ensures Exits(removed, links, Some(start), current) ||
      (Trapped(removed, links, Some(start)) && current.Some? && current.value in removed)
  {
    var path: seq<Uuid> := [];
    var seen: set<Uuid> := {};
    current := Some(start);
    while current.Some? && current.value in removed && current.value !in seen
      invariant IsPath(removed, links, start, path, current) && NonEmpty(current)
      invariant seen == set u | u in path
      invariant path == [] ==> seen == {}
      decreases removed - seen
    {
      var uuid := current.value;
      seen := seen + {uuid};
      path := path + [uuid];
      current := if uuid in links then links[uuid] else None;
    }
    links' := links;
    for k := 0 to |path|
      invariant forall u :: Link(links', u) == if u in path[..k] then current else Link(links, u)
      invariant LinksNonEmpty(links')
    {
      assert path[..k + 1] == path[..k] + [path[k]];
      links' := links'[path[k] := current];
    }
    assert path[..|path|] == path;
    assert Compressed(links, links', path, current);
    assert path != [] && path[0] == start;
    if current.None? || current.value !in removed {
      PathExits(removed, links, start, path, current, 0);
      CompressExit(removed, links, links', start, path, current);
    } else {
      CompressCycle(removed, links, links', start, path, current);
    }
  }

  /** All uuids the records ask to remove. */
  function RemovedBy(order: seq<Uuid>, records: Records): set<Uuid>
    requires forall u :: u in order ==> u in records
  {
    set u, v | u in order && v in records[u].removedUuids :: v
  }

  /** The parent links of the removed records, as they were. */
  function RemovedLinks(records: Records, removed: set<Uuid>): Links {
    map u | u in removed && u in records :: ParentOf(records[u])
  }

  function Survivors(order: seq<Uuid>, removed: set<Uuid>): seq<Uuid> {
    if order == [] then []
    else if order[0] in removed then Survivors(order[1..], removed)
    else [order[0]] + Survivors(order[1..], removed)
  }

  lemma {:induction false} SurvivorsAre(order: seq<Uuid>, removed: set<Uuid>)
    ensures forall u :: u in Survivors(order, removed) <==> u in order && u !in removed
    ensures NoDuplicates(order) ==> NoDuplicates(Survivors(order, removed))
  {
    if order != [] {
      SurvivorsAre(order[1..], removed);
      assert order == [order[0]] + order[1..];
    }
  }

  lemma {:induction false} SurvivorsInOrder(order: seq<Uuid>, removed: set<Uuid>, j: nat, k: nat)
    requires j < k < |Survivors(order, removed)|
    ensures ListedBefore(order, Survivors(order, removed)[j], Survivors(order, removed)[k])
  {
    var rest, s := Survivors(order[1..], removed), Survivors(order, removed);
    if order[0] in removed {
      SurvivorsInOrder(order[1..], removed, j, k);
      ListedLater(order, s[j], s[k]);
    } else if j > 0 {
      SurvivorsInOrder(order[1..], removed, j - 1, k - 1);
      ListedLater(order, s[j], s[k]);
    } else {
      SurvivorsAre(order[1..], removed);
      assert s[k] == rest[k - 1] && rest[k - 1] in order[1..];
      var i :| 0 <= i < |order[1..]| && order[1..][i] == s[k];
      assert order[0] == s[0] && order[i + 1] == s[k];
    }
  }

  /** What snip removal makes of one surviving record, told by the plain walk over the original
      links: an unaffected record is untouched; otherwise only the parent changes, to the nearest
      ancestor that is not removed (or none); a record whose walk never ends keeps pointing at some
      removed uuid, which no longer exists. */
  ghost predicate Relinked(removed: set<Uuid>, links: Links, before: Record, after: Record) {
    var p := ParentOf(before);
    if p.None? || p.value !in removed then after == before
    else
      && after.(parentUuid := before.parentUuid, logicalParent := before.logicalParent) == before
      && (Exits(removed, links, p, ParentOf(after))
          || (Trapped(removed, links, p) && ParentOf(after).Some? && ParentOf(after).value in removed))
  }

  lemma {:induction false} SameWalksChain(removed: set<Uuid>, a: Links, b: Links, c: Links)
    requires SameWalks(removed, a, b) && SameWalks(removed, b, c)
    ensures SameWalks(removed, a, c)
  {
    forall x, e ensures Exits(removed, a, x, e) <==> Exits(removed, c, x, e) {
      assert Exits(removed, a, x, e) <==> Exits(removed, b, x, e);
    }
  }

  /** Where the compressed links lead is where the plain ones lead. */
  lemma {:induction false} ResolvedRelinks(removed: set<Uuid>, plain: Links, links: Links, before: Record,
      target: Option<Uuid>)
    requires SameWalks(removed, plain, links) && NonEmpty(target)
    requires ParentOf(before).Some? && ParentOf(before).value in removed
    requires var p := ParentOf(before);
      Exits(removed, links, p, target) || (Trapped(removed, links, p) && target.Some? && target.value in removed)
    ensures Relinked(removed, plain, before, SetParent(before, target))
  {
    var p := ParentOf(before);
    ExitOrTrapped(removed, links, p);
    ExitOrTrapped(removed, plain, p);
    assert forall e :: Exits(removed, plain, p, e) <==> Exits(removed, links, p, e);
  }

  lemma SameWalksSelf(removed: set<Uuid>, links: Links)
    ensures SameWalks(removed, links, links)
  {}

  /** Takes the removed records out, remembering their parent links. */
  method PopRemoved(records: Records, removed: set<Uuid>) returns (rest: Records, links: Links)
    ensures rest == records - removed
    ensures links == RemovedLinks(records, removed)
  {
    links, rest := map[], records;
    var todo := removed;
    while todo != {}
      invariant todo <= removed
      invariant rest == records - (removed - todo)
      invariant links == map u | u in removed - todo && u in records :: ParentOf(records[u])
      decreases todo
    {
      var uuid :| uuid in todo;
      if uuid in rest {
        links := links[uuid := ParentOf(rest[uuid])];
        rest := rest - {uuid};
      }
      todo := todo - {uuid};
    }
    assert removed - todo == removed;
  }

  lemma UntouchedRelinks(removed: set<Uuid>, links: Links, record: Record)
    requires ParentOf(record).None? || ParentOf(record).value !in removed
    ensures Relinked(removed, links, record, record)
  {}

  /** The records a walk passes before it leaves, none of them twice. */
  lemma {:induction false} LeastWalk(removed: set<Uuid>, links: Links, x: Option<Uuid>, n: nat)
      returns (passed: set<Uuid>)
    requires Walk(removed, links, x, n).Some? && (n > 0 ==> Walk(removed, links, x, n - 1).None?)
    ensures passed <= removed && |passed| == n
    ensures forall u :: u in passed ==> Walk(removed, links, Some(u), n).Some?
    decreases n
  {
    passed := {};
    if n > 0 {
      passed := LeastWalk(removed, links, Link(links, x.value), n - 1);
      assert x.value !in passed;
      forall u | u in passed ensures Walk(removed, links, Some(u), n).Some? {
        WalkLonger(removed, links, Some(u), n - 1, n);
      }
      passed := passed + {x.value};
    }
  }

  lemma {:induction false} LeastSteps(removed: set<Uuid>, links: Links, x: Option<Uuid>, n: nat) returns (m: nat)
    requires Walk(removed, links, x, n).Some?
    ensures m <= n && Walk(removed, links, x, m).Some? && (m > 0 ==> Walk(removed, links, x, m - 1).None?)
  {
    m := n;
    if n > 0 && Walk(removed, links, x, n - 1).Some? {
      m := LeastSteps(removed, links, x, n - 1);
    }
  }

  /** A walk that has not left after as many steps as there are removed records never does. */
  lemma {:induction false} TrappedIff(removed: set<Uuid>, links: Links, x: Option<Uuid>)
    ensures Trapped(removed, links, x) <==> Walk(removed, links, x, |removed|).None?
  {
    if !Trapped(removed, links, x) {
      var n: nat :| Walk(removed, links, x, n) != None;
      var m := LeastSteps(removed, links, x, n);
      var passed := LeastWalk(removed, links, x, m);
      SubsetSize(passed, removed);
      WalkLonger(removed, links, x, m, |removed|);
    }
  }

  /** A surviving record still points at a removed uuid exactly when the walk from its parent has not
      left the removed records after as many steps as there are of them. */
  lemma {:induction false} DanglingIffTrapped(removed: set<Uuid>, links: Links, before: Record, after: Record)
    requires Relinked(removed, links, before, after)
    ensures (ParentOf(after).Some? && ParentOf(after).value in removed) <==>
      (ParentOf(before).Some? && ParentOf(before).value in removed &&
        Walk(removed, links, ParentOf(before), |removed|).None?)
  {
    var p := ParentOf(before);
    ExitOrTrapped(removed, links, p);
    TrappedIff(removed, links, p);
    if n: nat :| Walk(removed, links, p, n) == Some(ParentOf(after)) {
      WalkEndsOutside(removed, links, p, n);
    }
  }

  lemma {:induction false} WalkEndsOutside(removed: set<Uuid>, links: Links, x: Option<Uuid>, n: nat)
    requires Walk(removed, links, x, n).Some?
    ensures var e := Walk(removed, links, x, n).value; e.None? || e.value !in removed
    decreases n
  {
    if x.Some? && x.value in removed {
      WalkEndsOutside(removed, links, Link(links, x.value), n - 1);
    }
  }

  /** Links along which some rank falls trap no walk, so acyclic removals leave nothing dangling. */
  lemma {:induction false} AcyclicEscapes(removed: set<Uuid>, links: Links, rank: Uuid -> nat, x: Option<Uuid>)
    requires forall u :: u in removed && Link(links, u).Some? ==> rank(Link(links, u).value) < rank(u)
    ensures !Trapped(removed, links, x)
    decreases if x.Some? then rank(x.value) + 1 else 0
  {
    if x.Some? && x.value in removed {
      AcyclicEscapes(removed, links, rank, Link(links, x.value));
      ExitOrTrapped(removed, links, Link(links, x.value));
      var e :| Exits(removed, links, Link(links, x.value), e);
      ExitFurther(removed, links, x.value, e);
      ExitOrTrapped(removed, links, x);
    } else {
      assert Walk(removed, links, x, 0) != None;
    }
  }
}
