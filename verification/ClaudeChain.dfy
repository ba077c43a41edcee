/** Rebuilding one conversation from the message graph: the parent chain of a leaf, with the
    parallel branches of its assistant turns spliced back in. */
module ClaudeChain {
  import opened Options
  import opened Collections
  import opened ClaudeRecords

  /** The error the code runs into instead of a result. */
  datatype Outcome = Chain(uuids: seq<Uuid>) | KeyError(key: string)

  ghost predicate Known(records: Records, s: seq<Uuid>) {
    forall u :: u in s ==> u in records
  }

  // ----- The parent chain -----

  /** A walk from a leaf upwards: each record is the parent of the one before it. */
  ghost predicate IsClimb(records: Records, leaf: Uuid, up: seq<Uuid>) {
    && up != [] && up[0] == leaf && NoDuplicates(up) && Known(records, up)
    && forall k :: 0 < k < |up| ==> ParentOf(records[up[k - 1]]) == Some(up[k])
  }

  ghost function Above(records: Records, up: seq<Uuid>): Option<Uuid>
    requires up != [] && Known(records, up)
  {
    ParentOf(records[up[|up| - 1]])
  }

  /** The whole climb: it stops at a record without a parent, with a missing parent, or with one
      already listed. */
  ghost predicate IsChainUp(records: Records, leaf: Uuid, up: seq<Uuid>) {
    IsClimb(records, leaf, up)
    && var p := Above(records, up); p.None? || p.value !in records || p.value in up
  }

  function Reversed(s: seq<Uuid>): (r: seq<Uuid>)
    ensures |r| == |s| && forall k :: 0 <= k < |s| ==> r[k] == s[|s| - 1 - k]
  {
    seq(|s|, k requires 0 <= k < |s| => s[|s| - 1 - k])
  }

  /** The chain of a leaf is unique, so the walk is fully described by `IsChainUp`. */
  lemma {:induction false} ChainUpUnique(records: Records, leaf: Uuid, a: seq<Uuid>, b: seq<Uuid>)
    requires IsChainUp(records, leaf, a) && IsChainUp(records, leaf, b) && |a| <= |b|
    ensures a == b
  {
    forall k | 0 <= k < |a| ensures a[k] == b[k] {
      ClimbAgrees(records, leaf, a, b, k);
    }
    ChainCannotGoOn(records, leaf, a, b);
  }

  lemma {:induction false} ChainCannotGoOn(records: Records, leaf: Uuid, a: seq<Uuid>, b: seq<Uuid>)
    requires IsChainUp(records, leaf, a) && IsClimb(records, leaf, b)
    requires |a| <= |b| && forall k :: 0 <= k < |a| ==> a[k] == b[k]
    ensures |a| == |b|
  {
    forall k | 0 < k < |b|
      ensures Above(records, b[..k]) == Some(b[k]) && b[k] in records && b[k] !in b[..k]
    {
      assert ParentOf(records[b[k - 1]]) == Some(b[k]);
    }
    assert a == b[..|a|];
  }

  lemma {:induction false} ClimbAgrees(records: Records, leaf: Uuid, a: seq<Uuid>, b: seq<Uuid>, k: nat)
    requires IsClimb(records, leaf, a) && IsClimb(records, leaf, b) && k < |a| <= |b|
    ensures a[k] == b[k]
  {
    if k > 0 {
      ClimbAgrees(records, leaf, a, b, k - 1);
    }
  }

  lemma ClimbFurther(records: Records, leaf: Uuid, up: seq<Uuid>, next: Uuid)
    requires IsClimb(records, leaf, up) && Above(records, up) == Some(next) && next in records && next !in up
    ensures IsClimb(records, leaf, up + [next])
  {}

  lemma ClimbStart(records: Records, leaf: Uuid)
    requires leaf in records
    ensures IsClimb(records, leaf, [leaf])
  {}

  method WalkChain(records: Records, leaf: Uuid) returns (chain: seq<Uuid>)
    requires leaf in records
    ensures IsChainUp(records, leaf, Reversed(chain))
  {
    hide NoDuplicates, ParentOf;
    ClimbStart(records, leaf);
    var up: seq<Uuid> := [];
    var seen: set<Uuid> := {};
    var current := Some(leaf);
    while current.Some?
      invariant forall u :: u in seen <==> u in up
      invariant seen <= records.Keys
      invariant current.Some? ==> current.value in records
      invariant if up == [] then current == Some(leaf) else
        IsClimb(records, leaf, up) &&
        var p := Above(records, up); current == (if p.Some? && p.value in records then p else None)
      decreases |records.Keys - seen|
    {
      var uuid := current.value;
      if uuid in seen {
        break;
      }
      SmallerSet(records.Keys - (seen + {uuid}), records.Keys - seen);
      if up != [] {
        ClimbFurther(records, leaf, up, uuid);
      }
      seen := seen + {uuid};
      assert up == [] ==> up + [uuid] == [leaf];
      up := up + [uuid];
      var parent := ParentOf(records[uuid]);
      current := if parent.Some? && parent.value in records then parent else None;
    }
    chain := Reversed(up);
    assert Reversed(chain) == up;
  }

  // ----- The parallel branches -----

  predicate IsAssistantOf(records: Records, u: Uuid, id: string) {
    u in records && records[u].kind.AssistantRecord? && records[u].messageId == Some(id)
  }

  predicate IsResultOf(records: Records, u: Uuid, parent: Uuid) {
    u in records && records[u].kind.UserRecord? && records[u].hasToolResult && ParentOf(records[u]) == Some(parent)
  }

  function Siblings(order: seq<Uuid>, records: Records, id: string): (s: seq<Uuid>)
    ensures forall u :: u in s <==> u in order && IsAssistantOf(records, u, id)
    ensures NoDuplicates(order) ==> NoDuplicates(s)
  {
    if order == [] then []
    else
      var rest := Siblings(order[1..], records, id);
      assert order == [order[0]] + order[1..];
      if IsAssistantOf(records, order[0], id) then [order[0]] + rest else rest
  }

  function ResultsOf(order: seq<Uuid>, records: Records, parent: Uuid): (s: seq<Uuid>)
    ensures forall u :: u in s <==> u in order && IsResultOf(records, u, parent)
    ensures NoDuplicates(order) ==> NoDuplicates(s)
  {
    if order == [] then []
    else
      var rest := ResultsOf(order[1..], records, parent);
      assert order == [order[0]] + order[1..];
      if IsResultOf(records, order[0], parent) then [order[0]] + rest else rest
  }

  function ResultsOfAll(order: seq<Uuid>, records: Records, group: seq<Uuid>): (s: seq<Uuid>)
    ensures forall u :: u in s <==> u in order && exists m :: m in group && IsResultOf(records, u, m)
    ensures NoDuplicates(order) && NoDuplicates(group) ==> NoDuplicates(s)
  {
    if group == [] then []
    else
      var rest := ResultsOfAll(order, records, group[1..]);
      assert group == [group[0]] + group[1..];
      var first := ResultsOf(order, records, group[0]);
      assert NoDuplicates(order) && NoDuplicates(group) ==> NoDuplicates(first + rest) by {
        if NoDuplicates(order) && NoDuplicates(group) {
          NoDuplicatesConcat(first, rest);
        }
      }
      first + rest
  }

  /** The records of `s` that are in `all`, in order. */
  function Only(s: seq<Uuid>, all: set<Uuid>): (r: seq<Uuid>)
    ensures forall u :: u in r <==> u in s && u in all
    ensures NoDuplicates(s) ==> NoDuplicates(r)
  {
    if s == [] then []
    else
      assert s == [s[0]] + s[1..];
      assert NoDuplicates(s) ==> s[0] !in s[1..];
      (if s[0] in all then [s[0]] else []) + Only(s[1..], all)
  }

  function Without(s: seq<Uuid>, seen: set<Uuid>): (r: seq<Uuid>)
    ensures forall u :: u in r <==> u in s && u !in seen
    ensures NoDuplicates(s) ==> NoDuplicates(r)
  {
    if s == [] then []
    else
      var rest := Without(s[1..], seen);
      assert s == [s[0]] + s[1..];
      if s[0] in seen then rest else [s[0]] + rest
  }

  lemma {:induction false} WithoutSame(s: seq<Uuid>, a: set<Uuid>, b: set<Uuid>)
    requires forall u :: u in s ==> (u in a <==> u in b)
    ensures Without(s, a) == Without(s, b)
  {
    if s != [] {
      assert s == [s[0]] + s[1..];
      WithoutSame(s[1..], a, b);
    }
  }

  // ----- Sorting by timestamp, then by position -----

  function Position(order: seq<Uuid>, u: Uuid): int {
    if order == [] then -1
    else if order[0] == u then 0
    else if Position(order[1..], u) < 0 then -1
    else 1 + Position(order[1..], u)
  }

  predicate TextLess(a: string, b: string) {
    b != "" && (a == "" || a[0] < b[0] || (a[0] == b[0] && TextLess(a[1..], b[1..])))
  }

  predicate NotLater(order: seq<Uuid>, records: Records, u: Uuid, v: Uuid) {
    var t := if u in records then records[u].timestamp else "";
    var w := if v in records then records[v].timestamp else "";
    TextLess(t, w) || (t == w && Position(order, u) <= Position(order, v))
  }

  function Insert(order: seq<Uuid>, records: Records, u: Uuid, s: seq<Uuid>): (r: seq<Uuid>)
    ensures multiset(r) == multiset(s) + multiset{u}
  {
    if s == [] then [u]
    else
      assert s == [s[0]] + s[1..];
      if NotLater(order, records, u, s[0]) then [u] + s
      else [s[0]] + Insert(order, records, u, s[1..])
  }

  /** Python's `sorted` with the reader's key. */
  function SortedByTime(order: seq<Uuid>, records: Records, s: seq<Uuid>): (r: seq<Uuid>)
    ensures multiset(r) == multiset(s)
  {
    if s == [] then []
    else
      assert s == [s[0]] + s[1..];
      Insert(order, records, s[0], SortedByTime(order, records, s[1..]))
  }

  ghost predicate InTimeOrder(order: seq<Uuid>, records: Records, s: seq<Uuid>) {
    forall k :: 0 < k < |s| ==> NotLater(order, records, s[k - 1], s[k])
  }

  lemma {:induction false} TextTrichotomy(a: string, b: string)
    ensures TextLess(a, b) || TextLess(b, a) || a == b
  {
    if a != "" && b != "" && a[0] == b[0] {
      TextTrichotomy(a[1..], b[1..]);
      assert a == [a[0]] + a[1..] && b == [b[0]] + b[1..];
    }
  }

  lemma {:induction false} NotLaterTotal(order: seq<Uuid>, records: Records, u: Uuid, v: Uuid)
    ensures NotLater(order, records, u, v) || NotLater(order, records, v, u)
  {
    TextTrichotomy(if u in records then records[u].timestamp else "",
      if v in records then records[v].timestamp else "");
  }

  lemma InTimeOrderCons(order: seq<Uuid>, records: Records, x: Uuid, t: seq<Uuid>)
    ensures InTimeOrder(order, records, [x] + t) <==>
      InTimeOrder(order, records, t) && (t != [] ==> NotLater(order, records, x, t[0]))
  {
    hide NotLater;
    var s := [x] + t;
    if InTimeOrder(order, records, s) {
      forall k | 0 < k < |t| ensures NotLater(order, records, t[k - 1], t[k]) {
        assert s[k] == t[k - 1] && s[k + 1] == t[k];
      }
      assert t != [] ==> s[0] == x && s[1] == t[0];
    }
  }

  lemma {:induction false} InsertSorted(order: seq<Uuid>, records: Records, u: Uuid, s: seq<Uuid>)
    requires InTimeOrder(order, records, s)
    ensures InTimeOrder(order, records, Insert(order, records, u, s))
    ensures Insert(order, records, u, s)[0] == u || (s != [] && Insert(order, records, u, s)[0] == s[0])
  {
    hide NotLater, InTimeOrder;
    if s == [] {
      InTimeOrderCons(order, records, u, []);
      InTimeOrderNone(order, records);
      assert [u] + [] == [u];
    } else {
      var t := s[1..];
      assert s == [s[0]] + t;
      InTimeOrderCons(order, records, s[0], t);
      InTimeOrderCons(order, records, u, s);
      if !NotLater(order, records, u, s[0]) {
        NotLaterTotal(order, records, u, s[0]);
        InsertSorted(order, records, u, t);
        InTimeOrderCons(order, records, s[0], Insert(order, records, u, t));
      }
    }
  }

  lemma InTimeOrderNone(order: seq<Uuid>, records: Records)
    ensures InTimeOrder(order, records, [])
  {
  }

  lemma {:induction false} SortedInTimeOrder(order: seq<Uuid>, records: Records, s: seq<Uuid>)
    ensures InTimeOrder(order, records, SortedByTime(order, records, s))
  {
    if s != [] {
      SortedInTimeOrder(order, records, s[1..]);
      InsertSorted(order, records, s[0], SortedByTime(order, records, s[1..]));
    }
  }

  lemma {:induction false} SortedSame(order: seq<Uuid>, records: Records, s: seq<Uuid>)
    ensures forall u :: u in SortedByTime(order, records, s) <==> u in s
    ensures NoDuplicates(s) ==> NoDuplicates(SortedByTime(order, records, s))
    ensures s == [] <==> SortedByTime(order, records, s) == []
  {
    var r := SortedByTime(order, records, s);
    assert forall u :: u in r <==> multiset(r)[u] > 0;
    assert |multiset(r)| == |r| && |multiset(s)| == |s|;
    if NoDuplicates(s) {
      NoDuplicatesOnce(s);
      OnceNoDuplicates(r);
    }
  }

  lemma {:induction false} NoDuplicatesOnce(s: seq<Uuid>)
    requires NoDuplicates(s)
    ensures forall u :: multiset(s)[u] <= 1
  {
    if s != [] {
      NoDuplicatesOnce(s[1..]);
      assert s == [s[0]] + s[1..];
      assert s[0] !in s[1..];
    }
  }

  lemma {:induction false} OnceNoDuplicates(s: seq<Uuid>)
    requires forall u :: multiset(s)[u] <= 1
    ensures NoDuplicates(s)
  {
    if s != [] {
      assert s == [s[0]] + s[1..];
      assert forall u :: multiset(s)[u] == multiset(s[1..])[u] + (if u == s[0] then 1 else 0);
      OnceNoDuplicates(s[1..]);
      assert multiset(s[1..])[s[0]] == 0;
      assert s[0] !in s[1..];
    }
  }

  // ----- What belongs to one message -----

  /** A record of the message `id`: one of its assistant records, or a tool result whose parent is one. */
  predicate BelongsTo(records: Records, u: Uuid, id: string) {
    || IsAssistantOf(records, u, id)
    || (u in records && records[u].kind.UserRecord? && records[u].hasToolResult
        && ParentOf(records[u]).Some? && IsAssistantOf(records, ParentOf(records[u]).value, id))
  }

  lemma BelongsToOne(records: Records, u: Uuid, id: string, id': string)
    requires BelongsTo(records, u, id) && BelongsTo(records, u, id')
    ensures id == id'
  {}

  /** The assistant records a chain assistant is grouped with; an empty id groups it alone. */
  function Group(order: seq<Uuid>, records: Records, id: string, assistant: Uuid): seq<Uuid> {
    if id == "" then [assistant] else Siblings(order, records, id)
  }

  /** The records spliced in for a message: its other assistant records, then their results. */
  function Recovered(order: seq<Uuid>, records: Records, id: string, assistant: Uuid, seen: set<Uuid>): seq<Uuid> {
    var group := Group(order, records, id, assistant);
    SortedByTime(order, records, Without(group, seen))
    + SortedByTime(order, records, Without(ResultsOfAll(order, records, group), seen))
  }

  lemma {:induction false} GroupAre(order: seq<Uuid>, records: Records, id: string, assistant: Uuid)
    requires IsDictionary(order, records) && IsAssistantOf(records, assistant, id)
    ensures var group := Group(order, records, id, assistant);
      && NoDuplicates(group)
      && (forall u :: u in group ==> IsAssistantOf(records, u, id))
      && (id != "" ==> forall u :: IsAssistantOf(records, u, id) ==> u in group)
  {}

  lemma {:induction false} GroupResultsAre(order: seq<Uuid>, records: Records, id: string, assistant: Uuid)
    requires IsDictionary(order, records) && IsAssistantOf(records, assistant, id)
    ensures var group := Group(order, records, id, assistant);
      var results := ResultsOfAll(order, records, group);
      && NoDuplicates(results)
      && (forall u :: u in results ==> BelongsTo(records, u, id) && !IsAssistantOf(records, u, id))
      && (id != "" ==> forall u :: BelongsTo(records, u, id) && !IsAssistantOf(records, u, id) ==> u in results)
  {
    var group := Group(order, records, id, assistant);
    GroupAre(order, records, id, assistant);
    hide Group;
    forall u | id != "" && BelongsTo(records, u, id) && !IsAssistantOf(records, u, id)
      ensures u in ResultsOfAll(order, records, group)
    {
      assert IsResultOf(records, u, ParentOf(records[u]).value);
    }
  }

  /** Everything of the message that was not seen yet, once; for an empty id the results of the one
      assistant. */
  lemma {:induction false} RecoveredAre(order: seq<Uuid>, records: Records, id: string, assistant: Uuid,
      seen: set<Uuid>)
    requires IsDictionary(order, records) && IsAssistantOf(records, assistant, id)
    ensures var r := Recovered(order, records, id, assistant, seen);
      && NoDuplicates(r)
      && (forall u :: u in r ==> BelongsTo(records, u, id) && u !in seen)
      && (id != "" ==> forall u :: u !in seen && BelongsTo(records, u, id) ==> u in r)
  {
    hide Group, BelongsTo, IsAssistantOf, NoDuplicates, SortedByTime;
    var group := Group(order, records, id, assistant);
    var results := ResultsOfAll(order, records, group);
    GroupAre(order, records, id, assistant);
    GroupResultsAre(order, records, id, assistant);
    AssistantBelongs(records, id);
    SortedSame(order, records, Without(group, seen));
    SortedSame(order, records, Without(results, seen));
    NoDuplicatesConcat(SortedByTime(order, records, Without(group, seen)),
      SortedByTime(order, records, Without(results, seen)));
  }

  lemma AssistantBelongs(records: Records, id: string)
    ensures forall u :: IsAssistantOf(records, u, id) ==> BelongsTo(records, u, id)
  {}

  lemma {:induction false} RecoveredForEmptyId(order: seq<Uuid>, records: Records, assistant: Uuid, seen: set<Uuid>)
    requires assistant in seen
    ensures Recovered(order, records, "", assistant, seen) == [] <==>
      Without(ResultsOf(order, records, assistant), seen) == []
  {
    ResultsOfOne(order, records, assistant);
    WithoutAlone(assistant, seen);
    hide SortedByTime, Without, ResultsOf, ResultsOfAll, NoDuplicates, InTimeOrder;
    SortedSame(order, records, Without([assistant], seen));
    SortedSame(order, records, Without(ResultsOf(order, records, assistant), seen));
  }

  lemma ResultsOfOne(order: seq<Uuid>, records: Records, parent: Uuid)
    ensures ResultsOfAll(order, records, [parent]) == ResultsOf(order, records, parent)
  {
    assert [parent][1..] == [];
    assert ResultsOf(order, records, parent) + [] == ResultsOf(order, records, parent);
  }

  lemma WithoutAlone(u: Uuid, seen: set<Uuid>)
    requires u in seen
    ensures Without([u], seen) == []
  {
    assert [u][1..] == [];
  }
}
