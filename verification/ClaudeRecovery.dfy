/** Splicing the parallel branches of a chain's assistant turns back into it, as the code does it
    with four dictionaries, and what the spliced conversation consists of. */
module ClaudeRecovery {
  import opened Options
  import opened Collections
  import opened ClaudeRecords
  import opened ClaudeChain

  type Inserts = map<Uuid, seq<Uuid>>

  function ToSet(s: seq<Uuid>): set<Uuid> { set u | u in s }

  function Assistants(records: Records, chain: seq<Uuid>): (s: seq<Uuid>)
    requires Known(records, chain)
    ensures forall u :: u in s <==> u in chain && records[u].kind.AssistantRecord?
    ensures Known(records, s)
  {
    if chain == [] then []
    else
      assert chain == [chain[0]] + chain[1..];
      if records[chain[0]].kind.AssistantRecord? then [chain[0]] + Assistants(records, chain[1..])
      else Assistants(records, chain[1..])
  }

  /** The first and the last of some records that carry a message id. */
  function FirstWith(records: Records, s: seq<Uuid>, id: string): (r: Option<Uuid>)
    requires Known(records, s)
    ensures r.Some? ==> r.value in s && records[r.value].messageId == Some(id)
    ensures r.None? ==> forall u :: u in s ==> records[u].messageId != Some(id)
  {
    if s == [] then None
    else
      assert s == [s[0]] + s[1..];
      if records[s[0]].messageId == Some(id) then Some(s[0]) else FirstWith(records, s[1..], id)
  }

  function LastWith(records: Records, s: seq<Uuid>, id: string): (r: Option<Uuid>)
    requires Known(records, s)
    ensures r.Some? ==> r.value in s && records[r.value].messageId == Some(id)
    ensures r.None? ==> forall u :: u in s ==> records[u].messageId != Some(id)
  {
    if s == [] then None
    else
      assert s == s[..|s| - 1] + [s[|s| - 1]];
      if records[s[|s| - 1]].messageId == Some(id) then Some(s[|s| - 1]) else LastWith(records, s[..|s| - 1], id)
  }

  /** What goes behind which chain record: behind the last assistant of each message whose id is in
      `ids`, everything of that message the chain does not hold. */
  function PlanFor(order: seq<Uuid>, records: Records, assistants: seq<Uuid>, chain: set<Uuid>,
      ids: set<string>): Inserts
    requires Known(records, assistants)
  {
    map v | v in assistants && IsAnchor(records, assistants, v) && records[v].messageId.value in ids
      && Recovered(order, records, records[v].messageId.value, v, chain) != []
      :: Recovered(order, records, records[v].messageId.value, v, chain)
  }

  predicate IsAnchor(records: Records, assistants: seq<Uuid>, v: Uuid)
    requires Known(records, assistants) && v in assistants
  {
    var id := records[v].messageId;
    id.Some? && id.value != "" && LastWith(records, assistants, id.value) == Some(v)
  }

  function MessageIds(records: Records, assistants: seq<Uuid>): set<string>
    requires Known(records, assistants)
  {
    set a | a in assistants && records[a].messageId.Some? :: records[a].messageId.value
  }

  function Splice(chain: seq<Uuid>, inserts: Inserts): seq<Uuid> {
    if chain == [] then []
    else [chain[0]] + (if chain[0] in inserts then inserts[chain[0]] else []) + Splice(chain[1..], inserts)
  }

  /** A result record the chain lacks hangs from the first chain assistant whose message id is the
      empty text. */
  predicate EmptyIdOrphan(order: seq<Uuid>, records: Records, chain: seq<Uuid>)
    requires Known(records, chain)
  {
    var first := FirstWith(records, Assistants(records, chain), "");
    first.Some? && Without(ResultsOf(order, records, first.value), ToSet(chain)) != []
  }

  // ----- The code -----

  function Get(m: Inserts, key: Uuid): seq<Uuid> {
    if key in m then m[key] else []
  }

  method BuildAnchors(records: Records, assistants: seq<Uuid>) returns (anchors: map<string, Uuid>)
    requires Known(records, assistants)
    ensures forall id :: id in anchors <==> id != "" && LastWith(records, assistants, id).Some?
    ensures forall id :: id in anchors ==> LastWith(records, assistants, id) == Some(anchors[id])
    ensures forall id :: id in anchors ==> IsLastCarrier(records, assistants, id, anchors[id])
  {
    anchors := map[];
    for k := 0 to |assistants|
      invariant Known(records, assistants[..k])
      invariant forall id :: id in anchors <==> id != "" && LastWith(records, assistants[..k], id).Some?
      invariant forall id :: id in anchors ==> LastWith(records, assistants[..k], id) == Some(anchors[id])
    {
      var a := assistants[k];
      assert assistants[..k + 1][..k] == assistants[..k] && assistants[..k + 1][k] == a;
      assert forall u :: u in assistants[..k + 1] ==> u in assistants;
      match records[a].messageId {
        case Some(id) => if id != "" { anchors := anchors[id := a]; }
        case None =>
      }
    }
    assert assistants[..|assistants|] == assistants;
    forall id | id in anchors ensures IsLastCarrier(records, assistants, id, anchors[id]) {
      LastWithIsLast(records, assistants, id);
    }
  }

  /** `v` carries the message id, and no later record of `s` does. */
  ghost predicate IsLastCarrier(records: Records, s: seq<Uuid>, id: string, v: Uuid)
    requires Known(records, s)
  {
    exists k :: 0 <= k < |s| && s[k] == v && records[v].messageId == Some(id) &&
      forall j :: k < j < |s| ==> records[s[j]].messageId != Some(id)
  }

  lemma {:induction false} LastWithIsLast(records: Records, s: seq<Uuid>, id: string)
    requires Known(records, s) && LastWith(records, s, id).Some?
    ensures IsLastCarrier(records, s, id, LastWith(records, s, id).value)
  {
    var n := |s| - 1;
    var v := LastWith(records, s, id).value;
    assert s == s[..n] + [s[n]];
    if records[s[n]].messageId != Some(id) {
      LastWithIsLast(records, s[..n], id);
      var k :| 0 <= k < n && s[..n][k] == v && forall j :: k < j < n ==> records[s[..n][j]].messageId != Some(id);
      assert s[k] == v;
      forall j | k < j < |s| ensures records[s[j]].messageId != Some(id) {
        assert j < n ==> s[..n][j] == s[j];
      }
    }
  }

  lemma {:induction false} SiblingsPush(order: seq<Uuid>, records: Records, u: Uuid, id: string)
    ensures Siblings(order + [u], records, id) ==
      Siblings(order, records, id) + (if IsAssistantOf(records, u, id) then [u] else [])
  {
    if order == [] {
      assert [u][1..] == [] && order + [u] == [u];
    } else {
      assert (order + [u])[1..] == order[1..] + [u];
      SiblingsPush(order[1..], records, u, id);
    }
  }

  lemma {:induction false} ResultsPush(order: seq<Uuid>, records: Records, u: Uuid, parent: Uuid)
    ensures ResultsOf(order + [u], records, parent) ==
      ResultsOf(order, records, parent) + (if IsResultOf(records, u, parent) then [u] else [])
  {
    if order == [] {
      assert [u][1..] == [] && order + [u] == [u];
    } else {
      assert (order + [u])[1..] == order[1..] + [u];
      ResultsPush(order[1..], records, u, parent);
    }
  }

  ghost predicate GroupedSiblings(order: seq<Uuid>, records: Records, siblings: Inserts) {
    && (forall id :: id != "" ==> Get(siblings, id) == Siblings(order, records, id))
    && "" !in siblings
  }

  ghost predicate GroupedResults(order: seq<Uuid>, records: Records, results: Inserts) {
    forall p :: Get(results, p) == ResultsOf(order, records, p)
  }

  lemma {:induction false} GroupSibling(order: seq<Uuid>, records: Records, siblings: Inserts, u: Uuid, id: string)
    requires GroupedSiblings(order, records, siblings) && id != "" && IsAssistantOf(records, u, id)
    ensures GroupedSiblings(order + [u], records, siblings[id := Get(siblings, id) + [u]])
  {
    forall x ensures Siblings(order + [u], records, x) == Siblings(order, records, x) + (if x == id then [u] else []) {
      SiblingsPush(order, records, u, x);
    }
    hide Siblings;
  }

  lemma {:induction false} NoSibling(order: seq<Uuid>, records: Records, siblings: Inserts, u: Uuid)
    requires GroupedSiblings(order, records, siblings) && forall id :: id != "" ==> !IsAssistantOf(records, u, id)
    ensures GroupedSiblings(order + [u], records, siblings)
  {
    forall x | x != "" ensures Siblings(order + [u], records, x) == Siblings(order, records, x) {
      SiblingsPush(order, records, u, x);
    }
    hide Siblings;
  }

  lemma {:induction false} GroupResult(order: seq<Uuid>, records: Records, results: Inserts, u: Uuid, p: Uuid)
    requires GroupedResults(order, records, results) && IsResultOf(records, u, p)
    ensures GroupedResults(order + [u], records, results[p := Get(results, p) + [u]])
  {
    forall x ensures ResultsOf(order + [u], records, x) == ResultsOf(order, records, x) + (if x == p then [u] else []) {
      ResultsPush(order, records, u, x);
    }
    hide ResultsOf;
  }

  lemma {:induction false} NoResult(order: seq<Uuid>, records: Records, results: Inserts, u: Uuid)
    requires GroupedResults(order, records, results) && forall p :: !IsResultOf(records, u, p)
    ensures GroupedResults(order + [u], records, results)
  {
    forall x ensures ResultsOf(order + [u], records, x) == ResultsOf(order, records, x) {
      ResultsPush(order, records, u, x);
    }
    hide ResultsOf;
  }

  /** The two dictionaries over all records: assistants by message id, results by parent. */
  method BuildGroups(order: seq<Uuid>, records: Records) returns (siblings: Inserts, results: Inserts)
    requires IsDictionary(order, records)
    ensures GroupedSiblings(order, records, siblings) && GroupedResults(order, records, results)
  {
    siblings, results := map[], map[];
    assert GroupedSiblings(order[..0], records, siblings) && GroupedResults(order[..0], records, results);
    hide GroupedSiblings, GroupedResults;
    for k := 0 to |order|
      invariant GroupedSiblings(order[..k], records, siblings) && GroupedResults(order[..k], records, results)
    {
      var u := order[k];
      assert order[..k + 1] == order[..k] + [u];
      var record := records[u];
      var parent := ParentOf(record);
      if record.kind.AssistantRecord? && record.messageId.Some? && record.messageId.value != "" {
        var id := record.messageId.value;
        GroupSibling(order[..k], records, siblings, u, id);
        NoResult(order[..k], records, results, u);
        siblings := siblings[id := Get(siblings, id) + [u]];
      } else if record.kind.UserRecord? && parent.Some? && record.hasToolResult {
        GroupResult(order[..k], records, results, u, parent.value);
        NoSibling(order[..k], records, siblings, u);
        results := results[parent.value := Get(results, parent.value) + [u]];
      } else {
        NoSibling(order[..k], records, siblings, u);
        NoResult(order[..k], records, results, u);
      }
    }
    assert order[..|order|] == order;
  }

  /** The results of every member of a group, in group order. */
  method GatherResults(order: seq<Uuid>, records: Records, group: seq<Uuid>, results: Inserts)
      returns (gathered: seq<Uuid>)
    requires GroupedResults(order, records, results)
    ensures gathered == ResultsOfAll(order, records, group)
  {
    hide ResultsOfAll, ResultsOf;
    gathered := [];
    assert group[0..] == group && [] + ResultsOfAll(order, records, group) == ResultsOfAll(order, records, group);
    for k := 0 to |group|
      invariant gathered + ResultsOfAll(order, records, group[k..]) == ResultsOfAll(order, records, group)
    {
      GatherStep(order, records, group, k, gathered);
      gathered := gathered + Get(results, group[k]);
    }
    GatherEnd(order, records, group);
    assert gathered + [] == gathered;
  }

  lemma {:induction false} GatherStep(order: seq<Uuid>, records: Records, group: seq<Uuid>, k: nat, gathered: seq<Uuid>)
    requires k < |group|
    ensures gathered + ResultsOfAll(order, records, group[k..])
      == (gathered + ResultsOf(order, records, group[k])) + ResultsOfAll(order, records, group[k + 1..])
  {
    assert group[k..][0] == group[k] && group[k..][1..] == group[k + 1..];
    hide ResultsOf, NoDuplicates;
  }

  lemma GatherEnd(order: seq<Uuid>, records: Records, group: seq<Uuid>)
    ensures ResultsOfAll(order, records, group[|group|..]) == []
  {}

  /** What has been seen after the messages `ids`: the chain and everything planned for insertion. */
  ghost predicate SeenAre(chain: set<Uuid>, inserts: Inserts, seen: set<Uuid>) {
    forall u :: u in seen <==> u in chain || exists v :: v in inserts && u in inserts[v]
  }

  /** Nothing of a message not yet handled has been planned: filtering by all that was seen is
      filtering by the chain. */
  lemma {:induction false} FreshMessage(order: seq<Uuid>, records: Records, assistants: seq<Uuid>, chain: set<Uuid>,
      ids: set<string>, seen: set<Uuid>, id: string, a: Uuid)
    requires IsDictionary(order, records) && Known(records, assistants)
    requires forall v :: v in assistants ==> records[v].kind.AssistantRecord?
    requires SeenAre(chain, PlanFor(order, records, assistants, chain, ids), seen)
    requires IsAssistantOf(records, a, id) && id !in ids
    ensures Recovered(order, records, id, a, seen) == Recovered(order, records, id, a, chain)
  {
    var plan := PlanFor(order, records, assistants, chain, ids);
    var group := Group(order, records, id, a);
    var results := ResultsOfAll(order, records, group);
    GroupAre(order, records, id, a);
    GroupResultsAre(order, records, id, a);
    hide Group, Siblings, ResultsOfAll, Recovered;
    forall u | BelongsTo(records, u, id) ensures u in seen <==> u in chain {
      if v :| v in plan && u in plan[v] {
        var id' := records[v].messageId.value;
        RecoveredAre(order, records, id', v, chain);
        BelongsToOne(records, u, id, id');
        assert false;
      }
    }
    AssistantBelongs(records, id);
    WithoutSame(group, seen, chain);
    WithoutSame(results, seen, chain);
    RecoveredUnfold(order, records, id, a, seen);
    RecoveredUnfold(order, records, id, a, chain);
  }

  lemma RecoveredUnfold(order: seq<Uuid>, records: Records, id: string, a: Uuid, seen: set<Uuid>)
    ensures var group := Group(order, records, id, a);
      Recovered(order, records, id, a, seen) ==
        SortedByTime(order, records, Without(group, seen)) +
          SortedByTime(order, records, Without(ResultsOfAll(order, records, group), seen))
  {}

  /** Handling one more message extends the plan by what it recovers, if anything. */
  lemma {:induction false} PlanGrows(order: seq<Uuid>, records: Records, assistants: seq<Uuid>, chain: set<Uuid>,
      ids: set<string>, id: string)
    requires Known(records, assistants) && id !in ids && id != "" && LastWith(records, assistants, id).Some?
    ensures var v := LastWith(records, assistants, id).value;
      var r := Recovered(order, records, id, v, chain);
      var plan := PlanFor(order, records, assistants, chain, ids);
      v !in plan && PlanFor(order, records, assistants, chain, ids + {id}) == if r == [] then plan else plan[v := r]
  {
    hide Recovered, LastWith;
  }

  /** The empty message id anchors nothing. */
  lemma {:induction false} PlanSkipsEmptyId(order: seq<Uuid>, records: Records, assistants: seq<Uuid>,
      chain: set<Uuid>, ids: set<string>)
    requires Known(records, assistants)
    ensures PlanFor(order, records, assistants, chain, ids + {""}) == PlanFor(order, records, assistants, chain, ids)
  {
    hide Recovered, LastWith;
  }

  /** The group of one chain assistant, looked up the way the code does. */
  lemma {:induction false} GroupLookedUp(order: seq<Uuid>, records: Records, siblings: Inserts, id: string, a: Uuid)
    requires IsDictionary(order, records) && GroupedSiblings(order, records, siblings) && IsAssistantOf(records, a, id)
    ensures (if id in siblings then siblings[id] else [a]) == Group(order, records, id, a)
  {
    if id != "" {
      assert a in Siblings(order, records, id);
      assert Get(siblings, id) != [];
    }
  }

  lemma {:induction false} AssistantsBefore(records: Records, assistants: seq<Uuid>, k: nat)
    requires Known(records, assistants) && k < |assistants|
    ensures Known(records, assistants[..k]) && Known(records, assistants[..k + 1])
    ensures MessageIds(records, assistants[..k + 1]) ==
      MessageIds(records, assistants[..k]) +
        (if records[assistants[k]].messageId.Some? then {records[assistants[k]].messageId.value} else {})
  {
    assert assistants[..k + 1] == assistants[..k] + [assistants[k]];
    assert forall u :: u in assistants[..k] ==> u in assistants;
    assert forall u :: u in assistants[..k + 1] <==> u in assistants[..k] || u == assistants[k];
  }

  /** The first assistant with the empty id, if the ones before it have none. */
  lemma {:induction false} FirstIsHere(records: Records, assistants: seq<Uuid>, k: nat, id: string)
    requires Known(records, assistants) && k < |assistants| && Known(records, assistants[..k])
    requires records[assistants[k]].messageId == Some(id) && id !in MessageIds(records, assistants[..k])
    ensures FirstWith(records, assistants, id) == Some(assistants[k])
  {
    if k > 0 {
      assert assistants[0] in assistants[..k] && assistants[0] == assistants[..k][0];
      assert assistants[1..][..k - 1] == assistants[..k][1..];
      assert forall u :: u in assistants[1..][..k - 1] ==> u in assistants[..k];
      FirstIsHere(records, assistants[1..], k - 1, id);
    }
  }

  /** The loop over the chain's assistants. */
  method CollectInserts(order: seq<Uuid>, records: Records, chain: seq<Uuid>, assistants: seq<Uuid>,
      anchors: map<string, Uuid>, siblings: Inserts, results: Inserts) returns (inserts: Inserts, failed: bool)
    requires IsDictionary(order, records) && Known(records, chain) && assistants == Assistants(records, chain)
    requires forall id :: id in anchors <==> id != "" && LastWith(records, assistants, id).Some?
    requires forall id :: id in anchors ==> LastWith(records, assistants, id) == Some(anchors[id])
    requires GroupedSiblings(order, records, siblings) && GroupedResults(order, records, results)
    ensures failed <==> EmptyIdOrphan(order, records, chain)
    ensures !failed ==> inserts == PlanFor(order, records, assistants, ToSet(chain), MessageIds(records, assistants))
  {
    hide Recovered, LastWith, FirstWith, Siblings, ResultsOf, ResultsOfAll, Group, PlanFor, SortedByTime, Without,
      EmptyIdOrphan, Assistants,
      GroupedSiblings, GroupedResults, IsDictionary, MessageIds, SeenAre;
    var processed: set<string> := {};
    var seen := ToSet(chain);
    inserts := map[];
    CollectStart(order, records, assistants, chain);
    for k := 0 to |assistants|
      invariant Known(records, assistants[..k]) && processed == MessageIds(records, assistants[..k])
      invariant inserts == PlanFor(order, records, assistants, ToSet(chain), processed)
      invariant SeenAre(ToSet(chain), inserts, seen)
      invariant "" in processed ==> !EmptyIdOrphan(order, records, chain)
    {
      var a := assistants[k];
      AssistantsBefore(records, assistants, k);
      if records[a].messageId.None? || records[a].messageId.value in processed {
        ProcessedAgain(processed, records[a].messageId);
        continue;
      }
      var id := records[a].messageId.value;
      var group := if id in siblings then siblings[id] else [a];
      GroupLookedUp(order, records, siblings, id, a);
      var gathered := GatherResults(order, records, group, results);
      var recovered := SortedByTime(order, records, Without(group, seen)) +
        SortedByTime(order, records, Without(gathered, seen));
      RecoveredUnfold(order, records, id, a, seen);
      FreshMessage(order, records, assistants, ToSet(chain), processed, seen, id, a);
      if id == "" {
        FirstIsHere(records, assistants, k, id);
        EmptyIdHere(order, records, chain, a);
        PlanSkipsEmptyId(order, records, assistants, ToSet(chain), processed);
        if recovered != [] {
          return inserts, true;
        }
      } else {
        AnchorThere(records, assistants, id, a);
        PlanGrows(order, records, assistants, ToSet(chain), processed, id);
        RecoveredAnyAssistant(order, records, id, a, anchors[id], ToSet(chain));
        if recovered != [] {
          SeenGrows(ToSet(chain), inserts, seen, anchors[id], recovered);
          inserts := inserts[anchors[id] := recovered];
          seen := seen + ToSet(recovered);
        }
      }
      processed := processed + {id};
    }
    assert assistants[..|assistants|] == assistants;
    NoEmptyId(order, records, chain, processed);
    return inserts, false;
  }

  lemma ProcessedAgain(processed: set<string>, id: Option<string>)
    requires id.None? || id.value in processed
    ensures processed + (if id.Some? then {id.value} else {}) == processed
  {}

  lemma CollectStart(order: seq<Uuid>, records: Records, assistants: seq<Uuid>, chain: seq<Uuid>)
    requires Known(records, assistants)
    ensures Known(records, assistants[..0]) && MessageIds(records, assistants[..0]) == {}
    ensures PlanFor(order, records, assistants, ToSet(chain), {}) == map[]
    ensures SeenAre(ToSet(chain), map[], ToSet(chain))
  {}

  lemma {:induction false} EmptyIdHere(order: seq<Uuid>, records: Records, chain: seq<Uuid>, a: Uuid)
    requires Known(records, chain) && a in Assistants(records, chain)
    requires FirstWith(records, Assistants(records, chain), "") == Some(a)
    ensures EmptyIdOrphan(order, records, chain) <==> Recovered(order, records, "", a, ToSet(chain)) != []
  {
    hide Recovered, FirstWith, Assistants, Without, ResultsOf;
    assert a in ToSet(chain);
    RecoveredForEmptyId(order, records, a, ToSet(chain));
  }

  lemma {:induction false} AnchorThere(records: Records, assistants: seq<Uuid>, id: string, a: Uuid)
    requires Known(records, assistants) && a in assistants && records[a].messageId == Some(id)
    ensures LastWith(records, assistants, id).Some?
  {
    hide LastWith;
  }

  lemma RecoveredAnyAssistant(order: seq<Uuid>, records: Records, id: string, a: Uuid, b: Uuid, seen: set<Uuid>)
    requires id != ""
    ensures Recovered(order, records, id, a, seen) == Recovered(order, records, id, b, seen)
  {}

  lemma {:induction false} SeenGrows(chain: set<Uuid>, inserts: Inserts, seen: set<Uuid>, v: Uuid, recovered: seq<Uuid>)
    requires SeenAre(chain, inserts, seen) && v !in inserts
    ensures SeenAre(chain, inserts[v := recovered], seen + ToSet(recovered))
  {
    var more := inserts[v := recovered];
    forall u ensures u in seen + ToSet(recovered) <==> u in chain || exists w :: w in more && u in more[w] {
      if w :| w in inserts && u in inserts[w] {
        assert w in more && u in more[w];
      }
      if u in recovered {
        assert v in more && u in more[v];
      }
    }
  }

  lemma {:induction false} NoEmptyId(order: seq<Uuid>, records: Records, chain: seq<Uuid>, processed: set<string>)
    requires Known(records, chain) && processed == MessageIds(records, Assistants(records, chain))
    requires "" in processed ==> !EmptyIdOrphan(order, records, chain)
    ensures !EmptyIdOrphan(order, records, chain)
  {
    hide FirstWith, Assistants, Without, ResultsOf;
    var first := FirstWith(records, Assistants(records, chain), "");
    if first.Some? {
      assert "" in processed;
    }
  }

  lemma {:induction false} SpliceStep(chain: seq<Uuid>, inserts: Inserts, k: nat, spliced: seq<Uuid>)
    requires k < |chain|
    ensures spliced + Splice(chain[k..], inserts) ==
      (spliced + [chain[k]] + Get(inserts, chain[k])) + Splice(chain[k + 1..], inserts)
  {
    assert chain[k..][0] == chain[k] && chain[k..][1..] == chain[k + 1..];
  }

  method OutputSpliced(chain: seq<Uuid>, inserts: Inserts) returns (spliced: seq<Uuid>)
    ensures spliced == Splice(chain, inserts)
  {
    spliced := [];
    assert chain[0..] == chain && [] + Splice(chain, inserts) == Splice(chain, inserts);
    for k := 0 to |chain|
      invariant spliced + Splice(chain[k..], inserts) == Splice(chain, inserts)
    {
      SpliceStep(chain, inserts, k, spliced);
      spliced := spliced + [chain[k]] + Get(inserts, chain[k]);
    }
    assert Splice(chain[|chain|..], inserts) == [];
  }

  /** What the recovery of a chain inserts, and where. */
  ghost function FullPlan(order: seq<Uuid>, records: Records, chain: seq<Uuid>): Inserts
    requires Known(records, chain)
  {
    var assistants := Assistants(records, chain);
    PlanFor(order, records, assistants, ToSet(chain), MessageIds(records, assistants))
  }

  ghost function RecoveredChain(order: seq<Uuid>, records: Records, chain: seq<Uuid>): Outcome
    requires Known(records, chain)
  {
    if EmptyIdOrphan(order, records, chain) then KeyError("") else Chain(Splice(chain, FullPlan(order, records, chain)))
  }

  method RecoverParallel(order: seq<Uuid>, records: Records, chain: seq<Uuid>) returns (outcome: Outcome)
    requires IsDictionary(order, records) && Known(records, chain)
    ensures outcome == RecoveredChain(order, records, chain)
  {
    hide PlanFor, Recovered, LastWith, Without, ResultsOf;
    var assistants := Assistants(records, chain);
    if assistants == [] {
      SpliceNothing(chain, FullPlan(order, records, chain)) by {
        NoPlanWithoutAssistants(order, records, chain);
      }
      assert !EmptyIdOrphan(order, records, chain);
      return Chain(chain);
    }
    var anchors := BuildAnchors(records, assistants);
    var siblings, results := BuildGroups(order, records);
    var inserts, failed := CollectInserts(order, records, chain, assistants, anchors, siblings, results);
    if failed {
      return KeyError("");
    }
    var spliced := OutputSpliced(chain, inserts);
    return Chain(spliced);
  }

  lemma NoPlanWithoutAssistants(order: seq<Uuid>, records: Records, chain: seq<Uuid>)
    requires Known(records, chain) && Assistants(records, chain) == []
    ensures FullPlan(order, records, chain) == map[]
  {}

  lemma {:induction false} SpliceNothing(chain: seq<Uuid>, inserts: Inserts)
    requires inserts == map[]
    ensures Splice(chain, inserts) == chain
  {
    if chain != [] {
      SpliceNothing(chain[1..], inserts);
    }
  }

  /** The conversation of a leaf: its parent chain with the parallel branches spliced in. */
  method ClaudeChainOf(order: seq<Uuid>, records: Records, leaf: Uuid) returns (chain: seq<Uuid>, outcome: Outcome)
    requires IsDictionary(order, records) && leaf in records
    ensures IsChainUp(records, leaf, Reversed(chain)) && NoDuplicates(chain) && Known(records, chain)
    ensures outcome == RecoveredChain(order, records, chain)
  {
    chain := WalkChain(records, leaf);
    ReversedFacts(records, leaf, chain);
    outcome := RecoverParallel(order, records, chain);
  }

  lemma {:induction false} ReversedFacts(records: Records, leaf: Uuid, chain: seq<Uuid>)
    requires IsChainUp(records, leaf, Reversed(chain))
    ensures NoDuplicates(chain) && Known(records, chain)
  {
    var up := Reversed(chain);
    forall k | 0 <= k < |chain| ensures chain[k] == up[|chain| - 1 - k] && chain[k] in records {
      assert up[|chain| - 1 - k] in up;
    }
    forall i, j | 0 <= i < j < |chain| ensures chain[i] != chain[j] {
      assert up[|chain| - 1 - j] != up[|chain| - 1 - i];
    }
  }

  // ----- Main results -----

  /** A record of a message one of the chain's assistants belongs to. */
  predicate OfChainMessage(records: Records, chain: seq<Uuid>, u: Uuid)
    requires Known(records, chain)
  {
    exists id :: id in MessageIds(records, Assistants(records, chain)) && id != "" && BelongsTo(records, u, id)
  }

  lemma {:induction false} SpliceMembers(chain: seq<Uuid>, inserts: Inserts)
    ensures forall u :: u in Splice(chain, inserts) <==>
      u in chain || exists v :: v in chain && v in inserts && u in inserts[v]
  {
    if chain != [] {
      SpliceMembers(chain[1..], inserts);
      assert chain == [chain[0]] + chain[1..];
    }
  }

  ghost predicate DisjointInserts(chain: set<Uuid>, inserts: Inserts) {
    && (forall v :: v in inserts ==> NoDuplicates(inserts[v]))
    && (forall v, u :: v in inserts && u in inserts[v] ==> u !in chain)
    && (forall v, w, u :: v in inserts && w in inserts && u in inserts[v] && u in inserts[w] ==> v == w)
  }

  lemma {:induction false} SpliceDistinct(chain: seq<Uuid>, all: set<Uuid>, inserts: Inserts)
    requires NoDuplicates(chain) && DisjointInserts(all, inserts) && forall u :: u in chain ==> u in all
    ensures NoDuplicates(Splice(chain, inserts))
  {
    if chain != [] {
      var u, rest := chain[0], chain[1..];
      assert chain == [u] + rest;
      assert u !in rest;
      SpliceDistinct(rest, all, inserts);
      SpliceMembers(rest, inserts);
      var own := if u in inserts then inserts[u] else [];
      assert forall x :: x in own ==> x !in all;
      NoDuplicatesConcat([u], own);
      hide Splice, NoDuplicates;
      forall x | x in [u] + own ensures x !in Splice(rest, inserts) {
        if x in own {
          assert forall v :: v in inserts && x in inserts[v] ==> v == u;
        } else {
          assert x == u && u in chain && u in all;
        }
      }
      NoDuplicatesConcat([u] + own, Splice(rest, inserts));
    }
  }

  lemma {:induction false} OnlyConcat(s: seq<Uuid>, t: seq<Uuid>, all: set<Uuid>)
    ensures Only(s + t, all) == Only(s, all) + Only(t, all)
  {
    if s == [] {
      assert s + t == t;
    } else {
      assert (s + t)[1..] == s[1..] + t;
      OnlyConcat(s[1..], t, all);
    }
  }

  lemma {:induction false} OnlyNone(s: seq<Uuid>, all: set<Uuid>)
    requires forall u :: u in s ==> u !in all
    ensures Only(s, all) == []
  {
    if s != [] {
      assert s == [s[0]] + s[1..];
      OnlyNone(s[1..], all);
    }
  }

  lemma {:induction false} SpliceKeepsChain(chain: seq<Uuid>, all: set<Uuid>, inserts: Inserts)
    requires DisjointInserts(all, inserts) && forall u :: u in chain ==> u in all
    ensures Only(Splice(chain, inserts), all) == chain
  {
    if chain != [] {
      var u, rest := chain[0], chain[1..];
      assert chain == [u] + rest;
      SpliceKeepsChain(rest, all, inserts);
      var own := if u in inserts then inserts[u] else [];
      hide DisjointInserts;
      OnlyNone(own, all) by { assert DisjointInserts(all, inserts); }
      OnlyConcat([u] + own, Splice(rest, inserts), all);
      OnlyConcat([u], own, all);
      assert [u][1..] == [];
      assert Only([u], all) == [u];
    }
  }

  lemma {:induction false} PlanIsDisjoint(order: seq<Uuid>, records: Records, chain: seq<Uuid>)
    requires IsDictionary(order, records) && Known(records, chain)
    ensures DisjointInserts(ToSet(chain), FullPlan(order, records, chain))
  {
    hide Recovered, LastWith, BelongsTo, Assistants;
    var assistants, plan := Assistants(records, chain), FullPlan(order, records, chain);
    forall v | v in plan
      ensures NoDuplicates(plan[v])
      ensures forall u :: u in plan[v] ==> u !in ToSet(chain) && BelongsTo(records, u, records[v].messageId.value)
    {
      RecoveredAre(order, records, records[v].messageId.value, v, ToSet(chain));
    }
    forall v, w, u | v in plan && w in plan && u in plan[v] && u in plan[w] ensures v == w {
      BelongsToOne(records, u, records[v].messageId.value, records[w].messageId.value);
    }
  }

  lemma {:induction false} PlanMembers(order: seq<Uuid>, records: Records, chain: seq<Uuid>, u: Uuid)
    requires IsDictionary(order, records) && Known(records, chain)
    ensures (exists v :: v in FullPlan(order, records, chain) && u in FullPlan(order, records, chain)[v])
      <==> u !in chain && OfChainMessage(records, chain, u)
  {
    hide Recovered, LastWith, BelongsTo, Assistants;
    var assistants, plan := Assistants(records, chain), FullPlan(order, records, chain);
    if v :| v in plan && u in plan[v] {
      RecoveredAre(order, records, records[v].messageId.value, v, ToSet(chain));
      assert u !in ToSet(chain);
    }
    if u !in chain && OfChainMessage(records, chain, u) {
      var id :| id in MessageIds(records, assistants) && id != "" && BelongsTo(records, u, id);
      var a :| a in assistants && records[a].messageId == Some(id);
      AnchorThere(records, assistants, id, a);
      var v := LastWith(records, assistants, id).value;
      RecoveredAre(order, records, id, v, ToSet(chain));
      assert u in Recovered(order, records, id, v, ToSet(chain));
      assert v in plan && plan[v] == Recovered(order, records, id, v, ToSet(chain));
    }
  }

  /** The rebuilt conversation lists no record twice, keeps the chain as an ordered subsequence, and
      holds exactly the chain and every record of a message a chain assistant belongs to: its other
      assistant records and the tool results that hang from them. */
  lemma {:induction false} RecoveryComplete(order: seq<Uuid>, records: Records, chain: seq<Uuid>)
    requires IsDictionary(order, records) && Known(records, chain) && NoDuplicates(chain)
    requires RecoveredChain(order, records, chain).Chain?
    ensures var out := RecoveredChain(order, records, chain).uuids;
      && NoDuplicates(out)
      && Only(out, ToSet(chain)) == chain
      && forall u :: u in out <==> u in chain || OfChainMessage(records, chain, u)
  {
    hide FullPlan, Splice, EmptyIdOrphan, OfChainMessage, DisjointInserts;
    var plan := FullPlan(order, records, chain);
    PlanIsDisjoint(order, records, chain);
    SpliceDistinct(chain, ToSet(chain), plan);
    SpliceKeepsChain(chain, ToSet(chain), plan);
    SpliceMembers(chain, plan);
    forall u ensures u in Splice(chain, plan) <==> u in chain || OfChainMessage(records, chain, u) {
      PlanMembers(order, records, chain, u);
      PlanKeysInChain(order, records, chain);
    }
  }

  lemma PlanKeysInChain(order: seq<Uuid>, records: Records, chain: seq<Uuid>)
    requires Known(records, chain)
    ensures forall v :: v in FullPlan(order, records, chain) ==> v in chain
  {}

  /** The first assistant of the chain with this message id is at `k`. */
  ghost predicate FirstAt(records: Records, chain: seq<Uuid>, id: string, k: int) {
    && 0 <= k < |chain| && IsAssistantOf(records, chain[k], id)
    && forall j :: 0 <= j < k ==> !IsAssistantOf(records, chain[j], id)
  }

  /** The rebuild fails exactly when a chain assistant carries the empty text as message id and the
      first such one has a tool result outside the chain. */
  lemma {:induction false} RecoveryFailsIff(order: seq<Uuid>, records: Records, chain: seq<Uuid>)
    requires Known(records, chain)
    ensures RecoveredChain(order, records, chain).KeyError? <==>
      exists k, u :: FirstAt(records, chain, "", k) && u in order && u !in chain && IsResultOf(records, u, chain[k])
  {
    FirstByPosition(records, chain, "");
    var first := FirstWith(records, Assistants(records, chain), "");
    hide FirstWith, Assistants;
    if first.Some? {
      var results := ResultsOf(order, records, first.value);
      if Without(results, ToSet(chain)) != [] {
        var u := Without(results, ToSet(chain))[0];
        assert u in Without(results, ToSet(chain));
      }
    }
  }

  lemma {:induction false} FirstByPosition(records: Records, chain: seq<Uuid>, id: string)
    requires Known(records, chain)
    ensures var first := FirstWith(records, Assistants(records, chain), id);
      && (first.None? ==> forall k :: 0 <= k < |chain| ==> !IsAssistantOf(records, chain[k], id))
      && (first.Some? ==> exists k :: FirstAt(records, chain, id, k) && chain[k] == first.value)
  {
    if chain != [] {
      assert chain == [chain[0]] + chain[1..];
      FirstByPosition(records, chain[1..], id);
      var rest := Assistants(records, chain[1..]);
      if IsAssistantOf(records, chain[0], id) {
        assert ([chain[0]] + rest)[0] == chain[0];
        assert FirstAt(records, chain, id, 0);
      } else {
        assert ([chain[0]] + rest)[1..] == rest;
        var first := FirstWith(records, rest, id);
        assert FirstWith(records, Assistants(records, chain), id) == first;
        if first.Some? {
          var k :| FirstAt(records, chain[1..], id, k) && chain[1..][k] == first.value;
          assert forall j :: 0 < j < k + 1 ==> chain[j] == chain[1..][j - 1];
          assert chain[k + 1] == first.value;
          assert FirstAt(records, chain, id, k + 1);
        }
      }
    }
  }

  /** The smallest transcript that raises the error: an assistant whose message id is the empty text,
      and a tool result hanging from it; the chain of the assistant lacks the result. */
  lemma KeyErrorWitness()
    ensures var order := ["a", "r"];
      var records := map[
        "a" := Record(AssistantRecord, None, None, Some(""), false, "", [], NoBoundary),
        "r" := Record(UserRecord, Some("a"), None, None, true, "", [], NoBoundary)];
      IsDictionary(order, records) && IsChainUp(records, "a", ["a"]) && Known(records, ["a"]) &&
        RecoveredChain(order, records, ["a"]).KeyError?
  {
    var order := ["a", "r"];
    var records := map[
      "a" := Record(AssistantRecord, None, None, Some(""), false, "", [], NoBoundary),
      "r" := Record(UserRecord, Some("a"), None, None, true, "", [], NoBoundary)];
    assert Known(records, ["a"]);
    assert order[1] == "r" && IsResultOf(records, "r", "a");
    assert FirstAt(records, ["a"], "", 0);
    RecoveryFailsIff(order, records, ["a"]);
  }
}
