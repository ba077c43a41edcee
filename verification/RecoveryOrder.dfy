/** Where the recovered branches go in the rebuilt conversation, and in which order. */
module RecoveryOrder {
  import opened Options
  import opened Collections
  import opened ClaudeRecords
  import opened ClaudeChain
  import opened ClaudeRecovery

  // ----- Time order in plain terms -----

  /** Text order: smaller at the first difference, or a proper beginning of the other text. */
  ghost predicate TextBefore(a: string, b: string) {
    exists n: nat :: DiffersAt(a, b, n)
  }

  predicate DiffersAt(a: string, b: string, n: nat) {
    n <= |a| && n < |b| && a[..n] == b[..n] && (n < |a| ==> a[n] < b[n])
  }

  lemma {:induction false} TextLessIff(a: string, b: string)
    ensures TextLess(a, b) <==> TextBefore(a, b)
  {
    forall n | 0 < n <= |a| && n < |b| && a[..n] == b[..n] ensures a[0] == b[0] {
      assert a[..n][0] == b[..n][0];
    }
    if b == "" {
    } else if a == "" || a[0] < b[0] {
      assert DiffersAt(a, b, 0);
    } else if a[0] == b[0] {
      TextLessIff(a[1..], b[1..]);
      if n: nat :| DiffersAt(a[1..], b[1..], n) {
        assert a[..n + 1] == [a[0]] + a[1..][..n] && b[..n + 1] == [b[0]] + b[1..][..n];
        assert DiffersAt(a, b, n + 1);
      }
      if n: nat :| DiffersAt(a, b, n) {
        assert n > 0;
        assert a[1..][..n - 1] == a[..n][1..] && b[1..][..n - 1] == b[..n][1..];
        assert DiffersAt(a[1..], b[1..], n - 1);
      }
    }
  }

  /** The records come by timestamp, and those with the same timestamp as the transcript lists them. */
  ghost predicate Chronological(order: seq<Uuid>, records: Records, s: seq<Uuid>)
    requires Known(records, s)
  {
    forall i, j :: 0 <= i < j < |s| ==>
      var t, w := records[s[i]].timestamp, records[s[j]].timestamp;
      TextBefore(t, w) || (t == w && ListedBefore(order, s[i], s[j]))
  }

  lemma {:induction false} TextLessTransitive(a: string, b: string, c: string)
    requires TextLess(a, b) && TextLess(b, c)
    ensures TextLess(a, c)
  {
    if a != "" && a[0] == b[0] && b[0] == c[0] {
      TextLessTransitive(a[1..], b[1..], c[1..]);
    }
  }

  lemma {:induction false} NotLaterTransitive(order: seq<Uuid>, records: Records, u: Uuid, v: Uuid, w: Uuid)
    requires NotLater(order, records, u, v) && NotLater(order, records, v, w)
    ensures NotLater(order, records, u, w)
  {
    var a := if u in records then records[u].timestamp else "";
    var b := if v in records then records[v].timestamp else "";
    var c := if w in records then records[w].timestamp else "";
    hide TextLess, Position;
    if TextLess(a, b) && TextLess(b, c) {
      TextLessTransitive(a, b, c);
    }
  }

  lemma {:induction false} PositionIs(order: seq<Uuid>, u: Uuid)
    requires u in order
    ensures 0 <= Position(order, u) < |order| && order[Position(order, u)] == u
  {
    if order[0] != u {
      assert order == [order[0]] + order[1..];
      PositionIs(order[1..], u);
    }
  }

  lemma {:induction false} InTimeOrderFar(order: seq<Uuid>, records: Records, s: seq<Uuid>, i: nat, j: nat)
    requires InTimeOrder(order, records, s) && i < j < |s|
    ensures NotLater(order, records, s[i], s[j])
  {
    hide NotLater;
    if i < j - 1 {
      InTimeOrderFar(order, records, s, i, j - 1);
      NotLaterTransitive(order, records, s[i], s[j - 1], s[j]);
    }
  }

  lemma {:induction false} SortedChronological(order: seq<Uuid>, records: Records, s: seq<Uuid>)
    requires IsDictionary(order, records) && Known(records, s) && NoDuplicates(s)
    ensures var r := SortedByTime(order, records, s);
      NoDuplicates(r) && Known(records, r) && (forall u :: u in r <==> u in s) && Chronological(order, records, r)
  {
    var r := SortedByTime(order, records, s);
    SortedSame(order, records, s);
    SortedInTimeOrder(order, records, s);
    hide SortedByTime, InTimeOrder, TextLess, TextBefore, Position;
    forall i, j | 0 <= i < j < |r|
      ensures var t, w := records[r[i]].timestamp, records[r[j]].timestamp;
        TextBefore(t, w) || (t == w && ListedBefore(order, r[i], r[j]))
    {
      var u, v := r[i], r[j];
      InTimeOrderFar(order, records, r, i, j);
      TextLessIff(records[u].timestamp, records[v].timestamp);
      PositionIs(order, u);
      PositionIs(order, v);
      assert Position(order, u) != Position(order, v);
    }
  }

  // ----- The place behind a chain record -----

  /** `out` lists `u` at `p`, and `own` right behind it. */
  predicate HasBlock(out: seq<Uuid>, p: nat, u: Uuid, own: seq<Uuid>) {
    p + 1 + |own| <= |out| && out[p] == u && out[p + 1..p + 1 + |own|] == own
  }

  lemma {:induction false} SpliceAt(chain: seq<Uuid>, inserts: Inserts, i: nat) returns (p: nat)
    requires i < |chain|
    ensures HasBlock(Splice(chain, inserts), p, chain[i], Get(inserts, chain[i]))
  {
    var first := [chain[0]] + Get(inserts, chain[0]);
    var rest := Splice(chain[1..], inserts);
    assert Splice(chain, inserts) == first + rest;
    hide Splice, Get, HasBlock;
    if i == 0 {
      p := 0;
      BlockFirst(chain[0], Get(inserts, chain[0]), rest);
    } else {
      var q := SpliceAt(chain[1..], inserts, i - 1);
      p := |first| + q;
      BlockLater(first, rest, q, chain[i], Get(inserts, chain[i]));
    }
  }

  lemma BlockFirst(u: Uuid, own: seq<Uuid>, rest: seq<Uuid>)
    ensures HasBlock([u] + own + rest, 0, u, own)
  {
  }

  lemma BlockLater(first: seq<Uuid>, rest: seq<Uuid>, q: nat, u: Uuid, own: seq<Uuid>)
    requires HasBlock(rest, q, u, own)
    ensures HasBlock(first + rest, |first| + q, u, own)
  {
  }

  /** The last assistant of the message `id` on the chain is at `i`. */
  ghost predicate LastAt(records: Records, chain: seq<Uuid>, id: string, i: nat) {
    && i < |chain| && IsAssistantOf(records, chain[i], id)
    && forall j :: i < j < |chain| ==> !IsAssistantOf(records, chain[j], id)
  }

  lemma {:induction false} AssistantsPush(records: Records, s: seq<Uuid>, u: Uuid)
    requires Known(records, s + [u]) && Known(records, s)
    ensures Assistants(records, s + [u]) ==
      Assistants(records, s) + (if records[u].kind.AssistantRecord? then [u] else [])
  {
    if s == [] {
      assert [u][1..] == [] && s + [u] == [u];
      assert u in s + [u];
    } else {
      assert (s + [u])[1..] == s[1..] + [u];
      assert forall x :: x in s[1..] ==> x in s;
      assert forall x :: x in s[1..] + [u] ==> x in s + [u];
      AssistantsPush(records, s[1..], u);
    }
  }

  lemma {:induction false} LastWithPush(records: Records, s: seq<Uuid>, u: Uuid, id: string)
    requires Known(records, s + [u]) && Known(records, s) && u in records
    ensures LastWith(records, s + [u], id) ==
      if records[u].messageId == Some(id) then Some(u) else LastWith(records, s, id)
  {
    assert (s + [u])[..|s|] == s;
  }

  /** The anchor of a message is its last assistant on the chain. */
  lemma {:induction false} AnchorIsLast(records: Records, chain: seq<Uuid>, id: string, i: nat)
    requires Known(records, chain) && LastAt(records, chain, id, i)
    ensures LastWith(records, Assistants(records, chain), id) == Some(chain[i])
    decreases |chain|
  {
    var n := |chain| - 1;
    var s, u := chain[..n], chain[n];
    assert chain == s + [u];
    assert forall x :: x in s ==> x in chain;
    assert u in chain;
    AssistantsPush(records, s, u);
    hide Assistants, LastWith;
    if records[u].kind.AssistantRecord? {
      LastWithPush(records, Assistants(records, s), u, id);
    }
    if i < n {
      assert Assistants(records, s) + [] == Assistants(records, s);
      AnchorIsLast(records, s, id, i);
    }
  }

  lemma {:induction false} PlannedAt(order: seq<Uuid>, records: Records, chain: seq<Uuid>, id: string, i: nat)
    requires Known(records, chain) && LastAt(records, chain, id, i) && id != ""
    ensures Get(FullPlan(order, records, chain), chain[i]) == Recovered(order, records, id, chain[i], ToSet(chain))
  {
    hide Assistants, LastWith, Recovered;
    AnchorIsLast(records, chain, id, i);
    assert chain[i] in Assistants(records, chain);
  }

  // ----- Main result -----

  /** What a message recovers: its assistants, then the tool results hanging from them, each in time
      order, and each all there is off the chain. */
  ghost predicate IsBranch(order: seq<Uuid>, records: Records, chain: seq<Uuid>, id: string, assistants: seq<Uuid>,
      results: seq<Uuid>)
  {
    && Known(records, assistants) && Known(records, results)
    && (forall u :: u in assistants <==> u !in chain && IsAssistantOf(records, u, id))
    && (forall u :: u in results <==> u !in chain && BelongsTo(records, u, id) && !IsAssistantOf(records, u, id))
    && Chronological(order, records, assistants) && Chronological(order, records, results)
  }

  /** Some known records less the chain, in time order. */
  lemma {:induction false} SortedOffChain(order: seq<Uuid>, records: Records, chain: seq<Uuid>, s: seq<Uuid>)
    requires IsDictionary(order, records) && NoDuplicates(s) && Known(records, s)
    ensures var r := SortedByTime(order, records, Without(s, ToSet(chain)));
      && Known(records, r) && Chronological(order, records, r)
      && forall u :: u in r <==> u in s && u !in chain
  {
    hide SortedByTime, Chronological, NoDuplicates, IsDictionary;
    SortedChronological(order, records, Without(s, ToSet(chain)));
  }

  lemma {:induction false} RecoveredIsBranch(order: seq<Uuid>, records: Records, chain: seq<Uuid>, id: string,
      a: Uuid) returns (assistants: seq<Uuid>, results: seq<Uuid>)
    requires IsDictionary(order, records) && IsAssistantOf(records, a, id) && id != ""
    ensures IsBranch(order, records, chain, id, assistants, results)
    ensures Recovered(order, records, id, a, ToSet(chain)) == assistants + results
  {
    hide Group, ResultsOfAll, Recovered, SortedByTime, IsAssistantOf, BelongsTo, Chronological, NoDuplicates, Without,
      IsDictionary, ToSet;
    var group := Group(order, records, id, a);
    var gathered := ResultsOfAll(order, records, group);
    GroupFacts(order, records, id, a);
    RecoveredUnfold(order, records, id, a, ToSet(chain));
    SortedOffChain(order, records, chain, group);
    SortedOffChain(order, records, chain, gathered);
    assistants := SortedByTime(order, records, Without(group, ToSet(chain)));
    results := SortedByTime(order, records, Without(gathered, ToSet(chain)));
  }

  lemma GroupFacts(order: seq<Uuid>, records: Records, id: string, a: Uuid)
    requires IsDictionary(order, records) && IsAssistantOf(records, a, id) && id != ""
    ensures var group := Group(order, records, id, a); var gathered := ResultsOfAll(order, records, group);
      && NoDuplicates(group) && Known(records, group) && NoDuplicates(gathered) && Known(records, gathered)
      && (forall u :: u in group <==> IsAssistantOf(records, u, id))
      && forall u :: u in gathered <==> BelongsTo(records, u, id) && !IsAssistantOf(records, u, id)
  {
    GroupAre(order, records, id, a);
    GroupResultsAre(order, records, id, a);
    BelongingKnown(records, id);
    AssistantBelongs(records, id);
    hide Group, ResultsOfAll, IsAssistantOf, BelongsTo, NoDuplicates;
  }

  lemma BelongingKnown(records: Records, id: string)
    ensures forall u :: BelongsTo(records, u, id) ==> u in records
  {
  }

  /** The branches go right behind the last assistant of their message on the chain: there, and nowhere
      else, stands all of the message that is off the chain. */
  lemma {:induction false} BranchPlaced(order: seq<Uuid>, records: Records, chain: seq<Uuid>, id: string, i: nat)
    returns (p: nat, assistants: seq<Uuid>, results: seq<Uuid>)
    requires IsDictionary(order, records) && Known(records, chain) && NoDuplicates(chain)
    requires RecoveredChain(order, records, chain).Chain? && LastAt(records, chain, id, i) && id != ""
    ensures IsBranch(order, records, chain, id, assistants, results)
    ensures var out, n := RecoveredChain(order, records, chain).uuids, |assistants| + |results|;
      && HasBlock(out, p, chain[i], assistants + results)
      && forall q :: 0 <= q < |out| ==> (p < q <= p + n <==> out[q] !in chain && BelongsTo(records, out[q], id))
  {
    hide Splice, FullPlan, EmptyIdOrphan, Recovered, OfChainMessage, IsAssistantOf, BelongsTo, Chronological, Get, Only,
      ToSet, IsDictionary, NoDuplicates;
    var plan := FullPlan(order, records, chain);
    var out := Splice(chain, plan);
    RecoveryComplete(order, records, chain);
    PlannedAt(order, records, chain, id, i);
    assistants, results := RecoveredIsBranch(order, records, chain, id, chain[i]);
    p := SpliceAt(chain, plan, i);
    AssistantBelongs(records, id);
    BlockIsAll(records, chain, id, out, p, assistants + results);
  }

  /** A block holding all of some kind, in a sequence without duplicates, holds every place of it. */
  lemma {:induction false} BlockIsAll(records: Records, chain: seq<Uuid>, id: string, out: seq<Uuid>, p: nat,
      block: seq<Uuid>)
    requires NoDuplicates(out) && p + 1 + |block| <= |out| && out[p + 1..p + 1 + |block|] == block
    requires forall u :: u in block <==> u !in chain && BelongsTo(records, u, id)
    ensures forall q :: 0 <= q < |out| ==>
      (p < q <= p + |block| <==> out[q] !in chain && BelongsTo(records, out[q], id))
  {
    hide BelongsTo;
    forall q | 0 <= q < |out| ensures p < q <= p + |block| <==> out[q] in block {
      if p < q <= p + |block| {
        assert block[q - p - 1] == out[q];
      }
      if out[q] in block {
        var k :| 0 <= k < |block| && block[k] == out[q];
        assert out[p + 1 + k] == block[k];
      }
    }
  }
}
