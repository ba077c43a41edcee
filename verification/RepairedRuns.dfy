/** What repairing makes of one run, result by result: which are kept, what is added, and in which
    order. */
module RepairedRuns {
  import opened Collections
  import opened Conversations
  import opened RepairHistory

  function Later(at: seq<nat>): (later: seq<nat>)
    ensures |later| == |at| && forall k :: 0 <= k < |at| ==> later[k] == at[k] + 1
  {
    seq(|at|, k requires 0 <= k < |at| => at[k] + 1)
  }

  lemma LaterFacts(at: seq<nat>)
    requires Increasing(at)
    ensures Increasing(Later(at)) && Increasing([0] + Later(at))
    ensures forall i: nat :: i in Later(at) <==> i > 0 && i - 1 in at
    ensures forall i: nat :: i in [0] + Later(at) <==> i == 0 || i - 1 in at
  {
    var later := Later(at);
    forall i: nat | i > 0 && i - 1 in at ensures i in later {
      var k :| 0 <= k < |at| && at[k] == i - 1;
      assert later[k] == i;
    }
    forall i: nat | i in later ensures i > 0 && i - 1 in at {
      var k :| 0 <= k < |later| && later[k] == i;
      assert at[k] == i - 1;
    }
  }

  /** No later result of the run has the same id. */
  predicate IsLast(run: Run, i: nat)
    requires i < |run|
  {
    forall j :: i < j < |run| ==> run[j].callId != run[i].callId
  }

  lemma LastBehind(run: Run)
    requires run != []
    ensures IsLast(run, 0) <==> run[0].callId !in Ids(run[1..])
    ensures forall i :: 0 < i < |run| ==> (IsLast(run, i) <==> IsLast(run[1..], i - 1))
  {
    var rest := run[1..];
    if run[0].callId in Ids(rest) {
      var r :| r in rest && r.callId == run[0].callId;
      var k :| 0 <= k < |rest| && rest[k] == r;
      assert run[k + 1] == r;
    }
    forall j | 0 < j < |run| && run[0].callId !in Ids(rest) ensures run[j].callId != run[0].callId {
      assert rest[j - 1] in rest;
    }
    forall i | 0 < i < |run| ensures IsLast(run, i) <==> IsLast(rest, i - 1) {
      assert forall j :: i < j < |run| ==> run[j] == rest[j - 1];
      assert forall j :: i - 1 < j < |rest| ==> rest[j] == run[j + 1];
    }
  }

  /** What stays of a run: the last result of each declared id, in the order of the run. */
  ghost predicate IsKeptOf(ids: set<string>, run: Run, at: seq<nat>, kept: Run) {
    Increasing(at) && LastOfIds(ids, run, at) && PickedAt(run, at, kept)
  }

  ghost predicate LastOfIds(ids: set<string>, run: Run, at: seq<nat>) {
    forall i: nat :: i in at <==> i < |run| && run[i].callId in ids && IsLast(run, i)
  }

  predicate PickedAt(run: Run, at: seq<nat>, kept: Run) {
    |at| == |kept| && forall k :: 0 <= k < |at| ==> at[k] < |run| && kept[k] == run[at[k]]
  }

  lemma KeepStep(ids: set<string>, run: Run)
    requires run != []
    ensures var rest := DeclaredOnly(ids, KeepLast(run[1..]));
      DeclaredOnly(ids, KeepLast(run)) ==
        if run[0].callId !in Ids(run[1..]) && run[0].callId in ids then [run[0]] + rest else rest
  {
    hide Ids;
    assert ([run[0]] + KeepLast(run[1..]))[1..] == KeepLast(run[1..]);
  }

  lemma KeptBehind(ids: set<string>, run: Run, at: seq<nat>, kept: Run)
    requires run != [] && IsKeptOf(ids, run[1..], at, kept)
    ensures var last := run[0].callId in ids && IsLast(run, 0);
      IsKeptOf(ids, run, if last then [0] + Later(at) else Later(at), if last then [run[0]] + kept else kept)
  {
    hide IsLast, Increasing, Later, LastOfIds, PickedAt;
    LaterFacts(at);
    LastOfIdsBehind(ids, run, at);
    PickedBehind(run, at, kept);
    if run[0].callId in ids && IsLast(run, 0) {
      PickedFirst(run, Later(at), kept);
    }
  }

  lemma LastOfIdsBehind(ids: set<string>, run: Run, at: seq<nat>)
    requires run != [] && Increasing(at) && LastOfIds(ids, run[1..], at)
    ensures LastOfIds(ids, run, if run[0].callId in ids && IsLast(run, 0) then [0] + Later(at) else Later(at))
  {
    LaterFacts(at);
    LastBehind(run);
    hide Increasing, Later, IsLast, Ids;
    forall i: nat | i > 0 ensures i - 1 in at <==> i < |run| && run[i].callId in ids && IsLast(run, i) {
      assert i < |run| ==> run[i] == run[1..][i - 1];
    }
  }

  lemma PickedBehind(run: Run, at: seq<nat>, kept: Run)
    requires run != [] && PickedAt(run[1..], at, kept)
    ensures PickedAt(run, Later(at), kept)
  {
    forall k | 0 <= k < |at| ensures Later(at)[k] < |run| && kept[k] == run[Later(at)[k]] {
      assert run[1..][at[k]] == run[at[k] + 1];
    }
  }

  lemma PickedFirst(run: Run, at: seq<nat>, kept: Run)
    requires run != [] && PickedAt(run, at, kept)
    ensures PickedAt(run, [0] + at, [run[0]] + kept)
  {
  }

  lemma {:induction false} KeptAre(ids: set<string>, run: Run) returns (at: seq<nat>)
    ensures IsKeptOf(ids, run, at, DeclaredOnly(ids, KeepLast(run)))
  {
    if run == [] {
      at := [];
    } else {
      hide KeepLast, DeclaredOnly, IsLast, Ids, IsKeptOf;
      at := KeptAre(ids, run[1..]);
      KeepStep(ids, run);
      LastBehind(run);
      KeptBehind(ids, run, at, DeclaredOnly(ids, KeepLast(run[1..])));
      at := if run[0].callId in ids && IsLast(run, 0) then [0] + Later(at) else Later(at);
    }
  }

  /** An answer made up for a call: its id, no error, no image, and the tool's name in the text. */
  predicate IsMadeUp(call: ToolCall, r: ToolResultItem) {
    && r.callId == call.id && !r.isError && r.images == []
    && r.content == "Tool execution was halted by the harness (history_repair); the tool `" + call.name +
      "` was not executed."
  }

  /** What is added behind a run: an answer for every call not answered, in the order of the calls. */
  ghost predicate IsAddedFor(calls: Calls, answered: set<string>, at: seq<nat>, added: Run) {
    Increasing(at) && Unanswered(calls, answered, at) && MadeUpAt(calls, at, added)
  }

  ghost predicate Unanswered(calls: Calls, answered: set<string>, at: seq<nat>) {
    forall i: nat :: i in at <==> i < |calls| && calls[i].id !in answered
  }

  predicate MadeUpAt(calls: Calls, at: seq<nat>, added: Run) {
    |at| == |added| && forall k :: 0 <= k < |at| ==> at[k] < |calls| && IsMadeUp(calls[at[k]], added[k])
  }

  lemma {:induction false} AddedAre(calls: Calls, answered: set<string>) returns (at: seq<nat>)
    ensures IsAddedFor(calls, answered, at, Backfill(calls, answered))
  {
    if calls == [] {
      at := [];
    } else {
      hide IsMadeUp, Backfill, Synthetic, IsAddedFor;
      at := AddedAre(calls[1..], answered);
      BackfillStep(calls, answered);
      AddedBehind(calls, answered, at, Backfill(calls[1..], answered));
      at := if calls[0].id in answered then Later(at) else [0] + Later(at);
    }
  }

  lemma BackfillStep(calls: Calls, answered: set<string>)
    requires calls != []
    ensures var rest := Backfill(calls[1..], answered);
      Backfill(calls, answered) == if calls[0].id in answered then rest else [Synthetic(calls[0])] + rest
  {
    hide Synthetic;
  }

  lemma AddedBehind(calls: Calls, answered: set<string>, at: seq<nat>, added: Run)
    requires calls != [] && IsAddedFor(calls[1..], answered, at, added)
    ensures var first := calls[0].id !in answered;
      IsAddedFor(calls, answered, if first then [0] + Later(at) else Later(at),
        if first then [Synthetic(calls[0])] + added else added)
  {
    hide IsMadeUp, Synthetic, Increasing, Later, MadeUpAt, Unanswered;
    MadeUp(calls[0]);
    LaterFacts(at);
    UnansweredBehind(calls, answered, at);
    MadeUpBehind(calls, at, added);
    if calls[0].id !in answered {
      MadeUpFirst(calls, Later(at), Synthetic(calls[0]), added);
    }
  }

  lemma UnansweredBehind(calls: Calls, answered: set<string>, at: seq<nat>)
    requires calls != [] && Increasing(at) && Unanswered(calls[1..], answered, at)
    ensures Unanswered(calls, answered, if calls[0].id in answered then Later(at) else [0] + Later(at))
  {
    LaterFacts(at);
    hide Increasing, Later;
    forall i: nat | i > 0 ensures i - 1 in at <==> i < |calls| && calls[i].id !in answered {
      assert i < |calls| ==> calls[i] == calls[1..][i - 1];
    }
  }

  lemma MadeUpBehind(calls: Calls, at: seq<nat>, added: Run)
    requires calls != [] && MadeUpAt(calls[1..], at, added)
    ensures MadeUpAt(calls, Later(at), added)
  {
    hide IsMadeUp;
    forall k | 0 <= k < |at| ensures Later(at)[k] < |calls| && IsMadeUp(calls[Later(at)[k]], added[k]) {
      assert calls[1..][at[k]] == calls[at[k] + 1];
    }
  }

  lemma MadeUpFirst(calls: Calls, at: seq<nat>, r: ToolResultItem, added: Run)
    requires calls != [] && IsMadeUp(calls[0], r) && MadeUpAt(calls, at, added)
    ensures MadeUpAt(calls, [0] + at, [r] + added)
  {
    hide IsMadeUp;
  }

  lemma MadeUp(call: ToolCall)
    ensures IsMadeUp(call, Synthetic(call))
  {
  }

  /** A repaired run is the last real result of each declared id, in order, and then a made-up answer for
      every other call, in call order. */
  lemma {:induction false} RepairedRunIs(calls: Calls, run: Run) returns (kept: Run, at: seq<nat>, added: Run,
      missing: seq<nat>)
    ensures RepairRun(calls, run) == kept + added
    ensures IsKeptOf(CallIds(calls), run, at, kept) && IsAddedFor(calls, Ids(kept), missing, added)
  {
    hide DeclaredOnly, KeepLast, Backfill, Ids, CallIds, IsKeptOf, IsAddedFor;
    at := KeptAre(CallIds(calls), run);
    kept := DeclaredOnly(CallIds(calls), KeepLast(run));
    missing := AddedAre(calls, Ids(kept));
    added := Backfill(calls, Ids(kept));
    if calls == [] {
      NoneDeclared(run);
      NoneDeclared(KeepLast(run));
    }
  }

  /** The duplicate pass leaves a run behind no calls as it is, and of any other the last result of each
      id. */
  lemma {:induction false} DedupedRunIs(calls: Calls, run: Run) returns (at: seq<nat>)
    ensures calls == [] ==> DedupRun(calls, run) == run
    ensures calls != [] ==> IsKeptOf(Ids(run), run, at, DedupRun(calls, run))
  {
    at := KeptAre(Ids(run), run);
    hide IsKeptOf;
    AllDeclared(Ids(run), run);
  }

  lemma {:induction false} AllDeclared(ids: set<string>, run: Run)
    requires Ids(run) <= ids
    ensures DeclaredOnly(ids, KeepLast(run)) == KeepLast(run)
  {
    if run != [] {
      IdsSplit(run);
      hide Ids;
      AllDeclared(ids, run[1..]);
      KeepStep(ids, run);
    }
  }

  lemma {:induction false} NoneDeclared(run: Run)
    ensures DeclaredOnly(CallIds([]), run) == []
  {
    if run != [] {
      NoneDeclared(run[1..]);
    }
  }
}
