/** The three passes and `repair_history` itself as the code runs them: loops that edit the
    item list in place. Every method is tied to the run-by-run specification. */
module HistoryPasses {
  import opened Conversations
  import opened RepairHistory

  datatype Report = Report(duplicatesRemoved: nat, strippedIds: seq<string>, syntheticInserted: nat) {
    predicate Changed() {
      duplicatesRemoved > 0 || strippedIds != [] || syntheticInserted > 0
    }
  }

  // ----- Stripping, told position by position -----

  predicate Stays(s: seq<Item>, i: nat)
    requires i < |s|
  {
    !s[i].ToolResult? || InOwnRun(s, i)
  }

  /** The items from position `i` on that are no tool result or lie in their own run. */
  function KeptFrom(s: seq<Item>, i: nat): seq<Item>
    requires i <= |s|
    decreases |s| - i
  {
    if i == |s| then [] else (if Stays(s, i) then [s[i]] else []) + KeptFrom(s, i + 1)
  }

  /** The ids of the other tool results, in order. */
  function DisplacedFrom(s: seq<Item>, i: nat): (ids: seq<string>)
    requires i <= |s|
    ensures |ids| == |s| - i - |KeptFrom(s, i)|
    decreases |s| - i
  {
    if i == |s| then [] else (if Stays(s, i) then [] else [s[i].result.callId]) + DisplacedFrom(s, i + 1)
  }

  lemma {:induction false} DeclaredOnlyConcat(ids: set<string>, r: Run, x: ToolResultItem)
    ensures DeclaredOnly(ids, r + [x]) == DeclaredOnly(ids, r) + (if x.callId in ids then [x] else [])
  {
    if r == [] {
      assert [] + [x] == [x];
    } else {
      assert (r + [x])[1..] == r[1..] + [x];
      DeclaredOnlyConcat(ids, r[1..], x);
    }
  }

  lemma {:induction false} EmitSnoc(r: Run, x: ToolResultItem)
    ensures Emit(r + [x]) == Emit(r) + [ToolResult(x)]
  {}

  /** One more result read: kept in the run if declared. */
  lemma {:induction false} StripOneMore(calls: Calls, run: Run, x: ToolResultItem, rest: seq<Item>)
    ensures Emit(StripRun(calls, run + [x])) + rest ==
      Emit(StripRun(calls, run)) + ((if x.callId in CallIds(calls) then [ToolResult(x)] else []) + rest)
  {
    hide DeclaredOnly, Emit, CallIds;
    DeclaredOnlyConcat(CallIds(calls), run, x);
    var r := StripRun(calls, run);
    EmitSnoc(r, x);
    if x.callId in CallIds(calls) {
      assert Emit(r) + [ToolResult(x)] + rest == Emit(r) + ([ToolResult(x)] + rest);
    } else {
      assert r + [] == r && [] + rest == rest;
    }
  }

  /** Keeping by position and filtering run by run are the same. */
  lemma {:induction false} KeptIsStripped(s: seq<Item>, i: nat, calls: Calls, run: Run)
    requires i <= |s| && calls == OwnerCalls(s, i - 1)
    ensures MapRuns(StripRun, calls, run, s[i..]) == Emit(StripRun(calls, run)) + KeptFrom(s, i)
    decreases |s| - i
  {
    if i == |s| {
      assert Emit(StripRun(calls, run)) + [] == Emit(StripRun(calls, run));
    } else {
      assert s[i..][0] == s[i] && s[i..][1..] == s[i + 1..];
      if s[i].ToolResult? {
        KeptIsStripped(s, i + 1, calls, run + [s[i].result]);
        StripOneMore(calls, run, s[i].result, KeptFrom(s, i + 1));
      } else {
        KeptIsStripped(s, i + 1, CallsOf(s[i]), []);
        var kept := Emit(StripRun(calls, run));
        assert Emit([]) + KeptFrom(s, i + 1) == KeptFrom(s, i + 1);
        assert kept + [s[i]] + KeptFrom(s, i + 1) == kept + ([s[i]] + KeptFrom(s, i + 1));
      }
    }
  }

  lemma {:induction false} Regroup(a: seq<Item>, b: seq<Item>, c: seq<Item>, d: seq<Item>)
    ensures a + (b + c + d) == a + b + c + d
    ensures a + (b + c) == a + b + c
  {}

  // ----- One step of the forward scans -----

  /** A pass that leaves alone what follows an item without calls. */
  ghost predicate Idle(f: Pass) {
    forall r :: f([], r) == r
  }

  lemma {:induction false} IdleRun(f: Pass, run: Run, s: seq<Item>)
    requires Idle(f)
    ensures MapRuns(f, [], run, s) == Emit(run) + MapRuns(f, [], [], s)
    decreases |s|
  {
    if s == [] {
      assert Emit(f([], [])) == [];
    } else if s[0].ToolResult? {
      IdleRun(f, run + [s[0].result], s[1..]);
      IdleRun(f, [s[0].result], s[1..]);
      EmitSnoc(run, s[0].result);
      assert [] + [s[0].result] == [s[0].result] && Emit([s[0].result]) == [s[0]];
      assert Emit(run) + [s[0]] + MapRuns(f, [], [], s[1..]) == Emit(run) + ([s[0]] + MapRuns(f, [], [], s[1..]));
    } else {
      assert Emit(f([], [])) == [];
      var t := MapRuns(f, CallsOf(s[0]), [], s[1..]);
      assert [] + [s[0]] + t == [s[0]] + t;
      assert Emit(run) + [s[0]] + t == Emit(run) + ([s[0]] + t);
    }
  }

  /** Moving past an item that declares no calls, with no calls waiting. */
  lemma {:induction false} ScanPlain(f: Pass, x: Item, s: seq<Item>)
    requires Idle(f) && CallsOf(x) == []
    ensures MapRuns(f, [], [], [x] + s) == [x] + MapRuns(f, [], [], s)
  {
    assert ([x] + s)[1..] == s;
    if x.ToolResult? {
      assert [] + [x.result] == [x.result] && Emit([x.result]) == [x];
      IdleRun(f, [x.result], s);
    } else {
      assert Emit(f([], [])) == [] && [] + [x] == [x];
    }
  }

  lemma {:induction false} FlushRun(f: Pass, calls: Calls, r: Run, t: seq<Item>)
    requires Idle(f) && (t != [] ==> !t[0].ToolResult?)
    ensures MapRuns(f, calls, r, t) == Emit(f(calls, r)) + MapRuns(f, [], [], t)
  {
    assert f([], []) == [] && Emit([]) == [];
    if t == [] {
      assert Emit(f(calls, r)) + [] == Emit(f(calls, r));
    } else {
      var u := MapRuns(f, CallsOf(t[0]), [], t[1..]);
      assert [] + [t[0]] + u == [t[0]] + u;
      assert Emit(f(calls, r)) + [t[0]] + u == Emit(f(calls, r)) + ([t[0]] + u);
    }
  }

  lemma {:induction false} ScanHead(f: Pass, x: Item, u: seq<Item>)
    requires Idle(f) && !x.ToolResult?
    ensures MapRuns(f, [], [], [x] + u) == [x] + MapRuns(f, CallsOf(x), [], u)
  {
    assert ([x] + u)[1..] == u;
    assert f([], []) == [] && Emit([]) + [x] == [x];
  }

  /** Moving past an assistant and the whole run behind it. */
  lemma {:induction false} ScanRun(f: Pass, x: Item, r: Run, t: seq<Item>)
    requires Idle(f) && !x.ToolResult? && (t != [] ==> !t[0].ToolResult?)
    ensures MapRuns(f, [], [], [x] + Emit(r) + t) == [x] + Emit(f(CallsOf(x), r)) + MapRuns(f, [], [], t)
  {
    hide MapRuns, Emit, CallsOf;
    Regroup([x], Emit(r), t, []);
    ScanHead(f, x, Emit(r) + t);
    Absorb(f, CallsOf(x), [], r, t);
    assert [] + r == r;
    FlushRun(f, CallsOf(x), r, t);
    Regroup([x], Emit(f(CallsOf(x), r)), MapRuns(f, [], [], t), []);
  }

  // ----- Planned insertions -----

  /** A position planned for insertion, with what goes there. */
  datatype Splice = Splice(at: nat, made: seq<Item>)

  ghost predicate InOrder(plan: seq<Splice>, limit: nat) {
    && (forall k :: 0 <= k < |plan| ==> plan[k].at <= limit)
    && (forall j, k :: 0 <= j < k < |plan| ==> plan[j].at <= plan[k].at)
  }

  function Insert(s: seq<Item>, p: Splice): seq<Item>
    requires p.at <= |s|
  {
    s[..p.at] + p.made + s[p.at..]
  }

  /** Carrying out a plan from its last splice to its first. */
  ghost function Spliced(s: seq<Item>, plan: seq<Splice>): seq<Item>
    requires InOrder(plan, |s|)
    decreases |plan|
  {
    if plan == [] then s else Spliced(Insert(s, plan[|plan| - 1]), plan[..|plan| - 1])
  }

  ghost function Planned(plan: seq<Splice>): nat {
    if plan == [] then 0 else Planned(plan[..|plan| - 1]) + |plan[|plan| - 1].made|
  }

  lemma {:induction false} SplicedBehind(s: seq<Item>, t: seq<Item>, plan: seq<Splice>)
    requires InOrder(plan, |s|)
    ensures Spliced(s + t, plan) == Spliced(s, plan) + t
    decreases |plan|
  {
    if plan != [] {
      var p := plan[|plan| - 1];
      assert Insert(s + t, p) == Insert(s, p) + t;
      SplicedBehind(Insert(s, p), t, plan[..|plan| - 1]);
    }
  }

  lemma {:induction false} SplicedOneMore(s: seq<Item>, made: seq<Item>, plan: seq<Splice>)
    requires InOrder(plan, |s|)
    ensures Spliced(s, plan + [Splice(|s|, made)]) == Spliced(s, plan) + made
  {
    var longer := plan + [Splice(|s|, made)];
    assert longer[..|longer| - 1] == plan;
    assert Insert(s, Splice(|s|, made)) == s + made;
    SplicedBehind(s, made, plan);
  }

  // ----- The passes -----

  ghost predicate ResultsOnly(s: seq<Item>) {
    forall k :: 0 <= k < |s| ==> s[k].ToolResult?
  }

  ghost function Results(s: seq<Item>): (run: Run)
    requires ResultsOnly(s)
    ensures Emit(run) == s
  {
    seq(|s|, k requires 0 <= k < |s| => s[k].result)
  }

  /** The end of the run of tool results that starts at `start`. */
  method FindRunEnd(s: seq<Item>, start: nat) returns (end: nat)
    requires start <= |s|
    ensures start <= end <= |s| && ResultsOnly(s[start..end])
    ensures end < |s| ==> !s[end].ToolResult?
  {
    end := start;
    while end < |s| && s[end].ToolResult?
      invariant start <= end <= |s| && ResultsOnly(s[start..end])
    {
      assert s[start..end + 1] == s[start..end] + [s[end]];
      end := end + 1;
    }
  }

  /** A later result of the window has the same id. */
  ghost predicate AnsweredLater(s: seq<Item>, k: nat, end: nat)
    requires k < end <= |s|
  {
    s[k].ToolResult? && exists m :: k < m < end && s[m].ToolResult? && s[m].result.callId == s[k].result.callId
  }

  lemma {:induction false} AnsweredLaterIds(s: seq<Item>, k: nat, end: nat)
    requires k < end <= |s| && ResultsOnly(s[k..end])
    ensures Results(s[k..end])[0] == s[k].result && Results(s[k..end])[1..] == Results(s[k + 1..end])
    ensures AnsweredLater(s, k, end) <==> s[k].result.callId in Ids(Results(s[k + 1..end]))
  {
    var r := Results(s[k + 1..end]);
    assert forall m :: k < m < end ==> s[m] == s[k + 1..end][m - k - 1];
    assert s[k..end][0] == s[k];
  }

  /** The positions of the window whose result a later one makes redundant. */
  method FindDuplicates(s: seq<Item>, start: nat, end: nat) returns (toRemove: set<nat>)
    requires start <= end <= |s|
    ensures forall k :: k in toRemove <==> start <= k < end && AnsweredLater(s, k, end)
  {
    var seen: map<string, nat> := map[];
    toRemove := {};
    for idx := start to end
      invariant forall k :: k in toRemove <==> start <= k < idx && AnsweredLater(s, k, idx)
      invariant forall id :: id in seen ==>
        start <= seen[id] < idx && s[seen[id]].ToolResult? && s[seen[id]].result.callId == id
      invariant forall k :: start <= k < idx && s[k].ToolResult? ==>
        s[k].result.callId in seen && k <= seen[s[k].result.callId]
    {
      if s[idx].ToolResult? {
        var id := s[idx].result.callId;
        if id in seen {
          toRemove := toRemove + {seen[id]};
        }
        seen := seen[id := idx];
      }
    }
  }

  lemma {:induction false} RemovalStep(s: seq<Item>, j: nat, end: nat, kept: seq<Item>, out: seq<Item>)
    requires j < end <= |s| && out == s[..j + 1] + kept + s[end..]
    ensures out[..j] + out[j + 1..] == s[..j] + kept + s[end..]
    ensures out == s[..j] + ([s[j]] + kept) + s[end..]
  {
    assert out[..j] == s[..j] && out[j + 1..] == kept + s[end..];
    assert s[..j + 1] == s[..j] + [s[j]];
  }

  /** Reading the window from the back, a result stays unless a later one has its id. */
  lemma {:induction false} KeepLastStep(s: seq<Item>, j: nat, end: nat)
    requires j < end <= |s| && ResultsOnly(s[j..end])
    ensures ResultsOnly(s[j + 1..end])
    ensures Emit(KeepLast(Results(s[j..end]))) ==
      (if AnsweredLater(s, j, end) then [] else [s[j]]) + Emit(KeepLast(Results(s[j + 1..end])))
  {
    assert s[j + 1..end] == s[j..end][1..] && s[j..end][0] == s[j];
    AnsweredLaterIds(s, j, end);
    hide AnsweredLater;
    EmitConcat([s[j].result], KeepLast(Results(s[j + 1..end])));
    assert Emit([s[j].result]) == [s[j]];
    hide Emit;
  }

  /** Removes the redundant results of a window, from its last position to its first. */
  method RemoveDuplicates(s: seq<Item>, start: nat, end: nat, toRemove: set<nat>) returns (out: seq<Item>)
    requires start <= end <= |s| && ResultsOnly(s[start..end])
    requires forall k :: k in toRemove <==> start <= k < end && AnsweredLater(s, k, end)
    ensures out == s[..start] + Emit(KeepLast(Results(s[start..end]))) + s[end..]
    ensures |out| == |s| - |toRemove|
  {
    hide KeepLast, AnsweredLater;
    var j := end;
    ghost var kept: seq<Item>, gone: set<nat> := [], {};
    out := s;
    while j > start
      invariant start <= j <= end && ResultsOnly(s[j..end])
      invariant kept == Emit(KeepLast(Results(s[j..end])))
      invariant out == s[..j] + kept + s[end..]
      invariant gone <= toRemove && (forall k :: k in gone ==> j <= k)
      invariant (forall k :: k in toRemove && j <= k ==> k in gone)
      invariant |out| == |s| - |gone|
    {
      j := j - 1;
      assert s[j] == s[start..end][j - start];
      assert s[j..end] == [s[j]] + s[j + 1..end];
      KeepLastStep(s, j, end);
      RemovalStep(s, j, end, kept, out);
      if j in toRemove {
        out := out[..j] + out[j + 1..];
        gone := gone + {j};
      } else {
        kept := [s[j]] + kept;
      }
    }
    assert gone == toRemove;
  }

  /** Removing the duplicates of one window does not change what the whole scan will produce. */
  lemma {:induction false} DedupWindow(x: Item, run: Run, t: seq<Item>)
    requires CallsOf(x) != [] && (t != [] ==> !t[0].ToolResult?)
    ensures MapRuns(DedupRun, [], [], [x] + Emit(KeepLast(run)) + t) == MapRuns(DedupRun, [], [], [x] + Emit(run) + t)
    ensures MapRuns(DedupRun, [], [], [x] + Emit(run) + t) == [x] + Emit(KeepLast(run)) + MapRuns(DedupRun, [], [], t)
  {
    KeepLastFacts(run);
    KeepLastFacts(KeepLast(run));
    ScanRun(DedupRun, x, run, t);
    ScanRun(DedupRun, x, KeepLast(run), t);
  }

  /** The ids answered in a window of results. */
  method AnsweredIn(s: seq<Item>, start: nat, end: nat) returns (answered: set<string>)
    requires start <= end <= |s| && ResultsOnly(s[start..end])
    ensures answered == Ids(Results(s[start..end]))
  {
    answered := {};
    for j := start to end
      invariant ResultsOnly(s[start..j])
      invariant answered == Ids(Results(s[start..j]))
    {
      assert s[start..end][j - start] == s[j];
      assert s[start..j + 1] == s[start..j] + [s[j]];
      assert Results(s[start..j + 1]) == Results(s[start..j]) + [s[j].result];
      IdsConcat(Results(s[start..j]), [s[j].result]);
      answered := answered + {s[j].result.callId};
    }
  }

  lemma {:induction false} FillIdle()
    ensures Idle(FillRun)
  {
    forall r: Run ensures FillRun([], r) == r {
      assert r + [] == r;
    }
  }

  lemma EmitConcat(r: Run, t: Run)
    ensures Emit(r + t) == Emit(r) + Emit(t)
  {}

  lemma {:induction false} FillFront(x: Item, run: Run, t: seq<Item>, made: Run)
    requires !x.ToolResult? && (t != [] ==> !t[0].ToolResult?)
    requires made == Backfill(CallsOf(x), Ids(run))
    ensures MapRuns(FillRun, [], [], [x] + Emit(run) + t) == [x] + Emit(run) + Emit(made) + MapRuns(FillRun, [], [], t)
  {
    hide MapRuns, Backfill, CallsOf;
    FillIdle();
    ScanRun(FillRun, x, run, t);
    EmitConcat(run, made);
    hide Emit;
    assert [x] + (Emit(run) + Emit(made)) == [x] + Emit(run) + Emit(made);
  }

  /** One repair site: what the scan has planned so far, extended by the run behind `x`. */
  lemma {:induction false} PlanStep(s: seq<Item>, plan: seq<Splice>, x: Item, run: Run, t: seq<Item>, made: Run)
    requires InOrder(plan, |s|) && !x.ToolResult? && (t != [] ==> !t[0].ToolResult?)
    requires made == Backfill(CallsOf(x), Ids(run))
    ensures var front := [x] + Emit(run);
      var longer := if made == [] then plan else plan + [Splice(|s + front|, Emit(made))];
      && InOrder(longer, |s + front|)
      && Spliced(s, plan) + MapRuns(FillRun, [], [], front + t)
        == Spliced(s + front, longer) + MapRuns(FillRun, [], [], t)
  {
    hide Spliced, Backfill;
    var front, rest := [x] + Emit(run), MapRuns(FillRun, [], [], t);
    FillFront(x, run, t, made);
    hide MapRuns, Emit;
    SplicedBehind(s, front, plan);
    SplicedOneMore(s + front, Emit(made), plan);
    Regroup(Spliced(s, plan), front, Emit(made), rest);
    if made == [] {
      assert front + Emit(made) == front;
      Regroup(Spliced(s, plan), front, rest, []);
    }
  }

  lemma {:induction false} PlanPlain(s: seq<Item>, plan: seq<Splice>, x: Item, t: seq<Item>)
    requires InOrder(plan, |s|) && CallsOf(x) == []
    ensures Spliced(s, plan) + MapRuns(FillRun, [], [], [x] + t) == Spliced(s + [x], plan) + MapRuns(FillRun, [], [], t)
  {
    FillIdle();
    ScanPlain(FillRun, x, t);
    SplicedBehind(s, [x], plan);
    Regroup(Spliced(s, plan), [x], MapRuns(FillRun, [], [], t), []);
  }

  lemma {:induction false} CutAt(s: seq<Item>, i: nat, end: nat)
    requires i < end <= |s| && ResultsOnly(s[i + 1..end])
    ensures s[i..] == [s[i]] + Emit(Results(s[i + 1..end])) + s[end..]
    ensures s[..end] == s[..i] + ([s[i]] + Emit(Results(s[i + 1..end])))
    ensures end < |s| ==> s[end..][0] == s[end]
    ensures |s[..i] + ([s[i]] + Emit(Results(s[i + 1..end])))| == end
  {}

  lemma {:induction false} CutOne(s: seq<Item>, i: nat)
    requires i < |s|
    ensures s[i..] == [s[i]] + s[i + 1..] && s[..i + 1] == s[..i] + [s[i]]
  {}

  lemma {:induction false} PlanStart(s: seq<Item>)
    ensures Filled(s) == Spliced(s[..0], []) + MapRuns(FillRun, [], [], s[0..])
  {
    assert s[0..] == s && s[..0] == [];
    assert [] + Filled(s) == Filled(s);
  }

  /** First phase of the dangling-call repair: where results are missing, and which. */
  method PlanBackfill(s: seq<Item>) returns (plan: seq<Splice>)
    ensures InOrder(plan, |s|)
    ensures Spliced(s, plan) == Filled(s)
  {
    plan := [];
    var i := 0;
    PlanStart(s);
    hide MapRuns, Spliced, Backfill, Ids, Emit;
    while i < |s|
      invariant i <= |s| && InOrder(plan, i)
      invariant Filled(s) == Spliced(s[..i], plan) + MapRuns(FillRun, [], [], s[i..])
    {
      var x := s[i];
      if x.Assistant? && x.calls != [] {
        var end := FindRunEnd(s, i + 1);
        var answered := AnsweredIn(s, i + 1, end);
        var made := Backfill(x.calls, answered);
        CutAt(s, i, end);
        PlanStep(s[..i], plan, x, Results(s[i + 1..end]), s[end..], made);
        if made != [] {
          plan := plan + [Splice(end, Emit(made))];
        }
        i := end;
      } else {
        CutOne(s, i);
        PlanPlain(s[..i], plan, x, s[i + 1..]);
        i := i + 1;
      }
    }
    FillIdle();
    ScanEnd(FillRun, s, i);
  }

  lemma {:induction false} ScanEnd(f: Pass, s: seq<Item>, i: nat)
    requires i == |s| && f([], []) == []
    ensures s[..i] == s && MapRuns(f, [], [], s[i..]) == []
    ensures s + MapRuns(f, [], [], s[i..]) == s
    ensures forall t: seq<Item> :: t + MapRuns(f, [], [], s[i..]) == t
  {}

  /** One window of the duplicate scan: replacing it changes nothing in what the scan will
      produce, and a window without duplicates is passed over. */
  lemma {:induction false} DedupStep(s: seq<Item>, i: nat, end: nat, deduped: seq<Item>)
    requires i < end <= |s| && ResultsOnly(s[i + 1..end]) && CallsOf(s[i]) != []
    requires end < |s| ==> !s[end].ToolResult?
    requires deduped == s[..i + 1] + Emit(KeepLast(Results(s[i + 1..end]))) + s[end..]
    ensures i < |deduped| && deduped[..i] == s[..i]
    ensures MapRuns(DedupRun, [], [], deduped[i..]) == MapRuns(DedupRun, [], [], s[i..])
    ensures |deduped| == |s| ==>
      s[..end] + MapRuns(DedupRun, [], [], s[end..]) == s[..i] + MapRuns(DedupRun, [], [], s[i..])
  {
    hide MapRuns, KeepLast;
    var run := Results(s[i + 1..end]);
    CutAt(s, i, end);
    CutOne(s, i);
    SuffixAt(s[..i], [s[i]] + Emit(KeepLast(run)) + s[end..], deduped) by {
      assert deduped == s[..i] + ([s[i]] + Emit(KeepLast(run)) + s[end..]);
    }
    DedupWindow(s[i], run, s[end..]);
    if |deduped| == |s| {
      KeepLastFacts(run);
      hide Emit;
      Regroup(s[..i], [s[i]] + Emit(run), MapRuns(DedupRun, [], [], s[end..]), []);
    }
  }

  lemma SuffixAt(a: seq<Item>, b: seq<Item>, s: seq<Item>)
    requires s == a + b
    ensures s[..|a|] == a && s[|a|..] == b
  {}

  lemma {:induction false} PushStep<T>(a: seq<T>, x: T, b: seq<T>)
    ensures a + ([x] + b) == (a + [x]) + b
    ensures a + ([] + b) == a + b
  {
    assert [] + b == b;
  }

  /** One step of the retain loop, with the run ids it keeps. */
  lemma {:induction false} RetainStep(s: seq<Item>, i: nat, kept: seq<Item>, stripped: seq<string>)
    requires i < |s|
    ensures kept + KeptFrom(s, i) == (if Stays(s, i) then kept + [s[i]] else kept) + KeptFrom(s, i + 1)
    ensures stripped + DisplacedFrom(s, i)
      == (if Stays(s, i) then stripped else stripped + [s[i].result.callId]) + DisplacedFrom(s, i + 1)
    ensures s[i].ToolResult? ==> (Stays(s, i) <==> s[i].result.callId in CallIds(OwnerCalls(s, i - 1)))
    ensures OwnerCalls(s, i) == if s[i].ToolResult? then OwnerCalls(s, i - 1) else CallsOf(s[i])
  {
    PushStep(kept, s[i], KeptFrom(s, i + 1));
    if !Stays(s, i) {
      PushStep(stripped, s[i].result.callId, DisplacedFrom(s, i + 1));
    } else {
      assert [] + DisplacedFrom(s, i + 1) == DisplacedFrom(s, i + 1);
    }
  }

  /** The `retain` loop of the stripping pass. */
  method Retain(s: seq<Item>) returns (kept: seq<Item>, stripped: seq<string>)
    ensures kept == KeptFrom(s, 0)
    ensures stripped == DisplacedFrom(s, 0)
  {
    var runIds: set<string> := {};
    stripped, kept := [], [];
    assert [] + KeptFrom(s, 0) == KeptFrom(s, 0) && [] + DisplacedFrom(s, 0) == DisplacedFrom(s, 0);
    for i := 0 to |s|
      invariant runIds == CallIds(OwnerCalls(s, i - 1))
      invariant kept + KeptFrom(s, i) == KeptFrom(s, 0)
      invariant stripped + DisplacedFrom(s, i) == DisplacedFrom(s, 0)
    {
      hide KeptFrom, DisplacedFrom, OwnerCalls, InOwnRun;
      RetainStep(s, i, kept, stripped);
      match s[i] {
        case Assistant(_, calls) =>
          runIds := CallIds(calls);
          kept := kept + [s[i]];
        case ToolResult(r) =>
          if r.callId in runIds {
            kept := kept + [s[i]];
          } else {
            stripped := stripped + [r.callId];
          }
        case _ =>
          runIds := {};
          kept := kept + [s[i]];
      }
    }
  }

  class History {
    var items: seq<Item>

    constructor (items: seq<Item>)
      ensures this.items == items
    {
      this.items := items;
    }

    /** Drops all but the last result for each id in the run behind every assistant with calls. */
    method DedupDuplicateToolResults() returns (removed: nat)
      modifies this
      ensures items == Deduped(old(items))
      ensures removed == |old(items)| - |items|
    {
      removed := 0;
      var i := 0;
      assert items[0..] == items && items[..0] == [];
      assert [] + Deduped(items) == Deduped(items);
      hide MapRuns, KeepLast, AnsweredLater, Emit, Ids;
      while i < |items|
        invariant i <= |items|
        invariant Deduped(old(items)) == items[..i] + MapRuns(DedupRun, [], [], items[i..])
        invariant removed + |items| == |old(items)|
        decreases |items|, |items| - i
      {
        var x := items[i];
        if x.Assistant? && x.calls != [] {
          var end := FindRunEnd(items, i + 1);
          var toRemove := FindDuplicates(items, i + 1, end);
          var deduped := RemoveDuplicates(items, i + 1, end, toRemove);
          DedupStep(items, i, end, deduped);
          if toRemove != {} {
            items := deduped;
            removed := removed + |toRemove|;
          } else {
            i := end;
          }
        } else {
          CutOne(items, i);
          ScanPlain(DedupRun, x, items[i + 1..]);
          Regroup(items[..i], [x], MapRuns(DedupRun, [], [], items[i + 1..]), []);
          i := i + 1;
        }
      }
      ScanEnd(DedupRun, items, i);
    }

    /** Removes every tool result outside the run of the assistant declaring its id. */
    method StripDisplacedToolResults() returns (stripped: seq<string>)
      modifies this
      ensures items == Stripped(old(items)) == KeptFrom(old(items), 0)
      ensures stripped == DisplacedFrom(old(items), 0)
    {
      var kept;
      kept, stripped := Retain(items);
      KeptIsStripped(items, 0, [], []);
      assert items[0..] == items && Emit([]) + KeptFrom(items, 0) == KeptFrom(items, 0);
      items := kept;
    }

    /** Inserts synthetic results behind the run of every assistant with unanswered calls. */
    method RepairDanglingToolCalls() returns (inserted: nat)
      modifies this
      ensures items == Filled(old(items))
      ensures inserted == |items| - |old(items)|
    {
      var plan := PlanBackfill(items);
      inserted := 0;
      assert plan[..|plan|] == plan;
      for k := |plan| downto 0
        invariant InOrder(plan[..k], |items|)
        invariant Spliced(items, plan[..k]) == Filled(old(items))
        invariant |items| == |old(items)| + inserted
      {
        assert plan[..k + 1][..k] == plan[..k];
        items := Insert(items, plan[k]);
        inserted := inserted + |plan[k].made|;
      }
    }

    /** The whole repair; its report says "changed" exactly when the items did change. */
    method RepairHistory() returns (report: Report)
      modifies this
      ensures items == Repaired(old(items))
      ensures report.Changed() <==> items != old(items)
      ensures report.strippedIds == DisplacedFrom(Deduped(old(items)), 0)
      ensures report.duplicatesRemoved == |old(items)| - |Deduped(old(items))|
      ensures |items| == |old(items)| - report.duplicatesRemoved - |report.strippedIds| + report.syntheticInserted
    {
      var duplicates := DedupDuplicateToolResults();
      var stripped := StripDisplacedToolResults();
      var synthetic := RepairDanglingToolCalls();
      PassesMakeRepair(old(items));
      report := Report(duplicates, stripped, synthetic);
      RepairReport(old(items), report);
    }
  }

  lemma {:induction false} EmitRegroup(run: Run, x: ToolResultItem, y: Item, t: seq<Item>)
    ensures Emit(run + [x]) + t == Emit(run) + ([ToolResult(x)] + t)
    ensures Emit(run) + [y] + t == Emit(run) + ([y] + t)
    ensures Emit([]) + t == t && Emit(run) + [] == Emit(run)
  {}

  lemma {:induction false} ShrinkTells(f: Pass, calls: Calls, run: Run, s: seq<Item>)
    requires forall c, r :: |f(c, r)| <= |r| && (|f(c, r)| == |r| ==> f(c, r) == r)
    ensures |MapRuns(f, calls, run, s)| <= |run| + |s|
    ensures |MapRuns(f, calls, run, s)| == |run| + |s| ==> MapRuns(f, calls, run, s) == Emit(run) + s
    decreases |s|
  {
    if s != [] {
      assert s == [s[0]] + s[1..];
      if s[0].ToolResult? {
        EmitRegroup(run, s[0].result, s[0], s[1..]);
        ShrinkTells(f, calls, run + [s[0].result], s[1..]);
      } else {
        EmitRegroup(run, SOME_RESULT, s[0], s[1..]);
        ShrinkTells(f, CallsOf(s[0]), [], s[1..]);
      }
    } else {
      EmitRegroup(run, SOME_RESULT, System(""), []);
    }
  }

  const SOME_RESULT := ToolResultItem("", "", false, [])

  lemma {:induction false} GrowthTells(calls: Calls, run: Run, s: seq<Item>)
    ensures |MapRuns(FillRun, calls, run, s)| >= |run| + |s|
    ensures |MapRuns(FillRun, calls, run, s)| == |run| + |s| ==> MapRuns(FillRun, calls, run, s) == Emit(run) + s
    decreases |s|
  {
    assert |FillRun(calls, run)| == |run| ==> FillRun(calls, run) == run;
    if s != [] {
      assert s == [s[0]] + s[1..];
      if s[0].ToolResult? {
        EmitRegroup(run, s[0].result, s[0], s[1..]);
        GrowthTells(calls, run + [s[0].result], s[1..]);
      } else {
        EmitRegroup(run, SOME_RESULT, s[0], s[1..]);
        GrowthTells(CallsOf(s[0]), [], s[1..]);
      }
    } else {
      EmitRegroup(run, SOME_RESULT, System(""), []);
    }
  }

  /** The three counts are zero exactly when no pass did anything. */
  lemma {:induction false} RepairReport(s: seq<Item>, report: Report)
    requires report.duplicatesRemoved == |s| - |Deduped(s)|
    requires |report.strippedIds| == |Deduped(s)| - |Stripped(Deduped(s))|
    requires report.syntheticInserted == |Filled(Stripped(Deduped(s)))| - |Stripped(Deduped(s))|
    ensures report.Changed() <==> Repaired(s) != s
  {
    RepairChangesIff(s);
    forall c: Calls, r: Run
      ensures |DedupRun(c, r)| <= |r| && (|DedupRun(c, r)| == |r| ==> DedupRun(c, r) == r)
      ensures |StripRun(c, r)| <= |r| && (|StripRun(c, r)| == |r| ==> StripRun(c, r) == r)
    {
      KeepLastFacts(r);
      DeclaredOnlyFacts(CallIds(c), r);
    }
    ShrinkTells(DedupRun, [], [], s);
    ShrinkTells(StripRun, [], [], Deduped(s));
    GrowthTells([], [], Stripped(Deduped(s)));
    assert Emit([]) + s == s;
    assert Emit([]) + Deduped(s) == Deduped(s);
    assert Emit([]) + Stripped(Deduped(s)) == Stripped(Deduped(s));
  }
}
