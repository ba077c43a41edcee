/** Repair of tool pairing in a conversation: what each of the three passes of `repair_history`
    makes of a history, told run by run, and what the passes achieve together. */
module RepairHistory {
  import opened Conversations

  // ----- What each pass does to one run, given the calls the run may answer -----

  type Run = seq<ToolResultItem>
  type Calls = seq<ToolCall>

  function Ids(run: Run): set<string> {
    set r | r in run :: r.callId
  }

  /** How many results of `run` answer `id`. */
  function CountId(run: Run, id: string): nat {
    if run == [] then 0 else (if run[0].callId == id then 1 else 0) + CountId(run[1..], id)
  }

  /** Of the results sharing an id only the last stays. */
  function KeepLast(run: Run): (kept: Run)
    ensures |kept| <= |run|
  {
    if run == [] then []
    else if run[0].callId in Ids(run[1..]) then KeepLast(run[1..])
    else [run[0]] + KeepLast(run[1..])
  }

  function DeclaredOnly(ids: set<string>, run: Run): (kept: Run)
    ensures |kept| <= |run|
  {
    if run == [] then []
    else if run[0].callId in ids then [run[0]] + DeclaredOnly(ids, run[1..])
    else DeclaredOnly(ids, run[1..])
  }

  function SyntheticText(name: string): string {
    "Tool execution was halted by the harness (history_repair); the tool `" + name + "` was not executed."
  }

  function Synthetic(call: ToolCall): ToolResultItem {
    ToolResultItem(call.id, SyntheticText(call.name), false, [])
  }

  /** Synthetic results for the calls whose id is not in `answered`, in call order. */
  function Backfill(calls: Calls, answered: set<string>): Run {
    if calls == [] then []
    else if calls[0].id in answered then Backfill(calls[1..], answered)
    else [Synthetic(calls[0])] + Backfill(calls[1..], answered)
  }

  function DedupRun(calls: Calls, run: Run): Run {
    if calls == [] then run else KeepLast(run)
  }

  function StripRun(calls: Calls, run: Run): Run {
    DeclaredOnly(CallIds(calls), run)
  }

  function FillRun(calls: Calls, run: Run): Run {
    run + Backfill(calls, Ids(run))
  }

  function RepairRun(calls: Calls, run: Run): Run {
    FillRun(calls, StripRun(calls, DedupRun(calls, run)))
  }

  // ----- Passes over a whole history -----

  type Pass = (Calls, Run) -> Run
  type RunTest = (Calls, Run) -> bool

  function Emit(run: Run): (items: seq<Item>)
    ensures |items| == |run|
    ensures forall k :: 0 <= k < |run| ==> items[k] == ToolResult(run[k])
  {
    seq(|run|, k requires 0 <= k < |run| => ToolResult(run[k]))
  }

  /** Rewrites every run. `run` holds the results read since the last other item, whose calls
      are `calls`. */
  function MapRuns(f: Pass, calls: Calls, run: Run, s: seq<Item>): seq<Item>
    decreases |s|
  {
    if s == [] then Emit(f(calls, run))
    else if s[0].ToolResult? then MapRuns(f, calls, run + [s[0].result], s[1..])
    else Emit(f(calls, run)) + [s[0]] + MapRuns(f, CallsOf(s[0]), [], s[1..])
  }

  /** `p` holds of every run and the calls it may answer. */
  predicate EveryRun(p: RunTest, calls: Calls, run: Run, s: seq<Item>)
    decreases |s|
  {
    if s == [] then p(calls, run)
    else if s[0].ToolResult? then EveryRun(p, calls, run + [s[0].result], s[1..])
    else p(calls, run) && EveryRun(p, CallsOf(s[0]), [], s[1..])
  }

  function Deduped(s: seq<Item>): seq<Item> { MapRuns(DedupRun, [], [], s) }
  function Stripped(s: seq<Item>): seq<Item> { MapRuns(StripRun, [], [], s) }
  function Filled(s: seq<Item>): seq<Item> { MapRuns(FillRun, [], [], s) }
  function Repaired(s: seq<Item>): seq<Item> { MapRuns(RepairRun, [], [], s) }

  /** Results in front are read into the run. */
  lemma {:induction false} Absorb(f: Pass, calls: Calls, run: Run, r: Run, t: seq<Item>)
    ensures MapRuns(f, calls, run, Emit(r) + t) == MapRuns(f, calls, run + r, t)
    decreases |r|
  {
    if r == [] {
      assert Emit(r) + t == t && run + r == run;
    } else {
      assert (Emit(r) + t)[1..] == Emit(r[1..]) + t;
      assert run + r == run + [r[0]] + r[1..];
      Absorb(f, calls, run + [r[0]], r[1..], t);
    }
  }

  lemma {:induction false} AbsorbTest(p: RunTest, calls: Calls, run: Run, r: Run, t: seq<Item>)
    ensures EveryRun(p, calls, run, Emit(r) + t) == EveryRun(p, calls, run + r, t)
    decreases |r|
  {
    if r == [] {
      assert Emit(r) + t == t && run + r == run;
    } else {
      assert (Emit(r) + t)[1..] == Emit(r[1..]) + t;
      assert run + r == run + [r[0]] + r[1..];
      AbsorbTest(p, calls, run + [r[0]], r[1..], t);
    }
  }

  lemma {:induction false} AbsorbAll(f: Pass, calls: Calls, r: Run)
    ensures MapRuns(f, calls, [], Emit(r)) == Emit(f(calls, r))
  {
    assert Emit(r) + [] == Emit(r) && [] + r == r;
    Absorb(f, calls, [], r, []);
  }

  lemma {:induction false} AbsorbOther(f: Pass, calls: Calls, r: Run, x: Item, t: seq<Item>)
    requires !x.ToolResult?
    ensures MapRuns(f, calls, [], Emit(r) + [x] + t) == Emit(f(calls, r)) + [x] + MapRuns(f, CallsOf(x), [], t)
  {
    assert Emit(r) + [x] + t == Emit(r) + ([x] + t) && [] + r == r;
    assert ([x] + t)[1..] == t;
    Absorb(f, calls, [], r, [x] + t);
  }

  /** Two passes in sequence act on each run in sequence. */
  lemma {:induction false} MapRunsThen(f: Pass, g: Pass, gf: Pass, calls: Calls, run: Run, s: seq<Item>)
    requires forall c, r :: gf(c, r) == g(c, f(c, r))
    ensures MapRuns(g, calls, [], MapRuns(f, calls, run, s)) == MapRuns(gf, calls, run, s)
    decreases |s|
  {
    if s == [] {
      AbsorbAll(g, calls, f(calls, run));
    } else if s[0].ToolResult? {
      MapRunsThen(f, g, gf, calls, run + [s[0].result], s[1..]);
    } else {
      MapRunsThen(f, g, gf, CallsOf(s[0]), [], s[1..]);
      AbsorbOther(g, calls, f(calls, run), s[0], MapRuns(f, CallsOf(s[0]), [], s[1..]));
    }
  }

  /** What holds of the rewritten runs, said of the runs they come from. */
  lemma {:induction false} EveryRunOfMap(f: Pass, p: RunTest, q: RunTest, calls: Calls, run: Run, s: seq<Item>)
    requires forall c, r :: p(c, f(c, r)) <==> q(c, r)
    ensures EveryRun(p, calls, [], MapRuns(f, calls, run, s)) <==> EveryRun(q, calls, run, s)
    decreases |s|
  {
    var r := f(calls, run);
    assert [] + r == r;
    if s == [] {
      assert Emit(r) + [] == Emit(r);
      AbsorbTest(p, calls, [], r, []);
    } else if s[0].ToolResult? {
      EveryRunOfMap(f, p, q, calls, run + [s[0].result], s[1..]);
    } else {
      var t := MapRuns(f, CallsOf(s[0]), [], s[1..]);
      EveryRunOfMap(f, p, q, CallsOf(s[0]), [], s[1..]);
      assert Emit(r) + [s[0]] + t == Emit(r) + ([s[0]] + t) && ([s[0]] + t)[1..] == t;
      AbsorbTest(p, calls, [], r, [s[0]] + t);
    }
  }

  /** Two passes agree on a history exactly when they agree on each of its runs. */
  lemma {:induction false} MapRunsAgree(f: Pass, g: Pass, p: RunTest, calls: Calls, run: Run, s: seq<Item>)
    requires forall c, r :: p(c, r) <==> f(c, r) == g(c, r)
    ensures MapRuns(f, calls, run, s) == MapRuns(g, calls, run, s) <==> EveryRun(p, calls, run, s)
    decreases |s|
  {
    if s == [] {
      EmitInjective(f(calls, run), [], g(calls, run), []);
    } else if s[0].ToolResult? {
      MapRunsAgree(f, g, p, calls, run + [s[0].result], s[1..]);
    } else {
      MapRunsAgree(f, g, p, CallsOf(s[0]), [], s[1..]);
      var t, u := MapRuns(f, CallsOf(s[0]), [], s[1..]), MapRuns(g, CallsOf(s[0]), [], s[1..]);
      EmitInjective(f(calls, run), [s[0]] + t, g(calls, run), [s[0]] + u);
      assert ([s[0]] + t)[1..] == t && ([s[0]] + u)[1..] == u;
      assert Emit(f(calls, run)) + [s[0]] + t == Emit(f(calls, run)) + ([s[0]] + t);
      assert Emit(g(calls, run)) + [s[0]] + u == Emit(g(calls, run)) + ([s[0]] + u);
    }
  }

  lemma {:induction false} EmitInjective(r: Run, t: seq<Item>, r': Run, t': seq<Item>)
    requires (t != [] ==> !t[0].ToolResult?) && (t' != [] ==> !t'[0].ToolResult?)
    ensures Emit(r) + t == Emit(r') + t' <==> r == r' && t == t'
  {
    if Emit(r) + t == Emit(r') + t' {
      var s := Emit(r) + t;
      assert |r| < |s| ==> !s[|r|].ToolResult?;
      assert |r'| < |s| ==> !s[|r'|].ToolResult?;
      assert forall k :: 0 <= k < |r| ==> s[k].ToolResult?;
      assert forall k :: 0 <= k < |r'| ==> s[k].ToolResult?;
      assert s[|r|..] == t && s[|r'|..] == t';
      forall k | 0 <= k < |r| ensures r[k] == r'[k] {
        assert s[k] == Emit(r)[k] == Emit(r')[k];
      }
    }
  }

  lemma {:induction false} EveryRunAlways(p: RunTest, calls: Calls, run: Run, s: seq<Item>)
    requires forall c, r :: p(c, r)
    ensures EveryRun(p, calls, run, s)
    decreases |s|
  {
    if s != [] {
      if s[0].ToolResult? {
        EveryRunAlways(p, calls, run + [s[0].result], s[1..]);
      } else {
        EveryRunAlways(p, CallsOf(s[0]), [], s[1..]);
      }
    }
  }

  // ----- One run -----

  /** The ids declared more than once among `calls`. */
  function RepeatedIds(calls: Calls): set<string> {
    if calls == [] then {}
    else if calls[0].id in CallIds(calls[1..]) then {calls[0].id} + RepeatedIds(calls[1..])
    else RepeatedIds(calls[1..])
  }

  /** Every id declared more than once is answered in the run. */
  predicate RepeatsAnswered(calls: Calls, run: Run) {
    RepeatedIds(calls) <= Ids(run)
  }

  predicate OnlyDeclared(calls: Calls, run: Run) {
    Ids(run) <= CallIds(calls)
  }

  predicate CompleteRun(calls: Calls, run: Run) {
    Ids(run) == CallIds(calls)
  }

  predicate UniqueIds(run: Run) {
    run == [] || (run[0].callId !in Ids(run[1..]) && UniqueIds(run[1..]))
  }

  /** Every declared call has exactly one result in the run, and the run holds nothing else. */
  predicate AnsweredOnce(calls: Calls, run: Run) {
    OnlyDeclared(calls, run) && forall id :: id in CallIds(calls) ==> CountId(run, id) == 1
  }

  lemma {:induction false} IdsCons(x: ToolResultItem, t: Run)
    ensures Ids([x] + t) == {x.callId} + Ids(t)
    ensures ([x] + t)[1..] == t
  {
    assert ([x] + t)[1..] == t;
    assert forall r :: r in [x] + t <==> r == x || r in t;
  }

  lemma {:induction false} IdsSplit(run: Run)
    requires run != []
    ensures Ids(run) == {run[0].callId} + Ids(run[1..])
  {
    assert run == [run[0]] + run[1..];
    IdsCons(run[0], run[1..]);
  }

  lemma IdsConcat(r: Run, t: Run)
    ensures Ids(r + t) == Ids(r) + Ids(t)
  {}

  lemma {:induction false} EmptyRun(run: Run)
    ensures Ids(run) == {} <==> run == []
  {
    assert run != [] ==> run[0].callId in Ids(run);
  }

  lemma {:induction false} CountPositive(run: Run, id: string)
    ensures CountId(run, id) > 0 <==> id in Ids(run)
  {
    if run != [] {
      CountPositive(run[1..], id);
      IdsSplit(run);
    }
  }

  lemma {:induction false} CountConcat(r: Run, t: Run, id: string)
    ensures CountId(r + t, id) == CountId(r, id) + CountId(t, id)
  {
    if r == [] {
      assert r + t == t;
    } else {
      assert (r + t)[1..] == r[1..] + t;
      CountConcat(r[1..], t, id);
    }
  }

  /** Distinct ids are the same thing as no id counted twice. */
  lemma {:induction false} UniqueCounts(run: Run)
    ensures UniqueIds(run) <==> forall id :: id in Ids(run) ==> CountId(run, id) == 1
  {
    if run != [] {
      IdsSplit(run);
      UniqueCounts(run[1..]);
      CountPositive(run[1..], run[0].callId);
      if id :| id in Ids(run[1..]) && CountId(run[1..], id) != 1 {
        CountPositive(run[1..], id);
        assert id in Ids(run) && CountId(run, id) > 1;
      }
    }
  }

  lemma {:induction false} UniqueConcat(r: Run, t: Run)
    requires UniqueIds(r) && Ids(r) !! Ids(t)
    ensures UniqueIds(r + t) <==> UniqueIds(t)
  {
    if r == [] {
      assert r + t == t;
    } else {
      assert (r + t)[1..] == r[1..] + t;
      IdsSplit(r);
      IdsConcat(r[1..], t);
      UniqueConcat(r[1..], t);
    }
  }

  lemma {:induction false} KeepLastFacts(run: Run)
    ensures Ids(KeepLast(run)) == Ids(run)
    ensures UniqueIds(KeepLast(run))
    ensures KeepLast(run) == run <==> UniqueIds(run)
    ensures |KeepLast(run)| == |run| <==> UniqueIds(run)
  {
    if run != [] {
      IdsSplit(run);
      KeepLastFacts(run[1..]);
      if run[0].callId !in Ids(run[1..]) {
        IdsCons(run[0], KeepLast(run[1..]));
      }
    }
  }

  lemma {:induction false} DeclaredOnlyFacts(ids: set<string>, run: Run)
    ensures Ids(DeclaredOnly(ids, run)) == Ids(run) * ids
    ensures UniqueIds(run) ==> UniqueIds(DeclaredOnly(ids, run))
    ensures DeclaredOnly(ids, run) == run <==> Ids(run) <= ids
    ensures |DeclaredOnly(ids, run)| == |run| <==> Ids(run) <= ids
  {
    if run != [] {
      IdsSplit(run);
      DeclaredOnlyFacts(ids, run[1..]);
      IdsCons(run[0], DeclaredOnly(ids, run[1..]));
    }
  }

  lemma {:induction false} CallIdsSplit(calls: Calls)
    requires calls != []
    ensures CallIds(calls) == {calls[0].id} + CallIds(calls[1..])
  {
    assert calls == [calls[0]] + calls[1..];
  }

  lemma {:induction false} BackfillFacts(calls: Calls, answered: set<string>)
    ensures Ids(Backfill(calls, answered)) == CallIds(calls) - answered
    ensures UniqueIds(Backfill(calls, answered)) <==> RepeatedIds(calls) <= answered
    ensures CallIds(calls) <= answered <==> Backfill(calls, answered) == []
  {
    if calls != [] {
      CallIdsSplit(calls);
      BackfillFacts(calls[1..], answered);
      IdsCons(Synthetic(calls[0]), Backfill(calls[1..], answered));
    }
  }

  lemma {:induction false} RepeatedDeclared(calls: Calls)
    ensures RepeatedIds(calls) <= CallIds(calls)
  {
    if calls != [] {
      RepeatedDeclared(calls[1..]);
      CallIdsSplit(calls);
    }
  }

  /** The results that survive the first two passes: one per declared id that has an answer. */
  lemma {:induction false} StripDedupFacts(calls: Calls, run: Run)
    ensures var s := StripRun(calls, DedupRun(calls, run));
      Ids(s) == Ids(run) * CallIds(calls) && UniqueIds(s)
  {
    KeepLastFacts(run);
    DeclaredOnlyFacts(CallIds(calls), DedupRun(calls, run));
    if calls == [] {
      EmptyRun(StripRun(calls, DedupRun(calls, run)));
    }
  }

  /** Repair leaves exactly the declared ids; each once, unless an id declared more than once
      had no answer. */
  lemma {:induction false} RepairRunFacts(calls: Calls, run: Run)
    ensures CompleteRun(calls, RepairRun(calls, run))
    ensures UniqueIds(RepairRun(calls, run)) <==> RepeatsAnswered(calls, run)
  {
    hide RepeatedIds, UniqueIds, Backfill, DeclaredOnly, KeepLast, Ids, CallIds;
    var s := StripRun(calls, DedupRun(calls, run));
    StripDedupFacts(calls, run);
    BackfillFacts(calls, Ids(s));
    IdsConcat(s, Backfill(calls, Ids(s)));
    UniqueConcat(s, Backfill(calls, Ids(s)));
    RepeatedDeclared(calls);
  }

  lemma {:induction false} RepairRunAnswers(calls: Calls, run: Run)
    ensures AnsweredOnce(calls, RepairRun(calls, run)) <==> RepeatsAnswered(calls, run)
  {
    RepairRunFacts(calls, run);
    UniqueCounts(RepairRun(calls, run));
  }

  /** The second and third pass leave a run alone that answers exactly the declared ids. */
  lemma {:induction false} CompleteRunStays(calls: Calls, run: Run)
    requires CompleteRun(calls, run)
    ensures StripRun(calls, run) == run && FillRun(calls, run) == run
  {
    DeclaredOnlyFacts(CallIds(calls), run);
    BackfillFacts(calls, Ids(run));
    assert run + [] == run;
  }

  /** Repairing a run a second time changes nothing exactly when no repeated id was left unanswered;
      and what a second repair does change, its first pass alone changes. */
  lemma {:induction false} RepairRunTwice(calls: Calls, run: Run)
    ensures DedupRun(calls, RepairRun(calls, run)) == RepairRun(calls, run) <==> RepeatsAnswered(calls, run)
    ensures RepairRun(calls, RepairRun(calls, run)) == DedupRun(calls, RepairRun(calls, run))
  {
    var out := RepairRun(calls, run);
    RepairRunFacts(calls, run);
    KeepLastFacts(out);
    if calls == [] {
      EmptyRun(out);
    }
    CompleteRunStays(calls, DedupRun(calls, out));
  }

  /** The last result of a run that answers `id`. */
  function LastAnswer(run: Run, id: string): (r: ToolResultItem)
    requires id in Ids(run)
    ensures r in run && r.callId == id
    decreases |run|
  {
    if id in Ids(run[1..]) then LastAnswer(run[1..], id)
    else IdsSplit(run); run[0]
  }

  lemma {:induction false} KeepLastKeeps(run: Run, id: string)
    requires id in Ids(run)
    ensures LastAnswer(run, id) in KeepLast(run)
  {
    IdsSplit(run);
    if id in Ids(run[1..]) {
      KeepLastKeeps(run[1..], id);
    }
  }

  lemma {:induction false} DeclaredOnlyKeeps(ids: set<string>, run: Run, r: ToolResultItem)
    requires r in run && r.callId in ids
    ensures r in DeclaredOnly(ids, run)
  {
    if r != run[0] {
      DeclaredOnlyKeeps(ids, run[1..], r);
    }
  }

  /** An answered call keeps its real result, the last one its run holds; nothing synthetic
      replaces or joins it. */
  lemma {:induction false} RepairKeepsLastAnswer(calls: Calls, run: Run, id: string)
    requires id in Ids(run) && id in CallIds(calls)
    ensures LastAnswer(run, id) in RepairRun(calls, run)
    ensures CountId(RepairRun(calls, run), id) == 1
  {
    var d := DedupRun(calls, run);
    KeepLastKeeps(run, id);
    DeclaredOnlyKeeps(CallIds(calls), d, LastAnswer(run, id));
    var s := StripRun(calls, d);
    StripDedupFacts(calls, run);
    UniqueCounts(s);
    BackfillFacts(calls, Ids(s));
    CountPositive(Backfill(calls, Ids(s)), id);
    CountConcat(s, Backfill(calls, Ids(s)), id);
  }

  // ----- Runs by position -----

  /** The runs of a history by position: the leading one, and the one behind each other item. */
  lemma {:induction false} EveryRunByPosition(p: RunTest, calls: Calls, run: Run, s: seq<Item>)
    ensures EveryRun(p, calls, run, s) <==>
      && p(calls, run + LeadingRun(s))
      && forall a :: 0 <= a < |s| && !s[a].ToolResult? ==> p(CallsOf(s[a]), RunAfter(s, a))
    decreases |s|
  {
    if s == [] {
      assert run + [] == run;
    } else {
      var t := s[1..];
      forall a | 0 <= a < |t| ensures t[a] == s[a + 1] && RunAfter(t, a) == RunAfter(s, a + 1) {
        assert t[a + 1..] == s[a + 2..];
      }
      assert forall a :: 0 < a < |s| ==> s[a] == t[a - 1];
      assert RunAfter(s, 0) == LeadingRun(t);
      if s[0].ToolResult? {
        EveryRunByPosition(p, calls, run + [s[0].result], t);
        assert run + [s[0].result] + LeadingRun(t) == run + LeadingRun(s);
      } else {
        EveryRunByPosition(p, CallsOf(s[0]), [], t);
        assert run + [] == run && [] + LeadingRun(t) == LeadingRun(t);
      }
    }
  }

  lemma {:induction false} RunHasOwner(s: seq<Item>, a: int, k: nat)
    requires -1 <= a < |s| && (a >= 0 ==> !s[a].ToolResult?)
    requires k < |LeadingRun(s[a + 1..])|
    ensures s[a + 1 + k] == ToolResult(LeadingRun(s[a + 1..])[k])
    ensures OwnerOf(s, a + 1 + k) == a
  {
    var t := s[a + 1..];
    forall j | a < j <= a + 1 + k ensures s[j].ToolResult? {
      assert t[j - a - 1] == s[j];
    }
    OwnerUnique(s, a + 1 + k, a);
  }

  lemma {:induction false} OwnerHasRun(s: seq<Item>, i: nat, a: int, run: Run)
    requires i < |s| && s[i].ToolResult? && a == OwnerOf(s, i) && run == LeadingRun(s[a + 1..])
    ensures i - a - 1 < |run| && run[i - a - 1] == s[i].result && s[i].result in run
  {
    var t := s[a + 1..];
    assert forall j :: 0 <= j <= i - a - 1 ==> t[j] == s[a + 1 + j];
    assert |run| < |t| ==> !t[|run|].ToolResult?;
    assert run[i - a - 1] == s[i].result;
  }

  lemma {:induction false} PairedRun(s: seq<Item>, a: int)
    requires Paired(s) && -1 <= a < |s| && (a >= 0 ==> !s[a].ToolResult?)
    ensures OnlyDeclared(if a < 0 then [] else CallsOf(s[a]), LeadingRun(s[a + 1..]))
  {
    var run := LeadingRun(s[a + 1..]);
    forall k | 0 <= k < |run| ensures run[k].callId in CallIds(if a < 0 then [] else CallsOf(s[a])) {
      RunHasOwner(s, a, k);
      assert InOwnRun(s, a + 1 + k);
    }
  }

  /** The run behind position `a`, or the leading one for -1, holds declared ids only. */
  lemma {:induction false} RunOfOwner(s: seq<Item>, a: int)
    requires EveryRun(OnlyDeclared, [], [], s) && -1 <= a < |s| && (a >= 0 ==> !s[a].ToolResult?)
    ensures OnlyDeclared(if a < 0 then [] else CallsOf(s[a]), LeadingRun(s[a + 1..]))
  {
    hide EveryRun, LeadingRun, OnlyDeclared, CallsOf;
    EveryRunByPosition(OnlyDeclared, [], [], s);
    if a < 0 {
      assert s[0..] == s && [] + LeadingRun(s) == LeadingRun(s);
    } else {
      assert OnlyDeclared(CallsOf(s[a]), RunAfter(s, a));
    }
  }

  lemma DeclaredResult(calls: Calls, run: Run, r: ToolResultItem)
    requires OnlyDeclared(calls, run) && r in run
    ensures r.callId in CallIds(calls)
  {
    assert r.callId in Ids(run);
  }

  lemma {:induction false} RunsPaired(s: seq<Item>, i: nat)
    requires EveryRun(OnlyDeclared, [], [], s) && i < |s| && s[i].ToolResult?
    ensures InOwnRun(s, i)
  {
    hide EveryRun, LeadingRun, OwnerOf, OnlyDeclared, CallsOf, CallIds, Ids;
    var a := OwnerOf(s, i);
    var run := LeadingRun(s[a + 1..]);
    OwnerHasRun(s, i, a, run);
    RunOfOwner(s, a);
    DeclaredResult(if a < 0 then [] else CallsOf(s[a]), run, s[i].result);
  }

  /** Pairing is a property of the runs. */
  lemma {:induction false} PairedByRuns(s: seq<Item>)
    ensures Paired(s) <==> EveryRun(OnlyDeclared, [], [], s)
  {
    if Paired(s) {
      assert s[0..] == s && [] + LeadingRun(s) == LeadingRun(s);
      PairedRun(s, -1);
      forall a | 0 <= a < |s| && !s[a].ToolResult? ensures OnlyDeclared(CallsOf(s[a]), RunAfter(s, a)) {
        PairedRun(s, a);
      }
      EveryRunByPosition(OnlyDeclared, [], [], s);
    }
    if EveryRun(OnlyDeclared, [], [], s) {
      forall i | 0 <= i < |s| && s[i].ToolResult? ensures InOwnRun(s, i) {
        RunsPaired(s, i);
      }
    }
  }

  // ----- Main results -----

  function NonResults(s: seq<Item>): seq<Item> {
    if s == [] then []
    else if s[0].ToolResult? then NonResults(s[1..])
    else [s[0]] + NonResults(s[1..])
  }

  lemma {:induction false} NonResultsBehind(run: Run, t: seq<Item>)
    ensures NonResults(Emit(run) + t) == NonResults(t)
    decreases |run|
  {
    if run == [] {
      assert Emit(run) + t == t;
    } else {
      assert (Emit(run) + t)[1..] == Emit(run[1..]) + t;
      NonResultsBehind(run[1..], t);
    }
  }

  /** Every pass keeps all items that are not tool results, in order. */
  lemma {:induction false} MapRunsKeepsOthers(f: Pass, calls: Calls, run: Run, s: seq<Item>)
    ensures NonResults(MapRuns(f, calls, run, s)) == NonResults(s)
    decreases |s|
  {
    var r := f(calls, run);
    if s == [] {
      assert Emit(r) + [] == Emit(r);
      NonResultsBehind(r, []);
    } else if s[0].ToolResult? {
      MapRunsKeepsOthers(f, calls, run + [s[0].result], s[1..]);
    } else {
      var t := MapRuns(f, CallsOf(s[0]), [], s[1..]);
      MapRunsKeepsOthers(f, CallsOf(s[0]), [], s[1..]);
      assert Emit(r) + [s[0]] + t == Emit(r) + ([s[0]] + t) && ([s[0]] + t)[1..] == t;
      NonResultsBehind(r, [s[0]] + t);
    }
  }

  /** The three passes in order are one repair of each run. */
  lemma {:induction false} PassesMakeRepair(s: seq<Item>)
    ensures Filled(Stripped(Deduped(s))) == Repaired(s)
  {
    var two := (c: Calls, r: Run) => StripRun(c, DedupRun(c, r));
    MapRunsThen(DedupRun, StripRun, two, [], [], s);
    MapRunsThen(two, FillRun, RepairRun, [], [], s);
  }

  /** Some assistant declares an id twice and no result in the run behind it answers that id.
      A caller can test for it by scanning the history once. */
  predicate HasUnansweredRepeat(s: seq<Item>) {
    exists a :: 0 <= a < |s| && s[a].Assistant? && !(RepeatedIds(s[a].calls) <= Ids(RunAfter(s, a)))
  }

  /** Every declared call has an answer in the run behind its assistant. */
  predicate EachCallAnswered(s: seq<Item>) {
    forall a :: 0 <= a < |s| && s[a].Assistant? ==> CallIds(s[a].calls) <= Ids(RunAfter(s, a))
  }

  /** Every declared call is answered exactly once in the run behind its assistant. */
  predicate EachCallAnsweredOnce(s: seq<Item>) {
    forall a, id :: 0 <= a < |s| && s[a].Assistant? && id in CallIds(s[a].calls) ==> CountId(RunAfter(s, a), id) == 1
  }

  lemma {:induction false} RepeatsByPosition(s: seq<Item>)
    ensures EveryRun(RepeatsAnswered, [], [], s) <==> !HasUnansweredRepeat(s)
  {
    EveryRunByPosition(RepeatsAnswered, [], [], s);
  }

  lemma {:induction false} CompleteByPosition(s: seq<Item>)
    ensures EveryRun(CompleteRun, [], [], s) <==> Paired(s) && EachCallAnswered(s)
  {
    PairedByRuns(s);
    EveryRunByPosition(OnlyDeclared, [], [], s);
    EveryRunByPosition(CompleteRun, [], [], s);
    if EveryRun(CompleteRun, [], [], s) {
      forall a | 0 <= a < |s| && s[a].Assistant? ensures CallIds(s[a].calls) <= Ids(RunAfter(s, a)) {
        assert CompleteRun(CallsOf(s[a]), RunAfter(s, a));
      }
    }
    if Paired(s) && EachCallAnswered(s) {
      forall a | 0 <= a < |s| && !s[a].ToolResult? ensures CompleteRun(CallsOf(s[a]), RunAfter(s, a)) {
        assert OnlyDeclared(CallsOf(s[a]), RunAfter(s, a));
      }
    }
  }

  lemma {:induction false} AnsweredOnceByPosition(s: seq<Item>)
    requires Paired(s)
    ensures EveryRun(AnsweredOnce, [], [], s) <==> EachCallAnsweredOnce(s)
  {
    PairedByRuns(s);
    EveryRunByPosition(OnlyDeclared, [], [], s);
    EveryRunByPosition(AnsweredOnce, [], [], s);
    if EachCallAnsweredOnce(s) {
      forall a | 0 <= a < |s| && !s[a].ToolResult? ensures AnsweredOnce(CallsOf(s[a]), RunAfter(s, a)) {
        assert OnlyDeclared(CallsOf(s[a]), RunAfter(s, a));
      }
    }
    if EveryRun(AnsweredOnce, [], [], s) {
      forall a, id | 0 <= a < |s| && s[a].Assistant? && id in CallIds(s[a].calls)
        ensures CountId(RunAfter(s, a), id) == 1
      {
        assert AnsweredOnce(CallsOf(s[a]), RunAfter(s, a));
      }
    }
  }

  /** Whatever the input, repair pairs every result, answers every declared call in its own run,
      and keeps every item that is not a result, in order. */
  lemma {:induction false} RepairCompletes(s: seq<Item>)
    ensures Paired(Repaired(s)) && EachCallAnswered(Repaired(s))
    ensures NonResults(Repaired(s)) == NonResults(s)
  {
    var always := (c: Calls, r: Run) => true;
    forall c: Calls, r: Run ensures CompleteRun(c, RepairRun(c, r)) {
      RepairRunFacts(c, r);
    }
    EveryRunOfMap(RepairRun, CompleteRun, always, [], [], s);
    EveryRunAlways(always, [], [], s);
    CompleteByPosition(Repaired(s));
    MapRunsKeepsOthers(RepairRun, [], [], s);
  }

  /** After repair each declared call has exactly one answer, for all calls at once, if and only if
      the input had no unanswered repeated id. */
  lemma {:induction false} RepairAnswersOnceIff(s: seq<Item>)
    ensures EachCallAnsweredOnce(Repaired(s)) <==> !HasUnansweredRepeat(s)
  {
    forall c: Calls, r: Run ensures AnsweredOnce(c, RepairRun(c, r)) <==> RepeatsAnswered(c, r) {
      RepairRunAnswers(c, r);
    }
    EveryRunOfMap(RepairRun, AnsweredOnce, RepeatsAnswered, [], [], s);
    RepairCompletes(s);
    AnsweredOnceByPosition(Repaired(s));
    RepeatsByPosition(s);
  }

  /** Repair is idempotent exactly when the input has no unanswered repeated id; when it has one,
      the second repair finds duplicates to remove, and only its first pass changes anything. */
  lemma {:induction false} RepairIdempotentIff(s: seq<Item>)
    ensures Repaired(Repaired(s)) == Repaired(s) <==> !HasUnansweredRepeat(s)
    ensures Repaired(Repaired(s)) == Deduped(Repaired(s))
  {
    var again := (c: Calls, r: Run) => DedupRun(c, RepairRun(c, r));
    forall c: Calls, r: Run
      ensures again(c, r) == RepairRun(c, r) <==> RepeatsAnswered(c, r)
      ensures again(c, r) == RepairRun(c, RepairRun(c, r))
    {
      RepairRunTwice(c, r);
    }
    MapRunsThen(RepairRun, RepairRun, again, [], [], s);
    MapRunsThen(RepairRun, DedupRun, again, [], [], s);
    MapRunsAgree(again, RepairRun, RepeatsAnswered, [], [], s);
    RepeatsByPosition(s);
  }

  /** Two repairs always suffice: a third one changes nothing. */
  lemma {:induction false} RepairTwiceSettles(s: seq<Item>)
    ensures Repaired(Repaired(Repaired(s))) == Repaired(Repaired(s))
  {
    var t := Repaired(s);
    RepairIdempotentIff(t);
    RepairCompletes(s);
    forall a | 0 <= a < |t| && t[a].Assistant? ensures RepeatedIds(t[a].calls) <= Ids(RunAfter(t, a)) {
      RepeatedDeclared(t[a].calls);
    }
  }

  /** The smallest history on which the documented idempotence fails. */
  lemma {:induction false} RepairNotIdempotentWitness()
    ensures var s := [Assistant("", [ToolCall("x", "edit", "{}"), ToolCall("x", "edit", "{}")])];
      Repaired(Repaired(s)) != Repaired(s)
  {
    var call := ToolCall("x", "edit", "{}");
    var s := [Assistant("", [call, call])];
    assert [call, call][1..] == [call] && call in [call];
    assert "x" in CallIds([call]);
    assert "x" in RepeatedIds(s[0].calls);
    assert RunAfter(s, 0) == [];
    RepairIdempotentIff(s);
  }

  /** The second and third pass leave alone a paired history in which every call is answered. */
  lemma {:induction false} CompleteHistoryStays(s: seq<Item>)
    requires Paired(s) && EachCallAnswered(s)
    ensures Stripped(s) == s && Filled(s) == s
  {
    CompleteByPosition(s);
    forall c: Calls, r: Run | CompleteRun(c, r) ensures StripRun(c, r) == r && FillRun(c, r) == r {
      CompleteRunStays(c, r);
    }
    MapRunsStays(StripRun, CompleteRun, [], [], s);
    MapRunsStays(FillRun, CompleteRun, [], [], s);
    assert Emit([]) + s == s;
  }

  lemma {:induction false} MapRunsStays(f: Pass, p: RunTest, calls: Calls, run: Run, s: seq<Item>)
    requires EveryRun(p, calls, run, s)
    requires forall c, r :: p(c, r) ==> f(c, r) == r
    ensures MapRuns(f, calls, run, s) == Emit(run) + s
    decreases |s|
  {
    if s == [] {
      assert Emit(run) + [] == Emit(run);
    } else if s[0].ToolResult? {
      MapRunsStays(f, p, calls, run + [s[0].result], s[1..]);
      assert Emit(run + [s[0].result]) + s[1..] == Emit(run) + s;
    } else {
      MapRunsStays(f, p, CallsOf(s[0]), [], s[1..]);
      assert Emit([]) + s[1..] == s[1..];
      assert Emit(run) + [s[0]] + s[1..] == Emit(run) + s;
    }
  }

  /** A history is left alone by repair exactly when every single pass leaves it alone. */
  lemma {:induction false} RepairChangesIff(s: seq<Item>)
    ensures Repaired(s) == s <==>
      Deduped(s) == s && Stripped(Deduped(s)) == Deduped(s) && Filled(Stripped(Deduped(s))) == Stripped(Deduped(s))
  {
    PassesMakeRepair(s);
    if Repaired(s) == s {
      RepairCompletes(s);
      RepairIdempotentIff(s);
      CompleteHistoryStays(s);
    }
  }

  // ----- Answers in parts of a history -----

  lemma {:induction false} AnsweredInSuffix(pre: seq<Item>, s: seq<Item>)
    requires EachCallAnsweredOnce(pre + s)
    ensures EachCallAnsweredOnce(s)
  {
    hide CallIds, CountId, LeadingRun;
    forall a, id | 0 <= a < |s| && s[a].Assistant? && id in CallIds(s[a].calls)
      ensures CountId(RunAfter(s, a), id) == 1
    {
      assert (pre + s)[|pre| + a] == s[a];
      assert (pre + s)[|pre| + a + 1..] == s[a + 1..];
    }
  }

  lemma {:induction false} LeadingRunStops(s: seq<Item>, t: seq<Item>)
    requires t != [] ==> !t[0].ToolResult?
    ensures LeadingRun(s + t) == LeadingRun(s)
  {
    if s == [] {
      assert s + t == t;
    } else {
      assert (s + t)[1..] == s[1..] + t;
      LeadingRunStops(s[1..], t);
    }
  }

  /** Items without calls around a history change nothing about its answers. */
  lemma {:induction false} AnsweredInMiddle(front: seq<Item>, s: seq<Item>, back: seq<Item>)
    requires EachCallAnsweredOnce(s)
    requires forall k :: 0 <= k < |front| ==> !front[k].Assistant?
    requires forall k :: 0 <= k < |back| ==> !back[k].Assistant? && !back[k].ToolResult?
    ensures EachCallAnsweredOnce(front + s + back)
  {
    hide CallIds, CountId, LeadingRun;
    var t := front + s + back;
    forall a, id | 0 <= a < |t| && t[a].Assistant? && id in CallIds(t[a].calls)
      ensures CountId(RunAfter(t, a), id) == 1
    {
      var b := a - |front|;
      assert 0 <= b < |s| && t[a] == s[b];
      assert t[a + 1..] == s[b + 1..] + back;
      LeadingRunStops(s[b + 1..], back);
    }
  }
}
