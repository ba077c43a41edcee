/** The billing ledger: saturating totals, per-model entries kept in step with them, and child
    ledgers folded into their parent without losing or inventing anything. */
module UsageLedger {
  import opened Options

  newtype U32 = x: int | 0 <= x < 0x1_0000_0000
  newtype U64 = x: int | 0 <= x < 0x1_0000_0000_0000_0000
  newtype I64 = x: int | -0x8000_0000_0000_0000 <= x < 0x8000_0000_0000_0000

  const U64_MAX: U64 := 0xffff_ffff_ffff_ffff
  const I64_MAX: I64 := 0x7fff_ffff_ffff_ffff
  const I64_MIN: I64 := -0x8000_0000_0000_0000

  function Sat(a: U64, b: U64): U64 {
    if a as int + b as int > U64_MAX as int then U64_MAX else a + b
  }

  /** Addition clamped at both ends. */
  function SatSigned(a: I64, b: I64): I64 {
    var sum := a as int + b as int;
    if sum > I64_MAX as int then I64_MAX else if sum < I64_MIN as int then I64_MIN else sum as I64
  }

  datatype Totals = Totals(
    input: U64, output: U64, cachedRead: U64, cacheCreation: U64, reasoning: U64,
    modelCalls: U64, apiDurationMs: U64, cost: Option<I64>, costMissing: U64)

  const ZERO := Totals(0, 0, 0, 0, 0, 0, 0, None, 0)

  function OrZero(cost: Option<I64>): I64 { if cost.Some? then cost.value else 0 }

  function MergeCost(a: Option<I64>, b: Option<I64>): Option<I64> {
    if a.None? && b.None? then None else Some(SatSigned(OrZero(a), OrZero(b)))
  }

  function Fold(a: Totals, b: Totals): Totals {
    Totals(Sat(a.input, b.input), Sat(a.output, b.output), Sat(a.cachedRead, b.cachedRead),
      Sat(a.cacheCreation, b.cacheCreation), Sat(a.reasoning, b.reasoning), Sat(a.modelCalls, b.modelCalls),
      Sat(a.apiDurationMs, b.apiDurationMs), MergeCost(a.cost, b.cost), Sat(a.costMissing, b.costMissing))
  }

  // ----- Calls -----

  datatype TokenUsage = TokenUsage(prompt: U32, completion: U32, cachedPrompt: U32, cacheCreation: U32, reasoning: U32)

  /** Only a positive cost counts as reported. */
  function ReportedCost(raw: Option<I64>): Option<I64> {
    if raw.Some? && raw.value > 0 then raw else None
  }

  datatype Call = Call(model: string, usage: TokenUsage, apiDurationMs: Option<U64>, cost: Option<I64>)

  function FromCall(c: Call): Totals {
    var cost := ReportedCost(c.cost);
    Totals(c.usage.prompt as U64, c.usage.completion as U64, c.usage.cachedPrompt as U64, c.usage.cacheCreation as U64,
      c.usage.reasoning as U64, 1, if c.apiDurationMs.Some? then c.apiDurationMs.value else 0, cost,
        if cost.None? then 1 else 0)
  }

  predicate CostIsPartial(t: Totals) { t.cost.Some? && t.costMissing > 0 }

  // ----- When folding is a sum -----

  lemma FoldLaws(a: Totals, b: Totals)
    ensures Fold(a, b) == Fold(b, a)
    ensures Fold(a, ZERO) == a && Fold(ZERO, a) == a
  {
  }

  /** A cost clamped on one side must not be pulled back by the third. */
  predicate CostsGroup(a: I64, b: I64, c: I64) {
    && (a as int + b as int > I64_MAX as int ==> c >= 0) && (a as int + b as int < I64_MIN as int ==> c <= 0)
    && (b as int + c as int > I64_MAX as int ==> a >= 0) && (b as int + c as int < I64_MIN as int ==> a <= 0)
  }

  /** Grouping makes no difference, saturated or not, if and only if no clamped cost is pulled back. */
  lemma FoldGroupsIff(a: Totals, b: Totals, c: Totals)
    ensures Fold(Fold(a, b), c) == Fold(a, Fold(b, c)) <==> CostsGroup(OrZero(a.cost), OrZero(b.cost), OrZero(c.cost))
  {
    CountsGroup(a.input, b.input, c.input);
    CountsGroup(a.output, b.output, c.output);
    CountsGroup(a.cachedRead, b.cachedRead, c.cachedRead);
    CountsGroup(a.cacheCreation, b.cacheCreation, c.cacheCreation);
    CountsGroup(a.reasoning, b.reasoning, c.reasoning);
    CountsGroup(a.modelCalls, b.modelCalls, c.modelCalls);
    CountsGroup(a.apiDurationMs, b.apiDurationMs, c.apiDurationMs);
    CountsGroup(a.costMissing, b.costMissing, c.costMissing);
    SignedGroupIff(OrZero(a.cost), OrZero(b.cost), OrZero(c.cost));
    hide Sat, SatSigned;
  }

  lemma CountsGroup(a: U64, b: U64, c: U64)
    ensures Sat(Sat(a, b), c) == Sat(a, Sat(b, c))
  {
  }

  lemma SignedGroupIff(a: I64, b: I64, c: I64)
    ensures SatSigned(SatSigned(a, b), c) == SatSigned(a, SatSigned(b, c)) <==> CostsGroup(a, b, c)
    ensures SatSigned(a, 0) == a && SatSigned(0, a) == a
  {
  }

  /** How far a cost lies above and below zero. */
  function UpOf(t: Totals): nat { if OrZero(t.cost) > 0 then OrZero(t.cost) as int else 0 }

  function DownOf(t: Totals): nat { if OrZero(t.cost) < 0 then -(OrZero(t.cost) as int) else 0 }

  predicate Within(t: Totals, up: nat, down: nat) {
    0 <= OrZero(t.cost) as int + down && OrZero(t.cost) as int <= up
  }

  /** What goes up and what comes down in all cannot get in each other's way: one of them is nothing, or
      both fit. */
  predicate NeverPulledBack(up: nat, down: nat) {
    down == 0 || up == 0 || (up <= I64_MAX as int && I64_MIN as int + down <= 0)
  }

  lemma FoldWithin(a: Totals, up: nat, down: nat, b: Totals, up': nat, down': nat)
    requires Within(a, up, down) && Within(b, up', down')
    ensures Within(Fold(a, b), up + up', down + down')
  {
  }

  lemma SelfWithin(t: Totals)
    ensures Within(t, UpOf(t), DownOf(t)) && Within(ZERO, 0, 0)
    ensures forall up, down :: Within(t, up, down) ==> UpOf(t) <= up && DownOf(t) <= down
  {
  }

  /** Grouping makes no difference to totals whose costs together cannot get in each other's way. */
  lemma FoldGroups(a: Totals, up: nat, down: nat, b: Totals, up': nat, down': nat, c: Totals, up'': nat, down'': nat)
    requires Within(a, up, down) && Within(b, up', down') && Within(c, up'', down'')
    requires NeverPulledBack(up + up' + up'', down + down' + down'')
    ensures Fold(Fold(a, b), c) == Fold(a, Fold(b, c))
  {
    FoldGroupsIff(a, b, c);
    hide Fold;
  }

  /** The same three terms, the last two swapped. */
  lemma FoldSwap(a: Totals, up: nat, down: nat, b: Totals, up': nat, down': nat, c: Totals, up'': nat, down'': nat)
    requires Within(a, up, down) && Within(b, up', down') && Within(c, up'', down'')
    requires NeverPulledBack(up + up' + up'', down + down' + down'')
    ensures Fold(Fold(a, b), c) == Fold(Fold(a, c), b)
  {
    hide Fold, Within;
    FoldGroups(a, up, down, b, up', down', c, up'', down'');
    FoldLaws(b, c);
    FoldGroups(a, up, down, c, up'', down'', b, up', down');
  }

  // ----- The ledger -----

  /** Usage of a model, as recorded or as a child reports it. */
  datatype Entry = Entry(model: string, totals: Totals)

  /** What all the costs go up and down by, without a bound. */
  function Rise(entries: seq<Entry>): nat {
    if entries == [] then 0 else Rise(entries[..|entries| - 1]) + UpOf(entries[|entries| - 1].totals)
  }

  function Fall(entries: seq<Entry>): nat {
    if entries == [] then 0 else Fall(entries[..|entries| - 1]) + DownOf(entries[|entries| - 1].totals)
  }

  /** No cost is negative, or none is positive, or the positive and the negative ones each add up to
      something a cost can hold. */
  predicate Steady(entries: seq<Entry>) {
    NeverPulledBack(Rise(entries), Fall(entries))
  }

  function SumOf(entries: seq<Entry>): Totals {
    if entries == [] then ZERO else Fold(SumOf(entries[..|entries| - 1]), entries[|entries| - 1].totals)
  }

  function SumFor(entries: seq<Entry>, model: string): Totals {
    if entries == [] then ZERO
    else
      var before, last := SumFor(entries[..|entries| - 1], model), entries[|entries| - 1];
      if last.model == model then Fold(before, last.totals) else before
  }

  predicate Mentions(entries: seq<Entry>, model: string) {
    exists k :: 0 <= k < |entries| && entries[k].model == model
  }

  predicate OnePerModel(entries: seq<Entry>) {
    forall j, k :: 0 <= j < k < |entries| ==> entries[j].model != entries[k].model
  }

  function IndexOf(table: seq<Entry>, model: string): (k: Option<nat>)
    ensures k.Some? ==> k.value < |table| && table[k.value].model == model
    ensures k.None? ==> !Mentions(table, model)
  {
    if table == [] then None
    else if table[|table| - 1].model == model then Some(|table| - 1)
    else IndexOf(table[..|table| - 1], model)
  }

  /** The table's entry for a model. */
  function Lookup(table: seq<Entry>, model: string): Option<Totals> {
    match IndexOf(table, model)
    case Some(k) => Some(table[k].totals)
    case None => None
  }

  /** What some recorded usage says of a model. */
  function Recorded(recorded: seq<Entry>, model: string): Option<Totals> {
    if Mentions(recorded, model) then Some(SumFor(recorded, model)) else None
  }

  /** A per-model table that says what some recorded usage adds up to. */
  ghost predicate Tabulates(table: seq<Entry>, recorded: seq<Entry>) {
    OnePerModel(table) && forall model :: Lookup(table, model) == Recorded(recorded, model)
  }

  /** What `entry(model).or_default().fold_totals(totals)` makes of a table. */
  function FoldInto(table: seq<Entry>, e: Entry): seq<Entry> {
    match IndexOf(table, e.model)
    case Some(k) => table[k := Entry(e.model, Fold(table[k].totals, e.totals))]
    case None => table + [Entry(e.model, Fold(ZERO, e.totals))]
  }

  function Push(entries: seq<Entry>, e: Entry): seq<Entry> { entries + [e] }

  lemma PushFacts(entries: seq<Entry>, e: Entry, model: string)
    ensures SumOf(Push(entries, e)) == Fold(SumOf(entries), e.totals)
    ensures SumFor(Push(entries, e), model) ==
      if e.model == model then Fold(SumFor(entries, model), e.totals) else SumFor(entries, model)
    ensures Mentions(Push(entries, e), model) <==> Mentions(entries, model) || e.model == model
  {
    var s := Push(entries, e);
    assert s[..|s| - 1] == entries && s[|entries|] == e;
    if k :| 0 <= k < |entries| && entries[k].model == model {
      assert s[k].model == model;
    }
  }

  lemma {:induction false} NotMentioned(entries: seq<Entry>, model: string)
    requires !Mentions(entries, model)
    ensures SumFor(entries, model) == ZERO
  {
    if entries != [] {
      var n := |entries| - 1;
      assert entries[n].model != model;
      assert forall k :: 0 <= k < n ==> entries[..n][k] == entries[k];
      NotMentioned(entries[..n], model);
    }
  }

  /** The entry at `k` is the one a table with one entry per model has for its model. */
  lemma LookupAt(table: seq<Entry>, k: nat)
    requires OnePerModel(table) && k < |table|
    ensures IndexOf(table, table[k].model) == Some(k)
  {
    assert Mentions(table, table[k].model);
    var j := IndexOf(table, table[k].model).value;
  }

  lemma SameModels(a: seq<Entry>, b: seq<Entry>, model: string)
    requires |a| == |b| && forall k :: 0 <= k < |a| ==> a[k].model == b[k].model
    ensures Mentions(a, model) <==> Mentions(b, model)
  {
  }

  /** Folding a usage into a table changes the entry of its model, and no other. */
  lemma FoldIntoLookup(table: seq<Entry>, e: Entry, model: string)
    requires OnePerModel(table)
    ensures OnePerModel(FoldInto(table, e))
    ensures Lookup(FoldInto(table, e), model) ==
      if model != e.model then Lookup(table, model)
      else Some(Fold(if Lookup(table, model).Some? then Lookup(table, model).value else ZERO, e.totals))
  {
    hide Fold;
    var folded, at := FoldInto(table, e), IndexOf(table, model);
    assert OnePerModel(folded);
    var there := IndexOf(folded, model);
    match IndexOf(table, e.model)
    case Some(k) =>
      SameModels(table, folded, model);
      if at.Some? {
        assert folded[at.value].model == model;
        LookupAt(folded, at.value);
      }
      if there.Some? {
        assert table[there.value].model == model;
      }
    case None =>
      assert folded[|table|].model == e.model;
      if model == e.model {
        LookupAt(folded, |table|);
      } else if at.Some? {
        assert folded[at.value].model == model;
        LookupAt(folded, at.value);
      }
  }

  /** Recording one more usage keeps the table true to everything recorded, whatever its cost. */
  lemma FoldIntoTabulates(table: seq<Entry>, recorded: seq<Entry>, e: Entry)
    requires Tabulates(table, recorded)
    ensures Tabulates(FoldInto(table, e), Push(recorded, e))
  {
    hide Fold, FoldInto, Lookup, Mentions, SumFor, OnePerModel;
    FoldIntoLookup(table, e, e.model);
    forall model ensures Lookup(FoldInto(table, e), model) == Recorded(Push(recorded, e), model) {
      FoldIntoLookup(table, e, model);
      PushFacts(recorded, e, model);
      assert Lookup(table, model) == Recorded(recorded, model);
      if !Mentions(recorded, model) {
        NotMentioned(recorded, model);
      }
    }
  }

  // ----- The totals are the sum of the table -----

  lemma PushSwing(entries: seq<Entry>, e: Entry)
    ensures Rise(Push(entries, e)) == Rise(entries) + UpOf(e.totals)
    ensures Fall(Push(entries, e)) == Fall(entries) + DownOf(e.totals)
  {
    assert Push(entries, e)[..|entries|] == entries;
  }

  lemma {:induction false} SumWithin(entries: seq<Entry>)
    ensures Within(SumOf(entries), Rise(entries), Fall(entries))
  {
    SelfWithin(ZERO);
    if entries != [] {
      var n := |entries| - 1;
      SumWithin(entries[..n]);
      SelfWithin(entries[n].totals);
      hide Fold, Within, UpOf, DownOf;
      FoldWithin(SumOf(entries[..n]), Rise(entries[..n]), Fall(entries[..n]), entries[n].totals,
        UpOf(entries[n].totals), DownOf(entries[n].totals));
    }
  }

  /** The usage of one model, and of the others. */
  function Only(entries: seq<Entry>, model: string): seq<Entry> {
    if entries == [] then []
    else
      var before, last := Only(entries[..|entries| - 1], model), entries[|entries| - 1];
      if last.model == model then Push(before, last) else before
  }

  function Others(entries: seq<Entry>, model: string): seq<Entry> {
    if entries == [] then []
    else
      var before, last := Others(entries[..|entries| - 1], model), entries[|entries| - 1];
      if last.model == model then before else Push(before, last)
  }

  lemma {:induction false} OnlyAre(entries: seq<Entry>, model: string)
    ensures SumFor(entries, model) == SumOf(Only(entries, model))
    ensures Rise(entries) == Rise(Others(entries, model)) + Rise(Only(entries, model))
    ensures Fall(entries) == Fall(Others(entries, model)) + Fall(Only(entries, model))
  {
    hide Fold, UpOf, DownOf;
    if entries != [] {
      var n, last := |entries| - 1, entries[|entries| - 1];
      var before := entries[..n];
      OnlyAre(before, model);
      PushFacts(Only(before, model), last, model);
      PushSwing(Only(before, model), last);
      PushSwing(Others(before, model), last);
    }
  }

  lemma {:induction false} OthersAre(entries: seq<Entry>, model: string, m: string)
    ensures SumFor(Others(entries, model), m) == if m == model then ZERO else SumFor(entries, m)
    ensures Mentions(Others(entries, model), m) <==> m != model && Mentions(entries, m)
  {
    hide Fold, SumOf, Mentions, SumFor;
    if entries == [] {
      assert SumFor([], m) == ZERO && !Mentions([], m) by { NothingFor(m); }
    } else {
      var n := |entries| - 1;
      OthersAre(entries[..n], model, m);
      PushFacts(Others(entries[..n], model), entries[n], m);
      PushFacts(entries[..n], entries[n], m);
      assert Push(entries[..n], entries[n]) == entries;
    }
  }

  lemma NothingFor(model: string)
    ensures SumFor([], model) == ZERO && !Mentions([], model)
  {
  }

  /** Taking one model's usage out of the sum and adding it at the end. */
  lemma {:induction false} SumByModel(entries: seq<Entry>, model: string)
    requires Steady(entries)
    ensures SumOf(entries) == Fold(SumOf(Others(entries, model)), SumOf(Only(entries, model)))
  {
    if entries == [] {
      FoldLaws(ZERO, ZERO);
    } else {
      var n, last := |entries| - 1, entries[|entries| - 1];
      var before, others, only := entries[..n], Others(entries[..n], model), Only(entries[..n], model);
      OnlyAre(before, model);
      SumByModel(before, model);
      SumWithin(others);
      SumWithin(only);
      SelfWithin(last.totals);
      PushFacts(others, last, model);
      PushFacts(only, last, model);
      hide Fold, Within, UpOf, DownOf;
      var a, b, t := SumOf(others), SumOf(only), last.totals;
      var up, down := UpOf(t), DownOf(t);
      FoldGroups(a, Rise(others), Fall(others), b, Rise(only), Fall(only), t, up, down);
      if last.model != model {
        FoldLaws(b, t);
        FoldGroups(a, Rise(others), Fall(others), t, up, down, b, Rise(only), Fall(only));
      }
    }
  }

  lemma LastStep(table: seq<Entry>)
    requires table != []
    ensures var n, e := |table| - 1, table[|table| - 1];
      && SumOf(table) == Fold(SumOf(table[..n]), e.totals)
      && Rise(table) == Rise(table[..n]) + UpOf(e.totals) && Fall(table) == Fall(table[..n]) + DownOf(e.totals)
  {
  }

  lemma LastEntry(table: seq<Entry>, recorded: seq<Entry>)
    requires Tabulates(table, recorded) && table != []
    ensures table[|table| - 1].totals == SumFor(recorded, table[|table| - 1].model)
  {
    var n := |table| - 1;
    LookupAt(table, n);
    assert Lookup(table, table[n].model) == Recorded(recorded, table[n].model);
  }

  /** The entries of a table add up to everything recorded when no clamped cost can be pulled back, and
      they go up and down by no more. */
  lemma {:induction false} TableSum(table: seq<Entry>, recorded: seq<Entry>)
    requires Tabulates(table, recorded) && Steady(recorded)
    ensures SumOf(table) == SumOf(recorded) && Rise(table) <= Rise(recorded) && Fall(table) <= Fall(recorded)
    decreases |table|
  {
    hide Fold, Within, UpOf, DownOf, Tabulates, SumFor, SumOf, Rise, Fall, Others, Only;
    if table == [] {
      NothingRecorded(recorded);
    } else {
      var n := |table| - 1;
      var model, last := table[n].model, table[n].totals;
      LastStep(table);
      LastEntry(table, recorded);
      OnlyAre(recorded, model);
      SumByModel(recorded, model);
      SumWithin(Only(recorded, model));
      SelfWithin(last);
      TableWithout(table, recorded);
      TableSum(table[..n], Others(recorded, model));
    }
  }

  lemma NothingRecorded(recorded: seq<Entry>)
    requires Tabulates([], recorded)
    ensures recorded == []
  {
    if recorded != [] {
      var model := recorded[0].model;
      assert Mentions(recorded, model);
      var usage := Recorded(recorded, model);
      assert false;
    }
  }

  /** Leaving out the last entry of a table leaves a table of the other models' usage. */
  lemma TableWithout(table: seq<Entry>, recorded: seq<Entry>)
    requires table != [] && Tabulates(table, recorded)
    ensures var n := |table| - 1; Tabulates(table[..n], Others(recorded, table[n].model))
  {
    var n := |table| - 1;
    var model, front := table[n].model, table[..n];
    forall m ensures Lookup(front, m) == Recorded(Others(recorded, model), m) {
      OthersAre(recorded, model, m);
      assert Lookup(table, m) == Recorded(recorded, m);
    }
  }

  function Costing(model: string, cost: I64): Entry { Entry(model, ZERO.(cost := Some(cost))) }

  lemma FoldNew(table: seq<Entry>, e: Entry)
    requires !Mentions(table, e.model)
    ensures FoldInto(table, e) == Push(table, e)
  {
    hide Fold;
    FoldLaws(e.totals, ZERO);
    assert IndexOf(table, e.model).Some? ==> Mentions(table, e.model);
  }

  lemma FoldAt(table: seq<Entry>, k: nat, e: Entry)
    requires OnePerModel(table) && k < |table| && table[k].model == e.model
    ensures FoldInto(table, e) == table[k := Entry(e.model, Fold(table[k].totals, e.totals))]
  {
    hide Fold;
    LookupAt(table, k);
  }

  lemma SumOfTwo(x: Entry, y: Entry)
    ensures SumOf([x, y]) == Fold(x.totals, y.totals)
  {
    hide Fold;
    assert [x, y] == Push(Push([], x), y);
    PushFacts([], x, "");
    PushFacts(Push([], x), y, "");
    FoldLaws(x.totals, ZERO);
    assert SumOf([]) == ZERO;
  }

  /** With costs of both signs they need not: the total is clamped before the negative cost pulls it
      back, the entries are not. */
  lemma NegativeCostWitness()
    ensures var a, b, c := Costing("a", I64_MAX), Costing("b", 1), Costing("b", -1);
      SumOf(FoldInto(FoldInto(FoldInto([], a), b), c)) != SumOf(Push(Push(Push([], a), b), c))
  {
    var a, b, c, z := Costing("a", I64_MAX), Costing("b", 1), Costing("b", -1), Costing("b", 0);
    WitnessSums();
    hide Fold, SumOf, IndexOf, FoldInto;
    FoldNew([], a);
    assert Push([], a) == [a];
    FoldNew([a], b);
    assert Push([a], b) == [a, b];
    FoldAt([a, b], 1, c);
    assert [a, b][1 := z] == [a, z];
    SumOfTwo(a, b);
    SumOfTwo(a, z);
    PushFacts([a, b], c, "");
  }

  lemma WitnessSums()
    ensures var a, b, c, z := Costing("a", I64_MAX), Costing("b", 1), Costing("b", -1), Costing("b", 0);
      && Entry("b", Fold(b.totals, c.totals)) == z
      && Fold(a.totals, z.totals) != Fold(Fold(a.totals, b.totals), c.totals)
  {
  }

  // ----- A child's bill -----

  lemma JoinPush(p: seq<Entry>, q: seq<Entry>)
    requires q != []
    ensures p + q == Push(p + q[..|q| - 1], q[|q| - 1])
  {
  }

  lemma {:induction false} SwingConcat(p: seq<Entry>, q: seq<Entry>)
    ensures Rise(p + q) == Rise(p) + Rise(q) && Fall(p + q) == Fall(p) + Fall(q)
  {
    if q == [] {
      assert p + q == p;
    } else {
      hide Rise, Fall, UpOf, DownOf, Push;
      var n := |q| - 1;
      JoinPush(p, q);
      LastStep(q);
      SwingConcat(p, q[..n]);
      PushSwing(p + q[..n], q[n]);
    }
  }

  lemma {:induction false} SumConcat(p: seq<Entry>, q: seq<Entry>)
    requires NeverPulledBack(Rise(p) + Rise(q), Fall(p) + Fall(q))
    ensures SumOf(p + q) == Fold(SumOf(p), SumOf(q))
  {
    if q == [] {
      assert p + q == p;
      FoldLaws(SumOf(p), ZERO);
    } else {
      hide Fold, Within, UpOf, DownOf, SumOf, Rise, Fall;
      var n := |q| - 1;
      var t := q[n].totals;
      LastStep(q);
      SumConcat(p, q[..n]);
      SumWithin(p);
      SumWithin(q[..n]);
      SelfWithin(t);
      PushFacts(p + q[..n], q[n], "");
      JoinPush(p, q);
      FoldGroups(SumOf(p), Rise(p), Fall(p), SumOf(q[..n]), Rise(q[..n]), Fall(q[..n]), t, UpOf(t), DownOf(t));
    }
  }

  lemma {:induction false} OnlyConcat(p: seq<Entry>, q: seq<Entry>, model: string)
    ensures Only(p + q, model) == Only(p, model) + Only(q, model)
  {
    if q == [] {
      assert p + q == p;
    } else {
      var n := |q| - 1;
      OnlyConcat(p, q[..n], model);
      assert (p + q)[..|p + q| - 1] == p + q[..n];
    }
  }

  /** Sums of usage behind earlier usage, in total and for one model. */
  lemma {:induction false} SumsConcat(p: seq<Entry>, q: seq<Entry>, model: string)
    requires NeverPulledBack(Rise(p) + Rise(q), Fall(p) + Fall(q))
    ensures SumOf(p + q) == Fold(SumOf(p), SumOf(q)) && SumFor(p + q, model) == Fold(SumFor(p, model), SumFor(q, model))
  {
    hide Fold, SumOf, Rise, Fall;
    SumConcat(p, q);
    OnlyAre(p, model);
    OnlyAre(q, model);
    OnlyAre(p + q, model);
    OnlyConcat(p, q, model);
    SumConcat(Only(p, model), Only(q, model));
  }

  lemma MentionsConcat(p: seq<Entry>, q: seq<Entry>, model: string)
    ensures Mentions(p + q, model) <==> Mentions(p, model) || Mentions(q, model)
  {
    if k :| 0 <= k < |p| && p[k].model == model {
      assert (p + q)[k].model == model;
    }
    if k :| 0 <= k < |q| && q[k].model == model {
      assert (p + q)[|p| + k].model == model;
    }
  }

  /** A table mentions the models it tabulates and adds up to the same for each. */
  lemma TableFor(table: seq<Entry>, recorded: seq<Entry>, model: string)
    requires Tabulates(table, recorded)
    ensures SumFor(table, model) == SumFor(recorded, model) && (Mentions(table, model) <==> Mentions(recorded, model))
  {
    hide Fold;
    assert Lookup(table, model) == Recorded(recorded, model);
    if Mentions(table, model) {
      OneEntry(table, IndexOf(table, model).value);
    } else {
      NotMentioned(table, model);
      NotMentioned(recorded, model);
    }
  }

  lemma {:induction false} OneEntry(table: seq<Entry>, k: nat)
    requires OnePerModel(table) && k < |table|
    ensures SumFor(table, table[k].model) == table[k].totals
  {
    var n := |table| - 1;
    if k == n {
      NotMentioned(table[..n], table[k].model);
      FoldLaws(table[k].totals, ZERO);
    } else {
      OneEntry(table[..n], k);
    }
  }

  /** Usage that a child's table stands for, and the table itself, are the same to a parent. */
  lemma ChildTableIsItsCalls(parent: seq<Entry>, calls: seq<Entry>, child: seq<Entry>)
    requires Steady(parent + calls) && Tabulates(child, calls)
    ensures SumOf(parent + child) == SumOf(parent + calls)
    ensures forall model :: Recorded(parent + child, model) == Recorded(parent + calls, model)
  {
    hide Fold, Within, SumFor, SumOf, Mentions, Tabulates, Rise, Fall;
    SwingConcat(parent, calls);
    TableSum(child, calls);
    SumConcat(parent, child);
    SumConcat(parent, calls);
    forall model ensures Recorded(parent + child, model) == Recorded(parent + calls, model) {
      ChildFor(parent, calls, child, model);
    }
  }

  lemma ChildFor(parent: seq<Entry>, calls: seq<Entry>, child: seq<Entry>, model: string)
    requires Tabulates(child, calls)
    requires NeverPulledBack(Rise(parent) + Rise(calls), Fall(parent) + Fall(calls))
    requires NeverPulledBack(Rise(parent) + Rise(child), Fall(parent) + Fall(child))
    ensures Recorded(parent + child, model) == Recorded(parent + calls, model)
  {
    hide Fold, Within, SumFor, SumOf, Mentions, Tabulates, Rise, Fall, NeverPulledBack;
    SumsConcat(parent, child, model);
    SumsConcat(parent, calls, model);
    MentionsConcat(parent, child, model);
    MentionsConcat(parent, calls, model);
    TableFor(child, calls, model);
  }

  // ----- When the order of usage makes no difference -----

  lemma {:induction false} PullOut(p: seq<Entry>, e: Entry, q: seq<Entry>)
    requires Steady(Push(p, e) + q)
    ensures SumOf(Push(p, e) + q) == Fold(SumOf(p + q), e.totals) && Steady(p + q)
  {
    PushFacts(p, e, "");
    hide Fold, Within, UpOf, DownOf, SumOf, Rise, Fall, Push;
    SwingConcat(Push(p, e), q);
    SwingConcat(p, q);
    PushSwing(p, e);
    SumConcat(Push(p, e), q);
    SumConcat(p, q);
    SumWithin(p);
    SumWithin(q);
    SelfWithin(e.totals);
    FoldSwap(SumOf(p), Rise(p), Fall(p), e.totals, UpOf(e.totals), DownOf(e.totals), SumOf(q), Rise(q), Fall(q));
  }

  lemma {:induction false} SameInAnyOrder(s: seq<Entry>, t: seq<Entry>)
    requires Steady(s) && multiset(s) == multiset(t)
    ensures SumOf(s) == SumOf(t)
  {
    if t == [] {
      assert |multiset(s)| == |s|;
    } else {
      var n, e := |t| - 1, t[|t| - 1];
      assert t == t[..n] + [e];
      assert e in multiset(s);
      var k :| 0 <= k < |s| && s[k] == e;
      var p, q := s[..k], s[k + 1..];
      assert s == Push(p, e) + q;
      assert multiset(s) == multiset(p + q) + multiset{e} && multiset(t) == multiset(t[..n]) + multiset{e};
      SameRest(multiset(p + q), multiset(t[..n]), e);
      hide Fold;
      PullOut(p, e, q);
      SameInAnyOrder(p + q, t[..n]);
    }
  }

  lemma SameRest(a: multiset<Entry>, b: multiset<Entry>, e: Entry)
    requires a + multiset{e} == b + multiset{e}
    ensures a == b
  {
    assert a == a + multiset{e} - multiset{e} && b == b + multiset{e} - multiset{e};
  }

  function Gains(entries: seq<Entry>): seq<Entry> {
    if entries == [] then []
    else
      var before, last := Gains(entries[..|entries| - 1]), entries[|entries| - 1];
      if OrZero(last.totals.cost) > 0 then Push(before, last) else before
  }

  function Losses(entries: seq<Entry>): seq<Entry> {
    if entries == [] then []
    else
      var before, last := Losses(entries[..|entries| - 1]), entries[|entries| - 1];
      if OrZero(last.totals.cost) > 0 then before else Push(before, last)
  }

  lemma GainsStep(entries: seq<Entry>)
    requires entries != []
    ensures var before, last := entries[..|entries| - 1], entries[|entries| - 1];
      && entries == Push(before, last)
      && Gains(entries) == (if OrZero(last.totals.cost) > 0 then Push(Gains(before), last) else Gains(before))
      && Losses(entries) == (if OrZero(last.totals.cost) > 0 then Losses(before) else Push(Losses(before), last))
  {
  }

  lemma {:induction false} GainsAndLosses(entries: seq<Entry>)
    ensures multiset(Gains(entries)) + multiset(Losses(entries)) == multiset(entries)
  {
    if entries != [] {
      hide Push, Gains, Losses, OrZero;
      var before, last := entries[..|entries| - 1], entries[|entries| - 1];
      GainsAndLosses(before);
      GainsStep(entries);
      PushCounts(before, last);
      PushCounts(Gains(before), last);
      PushCounts(Losses(before), last);
    }
  }

  lemma PushCounts(entries: seq<Entry>, e: Entry)
    ensures multiset(Push(entries, e)) == multiset(entries) + multiset{e}
  {
  }

  lemma {:induction false} GainsRise(entries: seq<Entry>)
    ensures Rise(Gains(entries)) == Rise(entries) && Fall(Gains(entries)) == 0
    ensures Rise(Losses(entries)) == 0 && Fall(Losses(entries)) == Fall(entries)
  {
    if entries != [] {
      var before, last := entries[..|entries| - 1], entries[|entries| - 1];
      GainsRise(before);
      GainsStep(entries);
      LastStep(entries);
      PushSwing(Gains(before), last);
      PushSwing(Losses(before), last);
      assert if OrZero(last.totals.cost) > 0 then DownOf(last.totals) == 0 else UpOf(last.totals) == 0;
      hide Push, UpOf, DownOf, OrZero, Gains, Losses, Rise, Fall;
    }
  }

  function Clamp(x: int): int {
    if x > I64_MAX as int then I64_MAX as int else if x < I64_MIN as int then I64_MIN as int else x
  }

  lemma CostStep(a: Totals, b: Totals)
    ensures OrZero(Fold(a, b).cost) as int == Clamp(OrZero(a.cost) as int + OrZero(b.cost) as int)
    ensures OrZero(b.cost) as int == UpOf(b) - DownOf(b)
  {
  }

  lemma ClampStep(start: I64, rise: nat, fall: nat, up: nat, down: nat)
    requires rise + up == 0 || fall + down == 0
    ensures Clamp(Clamp(start as int + rise - fall) + (up - down)) == Clamp(start as int + (rise + up) - (fall + down))
  {
  }

  /** Going only one way, a cost ends where the sum is clamped to. */
  lemma {:induction false} OneWay(p: seq<Entry>, q: seq<Entry>)
    requires Fall(q) == 0 || Rise(q) == 0
    ensures OrZero(SumOf(p + q).cost) as int == Clamp(OrZero(SumOf(p).cost) as int + Rise(q) - Fall(q))
  {
    hide Fold, SumOf, Push, OrZero, UpOf, DownOf, Clamp;
    if q == [] {
      assert p + q == p;
      ClampStays(OrZero(SumOf(p).cost));
    } else {
      hide Rise, Fall;
      var n := |q| - 1;
      var t := q[n].totals;
      JoinPush(p, q);
      LastStep(q);
      PushFacts(p + q[..n], q[n], "");
      OneWay(p, q[..n]);
      CostStep(SumOf(p + q[..n]), t);
      ClampStep(OrZero(SumOf(p).cost), Rise(q[..n]), Fall(q[..n]), UpOf(t), DownOf(t));
    }
  }

  lemma ClampStays(x: I64)
    ensures Clamp(x as int) == x as int
  {
  }

  lemma {:induction false} OneWayAlone(q: seq<Entry>)
    requires Fall(q) == 0 || Rise(q) == 0
    ensures OrZero(SumOf(q).cost) as int == Clamp(Rise(q) - Fall(q))
  {
    hide SumOf, Rise, Fall, OrZero, Clamp;
    assert [] + q == q;
    NothingCosts();
    OneWay([], q);
  }

  lemma NothingCosts()
    ensures OrZero(SumOf([]).cost) == 0
  {
  }

  lemma ClampsApart(up: nat, down: nat)
    requires !NeverPulledBack(up, down)
    ensures Clamp(Clamp(up) - down) != Clamp(Clamp(-(down as int)) + up)
  {
  }

  /** All gains first and all losses first end apart unless neither can be pulled back. */
  lemma {:induction false} ExtremesApart(gains: seq<Entry>, losses: seq<Entry>)
    requires Fall(gains) == 0 && Rise(losses) == 0 && !NeverPulledBack(Rise(gains), Fall(losses))
    ensures SumOf(gains + losses).cost != SumOf(losses + gains).cost
  {
    hide SumOf, Rise, Fall, Clamp, NeverPulledBack;
    var up, down := Rise(gains), Fall(losses);
    OneWayAlone(gains);
    OneWayAlone(losses);
    OneWay(gains, losses);
    OneWay(losses, gains);
    ClampsApart(up, down);
    assert OrZero(SumOf(gains + losses).cost) as int == Clamp(Clamp(up) - down);
    assert OrZero(SumOf(losses + gains).cost) as int == Clamp(Clamp(-(down as int)) + up);
  }

  /** The same usage in any order gives the same totals if and only if no cost is negative, or none is
      positive, or the positive and the negative costs each fit. */
  lemma {:induction false} OrderIff(entries: seq<Entry>)
    ensures (forall s :: multiset(s) == multiset(entries) ==> SumOf(s) == SumOf(entries)) <==> Steady(entries)
  {
    hide Rise, Fall, SumOf, NeverPulledBack, Gains, Losses;
    if Steady(entries) {
      forall s | multiset(s) == multiset(entries) ensures SumOf(s) == SumOf(entries) {
        SameInAnyOrder(entries, s);
      }
    } else {
      var gains, losses := Gains(entries), Losses(entries);
      GainsAndLosses(entries);
      GainsRise(entries);
      assert multiset(gains + losses) == multiset(entries) && multiset(losses + gains) == multiset(entries);
      ExtremesApart(gains, losses);
    }
  }

  // ----- Partial cost -----

  predicate ReportsCost(c: Call) { c.cost.Some? && c.cost.value > 0 }

  function EntryOf(c: Call): Entry { Entry(c.model, FromCall(c)) }

  function EntriesOf(calls: seq<Call>): seq<Entry> {
    if calls == [] then [] else Push(EntriesOf(calls[..|calls| - 1]), EntryOf(calls[|calls| - 1]))
  }

  /** Recorded calls have no negative cost. */
  lemma {:induction false} CallsOnlyRise(calls: seq<Call>)
    ensures Fall(EntriesOf(calls)) == 0
  {
    if calls != [] {
      CallsOnlyRise(calls[..|calls| - 1]);
      PushSwing(EntriesOf(calls[..|calls| - 1]), EntryOf(calls[|calls| - 1]));
    }
  }

  ghost predicate SomeReport(calls: seq<Call>, reported: bool) {
    exists k :: 0 <= k < |calls| && ReportsCost(calls[k]) == reported
  }

  lemma SomeReportLast(calls: seq<Call>, reported: bool)
    requires calls != []
    ensures var n := |calls| - 1;
      SomeReport(calls, reported) <==> SomeReport(calls[..n], reported) || ReportsCost(calls[n]) == reported
  {
    var n := |calls| - 1;
    if k :| 0 <= k < n && ReportsCost(calls[..n][k]) == reported {
      assert ReportsCost(calls[k]) == reported;
    }
    if k :| 0 <= k < |calls| && ReportsCost(calls[k]) == reported && k < n {
      assert ReportsCost(calls[..n][k]) == reported;
    }
  }

  lemma FoldCall(t: Totals, c: Call)
    ensures Fold(t, FromCall(c)).cost.Some? <==> t.cost.Some? || ReportsCost(c)
    ensures Fold(t, FromCall(c)).costMissing > 0 <==> t.costMissing > 0 || !ReportsCost(c)
  {
  }

  /** Over recorded calls, the cost is partial exactly if some call reported one and some did not. */
  lemma {:induction false} PartialIff(calls: seq<Call>)
    ensures SumOf(EntriesOf(calls)).cost.Some? <==> SomeReport(calls, true)
    ensures SumOf(EntriesOf(calls)).costMissing > 0 <==> SomeReport(calls, false)
    ensures CostIsPartial(SumOf(EntriesOf(calls))) <==> SomeReport(calls, true) && SomeReport(calls, false)
  {
    if calls != [] {
      var n := |calls| - 1;
      PartialIff(calls[..n]);
      hide Fold, FromCall, SomeReport;
      PushFacts(EntriesOf(calls[..n]), EntryOf(calls[n]), "");
      FoldCall(SumOf(EntriesOf(calls[..n])), calls[n]);
      SomeReportLast(calls, true);
      SomeReportLast(calls, false);
    }
  }

  // ----- Nothing is lost or invented -----

  datatype Count = Input | Output | CachedRead | CacheCreation | Reasoning | ModelCalls | ApiDurationMs | CostMissing

  function CountOf(t: Totals, c: Count): U64 {
    match c
    case Input => t.input
    case Output => t.output
    case CachedRead => t.cachedRead
    case CacheCreation => t.cacheCreation
    case Reasoning => t.reasoning
    case ModelCalls => t.modelCalls
    case ApiDurationMs => t.apiDurationMs
    case CostMissing => t.costMissing
  }

  function Saturated(n: nat): U64 {
    if n <= U64_MAX as int then n as U64 else U64_MAX
  }

  /** The same count of all entries, and of those of one model, added up without a bound. */
  function Amount(entries: seq<Entry>, c: Count): nat {
    if entries == [] then 0 else Amount(entries[..|entries| - 1], c) + CountOf(entries[|entries| - 1].totals, c) as nat
  }

  function AmountFor(entries: seq<Entry>, model: string, c: Count): nat {
    if entries == [] then 0
    else
      var last := entries[|entries| - 1];
      AmountFor(entries[..|entries| - 1], model, c) +
        (if last.model == model then CountOf(last.totals, c) as nat else 0)
  }

  lemma FoldAdds(a: Totals, b: Totals, c: Count)
    ensures CountOf(Fold(a, b), c) == Saturated(CountOf(a, c) as nat + CountOf(b, c) as nat)
    ensures CountOf(ZERO, c) == 0
  {
  }

  lemma SaturatedTwice(n: nat, m: nat)
    ensures Saturated(Saturated(n) as nat + m) == Saturated(n + m)
  {
  }

  /** Every count of the totals, and of each model's, is the unbounded sum, held at the largest number. */
  lemma {:induction false} CountsAddUp(entries: seq<Entry>, model: string, c: Count)
    ensures CountOf(SumOf(entries), c) == Saturated(Amount(entries, c))
    ensures CountOf(SumFor(entries, model), c) == Saturated(AmountFor(entries, model, c))
  {
    hide Fold, CountOf, Saturated;
    if entries == [] {
      FoldAdds(ZERO, ZERO, c);
      SaturatedTwice(0, 0);
      assert Saturated(0) == 0 by { SmallStays(); }
    } else {
      var n := |entries| - 1;
      var t := entries[n].totals;
      CountsAddUp(entries[..n], model, c);
      FoldAdds(SumOf(entries[..n]), t, c);
      FoldAdds(SumFor(entries[..n], model), t, c);
      SaturatedTwice(Amount(entries[..n], c), CountOf(t, c) as nat);
      SaturatedTwice(AmountFor(entries[..n], model, c), CountOf(t, c) as nat);
    }
  }

  lemma SmallStays()
    ensures Saturated(0) == 0
  {
  }

  /** A bill is true to some usage: every count of it and of each entry is what the usage adds up to. */
  ghost predicate Accounts(totals: Totals, table: seq<Entry>, recorded: seq<Entry>) {
    && (forall c :: CountOf(totals, c) == Saturated(Amount(recorded, c)))
    && forall k, c :: 0 <= k < |table| ==>
      CountOf(table[k].totals, c) == Saturated(AmountFor(recorded, table[k].model, c))
  }

  lemma {:induction false} TableAccounts(table: seq<Entry>, recorded: seq<Entry>)
    requires Tabulates(table, recorded)
    ensures Accounts(SumOf(recorded), table, recorded)
  {
    hide CountOf, Saturated, SumFor, Amount, AmountFor, SumOf;
    forall c ensures CountOf(SumOf(recorded), c) == Saturated(Amount(recorded, c)) {
      CountsAddUp(recorded, "", c);
    }
    forall k, c | 0 <= k < |table|
      ensures CountOf(table[k].totals, c) == Saturated(AmountFor(recorded, table[k].model, c))
    {
      var model := table[k].model;
      CountsAddUp(recorded, model, c);
      LookupAt(table, k);
      assert Lookup(table, model) == Recorded(recorded, model);
    }
  }

  /** What one call reports. */
  function CallCount(call: Call, c: Count): nat {
    match c
    case Input => call.usage.prompt as nat
    case Output => call.usage.completion as nat
    case CachedRead => call.usage.cachedPrompt as nat
    case CacheCreation => call.usage.cacheCreation as nat
    case Reasoning => call.usage.reasoning as nat
    case ModelCalls => 1
    case ApiDurationMs => if call.apiDurationMs.Some? then call.apiDurationMs.value as nat else 0
    case CostMissing => if ReportsCost(call) then 0 else 1
  }

  function CallsAmount(calls: seq<Call>, c: Count): nat {
    if calls == [] then 0 else CallsAmount(calls[..|calls| - 1], c) + CallCount(calls[|calls| - 1], c)
  }

  /** The positive costs the calls report, added up. */
  function CallsCost(calls: seq<Call>): nat {
    if calls == [] then 0
    else
      var last := calls[|calls| - 1];
      CallsCost(calls[..|calls| - 1]) + (if ReportsCost(last) then last.cost.value as nat else 0)
  }

  /** The calls of one model. */
  function CallsTo(calls: seq<Call>, model: string): seq<Call> {
    if calls == [] then []
    else
      var before, last := CallsTo(calls[..|calls| - 1], model), calls[|calls| - 1];
      if last.model == model then before + [last] else before
  }

  lemma {:induction false} CallsAmounts(calls: seq<Call>, c: Count)
    ensures Amount(EntriesOf(calls), c) == CallsAmount(calls, c)
    ensures Rise(EntriesOf(calls)) == CallsCost(calls)
  {
    if calls != [] {
      var n := |calls| - 1;
      CallsAmounts(calls[..n], c);
      assert EntriesOf(calls)[..n] == EntriesOf(calls[..n]) by { EntriesLength(calls[..n]); }
      EntriesLength(calls[..n]);
    }
  }

  lemma {:induction false} EntriesLength(calls: seq<Call>)
    ensures |EntriesOf(calls)| == |calls|
  {
    if calls != [] {
      EntriesLength(calls[..|calls| - 1]);
    }
  }

  lemma {:induction false} SumForCalls(calls: seq<Call>, model: string)
    ensures SumFor(EntriesOf(calls), model) == SumOf(EntriesOf(CallsTo(calls, model)))
  {
    if calls != [] {
      hide Fold, FromCall, SumFor, SumOf;
      var before, last := calls[..|calls| - 1], calls[|calls| - 1];
      SumForCalls(before, model);
      PushFacts(EntriesOf(before), EntryOf(last), model);
      if last.model == model {
        var to := CallsTo(before, model);
        assert (to + [last])[..|to|] == to;
        PushFacts(EntriesOf(to), EntryOf(last), model);
      }
    } else {
      NothingFor(model);
    }
  }

  /** The bill of some calls in terms of the calls: each count and the cost is what the calls report,
      added up and held at the largest number; per model, the same of that model's calls. */
  lemma {:induction false} CallsAddUp(calls: seq<Call>, model: string, c: Count)
    ensures CountOf(SumOf(EntriesOf(calls)), c) == Saturated(CallsAmount(calls, c))
    ensures OrZero(SumOf(EntriesOf(calls)).cost) as int ==
      if CallsCost(calls) <= I64_MAX as int then CallsCost(calls) else I64_MAX as int
    ensures SumFor(EntriesOf(calls), model) == SumOf(EntriesOf(CallsTo(calls, model)))
  {
    hide Rise, Fall, SumOf, OrZero, EntriesOf, CountOf, Saturated;
    CountsAddUp(EntriesOf(calls), model, c);
    CallsAmounts(calls, c);
    CallsOnlyRise(calls);
    OneWayAlone(EntriesOf(calls));
    SumForCalls(calls, model);
  }

  // ----- The ledger itself -----

  class Ledger {
    var totals: Totals
    var byModel: seq<Entry>
    var mainLoopModelCalls: U64
    var incomplete: bool
    ghost var recorded: seq<Entry>

    constructor ()
      ensures Valid() && recorded == [] && mainLoopModelCalls == 0 && !incomplete
    {
      totals, byModel, mainLoopModelCalls, incomplete := ZERO, [], 0, false;
      recorded := [];
    }

    /** The totals are the saturating sum of all recorded usage, and each entry that of its model. */
    ghost predicate Valid() reads this {
      totals == SumOf(recorded) && Tabulates(byModel, recorded)
    }

    method FoldEntry(e: Entry)
      requires Valid()
      modifies this`totals, this`byModel, this`recorded
      ensures Valid() && recorded == Push(old(recorded), e)
      ensures Accounts(totals, byModel, recorded)
      ensures Steady(recorded) ==> totals == SumOf(byModel)
    {
      hide Tabulates, Fold, SumOf, Steady, Accounts;
      totals := Fold(totals, e.totals);
      FoldIntoTabulates(byModel, recorded, e);
      PushFacts(recorded, e, "");
      recorded := Push(recorded, e);
      var at := IndexOf(byModel, e.model);
      match at {
        case Some(k) => byModel := byModel[k := Entry(e.model, Fold(byModel[k].totals, e.totals))];
        case None => byModel := byModel + [Entry(e.model, Fold(ZERO, e.totals))];
      }
      TableAccounts(byModel, recorded);
      if Steady(recorded) {
        TableSum(byModel, recorded);
      }
    }

    method RecordMainLoopCall(call: Call)
      requires Valid()
      modifies this`totals, this`byModel, this`recorded, this`mainLoopModelCalls
      ensures Valid() && recorded == Push(old(recorded), EntryOf(call)) && Accounts(totals, byModel, recorded)
      ensures mainLoopModelCalls == Sat(old(mainLoopModelCalls), 1)
    {
      mainLoopModelCalls := Sat(mainLoopModelCalls, 1);
      FoldEntry(Entry(call.model, FromCall(call)));
    }

    method RecordSubagent(entries: seq<Entry>, incomplete: bool)
      requires Valid()
      modifies this`totals, this`byModel, this`recorded, this`incomplete
      ensures Valid() && recorded == old(recorded) + entries && Accounts(totals, byModel, recorded)
      ensures this.incomplete == (old(this.incomplete) || incomplete)
    {
      hide Tabulates, SumOf, Accounts;
      for k := 0 to |entries|
        invariant Valid() && recorded == old(recorded) + entries[..k]
        invariant this.incomplete == old(this.incomplete)
      {
        FoldEntry(entries[k]);
        assert old(recorded) + entries[..k + 1] == Push(old(recorded) + entries[..k], entries[k]);
      }
      assert entries[..|entries|] == entries;
      TableAccounts(byModel, recorded);
      if incomplete {
        this.incomplete := true;
      }
    }
  }

  /** Two ledgers with the same bill: equal totals, and an equal entry for every model. */
  ghost predicate SameBill(a: Ledger, b: Ledger)
    reads a, b
  {
    a.totals == b.totals && forall model :: Lookup(a.byModel, model) == Lookup(b.byModel, model)
  }

  function Counted(before: U64, calls: nat): U64 {
    if before as int + calls > U64_MAX as int then U64_MAX else (before as int + calls) as U64
  }

  method RecordCalls(ledger: Ledger, calls: seq<Call>)
    requires ledger.Valid()
    modifies ledger
    ensures ledger.Valid() && ledger.recorded == old(ledger.recorded) + EntriesOf(calls)
    ensures ledger.mainLoopModelCalls == Counted(old(ledger.mainLoopModelCalls), |calls|)
  {
    hide Tabulates, SumOf, FromCall;
    ghost var before := ledger.recorded;
    assert before + EntriesOf(calls[..0]) == before;
    for k := 0 to |calls|
      invariant ledger.Valid() && ledger.recorded == before + EntriesOf(calls[..k])
      invariant ledger.mainLoopModelCalls == Counted(old(ledger.mainLoopModelCalls), k)
    {
      ledger.RecordMainLoopCall(calls[k]);
      assert calls[..k + 1][..k] == calls[..k];
      assert before + EntriesOf(calls[..k + 1]) == Push(before + EntriesOf(calls[..k]), EntryOf(calls[k]));
    }
    assert calls[..|calls|] == calls;
  }

  /** One ledger takes a child's finished table, another one like it records the child's calls itself:
      the bills are the same, and only the second counts main-loop calls. */
  method FoldChildOrRecord(viaChild: Ledger, direct: Ledger, child: Ledger, calls: seq<Call>)
    requires viaChild != direct && viaChild != child && direct != child
    requires viaChild.Valid() && direct.Valid() && child.Valid()
    requires viaChild.recorded == direct.recorded && child.recorded == EntriesOf(calls)
    requires Steady(direct.recorded + EntriesOf(calls))
    modifies viaChild, direct
    ensures SameBill(viaChild, direct)
    ensures viaChild.mainLoopModelCalls == old(viaChild.mainLoopModelCalls)
    ensures direct.mainLoopModelCalls == Counted(old(direct.mainLoopModelCalls), |calls|)
  {
    hide Tabulates, SumOf, Steady, Counted;
    ghost var parent, table := direct.recorded, child.byModel;
    ChildTableIsItsCalls(parent, EntriesOf(calls), table);
    viaChild.RecordSubagent(child.byModel, child.incomplete);
    RecordCalls(direct, calls);
    SameLookups(viaChild.byModel, parent + table, direct.byModel, parent + EntriesOf(calls));
  }

  lemma SameLookups(a: seq<Entry>, p: seq<Entry>, b: seq<Entry>, q: seq<Entry>)
    requires Tabulates(a, p) && Tabulates(b, q) && forall model :: Recorded(p, model) == Recorded(q, model)
    ensures forall model :: Lookup(a, model) == Lookup(b, model)
  {
    forall model ensures Lookup(a, model) == Lookup(b, model) {
      assert Lookup(a, model) == Recorded(p, model) && Lookup(b, model) == Recorded(q, model);
    }
  }
}
