/** Shrinking a conversation to a token budget: drop whole turns from the front; when not even
    the last turn fits, keep it with its text truncated. The per-item token estimate is an
    arbitrary non-negative function. */
module FitBudget {
  import opened Conversations
  import opened RepairHistory
  import opened TextTruncation

  type Cost = Item -> nat

  const USIZE_MAX: nat := 0xFFFF_FFFF_FFFF_FFFF

  function Total(cost: Cost, s: seq<Item>): nat {
    if s == [] then 0 else cost(s[0]) + Total(cost, s[1..])
  }

  function Minus(a: nat, b: nat): nat { if a < b then 0 else a - b }

  function ByteLimit(maxTokens: nat): nat {
    if 4 * maxTokens > USIZE_MAX then USIZE_MAX else 4 * maxTokens
  }

  function Truncated(s: string, maxTokens: nat): string {
    match TruncateText(s, ByteLimit(maxTokens))
    case Some(t) => t
    case None => s
  }

  function TruncateParts(parts: seq<ContentPart>, maxTokens: nat): seq<ContentPart> {
    if parts == [] then []
    else
      var first := if parts[0].Text? then Text(Truncated(parts[0].text, maxTokens)) else parts[0];
      [first] + TruncateParts(parts[1..], maxTokens)
  }

  /** Truncates an item's own text; ids, calls and images stay. */
  function TruncateItem(item: Item, maxTokens: nat): Item {
    match item
    case ToolResult(r) => ToolResult(r.(content := Truncated(r.content, maxTokens)))
    case Assistant(content, calls) => Assistant(Truncated(content, maxTokens), calls)
    case User(parts, synthetic) => User(TruncateParts(parts, maxTokens), synthetic)
    case _ => item
  }

  function TruncateAll(s: seq<Item>, maxTokens: nat): (t: seq<Item>)
    ensures |t| == |s| && forall k :: 0 <= k < |s| ==> t[k] == TruncateItem(s[k], maxTokens)
  {
    seq(|s|, k requires 0 <= k < |s| => TruncateItem(s[k], maxTokens))
  }

  // ----- What fitting produces -----

  /** Where the longest suffix within the budget starts. */
  function AffordableStart(cost: Cost, body: seq<Item>, budget: nat): (start: nat)
    ensures start <= |body|
  {
    if Total(cost, body) <= budget then 0 else 1 + AffordableStart(cost, body[1..], budget)
  }

  /** The same suffix without the results at its front. */
  function SuffixStart(cost: Cost, body: seq<Item>, budget: nat): (start: nat)
    ensures start <= |body|
    ensures start < |body| ==> !body[start].ToolResult?
  {
    var start := AffordableStart(cost, body, budget);
    start + |LeadingRun(body[start..])|
  }

  function Head(conversation: seq<Item>): seq<Item> {
    if conversation != [] && conversation[0].System? then conversation[..1] else []
  }

  function Body(conversation: seq<Item>): seq<Item> {
    conversation[|Head(conversation)|..]
  }

  /** A body without the run of results at its end. */
  function Front(body: seq<Item>): (front: seq<Item>)
    ensures front <= body
    ensures front != [] ==> !front[|front| - 1].ToolResult?
    ensures forall k :: |front| <= k < |body| ==> body[k].ToolResult?
  {
    if body == [] || !body[|body| - 1].ToolResult? then body else Front(body[..|body| - 1])
  }

  /** The run of results at the end of a body. */
  function Tail(body: seq<Item>): (tail: seq<Item>)
    ensures forall k :: 0 <= k < |tail| ==> tail[k].ToolResult?
    ensures body == Front(body) + tail
  {
    body[|Front(body)|..]
  }

  /** The assistant whose calls the results at the end answer, if it is right before them. */
  function TailOwner(body: seq<Item>): (owner: seq<Item>)
    ensures |owner| <= 1 && (owner != [] ==> owner[0].Assistant?)
  {
    var front := Front(body);
    if front != [] && CallsOf(front[|front| - 1]) != [] then [front[|front| - 1]] else []
  }

  function ResultBudget(cost: Cost, body: seq<Item>, budget: nat): nat {
    Minus(budget, Total(cost, TailOwner(body)))
  }

  /** The share of the budget each of `n` results at the end gets. */
  function PerResult(resultBudget: nat, n: nat): (per: nat)
    requires n > 0
    ensures per >= 1
    ensures n * (if 4 * per < 64 then 64 else 4 * per) <= 4 * resultBudget + 64 * n
  {
    var share := resultBudget / n;
    assert n * share <= resultBudget;
    assert n * (4 * share) == 4 * (n * share);
    if share < 1 then 1 else share
  }

  /** The last turn with its text cut down. */
  function TailUnit(cost: Cost, body: seq<Item>, budget: nat): seq<Item> {
    var results := Tail(body);
    if body == [] then []
    else if results == [] then [TruncateItem(body[|body| - 1], budget)]
    else TailOwner(body) + TruncateAll(results, PerResult(ResultBudget(cost, body, budget), |results|))
  }

  function Fit(cost: Cost, conversation: seq<Item>, maxTokens: nat): seq<Item> {
    if Total(cost, conversation) <= maxTokens then conversation
    else
      var head, body := Head(conversation), Body(conversation);
      var budget := Minus(maxTokens, Total(cost, head));
      var start := SuffixStart(cost, body, budget);
      head + (if start < |body| then body[start..] else TailUnit(cost, body, budget))
  }

  // ----- The code's loops -----

  lemma {:induction false} TotalSuffix(cost: Cost, s: seq<Item>, i: nat, j: nat)
    requires i <= j <= |s|
    ensures Total(cost, s[j..]) <= Total(cost, s[i..])
    decreases j - i
  {
    if i < j {
      assert s[i..][1..] == s[i + 1..];
      TotalSuffix(cost, s, i + 1, j);
    }
  }

  /** The suffix start is the only place where the budget starts to suffice. */
  lemma {:induction false} AffordableStartIs(cost: Cost, body: seq<Item>, budget: nat, start: nat)
    requires start <= |body| && Total(cost, body[start..]) <= budget
    requires start > 0 ==> Total(cost, body[start - 1..]) > budget
    ensures AffordableStart(cost, body, budget) == start
  {
    assert body[0..] == body;
    if start > 0 {
      TotalSuffix(cost, body, 0, start - 1);
      assert body[1..][start - 1..] == body[start..];
      if start > 1 {
        assert body[1..][start - 2..] == body[start - 1..];
      }
      AffordableStartIs(cost, body[1..], budget, start - 1);
    }
  }

  /** The backward scan over the costs, and the skip over leading results. */
  method FindStart(cost: Cost, body: seq<Item>, budget: nat) returns (start: nat)
    ensures start == SuffixStart(cost, body, budget)
  {
    var remaining := budget;
    start := |body|;
    var i := |body|;
    while i > 0
      invariant start == i <= |body|
      invariant remaining == budget - Total(cost, body[start..])
      decreases i
    {
      i := i - 1;
      assert body[i..][1..] == body[i + 1..];
      var c := cost(body[i]);
      if c > remaining {
        break;
      }
      remaining := remaining - c;
      start := i;
    }
    AffordableStartIs(cost, body, budget, start);
    start := SkipResults(body, start);
  }

  method SkipResults(body: seq<Item>, first: nat) returns (start: nat)
    requires first <= |body|
    ensures start == first + |LeadingRun(body[first..])|
  {
    start := first;
    ghost var run := LeadingRun(body[first..]);
    while start < |body| && body[start].ToolResult?
      invariant first <= start <= first + |run|
    {
      assert body[start] == body[first..][start - first];
      start := start + 1;
    }
    assert forall k :: first <= k < |body| ==> body[k] == body[first..][k - first];
  }

  lemma {:induction false} FrontIs(body: seq<Item>, n: nat)
    requires n <= |body| && (n > 0 ==> !body[n - 1].ToolResult?)
    requires forall k :: n <= k < |body| ==> body[k].ToolResult?
    ensures Front(body) == body[..n] && Tail(body) == body[n..]
  {
    assert |Front(body)| == n;
  }

  method RecoverTruncatedTailUnit(cost: Cost, tail: seq<Item>, budget: nat) returns (unit: seq<Item>)
    ensures unit == TailUnit(cost, tail, budget)
  {
    hide TruncateItem, Front;
    var body := tail;
    var reversed: seq<Item> := [];
    while body != [] && body[|body| - 1].ToolResult?
      invariant |body| <= |tail| && body == tail[..|body|]
      invariant |reversed| == |tail| - |body|
      invariant forall k :: 0 <= k < |reversed| ==> reversed[k] == tail[|tail| - 1 - k] && reversed[k].ToolResult?
      decreases |body|
    {
      reversed := reversed + [body[|body| - 1]];
      body := body[..|body| - 1];
    }
    var results := seq(|reversed|, k requires 0 <= k < |reversed| => reversed[|reversed| - 1 - k]);
    assert results == tail[|body|..];
    assert forall k :: |body| <= k < |tail| ==> tail[k] == reversed[|tail| - 1 - k];
    FrontIs(tail, |body|);
    if results == [] {
      return if body != [] then [TruncateItem(body[|body| - 1], budget)] else [];
    }
    unit := [];
    var ownerCost := 0;
    if body != [] && body[|body| - 1].Assistant? && body[|body| - 1].calls != [] {
      unit := [body[|body| - 1]];
      ownerCost := cost(body[|body| - 1]);
    }
    assert Total(cost, unit) == ownerCost;
    var share := Minus(budget, ownerCost) / |results|;
    var per := if share < 1 then 1 else share;
    unit := unit + TruncateAll(results, per);
  }

  method FitConversationToBudget(cost: Cost, conversation: seq<Item>, maxTokens: nat) returns (fitted: seq<Item>)
    ensures fitted == Fit(cost, conversation, maxTokens)
  {
    if Total(cost, conversation) <= maxTokens {
      return conversation;
    }
    var head, body: seq<Item> := [], conversation;
    if body != [] && body[0].System? {
      head, body := [body[0]], body[1..];
    }
    assert head == Head(conversation) && body == Body(conversation);
    var budget := Minus(maxTokens, Total(cost, head));
    var start := FindStart(cost, body, budget);
    if start < |body| {
      fitted := head + body[start..];
    } else {
      var unit := RecoverTruncatedTailUnit(cost, body, budget);
      fitted := head + unit;
    }
  }

  // ----- Main results -----

  lemma {:induction false} AffordableStartBest(cost: Cost, body: seq<Item>, budget: nat, j: nat)
    requires j < AffordableStart(cost, body, budget)
    ensures Total(cost, body[j..]) > budget
  {
    assert body[0..] == body;
    if j > 0 {
      assert body[1..][j - 1..] == body[j..];
      AffordableStartBest(cost, body[1..], budget, j - 1);
    }
  }

  lemma {:induction false} AffordableStartFits(cost: Cost, body: seq<Item>, budget: nat)
    ensures Total(cost, body[AffordableStart(cost, body, budget)..]) <= budget
  {
    assert body[0..] == body;
    if Total(cost, body) > budget {
      AffordableStartFits(cost, body[1..], budget);
      var k := AffordableStart(cost, body[1..], budget);
      assert body[1..][k..] == body[k + 1..];
    }
  }

  predicate OverBudget(cost: Cost, conversation: seq<Item>, maxTokens: nat) {
    Total(cost, conversation) > maxTokens
  }

  /** Some suffix of the body that does not begin with a result is affordable. */
  predicate SuffixFits(cost: Cost, conversation: seq<Item>, maxTokens: nat) {
    var body, budget := Body(conversation), Minus(maxTokens, Total(cost, Head(conversation)));
    exists j :: 0 <= j < |body| && !body[j].ToolResult? && Total(cost, body[j..]) <= budget
  }

  /** Fitting finds such a suffix if there is one. */
  lemma {:induction false} SuffixFitsIff(cost: Cost, conversation: seq<Item>, maxTokens: nat)
    ensures var body := Body(conversation);
      SuffixFits(cost, conversation, maxTokens) <==>
        SuffixStart(cost, body, Minus(maxTokens, Total(cost, Head(conversation)))) < |body|
  {
    var body, budget := Body(conversation), Minus(maxTokens, Total(cost, Head(conversation)));
    var first, start := AffordableStart(cost, body, budget), SuffixStart(cost, body, budget);
    hide Body, Head, AffordableStart, SuffixStart, Total;
    SkipsOnlyResults(cost, body, budget);
    if start < |body| {
      AffordableStartFits(cost, body, budget);
      TotalSuffix(cost, body, first, start);
    }
    if j :| 0 <= j < |body| && !body[j].ToolResult? && Total(cost, body[j..]) <= budget {
      if j < first {
        AffordableStartBest(cost, body, budget, j);
      }
    }
  }

  lemma {:induction false} TotalConcat(cost: Cost, s: seq<Item>, t: seq<Item>)
    ensures Total(cost, s + t) == Total(cost, s) + Total(cost, t)
    ensures Total(cost, []) == 0 && forall x :: Total(cost, [x]) == cost(x)
  {
    assert forall x: Item :: [x][1..] == [];
    if s == [] {
      assert s + t == t;
    } else {
      assert (s + t)[1..] == s[1..] + t;
      TotalConcat(cost, s[1..], t);
    }
  }

  /** When a suffix fits, the result is the System item and the longest affordable suffix less the
      results at its front: nothing longer is affordable, what is skipped are results only, and the
      total is within the budget or the System item's own cost, whichever is larger. */
  lemma {:induction false} FitTakesLongestSuffix(cost: Cost, conversation: seq<Item>, maxTokens: nat)
    requires OverBudget(cost, conversation, maxTokens) && SuffixFits(cost, conversation, maxTokens)
    ensures var head, body := Head(conversation), Body(conversation);
      var budget := Minus(maxTokens, Total(cost, head));
      var first, start := AffordableStart(cost, body, budget), SuffixStart(cost, body, budget);
      && Fit(cost, conversation, maxTokens) == head + body[start..]
      && (forall j :: 0 <= j < first ==> Total(cost, body[j..]) > budget)
      && first <= start && (forall k :: first <= k < start ==> body[k].ToolResult?)
      && Total(cost, Fit(cost, conversation, maxTokens)) <=
        (if maxTokens < Total(cost, head) then Total(cost, head) else maxTokens)
  {
    SuffixFitsIff(cost, conversation, maxTokens);
    hide AffordableStart, Total, LeadingRun;
    var head, body := Head(conversation), Body(conversation);
    var budget := Minus(maxTokens, Total(cost, head));
    var first, start := AffordableStart(cost, body, budget), SuffixStart(cost, body, budget);
    forall j | 0 <= j < first ensures Total(cost, body[j..]) > budget {
      AffordableStartBest(cost, body, budget, j);
    }
    SkipsOnlyResults(cost, body, budget);
    AffordableStartFits(cost, body, budget);
    TotalSuffix(cost, body, first, start);
    TotalConcat(cost, head, body[start..]);
  }

  lemma {:induction false} SkipsOnlyResults(cost: Cost, body: seq<Item>, budget: nat)
    ensures var first, start := AffordableStart(cost, body, budget), SuffixStart(cost, body, budget);
      first <= start && forall k :: first <= k < start ==> body[k].ToolResult?
  {
    hide AffordableStart, LeadingRun;
    var first := AffordableStart(cost, body, budget);
    var run := LeadingRun(body[first..]);
    forall k | first <= k < first + |run| ensures body[k].ToolResult? {
      assert body[first..][k - first] == body[k];
    }
  }

  /** The text is left alone if it fits; otherwise it is a prefix of its characters, at most three bytes
      short of the limit less the marker's reserve, and the marker telling how much went. */
  ghost predicate IsCutText(before: string, after: string, limit: nat) {
    if |Encode(before)| <= limit then after == before
    else exists p :: p <= before && IsKeptPart(before, p, limit) && after == p + Marker(|Encode(before)| - |Encode(p)|)
  }

  predicate IsKeptPart(text: string, part: string, limit: nat) {
    |Encode(part)| <= Keep(limit) <= |Encode(part)| + 3 && |Encode(part)| <= |Encode(text)|
  }

  ghost predicate IsCutPart(before: ContentPart, after: ContentPart, limit: nat) {
    if before.Text? then after.Text? && IsCutText(before.text, after.text, limit) else after == before
  }

  /** The same item but for its texts, each cut to the limit: ids, calls, flags and images stay. */
  ghost predicate IsCutItem(before: Item, after: Item, limit: nat) {
    match before
    case ToolResult(r) => after.ToolResult? && after.result.(content := r.content) == r &&
      IsCutText(r.content, after.result.content, limit)
    case Assistant(content, calls) => after.Assistant? && after.calls == calls &&
      IsCutText(content, after.content, limit)
    case User(parts, synthetic) =>
      && after.User? && after.synthetic == synthetic && |after.parts| == |parts|
      && forall k :: 0 <= k < |parts| ==> IsCutPart(parts[k], after.parts[k], limit)
    case _ => after == before
  }

  lemma {:induction false} TruncatedIsCut(text: string, maxTokens: nat)
    ensures IsCutText(text, Truncated(text, maxTokens), ByteLimit(maxTokens))
  {
    var limit := ByteLimit(maxTokens);
    TruncationNone(text, limit);
    if |Encode(text)| > limit {
      var p := KeptPrefix(text, limit);
      TruncationKeeps(text, limit);
      assert text == p + text[|p|..];
      hide Encode, KeptPrefix, Marker, Keep;
      EncodeConcat(p, text[|p|..]);
      assert IsKeptPart(text, p, limit);
    }
  }

  lemma {:induction false} PartsAreCut(parts: seq<ContentPart>, maxTokens: nat)
    ensures var cut := TruncateParts(parts, maxTokens);
      |cut| == |parts| && forall k :: 0 <= k < |parts| ==> IsCutPart(parts[k], cut[k], ByteLimit(maxTokens))
  {
    if parts != [] {
      PartsAreCut(parts[1..], maxTokens);
      hide Truncated, IsCutText;
      if parts[0].Text? {
        TruncatedIsCut(parts[0].text, maxTokens);
      }
    }
  }

  /** What truncation does to an item. */
  lemma {:induction false} TruncateItemCuts(item: Item, maxTokens: nat)
    ensures IsCutItem(item, TruncateItem(item, maxTokens), ByteLimit(maxTokens))
  {
    hide Truncated, IsCutText, ByteLimit;
    match item
    case ToolResult(r) => TruncatedIsCut(r.content, maxTokens);
    case Assistant(content, _) => TruncatedIsCut(content, maxTokens);
    case User(parts, _) => PartsAreCut(parts, maxTokens);
    case _ =>
  }

  /** The tokens the last item's text is cut to when nothing is affordable. */
  function LastItemTokens(cost: Cost, body: seq<Item>, budget: nat): nat {
    if Tail(body) == [] then budget else PerResult(ResultBudget(cost, body, budget), |Tail(body)|)
  }

  /** The last turn is never lost: whatever the budget, a conversation with anything besides its System
      item ends in its own last item, which is untouched unless no suffix is affordable and else has
      only its texts cut. */
  lemma {:induction false} FitKeepsLast(cost: Cost, conversation: seq<Item>, maxTokens: nat)
    requires Body(conversation) != []
    ensures var fitted, last := Fit(cost, conversation, maxTokens), conversation[|conversation| - 1];
      var n := LastItemTokens(cost, Body(conversation), Minus(maxTokens, Total(cost, Head(conversation))));
      && fitted != []
      && (!OverBudget(cost, conversation, maxTokens) || SuffixFits(cost, conversation, maxTokens) ==>
        fitted[|fitted| - 1] == last)
      && (fitted[|fitted| - 1] == last || IsCutItem(last, fitted[|fitted| - 1], ByteLimit(n)))
  {
    SuffixFitsIff(cost, conversation, maxTokens);
    hide TailUnit, IsCutItem, SuffixStart, Total, ByteLimit, LastItemTokens;
    var head, body := Head(conversation), Body(conversation);
    assert body[|body| - 1] == conversation[|conversation| - 1];
    if OverBudget(cost, conversation, maxTokens) {
      var budget := Minus(maxTokens, Total(cost, head));
      var start := SuffixStart(cost, body, budget);
      if start < |body| {
        LastOf(head, body[start..]);
      } else {
        TailUnitKeepsLast(cost, body, budget);
        LastOf(head, TailUnit(cost, body, budget));
      }
    }
  }

  lemma LastOf(s: seq<Item>, t: seq<Item>)
    requires t != []
    ensures (s + t)[|s + t| - 1] == t[|t| - 1]
  {}

  lemma {:induction false} TailUnitKeepsLast(cost: Cost, body: seq<Item>, budget: nat)
    requires body != []
    ensures var unit := TailUnit(cost, body, budget);
      unit != [] && IsCutItem(body[|body| - 1], unit[|unit| - 1], ByteLimit(LastItemTokens(cost, body, budget)))
  {
    hide TruncateItem, PerResult, IsCutItem, Front, TailOwner, ByteLimit;
    var results := Tail(body);
    TruncateItemCuts(body[|body| - 1], LastItemTokens(cost, body, budget));
    if results != [] {
      LastOf(Front(body), results);
      LastOf(TailOwner(body), TruncateAll(results, LastItemTokens(cost, body, budget)));
    }
  }

  // ----- How the budget is shared out -----

  ghost predicate IsShare(room: nat, n: nat, per: nat) {
    if room < n then per == 1 else n * per <= room < n * (per + 1)
  }

  lemma ShareOf(room: nat, n: nat)
    requires n > 0
    ensures IsShare(room, n, PerResult(room, n))
  {
    var share := room / n;
    assert room == n * share + room % n;
    assert n * (share + 1) == n * share + n;
    if room >= n {
      assert share >= 1;
    }
  }

  /** Four bytes a token, as far as the machine counts. */
  function BytesFor(tokens: nat): nat {
    if 4 * tokens <= USIZE_MAX then 4 * tokens else USIZE_MAX
  }

  ghost predicate AreCut(before: seq<Item>, after: seq<Item>, limit: nat) {
    |before| == |after| && forall k :: 0 <= k < |before| ==> IsCutItem(before[k], after[k], limit)
  }

  lemma {:induction false} TruncateAllCuts(s: seq<Item>, maxTokens: nat)
    ensures AreCut(s, TruncateAll(s, maxTokens), BytesFor(maxTokens))
  {
    hide TruncateItem, IsCutItem;
    forall k | 0 <= k < |s| ensures IsCutItem(s[k], TruncateAll(s, maxTokens)[k], BytesFor(maxTokens)) {
      TruncateItemCuts(s[k], maxTokens);
    }
  }

  /** `fitted` is the System item, the assistant that `n` results at the end answer, and those results in
      order, each cut to an equal share of what is left of the budget, though at least to one token. */
  ghost predicate SharesBudget(cost: Cost, conversation: seq<Item>, maxTokens: nat, n: nat, fitted: seq<Item>, per: nat)
    requires 0 < n <= |conversation|
  {
    var m := |conversation| - n;
    var head := if conversation[0].System? then [conversation[0]] else [];
    var owner := if m > 0 && conversation[m - 1].Assistant? && conversation[m - 1].calls != [] then
      [conversation[m - 1]] else [];
    var kept := |head| + |owner|;
    && IsShare(Minus(maxTokens, Total(cost, head + owner)), n, per)
    && |fitted| == kept + n && fitted[..kept] == head + owner
    && AreCut(conversation[m..], fitted[kept..], BytesFor(per))
  }

  lemma OwnerIs(body: seq<Item>, n: nat)
    requires n <= |body| && Front(body) == body[..n]
    ensures TailOwner(body) == if n > 0 && CallsOf(body[n - 1]) != [] then [body[n - 1]] else []
  {
  }

  /** A System item in front, and everything else. */
  lemma HeadAndBody(conversation: seq<Item>)
    ensures Head(conversation) == if conversation != [] && conversation[0].System? then [conversation[0]] else []
    ensures conversation == Head(conversation) + Body(conversation)
  {
  }

  lemma {:induction false} TailIs(conversation: seq<Item>, n: nat)
    requires 0 < n <= |conversation|
    requires forall k :: |conversation| - n <= k < |conversation| ==> conversation[k].ToolResult?
    requires n < |conversation| ==> !conversation[|conversation| - n - 1].ToolResult?
    ensures var body, m := Body(conversation), |conversation| - n;
      && Tail(body) == conversation[m..] && body != []
      && TailOwner(body) == if m > 0 && CallsOf(conversation[m - 1]) != [] then [conversation[m - 1]] else []
  {
    hide Front, Tail, TailOwner;
    HeadAndBody(conversation);
    var body, m := Body(conversation), |conversation| - n;
    var at := m - |Head(conversation)|;
    assert at >= 0 && body[at..] == conversation[m..];
    FrontIs(body, at);
    OwnerIs(body, at);
  }

  /** When nothing that ends the conversation is affordable and it ends in tool results, all of those are
      kept behind their assistant, and the budget is shared out equally. */
  lemma {:induction false} FitSharesBudget(cost: Cost, conversation: seq<Item>, maxTokens: nat, n: nat)
    requires OverBudget(cost, conversation, maxTokens) && !SuffixFits(cost, conversation, maxTokens)
    requires 0 < n <= |conversation|
    requires forall k :: |conversation| - n <= k < |conversation| ==> conversation[k].ToolResult?
    requires n < |conversation| ==> !conversation[|conversation| - n - 1].ToolResult?
    ensures exists per :: SharesBudget(cost, conversation, maxTokens, n, Fit(cost, conversation, maxTokens), per)
  {
    hide Total, PerResult, IsShare, TruncateAll, AreCut, Fit, OverBudget, SuffixFits, Head, Body;
    var owner, results, room := SharedOut(cost, conversation, maxTokens, n);
    HeadAndBody(conversation);
    var head := Head(conversation);
    var per := PerResult(room, n);
    ShareOf(room, n);
    TruncateAllCuts(results, per);
    var fitted := Fit(cost, conversation, maxTokens);
    assert fitted[..|head| + |owner|] == head + owner;
    assert fitted[|head| + |owner|..] == TruncateAll(results, per);
    assert SharesBudget(cost, conversation, maxTokens, n, fitted, per);
  }

  lemma {:induction false} SharedOut(cost: Cost, conversation: seq<Item>, maxTokens: nat, n: nat)
    returns (owner: seq<Item>, results: seq<Item>, room: nat)
    requires OverBudget(cost, conversation, maxTokens) && !SuffixFits(cost, conversation, maxTokens)
    requires 0 < n <= |conversation|
    requires forall k :: |conversation| - n <= k < |conversation| ==> conversation[k].ToolResult?
    requires n < |conversation| ==> !conversation[|conversation| - n - 1].ToolResult?
    ensures var m, head := |conversation| - n, Head(conversation);
      && results == conversation[m..] && room == Minus(maxTokens, Total(cost, head + owner))
      && owner == (if m > 0 && conversation[m - 1].Assistant? && conversation[m - 1].calls != [] then
        [conversation[m - 1]] else [])
      && Fit(cost, conversation, maxTokens) == head + owner + TruncateAll(results, PerResult(room, n))
  {
    hide SuffixFits, SuffixStart, Total, Front, Tail, TailOwner, PerResult, TruncateAll, Body, Head, LeadingRun;
    SuffixFitsIff(cost, conversation, maxTokens);
    TailIs(conversation, n);
    var head, body := Head(conversation), Body(conversation);
    owner, results := TailOwner(body), Tail(body);
    var budget := Minus(maxTokens, Total(cost, head));
    room := ResultBudget(cost, body, budget);
    TotalConcat(cost, head, owner);
    assert TailUnit(cost, body, budget) == owner + TruncateAll(results, PerResult(room, n));
  }

  /** When the conversation ends in another item, that one alone is kept behind the System item, its texts
      cut to what is left of the budget. */
  lemma {:induction false} FitCutsLast(cost: Cost, conversation: seq<Item>, maxTokens: nat)
    requires OverBudget(cost, conversation, maxTokens) && !SuffixFits(cost, conversation, maxTokens)
    requires conversation != [] && !conversation[|conversation| - 1].ToolResult?
    requires |conversation| > 1 || !conversation[0].System?
    ensures var fitted, last := Fit(cost, conversation, maxTokens), conversation[|conversation| - 1];
      var head := if conversation[0].System? then [conversation[0]] else [];
      && |fitted| == |head| + 1 && fitted[..|head|] == head
      && IsCutItem(last, fitted[|head|], BytesFor(Minus(maxTokens, Total(cost, head))))
  {
    hide SuffixFits, SuffixStart, Total, Front, TruncateItem, IsCutItem, Body, Head, LeadingRun;
    SuffixFitsIff(cost, conversation, maxTokens);
    HeadAndBody(conversation);
    var head, body := Head(conversation), Body(conversation);
    var last, budget := body[|body| - 1], Minus(maxTokens, Total(cost, head));
    assert last == conversation[|conversation| - 1];
    FrontIs(body, |body|);
    TruncateItemCuts(last, budget);
    assert Fit(cost, conversation, maxTokens) == head + [TruncateItem(last, budget)];
  }

  lemma {:induction false} PairedBody(conversation: seq<Item>)
    requires Paired(conversation)
    ensures Paired(Body(conversation))
    ensures Body(conversation) != [] ==> !Body(conversation)[0].ToolResult?
  {
    var head, body := Head(conversation), Body(conversation);
    assert conversation == head + body;
    assert body != [] ==> conversation[|head|] == body[0];
    if body != [] && body[0].ToolResult? {
      OwnerUnique(conversation, |head|, |head| - 1);
      assert false;
    }
    PairedSuffix(head, body);
  }

  /** The trailing results of a paired body all answer calls of the assistant right before them. */
  lemma {:induction false} PairedTail(body: seq<Item>)
    requires Paired(body) && Tail(body) != []
    ensures var front := Front(body);
      front != [] && front[|front| - 1].Assistant? && TailOwner(body) == [front[|front| - 1]]
    ensures forall k :: 0 <= k < |Tail(body)| ==> Tail(body)[k].result.callId in CallIds(TailOwner(body)[0].calls)
  {
    var front, tail := Front(body), Tail(body);
    hide Front, CallIds, OwnerOf, Paired, InOwnRun;
    assert CallIds([]) == {} by { EmptyCalls(); }
    forall k | 0 <= k < |tail| ensures tail[k].result.callId in CallIds(OwnerCalls(body, |front| - 1)) {
      TailOwned(body, k);
    }
    assert tail[0].result.callId in CallIds(OwnerCalls(body, |front| - 1));
    FrontOwner(body);
  }

  lemma {:induction false} TailOwned(body: seq<Item>, k: nat)
    requires Paired(body) && k < |Tail(body)|
    ensures Tail(body)[k].result.callId in CallIds(OwnerCalls(body, |Front(body)| - 1))
  {
    hide Front, Tail, CallIds, OwnerOf, Paired, OwnerCalls;
    var n := |Front(body)|;
    assert body == body[..n] + Tail(body);
    assert body[n + k] == Tail(body)[k];
    SameOwner(body, n, n + k);
    OwnRunAt(body, n + k);
  }

  lemma OwnRunAt(s: seq<Item>, i: nat)
    requires Paired(s) && i < |s| && s[i].ToolResult?
    ensures InOwnRun(s, i)
  {
  }

  /** All of a run's results have the owner that the item right before the run gives. */
  lemma {:induction false} SameOwner(s: seq<Item>, n: nat, i: nat)
    requires n <= i < |s| && forall k :: n <= k <= i ==> s[k].ToolResult?
    requires n > 0 ==> !s[n - 1].ToolResult?
    ensures OwnerCalls(s, i) == OwnerCalls(s, n - 1)
  {
    hide OwnerOf;
    OwnerUnique(s, i, n - 1);
    OwnerUnique(s, n - 1, n - 1);
  }

  lemma {:induction false} FrontOwner(body: seq<Item>)
    ensures var front := Front(body);
      OwnerCalls(body, |front| - 1) != [] ==>
        && front != [] && front[|front| - 1].Assistant? && TailOwner(body) == [front[|front| - 1]]
        && OwnerCalls(body, |front| - 1) == front[|front| - 1].calls
  {
    var front := Front(body);
    OwnerUnique(body, |front| - 1, |front| - 1);
  }

  lemma EmptyCalls()
    ensures CallIds([]) == {}
  {}

  predicate SameResult(x: Item, y: Item) {
    x.ToolResult? && y.ToolResult? && x.result.callId == y.result.callId
  }

  lemma {:induction false} TruncateAllSame(s: seq<Item>, per: nat)
    requires forall k :: 0 <= k < |s| ==> s[k].ToolResult?
    ensures forall k :: 0 <= k < |s| ==> SameResult(TruncateAll(s, per)[k], s[k])
  {
    hide Truncated;
  }

  lemma {:induction false} OwnedByFirst(unit: seq<Item>)
    requires unit != [] && !unit[0].ToolResult?
    requires forall k :: 1 <= k < |unit| ==> unit[k].ToolResult? && unit[k].result.callId in CallIds(CallsOf(unit[0]))
    ensures Paired(unit)
  {
    forall i | 0 <= i < |unit| && unit[i].ToolResult? ensures InOwnRun(unit, i) {
      OwnerUnique(unit, i, 0);
    }
  }

  lemma {:induction false} TailUnitPaired(cost: Cost, body: seq<Item>, budget: nat)
    requires Paired(body)
    ensures Paired(TailUnit(cost, body, budget))
    ensures TailUnit(cost, body, budget) != [] ==> !TailUnit(cost, body, budget)[0].ToolResult?
  {
    var results := Tail(body);
    if body == [] {
    } else if results == [] {
      hide Paired, CallIds;
      assert !body[|body| - 1].ToolResult?;
      OwnedByFirst(TailUnit(cost, body, budget));
    } else {
      PairedTail(body);
      var per := PerResult(ResultBudget(cost, body, budget), |results|);
      TruncateAllSame(results, per);
      hide Paired, CallIds, TruncateAll, PerResult, Front, TailOwner;
      OwnedByFirst(TailOwner(body) + TruncateAll(results, per));
    }
  }

  /** Fitting keeps tool pairing, on the suffix path and on the truncated-tail path, for every
      budget and every cost function. */
  lemma {:induction false} FitKeepsPairing(cost: Cost, conversation: seq<Item>, maxTokens: nat)
    requires Paired(conversation)
    ensures Paired(Fit(cost, conversation, maxTokens))
  {
    if OverBudget(cost, conversation, maxTokens) {
      var head, body := Head(conversation), Body(conversation);
      var budget := Minus(maxTokens, Total(cost, head));
      var start := SuffixStart(cost, body, budget);
      PairedBody(conversation);
      var rest := if start < |body| then body[start..] else TailUnit(cost, body, budget);
      if start < |body| {
        assert body == body[..start] + body[start..];
        PairedSuffix(body[..start], body[start..]);
      } else {
        TailUnitPaired(cost, body, budget);
      }
      PairedConcat(head, rest);
    }
  }

  lemma {:induction false} SameIdsSameCounts(r: Run, t: Run, id: string)
    requires |r| == |t| && forall k :: 0 <= k < |r| ==> r[k].callId == t[k].callId
    ensures CountId(r, id) == CountId(t, id)
  {
    if r != [] {
      SameIdsSameCounts(r[1..], t[1..], id);
    }
  }

  lemma {:induction false} LeadingRunAll(s: seq<Item>)
    requires forall k :: 0 <= k < |s| ==> s[k].ToolResult?
    ensures |LeadingRun(s)| == |s|
  {
    var run := LeadingRun(s);
  }

  /** The shortened tail answers the same calls as the tail did. */
  lemma {:induction false} TailRunCounts(owner: Item, r: seq<Item>, t: seq<Item>, id: string)
    requires |t| == |r| && forall k :: 0 <= k < |r| ==> SameResult(t[k], r[k])
    ensures CountId(RunAfter([owner] + t, 0), id) == CountId(LeadingRun(r), id)
  {
    assert ([owner] + t)[1..] == t;
    LeadingRunAll(r);
    LeadingRunAll(t);
    SameIdsSameCounts(LeadingRun(t), LeadingRun(r), id);
  }

  lemma {:induction false} OneAnswered(unit: seq<Item>)
    requires unit != []
    requires forall k :: 1 <= k < |unit| ==> unit[k].ToolResult?
    requires unit[0].Assistant? ==> forall id :: id in CallIds(unit[0].calls) ==> CountId(RunAfter(unit, 0), id) == 1
    ensures EachCallAnsweredOnce(unit)
  {
    hide CallIds, CountId, RunAfter;
  }

  lemma {:induction false} AnsweredAt(body: seq<Item>, front: seq<Item>, owner: Item, results: seq<Item>, id: string)
    requires EachCallAnsweredOnce(body) && body == front + [owner] + results
    requires owner.Assistant? && id in CallIds(owner.calls)
    ensures CountId(LeadingRun(results), id) == 1
  {
    assert body[|front|] == owner && body[|front| + 1..] == results;
    hide LeadingRun, CountId, CallIds;
  }

  lemma {:induction false} TailWithResultsAnswered(cost: Cost, body: seq<Item>, budget: nat)
    requires Paired(body) && EachCallAnsweredOnce(body) && Tail(body) != []
    ensures EachCallAnsweredOnce(TailUnit(cost, body, budget))
  {
    hide EachCallAnsweredOnce, CallIds, RunAfter, LeadingRun, TruncateAll, Front, Paired, PerResult;
    PairedTail(body);
    var results, front := Tail(body), Front(body);
    var owner := front[|front| - 1];
    var t := TruncateAll(results, PerResult(ResultBudget(cost, body, budget), |results|));
    TruncateAllSame(results, PerResult(ResultBudget(cost, body, budget), |results|));
    assert front == front[..|front| - 1] + [owner];
    forall id | id in CallIds(owner.calls) ensures CountId(RunAfter([owner] + t, 0), id) == 1 {
      TailRunCounts(owner, results, t, id);
      AnsweredAt(body, front[..|front| - 1], owner, results, id);
    }
    OneAnswered([owner] + t);
  }

  lemma {:induction false} LastAloneAnswered(body: seq<Item>, last: Item, item: Item)
    requires EachCallAnsweredOnce(body + [last])
    requires item.Assistant? ==> last.Assistant? && item.calls == last.calls
    ensures EachCallAnsweredOnce([item])
  {
    var s := body + [last];
    assert s[|body|] == last && s[|body| + 1..] == [] && [item][1..] == [];
    assert RunAfter(s, |body|) == RunAfter([item], 0);
  }

  lemma {:induction false} TailUnitAnswered(cost: Cost, body: seq<Item>, budget: nat)
    requires Paired(body) && EachCallAnsweredOnce(body)
    ensures EachCallAnsweredOnce(TailUnit(cost, body, budget))
  {
    if body != [] && Tail(body) != [] {
      TailWithResultsAnswered(cost, body, budget);
    } else if body != [] {
      hide EachCallAnsweredOnce, Truncated, Front;
      var last := body[|body| - 1];
      assert body == body[..|body| - 1] + [last];
      LastAloneAnswered(body[..|body| - 1], last, TruncateItem(last, budget));
    }
  }

  lemma {:induction false} BehindHead(head: seq<Item>, s: seq<Item>)
    requires EachCallAnsweredOnce(s) && forall k :: 0 <= k < |head| ==> head[k].System?
    ensures EachCallAnsweredOnce(head + s)
  {
    AnsweredInMiddle(head, s, []);
    assert head + s + [] == head + s;
  }

  /** Tool runs are never split: in a paired conversation where every call has exactly one answer,
      every call that survives still has exactly one. */
  lemma {:induction false} FitKeepsRunsWhole(cost: Cost, conversation: seq<Item>, maxTokens: nat)
    requires Paired(conversation) && EachCallAnsweredOnce(conversation)
    ensures EachCallAnsweredOnce(Fit(cost, conversation, maxTokens))
  {
    hide SuffixStart, TailUnit, Total, EachCallAnsweredOnce, Paired;
    if OverBudget(cost, conversation, maxTokens) {
      var head, body := Head(conversation), Body(conversation);
      var budget := Minus(maxTokens, Total(cost, head));
      var start := SuffixStart(cost, body, budget);
      assert conversation == head + body;
      AnsweredInSuffix(head, body);
      if start < |body| {
        assert body == body[..start] + body[start..];
        AnsweredInSuffix(body[..start], body[start..]);
        BehindHead(head, body[start..]);
      } else {
        PairedBody(conversation);
        TailUnitAnswered(cost, body, budget);
        BehindHead(head, TailUnit(cost, body, budget));
      }
    }
  }

  // ----- Size of the truncated tail -----

  function ContentBytes(s: seq<Item>): nat {
    if s == [] then 0
    else (if s[0].ToolResult? then |Encode(s[0].result.content)| else 0) + ContentBytes(s[1..])
  }

  /** Digits the length of a text has beyond the eight the marker's reserve allows for: none for a text
      under 10^8 bytes. */
  function ExtraDigits(text: string): nat {
    if Digits(|Encode(text)|) > 8 then Digits(|Encode(text)|) - 8 else 0
  }

  function Excess(s: seq<Item>): nat {
    if s == [] then 0
    else (if s[0].ToolResult? then ExtraDigits(s[0].result.content) else 0) + Excess(s[1..])
  }

  lemma {:induction false} NoExcess(s: seq<Item>)
    requires forall k :: 0 <= k < |s| && s[k].ToolResult? ==> |Encode(s[k].result.content)| < 1_0000_0000
    ensures Excess(s) == 0
  {
    hide Encode;
    if s != [] {
      NoExcess(s[1..]);
      if s[0].ToolResult? {
        assert Pow10(4) == 1_0000;
        assert Pow10(8) == 1_0000_0000;
        DigitsBound(|Encode(s[0].result.content)|, 8, 1_0000_0000);
      }
    }
  }

  lemma {:induction false} DigitsGrow(n: nat, m: nat)
    requires n <= m
    ensures Digits(n) <= Digits(m)
  {
    if n >= 10 {
      DigitsGrow(n / 10, m / 10);
    }
  }

  lemma {:induction false} TruncatedBytes(text: string, per: nat)
    ensures |Encode(Truncated(text, per))| <= (if 4 * per < 64 then 64 else 4 * per) + ExtraDigits(text)
  {
    var limit := ByteLimit(per);
    TruncationNone(text, limit);
    if TruncateText(text, limit).Some? {
      TruncationKeeps(text, limit);
      DigitsGrow(Dropped(text, limit), |Encode(text)|);
    }
  }

  lemma TruncationNone(text: string, maxBytes: nat)
    ensures TruncateText(text, maxBytes).None? <==> |Encode(text)| <= maxBytes
  {}

  lemma {:induction false} TruncateAllBytes(s: seq<Item>, per: nat)
    ensures ContentBytes(TruncateAll(s, per)) <= |s| * (if 4 * per < 64 then 64 else 4 * per) + Excess(s)
  {
    hide Encode, Truncated, ExtraDigits;
    var most := if 4 * per < 64 then 64 else 4 * per;
    if s != [] {
      var t := TruncateAll(s, per);
      assert t[1..] == TruncateAll(s[1..], per);
      TruncateAllBytes(s[1..], per);
      if s[0].ToolResult? {
        TruncatedBytes(s[0].result.content, per);
      }
      Multiply(|s[1..]|, most);
      assert |s| == 1 + |s[1..]|;
    }
  }

  lemma Multiply(n: nat, m: nat)
    ensures (1 + n) * m == m + n * m
  {}

  lemma {:induction false} TailBytes(owner: seq<Item>, results: seq<Item>)
    requires |owner| <= 1 && (owner != [] ==> !owner[0].ToolResult?)
    ensures ContentBytes(owner + results) == ContentBytes(results)
  {
    if owner == [] {
      assert owner + results == results;
    } else {
      assert (owner + results)[1..] == results;
    }
  }

  /** The results kept on the truncated-tail path hold at most four bytes per token of their budget and
      64 bytes each, and one byte per digit beyond eight in the length of an original: none for texts
      under 10^8 bytes. */
  lemma {:induction false} TailUnitBytes(cost: Cost, body: seq<Item>, budget: nat)
    requires Tail(body) != []
    ensures ContentBytes(TailUnit(cost, body, budget)) <= 4 * ResultBudget(cost, body, budget) + 64 * |Tail(body)| +
      Excess(Tail(body))
    ensures (forall k :: 0 <= k < |Tail(body)| ==> |Encode(Tail(body)[k].result.content)| < 1_0000_0000) ==>
      Excess(Tail(body)) == 0
  {
    hide ResultBudget, Encode, Front, TruncateAll, ContentBytes, TailOwner, Excess;
    var results := Tail(body);
    var per := PerResult(ResultBudget(cost, body, budget), |results|);
    hide PerResult;
    TruncateAllBytes(results, per);
    TailBytes(TailOwner(body), TruncateAll(results, per));
    if forall k :: 0 <= k < |results| ==> |Encode(results[k].result.content)| < 1_0000_0000 {
      NoExcess(results);
    }
  }
}
