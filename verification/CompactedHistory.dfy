/** Rebuilding a conversation after compaction: what is carried over from the old one, and why a
    second compaction finds the same recent messages again. */
module CompactedHistory {
  import opened Options
  import opened Conversations
  import opened Strings
  import opened RepairHistory
  import opened CompactSummary
  import SanitizeHistory

  // ----- The user's own words -----

  const SYSTEM_TAGS: seq<string> := [
    "user_info", "project_layout", "git_status", "fork-context", "system-reminder", "agent-memory",
    "system_reminder", "background_context", "command-name", "command-message", "command-args"
  ]

  const AUTO_CONTINUE_PROMPT: string :=
    "Continue the conversation from where it left off without asking the user any further "
    + "questions. Resume directly - do not acknowledge the summary, do not recap what was "
    + "happening, do not preface with \"I'll continue\" or similar.\n"
    + "Pick up the last task as if the break never happened."

  function Open(tag: string): string { "<" + tag + ">" }
  function Close(tag: string): string { "</" + tag + ">" }

  /** Removes closed blocks of one tag from the front on; stops at the first unclosed one. */
  function StripTag(tag: string, s: string): (r: string)
    ensures |r| <= |s|
    decreases |s|
  {
    match Find(s, Open(tag))
    case None => s
    case Some(start) =>
      match Find(s[start..], Close(tag))
      case None => s
      case Some(rel) => StripTag(tag, s[..start] + s[start + rel + |Close(tag)|..])
  }

  function StripTags(tags: seq<string>, s: string): (r: string)
    ensures |r| <= |s|
  {
    if tags == [] then s else StripTags(tags[1..], StripTag(tags[0], s))
  }

  function StripSystemTags(s: string): string {
    Trim(StripTags(SYSTEM_TAGS, s))
  }

  const QUERY_OPEN := "<user_query>"
  const QUERY_CLOSE := "</user_query>"

  function ExtractUserQuery(text: string): string {
    match Find(text, QUERY_OPEN)
    case None => StripSystemTags(text)
    case Some(start) =>
      var rest := text[start + |QUERY_OPEN|..];
      match Find(rest, QUERY_CLOSE)
      case None => StripSystemTags(text)
      case Some(end) => StripSystemTags(Trim(rest[..end]))
  }

  predicate IsSyntheticQuery(text: string) {
    text == "" || text == "__auto_continue__" || text == AUTO_CONTINUE_PROMPT
  }

  function Texts(parts: seq<ContentPart>): seq<string> {
    if parts == [] then []
    else if parts[0].Text? then [parts[0].text] + Texts(parts[1..])
    else Texts(parts[1..])
  }

  function JoinLines(lines: seq<string>): string {
    if lines == [] then "" else if |lines| == 1 then lines[0] else lines[0] + "\n" + JoinLines(lines[1..])
  }

  predicate HasImages(parts: seq<ContentPart>) {
    exists p :: p in parts && p.Image?
  }

  function UserQuery(parts: seq<ContentPart>): string {
    ExtractUserQuery(JoinLines(Texts(parts)))
  }

  /** A user item typed by a person: not injected, and with an image or a query of its own. */
  predicate IsRealUserTurn(item: Item) {
    item.User? && item.synthetic.None? && (HasImages(item.parts) || !IsSyntheticQuery(UserQuery(item.parts)))
  }

  // ----- What compaction carries over -----

  /** Position behind the last real user turn before position `n`, or 0. */
  function RealTurnBefore(s: seq<Item>, n: nat): (start: nat)
    requires n <= |s|
    ensures start <= n
    ensures start > 0 ==> IsRealUserTurn(s[start - 1])
    ensures forall k :: start <= k < n ==> !IsRealUserTurn(s[k])
  {
    if n == 0 || IsRealUserTurn(s[n - 1]) then n else RealTurnBefore(s, n - 1)
  }

  function RecentStart(s: seq<Item>): (start: nat)
    ensures start <= |s|
    ensures start > 0 ==> IsRealUserTurn(s[start - 1])
    ensures forall k :: start <= k < |s| ==> !IsRealUserTurn(s[k])
  {
    RealTurnBefore(s, |s|)
  }

  const OMITTED := "Tool call omitted..."

  function Omit(r: ToolResultItem): ToolResultItem {
    ToolResultItem(r.callId, OMITTED, r.isError, [])
  }

  /** Assistant items and results with their content replaced; everything else is dropped. */
  function Carried(s: seq<Item>): seq<Item> {
    if s == [] then []
    else if s[0].Assistant? then [s[0]] + Carried(s[1..])
    else if s[0].ToolResult? then [ToolResult(Omit(s[0].result))] + Carried(s[1..])
    else Carried(s[1..])
  }

  function RecentMessages(s: seq<Item>): seq<Item> {
    Carried(s[RecentStart(s)..])
  }

  function LastRealUserQuery(s: seq<Item>): Option<string> {
    var start := RecentStart(s);
    if start == 0 then None else Some(UserQuery(s[start - 1].parts))
  }

  /** The part of the state context the rebuilt history depends on. */
  datatype StateContext = StateContext(
    cwdGeneration: nat,
    destinationInstructions: Option<string>,
    recentMessages: seq<Item>,
    lastUserQuery: Option<string>)

  datatype HistoryInput = HistoryInput(
    systemMessage: Item,
    userMessagePrefix: string,
    agentsMdReminder: Option<string>,
    summary: string,
    systemReminder: Option<string>,
    transcriptHint: Option<string>)

  /** A user item injected by the runtime. */
  predicate IsInjected(item: Item) {
    item.User? && item.synthetic.Some?
  }

  function Injected(text: string, reason: SyntheticReason): (item: Item)
    ensures IsInjected(item)
  {
    User([Text(text)], Some(reason))
  }

  function WrapUserQuery(q: string): string {
    QUERY_OPEN + "\n" + q + "\n" + QUERY_CLOSE
  }

  function Typed(text: string): Item {
    User([Text(text)], None)
  }

  function Optional(text: Option<string>, reason: SyntheticReason): (items: seq<Item>)
    ensures forall k :: 0 <= k < |items| ==> IsInjected(items[k])
  {
    match text
    case Some(t) => [Injected(t, reason)]
    case None => []
  }

  const SUMMARY_PREAMBLE: string :=
    "This session is being continued from a previous conversation that ran out of context. "
    + "The summary below covers the earlier portion of the conversation.\n\n"

  function SummaryItem(text: string, input: HistoryInput): (item: Item)
    ensures IsInjected(item)
  {
    Injected(SUMMARY_PREAMBLE + text + (if input.transcriptHint.Some? then input.transcriptHint.value else ""),
      CompactionMeta)
  }

  /** Everything in front of the last user query. */
  function Opening(input: HistoryInput, context: StateContext): (items: seq<Item>)
    ensures |items| >= 2 && items[0] == input.systemMessage
    ensures forall k :: 1 <= k < |items| ==> IsInjected(items[k])
  {
    [input.systemMessage, Injected(input.userMessagePrefix, CompactionMeta)]
    + Optional(
      if context.cwdGeneration == 0 then input.agentsMdReminder else context.destinationInstructions,
      ProjectInstructions)
  }

  function QueryItems(context: StateContext): (items: seq<Item>)
    ensures |items| <= 1 && forall k :: 0 <= k < |items| ==> items[k].User?
  {
    match context.lastUserQuery
    case Some(q) => [Typed(WrapUserQuery(q))]
    case None => []
  }

  function Closing(text: string, input: HistoryInput): seq<Item> {
    [SummaryItem(text, input)] + Optional(input.systemReminder, SystemReminder)
  }

  /** The rebuilt history around any summary text. */
  function HistoryWith(text: string, input: HistoryInput, context: StateContext): seq<Item> {
    Opening(input, context) + QueryItems(context) + context.recentMessages + Closing(text, input)
  }

  /** The code puts the cleaned summary there. */
  function BuildCompactedHistory(input: HistoryInput, context: StateContext): seq<Item> {
    HistoryWith(FormatSummary(input.summary), input, context)
  }

  /** The code pushes the items one by one. */
  method BuildHistory(input: HistoryInput, context: StateContext) returns (compacted: seq<Item>)
    ensures compacted == BuildCompactedHistory(input, context)
  {
    hide FormatSummary, WrapUserQuery;
    var formatted := SUMMARY_PREAMBLE + FormatSummary(input.summary);
    if input.transcriptHint.Some? {
      formatted := formatted + input.transcriptHint.value;
    }
    var summaryItem := Injected(formatted, CompactionMeta);
    compacted := [input.systemMessage, Injected(input.userMessagePrefix, CompactionMeta)];
    var instructions := if context.cwdGeneration == 0 then input.agentsMdReminder else context.destinationInstructions;
    if instructions.Some? {
      compacted := compacted + [Injected(instructions.value, ProjectInstructions)];
    }
    ghost var opening := Opening(input, context);
    assert compacted == opening;
    if context.lastUserQuery.Some? {
      compacted := compacted + [Typed(WrapUserQuery(context.lastUserQuery.value))];
    }
    ghost var front := opening + QueryItems(context);
    assert compacted == front;
    compacted := compacted + context.recentMessages;
    compacted := compacted + [summaryItem];
    assert summaryItem == SummaryItem(FormatSummary(input.summary), input) by {
      assert SUMMARY_PREAMBLE + FormatSummary(input.summary) + "" == SUMMARY_PREAMBLE + FormatSummary(input.summary);
    }
    if input.systemReminder.Some? {
      compacted := compacted + [Injected(input.systemReminder.value, SystemReminder)];
    }
    assert compacted == front + context.recentMessages + Closing(FormatSummary(input.summary), input);
  }

  // ----- The code's tag-stripping loop -----

  method StripSystemTagBlocks(text: string) returns (result: string)
    ensures result == StripSystemTags(text)
  {
    result := text;
    for k := 0 to |SYSTEM_TAGS|
      invariant StripTags(SYSTEM_TAGS[k..], result) == StripTags(SYSTEM_TAGS, text)
    {
      var tag := SYSTEM_TAGS[k];
      assert SYSTEM_TAGS[k..][0] == tag && SYSTEM_TAGS[k..][1..] == SYSTEM_TAGS[k + 1..];
      ghost var before := result;
      result := StripTagBlocks(tag, result);
    }
    result := Trim(result);
  }

  method StripTagBlocks(tag: string, text: string) returns (result: string)
    ensures result == StripTag(tag, text)
  {
    result := text;
    while true
      invariant StripTag(tag, result) == StripTag(tag, text)
      decreases |result|
    {
      match Find(result, Open(tag)) {
        case None => return;
        case Some(start) =>
          match Find(result[start..], Close(tag)) {
            case None => return;
            case Some(rel) => result := result[..start] + result[start + rel + |Close(tag)|..];
          }
      }
    }
  }

  // ----- Recent messages are a fixpoint -----

  lemma {:induction false} CarriedConcat(s: seq<Item>, t: seq<Item>)
    ensures Carried(s + t) == Carried(s) + Carried(t)
  {
    if s == [] {
      assert s + t == t;
    } else {
      assert (s + t)[1..] == s[1..] + t;
      CarriedConcat(s[1..], t);
      assert forall x: Item :: [x] + (Carried(s[1..]) + Carried(t)) == [x] + Carried(s[1..]) + Carried(t);
    }
  }

  predicate NoneCarried(s: seq<Item>) {
    forall k :: 0 <= k < |s| ==> !s[k].Assistant? && !s[k].ToolResult?
  }

  lemma {:induction false} CarriedNothing(s: seq<Item>)
    requires NoneCarried(s)
    ensures Carried(s) == []
  {
    if s != [] {
      CarriedNothing(s[1..]);
    }
  }

  lemma {:induction false} CarriedTwice(s: seq<Item>)
    ensures Carried(Carried(s)) == Carried(s)
    ensures forall k :: 0 <= k < |Carried(s)| ==> !IsRealUserTurn(Carried(s)[k])
  {
    if s != [] {
      CarriedTwice(s[1..]);
      var t := Carried(s);
      if s[0].Assistant? || s[0].ToolResult? {
        assert t[1..] == Carried(s[1..]);
      }
    }
  }

  lemma {:induction false} RecentStartBy(s: seq<Item>, n: nat)
    requires n <= |s| && forall k :: n <= k < |s| ==> !IsRealUserTurn(s[k])
    ensures RecentStart(s) <= n
  {}

  lemma {:induction false} InjectedNotReal(s: seq<Item>)
    requires forall k :: 0 <= k < |s| ==> IsInjected(s[k])
    ensures NoneCarried(s)
    ensures forall k :: 0 <= k < |s| ==> !IsRealUserTurn(s[k])
  {
    hide UserQuery, IsSyntheticQuery, HasImages;
  }

  lemma {:induction false} ClosingNotReal(text: string, input: HistoryInput)
    ensures NoneCarried(Closing(text, input))
    ensures forall k :: 0 <= k < |Closing(text, input)| ==> !IsRealUserTurn(Closing(text, input)[k])
  {
    hide SummaryItem, Optional, IsInjected, IsRealUserTurn;
    InjectedNotReal([SummaryItem(text, input)] + Optional(input.systemReminder, SystemReminder));
  }

  lemma {:induction false} FrontNotCarried(input: HistoryInput, context: StateContext)
    requires NoneCarried([input.systemMessage])
    ensures NoneCarried(Opening(input, context) + QueryItems(context))
  {
    hide Opening, QueryItems;
    assert [input.systemMessage][0] == input.systemMessage;
  }

  /** Rebuilding after compaction and looking for the recent messages again finds the same ones,
      for every conversation, with or without a real user turn. */
  lemma {:induction false} RecentMessagesFixpoint(s: seq<Item>, text: string, input: HistoryInput,
      context: StateContext)
    requires context.recentMessages == RecentMessages(s)
    requires NoneCarried([input.systemMessage])
    ensures RecentMessages(HistoryWith(text, input, context)) == RecentMessages(s)
  {
    var front := Opening(input, context) + QueryItems(context);
    var recent, closing := context.recentMessages, Closing(text, input);
    var built := HistoryWith(text, input, context);
    hide Opening, QueryItems, Closing, IsRealUserTurn, Carried;
    CarriedTwice(s[RecentStart(s)..]);
    ClosingNotReal(text, input);
    FrontNotCarried(input, context);
    MiddleCarried(front, recent, closing);
  }

  /** What is carried from a history whose front and end carry nothing and whose end and middle
      hold no real user turn. */
  lemma {:induction false} MiddleCarried(front: seq<Item>, recent: seq<Item>, closing: seq<Item>)
    requires NoneCarried(front) && NoneCarried(closing)
    requires forall k :: 0 <= k < |recent| ==> !IsRealUserTurn(recent[k])
    requires forall k :: 0 <= k < |closing| ==> !IsRealUserTurn(closing[k])
    ensures RecentMessages(front + recent + closing) == Carried(recent)
  {
    hide IsRealUserTurn, Carried;
    var built := front + recent + closing;
    RecentStartBy(built, |front|);
    var start := RecentStart(built);
    assert built[start..] == front[start..] + recent + closing;
    CarriedNothing(front[start..]);
    CarriedNothing(closing);
    CarriedConcat(front[start..] + recent, closing);
    CarriedConcat(front[start..], recent);
    assert [] + Carried(recent) + [] == Carried(recent);
  }

  // ----- Pairing survives -----

  function OmitAll(run: Run): (t: Run)
    ensures |t| == |run| && forall k :: 0 <= k < |run| ==> t[k] == Omit(run[k])
  {
    seq(|run|, k requires 0 <= k < |run| => Omit(run[k]))
  }

  lemma {:induction false} OmitFacts(run: Run)
    ensures Ids(OmitAll(run)) == Ids(run)
    ensures forall id :: CountId(OmitAll(run), id) == CountId(run, id)
  {
    if run != [] {
      OmitFacts(run[1..]);
      assert OmitAll(run)[1..] == OmitAll(run[1..]);
      IdsSplit(run);
      IdsSplit(OmitAll(run));
    }
  }

  lemma {:induction false} RunSoFar(p: RunTest, calls: Calls, run: Run, s: seq<Item>)
    requires EveryRun(p, calls, run, s) && forall c, r :: p(c, r) ==> OnlyDeclared(c, r)
    ensures OnlyDeclared(calls, run)
    decreases |s|
  {
    if s != [] && s[0].ToolResult? {
      RunSoFar(p, calls, run + [s[0].result], s[1..]);
      IdsConcat(run, [s[0].result]);
    }
  }

  /** Dropping items between runs does not move a result into another run, because in a paired
      history no run follows such an item. */
  lemma {:induction false} CarriedRuns(p: RunTest, calls: Calls, run: Run, s: seq<Item>, calls': Calls, run': Run)
    requires forall c, r :: p(c, r) ==> OnlyDeclared(c, r) && p(c, OmitAll(r))
    requires EveryRun(p, calls, run, s)
    requires (calls' == calls && run' == OmitAll(run)) || (calls == [] && run == [] && p(calls', run'))
    ensures EveryRun(p, calls', run', Carried(s))
    decreases |s|
  {
    if s != [] {
      var x, t := s[0], s[1..];
      if x.ToolResult? {
        RunSoFar(p, calls, run + [x.result], t);
        assert x.result in run + [x.result];
        assert x.result.callId in Ids(run + [x.result]);
        assert calls != [];
        assert OmitAll(run + [x.result]) == run' + [Omit(x.result)];
        CarriedRuns(p, calls, run + [x.result], t, calls', run' + [Omit(x.result)]);
        assert Carried(s)[1..] == Carried(t);
      } else if x.Assistant? {
        CarriedRuns(p, CallsOf(x), [], t, CallsOf(x), []);
        assert Carried(s)[1..] == Carried(t);
      } else {
        CarriedRuns(p, [], [], t, calls', run');
      }
    }
  }

  lemma {:induction false} PairedStart(s: seq<Item>)
    requires Paired(s) && s != []
    ensures !s[0].ToolResult?
  {
    assert s[0].ToolResult? ==> InOwnRun(s, 0);
  }

  lemma {:induction false} SuffixPaired(s: seq<Item>)
    requires Paired(s)
    ensures Paired(s[RecentStart(s)..])
  {
    var start := RecentStart(s);
    assert s == s[..start] + s[start..];
    if start < |s| && s[start].ToolResult? {
      OwnerUnique(s, start, start - 1);
      assert false;
    }
    PairedSuffix(s[..start], s[start..]);
  }

  lemma {:induction false} RecentPaired(s: seq<Item>)
    requires Paired(s)
    ensures Paired(RecentMessages(s))
  {
    var t := s[RecentStart(s)..];
    SuffixPaired(s);
    PairedByRuns(t);
    forall c: Calls, r: Run | OnlyDeclared(c, r) ensures OnlyDeclared(c, OmitAll(r)) {
      OmitFacts(r);
    }
    CarriedRuns(OnlyDeclared, [], [], t, [], []);
    PairedByRuns(Carried(t));
  }

  lemma NoResultsPaired(s: seq<Item>)
    requires NoneCarried(s)
    ensures Paired(s)
  {}

  /** The compacted history is tool-paired whenever the original conversation was, so sanitizing it
      has nothing to do. */
  lemma {:induction false} CompactedPaired(s: seq<Item>, text: string, input: HistoryInput, context: StateContext)
    requires Paired(s) && context.recentMessages == RecentMessages(s)
    requires NoneCarried([input.systemMessage])
    ensures Paired(HistoryWith(text, input, context))
    ensures SanitizeHistory.Sanitized(HistoryWith(text, input, context)) == HistoryWith(text, input, context)
  {
    var front := Opening(input, context) + QueryItems(context);
    var recent, closing := context.recentMessages, Closing(text, input);
    hide Opening, QueryItems, Closing, Paired, IsRealUserTurn, NoneCarried, RecentMessages;
    RecentPaired(s);
    ClosingNotReal(text, input);
    FrontNotCarried(input, context);
    JoinPaired(front, recent, closing);
    SanitizeHistory.PairedValidates(front + recent + closing);
  }

  lemma {:induction false} JoinPaired(front: seq<Item>, recent: seq<Item>, closing: seq<Item>)
    requires NoneCarried(front) && Paired(recent) && NoneCarried(closing)
    ensures Paired(front + recent + closing)
  {
    hide Paired;
    if recent != [] {
      PairedStart(recent);
    }
    NoResultsPaired(front);
    NoResultsPaired(closing);
    PairedConcat(front, recent);
    PairedConcat(front + recent, closing);
  }

  /** In the compacted history every call is still answered exactly once if it was before. */
  lemma {:induction false} RecentAnsweredOnce(s: seq<Item>)
    requires Paired(s) && EachCallAnsweredOnce(s)
    ensures EachCallAnsweredOnce(RecentMessages(s))
  {
    hide Paired, IsRealUserTurn, Carried, EachCallAnsweredOnce;
    var t := s[RecentStart(s)..];
    SuffixPaired(s);
    assert s == s[..RecentStart(s)] + t;
    AnsweredInSuffix(s[..RecentStart(s)], t);
    AnsweredOnceByPosition(t);
    forall c: Calls, r: Run | AnsweredOnce(c, r) ensures AnsweredOnce(c, OmitAll(r)) {
      OmitFacts(r);
    }
    CarriedRuns(AnsweredOnce, [], [], t, [], []);
    RecentPaired(s);
    AnsweredOnceByPosition(RecentMessages(s));
  }

  /** In the compacted history every call is still answered exactly once if it was before. */
  lemma {:induction false} CompactedAnsweredOnce(s: seq<Item>, text: string, input: HistoryInput, context: StateContext)
    requires Paired(s) && EachCallAnsweredOnce(s) && context.recentMessages == RecentMessages(s)
    requires NoneCarried([input.systemMessage])
    ensures EachCallAnsweredOnce(HistoryWith(text, input, context))
  {
    hide Opening, QueryItems, Closing, Paired, RecentMessages, EachCallAnsweredOnce;
    RecentAnsweredOnce(s);
    FrontNotCarried(input, context);
    ClosingNotReal(text, input);
    AnsweredInMiddle(Opening(input, context) + QueryItems(context), context.recentMessages, Closing(text, input));
  }

  /** What the code builds, with the cleaned summary in it, from the context taken of a conversation:
      the same recent messages when they are looked for again, and the pairing the conversation had. */
  lemma {:induction false} BuiltHistory(s: seq<Item>, input: HistoryInput, context: StateContext)
    requires context.recentMessages == RecentMessages(s) && input.systemMessage.System?
    ensures var built := BuildCompactedHistory(input, context);
      && RecentMessages(built) == RecentMessages(s)
      && (Paired(s) ==> Paired(built) && SanitizeHistory.Sanitized(built) == built)
      && (Paired(s) && EachCallAnsweredOnce(s) ==> EachCallAnsweredOnce(built))
  {
    assert NoneCarried([input.systemMessage]);
    hide RecentMessages, Paired, EachCallAnsweredOnce, HistoryWith, FormatSummary, NoneCarried;
    RecentMessagesFixpoint(s, FormatSummary(input.summary), input, context);
    if Paired(s) {
      CompactedPaired(s, FormatSummary(input.summary), input, context);
      if EachCallAnsweredOnce(s) {
        CompactedAnsweredOnce(s, FormatSummary(input.summary), input, context);
      }
    }
  }

  // ----- The last query is not always a fixpoint -----

  /** A closed block of some system tag. */
  predicate HasBlock(tag: string, s: string) {
    match Find(s, Open(tag))
    case Some(start) => Find(s[start..], Close(tag)).Some?
    case None => false
  }

  predicate HasAnyBlock(tags: seq<string>, s: string) {
    tags != [] && (HasBlock(tags[0], s) || HasAnyBlock(tags[1..], s))
  }

  lemma {:induction false} StripTagsIff(tags: seq<string>, s: string)
    ensures StripTags(tags, s) == s <==> !HasAnyBlock(tags, s)
    ensures HasAnyBlock(tags, s) ==> |StripTags(tags, s)| < |s|
  {
    if tags != [] {
      if HasBlock(tags[0], s) {
        var start := Find(s, Open(tags[0])).value;
        var rel := Find(s[start..], Close(tags[0])).value;
        assert |StripTag(tags[0], s)| < |s|;
        assert |StripTags(tags[1..], StripTag(tags[0], s))| < |s|;
      } else {
        assert StripTag(tags[0], s) == s;
        StripTagsIff(tags[1..], s);
      }
    }
  }

  /** Stripping a tag leaves no closed block of that tag; one of an earlier tag can only be what its
      removal brought together. */
  lemma {:induction false} StrippedOf(tag: string, s: string)
    ensures !HasBlock(tag, StripTag(tag, s))
    decreases |s|
  {
    if HasBlock(tag, s) {
      var start := Find(s, Open(tag)).value;
      var rel := Find(s[start..], Close(tag)).value;
      StrippedOf(tag, s[..start] + s[start + rel + |Close(tag)|..]);
    }
  }

  lemma {:induction false} StripSystemTagsIff(s: string)
    requires Trimmed(s)
    ensures StripSystemTags(s) == s <==> !HasAnyBlock(SYSTEM_TAGS, s)
    ensures |StripSystemTags(s)| <= |s|
  {
    StripTagsIff(SYSTEM_TAGS, s);
    TrimmedIff(StripTags(SYSTEM_TAGS, s));
    TrimmedIff(s);
    hide StripTags, HasAnyBlock, Trim, Trimmed;
  }

  lemma {:induction false} QueryTrimmed(parts: seq<ContentPart>)
    ensures Trimmed(UserQuery(parts))
  {
    hide StripTags, Trim, Trimmed;
    var text := JoinLines(Texts(parts));
    TrimmedIff(StripTags(SYSTEM_TAGS, text));
    match Find(text, QUERY_OPEN) {
      case None =>
      case Some(start) =>
        var rest := text[start + |QUERY_OPEN|..];
        match Find(rest, QUERY_CLOSE) {
          case None =>
          case Some(end) => TrimmedIff(StripTags(SYSTEM_TAGS, Trim(rest[..end])));
        }
    }
  }

  lemma {:induction false} TrimPadded(q: string)
    requires Trimmed(q)
    ensures Trim("\n" + q + "\n") == q
  {
    var s := "\n" + q + "\n";
    assert s[1..] == q + "\n";
    if q == "" {
      assert (q + "\n")[1..] == "";
    } else {
      assert (q + "\n")[0] == q[0];
      assert (q + "\n")[..|q|] == q;
      assert TrimStart(s) == q + "\n";
      assert TrimEnd(q) == q;
    }
  }

  lemma {:induction false} OccursInPadded(q: string, u: string, i: nat)
    requires |u| >= 2 && (forall k :: 0 <= k < |u| ==> u[k] != '\n')
    requires i < |q| + 2 && OccursAt("\n" + q + "\n" + u, u, i)
    ensures 1 <= i && i - 1 + |u| <= |q| && OccursAt(q, u, i - 1)
  {
    var s := "\n" + q + "\n" + u;
    assert s[0] == '\n' && s[|q| + 1] == '\n';
    assert u[0] == s[i + 0];
    assert forall k :: 0 <= k < |u| ==> u[k] == s[i + k];
    forall m | i <= m < i + |u| ensures s[m] != '\n' {
      assert u[m - i] == s[i + (m - i)];
    }
    forall k | 0 <= k < |u| ensures u[k] == q[i - 1 + k] {
      assert s[i + k] == q[i + k - 1];
    }
  }

  /** Reading a wrapped query back: unchanged up to tag stripping, unless the query holds the
      closing tag itself, which cuts it short. */
  lemma {:induction false} ReadBack(q: string)
    requires Trimmed(q)
    ensures !Contains(q, QUERY_CLOSE) ==> ExtractUserQuery(WrapUserQuery(q)) == StripSystemTags(q)
    ensures Contains(q, QUERY_CLOSE) ==> |ExtractUserQuery(WrapUserQuery(q))| < |q|
  {
    hide OccursAt, Trimmed;
    var rest := "\n" + q + "\n" + QUERY_CLOSE;
    QueryClosePlain();
    CloseFound(q, QUERY_CLOSE);
    var end := Find(rest, QUERY_CLOSE).value;
    TaggedQuery(WrapUserQuery(q), rest, end);
    hide ExtractUserQuery, WrapUserQuery;
    if Contains(q, QUERY_CLOSE) {
      TrimmedIff(rest[..end]);
      TrimmedIff(StripTags(SYSTEM_TAGS, Trim(rest[..end])));
    } else {
      assert rest[..end] == "\n" + q + "\n";
      TrimPadded(q);
    }
  }

  lemma QueryClosePlain()
    ensures |QUERY_CLOSE| >= 2 && forall k :: 0 <= k < |QUERY_CLOSE| ==> QUERY_CLOSE[k] != '\n'
  {}

  lemma {:induction false} TaggedQuery(text: string, rest: string, end: nat)
    requires text == QUERY_OPEN + rest && Find(rest, QUERY_CLOSE) == Some(end)
    ensures ExtractUserQuery(text) == StripSystemTags(Trim(rest[..end]))
  {
    hide StripSystemTags, Trim;
    assert OccursAt(text, QUERY_OPEN, 0);
    FindIs(text, QUERY_OPEN, 0);
    assert text[|QUERY_OPEN|..] == rest;
  }

  lemma {:induction false} CloseFound(q: string, u: string)
    requires |u| >= 2 && (forall k :: 0 <= k < |u| ==> u[k] != '\n')
    ensures var found := Find("\n" + q + "\n" + u, u);
      && found.Some?
      && (Contains(q, u) ==> found.value < |q|)
      && (!Contains(q, u) ==> found.value == |q| + 2)
  {
    var front := "\n" + q + "\n";
    var rest := front + u;
    assert front + (u + "") == rest;
    hide OccursAt, FindFrom;
    OccursHere(front, u, "");
    if Contains(q, u) {
      var i: nat :| OccursAt(q, u, i);
      InRange(q, u, i);
      PaddedOccurs(q, u, i);
      assert Find(rest, u).value <= i + 1;
    } else {
      forall j | 0 <= j < |q| + 2 ensures !OccursAt(rest, u, j) {
        if OccursAt(rest, u, j) {
          OccursInPadded(q, u, j);
        }
      }
      FindIs(rest, u, |q| + 2);
    }
  }

  lemma PaddedOccurs(q: string, u: string, i: nat)
    requires OccursAt(q, u, i)
    ensures OccursAt("\n" + q + "\n" + u, u, i + 1)
  {
    assert "\n" + q + "\n" + u == "\n" + (q + ("\n" + u));
    forall k | 0 <= k < |u| ensures u[k] == ("\n" + (q + ("\n" + u)))[i + 1 + k] {
      assert u[k] == q[i + k];
    }
  }

  /** Compacting again finds the same last user query if and only if the query is not itself a
      marker text, holds no closing query tag and no closed block of a system tag. */
  lemma {:induction false} LastQueryStableIff(s: seq<Item>, text: string, input: HistoryInput, context: StateContext)
    requires context.recentMessages == RecentMessages(s) && context.lastUserQuery == LastRealUserQuery(s)
    requires input.systemMessage.System?
    ensures LastRealUserQuery(HistoryWith(text, input, context)) == LastRealUserQuery(s) <==>
      match LastRealUserQuery(s)
      case None => true
      case Some(q) => !IsSyntheticQuery(q) && !Contains(q, QUERY_CLOSE) && !HasAnyBlock(SYSTEM_TAGS, q)
  {
    var built := HistoryWith(text, input, context);
    RebuiltQuery(s, text, input, context);
    match LastRealUserQuery(s) {
      case None =>
      case Some(q) =>
        QueryTrimmed(s[RecentStart(s) - 1].parts);
        ReadBack(q);
        StripSystemTagsIff(q);
    }
  }

  /** The only item of the rebuilt history that can be a real user turn is the wrapped query. */
  lemma {:induction false} RebuiltQuery(s: seq<Item>, text: string, input: HistoryInput, context: StateContext)
    requires context.recentMessages == RecentMessages(s) && input.systemMessage.System?
    ensures LastRealUserQuery(HistoryWith(text, input, context)) ==
      match context.lastUserQuery
      case None => None
      case Some(q) =>
        if IsSyntheticQuery(ExtractUserQuery(WrapUserQuery(q))) then None
        else Some(ExtractUserQuery(WrapUserQuery(q)))
  {
    hide Opening, Closing, Carried, ExtractUserQuery, WrapUserQuery, IsRealUserTurn, UserQuery, IsSyntheticQuery;
    var opening, query := Opening(input, context), QueryItems(context);
    CarriedTwice(s[RecentStart(s)..]);
    OpeningNotReal(input, context);
    ClosingNotReal(text, input);
    LastRealIn(opening, query, context.recentMessages, Closing(text, input));
    if context.lastUserQuery.Some? {
      TypedQuery(WrapUserQuery(context.lastUserQuery.value));
    }
  }

  lemma {:induction false} OpeningNotReal(input: HistoryInput, context: StateContext)
    requires input.systemMessage.System?
    ensures forall k :: 0 <= k < |Opening(input, context)| ==> !IsRealUserTurn(Opening(input, context)[k])
  {
    hide Opening, UserQuery, IsSyntheticQuery, HasImages;
  }

  lemma {:induction false} TypedQuery(text: string)
    ensures UserQuery(Typed(text).parts) == ExtractUserQuery(text)
    ensures IsRealUserTurn(Typed(text)) <==> !IsSyntheticQuery(ExtractUserQuery(text))
  {
    hide ExtractUserQuery, IsSyntheticQuery;
    assert [Text(text)][1..] == [];
    assert [text] + [] == [text];
    assert Texts([Text(text)]) == [text];
  }

  lemma {:induction false} LastRealIn(opening: seq<Item>, query: seq<Item>, recent: seq<Item>, closing: seq<Item>)
    requires forall k :: 0 <= k < |opening| ==> !IsRealUserTurn(opening[k])
    requires forall k :: 0 <= k < |recent| ==> !IsRealUserTurn(recent[k])
    requires forall k :: 0 <= k < |closing| ==> !IsRealUserTurn(closing[k])
    requires |query| <= 1
    ensures LastRealUserQuery(opening + query + recent + closing) ==
      if query != [] && IsRealUserTurn(query[0]) then Some(UserQuery(query[0].parts)) else None
  {
    hide IsRealUserTurn, UserQuery;
    var built := opening + query + recent + closing;
    var start := RecentStart(built);
    var n := |opening| + |query|;
    RecentStartBy(built, n);
    assert start > 0 ==> start == n && query != [] && built[start - 1] == query[0];
    assert query != [] ==> built[n - 1] == query[0];
  }
}
