/** What a compacted history holds, item by item, and where its texts come from. */
module HistoryContents {
  import opened Options
  import opened Collections
  import opened Conversations
  import opened Strings
  import opened CompactSummary
  import opened CompactedHistory

  // ----- The recent messages -----

  /** An assistant as it was, or a result with its id and error flag and nothing else. */
  predicate IsCarried(before: Item, after: Item) {
    || (before.Assistant? && after == before)
    || (before.ToolResult? && after.ToolResult? && after.result.callId == before.result.callId
        && after.result.isError == before.result.isError && after.result.images == []
        && after.result.content == "Tool call omitted...")
  }

  /** `carried` holds the items of `s` at the places `at`, which are all assistants and results from
      `start` on, in order. */
  ghost predicate CarriedFrom(s: seq<Item>, start: nat, at: seq<nat>, carried: seq<Item>) {
    && |at| == |carried| && Increasing(at)
    && (forall i :: i in at <==> start <= i < |s| && (s[i].Assistant? || s[i].ToolResult?))
    && forall k :: 0 <= k < |at| ==> at[k] < |s| && IsCarried(s[at[k]], carried[k])
  }

  lemma {:induction false} CarriedAre(s: seq<Item>, start: nat) returns (at: seq<nat>)
    requires start <= |s|
    ensures CarriedFrom(s, start, at, Carried(s[start..]))
    decreases |s| - start
  {
    if start == |s| {
      at := [];
    } else {
      hide Carried, IsCarried, CarriedFrom;
      var n := |s| - 1;
      var x, front := s[n], s[..n];
      var before := CarriedAre(front, start);
      assert s[start..] == front[start..] + [x];
      CarriedConcat(front[start..], [x]);
      OneCarried(x);
      if x.Assistant? || x.ToolResult? {
        at := before + [n];
        assert Carried([x]) == [Carried([x])[0]];
        OneMore(s, start, before, Carried(front[start..]), Carried([x])[0]);
      } else {
        at := before;
        assert Carried(front[start..]) + [] == Carried(front[start..]);
        NoMore(s, start, before, Carried(front[start..]));
      }
    }
  }

  lemma {:induction false} NoMore(s: seq<Item>, start: nat, at: seq<nat>, carried: seq<Item>)
    requires s != [] && start < |s| && CarriedFrom(s[..|s| - 1], start, at, carried)
    requires !s[|s| - 1].Assistant? && !s[|s| - 1].ToolResult?
    ensures CarriedFrom(s, start, at, carried)
  {
    hide IsCarried;
    assert forall i :: 0 <= i < |s| - 1 ==> s[..|s| - 1][i] == s[i];
  }

  lemma OneCarried(x: Item)
    ensures if x.Assistant? || x.ToolResult? then |Carried([x])| == 1 && IsCarried(x, Carried([x])[0])
      else Carried([x]) == []
  {
    assert [x][1..] == [];
  }

  lemma {:induction false} OneMore(s: seq<Item>, start: nat, at: seq<nat>, carried: seq<Item>, y: Item)
    requires s != [] && start < |s| && CarriedFrom(s[..|s| - 1], start, at, carried)
    requires s[|s| - 1].Assistant? || s[|s| - 1].ToolResult?
    requires IsCarried(s[|s| - 1], y)
    ensures CarriedFrom(s, start, at + [|s| - 1], carried + [y])
  {
    hide IsCarried;
    var n := |s| - 1;
    var front, more := s[..n], at + [n];
    assert forall k :: 0 <= k < |at| ==> at[k] in at && at[k] < n && front[at[k]] == s[at[k]];
    forall i ensures i in more <==> start <= i < |s| && (s[i].Assistant? || s[i].ToolResult?) {
      assert i in more <==> i in at || i == n;
      assert start <= i < n ==> front[i] == s[i];
    }
  }

  /** The recent messages are all assistants, unchanged, and all results, emptied, behind the last real
      user turn, or of the whole conversation if there is none. */
  lemma {:induction false} RecentAre(s: seq<Item>) returns (start: nat, at: seq<nat>)
    ensures start <= |s| && (start > 0 ==> IsRealUserTurn(s[start - 1]))
    ensures forall k :: start <= k < |s| ==> !IsRealUserTurn(s[k])
    ensures CarriedFrom(s, start, at, RecentMessages(s))
  {
    hide IsRealUserTurn, CarriedFrom, Carried;
    start := RecentStart(s);
    at := CarriedAre(s, start);
  }

  // ----- The rebuilt history -----

  /** The item at `k` is a user item with this text. */
  predicate Says(s: seq<Item>, k: nat, text: string, reason: Option<SyntheticReason>) {
    k < |s| && s[k] == User([Text(text)], reason)
  }

  /** The history holds, in this order and nothing else: the system message, the prefix, the project's
      instructions and the wrapped last query if there are any, the recent messages, the one item with
      preamble, cleaned summary and hint, and the reminder if there is one. */
  lemma {:induction false} BuiltItems(input: HistoryInput, context: StateContext)
    ensures var built := BuildCompactedHistory(input, context);
      var instructions :=
        if context.cwdGeneration == 0 then input.agentsMdReminder else context.destinationInstructions;
      var hint := if input.transcriptHint.Some? then input.transcriptHint.value else "";
      var m := if instructions.Some? then 3 else 2;
      var n := if context.lastUserQuery.Some? then m + 1 else m;
      var end := n + |context.recentMessages|;
      && |built| == end + (if input.systemReminder.Some? then 2 else 1)
      && built[0] == input.systemMessage
      && Says(built, 1, input.userMessagePrefix, Some(CompactionMeta))
      && (instructions.Some? ==> Says(built, 2, instructions.value, Some(ProjectInstructions)))
      && (context.lastUserQuery.Some? ==>
        Says(built, m, "<user_query>\n" + context.lastUserQuery.value + "\n</user_query>", None))
      && built[n..end] == context.recentMessages
      && Says(built, end, SUMMARY_PREAMBLE + FormatSummary(input.summary) + hint, Some(CompactionMeta))
      && (input.systemReminder.Some? ==> Says(built, end + 1, input.systemReminder.value, Some(SystemReminder)))
  {
    hide FormatSummary;
    var opening, query := Opening(input, context), QueryItems(context);
    var closing := Closing(FormatSummary(input.summary), input);
    QueryText(context);
    var front := opening + query;
    assert front[..|opening|] == opening;
    var built := BuildCompactedHistory(input, context);
    assert built == front + context.recentMessages + closing;
    var end := |front| + |context.recentMessages|;
    assert built[end..] == closing && built[|front|..end] == context.recentMessages;
    hide Opening, QueryItems, Closing, BuildCompactedHistory;
    assert closing[0] == built[end..][0];
    assert input.systemReminder.Some? ==> closing[1] == built[end..][1];
    assert query != [] ==> query[0] == built[|opening|];
    assert forall k :: 0 <= k < |opening| ==> built[k] == opening[k];
  }

  lemma QueryText(context: StateContext)
    ensures context.lastUserQuery.Some? ==>
      WrapUserQuery(context.lastUserQuery.value) == "<user_query>\n" + context.lastUserQuery.value + "\n</user_query>"
  {
    if context.lastUserQuery.Some? {
      var q := context.lastUserQuery.value;
      assert QUERY_OPEN + "\n" == "<user_query>\n" && "\n" + QUERY_CLOSE == "\n</user_query>";
      assert QUERY_OPEN + "\n" + q + "\n" + QUERY_CLOSE == QUERY_OPEN + "\n" + q + ("\n" + QUERY_CLOSE);
    }
  }

  // ----- Texts with tags in them -----

  predicate IsTag(tag: string) {
    tag != "" && tag[0] != '/' && TagLike(Open(tag))
  }

  lemma {:induction false} TagPair(tag: string)
    requires IsTag(tag)
    ensures TagLike(Open(tag)) && TagLike(Close(tag)) && Open(tag)[1] != Close(tag)[1]
  {
    var open, close := Open(tag), Close(tag);
    forall k | 1 <= k < |close| ensures close[k] != '<' && close[k] != '\n' {
      assert k > 1 ==> close[k] == open[k - 1];
    }
    assert open[1] == tag[0];
  }

  lemma {:induction false} NothingInside(t: string)
    requires TagLike(t)
    ensures !Contains("", t)
  {
    TagLength(t);
  }

  /** The first closed block of a tag is cut out whole, and nothing around it. */
  lemma {:induction false} BlockStripped(tag: string, front: string, inside: string, behind: string)
    requires IsTag(tag) && !Contains(front, Open(tag)) && !Contains(inside, Close(tag))
    ensures StripTag(tag, front + (Open(tag) + (inside + (Close(tag) + behind)))) == StripTag(tag, front + behind)
  {
    var open, close := Open(tag), Close(tag);
    var s := front + (open + (inside + (close + behind)));
    TagPair(tag);
    hide Contains, OccursAt, TagLike, FindFrom, Open, Close, StripTag, IsTag;
    FirstTag(front, open, inside + (close + behind));
    BlockAt(open, inside, close, behind);
    BlockParts(front, open + inside, close, behind);
    assert open + (inside + (close + behind)) == open + inside + (close + behind);
    StrippedAt(tag, s, |front|, |open + inside|);
  }

  lemma {:induction false} BlockAt(open: string, inside: string, close: string, behind: string)
    requires TagLike(open) && TagLike(close) && open[1] != close[1] && !Contains(inside, close)
    ensures Find(open + inside + (close + behind), close) == Some(|open + inside|)
  {
    hide Contains, OccursAt, TagLike, FindFrom;
    NothingInside(close);
    AbsentAround("", open, inside, close);
    assert "" + (open + inside) == open + inside;
    FirstTag(open + inside, close, behind);
  }

  lemma BlockParts(front: string, block: string, close: string, behind: string)
    ensures var s := front + (block + (close + behind));
      s[..|front|] == front && s[|front|..] == block + (close + behind) && s[|front| + |block| + |close|..] == behind
  {
  }

  lemma StrippedAt(tag: string, s: string, start: nat, rel: nat)
    requires Find(s, Open(tag)) == Some(start) && start <= |s| && Find(s[start..], Close(tag)) == Some(rel)
    ensures start + rel + |Close(tag)| <= |s|
    ensures StripTag(tag, s) == StripTag(tag, s[..start] + s[start + rel + |Close(tag)|..])
  {
    InRange(s[start..], Close(tag), rel);
    hide OccursAt, FindFrom, Open, Close;
  }

  /** A tag that is not closed behind its opening is left alone. */
  lemma {:induction false} OpenBlockStays(tag: string, front: string, behind: string)
    requires IsTag(tag) && !Contains(front, Open(tag)) && !Contains(behind, Close(tag))
    ensures StripTag(tag, front + (Open(tag) + behind)) == front + (Open(tag) + behind)
  {
    var open, close := Open(tag), Close(tag);
    var s := front + (open + behind);
    TagPair(tag);
    hide Contains, OccursAt, TagLike, FindFrom, Open, Close;
    FirstTag(front, open, behind);
    NothingInside(close);
    AbsentAround("", open, behind, close);
    assert s[|front|..] == "" + (open + behind);
    AbsentNotFound(s[|front|..], close);
  }

  lemma {:induction false} NameIsTag(tag: string)
    requires IsName(tag)
    ensures IsTag(tag)
  {
    var open := Open(tag);
    assert open[1] == tag[0];
    forall k | 1 <= k < |open| ensures open[k] != '<' && open[k] != '\n' {
      assert k <= |tag| ==> open[k] == tag[k - 1] && tag[k - 1] in tag;
    }
  }

  predicate IsName(tag: string) {
    tag != "" && tag[0] != '/' && tag[0] != ZERO_WIDTH_SPACE && '<' !in tag && '\n' !in tag
  }

  lemma ShortNames()
    ensures IsName("user_info") && IsName("git_status") && IsName("fork-context") && IsName("agent-memory")
  {
  }

  lemma CommandNames()
    ensures IsName("command-name") && IsName("command-message") && IsName("command-args")
  {
  }

  lemma LongNames()
    ensures IsName("project_layout") && IsName("background_context")
  {
  }

  lemma ReminderNames()
    ensures IsName("system-reminder") && IsName("system_reminder")
  {
  }

  lemma {:induction false} SystemTagsAre()
    ensures forall k :: 0 <= k < |SYSTEM_TAGS| ==> IsTag(SYSTEM_TAGS[k])
  {
    hide IsTag, IsName;
    ShortNames();
    CommandNames();
    LongNames();
    ReminderNames();
    forall k | 0 <= k < |SYSTEM_TAGS| ensures IsTag(SYSTEM_TAGS[k]) {
      NameIsTag(SYSTEM_TAGS[k]);
    }
  }

  /** The query of a text is what its first query block holds, trimmed and stripped of system tags. */
  lemma {:induction false} QueryBetween(front: string, q: string, behind: string)
    requires !Contains(front, QUERY_OPEN) && !Contains(q, QUERY_CLOSE)
    ensures ExtractUserQuery(front + (QUERY_OPEN + (q + (QUERY_CLOSE + behind)))) == StripSystemTags(Trim(q))
  {
    var rest := q + (QUERY_CLOSE + behind);
    var text := front + (QUERY_OPEN + rest);
    assert TagLike(QUERY_OPEN) && TagLike(QUERY_CLOSE);
    hide Contains, OccursAt, TagLike, FindFrom, StripSystemTags, Trim;
    FirstTag(front, QUERY_OPEN, rest);
    FirstTag(q, QUERY_CLOSE, behind);
    assert text[|front| + |QUERY_OPEN|..] == rest && rest[..|q|] == q;
  }

  /** Without a closed block the whole text is. */
  lemma {:induction false} QueryWhole(front: string, behind: string)
    requires !Contains(front, QUERY_OPEN) && !Contains(behind, QUERY_CLOSE)
    ensures ExtractUserQuery(front) == StripSystemTags(front)
    ensures ExtractUserQuery(front + (QUERY_OPEN + behind)) == StripSystemTags(front + (QUERY_OPEN + behind))
  {
    var text := front + (QUERY_OPEN + behind);
    assert TagLike(QUERY_OPEN);
    hide Contains, OccursAt, TagLike, FindFrom, StripSystemTags;
    AbsentNotFound(front, QUERY_OPEN);
    AbsentNotFound(behind, QUERY_CLOSE);
    FirstTag(front, QUERY_OPEN, behind);
    assert text[|front| + |QUERY_OPEN|..] == behind;
  }
}
