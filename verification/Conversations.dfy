/** The conversation data model shared by the compaction and repair passes, and the
    notion everything in them turns on: the run of tool results behind an item. */
module Conversations {
  import opened Options

  datatype ContentPart = Text(text: string) | Image(url: string)

  datatype ToolCall = ToolCall(id: string, name: string, arguments: string)

  datatype SyntheticReason = CompactionMeta | SystemReminder | ProjectInstructions | OtherReason(tag: string)

  datatype ToolResultItem = ToolResultItem(callId: string, content: string, isError: bool, images: seq<ContentPart>)

  datatype Item =
    | System(content: string)
    | User(parts: seq<ContentPart>, synthetic: Option<SyntheticReason>)
    | Assistant(content: string, calls: seq<ToolCall>)
    | ToolResult(result: ToolResultItem)
    | BackendToolCall(summary: string)
    | Reasoning(text: string)

  /** The calls an item declares; only an assistant declares any. */
  function CallsOf(item: Item): seq<ToolCall> {
    if item.Assistant? then item.calls else []
  }

  function CallIds(calls: seq<ToolCall>): set<string> {
    set call | call in calls :: call.id
  }

  /** The results at the front of `s`, up to the first item of another kind. */
  function LeadingRun(s: seq<Item>): (run: seq<ToolResultItem>)
    ensures |run| <= |s|
    ensures forall k :: 0 <= k < |run| ==> s[k] == ToolResult(run[k])
    ensures |run| < |s| ==> !s[|run|].ToolResult?
  {
    if s == [] || !s[0].ToolResult? then [] else [s[0].result] + LeadingRun(s[1..])
  }

  /** The contiguous run of tool results right behind position `a`. */
  function RunAfter(s: seq<Item>, a: nat): seq<ToolResultItem>
    requires a < |s|
  {
    LeadingRun(s[a + 1..])
  }

  /** Position of the nearest item at or before `i` that is not a tool result, or -1. */
  function OwnerOf(s: seq<Item>, i: int): (a: int)
    requires -1 <= i < |s|
    ensures -1 <= a <= i
    ensures a >= 0 ==> !s[a].ToolResult?
    ensures forall k :: a < k <= i ==> s[k].ToolResult?
  {
    if i < 0 || !s[i].ToolResult? then i else OwnerOf(s, i - 1)
  }

  /** The calls a tool result at position `i` may answer: those of the item its run follows. */
  function OwnerCalls(s: seq<Item>, i: int): seq<ToolCall>
    requires -1 <= i < |s|
  {
    var a := OwnerOf(s, i);
    if a < 0 then [] else CallsOf(s[a])
  }

  /** The tool result at `i` lies in the contiguous run behind the assistant declaring its id. */
  predicate InOwnRun(s: seq<Item>, i: nat)
    requires i < |s|
  {
    s[i].ToolResult? && s[i].result.callId in CallIds(OwnerCalls(s, i))
  }

  /** The pairing rule providers enforce: every tool result lies in its own run. */
  predicate Paired(s: seq<Item>) {
    forall i :: 0 <= i < |s| && s[i].ToolResult? ==> InOwnRun(s, i)
  }

  lemma OwnerUnique(s: seq<Item>, i: int, a: int)
    requires -1 <= a <= i < |s|
    requires a >= 0 ==> !s[a].ToolResult?
    requires forall k :: a < k <= i ==> s[k].ToolResult?
    ensures OwnerOf(s, i) == a
  {
    var b := OwnerOf(s, i);
  }

  /** Owners inside a suffix that does not start with a tool result are the same items. */
  lemma {:induction false} OwnerInSuffix(pre: seq<Item>, s: seq<Item>, i: nat)
    requires i < |s| && !s[0].ToolResult?
    ensures OwnerCalls(pre + s, |pre| + i) == OwnerCalls(s, i)
    ensures InOwnRun(pre + s, |pre| + i) == InOwnRun(s, i)
  {
    var a := OwnerOf(s, i);
    assert a >= 0;
    assert forall k :: 0 <= k <= i ==> (pre + s)[|pre| + k] == s[k];
    forall k | |pre| + a < k <= |pre| + i ensures (pre + s)[k].ToolResult? {
      assert (pre + s)[k] == s[k - |pre|];
    }
    OwnerUnique(pre + s, |pre| + i, |pre| + a);
  }

  /** Dropping a front part keeps pairing when what is left does not start inside a run. */
  lemma {:induction false} PairedSuffix(pre: seq<Item>, s: seq<Item>)
    requires Paired(pre + s)
    requires s != [] ==> !s[0].ToolResult?
    ensures Paired(s)
  {
    forall i | 0 <= i < |s| && s[i].ToolResult? ensures InOwnRun(s, i) {
      assert (pre + s)[|pre| + i] == s[i];
      OwnerInSuffix(pre, s, i);
    }
  }

  /** Owners depend only on what comes before. */
  lemma {:induction false} OwnerInPrefix(s: seq<Item>, post: seq<Item>, i: nat)
    requires i < |s|
    ensures OwnerCalls(s + post, i) == OwnerCalls(s, i)
    ensures InOwnRun(s + post, i) == InOwnRun(s, i)
  {
    OwnerUnique(s + post, i, OwnerOf(s, i));
  }

  /** Gluing two paired histories keeps pairing when the second does not start inside a run. */
  lemma {:induction false} PairedConcat(s: seq<Item>, t: seq<Item>)
    requires Paired(s) && Paired(t)
    requires t != [] ==> !t[0].ToolResult?
    ensures Paired(s + t)
  {
    forall i | 0 <= i < |s + t| && (s + t)[i].ToolResult? ensures InOwnRun(s + t, i) {
      if i < |s| {
        OwnerInPrefix(s, t, i);
      } else {
        OwnerInSuffix(s, t, i - |s|);
      }
    }
  }
}
