# Verified models of an agent CLI's state-keeping code

This project models, in Dafny, the parts of the repository that keep state consistent, and proves
what they are for. `dafny verify dfyconfig.toml` checks all of it.

* **Conversation repair, budget fitting and compaction** (`RepairHistory`, `HistoryPasses`,
  `RepairedRuns`, `SanitizeHistory`, `FitBudget`, `TextTruncation`, `CompactSummary`, `KeptSummary`,
  `CompactedHistory`, `HistoryContents`, `LastQueryWitnesses`, on the data model in `Conversations`).
  Model providers accept a tool result only in the contiguous run right behind the assistant that
  declared its id. The repair passes restore that rule, and fitting, extracting and rebuilding a
  conversation keep it. Each pass is a transformation of runs (`MapRuns`), and the class `History`
  edits its list the way the code does and is proved to compute it. What the outputs hold is said on
  the inputs themselves: which results, which items, which text.
* **Rebuilding a foreign transcript** (`PreservedSegment`, `SplicedChains`, `SnipRemoval`,
  `PreparedMessages`, `ClaudeChain`, `ClaudeRecovery`, `RecoveryOrder`, on `ClaudeRecords`). A
  parent-linked message graph gets a preserved segment spliced in, loses its snipped records under path
  compression, is walked with cycle guards and has its parallel branches spliced back.
* **Indexes and streams** (`Interner`, `EventCoalescing`, `SharedKeys`, `LineReader`): an arena with
  hash buckets refines a list of distinct strings; coalesced file events against one-by-one handling; a
  two-stage line buffer serves its source in order for every chunking.
* **A wait protocol** (`WaitProtocol`): feeder, resizers and waiters over one lock and a generation
  counter, as a step relation.
* **SHA-256** (`Sha256`, `Sha256Constants`) as the build script writes it, against FIPS 180-4 sections
  5.1.1 and 6.2.2; its constants are the roots of primes of sections 4.2.2 and 5.3.3.
* **The billing ledger** (`UsageLedger`): saturating totals, per-model entries, child ledgers.

## What the proofs found

* `repair_history` is documented as idempotent. It is not: an assistant that declares an id twice, with
  no answer in its run, gets two synthetic results, and the next repair removes one.
  `RepairIdempotentIff` says exactly when, and two repairs always settle.
* `truncate_text_to_bytes` does not always stay within `max_bytes`: the marker alone needs 57 bytes.
  `TruncationWithinLimitIff` and `TruncationBoundIff` give the exact conditions, `OverLimitWitness` a
  text.
* Compaction is a fixpoint for the recent messages, but not always for the last user query
  (`LastQueryStableIff`). An image-only prompt is forgotten (`ImagePromptForgotten`); a closing query
  tag cuts the query short (`ClosingTagForgotten`); and stripping one system tag can complete the block
  of an earlier one, which the next compaction strips (`NestedBlockForgotten`).
* A resize after the feeder's exit changes the grid without an announcement, so a waiter can report
  "ended" with a screen that meets its condition (`SilentIff`, `SilentResizeWitness`).
* The interner keeps lengths in 16 bits and starts and ids in 32, unchecked: a string of 2^16 bytes or
  more comes back as its first length-modulo-2^16 bytes; past 2^32 entries a new string never reads
  back, and past 2^32 bytes of arena only by luck (`InternBytes`, `ReadsBackIff`). Shorter strings are
  not harmed by longer ones interned among them (`ShortStringsStay`).
* Splicing a preserved segment under an anchor that is the segment's own head, or lies below it, closes
  a cycle in an acyclic graph; otherwise never (`SpliceAcyclicIff`, `SpliceCycleWitness`).
* Rebuilding a chain raises `KeyError` exactly when the first chain assistant whose message id is the
  empty text has a tool result off the chain (`RecoveryFailsIff`, `KeyErrorWitness`).
* Where the climb through the snipped records runs in a circle, the survivors below keep pointing at a
  removed uuid; nowhere else (`DanglingIffTrapped`, `DanglingWitness`).
* Coalescing drops a removal that cancels an earlier event of the batch, which leaves a stale entry for
  a file that was indexed before the batch (`CoalescedIndexIff`, `CancelledRemovalWitness`). When two
  paths of a batch stand for one index key, the result can also depend on the visiting order
  (`AnyOrderIff`, `SharedKeyWitness`).
* A read error in the middle of a line loses the part read so far; between lines it loses nothing
  (`NothingLostIff`, `BrokenLineIsLost`).
* Saturating costs of both signs depend on the order they come in, so the totals and the sum of the
  entries can differ (`NegativeCostWitness`). `OrderIff` is the exact condition: order makes no
  difference if and only if no cost is negative, or none is positive, or the positive and the negative
  ones each fit. Recorded calls have no negative cost; only usage handed in by a subagent could.

## How the models stand for the code

* Text is a sequence of characters; where bytes matter (`TextTruncation`, `Interner`, `LineReader`,
  `Sha256`) they are explicit, with UTF-8 written out. Token costs are an arbitrary non-negative
  function of an item. Hash functions, the visiting order of hash maps, regular expressions and other
  wait conditions, file contents and scheduling are arbitrary too.
* Records of a transcript are typed: a field of the wrong JSON type counts as absent. A record's uuid is
  its key in the dictionary, as the reader builds it.
* `EventCoalescing` treats indexing as a function from path to entry, fixed while a batch is handled.
* Widths are modelled where the code can reach them: 16-bit lengths and 32-bit starts in `Interner`, the
  bit length modulo 2^64 and words modulo 2^32 in `Sha256`, saturating 64-bit sums in `UsageLedger`, the
  saturating `4 * tokens` byte limit in `FitBudget`.
* Ghost parameters and results carry what a specification speaks about and the program does not keep.

## Model

| member | source | states |
|---|---|---|
| `RepairHistory.PairedByRuns` | crates/codegen/xai-chat-state/src/compaction_utils.rs:1009-1018 | The positional rule (every tool result sits in the contiguous run behind the assistant declaring its id) holds of a history if and only if every run, read with the calls it may answer, holds declared ids only |
| `RepairHistory.RepairCompletes` | crates/codegen/xai-chat-state/src/compaction_utils.rs:987-1007 | Whatever the input, the repaired history pairs every result, answers every declared call in its own run, and has the same non-result items in the same order |
| `RepairHistory.RepairAnswersOnceIff` | crates/codegen/xai-chat-state/src/compaction_utils.rs:987-1007 | All declared calls end up answered exactly once if and only if no assistant of the input declares an id twice without any answer in its run |
| `RepairHistory.RepairIdempotentIff` | crates/codegen/xai-chat-state/src/compaction_utils.rs:987-993 | A second repair changes nothing if and only if the input has no such unanswered repeated id (the documentation promises it always); when it does change something, only the duplicate pass does |
| `RepairHistory.RepairNotIdempotentWitness` | crates/codegen/xai-chat-state/src/compaction_utils.rs:987-993 | The smallest history on which the documented idempotence fails: one assistant declaring the same id twice, no result |
| `RepairHistory.RepairTwiceSettles` | crates/codegen/xai-chat-state/src/compaction_utils.rs:993-1007 | Two repairs always reach a fixpoint |
| `RepairHistory.RepairKeepsLastAnswer` | crates/codegen/xai-grok-sampling-types/src/conversation.rs:3616-3628 | An answered call keeps the last real result of its run, and keeps only that one: nothing synthetic replaces or joins it |
| `RepairHistory.RepairRunAnswers` | crates/codegen/xai-chat-state/src/compaction_utils.rs:993-1007 | Run by run: the repaired run answers each declared id exactly once and nothing else, if and only if every repeated id had an answer |
| `RepairHistory.RepairRunTwice` | crates/codegen/xai-chat-state/src/compaction_utils.rs:993-1007 | Run by run: when repairing a repaired run is the identity, and that its first pass is all that can act |
| `RepairedRuns.RepairedRunIs` | crates/codegen/xai-chat-state/src/compaction_utils.rs:993-1007 | Result by result: a repaired run is the last real result of each declared id in the order of the run, then a made-up answer naming the tool for every other call, in call order, and nothing else |
| `RepairedRuns.DedupedRunIs` | crates/codegen/xai-grok-sampling-types/src/conversation.rs:3616-3684 | The duplicate pass leaves a run behind no calls as it is, and of any other exactly the last result of each id, in order |
| `RepairHistory.PassesMakeRepair` | crates/codegen/xai-chat-state/src/compaction_utils.rs:993-1007 | The three whole-history passes one after the other are one rewriting of each run |
| `RepairHistory.RepairChangesIff` | crates/codegen/xai-chat-state/src/compaction_utils.rs:979-985 | Repair leaves a history alone if and only if each single pass leaves its own input alone, so no pass undoes another |
| `RepairHistory.MapRunsKeepsOthers` | crates/codegen/xai-chat-state/src/compaction_utils.rs:1019-1045 | Every pass keeps all items that are not tool results, in order |
| `HistoryPasses.History.DedupDuplicateToolResults` | crates/codegen/xai-grok-sampling-types/src/conversation.rs:3629-3684 | The rescanning in-place loop leaves in each run behind an assistant with calls the last result for each id, and returns how many items went |
| `HistoryPasses.History.StripDisplacedToolResults` | crates/codegen/xai-chat-state/src/compaction_utils.rs:1019-1045 | The one-scan retain loop keeps exactly the items that are no result or lie in their own run, and returns the other ids in order |
| `HistoryPasses.History.RepairDanglingToolCalls` | crates/codegen/xai-grok-sampling-types/src/conversation.rs:3502-3562 | Planning insertions forwards and splicing them backwards puts a synthetic result behind each run for every unanswered call, in call order |
| `HistoryPasses.History.RepairHistory` | crates/codegen/xai-chat-state/src/compaction_utils.rs:993-1007 | The whole repair in place; the report says changed if and only if the items changed, and its three numbers account for the length |
| `HistoryPasses.PlanBackfill` | crates/codegen/xai-grok-sampling-types/src/conversation.rs:3506-3553 | The forward scan's plan, carried out from its last splice to its first, is the backfill of every run |
| `HistoryPasses.RemoveDuplicates` | crates/codegen/xai-grok-sampling-types/src/conversation.rs:3643-3674 | Removing the marked positions from the highest down leaves the last result of each id in the window |
| `HistoryPasses.KeptIsStripped` | crates/codegen/xai-chat-state/src/compaction_utils.rs:1009-1045 | Keeping items by position and filtering run by run are the same transformation |
| `HistoryPasses.RepairReport` | crates/codegen/xai-chat-state/src/compaction_utils.rs:979-985 | The three counts are zero if and only if repair did nothing |
| `SanitizeHistory.ValidateCompactedHistory` | crates/codegen/xai-chat-state/src/compaction_utils.rs:906-923 | The read-only scan returns exactly the ids of the results no earlier assistant declares, in order |
| `SanitizeHistory.SanitizeCompactedHistory` | crates/codegen/xai-chat-state/src/compaction_utils.rs:940-967 | The filtering scan keeps exactly the other items, in order, and reports the ids the validator reports |
| `SanitizeHistory.SanitizedValidates` | crates/codegen/xai-chat-state/src/compaction_utils.rs:925-967 | The sanitized history always validates, equals the input if and only if the input validates, and keeps every non-result item in order |
| `SanitizeHistory.SupportedIff` | crates/codegen/xai-chat-state/src/compaction_utils.rs:910-921 | A result is supported if and only if some assistant anywhere before it declares its id |
| `SanitizeHistory.OwnRunIsSupported` | crates/codegen/xai-chat-state/src/compaction_utils.rs:1014-1018 | A result in its own run is never stripped by the weaker rule |
| `SanitizeHistory.PairedValidates` | crates/codegen/xai-chat-state/src/compaction_utils.rs:906-923 | A tool-paired history validates, so sanitizing leaves it alone |
| `SanitizeHistory.StripSubsumesSanitize` | crates/codegen/xai-chat-state/src/compaction_utils.rs:1014-1045 | Sanitizing before the stricter pass never changes what that pass leaves, and what it leaves is tool-paired |
| `TextTruncation.WholeCharsBoundary` | crates/codegen/xai-chat-state/src/compaction_utils.rs:226-233 | The characters fitting in n bytes of UTF-8 end at the last character boundary at or before n, at most three bytes away |
| `TextTruncation.TruncateTextToBytes` | crates/codegen/xai-chat-state/src/compaction_utils.rs:226-241 | The stepping-back loop computes that prefix plus the marker, or nothing when the text fits |
| `TextTruncation.TruncationKeeps` | crates/codegen/xai-chat-state/src/compaction_utils.rs:226-241 | A truncated text starts with a whole-character prefix of the original at most three bytes short of the target, and its exact byte length is prefix + 56 + digits of the count in the marker |
| `TextTruncation.TruncationBoundIff` | crates/codegen/xai-chat-state/src/compaction_utils.rs:226-241 | The result is at most max(max_bytes, 64) bytes if and only if the dropped count has at most eight digits, or one more per byte stepped back; so always for texts under 10^8 bytes |
| `TextTruncation.TruncationWithinLimitIff` | crates/codegen/xai-chat-state/src/compaction_utils.rs:226-241 | The result is within max_bytes itself, as the function's name says, exactly when the marker has room; never for max_bytes under 57 |
| `TextTruncation.OverLimitWitness` | crates/codegen/xai-chat-state/src/compaction_utils.rs:226-241 | Two bytes cut to one byte come out longer than one byte |
| `TextTruncation.CharReadBack` | crates/codegen/xai-chat-state/src/compaction_utils.rs:226-233 | A character is read back from its bytes, and its first byte announces how many there are |
| `TextTruncation.DecimalReadBack` | crates/codegen/xai-chat-state/src/compaction_utils.rs:236-239 | The count in the marker reads back as the number of bytes dropped |
| `FitBudget.FindStart` | crates/codegen/xai-chat-state/src/compaction_utils.rs:142-154 | The backward scan and the skip over results find the start of the longest affordable suffix, minus its leading results |
| `FitBudget.RecoverTruncatedTailUnit` | crates/codegen/xai-chat-state/src/compaction_utils.rs:163-195 | The popping loop rebuilds the last turn: the trailing results, truncated to an equal share, behind the assistant they answer; or the last item alone, truncated |
| `FitBudget.FitConversationToBudget` | crates/codegen/xai-chat-state/src/compaction_utils.rs:128-161 | The whole fitting, against the function the lemmas below are about |
| `FitBudget.FitTakesLongestSuffix` | crates/codegen/xai-chat-state/src/compaction_utils.rs:136-156 | When some suffix is affordable the output is the System item plus an affordable suffix; the suffix one item longer that does not start with a skipped result is not affordable; the total is at most the larger of budget and System cost |
| `FitBudget.SuffixFitsIff` | crates/codegen/xai-chat-state/src/compaction_utils.rs:142-156 | The suffix path is taken if and only if some suffix of the body that does not begin with a result is affordable |
| `FitBudget.FitSharesBudget` | crates/codegen/xai-chat-state/src/compaction_utils.rs:163-195 | When none is and the conversation ends in n results: the output is the System item, their assistant if it is right before them, and all n results in order, each cut to the same number of tokens; that number times n fits in what is left of the budget and one more would not, or it is one when less than n is left |
| `FitBudget.FitCutsLast` | crates/codegen/xai-chat-state/src/compaction_utils.rs:171-176 | When none is and it ends in another item: that item alone behind the System item, its texts cut to what is left of the budget |
| `FitBudget.FitKeepsLast` | crates/codegen/xai-chat-state/src/compaction_utils.rs:128-195 | For every budget and cost function a conversation with a body keeps its last item as last output item: untouched when everything or some suffix is affordable, and else with only its texts cut |
| `FitBudget.TruncateItemCuts` | crates/codegen/xai-chat-state/src/compaction_utils.rs:197-224 | A cut item keeps kind, ids, calls, flags and images; each text that is too long becomes a prefix of its characters, at most three bytes short of the limit less the reserve, and the marker with the bytes dropped |
| `FitBudget.FitKeepsPairing` | crates/codegen/xai-chat-state/src/compaction_utils.rs:128-195 | Tool pairing survives on both paths, for every budget and cost function |
| `FitBudget.FitKeepsRunsWhole` | crates/codegen/xai-chat-state/src/compaction_utils.rs:128-195 | If every call was answered exactly once, every surviving call still is: runs are never split |
| `FitBudget.PairedTail` | crates/codegen/xai-chat-state/src/compaction_utils.rs:167-180 | The trailing results of a paired body all answer calls of the item right before them |
| `FitBudget.TailUnitBytes` | crates/codegen/xai-chat-state/src/compaction_utils.rs:186-194 | The result texts on the truncated path hold at most four bytes per token of their budget plus 64 bytes each, plus one byte per digit beyond eight in the length of an original; none when every original is under 10^8 bytes |
| `CompactedHistory.RecentMessagesFixpoint` | crates/codegen/xai-chat-state/src/compaction_utils.rs:446-467 | Looking for the recent messages in the rebuilt history, around any summary text, finds the same ones, for every conversation, with or without a real user turn |
| `CompactedHistory.CompactedPaired` | crates/codegen/xai-chat-state/src/compaction_utils.rs:845-888 | The rebuilt history is tool-paired whenever the conversation was, so sanitizing it has nothing to do |
| `CompactedHistory.CompactedAnsweredOnce` | crates/codegen/xai-chat-state/src/compaction_utils.rs:845-888 | Every call of the rebuilt history is answered exactly once if that held before |
| `CompactedHistory.BuiltHistory` | crates/codegen/xai-chat-state/src/compaction_utils.rs:845-888 | With the cleaned summary in it: the built history has the conversation's recent messages, its pairing and its exactly-once answers |
| `CompactedHistory.BuildHistory` | crates/codegen/xai-chat-state/src/compaction_utils.rs:845-888 | Pushing the items one by one builds that history |
| `HistoryContents.BuiltItems` | crates/codegen/xai-chat-state/src/compaction_utils.rs:845-888 | Item by item: the system message; the prefix; project instructions and the wrapped last query if there are any; the recent messages; exactly one item with preamble, cleaned summary and hint; the reminder if there is one; and nothing else |
| `HistoryContents.RecentAre` | crates/codegen/xai-chat-state/src/compaction_utils.rs:446-467 | The recent messages are every assistant behind the last real user turn, unchanged, and every result with its id and error flag and the placeholder for content, in order |
| `HistoryContents.BlockStripped` | crates/codegen/xai-chat-state/src/compaction_utils.rs:266-272 | The first closed block of a tag is cut out whole and nothing around it, whatever is inside and behind |
| `HistoryContents.OpenBlockStays` | crates/codegen/xai-chat-state/src/compaction_utils.rs:270-272 | An opening tag without a closing one behind it stays, with all of the text |
| `HistoryContents.QueryBetween` | crates/codegen/xai-chat-state/src/compaction_utils.rs:282-287 | The query of a text is what stands between its first opening query tag and the closing one behind it, trimmed and stripped of system tags |
| `HistoryContents.QueryWhole` | crates/codegen/xai-chat-state/src/compaction_utils.rs:281-290 | Without a closed query block the query is the whole text, stripped of system tags |
| `CompactedHistory.RecentPaired` | crates/codegen/xai-chat-state/src/compaction_utils.rs:446-467 | Dropping everything but assistants and results behind the last real user turn keeps tool pairing |
| `CompactedHistory.LastQueryStableIff` | crates/codegen/xai-chat-state/src/compaction_utils.rs:868-888 | The last user query found in the rebuilt history equals the one before if and only if it is no marker text, holds no closing query tag and no closed system-tag block |
| `LastQueryWitnesses.ImagePromptForgotten` | crates/codegen/xai-chat-state/src/compaction_utils.rs:351-369 | A prompt that is only an image: its query is the empty text, and the rebuilt history has no last query |
| `LastQueryWitnesses.NestedBlockForgotten` | crates/codegen/xai-chat-state/src/compaction_utils.rs:260-275 | A prompt with one system block inside the opening tag of another: its query is the outer block that stripping completed, and the rebuilt history has another query |
| `LastQueryWitnesses.ClosingTagForgotten` | crates/codegen/xai-chat-state/src/compaction_utils.rs:281-290 | A prompt that quotes the closing query tag: the rebuilt history has another query |
| `CompactedHistory.StrippedOf` | crates/codegen/xai-chat-state/src/compaction_utils.rs:260-275 | Stripping a tag leaves no closed block of that tag, in any text |
| `CompactedHistory.RebuiltQuery` | crates/codegen/xai-chat-state/src/compaction_utils.rs:845-888 | The last query found in the rebuilt history, for every context: what reading the wrapped query back gives, or none if that is a marker text |
| `CompactedHistory.ReadBack` | crates/codegen/xai-chat-state/src/compaction_utils.rs:281-290 | Reading a wrapped query back gives the tag-stripped query, or something strictly shorter if the query holds the closing tag |
| `CompactedHistory.StripSystemTagBlocks` | crates/codegen/xai-chat-state/src/compaction_utils.rs:260-275 | The find-and-cut loops compute the recursive tag stripping |
| `CompactedHistory.StripSystemTagsIff` | crates/codegen/xai-chat-state/src/compaction_utils.rs:260-275 | Stripping leaves a trimmed text alone if and only if no system tag has a closed block in it, and never lengthens it |
| `CompactedHistory.RecentStart` | crates/codegen/xai-chat-state/src/compaction_utils.rs:446-452 | The recent part starts right behind the last real user turn, and holds none |
| `CompactSummary.FormatCompactSummary` | crates/codegen/xai-chat-state/src/compaction_utils.rs:638-676 | The reassigning loops compute the formatting function the lemmas are about, and terminate on every string |
| `CompactSummary.PeelScratchpads` | crates/codegen/xai-chat-state/src/compaction_utils.rs:639-661 | The scratchpad loop peels exactly the leading drafting blocks, closed or not |
| `CompactSummary.FormattedIsClean` | crates/codegen/xai-chat-state/src/compaction_utils.rs:638-711 | For every string the output holds none of the six live control tokens, no run of three newlines and no outer whitespace |
| `CompactSummary.FormatIdempotent` | crates/codegen/xai-chat-state/src/compaction_utils.rs:638-676 | Formatting twice is formatting once |
| `CompactSummary.CleanStays` | crates/codegen/xai-chat-state/src/compaction_utils.rs:638-676 | A text that is already clean is left exactly as it is |
| `KeptSummary.SummaryKept` | crates/codegen/xai-chat-state/src/compaction_utils.rs:638-699 | A summary behind any text that opens no tag and any number of closed drafts, with any number more at its beginning: its body less the drafting comes out under the heading, between the text in front and the text behind, finished and not cut. A body that begins with a numbered section has no drafting; any other loses what goes up to its last closing analysis tag, and a leftover summary tag |
| `KeptSummary.PlainSummaryKept` | crates/codegen/xai-chat-state/src/compaction_utils.rs:664-676 | A clean body, numbered or not, is exactly what comes out under the heading |
| `KeptSummary.DraftInBodyCut` | crates/codegen/xai-chat-state/src/compaction_utils.rs:687-697 | Of an un-numbered body with a closing analysis tag exactly the clean text behind the last one is left |
| `KeptSummary.UnclosedDraft` | crates/codegen/xai-chat-state/src/compaction_utils.rs:654-660 | A draft that is never closed goes up to the summary behind it, whose body is left as ever |
| `KeptSummary.UnclosedDraftAlone` | crates/codegen/xai-chat-state/src/compaction_utils.rs:654-660 | Without a summary behind it, a draft that is never closed leaves nothing |
| `KeptSummary.UnwrappedKept` | crates/codegen/xai-chat-state/src/compaction_utils.rs:663-676 | Text without drafts and without a whole wrapper loses nothing: it is only finished |
| `KeptSummary.NumberedSummaryKept` | crates/codegen/xai-chat-state/src/compaction_utils.rs:678-699 | A body that begins with a numbered section is kept whole behind drafts and white space, whatever tags it quotes |
| `KeptSummary.StartsNumberedIff` | crates/codegen/xai-chat-state/src/compaction_utils.rs:689-690 | A body begins with a numbered section if and only if a digit stands behind nothing but decoration |
| `KeptSummary.DraftsPeeled` | crates/codegen/xai-chat-state/src/compaction_utils.rs:639-661 | Closed drafts in front of a summary are peeled one by one, whatever they quote |
| `KeptSummary.CollapseTidies` | crates/codegen/xai-chat-state/src/compaction_utils.rs:672-674 | Replacing until nothing is left to replace cuts every run of newlines to its last two and changes nothing else |
| `KeptSummary.NeutralizeErased` | crates/codegen/xai-chat-state/src/compaction_utils.rs:704-711 | Neutralizing only puts sentinels in: without them the text is what it was |
| `CompactSummary.NeutralizeClean` | crates/codegen/xai-chat-state/src/compaction_utils.rs:704-711 | Neutralizing removes every live token, creates none, and changes nothing when there is none |
| `CompactSummary.DefuseKeepsAbsent` | crates/codegen/xai-chat-state/src/compaction_utils.rs:704-711 | Defusing one token removes all its occurrences and brings back no other |
| `WaitProtocol.StepKeepsInv` | crates/codegen/ptyctl/src/wait.rs:97-128 | Every step of feeder, resizer and waiters keeps the protocol invariant |
| `WaitProtocol.NoLostWakeup` | crates/codegen/ptyctl/src/wait.rs:97-128 | In every interleaving: a sleeping waiter that cannot be woken, with no writer between grid change and bump and no silent resize so far, has a false condition on the present grid |
| `WaitProtocol.WakeupIsComing` | crates/codegen/ptyctl/src/session.rs:158-173 | While a sleeping waiter's condition holds and some sender is left, of the feeder or of a resize, the waiter can be woken now or after writer steps that nothing can block |
| `WaitProtocol.WokenByBump` | crates/codegen/ptyctl/src/wait.rs:97-128 | A sleeping waiter can be woken if and only if there was a bump since it last marked the generation seen, so never for nothing |
| `WaitProtocol.OutcomesAreRight` | crates/codegen/ptyctl/src/wait.rs:102-128 | A match is reported only for a screen that met the condition; ended only for one that did not, unless a resize found the sender gone |
| `WaitProtocol.OutcomeScreens` | crates/codegen/ptyctl/src/wait.rs:168-176 | Whatever a waiter reports, a match, the end or a time-out, the screen is the grid of the very step that reported it |
| `WaitProtocol.ReportingHasCause` | crates/codegen/ptyctl/src/wait.rs:116-126 | A time-out is reported only after the waiter's deadline passed in its sleep, the end only after it found the channel closed |
| `WaitProtocol.EndedIsFinal` | crates/codegen/ptyctl/src/wait.rs:117-122 | Over runs: the screen reported with ended is the grid of every later state, and the condition is false on it, unless a resize went unannounced or is at work there |
| `WaitProtocol.ClosedGridIsFinal` | crates/codegen/ptyctl/src/wait.rs:117-122 | Over runs: once no sender is left only a resize can change the grid, and nothing the generation |
| `WaitProtocol.SilentIff` | crates/codegen/ptyctl/src/session.rs:272-283 | A resize goes unannounced if and only if it looks for the sender after the feeder's exit |
| `WaitProtocol.SilentResizeWitness` | crates/codegen/ptyctl/src/session.rs:272-283 | A run, for any condition and screens, in which such a resize makes the condition true and the waiter reports ended with that very screen |
| `Interner.StringInterner.InternBytes` | crates/codegen/xai-codebase-graph/src/interner.rs:119-144 | On any fields at all: the new fields and the id are those of one step of the model; from a valid interner the list of distinct strings grows by a string that fits, and a string reads back if and only if it was there or id and length fit and its bytes lie where its start says |
| `Interner.ReadsBackIff` | crates/codegen/xai-codebase-graph/src/interner.rs:135-143 | What the appended entry reads back, and that under 2^32 bytes of arena only id and length matter |
| `Interner.StringInterner.GetBytesId` | crates/codegen/xai-codebase-graph/src/interner.rs:157-168 | On any fields: the first id in the bucket of the hash under which the string is read; in a valid interner exactly the interned strings are found, whatever the hash function |
| `Interner.StringInterner.GetBytes` | crates/codegen/xai-codebase-graph/src/interner.rs:180-184 | An id reads back the string of the abstract list at that place, and nothing beyond it |
| `Interner.StringInterner.FromParts` | crates/codegen/xai-codebase-graph/src/interner.rs:286-303 | Rebuilding from arena and offsets files every string under its hash in id order, so it answers every query as the original does |
| `Interner.StringInterner.Clear` | crates/codegen/xai-codebase-graph/src/interner.rs:254-258 | A cleared interner is a valid one that holds nothing |
| `Interner.StringInterner.InternAll` | crates/codegen/xai-codebase-graph/src/interner.rs:119-144 | Any inputs on any fields are the steps of the model one after the other; from a valid interner, with short strings and within the widths, they refine the list of distinct strings id by id |
| `Interner.NextKeeps` | crates/codegen/xai-codebase-graph/src/interner.rs:119-144 | Whatever the length of the string and whatever went wrong before, every old id keeps its bytes and the entries stay within the arena |
| `Interner.FoundStays` | crates/codegen/xai-codebase-graph/src/interner.rs:119-144 | A string once found is found under the same id ever after, whatever is interned |
| `Interner.ShortStringsStay` | crates/codegen/xai-codebase-graph/src/interner.rs:119-144 | In a run under 2^32 bytes and entries, with over-long strings among the inputs, each string under 2^16 bytes reads back at the end under its id and is found there |
| `Interner.ShortIdsIffEqual` | crates/codegen/xai-codebase-graph/src/interner.rs:119-144 | In such a run the ids of two short strings are equal if and only if their bytes are |
| `Interner.EqualIdsIffEqualBytes` | crates/codegen/xai-codebase-graph/src/interner.rs:119-144 | Over any sequence of interns: equal ids if and only if equal bytes |
| `Interner.IdsStandForInputs` | crates/codegen/xai-codebase-graph/src/interner.rs:119-144 | Each id handed out still stands for its input after the whole sequence |
| `Interner.InternedAllFacts` | crates/codegen/xai-codebase-graph/src/interner.rs:119-144 | The list grows at its end, stays free of duplicates, and holds exactly the old strings and the inputs |
| `Interner.BucketsHold` | crates/codegen/xai-codebase-graph/src/interner.rs:124-143 | A bucket holds an id if and only if the string of that id has the bucket's hash |
| `Interner.StringsGrow` | crates/codegen/xai-codebase-graph/src/interner.rs:135-143 | Appending bytes and one slot appends one string to the list and changes no other |
| `SnipRemoval.Resolve` | bundled/skills/shared/resume-session/session_reader.py:538-549 | The walk with path compression returns where the plain walk over the present links leaves the removed records, or some removed uuid if it never does; compression changes no later walk |
| `SnipRemoval.CompressExit` | bundled/skills/shared/resume-session/session_reader.py:546-549 | Pointing a walked path at its exit changes the outcome of no walk |
| `SnipRemoval.CompressCycle` | bundled/skills/shared/resume-session/session_reader.py:542-549 | Pointing a walked path at the record it ran into changes the outcome of no walk either: its records stay trapped |
| `SnipRemoval.ResolvedRelinks` | bundled/skills/shared/resume-session/session_reader.py:551-554 | A survivor given the compressed walk's result has the parent the plain walk over the original links gives |
| `SnipRemoval.DanglingIffTrapped` | bundled/skills/shared/resume-session/session_reader.py:519-554 | A survivor still points at a removed uuid if and only if the walk from its parent has not left the removed records after as many steps as there are of them |
| `SnipRemoval.TrappedIff` | bundled/skills/shared/resume-session/session_reader.py:538-549 | A walk that has not left after that many steps never does |
| `PreparedMessages.DanglingWitness` | bundled/skills/shared/resume-session/session_reader.py:519-554 | A snipped record that is its own parent leaves its child pointing at it |
| `SnipRemoval.AcyclicEscapes` | bundled/skills/shared/resume-session/session_reader.py:538-549 | With acyclic removed links no walk is trapped, so nothing dangles |
| `SnipRemoval.SurvivorsInOrder` | bundled/skills/shared/resume-session/session_reader.py:533-536 | The surviving records are listed in the order they had |
| `PreparedMessages.SnipSkips` | bundled/skills/shared/resume-session/session_reader.py:519-553 | A survivor behind a line of snipped records, each the parent of the one before, hangs from the last one's parent, or from nothing if the last is not there |
| `ClaudeRecords.ParentIs` | bundled/skills/shared/resume-session/session_reader.py:421-426 | A record's parent is what the first field names, and only if that names nothing, what the logical one does |
| `PreparedMessages.Messages.ApplySnipRemovals` | bundled/skills/shared/resume-session/session_reader.py:519-554 | Exactly the records not asked away survive, in order; each keeps everything but its parent, which is the one the plain walk gives |
| `PreparedMessages.Messages.SpliceSegment` | bundled/skills/shared/resume-session/session_reader.py:508-511 | The in-place loop hangs the head under the anchor and every other child of the anchor under the tail |
| `PreparedMessages.Messages.CutBefore` | bundled/skills/shared/resume-session/session_reader.py:514-516 | Exactly the records from the boundary on and the preserved ones survive, in order and unchanged |
| `PreparedMessages.Messages.ApplyPreservedSegment` | bundled/skills/shared/resume-session/session_reader.py:457-516 | The four outcomes: no segment, an older segment (cut only), an unusable one (nothing happens), a live one (splice and cut) |
| `PreparedMessages.Messages.Prepare` | bundled/skills/shared/resume-session/session_reader.py:452-454 | The two rewrites one after the other |
| `PreservedSegment.LiveSegmentSpliced` | bundled/skills/shared/resume-session/session_reader.py:474-516 | After a live segment: exactly its records and those from the newest boundary on are left; the head hangs from the anchor, what hung from the anchor from the tail, and every other record is unchanged |
| `PreservedSegment.OtherwiseApplied` | bundled/skills/shared/resume-session/session_reader.py:472-516 | A newer boundary without a segment cuts everything before it and changes nothing else; without any segment, or with one that cannot be followed from tail to head, nothing happens |
| `PreservedSegment.KeptInOrder` | bundled/skills/shared/resume-session/session_reader.py:514-516 | A cut leaves the records in the order they had |
| `PreservedSegment.WalkToHead` | bundled/skills/shared/resume-session/session_reader.py:487-500 | The guarded walk from the tail terminates on any parent map and reaches the head if and only if some climb does |
| `PreservedSegment.SegmentUnique` | bundled/skills/shared/resume-session/session_reader.py:487-500 | At most one climb leads from tail to head, so the preserved records are determined |
| `PreservedSegment.SpliceAcyclicIff` | bundled/skills/shared/resume-session/session_reader.py:508-511 | Splicing into an acyclic graph keeps it acyclic if and only if the anchor is neither the head nor below it |
| `PreservedSegment.SpliceCycleWitness` | bundled/skills/shared/resume-session/session_reader.py:508-511 | The smallest splice that closes a cycle: head, tail and anchor are one record |
| `SplicedChains.ChainThroughSegment` | bundled/skills/shared/resume-session/session_reader.py:508-511 | On any parent map, cyclic elsewhere or not: what climbed to the anchor through another child now climbs through the whole segment, tail to head, and then the anchor's chain, if these repeat nothing and the anchor's chain does not return to it |
| `SplicedChains.AcyclicChainThroughSegment` | bundled/skills/shared/resume-session/session_reader.py:508-511 | In an acyclic graph, with the anchor neither the head nor below it, the proviso always holds |
| `SplicedChains.ChainThroughHead` | bundled/skills/shared/resume-session/session_reader.py:508 | On any parent map: what climbed through the head goes on with the anchor's chain, under the same proviso |
| `SplicedChains.ChainElsewhere` | bundled/skills/shared/resume-session/session_reader.py:508-511 | Every chain without the head and without a child of the anchor stays |
| `SplicedChains.CutChain` | bundled/skills/shared/resume-session/session_reader.py:514-516 | Cutting records ends a chain right before the first one that is gone |
| `ClaudeChain.WalkChain` | bundled/skills/shared/resume-session/session_reader.py:605-628 | The guarded walk terminates on any parent map and lists the whole climb from the leaf, oldest first |
| `ClaudeChain.ChainUpUnique` | bundled/skills/shared/resume-session/session_reader.py:605-628 | A leaf has one such climb, so the walk is fully described |
| `ClaudeChain.SortedInTimeOrder` | bundled/skills/shared/resume-session/session_reader.py:234-236 | Sorting leaves the records ordered by timestamp and then by position |
| `ClaudeChain.SortedSame` | bundled/skills/shared/resume-session/session_reader.py:676-681 | Sorting keeps exactly the records, each as often as before |
| `ClaudeChain.RecoveredAre` | bundled/skills/shared/resume-session/session_reader.py:668-687 | For a message with a non-empty id, what is recovered is everything of the message not seen yet, once |
| `ClaudeRecovery.BuildAnchors` | bundled/skills/shared/resume-session/session_reader.py:644-647 | The anchor of a message id is its last assistant on the chain; the empty id has none |
| `ClaudeRecovery.BuildGroups` | bundled/skills/shared/resume-session/session_reader.py:648-660 | One scan files every assistant under its message id and every tool result under its parent |
| `ClaudeRecovery.GatherResults` | bundled/skills/shared/resume-session/session_reader.py:670-675 | The results of every member of a group, in group order |
| `ClaudeRecovery.CollectInserts` | bundled/skills/shared/resume-session/session_reader.py:661-687 | The growing seen set makes no difference to what each message recovers; the loop fails exactly on an orphan of an empty message id |
| `ClaudeRecovery.FreshMessage` | bundled/skills/shared/resume-session/session_reader.py:668-687 | Filtering by everything seen so far is filtering by the chain |
| `ClaudeRecovery.OutputSpliced` | bundled/skills/shared/resume-session/session_reader.py:688-692 | The output loop puts each message's recovered records behind its anchor |
| `ClaudeRecovery.RecoverParallel` | bundled/skills/shared/resume-session/session_reader.py:632-692 | The whole recovery, chain and failure |
| `ClaudeRecovery.ClaudeChainOf` | bundled/skills/shared/resume-session/session_reader.py:605-628 | Chain and recovery from a leaf, on any parent map |
| `RecoveryOrder.BranchPlaced` | bundled/skills/shared/resume-session/session_reader.py:644-692 | Right behind the last assistant of a message on the chain, there and nowhere else, stand all records of the message that are off the chain: its assistants, then the tool results hanging from them, each in time order |
| `RecoveryOrder.AnchorIsLast` | bundled/skills/shared/resume-session/session_reader.py:644-647 | The place is that of the last assistant with the id, not the first |
| `RecoveryOrder.SortedChronological` | bundled/skills/shared/resume-session/session_reader.py:676-681 | Sorted records come by timestamp in text order, and with equal timestamps as the transcript lists them |
| `RecoveryOrder.TextLessIff` | bundled/skills/shared/resume-session/session_reader.py:234-236 | Comparing text character by character is being smaller at the first difference, or a proper beginning |
| `ClaudeRecovery.RecoveryComplete` | bundled/skills/shared/resume-session/session_reader.py:605-692 | No uuid twice; the chain as an ordered subsequence; and exactly the chain, every assistant sharing a message id with a chain assistant, and every tool result whose parent is one of those |
| `ClaudeRecovery.RecoveryFailsIff` | bundled/skills/shared/resume-session/session_reader.py:663-684 | The rebuild raises KeyError if and only if the first chain assistant whose message id is the empty text has a tool result outside the chain |
| `ClaudeRecovery.KeyErrorWitness` | bundled/skills/shared/resume-session/session_reader.py:663-684 | The smallest transcript that raises it |
| `EventCoalescing.CoalescedEvents.Insert` | crates/codegen/xai-codebase-graph/src/index_manager.rs:1545-1569 | The in-place map keeps for each path what its own touches make of it, the other paths untouched |
| `EventCoalescing.CoalescedEvents.Add` | crates/codegen/xai-codebase-graph/src/index_manager.rs:1531-1543 | A rename is a removal then a creation; any other event touches each of its paths |
| `EventCoalescing.PathStateIsLast` | crates/codegen/xai-codebase-graph/src/index_manager.rs:1545-1569 | A pending kind is a removal exactly if the path's last touch was; nothing pending after a touch means a cancelled removal |
| `EventCoalescing.NothingPendingIff` | crates/codegen/xai-codebase-graph/src/index_manager.rs:1545-1569 | Nothing is pending for a path if and only if it was not touched or its last two touches are a creation or modification and then a removal |
| `EventCoalescing.CoalescedMatchesSequential` | crates/codegen/xai-codebase-graph/src/index_manager.rs:1133-1161 | With one path per index key: whatever order the map is visited in, a touched path ends as with one-by-one handling if and only if it was not indexed or its last two events are not a creation or modification and then a removal |
| `EventCoalescing.CoalescedIndexIff` | crates/codegen/xai-codebase-graph/src/index_manager.rs:1133-1161 | With one path per index key: the whole index comes out the same if and only if no indexed path ends in such a pair of events |
| `EventCoalescing.BatchShows` | crates/codegen/xai-codebase-graph/src/index_manager.rs:1133-1161 | After a batch, in whatever order: a path last created or modified is indexed with what its file yields, and one last removed is gone unless the removal cancelled |
| `EventCoalescing.RenameMoves` | crates/codegen/xai-codebase-graph/src/index_manager.rs:1531-1537 | A rename takes the entry from the old path's key and puts what the file yields under the new path's |
| `EventCoalescing.CancelledRemovalWitness` | crates/codegen/xai-codebase-graph/src/index_manager.rs:1545-1569 | An indexed file modified and removed in one batch stays in the index |
| `SharedKeys.AnyOrderIff` | crates/codegen/xai-codebase-graph/src/index_manager.rs:1133-1161 | With any number of paths per key: a key comes out as one by one in every visiting order if and only if all its paths whose events do not cancel leave what its last event leaves, or, when all cancel, the index did not hold it |
| `SharedKeys.AnyOrderIndexIff` | crates/codegen/xai-codebase-graph/src/index_manager.rs:1133-1161 | The same for the whole index |
| `SharedKeys.ApplyAllUnder` | crates/codegen/xai-codebase-graph/src/index_manager.rs:1133-1161 | One by one a key ends up with what its last event leaves |
| `SharedKeys.SharedKeyWitness` | crates/codegen/xai-codebase-graph/src/index_manager.rs:1133-1161 | Two paths with one key, one removed and then the other created: some visiting order loses the entry |
| `EventCoalescing.IndexManager.ApplyCoalesced` | crates/codegen/xai-codebase-graph/src/index_manager.rs:1133-1161 | Visiting the pending paths in any order handles each exactly once |
| `EventCoalescing.IndexManager.ProcessFileEvent` | crates/codegen/xai-codebase-graph/src/index_manager.rs:844-867 | A file event takes all file commands waiting behind it into one batch, then the command that ended the draining is handled: a rebuild, a background refresh, a shutdown, or one that leaves the index alone |
| `EventCoalescing.IndexManager.ProcessFileEventBatch` | crates/codegen/xai-codebase-graph/src/index_manager.rs:868-875 | A batch command is coalesced alone |
| `EventCoalescing.IndexManager.Refresh` | crates/codegen/xai-codebase-graph/src/index_manager.rs:1100-1124 | The files found deleted go first; then each key holds what the last stale file with that key and a known language yields, or what it held |
| `EventCoalescing.RefreshShows` | crates/codegen/xai-codebase-graph/src/index_manager.rs:1100-1124 | After a refresh a key holds what its last stale file with a known language yields; without one, nothing if it was found deleted, and else what it held |
| `EventCoalescing.Drained` | crates/codegen/xai-codebase-graph/src/index_manager.rs:851-865 | Draining stops at the first command that is no file event |
| `EventCoalescing.EventsInAre` | crates/codegen/xai-codebase-graph/src/index_manager.rs:851-865 | The events drained are exactly those the drained commands carry, alone or in batches |
| `LineReader.MessagesWhole` | crates/codegen/xai-acp-lib/src/line_reader.rs:134-139 | Every message carries one non-empty line within the limit, its newline only at its end; only the last may lack it, and an error comes last |
| `LineReader.ContentIsPrefix` | crates/codegen/xai-acp-lib/src/line_reader.rs:136-177 | The lines are the source from its start without gap; what is never served is a line over the limit and what follows it, the unfinished line of a source that broke, or nothing |
| `LineReader.NothingLostIff` | crates/codegen/xai-acp-lib/src/line_reader.rs:136-177 | Every byte is served if and only if no line is over the limit and the source, if it breaks, breaks between lines |
| `LineReader.BrokenLineIsLost` | crates/codegen/xai-acp-lib/src/line_reader.rs:140-150 | A source that breaks in the middle of a line: the bytes read of it are never served |
| `LineReader.ReadLineCapped` | crates/codegen/xai-acp-lib/src/line_reader.rs:140-177 | For every split into fills: the outcome depends on the bytes alone, a line read is exactly what was consumed, and the accumulator never exceeds the cap plus the longest fill |
| `LineReader.NextMessage` | crates/codegen/xai-acp-lib/src/line_reader.rs:70-84 | One round of the reader task's loop sends the first of the remaining messages |
| `LineReader.BufferedSource.Consume` | crates/codegen/xai-acp-lib/src/line_reader.rs:159 | Consuming takes bytes off the front of what is left, and nothing else |
| `LineReader.LineBufferedRead.TaskStep` | crates/codegen/xai-acp-lib/src/line_reader.rs:70-84 | A round of the reader task changes nothing about what will be served |
| `LineReader.LineBufferedRead.PollRead` | crates/codegen/xai-acp-lib/src/line_reader.rs:96-132 | Served, buffered and coming bytes always make up the original content; Pending only between lines with nothing buffered; the error once, after everything; end of file only when everything was served |
| `Sha256.Pad` | crates/codegen/xai-grok-shell/build.rs:258-265 | The padding loop terminates with the padding of section 5.1.1 of FIPS 180-4 |
| `Sha256.PaddedLength` | crates/codegen/xai-grok-shell/build.rs:258-265 | The padded message is whole blocks, and as few as can hold message, marker and length |
| `Sha256.UnpadPadded` | crates/codegen/xai-grok-shell/build.rs:258-265 | The padding can be taken off again, whatever the length |
| `Sha256.PaddingInjective` | crates/codegen/xai-grok-shell/build.rs:258-265 | Different messages pad differently, whatever their length |
| `Sha256.LengthFieldIff` | crates/codegen/xai-grok-shell/build.rs:258 | The length field is the bit length if and only if the message is under 2^61 bytes |
| `Sha256.PaddingSuffixFree` | crates/codegen/xai-grok-shell/build.rs:258-265 | Under that length no padded message ends another |
| `Sha256.FillSchedule` | crates/codegen/xai-grok-shell/build.rs:268-279 | The array holds the message schedule of section 6.2.2, although its terms are added in the reverse order |
| `Sha256.RunRounds` | crates/codegen/xai-grok-shell/build.rs:280-299 | The eight rotating variables compute the 64 rounds of section 6.2.2 |
| `Sha256.RoundsAreSequences` | crates/codegen/xai-grok-shell/build.rs:282-299 | After t rounds the eight variables are the last four values of each of two coupled recurrences |
| `Sha256.UnroundRound` | crates/codegen/xai-grok-shell/build.rs:282-299 | A round can be undone, given its words |
| `Sha256.RoundsInjective` | crates/codegen/xai-grok-shell/build.rs:282-299 | For every block the rounds send different states to different states |
| `Sha256.CompressChunk` | crates/codegen/xai-grok-shell/build.rs:280-308 | The hash array is replaced by the next intermediate hash value |
| `Sha256.Sha256Digest` | crates/codegen/xai-grok-shell/build.rs:235-319 | The digest is the big-endian hash value after folding every block of the padded message |
| `Sha256.BigEndianRoundTrip` | crates/codegen/xai-grok-shell/build.rs:265 | Big-endian digits read back to the number modulo their range |
| `Sha256.FeedForward` | crates/codegen/xai-grok-shell/build.rs:304-311 | The rounds' result is added word by word to the hash value they began with |
| `Sha256.DigestReadsBack` | crates/codegen/xai-grok-shell/build.rs:314-318 | The digest is 32 bytes that read back, four at a time, as the words of the last hash value |
| `Sha256.BlocksChain` | crates/codegen/xai-grok-shell/build.rs:266-267 | Blocks are taken in order, each on top of the hash value of those before it |
| `Sha256Constants.ConstantsAreCubeRoots` | crates/codegen/xai-grok-shell/build.rs:238-249 | The round constants are the leading 32 bits of the fractions of the cube roots of the first 64 primes, in order |
| `Sha256Constants.InitialIsSquareRoots` | crates/codegen/xai-grok-shell/build.rs:250-257 | The initial hash value is that of the square roots of the first eight |
| `Sha256Constants.SigmasOfTopBit` | crates/codegen/xai-grok-shell/build.rs:275-292 | Where the four sigma functions send the highest bit |
| `Sha256Constants.ChChooses` | crates/codegen/xai-grok-shell/build.rs:286 | The choice function takes the bits of the second word where the first has ones and of the third elsewhere |
| `Sha256Constants.MajIsMajority` | crates/codegen/xai-grok-shell/build.rs:293 | The majority function has a one exactly where two of the three words do |
| `UsageLedger.FoldGroupsIff` | crates/codegen/xai-chat-state/src/usage.rs:73-104 | Grouping of saturating folds makes no difference if and only if no clamped cost is pulled back by a cost of the other sign |
| `UsageLedger.FoldIntoTabulates` | crates/codegen/xai-chat-state/src/usage.rs:146-152 | Folding a usage into a table keeps every entry the sum of what was recorded for its model, whatever the costs |
| `UsageLedger.FoldIntoLookup` | crates/codegen/xai-chat-state/src/usage.rs:146-152 | Only the entry of the usage's model changes |
| `UsageLedger.CountsAddUp` | crates/codegen/xai-chat-state/src/usage.rs:73-97 | For any usage, every count of the totals, and of each model's sum, is the smaller of 2^64 - 1 and the unbounded sum of that field |
| `UsageLedger.TableAccounts` | crates/codegen/xai-chat-state/src/usage.rs:146-152 | A ledger's totals and each of its entries are, count by count, what was recorded in all and for that model |
| `UsageLedger.CallsAddUp` | crates/codegen/xai-chat-state/src/usage.rs:48-67 | The bill of some calls in their own terms: prompt, completion, cached, cache-creation and reasoning tokens, durations, the number of calls, those without a cost, and the positive costs, each added up and saturated; per model that of the model's calls |
| `UsageLedger.TableSum` | crates/codegen/xai-chat-state/src/usage.rs:146-152 | The entries add up to everything recorded, however the models interleave, if no cost is negative, or none is positive, or the positive and the negative costs each add up to what a cost can hold |
| `UsageLedger.OrderIff` | crates/codegen/xai-chat-state/src/usage.rs:73-104 | The same usage in any order gives the same totals if and only if the condition of TableSum holds |
| `UsageLedger.OneWay` | crates/codegen/xai-chat-state/src/usage.rs:99-104 | Costs that go only one way end where their unbounded sum is clamped to |
| `UsageLedger.NegativeCostWitness` | crates/codegen/xai-chat-state/src/usage.rs:99-104 | Three usages outside the condition of TableSum whose total and whose entries add up differently |
| `UsageLedger.Ledger.FoldEntry` | crates/codegen/xai-chat-state/src/usage.rs:146-152 | Totals stay the sum of everything recorded and each entry that of its model, count by count; under the condition of TableSum the totals are also the sum of the entries |
| `UsageLedger.Ledger.RecordMainLoopCall` | crates/codegen/xai-chat-state/src/usage.rs:120-130 | One call is recorded and the main-loop count rises by one, saturating |
| `UsageLedger.Ledger.RecordSubagent` | crates/codegen/xai-chat-state/src/usage.rs:133-140 | All entries are recorded, the main-loop count stays, and incompleteness is never taken back |
| `UsageLedger.FoldChildOrRecord` | crates/codegen/xai-chat-state/src/usage.rs:120-140 | Two equal ledgers, one given a child's table and the other the child's calls, end with equal totals and equal entries under the condition of TableSum, so always when no earlier cost was negative; only the second counts main-loop calls |
| `UsageLedger.ChildTableIsItsCalls` | crates/codegen/xai-chat-state/src/usage.rs:132-140 | Under the condition of TableSum a child's table and the calls it stands for add up to the same behind any earlier usage, in total and for every model |
| `UsageLedger.PartialIff` | crates/codegen/xai-chat-state/src/usage.rs:69-71 | The cost is partial if and only if some recorded call reported a positive cost and some did not |

## Left out

- FitBudget.Fit: token costs are summed without a bound; the 64-bit sum of the code cannot overflow for costs a conversation can have.
- EventCoalescing.IndexManager.ProcessFileEvent: queries, snapshots and statistics are one command that leaves the index alone; the cache is not modelled.
- LineReader.ReadLineCapped: the wording and byte count of the oversize error are not modelled.
- LineReader.LineBufferedRead.TaskStep: the channel has no capacity, and a consumer that goes away is not modelled.
- EventCoalescing.CoalescedIndexIff: asks for one indexed path per key; SharedKeys.AnyOrderIndexIff is the condition without that.
- Sha256.Sha256Digest: the hexadecimal rendering and the comparison with the pinned digest are not modelled.
- WaitProtocol.NoLostWakeup: time is a deadline step that may come at any moment; the stability wait and its windows are not modelled.
- PreservedSegment.SpliceAcyclicIff: says nothing of graphs that had a cycle before; the guarded walks terminate on those too (WalkToHead, WalkChain), and SplicedChains.ChainThroughSegment covers them.
- Choosing the leaf a chain starts from, rendering records as turns, and the Codex, Cursor and OMP readers: other transcripts and display; their walks are the ones proved here.
- Warnings the reader and the repair passes emit, telemetry, logging.
- `summary_before_recent_carrier` always returns nothing in this build, so the summary-first layout is not modelled; nor are task summaries, degenerate-summary checks and captured output bounds.
- `push_raw_tail`, the segment renderer of `compaction_transcript.rs`, and the crash blob of `xai-crash-handler`: short loops and fixed layouts that would only add easy members.
- Items keep the fields the passes read: assistants their text and calls, results their id, text, error flag and images; model names and reasoning signatures are not modelled.
- Files, databases, processes, sockets, terminal emulation and parsing of source code.
