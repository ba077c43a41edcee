/** Cleaning the raw output of the compaction model into the plain summary that seeds the next
    turn. What the result is guaranteed to be free of, and that cleaning twice is cleaning once. */
module CompactSummary {
  import opened Options
  import opened Strings

  const ANALYSIS := "<analysis>"
  const END_ANALYSIS := "</analysis>"
  const SUMMARY := "<summary>"
  const END_SUMMARY := "</summary>"
  const REQUEST := "<summary_request>"
  const END_REQUEST := "</summary_request>"

  const ZERO_WIDTH_SPACE: char := '\U{200B}'

  /** Tag-like text: its only `<` is in front, and it holds neither the sentinel nor a newline. */
  predicate TagLike(t: string) {
    && |t| >= 2 && t[0] == '<' && t[1] != ZERO_WIDTH_SPACE
    && forall k :: 1 <= k < |t| ==> t[k] != '<' && t[k] != '\n'
  }

  lemma ControlTokensTagLike()
    ensures TagLike(ANALYSIS) && TagLike(END_ANALYSIS) && TagLike(SUMMARY) && TagLike(END_SUMMARY)
    ensures TagLike(REQUEST) && TagLike(END_REQUEST)
  {}

  /** The tag with the sentinel behind its `<`. */
  function Defused(t: string): string
    requires t != ""
  {
    [t[0], ZERO_WIDTH_SPACE] + t[1..]
  }

  // ----- The cleaning steps -----

  /** Is the `<analysis>` found at `start` drafting scratchpad in front of everything else? */
  predicate IsLeading(s: string, start: nat)
    requires OccursAt(s, ANALYSIS, start)
  {
    match Find(s, SUMMARY)
    case Some(sp) => start < sp || (TagsApart(s, SUMMARY, sp, ANALYSIS, start); Blank(s[sp + |SUMMARY|..start]))
    case None => Blank(s[..start])
  }

  /** Two different tags at different places do not overlap. */
  lemma {:induction false} TagsApart(s: string, t: string, i: nat, u: string, j: nat)
    requires TagLike(t) && TagLike(u) && OccursAt(s, t, i) && OccursAt(s, u, j)
    ensures i < j ==> i + |t| <= j
    ensures j < i ==> j + |u| <= i
    ensures i == j ==> t[1] == u[1]
  {
    OneAngle(s, t, i);
    OneAngle(s, u, j);
    assert s[j] == s[j + 0] == u[0] && s[i] == s[i + 0] == t[0];
    assert i == j ==> t[1] == s[i + 1] && u[1] == s[j + 1];
  }

  lemma {:induction false} OneAngle(s: string, t: string, i: nat)
    requires TagLike(t) && OccursAt(s, t, i)
    ensures forall m :: i < m < i + |t| ==> s[m] != '<'
  {
    forall m | i < m < i + |t| ensures s[m] != '<' {
      assert t[m - i] == s[i + (m - i)];
    }
  }

  /** A text without `u` in front of a tag: no `u` begins in it. */
  lemma {:induction false} NoneBefore(front: string, t: string, behind: string, u: string)
    requires TagLike(t) && TagLike(u) && !Contains(front, u)
    ensures forall j :: 0 <= j < |front| ==> !OccursAt(front + (t + behind), u, j)
    ensures t[1] != u[1] ==> !OccursAt(front + (t + behind), u, |front|)
  {
    var s := front + (t + behind);
    TagLength(t);
    TagLength(u);
    hide OccursAt, TagLike;
    OccursHere(front, t, behind);
    forall j: nat | OccursAt(s, u, j) ensures j >= |front| && (j == |front| ==> t[1] == u[1]) {
      TagsApart(s, t, |front|, u, j);
      if j < |front| {
        OccursInFront(front, t + behind, u, j);
        assert false;
      }
    }
  }

  /** The first tag is found there, and so is the last one. */
  lemma {:induction false} FirstTag(front: string, t: string, behind: string)
    requires TagLike(t) && !Contains(front, t)
    ensures Find(front + (t + behind), t) == Some(|front|) && OccursAt(front + (t + behind), t, |front|)
  {
    hide OccursAt, TagLike;
    OccursHere(front, t, behind);
    NoneBefore(front, t, behind, t);
    FindIs(front + (t + behind), t, |front|);
  }

  lemma {:induction false} LastTag(front: string, t: string, behind: string)
    requires TagLike(t) && !Contains(behind, t)
    ensures RFind(front + (t + behind), t) == Some(|front|) && OccursAt(front + (t + behind), t, |front|)
  {
    var s := front + (t + behind);
    hide OccursAt, TagLike;
    OccursHere(front, t, behind);
    forall j: nat | OccursAt(s, t, j) ensures j <= |front| {
      if |front| < j {
        TagsApart(s, t, |front|, t, j);
        assert s == front + t + behind;
        OccursShift(front + t, behind, t, j - |front + t|);
        assert false;
      }
    }
    RFindIs(s, t, |front|);
  }

  /** Putting a tag between two texts brings no other tag. */
  lemma {:induction false} AbsentAround(front: string, t: string, behind: string, u: string)
    requires TagLike(t) && TagLike(u) && t[1] != u[1] && !Contains(front, u) && !Contains(behind, u)
    ensures !Contains(front + (t + behind), u)
  {
    var s := front + (t + behind);
    NoneBefore(front, t, behind, u);
    hide OccursAt, TagLike;
    OccursHere(front, t, behind);
    forall j: nat | OccursAt(s, u, j) ensures false {
      TagsApart(s, t, |front|, u, j);
      assert s == front + t + behind;
      OccursShift(front + t, behind, u, j - |front + t|);
    }
  }

  /** Removes leading scratchpad blocks; an unclosed one is dropped up to the summary. */
  function DropScratchpads(s: string): (r: string)
    ensures |r| <= |s|
    decreases |s|
  {
    match Find(s, ANALYSIS)
    case None => s
    case Some(start) =>
      if !IsLeading(s, start) then s
      else
        match Find(s[start..], END_ANALYSIS)
        case Some(rel) => DropScratchpads(s[..start] + s[start + rel + |END_ANALYSIS|..])
        case None => s[..start] + s[DropTo(s, start)..]
  }

  function DropTo(s: string, start: nat): (n: nat)
    requires start <= |s|
    ensures start <= n <= |s|
  {
    match Find(s[start..], SUMMARY)
    case Some(rel) => start + rel
    case None => |s|
  }

  predicate IsDecoration(c: char) {
    c == '#' || c == '*' || c == '-' || c == '>' || c == ' ' || c == '\t'
  }

  function TrimDecoration(s: string): string {
    if s != "" && IsDecoration(s[0]) then TrimDecoration(s[1..]) else s
  }

  /** The body starts with a numbered section, decorated or not. */
  predicate StartsNumbered(s: string) {
    var lead := TrimDecoration(s);
    lead != "" && '0' <= lead[0] <= '9'
  }

  function StripLeadingScratchpad(inner: string): string {
    var s := Trim(inner);
    var peeled :=
      if StartsNumbered(s) then s
      else match RFind(s, END_ANALYSIS)
        case Some(pos) => TrimStart(s[pos + |END_ANALYSIS|..])
        case None => s;
    if OccursAt(peeled, SUMMARY, 0) then TrimStart(peeled[|SUMMARY|..]) else peeled
  }

  /** Replaces the outermost summary wrapper by a plain heading. */
  function Unwrap(s: string): string {
    match Find(s, SUMMARY)
    case None => s
    case Some(start) =>
      match RFind(s, END_SUMMARY)
      case None => s
      case Some(end) =>
        if end <= start then s
        else
          TagsApart(s, SUMMARY, start, END_SUMMARY, end);
          s[..start] + "Summary:\n" + StripLeadingScratchpad(Trim(s[start + |SUMMARY|..end])) + s[end + |END_SUMMARY|..]
  }

  function Neutralize(s: string): string {
    var s1 := ReplaceAll(s, END_SUMMARY, Defused(END_SUMMARY));
    var s2 := ReplaceAll(s1, SUMMARY, Defused(SUMMARY));
    var s3 := ReplaceAll(s2, END_ANALYSIS, Defused(END_ANALYSIS));
    var s4 := ReplaceAll(s3, ANALYSIS, Defused(ANALYSIS));
    var s5 := ReplaceAll(s4, END_REQUEST, Defused(END_REQUEST));
    ReplaceAll(s5, REQUEST, Defused(REQUEST))
  }

  const THREE_NEWLINES := "\n\n\n"
  const TWO_NEWLINES := "\n\n"

  function CollapseNewlines(s: string): string
    decreases |s|
  {
    ReplaceShorter(s, THREE_NEWLINES, TWO_NEWLINES);
    AbsentNotFound(s, THREE_NEWLINES);
    if Find(s, THREE_NEWLINES).None? then s
    else CollapseNewlines(ReplaceAll(s, THREE_NEWLINES, TWO_NEWLINES))
  }

  function FormatSummary(s: string): string {
    Trim(CollapseNewlines(Neutralize(Unwrap(DropScratchpads(s)))))
  }

  lemma {:induction false} PeelStep(s: string)
    ensures var found := Find(s, ANALYSIS);
      && (found.None? || !IsLeading(s, found.value) ==> DropScratchpads(s) == s)
      && (found.Some? && IsLeading(s, found.value) ==>
        match Find(s[found.value..], END_ANALYSIS)
        case Some(rel) => DropScratchpads(s) ==
          DropScratchpads(s[..found.value] + s[found.value + rel + |END_ANALYSIS|..])
        case None => DropScratchpads(s) == s[..found.value] + s[DropTo(s, found.value)..])
  {
    hide IsLeading;
  }

  /** Peels scratchpads as long as one leads. */
  method PeelScratchpads(summary: string) returns (result: string)
    ensures result == DropScratchpads(summary)
  {
    hide IsLeading, DropScratchpads;
    result := summary;
    while true
      invariant DropScratchpads(result) == DropScratchpads(summary)
      decreases |result|
    {
      PeelStep(result);
      var found := Find(result, ANALYSIS);
      if found.None? || !IsLeading(result, found.value) {
        return;
      }
      var start := found.value;
      match Find(result[start..], END_ANALYSIS) {
        case Some(rel) =>
          result := result[..start] + result[start + rel + |END_ANALYSIS|..];
        case None =>
          return result[..start] + result[DropTo(result, start)..];
      }
    }
  }

  /** Replaces runs of newlines as long as there are any. */
  method TidyNewlines(s: string) returns (result: string)
    ensures result == CollapseNewlines(s)
  {
    result := s;
    var found := Find(result, THREE_NEWLINES);
    while found.Some?
      invariant found == Find(result, THREE_NEWLINES)
      invariant CollapseNewlines(result) == CollapseNewlines(s)
      decreases |result|
    {
      AbsentNotFound(result, THREE_NEWLINES);
      ReplaceShorter(result, THREE_NEWLINES, TWO_NEWLINES);
      result := ReplaceAll(result, THREE_NEWLINES, TWO_NEWLINES);
      found := Find(result, THREE_NEWLINES);
    }
  }

  /** The whole cleaning. */
  method FormatCompactSummary(summary: string) returns (result: string)
    ensures result == FormatSummary(summary)
  {
    hide Unwrap, Neutralize, CollapseNewlines, Trim, DropScratchpads;
    result := PeelScratchpads(summary);
    result := Neutralize(Unwrap(result));
    result := TidyNewlines(result);
    result := Trim(result);
  }

  // ----- Nothing live is left -----

  lemma {:induction false} AbsentInPrefix(s: string, n: nat, u: string)
    requires n <= |s| && forall p: nat :: p + |u| <= n ==> !OccursAt(s, u, p)
    ensures !Contains(s[..n], u)
  {
    forall p: nat | p + |u| <= n ensures !OccursAt(s[..n], u, p) {
      assert !OccursAt(s, u, p);
      var j :| 0 <= j < |u| && u[j] != s[p + j];
      assert s[..n][p + j] == s[p + j];
    }
  }

  lemma TagLength(t: string)
    requires TagLike(t)
    ensures |t| >= 2
  {}

  lemma AbsentBeforeFound(s: string, t: string, u: string, i: nat)
    requires Find(s, t) == Some(i) && i <= |s| && u != "" && (u == t || !Contains(s, u))
    ensures !Contains(s[..i], u)
  {
    AbsentInPrefix(s, i, u);
  }

  /** Defusing one tag removes it and brings back no other. */
  lemma {:induction false} DefuseKeepsAbsent(s: string, t: string, u: string)
    requires TagLike(t) && TagLike(u) && (u == t || !Contains(s, u))
    ensures !Contains(ReplaceAll(s, t, Defused(t)), u)
    decreases |s|
  {
    hide OccursAt, Contains, FindFrom, TagLike;
    AbsentNotFound(s, t);
    TagLength(t);
    TagLength(u);
    match Find(s, t) {
      case None =>
      case Some(i) =>
        InRange(s, t, i);
        var rest := s[i + |t|..];
        if u != t {
          assert rest == s[i + |t|..|s|];
          AbsentInStretch(s, i + |t|, |s|, u);
        }
        DefuseKeepsAbsent(rest, t, u);
        AbsentBeforeFound(s, t, u, i);
        DefusedJoin(s[..i], t, ReplaceAll(rest, t, Defused(t)), u);
    }
  }

  lemma {:induction false} DefusedJoin(pre: string, t: string, post: string, u: string)
    requires TagLike(t) && TagLike(u) && !Contains(pre, u) && !Contains(post, u)
    ensures !Contains(pre + Defused(t) + post, u)
  {
    var r := Defused(t);
    var s, end := pre + r + post, |pre| + |r|;
    assert forall k :: 2 <= k < |r| ==> r[k] == t[k - 1];
    forall p: nat | p + |u| <= |s| ensures !OccursAt(s, u, p) {
      if p + |u| <= |pre| {
        assert !OccursAt(pre, u, p);
        var j :| 0 <= j < |u| && u[j] != pre[p + j];
        assert s[p + j] == pre[p + j];
      } else if p >= end {
        assert !OccursAt(post, u, p - end);
        var j :| 0 <= j < |u| && u[j] != post[(p - end) + j];
        assert s[p + j] == post[(p - end) + j];
      } else if p < |pre| {
        assert s[p + (|pre| - p)] == r[0];
        assert u[|pre| - p] != r[0];
      } else if p == |pre| {
        assert s[p + 1] == r[1];
        assert u[1] != r[1];
      } else {
        assert s[p + 0] == r[p - |pre|];
        assert u[0] != r[p - |pre|];
      }
    }
  }

  ghost predicate NoLiveTokens(s: string) {
    && !Contains(s, END_SUMMARY) && !Contains(s, SUMMARY) && !Contains(s, END_ANALYSIS)
    && !Contains(s, ANALYSIS) && !Contains(s, END_REQUEST) && !Contains(s, REQUEST)
  }

  lemma {:induction false} NeutralizeClean(s: string)
    ensures NoLiveTokens(Neutralize(s))
    ensures NoLiveTokens(s) ==> Neutralize(s) == s
  {
    ControlTokensTagLike();
    var tags := [END_SUMMARY, SUMMARY, END_ANALYSIS, ANALYSIS, END_REQUEST, REQUEST];
    var s1 := ReplaceAll(s, END_SUMMARY, Defused(END_SUMMARY));
    var s2 := ReplaceAll(s1, SUMMARY, Defused(SUMMARY));
    var s3 := ReplaceAll(s2, END_ANALYSIS, Defused(END_ANALYSIS));
    var s4 := ReplaceAll(s3, ANALYSIS, Defused(ANALYSIS));
    var s5 := ReplaceAll(s4, END_REQUEST, Defused(END_REQUEST));
    hide ReplaceAll, TagLike, Defused, Contains;
    DefuseKeepsAbsent(s, END_SUMMARY, END_SUMMARY);
    DefuseKeepsAbsent(s1, SUMMARY, END_SUMMARY);
    DefuseKeepsAbsent(s1, SUMMARY, SUMMARY);
    DefuseKeepsAbsent(s2, END_ANALYSIS, END_SUMMARY);
    DefuseKeepsAbsent(s2, END_ANALYSIS, SUMMARY);
    DefuseKeepsAbsent(s2, END_ANALYSIS, END_ANALYSIS);
    DefuseKeepsAbsent(s3, ANALYSIS, END_SUMMARY);
    DefuseKeepsAbsent(s3, ANALYSIS, SUMMARY);
    DefuseKeepsAbsent(s3, ANALYSIS, END_ANALYSIS);
    DefuseKeepsAbsent(s3, ANALYSIS, ANALYSIS);
    DefuseKeepsAbsent(s4, END_REQUEST, END_SUMMARY);
    DefuseKeepsAbsent(s4, END_REQUEST, SUMMARY);
    DefuseKeepsAbsent(s4, END_REQUEST, END_ANALYSIS);
    DefuseKeepsAbsent(s4, END_REQUEST, ANALYSIS);
    DefuseKeepsAbsent(s4, END_REQUEST, END_REQUEST);
    DefuseKeepsAbsent(s5, REQUEST, END_SUMMARY);
    DefuseKeepsAbsent(s5, REQUEST, SUMMARY);
    DefuseKeepsAbsent(s5, REQUEST, END_ANALYSIS);
    DefuseKeepsAbsent(s5, REQUEST, ANALYSIS);
    DefuseKeepsAbsent(s5, REQUEST, END_REQUEST);
    DefuseKeepsAbsent(s5, REQUEST, REQUEST);
    if NoLiveTokens(s) {
      ReplaceAbsent(s, END_SUMMARY, Defused(END_SUMMARY));
      ReplaceAbsent(s, SUMMARY, Defused(SUMMARY));
      ReplaceAbsent(s, END_ANALYSIS, Defused(END_ANALYSIS));
      ReplaceAbsent(s, ANALYSIS, Defused(ANALYSIS));
      ReplaceAbsent(s, END_REQUEST, Defused(END_REQUEST));
      ReplaceAbsent(s, REQUEST, Defused(REQUEST));
    }
  }

  lemma {:induction false} CollapseClean(s: string)
    ensures !Contains(CollapseNewlines(s), THREE_NEWLINES)
    ensures !Contains(s, THREE_NEWLINES) ==> CollapseNewlines(s) == s
    decreases |s|
  {
    AbsentNotFound(s, THREE_NEWLINES);
    ReplaceShorter(s, THREE_NEWLINES, TWO_NEWLINES);
    if Find(s, THREE_NEWLINES).Some? {
      CollapseClean(ReplaceAll(s, THREE_NEWLINES, TWO_NEWLINES));
    }
  }

  lemma {:induction false} CollapseKeepsAbsent(s: string, u: string)
    requires TagLike(u) && !Contains(s, u)
    ensures !Contains(CollapseNewlines(s), u)
    decreases |s|
  {
    AbsentNotFound(s, THREE_NEWLINES);
    ReplaceShorter(s, THREE_NEWLINES, TWO_NEWLINES);
    if Find(s, THREE_NEWLINES).Some? {
      assert '\n' !in u;
      ReplaceKeepsAbsent(s, THREE_NEWLINES, TWO_NEWLINES, u);
      CollapseKeepsAbsent(ReplaceAll(s, THREE_NEWLINES, TWO_NEWLINES), u);
    }
  }

  lemma {:induction false} TrimKeepsAbsent(s: string, u: string)
    requires !Contains(s, u)
    ensures !Contains(Trim(s), u)
  {
    var a := TrimStretch(s);
    AbsentInStretch(s, a, a + |Trim(s)|, u);
  }

  lemma {:induction false} FinishKeepsAbsent(s: string, u: string)
    requires TagLike(u) && !Contains(s, u)
    ensures !Contains(Trim(CollapseNewlines(s)), u)
  {
    CollapseKeepsAbsent(s, u);
    TrimKeepsAbsent(CollapseNewlines(s), u);
  }

  /** For every input the cleaned summary holds no live control token and no run of three newlines,
      and has no whitespace at its ends. */
  lemma {:induction false} FormattedIsClean(s: string)
    ensures NoLiveTokens(FormatSummary(s))
    ensures !Contains(FormatSummary(s), THREE_NEWLINES)
    ensures Trimmed(FormatSummary(s))
  {
    var n := Neutralize(Unwrap(DropScratchpads(s)));
    ControlTokensTagLike();
    NeutralizeClean(Unwrap(DropScratchpads(s)));
    hide TagLike, Contains, CollapseNewlines, Neutralize, Unwrap, DropScratchpads, Trim, Trimmed;
    FinishKeepsAbsent(n, END_SUMMARY);
    FinishKeepsAbsent(n, SUMMARY);
    FinishKeepsAbsent(n, END_ANALYSIS);
    FinishKeepsAbsent(n, ANALYSIS);
    FinishKeepsAbsent(n, END_REQUEST);
    FinishKeepsAbsent(n, REQUEST);
    CollapseClean(n);
    TrimKeepsAbsent(CollapseNewlines(n), THREE_NEWLINES);
    TrimmedIff(CollapseNewlines(n));
  }

  /** Cleaning a cleaned summary changes nothing. */
  lemma {:induction false} FormatIdempotent(s: string)
    ensures FormatSummary(FormatSummary(s)) == FormatSummary(s)
  {
    FormattedIsClean(s);
    CleanStays(FormatSummary(s));
  }

  /** A text without live tokens, newline runs and outer whitespace is left exactly as it is. */
  lemma {:induction false} CleanStays(s: string)
    requires NoLiveTokens(s) && !Contains(s, THREE_NEWLINES) && Trimmed(s)
    ensures FormatSummary(s) == s
  {
    hide Contains, CollapseNewlines, Neutralize, Trim, Trimmed;
    AbsentNotFound(s, ANALYSIS);
    AbsentNotFound(s, SUMMARY);
    assert DropScratchpads(s) == s && Unwrap(s) == s;
    NeutralizeClean(s);
    CollapseClean(s);
    TrimmedIff(s);
  }
}
