/** What cleaning keeps of a summary, on plain texts: the drafting goes, the body stays under its
    heading, and finishing only breaks tags, shortens runs of newlines and trims. */
module KeptSummary {
  import opened Options
  import opened Strings
  import opened CompactSummary

  /** The last three steps: defuse, tidy, trim. */
  function Finish(s: string): string {
    Trim(CollapseNewlines(Neutralize(s)))
  }

  // ----- What finishing does -----

  lemma {:induction false} FinishClean(s: string)
    requires NoLiveTokens(s) && !Contains(s, THREE_NEWLINES) && Trimmed(s)
    ensures Finish(s) == s
  {
    hide Contains, CollapseNewlines, Neutralize, Trim, Trimmed, NoLiveTokens;
    NeutralizeClean(s);
    CollapseClean(s);
    TrimmedIff(s);
  }

  /** A text less its sentinels. */
  function Erased(s: string): string {
    if s == "" then "" else (if s[0] == ZERO_WIDTH_SPACE then "" else [s[0]]) + Erased(s[1..])
  }

  lemma {:induction false} ErasedConcat(s: string, t: string)
    ensures Erased(s + t) == Erased(s) + Erased(t)
  {
    if s == "" {
      assert s + t == t;
    } else {
      assert (s + t)[1..] == s[1..] + t;
      ErasedConcat(s[1..], t);
    }
  }

  lemma ErasedCons(c: char, t: string)
    ensures Erased([c] + t) == (if c == ZERO_WIDTH_SPACE then "" else [c]) + Erased(t)
  {
    assert ([c] + t)[1..] == t;
  }

  lemma DefusedIs(t: string)
    requires t != ""
    ensures Defused(t) == [t[0]] + ([ZERO_WIDTH_SPACE] + t[1..]) && t == [t[0]] + t[1..]
  {
  }

  lemma ErasedDefused(t: string)
    requires t != "" && t[0] != ZERO_WIDTH_SPACE
    ensures Erased(Defused(t)) == Erased(t)
  {
    hide Defused, Erased;
    DefusedIs(t);
    ErasedCons(t[0], t[1..]);
    ErasedCons(t[0], [ZERO_WIDTH_SPACE] + t[1..]);
    ErasedCons(ZERO_WIDTH_SPACE, t[1..]);
    assert "" + Erased(t[1..]) == Erased(t[1..]);
  }

  lemma {:induction false} ReplaceErased(s: string, t: string)
    requires t != "" && t[0] != ZERO_WIDTH_SPACE
    ensures Erased(ReplaceAll(s, t, Defused(t))) == Erased(s)
    decreases |s|
  {
    hide Erased, Defused, OccursAt, FindFrom;
    match Find(s, t)
    case None =>
    case Some(i) =>
      InRange(s, t, i);
      var before, behind := s[..i], s[i + |t|..];
      assert s == before + t + behind by { SplitAt(s, t, i); }
      ReplaceErased(behind, t);
      ErasedDefused(t);
      ErasedConcat(before + t, behind);
      ErasedConcat(before, t);
      ErasedConcat(before + Defused(t), ReplaceAll(behind, t, Defused(t)));
      ErasedConcat(before, Defused(t));
  }

  lemma SplitAt(s: string, t: string, i: nat)
    requires OccursAt(s, t, i)
    ensures s == s[..i] + t + s[i + |t|..]
  {
    forall k | 0 <= k < |t| ensures t[k] == s[i..i + |t|][k] {
      assert t[k] == s[i + k];
    }
    assert s[i..i + |t|] == t;
  }

  /** Defusing only puts sentinels in: without them the text is what it was. */
  lemma {:induction false} NeutralizeErased(s: string)
    ensures Erased(Neutralize(s)) == Erased(s)
  {
    hide ReplaceAll, Defused, Erased;
    var s1 := ReplaceAll(s, END_SUMMARY, Defused(END_SUMMARY));
    var s2 := ReplaceAll(s1, SUMMARY, Defused(SUMMARY));
    var s3 := ReplaceAll(s2, END_ANALYSIS, Defused(END_ANALYSIS));
    var s4 := ReplaceAll(s3, ANALYSIS, Defused(ANALYSIS));
    var s5 := ReplaceAll(s4, END_REQUEST, Defused(END_REQUEST));
    ReplaceErased(s, END_SUMMARY);
    ReplaceErased(s1, SUMMARY);
    ReplaceErased(s2, END_ANALYSIS);
    ReplaceErased(s3, ANALYSIS);
    ReplaceErased(s4, END_REQUEST);
    ReplaceErased(s5, REQUEST);
  }

  predicate StartsRun(s: string) {
    |s| >= 3 && s[0] == '\n' && s[1] == '\n' && s[2] == '\n'
  }

  /** Every run of newlines cut to its last two; all else stays. */
  function Tidied(s: string): string {
    if s == "" then "" else (if StartsRun(s) then "" else [s[0]]) + Tidied(s[1..])
  }

  function Newlines(n: nat): (s: string)
    ensures |s| == n && forall i :: 0 <= i < n ==> s[i] == '\n'
  {
    seq(n, _ => '\n')
  }

  /** Newlines in front of two more make no difference. */
  lemma {:induction false} TidiedRun(n: nat, t: string)
    ensures Tidied(Newlines(n) + (TWO_NEWLINES + t)) == Tidied(TWO_NEWLINES + t)
  {
    if n == 0 {
      assert Newlines(0) + (TWO_NEWLINES + t) == TWO_NEWLINES + t;
    } else {
      var s := Newlines(n) + (TWO_NEWLINES + t);
      assert s[1..] == Newlines(n - 1) + (TWO_NEWLINES + t);
      assert StartsRun(s);
      TidiedRun(n - 1, t);
    }
  }

  /** Text that does not end in a newline is tidied apart from what follows it. */
  lemma {:induction false} TidiedApart(s: string, t: string)
    requires s != "" ==> s[|s| - 1] != '\n'
    ensures Tidied(s + t) == Tidied(s) + Tidied(t)
  {
    if s == "" {
      assert s + t == t;
    } else {
      assert (s + t)[1..] == s[1..] + t;
      TidiedApart(s[1..], t);
      assert StartsRun(s + t) == StartsRun(s);
    }
  }

  lemma {:induction false} TidiedNothing(s: string)
    requires !Contains(s, THREE_NEWLINES)
    ensures Tidied(s) == s
  {
    if s != "" {
      AbsentInStretch(s, 1, |s|, THREE_NEWLINES);
      assert s[1..|s|] == s[1..];
      TidiedNothing(s[1..]);
      assert !StartsRun(s) by {
        assert !OccursAt(s, THREE_NEWLINES, 0);
      }
    }
  }

  /** Where the first run of three newlines begins, no newline is right before it. */
  lemma {:induction false} RunBegins(s: string, i: nat)
    requires Find(s, THREE_NEWLINES) == Some(i)
    ensures i + 3 <= |s| && s == s[..i] + (THREE_NEWLINES + s[i + 3..]) && (i > 0 ==> s[i - 1] != '\n')
  {
    InRange(s, THREE_NEWLINES, i);
    SplitAt(s, THREE_NEWLINES, i);
    CharAt(s, THREE_NEWLINES, i, 0);
    CharAt(s, THREE_NEWLINES, i, 1);
    if i > 0 && s[i - 1] == '\n' {
      assert OccursAt(s, THREE_NEWLINES, i - 1);
      assert false;
    }
  }

  /** Replacing the first run, if what follows is as good as before. */
  lemma {:induction false} OneReplaced(n: nat, front: string, rest: string, next: string)
    requires front != "" ==> front[|front| - 1] != '\n'
    requires Tidied(TWO_NEWLINES + rest) == Tidied(TWO_NEWLINES + next)
    ensures Tidied(Newlines(n) + (front + (THREE_NEWLINES + rest))) ==
      Tidied(Newlines(n) + (front + (TWO_NEWLINES + next)))
  {
    hide Tidied, Newlines;
    if front == "" {
      RunTidied(n, rest);
      RunTidied(n, next);
      assert front + (THREE_NEWLINES + rest) == THREE_NEWLINES + rest;
      assert front + (TWO_NEWLINES + next) == TWO_NEWLINES + next;
    } else {
      var p := Newlines(n) + front;
      assert p[|p| - 1] == front[|front| - 1];
      TidiedApart(p, THREE_NEWLINES + rest);
      TidiedApart(p, TWO_NEWLINES + next);
      RunTidied(0, rest);
      NoNewlines(THREE_NEWLINES + rest);
      assert Newlines(n) + (front + (THREE_NEWLINES + rest)) == p + (THREE_NEWLINES + rest);
      assert Newlines(n) + (front + (TWO_NEWLINES + next)) == p + (TWO_NEWLINES + next);
    }
  }

  /** One pass of replacing is invisible once tidied, whatever newlines come before. */
  lemma {:induction false} ReplaceTidied(n: nat, s: string)
    ensures Tidied(Newlines(n) + ReplaceAll(s, THREE_NEWLINES, TWO_NEWLINES)) == Tidied(Newlines(n) + s)
    decreases |s|
  {
    hide OccursAt, FindFrom, Tidied, Newlines;
    match Find(s, THREE_NEWLINES)
    case None =>
    case Some(i) =>
      RunBegins(s, i);
      var front, rest := s[..i], s[i + 3..];
      var next := ReplaceAll(rest, THREE_NEWLINES, TWO_NEWLINES);
      ReplaceTidied(2, rest);
      TwoAre();
      OneReplaced(n, front, rest, next);
      assert front + TWO_NEWLINES + next == front + (TWO_NEWLINES + next);
  }

  lemma TwoAre()
    ensures Newlines(2) == TWO_NEWLINES
  {
  }

  lemma NoNewlines(s: string)
    ensures Newlines(0) + s == s
  {
  }

  lemma RunTidied(n: nat, t: string)
    ensures Tidied(Newlines(n) + (THREE_NEWLINES + t)) == Tidied(TWO_NEWLINES + t)
    ensures Tidied(Newlines(n) + (TWO_NEWLINES + t)) == Tidied(TWO_NEWLINES + t)
  {
    hide Tidied;
    assert Newlines(n) + (THREE_NEWLINES + t) == Newlines(n + 1) + (TWO_NEWLINES + t);
    TidiedRun(n + 1, t);
    TidiedRun(n, t);
  }

  /** Replacing until nothing is left to replace cuts every run of newlines to two and nothing else. */
  lemma {:induction false} CollapseTidies(s: string)
    ensures CollapseNewlines(s) == Tidied(s)
    decreases |s|
  {
    hide Tidied, ReplaceAll, OccursAt;
    AbsentNotFound(s, THREE_NEWLINES);
    ReplaceShorter(s, THREE_NEWLINES, TWO_NEWLINES);
    if Find(s, THREE_NEWLINES).None? {
      TidiedNothing(s);
    } else {
      var next := ReplaceAll(s, THREE_NEWLINES, TWO_NEWLINES);
      CollapseTidies(next);
      ReplaceTidied(0, s);
      NoNewlines(s);
      NoNewlines(next);
    }
  }

  // ----- Where the wrapper and the drafts are found -----

  function Wrapped(front: string, b: string, post: string): string {
    front + (SUMMARY + (b + (END_SUMMARY + post)))
  }

  /** Text that opens neither a summary nor a draft. */
  ghost predicate Unmarked(s: string) {
    !Contains(s, SUMMARY) && !Contains(s, ANALYSIS)
  }

  lemma {:induction false} WrapperFound(front: string, b: string, post: string)
    requires !Contains(front, SUMMARY) && !Contains(post, END_SUMMARY)
    ensures var s, start := Wrapped(front, b, post), |front|; var end := start + |SUMMARY| + |b|;
      && OccursAt(s, SUMMARY, start) && Find(s, SUMMARY) == Some(start)
      && OccursAt(s, END_SUMMARY, end) && RFind(s, END_SUMMARY) == Some(end)
  {
    var s := Wrapped(front, b, post);
    ControlTokensTagLike();
    hide Contains, OccursAt, TagLike;
    FirstTag(front, SUMMARY, b + (END_SUMMARY + post));
    assert s == (front + SUMMARY + b) + (END_SUMMARY + post);
    LastTag(front + SUMMARY + b, END_SUMMARY, post);
  }

  lemma WrapperParts(front: string, t: string, b: string, u: string, post: string)
    ensures var s, start := front + (t + (b + (u + post))), |front|; var end := start + |t| + |b|;
      && s[..start] == front && s[start + |t|..end] == b && s[end + |u|..] == post
  {
  }

  /** A drafting block, and the text in front of it. */
  datatype Draft = Draft(gap: string, text: string)

  function WithDrafts(drafts: seq<Draft>, rest: string): string {
    if drafts == [] then rest
    else drafts[0].gap + (ANALYSIS + (drafts[0].text + (END_ANALYSIS + WithDrafts(drafts[1..], rest))))
  }

  function Gaps(drafts: seq<Draft>): string {
    if drafts == [] then "" else drafts[0].gap + Gaps(drafts[1..])
  }

  ghost predicate AreDrafts(drafts: seq<Draft>) {
    forall k :: 0 <= k < |drafts| ==> !Contains(drafts[k].text, END_ANALYSIS)
  }

  lemma {:induction false} BlankUnmarked(s: string)
    requires Blank(s)
    ensures Unmarked(s) && forall t :: TagLike(t) ==> !Contains(s, t)
  {
    ControlTokensTagLike();
    forall t, i: nat | TagLike(t) && OccursAt(s, t, i) ensures false {
      FirstChar(s, t, i);
    }
  }

  /** Where the block opened behind `front` ends. */
  lemma {:induction false} BlockEnds(front: string, text: string, rest: string)
    requires !Contains(text, END_ANALYSIS)
    ensures var s := front + (ANALYSIS + (text + (END_ANALYSIS + rest)));
      Find(s[|front|..], END_ANALYSIS) == Some(|ANALYSIS| + |text|)
  {
    var s := front + (ANALYSIS + (text + (END_ANALYSIS + rest)));
    ControlTokensTagLike();
    BlankUnmarked("");
    hide Contains, OccursAt, TagLike;
    AbsentAround("", ANALYSIS, text, END_ANALYSIS);
    assert "" + (ANALYSIS + text) == ANALYSIS + text;
    FirstTag(ANALYSIS + text, END_ANALYSIS, rest);
    assert s[|front|..] == (ANALYSIS + text) + (END_ANALYSIS + rest);
  }

  lemma LeadingBefore(s: string, start: nat)
    requires OccursAt(s, ANALYSIS, start)
    requires forall j :: 0 <= j <= start ==> !OccursAt(s, SUMMARY, j)
    requires Blank(s[..start]) || Contains(s, SUMMARY)
    ensures IsLeading(s, start)
  {
    hide OccursAt, FindFrom;
    AbsentNotFound(s, SUMMARY);
  }

  lemma ContainsBehind(front: string, t: string, u: string)
    requires Contains(t, u)
    ensures Contains(front + t, u)
  {
    hide OccursAt;
    var i: nat :| OccursAt(t, u, i);
    OccursShift(front, t, u, i);
  }

  lemma AbsentInFront(front: string, t: string, u: string)
    requires !Contains(front + t, u)
    ensures !Contains(front, u)
  {
    assert (front + t)[0..|front|] == front;
    AbsentInStretch(front + t, 0, |front|, u);
  }

  /** The draft opened behind unmarked text leads, if only white space or a summary is around. */
  lemma {:induction false} DraftLeads(front: string, behind: string)
    requires Unmarked(front) && (Blank(front) || Contains(behind, SUMMARY))
    ensures var s := front + (ANALYSIS + behind);
      OccursAt(s, ANALYSIS, |front|) && Find(s, ANALYSIS) == Some(|front|) && IsLeading(s, |front|)
  {
    var s := front + (ANALYSIS + behind);
    ControlTokensTagLike();
    hide Contains, OccursAt, TagLike, Blank;
    FirstTag(front, ANALYSIS, behind);
    NoneBefore(front, ANALYSIS, behind, SUMMARY);
    assert s[..|front|] == front;
    if Contains(behind, SUMMARY) {
      ContainsBehind(ANALYSIS, behind, SUMMARY);
      ContainsBehind(front, ANALYSIS + behind, SUMMARY);
    }
    LeadingBefore(s, |front|);
  }

  /** A closed draft is taken out. */
  lemma {:induction false} BlockPeeled(front: string, text: string, rest: string)
    requires Unmarked(front) && !Contains(text, END_ANALYSIS) && (Blank(front) || Contains(rest, SUMMARY))
    ensures DropScratchpads(front + (ANALYSIS + (text + (END_ANALYSIS + rest)))) == DropScratchpads(front + rest)
  {
    var s := front + (ANALYSIS + (text + (END_ANALYSIS + rest)));
    hide OccursAt, IsLeading, DropScratchpads, Contains, Blank, TagLike, Unmarked;
    if Contains(rest, SUMMARY) {
      ContainsBehind(END_ANALYSIS, rest, SUMMARY);
      ContainsBehind(text, END_ANALYSIS + rest, SUMMARY);
    }
    DraftLeads(front, text + (END_ANALYSIS + rest));
    BlockEnds(front, text, rest);
    WrapperParts(front, ANALYSIS, text, END_ANALYSIS, rest);
    PeelStep(s);
  }

  lemma {:induction false} UnmarkedInFront(front: string, t: string)
    requires Unmarked(front + t)
    ensures Unmarked(front)
  {
    hide Contains;
    AbsentInFront(front, t, SUMMARY);
    AbsentInFront(front, t, ANALYSIS);
  }

  lemma {:induction false} DraftsContain(drafts: seq<Draft>, rest: string, u: string)
    requires Contains(rest, u)
    ensures Contains(WithDrafts(drafts, rest), u)
  {
    hide Contains;
    if drafts != [] {
      var others := WithDrafts(drafts[1..], rest);
      DraftsContain(drafts[1..], rest, u);
      ContainsBehind(END_ANALYSIS, others, u);
      ContainsBehind(drafts[0].text, END_ANALYSIS + others, u);
      ContainsBehind(ANALYSIS, drafts[0].text + (END_ANALYSIS + others), u);
      ContainsBehind(drafts[0].gap, ANALYSIS + (drafts[0].text + (END_ANALYSIS + others)), u);
    }
  }

  /** Any number of closed drafts in front of a summary are. */
  lemma {:induction false} DraftsPeeled(front: string, drafts: seq<Draft>, rest: string)
    requires AreDrafts(drafts) && Unmarked(front + Gaps(drafts)) && Contains(rest, SUMMARY)
    ensures DropScratchpads(front + WithDrafts(drafts, rest)) == DropScratchpads(front + Gaps(drafts) + rest)
    decreases |drafts|
  {
    hide DropScratchpads, Contains, Unmarked;
    if drafts == [] {
      assert front + Gaps(drafts) == front;
    } else {
      var d, others := drafts[0], WithDrafts(drafts[1..], rest);
      var block := ANALYSIS + (d.text + (END_ANALYSIS + others));
      assert front + (d.gap + block) == front + d.gap + block;
      assert front + d.gap + Gaps(drafts[1..]) == front + Gaps(drafts);
      UnmarkedInFront(front + d.gap, Gaps(drafts[1..]));
      DraftsContain(drafts[1..], rest, SUMMARY);
      BlockPeeled(front + d.gap, d.text, others);
      DraftsPeeled(front + d.gap, drafts[1..], rest);
    }
  }

  // ----- Drafts that open the body -----

  lemma {:induction false} InnerLeads(front: string, gap: string, behind: string)
    requires Unmarked(front) && Blank(gap)
    ensures var start := |front| + |SUMMARY| + |gap|; var s := front + (SUMMARY + gap) + (ANALYSIS + behind);
      OccursAt(s, ANALYSIS, start) && Find(s, ANALYSIS) == Some(start) && IsLeading(s, start)
  {
    var before := front + (SUMMARY + gap);
    var s := before + (ANALYSIS + behind);
    ControlTokensTagLike();
    BlankUnmarked(gap);
    hide Contains, OccursAt, TagLike, Blank, FindFrom;
    AbsentAround(front, SUMMARY, gap, ANALYSIS);
    FirstTag(before, ANALYSIS, behind);
    GapAt(front, SUMMARY, gap, ANALYSIS + behind);
    FirstTag(front, SUMMARY, gap + (ANALYSIS + behind));
  }

  lemma GapAt(front: string, t: string, gap: string, behind: string)
    ensures var s := front + (t + gap) + behind;
      s == front + (t + (gap + behind)) && s[|front| + |t|..|front| + |t| + |gap|] == gap
  {
  }

  lemma {:induction false} InnerPeeled(front: string, gap: string, text: string, rest: string)
    requires Unmarked(front) && Blank(gap) && !Contains(text, END_ANALYSIS)
    ensures DropScratchpads(front + (SUMMARY + gap) + (ANALYSIS + (text + (END_ANALYSIS + rest)))) ==
      DropScratchpads(front + (SUMMARY + gap) + rest)
  {
    var before := front + (SUMMARY + gap);
    var s := before + (ANALYSIS + (text + (END_ANALYSIS + rest)));
    hide OccursAt, IsLeading, DropScratchpads, Contains, Blank, TagLike, Unmarked;
    InnerLeads(front, gap, text + (END_ANALYSIS + rest));
    BlockEnds(before, text, rest);
    WrapperParts(before, ANALYSIS, text, END_ANALYSIS, rest);
    PeelStep(s);
  }

  lemma {:induction false} InnersPeeled(front: string, gap: string, drafts: seq<Draft>, rest: string)
    requires AreDrafts(drafts) && Unmarked(front) && Blank(gap + Gaps(drafts))
    ensures DropScratchpads(front + (SUMMARY + gap) + WithDrafts(drafts, rest)) ==
      DropScratchpads(front + (SUMMARY + (gap + Gaps(drafts))) + rest)
    decreases |drafts|
  {
    hide DropScratchpads, Contains, Unmarked, Blank;
    if drafts == [] {
      assert gap + Gaps(drafts) == gap;
    } else {
      var d, others := drafts[0], WithDrafts(drafts[1..], rest);
      var block := ANALYSIS + (d.text + (END_ANALYSIS + others));
      assert front + (SUMMARY + gap) + (d.gap + block) == front + (SUMMARY + (gap + d.gap)) + block;
      assert gap + d.gap + Gaps(drafts[1..]) == gap + Gaps(drafts);
      BlankConcat(gap + d.gap, Gaps(drafts[1..]));
      InnerPeeled(front, gap + d.gap, d.text, others);
      InnersPeeled(front, gap + d.gap, drafts[1..], rest);
    }
  }

  // ----- A body that opens with something else -----

  lemma FirstVisible(b: string, g: nat)
    requires g < |b| && !IsWhitespace(b[g]) && forall i :: 0 <= i < g ==> IsWhitespace(b[i])
    ensures TrimStart(b) == b[g..]
  {
    hide IsWhitespace, TrimStart;
    var t := TrimStart(b);
    assert t != "" ==> t[0] == b[|b| - |t|];
  }

  /** Between the opening of the summary and any draft there is visible text. */
  lemma {:induction false} NotLeadingIn(front: string, b: string, post: string, start: nat)
    requires Unmarked(front) && !(ANALYSIS <= TrimStart(b))
    requires OccursAt(Wrapped(front, b, post), ANALYSIS, start)
    ensures |front| + |SUMMARY| <= start && !Blank(Wrapped(front, b, post)[|front| + |SUMMARY|..start])
  {
    var s, body := Wrapped(front, b, post), |front| + |SUMMARY|;
    var t := b + (END_SUMMARY + post);
    hide OccursAt, Contains, Blank, TrimStart;
    DraftBehind(front, t, start);
    assert s == (front + SUMMARY) + t;
    OccursShift(front + SUMMARY, t, ANALYSIS, start - body);
    assert s[body..start] == t[..start - body] by { InRange(s, ANALYSIS, start); }
    if Blank(t[..start - body]) {
      DraftInBody(b, post, start - body);
    }
  }

  lemma {:induction false} DraftInBody(b: string, post: string, j: nat)
    requires var t := b + (END_SUMMARY + post); OccursAt(t, ANALYSIS, j) && j <= |t| && Blank(t[..j])
    ensures ANALYSIS <= TrimStart(b)
  {
    var t := b + (END_SUMMARY + post);
    ControlTokensTagLike();
    OccursHere(b, END_SUMMARY, post);
    TagsApart(t, END_SUMMARY, |b|, ANALYSIS, j);
    FirstChar(t, END_SUMMARY, |b|);
    hide OccursAt, TagLike, TrimStart;
    BlankUpTo(t, j, |b|);
    OccursInFront(b, END_SUMMARY + post, ANALYSIS, j);
    assert t[..j] == b[..j];
    VisibleTag(b, ANALYSIS, j);
  }

  lemma BlankUpTo(s: string, j: nat, k: nat)
    requires j <= |s| && Blank(s[..j]) && k < |s| && !IsWhitespace(s[k])
    ensures j <= k
  {
    hide IsWhitespace;
    forall i | 0 <= i < j ensures IsWhitespace(s[i]) {
      assert s[..j][i] == s[i];
    }
  }

  lemma VisibleTag(b: string, t: string, j: nat)
    requires OccursAt(b, t, j) && t != "" && !IsWhitespace(t[0]) && Blank(b[..j])
    ensures t <= TrimStart(b)
  {
    FirstChar(b, t, j);
    BehindIs(b, t, j);
    hide OccursAt, IsWhitespace, TrimStart;
    forall i | 0 <= i < j ensures IsWhitespace(b[i]) {
      assert b[..j][i] == b[i];
    }
    FirstVisible(b, j);
  }

  lemma BehindIs(s: string, t: string, i: nat)
    requires OccursAt(s, t, i)
    ensures i <= |s| && t <= s[i..]
  {
    forall k | 0 <= k < |t| ensures t[k] == s[i..][k] {
      assert t[k] == s[i + k];
    }
  }

  lemma {:induction false} DraftBehind(front: string, behind: string, start: nat)
    requires Unmarked(front) && OccursAt(front + (SUMMARY + behind), ANALYSIS, start)
    ensures |front| + |SUMMARY| <= start
  {
    var s := front + (SUMMARY + behind);
    ControlTokensTagLike();
    hide Contains, OccursAt, TagLike;
    NoneBefore(front, SUMMARY, behind, ANALYSIS);
    OccursHere(front, SUMMARY, behind);
    TagsApart(s, SUMMARY, |front|, ANALYSIS, start);
  }

  /** A tag does not start inside white space in front. */
  lemma NoTagInBlank(gap: string, t: string, tag: string)
    requires Blank(gap) && tag != "" && tag[0] == '<'
    ensures forall j :: 0 <= j < |gap| ==> !OccursAt(gap + t, tag, j)
  {
    hide OccursAt;
    forall j | 0 <= j < |gap| ensures !OccursAt(gap + t, tag, j) {
      if OccursAt(gap + t, tag, j) {
        FirstChar(gap + t, tag, j);
        assert false;
      }
    }
  }

  lemma {:induction false} NothingPeeled(front: string, b: string, post: string)
    requires Unmarked(front) && !Contains(post, END_SUMMARY) && !(ANALYSIS <= TrimStart(b))
    ensures DropScratchpads(Wrapped(front, b, post)) == Wrapped(front, b, post)
  {
    var s := Wrapped(front, b, post);
    WrapperFound(front, b, post) by { assert Unmarked(front); }
    hide OccursAt, Contains, Blank, DropScratchpads, FindFrom, Wrapped, TrimStart;
    PeelStep(s);
    if Find(s, ANALYSIS).Some? {
      NotLeadingIn(front, b, post, Find(s, ANALYSIS).value);
    }
  }

  // ----- What is left of a body -----

  /** The body without the drafting in front: a body that begins with a numbered section has none, and any
      other loses everything up to its last closing analysis tag. */
  ghost predicate IsUndrafted(b: string, y: string) {
    if StartsNumbered(Trim(b)) || !Contains(b, END_ANALYSIS) then y == Trim(b)
    else exists x, z :: b == x + (END_ANALYSIS + z) && !Contains(z, END_ANALYSIS) && y == Trim(z)
  }

  /** That, without a summary tag left in front. */
  ghost predicate IsLeft(b: string, k: string) {
    exists y :: IsUndrafted(b, y) && k == if SUMMARY <= y then TrimStart(y[|SUMMARY|..]) else y
  }

  lemma {:induction false} NumberedFirst(s: string)
    requires StartsNumbered(s)
    ensures s != "" && s[0] != '<'
  {}

  lemma {:induction false} TrimTwice(s: string)
    ensures Trim(Trim(s)) == Trim(s)
  {
    TrimmedIff(s);
    TrimmedIff(Trim(s));
  }

  lemma {:induction false} Undrafted(b: string, y: string)
    requires IsUndrafted(b, y)
    ensures var s := Trim(b);
      y == if StartsNumbered(s) then s
        else match RFind(s, END_ANALYSIS) case Some(pos) => TrimStart(s[pos + |END_ANALYSIS|..]) case None => s
  {
    var s := Trim(b);
    hide StartsNumbered, OccursAt, Contains, RFindFrom, Trim, TrimStart;
    if !StartsNumbered(s) {
      if Contains(b, END_ANALYSIS) {
        var x, z :| b == x + (END_ANALYSIS + z) && !Contains(z, END_ANALYSIS) && y == Trim(z);
        EndVisible();
        LastInTrimmed(x, END_ANALYSIS, z);
      } else {
        TrimKeepsAbsent(b, END_ANALYSIS);
        AbsentNotFound(s, END_ANALYSIS);
      }
    }
  }

  lemma EndVisible()
    ensures TagLike(END_ANALYSIS)
    ensures !IsWhitespace(END_ANALYSIS[0]) && !IsWhitespace(END_ANALYSIS[|END_ANALYSIS| - 1])
  {
  }

  lemma {:induction false} LastInTrimmed(x: string, t: string, z: string)
    requires TagLike(t) && t != "" && !IsWhitespace(t[0]) && !IsWhitespace(t[|t| - 1]) && !Contains(z, t)
    ensures var s := Trim(x + (t + z)); var pos := RFind(s, t);
      pos.Some? && pos.value + |t| <= |s| && TrimStart(s[pos.value + |t|..]) == Trim(z)
  {
    hide Contains, OccursAt, TagLike, Trim, TrimStart, TrimEnd, IsWhitespace, RFind;
    TrimAround(x, t, z);
    TrimEndKeepsAbsent(z, t);
    TrimOrder(z);
    TrimIs(z);
    LastCut(TrimStart(x), t, TrimEnd(z));
  }

  lemma LastCut(front: string, t: string, behind: string)
    requires TagLike(t) && !Contains(behind, t)
    ensures var s := front + (t + behind); var pos := RFind(s, t);
      pos.Some? && pos.value + |t| <= |s| && s[pos.value + |t|..] == behind
  {
    hide Contains, OccursAt, TagLike, RFind;
    LastTag(front, t, behind);
  }

  lemma TrimEndKeepsAbsent(s: string, t: string)
    requires !Contains(s, t)
    ensures !Contains(TrimEnd(s), t)
  {
    hide Contains, TrimEnd, IsWhitespace;
    assert s[0..|TrimEnd(s)|] == TrimEnd(s);
    AbsentInStretch(s, 0, |TrimEnd(s)|, t);
  }

  lemma TrimIs(s: string)
    ensures Trim(s) == TrimEnd(TrimStart(s))
  {
  }

  lemma PrefixOccurs(s: string, t: string)
    ensures OccursAt(s, t, 0) <==> t <= s
  {
    if OccursAt(s, t, 0) {
      SplitAt(s, t, 0);
    }
  }

  lemma {:induction false} LeftIsStripped(b: string, k: string)
    requires IsLeft(b, k)
    ensures StripLeadingScratchpad(Trim(b)) == k
  {
    hide StartsNumbered, Trim, TrimStart, OccursAt, RFindFrom, RFind, IsUndrafted, IsWhitespace;
    var y :| IsUndrafted(b, y) && k == if SUMMARY <= y then TrimStart(y[|SUMMARY|..]) else y;
    Undrafted(b, y);
    TrimTwice(b);
    PrefixOccurs(y, SUMMARY);
  }

  // ----- The wrapper becomes a heading -----

  lemma UnwrapAt(s: string, start: nat, end: nat)
    requires Find(s, SUMMARY) == Some(start) && RFind(s, END_SUMMARY) == Some(end)
    requires start + |SUMMARY| <= end && end + |END_SUMMARY| <= |s|
    ensures Unwrap(s) == s[..start] + "Summary:\n" + StripLeadingScratchpad(Trim(s[start + |SUMMARY|..end])) +
      s[end + |END_SUMMARY|..]
  {
    hide StripLeadingScratchpad, OccursAt, Trim, Find, RFind, TagLike;
  }

  function Headed(front: string, k: string, post: string): string {
    front + ("Summary:\n" + k + post)
  }

  lemma {:induction false} WrapperHeaded(front: string, b: string, k: string, post: string)
    requires !Contains(front, SUMMARY) && !Contains(post, END_SUMMARY) && IsLeft(b, k)
    ensures Unwrap(Wrapped(front, b, post)) == Headed(front, k, post)
  {
    hide StripLeadingScratchpad, OccursAt, Trim, Contains, Find, RFind, Unwrap, IsLeft;
    WrapperFound(front, b, post);
    WrapperParts(front, SUMMARY, b, END_SUMMARY, post);
    LeftIsStripped(b, k);
    UnwrapAt(Wrapped(front, b, post), |front|, |front| + |SUMMARY| + |b|);
    JoinParts(front, "Summary:\n", k, post);
  }

  lemma JoinParts(a: string, b: string, c: string, d: string)
    ensures a + b + c + d == a + (b + c + d)
  {
  }

  // ----- Main results -----

  lemma {:induction false} BlankBehindLeft(gap: string, b: string, k: string)
    requires Blank(gap) && IsLeft(b, k)
    ensures IsLeft(gap + b, k)
  {
    hide StartsNumbered, Contains, OccursAt, TagLike, TrimStart, TrimEnd, IsWhitespace;
    var y :| IsUndrafted(b, y) && k == if SUMMARY <= y then TrimStart(y[|SUMMARY|..]) else y;
    TrimGap(gap, b);
    ControlTokensTagLike();
    if Contains(b, END_ANALYSIS) {
      ContainsBehind(gap, b, END_ANALYSIS);
      if !StartsNumbered(Trim(b)) {
        var x, z :| b == x + (END_ANALYSIS + z) && !Contains(z, END_ANALYSIS) && y == Trim(z);
        assert gap + b == (gap + x) + (END_ANALYSIS + z);
      }
    } else {
      AbsentBehindBlank(gap, b, END_ANALYSIS);
    }
    assert IsUndrafted(gap + b, y);
  }

  lemma {:induction false} TrimGap(gap: string, b: string)
    requires Blank(gap)
    ensures Trim(gap + b) == Trim(b) && TrimStart(gap + b) == TrimStart(b)
  {
    hide IsWhitespace;
    if gap == "" {
      assert gap + b == b;
    } else {
      assert (gap + b)[1..] == gap[1..] + b;
      TrimGap(gap[1..], b);
    }
  }

  lemma {:induction false} AbsentBehindBlank(gap: string, b: string, t: string)
    requires Blank(gap) && TagLike(t) && !Contains(b, t)
    ensures !Contains(gap + b, t)
  {
    TagLength(t);
    NoTagInBlank(gap, b, t);
    hide OccursAt, TagLike, Blank;
    forall j: nat | OccursAt(gap + b, t, j) ensures false {
      InRange(gap + b, t, j);
      OccursShift(gap, b, t, j - |gap|);
    }
  }

  /** The summary behind any number of drafts, with any number more at its beginning, comes out under its
      heading between the text in front and the text behind, with exactly the undrafted body left. */
  lemma {:induction false} SummaryKept(drafts: seq<Draft>, front: string, inner: seq<Draft>, b: string, k: string,
      post: string)
    requires AreDrafts(drafts) && AreDrafts(inner) && Unmarked(Gaps(drafts) + front) && Blank(Gaps(inner))
    requires !Contains(post, END_SUMMARY) && !(ANALYSIS <= TrimStart(b)) && IsLeft(b, k)
    ensures FormatSummary(WithDrafts(drafts, front + (SUMMARY + WithDrafts(inner, b + (END_SUMMARY + post)))))
      == Finish(Headed(Gaps(drafts) + front, k, post))
  {
    var before, body := Gaps(drafts) + front, Gaps(inner) + b;
    hide Contains, TrimStart, Unwrap, Finish, IsLeft, Blank, DropScratchpads;
    AllPeeled(drafts, front, inner, b + (END_SUMMARY + post));
    assert before + (SUMMARY + Gaps(inner)) + (b + (END_SUMMARY + post)) == Wrapped(before, body, post);
    TrimGap(Gaps(inner), b);
    BlankBehindLeft(Gaps(inner), b, k);
    NothingPeeled(before, body, post);
    WrapperHeaded(before, body, k, post);
    assert Finish(Headed(before, k, post)) == Trim(CollapseNewlines(Neutralize(Headed(before, k, post)))) by {
      FinishIs(Headed(before, k, post));
    }
  }

  lemma FinishIs(s: string)
    ensures Finish(s) == Trim(CollapseNewlines(Neutralize(s)))
  {
  }

  lemma {:induction false} AllPeeled(drafts: seq<Draft>, front: string, inner: seq<Draft>, rest: string)
    requires AreDrafts(drafts) && AreDrafts(inner) && Unmarked(Gaps(drafts) + front) && Blank(Gaps(inner))
    ensures DropScratchpads(WithDrafts(drafts, front + (SUMMARY + WithDrafts(inner, rest)))) ==
      DropScratchpads(Gaps(drafts) + front + (SUMMARY + Gaps(inner)) + rest)
  {
    var wrapped := front + (SUMMARY + WithDrafts(inner, rest));
    var before := Gaps(drafts) + front;
    ControlTokensTagLike();
    hide Contains, Unmarked, Blank, DropScratchpads, OccursAt, TagLike;
    SummaryIn(front, WithDrafts(inner, rest));
    UnmarkedInFront(Gaps(drafts), front);
    assert "" + Gaps(drafts) == Gaps(drafts) && "" + WithDrafts(drafts, wrapped) == WithDrafts(drafts, wrapped);
    DraftsPeeled("", drafts, wrapped);
    assert Gaps(drafts) + wrapped == before + (SUMMARY + "") + WithDrafts(inner, rest);
    assert "" + Gaps(inner) == Gaps(inner);
    InnersPeeled(before, "", inner, rest);
  }

  lemma SummaryIn(front: string, behind: string)
    ensures Contains(front + (SUMMARY + behind), SUMMARY)
  {
    OccursHere(front, SUMMARY, behind);
  }

  // ----- White space in front makes no difference -----

  lemma {:induction false} ReplaceBehindNone(front: string, t: string, u: string, r: string)
    requires u != "" && forall i :: 0 <= i < |front| ==> !OccursAt(front + t, u, i)
    ensures ReplaceAll(front + t, u, r) == front + ReplaceAll(t, u, r)
  {
    var s := front + t;
    hide OccursAt, FindFrom;
    FindBehind(front, t, u);
    match Find(t, u)
    case None =>
    case Some(i) =>
      InRange(t, u, i);
      var rest := ReplaceAll(t[i + |u|..], u, r);
      assert s[|front| + i + |u|..] == t[i + |u|..];
      assert s[..|front| + i] == front + t[..i];
      assert front + t[..i] + r + rest == front + (t[..i] + r + rest);
  }

  lemma {:induction false} FindBehind(front: string, t: string, u: string)
    requires forall i :: 0 <= i < |front| ==> !OccursAt(front + t, u, i)
    ensures Find(front + t, u) == match Find(t, u) case None => None case Some(i) => Some(|front| + i)
  {
    var s := front + t;
    hide OccursAt, FindFrom;
    match Find(t, u)
    case Some(i) =>
      OccursShift(front, t, u, i);
      forall j | 0 <= j < |front| + i ensures !OccursAt(s, u, j) {
        if |front| <= j {
          OccursShift(front, t, u, j - |front|);
        }
      }
      FindIs(s, u, |front| + i);
    case None =>
      if Find(s, u).Some? {
        var j := Find(s, u).value;
        InRange(s, u, j);
        OccursShift(front, t, u, j - |front|);
      }
  }

  lemma FirstKept(t: string, u: string, r: string)
    requires t != "" && u != "" && t[0] != u[0]
    ensures ReplaceAll(t, u, r) != "" && ReplaceAll(t, u, r)[0] == t[0]
  {
    hide OccursAt, FindFrom;
    if Find(t, u).Some? {
      FirstChar(t, u, Find(t, u).value);
      InRange(t, u, Find(t, u).value);
    }
  }

  lemma {:induction false} TagBehind(gap: string, t: string, tag: string)
    requires Blank(gap) && t != "" && t[0] != '<' && TagLike(tag)
    ensures var r := Defused(tag);
      && ReplaceAll(gap + t, tag, r) == gap + ReplaceAll(t, tag, r)
      && ReplaceAll(t, tag, r) != "" && ReplaceAll(t, tag, r)[0] == t[0]
  {
    NoTagInBlank(gap, t, tag);
    ReplaceBehindNone(gap, t, tag, Defused(tag));
    FirstKept(t, tag, Defused(tag));
  }

  lemma {:induction false} NeutralizeBehind(gap: string, t: string)
    requires Blank(gap) && t != "" && t[0] != '<'
    ensures Neutralize(gap + t) == gap + Neutralize(t) && Neutralize(t) != "" && Neutralize(t)[0] == t[0]
  {
    ControlTokensTagLike();
    hide ReplaceAll, TagLike, Defused, Blank;
    var t1 := ReplaceAll(t, END_SUMMARY, Defused(END_SUMMARY));
    var t2 := ReplaceAll(t1, SUMMARY, Defused(SUMMARY));
    var t3 := ReplaceAll(t2, END_ANALYSIS, Defused(END_ANALYSIS));
    var t4 := ReplaceAll(t3, ANALYSIS, Defused(ANALYSIS));
    var t5 := ReplaceAll(t4, END_REQUEST, Defused(END_REQUEST));
    TagBehind(gap, t, END_SUMMARY);
    TagBehind(gap, t1, SUMMARY);
    TagBehind(gap, t2, END_ANALYSIS);
    TagBehind(gap, t3, ANALYSIS);
    TagBehind(gap, t4, END_REQUEST);
    TagBehind(gap, t5, REQUEST);
  }

  /** White space in front is tidied to white space. */
  lemma {:induction false} TidiedBehind(gap: string, t: string) returns (left: string)
    requires Blank(gap)
    ensures Blank(left) && Tidied(gap + t) == left + Tidied(t)
  {
    hide IsWhitespace, StartsRun;
    if gap == "" {
      left := "";
      assert gap + t == t && "" + Tidied(t) == Tidied(t);
    } else {
      var rest := TidiedBehind(gap[1..], t);
      assert (gap + t)[1..] == gap[1..] + t;
      left := (if StartsRun(gap + t) then "" else [gap[0]]) + rest;
    }
  }

  lemma {:induction false} CollapseBehind(gap: string, t: string)
    requires Blank(gap)
    ensures Trim(CollapseNewlines(gap + t)) == Trim(CollapseNewlines(t))
  {
    hide Trim, CollapseNewlines, Tidied, Blank;
    CollapseTidies(gap + t);
    CollapseTidies(t);
    var left := TidiedBehind(gap, t);
    TrimGap(left, Tidied(t));
  }

  lemma {:induction false} BlankFrontGone(front: string, k: string, post: string)
    requires Blank(front)
    ensures Finish(Headed(front, k, post)) == Finish("Summary:\n" + k + post)
  {
    var plain := "Summary:\n" + k + post;
    assert plain[0] == 'S';
    hide Trim, CollapseNewlines, Neutralize, Blank, IsWhitespace;
    NeutralizeBehind(front, plain);
    CollapseBehind(front, Neutralize(plain));
  }

  // ----- The laws on plain texts -----

  /** What finishing leaves alone. */
  ghost predicate IsClean(b: string) {
    b != "" && Trimmed(b) && NoLiveTokens(b) && !Contains(b, THREE_NEWLINES)
  }

  lemma {:induction false} NoAngleFront(front: string, b: string, t: string)
    requires '<' !in front && TagLike(t) && !Contains(b, t)
    ensures !Contains(front + b, t)
  {
    TagLength(t);
    assert t[0] == '<' by { assert TagLike(t); }
    hide TagLike;
    forall j: nat | OccursAt(front + b, t, j) ensures false {
      FirstChar(front + b, t, j);
      OccursShift(front, b, t, j - |front|);
    }
  }

  lemma {:induction false} NoRunFront(b: string)
    requires b != "" && b[0] != '\n' && !Contains(b, THREE_NEWLINES)
    ensures !Contains("Summary:\n" + b, THREE_NEWLINES)
  {
    var front := "Summary:\n";
    forall j: nat | OccursAt(front + b, THREE_NEWLINES, j) ensures false {
      CharAt(front + b, THREE_NEWLINES, j, 0);
      CharAt(front + b, THREE_NEWLINES, j, 1);
      OccursShift(front, b, THREE_NEWLINES, j - |front|);
    }
  }

  lemma {:induction false} HeadedClean(b: string)
    requires IsClean(b)
    ensures Finish(Headed("", b, "")) == "Summary:\n" + b
  {
    var s := "Summary:\n" + b;
    assert Headed("", b, "") == s;
    ControlTokensTagLike();
    assert '<' !in "Summary:\n" && s[0] == 'S' && s[|s| - 1] == b[|b| - 1];
    hide Contains, TagLike;
    NoRunFront(b);
    NoAngleFront("Summary:\n", b, END_SUMMARY);
    NoAngleFront("Summary:\n", b, SUMMARY);
    NoAngleFront("Summary:\n", b, END_ANALYSIS);
    NoAngleFront("Summary:\n", b, ANALYSIS);
    NoAngleFront("Summary:\n", b, END_REQUEST);
    NoAngleFront("Summary:\n", b, REQUEST);
    hide Finish;
    FinishClean(s);
  }

  lemma {:induction false} CleanFacts(b: string)
    requires IsClean(b)
    ensures Trim(b) == b && TrimStart(b) == b && !(SUMMARY <= b) && !(ANALYSIS <= b)
    ensures !Contains(b, END_ANALYSIS)
  {
    TrimmedIff(b);
    PrefixOccurs(b, SUMMARY);
    PrefixOccurs(b, ANALYSIS);
    hide OccursAt;
  }

  /** A clean body, numbered or not, is exactly what comes out under the heading. */
  lemma {:induction false} PlainSummaryKept(b: string)
    requires IsClean(b)
    ensures FormatSummary(SUMMARY + b + END_SUMMARY) == "Summary:\n" + b
  {
    CleanFacts(b);
    HeadedClean(b);
    hide Trim, TrimStart, Trimmed, NoLiveTokens, Finish, FormatSummary, StartsNumbered;
    assert IsUndrafted(b, b);
    hide IsUndrafted;
    BareWrapper(b, b);
  }

  /** A wrapper with nothing around it. */
  lemma {:induction false} BareWrapper(b: string, k: string)
    requires !(ANALYSIS <= TrimStart(b)) && IsLeft(b, k)
    ensures FormatSummary(SUMMARY + b + END_SUMMARY) == Finish(Headed("", k, ""))
  {
    BlankUnmarked("");
    ControlTokensTagLike();
    hide TrimStart, IsLeft, Finish, FormatSummary, TagLike, Contains, Unmarked, Blank, Headed;
    NoDrafts(b);
    SummaryKept([], "", [], b, k, "");
  }

  lemma NoDrafts(b: string)
    ensures WithDrafts([], "" + (SUMMARY + WithDrafts([], b + (END_SUMMARY + "")))) == SUMMARY + b + END_SUMMARY
    ensures Gaps([]) + "" == "" && Gaps([]) == "" && Blank("") && AreDrafts([])
  {
  }

  lemma {:induction false} UndraftedFront(x: string, z: string)
    requires !(ANALYSIS <= TrimStart(x))
    ensures !(ANALYSIS <= TrimStart(x + (END_ANALYSIS + z)))
  {
    EndVisible();
    TrimStartFront(x, END_ANALYSIS + z);
    if ANALYSIS <= TrimStart(x) + (END_ANALYSIS + z) {
      TagInFront(TrimStart(x), z);
    }
  }

  lemma {:induction false} TagInFront(front: string, z: string)
    requires ANALYSIS <= front + (END_ANALYSIS + z)
    ensures ANALYSIS <= front
  {
    var s := front + (END_ANALYSIS + z);
    ControlTokensTagLike();
    hide TagLike, OccursAt;
    PrefixOccurs(s, ANALYSIS);
    OccursHere(front, END_ANALYSIS, z);
    TagsApart(s, END_ANALYSIS, |front|, ANALYSIS, 0);
    OccursInFront(front, END_ANALYSIS + z, ANALYSIS, 0);
    PrefixOccurs(front, ANALYSIS);
  }

  /** Drafting without an opening tag goes up to the last closing one, and exactly the clean text behind it
      is left; only a body that begins with a numbered section is spared. */
  lemma {:induction false} DraftInBodyCut(x: string, b: string)
    requires IsClean(b) && !(ANALYSIS <= TrimStart(x)) && !StartsNumbered(Trim(x + (END_ANALYSIS + b)))
    ensures FormatSummary(SUMMARY + (x + (END_ANALYSIS + b)) + END_SUMMARY) == "Summary:\n" + b
  {
    var body := x + (END_ANALYSIS + b);
    CleanFacts(b);
    HeadedClean(b);
    UndraftedFront(x, b);
    ControlTokensTagLike();
    hide Trim, TrimStart, Trimmed, NoLiveTokens, Finish, FormatSummary, StartsNumbered, TagLike, OccursAt;
    OccursHere(x, END_ANALYSIS, b);
    assert Contains(body, END_ANALYSIS);
    assert IsUndrafted(body, b);
    hide IsUndrafted;
    BareWrapper(body, b);
  }

  /** A draft that is never closed goes up to the summary behind it, whose own body is left as ever. */
  lemma {:induction false} UnclosedDraft(front: string, x: string, b: string, k: string, post: string)
    requires Unmarked(front) && !Contains(x, SUMMARY) && !Contains(x + Wrapped("", b, post), END_ANALYSIS)
    requires !Contains(post, END_SUMMARY) && IsLeft(b, k)
    ensures FormatSummary(front + (ANALYSIS + (x + Wrapped("", b, post)))) == Finish(Headed(front, k, post))
  {
    var behind := b + (END_SUMMARY + post);
    assert !Contains(front, SUMMARY);
    hide Contains, IsLeft, Finish, Unwrap, DropScratchpads, Unmarked;
    assert Wrapped("", b, post) == SUMMARY + behind;
    SummaryIn(x, behind);
    UnclosedDropped(front, x, SUMMARY + behind);
    assert front + (SUMMARY + behind) == Wrapped(front, b, post);
    WrapperHeaded(front, b, k, post);
    FinishIs(Headed(front, k, post));
  }

  lemma {:induction false} UnclosedDropped(front: string, x: string, rest: string)
    requires Unmarked(front) && !Contains(x, SUMMARY) && !Contains(x + rest, END_ANALYSIS)
    requires SUMMARY <= rest || (rest == "" && Blank(front))
    ensures DropScratchpads(front + (ANALYSIS + (x + rest))) == front + rest
  {
    var s := front + (ANALYSIS + (x + rest));
    hide Contains, OccursAt, TagLike, IsLeading, DropScratchpads, Blank, DropTo, Unmarked, FindFrom;
    if SUMMARY <= rest {
      assert rest == SUMMARY + rest[|SUMMARY|..];
      SummaryIn(x, rest[|SUMMARY|..]);
    }
    DraftLeads(front, x + rest);
    assert s[..|front|] == front && s[|front|..] == ANALYSIS + (x + rest);
    NoOther(x + rest, END_ANALYSIS);
    AbsentNotFound(s[|front|..], END_ANALYSIS);
    PeelStep(s);
    NoOther(x, SUMMARY);
    assert s == front + ((ANALYSIS + x) + rest);
    DroppedTo(s, front, ANALYSIS + x, rest);
  }

  lemma {:induction false} NoOther(x: string, t: string)
    requires t == SUMMARY || t == END_ANALYSIS
    requires !Contains(x, t)
    ensures !Contains(ANALYSIS + x, t)
  {
    ControlTokensTagLike();
    BlankUnmarked("");
    hide Contains, TagLike;
    AbsentAround("", ANALYSIS, x, t);
    assert "" + (ANALYSIS + x) == ANALYSIS + x;
  }

  lemma {:induction false} DroppedTo(s: string, front: string, draft: string, rest: string)
    requires s == front + (draft + rest) && !Contains(draft, SUMMARY) && (SUMMARY <= rest || rest == "")
    ensures s[DropTo(s, |front|)..] == rest
  {
    ControlTokensTagLike();
    hide Contains, OccursAt, TagLike, FindFrom;
    assert s[|front|..] == draft + rest;
    if rest == "" {
      assert draft + rest == draft;
      AbsentNotFound(draft, SUMMARY);
    } else {
      assert rest == SUMMARY + rest[|SUMMARY|..];
      FirstTag(draft, SUMMARY, rest[|SUMMARY|..]);
    }
  }

  lemma {:induction false} TidiedBlank(s: string)
    requires Blank(s)
    ensures Blank(Tidied(s))
  {
    hide IsWhitespace;
    if s != "" {
      TidiedBlank(s[1..]);
    }
  }

  /** Where no summary follows it, nothing is left. */
  lemma {:induction false} UnclosedDraftAlone(front: string, x: string)
    requires Blank(front) && !Contains(x, SUMMARY) && !Contains(x, END_ANALYSIS)
    ensures FormatSummary(front + (ANALYSIS + x)) == ""
  {
    BlankUnmarked(front);
    ControlTokensTagLike();
    hide Contains, TagLike, Blank, DropScratchpads, CollapseNewlines, Tidied, Trim, Neutralize, Find;
    assert x + "" == x && front + "" == front;
    UnclosedDropped(front, x, "");
    NeutralizeClean(front);
    AbsentNotFound(front, SUMMARY);
    CollapseTidies(front);
    TidiedBlank(front);
    TrimmedIff(Tidied(front));
  }

  /** Text without drafts and without a whole wrapper is only finished. */
  lemma {:induction false} UnwrappedKept(s: string)
    requires !Contains(s, ANALYSIS)
    requires forall i: nat, j: nat :: OccursAt(s, SUMMARY, i) && OccursAt(s, END_SUMMARY, j) ==> j <= i
    ensures FormatSummary(s) == Finish(s)
  {
    AbsentNotFound(s, ANALYSIS);
    hide OccursAt, FindFrom, RFindFrom, Trim, CollapseNewlines, Neutralize, StripLeadingScratchpad;
    assert DropScratchpads(s) == s;
    assert Unwrap(s) == s;
  }

  /** A wrapped summary that begins with a numbered section is never cut, whatever drafting blocks come
      before it and whatever tags it or the text behind it quotes: all of it is kept, defused and
      tidied, and nothing of the drafts is left. */
  lemma {:induction false} NumberedSummaryKept(drafts: seq<Draft>, gap: string, b: string, post: string)
    requires AreDrafts(drafts) && Blank(Gaps(drafts) + gap)
    requires StartsNumbered(Trim(b)) && !Contains(post, END_SUMMARY)
    ensures FormatSummary(WithDrafts(drafts, Wrapped(gap, b, post))) == Finish("Summary:\n" + Trim(b) + post)
  {
    var front := Gaps(drafts) + gap;
    BlankUnmarked(front);
    NumberedOpening(b);
    hide Contains, StartsNumbered, Trim, TrimStart, Finish, FormatSummary, TagLike, Blank;
    assert IsUndrafted(b, Trim(b));
    hide IsUndrafted;
    assert Wrapped(gap, b, post) == gap + (SUMMARY + WithDrafts([], b + (END_SUMMARY + post)));
    SummaryKept(drafts, gap, [], b, Trim(b), post) by { assert Blank(Gaps([])) by { NothingBlank(); } }
    BlankFrontGone(front, Trim(b), post);
  }

  lemma NothingBlank()
    ensures Blank("")
  {
  }

  lemma {:induction false} NumberedOpening(b: string)
    requires StartsNumbered(Trim(b))
    ensures !(SUMMARY <= Trim(b)) && !(ANALYSIS <= TrimStart(b))
  {
    NumberedFirst(Trim(b));
    hide StartsNumbered, TrimStart, TrimEnd, IsWhitespace;
    TrimIs(b);
    assert Trim(b)[0] == TrimStart(b)[0];
  }

  /** What "begins with a numbered section" means: a digit behind nothing but decoration. */
  lemma {:induction false} StartsNumberedIff(s: string)
    ensures StartsNumbered(s) <==>
      exists k :: 0 <= k < |s| && '0' <= s[k] <= '9' && forall i :: 0 <= i < k ==> IsDecoration(s[i])
  {
    if s != "" {
      if IsDecoration(s[0]) {
        StartsNumberedIff(s[1..]);
        if k :| 0 <= k < |s[1..]| && '0' <= s[1..][k] <= '9' && forall i :: 0 <= i < k ==> IsDecoration(s[1..][i]) {
          assert forall i :: 0 < i < k + 1 ==> s[i] == s[1..][i - 1];
          assert '0' <= s[k + 1] <= '9';
        }
        if k :| 0 <= k < |s| && '0' <= s[k] <= '9' && forall i :: 0 <= i < k ==> IsDecoration(s[i]) {
          assert forall i :: 0 <= i < k - 1 ==> s[1..][i] == s[i + 1];
          assert '0' <= s[1..][k - 1] <= '9';
        }
      } else {
        assert !IsDecoration(s[0]);
      }
    }
  }
}
