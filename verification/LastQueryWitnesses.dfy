/** Conversations whose last user query does not survive a second compaction. */
module LastQueryWitnesses {
  import opened Options
  import opened Strings
  import opened Conversations
  import opened CompactedHistory

  /** What a compaction of the conversation keeps of it. */
  function ContextOf(s: seq<Item>): StateContext {
    StateContext(0, None, RecentMessages(s), LastRealUserQuery(s))
  }

  lemma LastTyped(item: Item)
    requires IsRealUserTurn(item)
    ensures LastRealUserQuery([item]) == Some(UserQuery(item.parts))
  {
    hide IsRealUserTurn, UserQuery;
  }

  // ----- A prompt that is only an image -----

  lemma EmptyQuery()
    ensures ExtractUserQuery("") == "" && ExtractUserQuery(WrapUserQuery("")) == ""
  {
    assert Find("", QUERY_OPEN).None?;
    hide StripTags, WrapUserQuery;
    TrimmedIff(StripTags(SYSTEM_TAGS, ""));
    hide ExtractUserQuery, Trim;
    ReadBack("");
    assert !Contains("", QUERY_CLOSE);
  }

  lemma ImagePrompt(item: Item)
    requires item == User([Image("image")], None)
    ensures IsRealUserTurn(item) && UserQuery(item.parts) == ""
  {
    EmptyQuery();
    hide ExtractUserQuery, IsSyntheticQuery;
    assert item.parts[0] in item.parts && item.parts[1..] == [];
    assert Texts(item.parts) == [];
  }

  /** The query of an image prompt is the empty text, which the next compaction takes for none. */
  lemma ImagePromptForgotten(text: string, input: HistoryInput)
    requires input.systemMessage.System?
    ensures var s := [User([Image("image")], None)];
      LastRealUserQuery(s) == Some("") && LastRealUserQuery(HistoryWith(text, input, ContextOf(s))) == None
  {
    var item := User([Image("image")], None);
    ImagePrompt(item);
    EmptyQuery();
    LastTyped(item);
    assert IsSyntheticQuery("");
    hide *;
    ContextIs([item]);
    RebuiltQuery([item], text, input, ContextOf([item]));
  }

  lemma ContextIs(s: seq<Item>)
    ensures ContextOf(s).recentMessages == RecentMessages(s) && ContextOf(s).lastUserQuery == LastRealUserQuery(s)
  {
  }

  // ----- A block that stripping another tag puts together -----

  const HEAD := "<user_info"
  const INNER := "<git_status>"
  const END_INNER := "</git_status>"
  const REST := ">x</user_info>"

  function Nested(): string { HEAD + (INNER + (END_INNER + REST)) }

  function Joined(): string { HEAD + REST }

  lemma PieceAngles(i: nat)
    ensures i < |HEAD| && HEAD[i] == '<' ==> i == 0
    ensures i < |INNER| && INNER[i] == '<' ==> i == 0
    ensures i < |END_INNER| && END_INNER[i] == '<' ==> i == 0
    ensures i < |REST| && REST[i] == '<' ==> i == 2
  {
  }

  lemma NestedAngles(i: nat)
    requires i < |Nested()| && Nested()[i] == '<'
    ensures i == 0 || i == 10 || i == 22 || i == 37
    ensures i > 0 ==> i + 1 < |Nested()| && Nested()[i + 1] in {'g', '/'}
  {
    var a, b, c := |HEAD|, |HEAD| + |INNER|, |HEAD| + |INNER| + |END_INNER|;
    PieceAngles(i);
    PieceAngles(if i < a then 0 else i - a);
    PieceAngles(if i < b then 0 else i - b);
    PieceAngles(if i < c then 0 else i - c);
  }

  lemma JoinedAngles(i: nat)
    requires i < |Joined()| && Joined()[i] == '<'
    ensures i == 0 || i == 12
    ensures i > 0 ==> i + 1 < |Joined()| && Joined()[i + 1] == '/'
  {
    PieceAngles(i);
    PieceAngles(if i < |HEAD| then 0 else i - |HEAD|);
  }

  lemma NotInNested(u: string, k: nat)
    requires |u| >= 2 && u[0] == '<' && u[1] !in {'g', '/'} && k < |u| && k < |Nested()| && u[k] != Nested()[k]
    ensures !Contains(Nested(), u)
  {
    hide Nested, OccursAt;
    forall i: nat ensures !OccursAt(Nested(), u, i) {
      if OccursAt(Nested(), u, i) {
        FirstChar(Nested(), u, i);
        NestedAngles(i);
        CharAt(Nested(), u, i, 1);
        CharAt(Nested(), u, i, k);
        assert false;
      }
    }
  }

  lemma NotInJoined(u: string, k: nat)
    requires |u| >= 2 && u[0] == '<' && u[1] != '/' && k < |u| && k < |Joined()| && u[k] != Joined()[k]
    ensures !Contains(Joined(), u)
  {
    hide Joined, OccursAt;
    forall i: nat ensures !OccursAt(Joined(), u, i) {
      if OccursAt(Joined(), u, i) {
        FirstChar(Joined(), u, i);
        JoinedAngles(i);
        CharAt(Joined(), u, i, 1);
        CharAt(Joined(), u, i, k);
        assert false;
      }
    }
  }

  lemma StripAbsent(tag: string, s: string)
    requires !Contains(s, Open(tag))
    ensures StripTag(tag, s) == s && !HasBlock(tag, s)
  {
    AbsentNotFound(s, Open(tag));
  }

  lemma {:induction false} NoBlocksIn(tags: seq<string>)
    requires forall k :: 0 <= k < |tags| ==> tags[k] != "" && tags[k][0] !in {'u', '/'}
    ensures !HasAnyBlock(tags, Joined())
  {
    if tags != [] {
      assert Joined()[1] == 'u';
      NotInJoined(Open(tags[0]), 1);
      StripAbsent(tags[0], Joined());
      NoBlocksIn(tags[1..]);
    }
  }

  lemma InnerFound()
    ensures Find(Nested(), INNER) == Some(|HEAD|)
    ensures Find(INNER + (END_INNER + REST), END_INNER) == Some(|INNER|)
  {
    var block := INNER + (END_INNER + REST);
    assert Nested()[1] == 'u' && block[1] == 'g';
    OccursHere(HEAD, INNER, END_INNER + REST);
    OccursHere(INNER, END_INNER, REST);
    forall j | 0 <= j < |HEAD| ensures !OccursAt(Nested(), INNER, j) {
      NotAtAll(Nested(), INNER, j);
    }
    forall j | 0 <= j < |INNER| ensures !OccursAt(block, END_INNER, j) {
      NotAtAll(block, END_INNER, j);
    }
    FindIs(Nested(), INNER, |HEAD|);
    FindIs(block, END_INNER, |INNER|);
  }

  /** In front of the inner block, and inside its opening tag, no other tag starts. */
  lemma NotAtAll(s: string, tag: string, j: nat)
    requires (s == Nested() && tag == INNER && j < |HEAD|) ||
      (s == INNER + (END_INNER + REST) && tag == END_INNER && j < |INNER|)
    ensures !OccursAt(s, tag, j)
  {
    PieceAngles(j);
    if OccursAt(s, tag, j) {
      FirstChar(s, tag, j);
      CharAt(s, tag, j, 1);
    }
  }

  lemma StripAt(tag: string, s: string, start: nat, rel: nat)
    requires Find(s, Open(tag)) == Some(start) && start <= |s| && Find(s[start..], Close(tag)) == Some(rel)
    requires start + rel + |Close(tag)| <= |s|
    ensures StripTag(tag, s) == StripTag(tag, s[..start] + s[start + rel + |Close(tag)|..])
  {
    hide Find, Open, Close;
  }

  lemma NestedParts()
    ensures var block, n := INNER + (END_INNER + REST), |HEAD|;
      && Nested()[n..] == block && Nested()[..n] == HEAD && Nested()[n + |INNER| + |END_INNER|..] == REST
      && n + |INNER| + |END_INNER| <= |Nested()|
  {
  }

  lemma StripInner()
    ensures StripTag("git_status", Nested()) == Joined()
  {
    assert Open("git_status") == INNER && Close("git_status") == END_INNER;
    assert Joined()[1] == 'u';
    NotInJoined(INNER, 1);
    StripAbsent("git_status", Joined());
    NestedParts();
    InnerFound();
    hide Find, Nested, StripTag, Open, Close;
    StripAt("git_status", Nested(), |HEAD|, |INNER|);
  }

  lemma StripThree(tags: seq<string>, s: string)
    requires |tags| >= 3
    ensures StripTags(tags, s) == StripTags(tags[3..], StripTag(tags[2], StripTag(tags[1], StripTag(tags[0], s))))
  {
    hide StripTag;
    var a := StripTag(tags[0], s);
    var b := StripTag(tags[1], a);
    assert StripTags(tags, s) == StripTags(tags[1..], a);
    assert tags[1..][0] == tags[1] && tags[1..][1..] == tags[2..];
    assert StripTags(tags[1..], a) == StripTags(tags[2..], b);
    assert tags[2..][0] == tags[2] && tags[2..][1..] == tags[3..];
  }

  lemma UnstrippedEarlier()
    ensures StripTag("user_info", Nested()) == Nested() && StripTag("project_layout", Nested()) == Nested()
  {
    assert Nested()[1] == 'u' && Nested()[10] == '<';
    NotInNested(Open("user_info"), 10);
    NotInNested(Open("project_layout"), 1);
    hide Nested, StripTag;
    StripAbsent("user_info", Nested());
    StripAbsent("project_layout", Nested());
  }

  lemma UnstrippedLater()
    ensures StripTags(SYSTEM_TAGS[3..], Joined()) == Joined()
  {
    hide StripTags, Joined;
    NoBlocksIn(SYSTEM_TAGS[3..]);
    StripTagsIff(SYSTEM_TAGS[3..], Joined());
  }

  lemma StrippedNested()
    ensures StripTags(SYSTEM_TAGS, Nested()) == Joined()
  {
    assert SYSTEM_TAGS[0] == "user_info" && SYSTEM_TAGS[1] == "project_layout" && SYSTEM_TAGS[2] == "git_status";
    hide StripTags, StripTag, Nested, Joined;
    UnstrippedEarlier();
    StripInner();
    UnstrippedLater();
    StripThree(SYSTEM_TAGS, Nested());
  }

  lemma UntaggedQuery(text: string)
    requires !Contains(text, QUERY_OPEN)
    ensures ExtractUserQuery(text) == StripSystemTags(text)
  {
    AbsentNotFound(text, QUERY_OPEN);
    hide Find, StripSystemTags;
  }

  lemma JoinedIsPlain()
    ensures Trimmed(Joined()) && !IsSyntheticQuery(Joined())
  {
    assert Joined()[0] == '<' && Joined()[|Joined()| - 1] == '>' && |Joined()| == 24;
    hide Joined;
    assert |"__auto_continue__"| < 24 < |AUTO_CONTINUE_PROMPT|;
  }

  lemma NoOpenQuery()
    ensures !Contains(Nested(), QUERY_OPEN)
  {
    assert Nested()[6] == 'i';
    NotInNested(QUERY_OPEN, 6);
  }

  lemma NestedQuery()
    ensures ExtractUserQuery(Nested()) == Joined() && !IsSyntheticQuery(Joined())
  {
    hide StripTags, Nested, Joined, Find, Trim, Trimmed, ExtractUserQuery, IsSyntheticQuery, Contains;
    JoinedIsPlain();
    TrimmedIff(Joined());
    StrippedNested();
    NoOpenQuery();
    UntaggedQuery(Nested());
  }

  lemma JoinedHasBlock()
    ensures HasAnyBlock(SYSTEM_TAGS, Joined())
  {
    var open, close := Open("user_info"), Close("user_info");
    assert Joined() == "" + (open + ("x" + close)) && Joined() == (open + "x") + (close + "");
    OccursHere("", open, "x" + close);
    OccursHere(open + "x", close, "");
    FindIs(Joined(), open, 0);
    assert Joined()[0..] == Joined();
    AbsentNotFound(Joined(), close);
  }

  /** A prompt that quotes one system block inside the opening tag of another: stripping the inner one
      completes the outer one, which the next compaction strips. */
  lemma NestedBlockForgotten(text: string, input: HistoryInput)
    requires input.systemMessage.System?
    ensures var s := [User([Text(Nested())], None)];
      LastRealUserQuery(s) == Some(Joined()) &&
        LastRealUserQuery(HistoryWith(text, input, ContextOf(s))) != Some(Joined())
  {
    var item := Typed(Nested());
    NestedQuery();
    TypedQuery(Nested());
    LastTyped(item);
    JoinedHasBlock();
    assert item == User([Text(Nested())], None);
    hide *;
    ContextIs([item]);
    LastQueryStableIff([item], text, input, ContextOf([item]));
  }

  // ----- A closing query tag in the prompt -----

  const CLOSING := "a</user_query>b"

  lemma ClosingAngles(i: nat)
    requires i < |CLOSING| && CLOSING[i] == '<'
    ensures i + 1 < |CLOSING| && CLOSING[i + 1] == '/'
  {
  }

  lemma NotInClosing(u: string)
    requires |u| >= 2 && u[0] == '<' && u[1] != '/'
    ensures !Contains(CLOSING, u)
  {
    hide OccursAt;
    forall i: nat ensures !OccursAt(CLOSING, u, i) {
      if OccursAt(CLOSING, u, i) {
        FirstChar(CLOSING, u, i);
        CharAt(CLOSING, u, i, 1);
        ClosingAngles(i);
        assert false;
      }
    }
  }

  lemma {:induction false} NoBlocksInClosing(tags: seq<string>)
    requires forall k :: 0 <= k < |tags| ==> tags[k] != "" && tags[k][0] != '/'
    ensures !HasAnyBlock(tags, CLOSING)
  {
    if tags != [] {
      NotInClosing(Open(tags[0]));
      StripAbsent(tags[0], CLOSING);
      NoBlocksInClosing(tags[1..]);
    }
  }

  lemma ClosingIsPlain()
    ensures Trimmed(CLOSING) && !IsSyntheticQuery(CLOSING)
  {
    assert CLOSING[0] == 'a' && CLOSING[|CLOSING| - 1] == 'b' && |CLOSING| == 15;
    assert 15 < |"__auto_continue__"| && 15 < |AUTO_CONTINUE_PROMPT|;
  }

  lemma ClosingHasTag()
    ensures Contains(CLOSING, QUERY_CLOSE)
  {
    assert CLOSING == "a" + (QUERY_CLOSE + "b");
    hide OccursAt;
    OccursHere("a", QUERY_CLOSE, "b");
  }

  lemma ClosingStripped()
    ensures StripTags(SYSTEM_TAGS, CLOSING) == CLOSING
  {
    hide StripTags, StripTag, HasAnyBlock, HasBlock, Find, OccursAt;
    NoBlocksInClosing(SYSTEM_TAGS);
    StripTagsIff(SYSTEM_TAGS, CLOSING);
  }

  lemma ClosingQuery()
    ensures ExtractUserQuery(CLOSING) == CLOSING
  {
    hide StripTags, Find, Trim, Trimmed, ExtractUserQuery, Contains, IsSyntheticQuery;
    NotInClosing(QUERY_OPEN);
    ClosingStripped();
    ClosingIsPlain();
    TrimmedIff(CLOSING);
    UntaggedQuery(CLOSING);
  }

  /** A prompt that quotes the closing query tag: wrapped and read back, it ends there. */
  lemma ClosingTagForgotten(text: string, input: HistoryInput)
    requires input.systemMessage.System?
    ensures var s := [User([Text("a</user_query>b")], None)];
      LastRealUserQuery(s) == Some("a</user_query>b") &&
        LastRealUserQuery(HistoryWith(text, input, ContextOf(s))) != Some("a</user_query>b")
  {
    var item := Typed(CLOSING);
    ClosingQuery();
    ClosingIsPlain();
    ClosingHasTag();
    TypedQuery(CLOSING);
    LastTyped(item);
    assert item == User([Text(CLOSING)], None);
    hide *;
    ContextIs([item]);
    LastQueryStableIff([item], text, input, ContextOf([item]));
  }
}
