/** Searching, replacing and trimming text: the library operations the tag cleaning is built on. */
module Strings {
  import opened Options

  predicate OccursAt(s: string, t: string, i: nat) {
    i + |t| <= |s| && forall k :: 0 <= k < |t| ==> t[k] == s[i + k]
  }

  ghost predicate Contains(s: string, t: string) {
    exists i: nat :: OccursAt(s, t, i)
  }

  /** First occurrence at or after `i`. */
  function FindFrom(s: string, t: string, i: nat): (r: Option<nat>)
    requires i <= |s|
    ensures r.Some? ==> i <= r.value && OccursAt(s, t, r.value) && forall j :: i <= j < r.value ==> !OccursAt(s, t, j)
    ensures r.None? ==> forall j :: i <= j <= |s| ==> !OccursAt(s, t, j)
    decreases |s| - i
  {
    if OccursAt(s, t, i) then Some(i)
    else if i == |s| then None
    else FindFrom(s, t, i + 1)
  }

  function Find(s: string, t: string): Option<nat> { FindFrom(s, t, 0) }

  /** Last occurrence at or before `i`. */
  function RFindFrom(s: string, t: string, i: nat): (r: Option<nat>)
    ensures r.Some? ==> r.value <= i && OccursAt(s, t, r.value) && forall j :: r.value < j <= i ==> !OccursAt(s, t, j)
    ensures r.None? ==> forall j :: 0 <= j <= i ==> !OccursAt(s, t, j)
  {
    if OccursAt(s, t, i) then Some(i)
    else if i == 0 then None
    else RFindFrom(s, t, i - 1)
  }

  function RFind(s: string, t: string): Option<nat> { RFindFrom(s, t, |s|) }

  /** Replaces the occurrences of `t` from left to right without overlap. */
  function ReplaceAll(s: string, t: string, r: string): string
    requires t != ""
    decreases |s|
  {
    match Find(s, t)
    case None => s
    case Some(i) => s[..i] + r + ReplaceAll(s[i + |t|..], t, r)
  }

  /** Unicode White_Space. */
  predicate IsWhitespace(c: char) {
    var n := c as int;
    || 0x09 <= n <= 0x0D || n == 0x20 || n == 0x85 || n == 0xA0 || n == 0x1680
    || 0x2000 <= n <= 0x200A || n == 0x2028 || n == 0x2029 || n == 0x202F || n == 0x205F || n == 0x3000
  }

  function TrimStart(s: string): (t: string)
    ensures |t| <= |s| && t == s[|s| - |t|..]
    ensures t != "" ==> !IsWhitespace(t[0])
    ensures forall i :: 0 <= i < |s| - |t| ==> IsWhitespace(s[i])
  {
    if s != "" && IsWhitespace(s[0]) then TrimStart(s[1..]) else s
  }

  function TrimEnd(s: string): (t: string)
    ensures t <= s
    ensures t != "" ==> !IsWhitespace(t[|t| - 1])
    ensures forall i :: |t| <= i < |s| ==> IsWhitespace(s[i])
  {
    if s != "" && IsWhitespace(s[|s| - 1]) then TrimEnd(s[..|s| - 1]) else s
  }

  function Trim(s: string): (t: string) { TrimEnd(TrimStart(s)) }

  predicate Blank(s: string) {
    forall i :: 0 <= i < |s| ==> IsWhitespace(s[i])
  }

  predicate Trimmed(s: string) {
    s == "" || (!IsWhitespace(s[0]) && !IsWhitespace(s[|s| - 1]))
  }

  lemma {:induction false} TrimmedIff(s: string)
    ensures Trimmed(Trim(s))
    ensures Trim(s) == s <==> Trimmed(s)
    ensures |Trim(s)| <= |s|
    ensures Blank(s) <==> Trim(s) == ""
  {
    TrimEnds(s);
    if Trimmed(s) {
      TrimmedStays(s);
    }
    BlankIff(s);
    hide Trim, Trimmed, Blank;
  }

  lemma TrimEnds(s: string)
    ensures Trimmed(Trim(s)) && |Trim(s)| <= |s|
  {
    hide IsWhitespace;
    var t := TrimStart(s);
    assert Trim(s) != "" ==> Trim(s)[0] == t[0];
  }

  lemma TrimmedStays(s: string)
    requires Trimmed(s)
    ensures Trim(s) == s
  {
    hide IsWhitespace;
  }

  lemma BlankIff(s: string)
    ensures Blank(s) <==> Trim(s) == ""
  {
    hide IsWhitespace;
    var t := TrimStart(s);
    assert t != "" ==> t[0] == s[|s| - |t|];
    assert Trim(s) == "" ==> t == "";
  }

  /** A trimmed text is a stretch of the original. */
  lemma {:induction false} TrimStretch(s: string) returns (a: nat)
    ensures a + |Trim(s)| <= |s| && Trim(s) == s[a..a + |Trim(s)|]
  {
    var t := TrimStart(s);
    a := |s| - |t|;
    assert Trim(s) == t[..|Trim(s)|];
  }

  lemma {:induction false} AbsentInStretch(s: string, a: nat, b: nat, t: string)
    requires a <= b <= |s| && !Contains(s, t)
    ensures !Contains(s[a..b], t)
  {
    forall i: nat | OccursAt(s[a..b], t, i) ensures false {
      assert OccursAt(s, t, a + i);
    }
  }

  lemma AbsentNotFound(s: string, t: string)
    ensures Contains(s, t) <==> Find(s, t).Some?
    ensures Contains(s, t) <==> RFind(s, t).Some?
  {}

  lemma {:induction false} ReplaceAbsent(s: string, t: string, r: string)
    requires t != "" && !Contains(s, t)
    ensures ReplaceAll(s, t, r) == s
  {}

  /** Replacing text by something made of other characters brings no new occurrence of `u`. */
  lemma {:induction false} ReplaceKeepsAbsent(s: string, t: string, r: string, u: string)
    requires t != "" && r != "" && u != ""
    requires forall c :: c in r ==> c !in u
    requires !Contains(s, u)
    ensures !Contains(ReplaceAll(s, t, r), u)
    decreases |s|
  {
    match Find(s, t) {
      case None =>
      case Some(i) =>
        var post := ReplaceAll(s[i + |t|..], t, r);
        AbsentInStretch(s, 0, i, u);
        AbsentInStretch(s, i + |t|, |s|, u);
        assert s[0..i] == s[..i] && s[i + |t|..|s|] == s[i + |t|..];
        ReplaceKeepsAbsent(s[i + |t|..], t, r, u);
        JoinKeepsAbsent(s[..i], r, post, u);
    }
  }

  lemma {:induction false} JoinKeepsAbsent(pre: string, r: string, post: string, u: string)
    requires r != "" && u != "" && (forall c :: c in r ==> c !in u)
    requires !Contains(pre, u) && !Contains(post, u)
    ensures !Contains(pre + r + post, u)
  {
    var s := pre + r + post;
    var end := |pre| + |r|;
    forall p: nat | p + |u| <= |s| ensures !OccursAt(s, u, p) {
      if p + |u| <= |pre| {
        assert !OccursAt(pre, u, p);
        var j :| 0 <= j < |u| && u[j] != pre[p + j];
        assert s[p + j] == pre[p + j];
      } else if p >= end {
        assert !OccursAt(post, u, p - end);
        var j :| 0 <= j < |u| && u[j] != post[(p - end) + j];
        assert s[p + j] == post[(p - end) + j];
      } else {
        var k := if p < |pre| then |pre| else p;
        assert r[k - |pre|] in r;
        assert s[p + (k - p)] == r[k - |pre|];
        assert u[k - p] in u;
      }
    }
  }

  lemma {:induction false} ReplaceShorter(s: string, t: string, r: string)
    requires t != "" && |r| < |t|
    ensures |ReplaceAll(s, t, r)| <= |s|
    ensures Contains(s, t) ==> |ReplaceAll(s, t, r)| < |s|
    decreases |s|
  {
    match Find(s, t) {
      case None =>
      case Some(i) => ReplaceShorter(s[i + |t|..], t, r);
    }
  }

  lemma {:induction false} TrimStartFront(front: string, t: string)
    requires t != "" && !IsWhitespace(t[0])
    ensures TrimStart(front + t) == TrimStart(front) + t
  {
    hide IsWhitespace;
    if front == "" {
      assert front + t == t;
    } else {
      assert (front + t)[1..] == front[1..] + t;
      TrimStartFront(front[1..], t);
    }
  }

  lemma TrimEndBehind(t: string, behind: string)
    requires t != "" && !IsWhitespace(t[|t| - 1])
    ensures TrimEnd(t + behind) == t + TrimEnd(behind)
  {
    hide IsWhitespace, TrimEnd;
    var s, e := t + behind, TrimEnd(behind);
    assert e != "" ==> e[|e| - 1] == s[|t| + |e| - 1];
    forall i | |t| + |e| <= i < |s| ensures IsWhitespace(s[i]) {
      assert s[i] == behind[i - |t|];
    }
    TrimEndIs(s, |t| + |e|);
    assert s[..|t| + |e|] == t + behind[..|e|];
  }

  lemma TrimBlank(s: string)
    requires Blank(s)
    ensures TrimEnd(s) == ""
  {
    var t := TrimEnd(s);
  }

  lemma TrimStartBlank(s: string)
    requires Blank(s)
    ensures TrimStart(s) == ""
  {
    var t := TrimStart(s);
  }

  /** A text with visible ends between two others keeps what it touches. */
  lemma {:induction false} TrimAround(front: string, t: string, behind: string)
    requires t != "" && !IsWhitespace(t[0]) && !IsWhitespace(t[|t| - 1])
    ensures Trim(front + (t + behind)) == TrimStart(front) + (t + TrimEnd(behind))
  {
    hide IsWhitespace, TrimStart, TrimEnd;
    TrimStartFront(front, t + behind);
    TrimEndOfThree(TrimStart(front), t, behind);
  }

  lemma TrimEndOfThree(front: string, t: string, behind: string)
    requires t != "" && !IsWhitespace(t[|t| - 1])
    ensures TrimEnd(front + (t + behind)) == front + (t + TrimEnd(behind))
  {
    hide IsWhitespace, TrimEnd;
    var begun := front + t;
    TrimEndBehind(begun, behind);
    assert front + (t + behind) == begun + behind && begun + TrimEnd(behind) == front + (t + TrimEnd(behind));
  }

  lemma TrimEndIs(s: string, n: nat)
    requires n <= |s| && (n > 0 ==> !IsWhitespace(s[n - 1])) && forall i :: n <= i < |s| ==> IsWhitespace(s[i])
    ensures TrimEnd(s) == s[..n]
  {
    hide IsWhitespace, TrimEnd;
    var t := TrimEnd(s);
    assert t == s[..|t|];
    assert |t| > 0 ==> t[|t| - 1] == s[|t| - 1];
  }

  lemma TrimEndCons(s: string)
    requires s != ""
    ensures var t := TrimEnd(s[1..]);
      TrimEnd(s) == if t == "" && IsWhitespace(s[0]) then "" else [s[0]] + t
  {
    hide IsWhitespace, TrimEnd;
    var t := TrimEnd(s[1..]);
    assert forall i :: 1 <= i < |s| ==> s[i] == s[1..][i - 1];
    if t == "" && IsWhitespace(s[0]) {
      TrimEndIs(s, 0);
    } else {
      assert t != "" ==> t[|t| - 1] == s[|t|];
      TrimEndIs(s, 1 + |t|);
      assert s[..1 + |t|] == [s[0]] + s[1..][..|t|];
    }
  }

  lemma TrimStartCons(c: char, s: string)
    ensures TrimStart([c] + s) == if IsWhitespace(c) then TrimStart(s) else [c] + s
  {
    assert ([c] + s)[1..] == s;
  }

  /** Either end can be trimmed first. */
  lemma {:induction false} TrimOrder(s: string)
    ensures TrimStart(TrimEnd(s)) == TrimEnd(TrimStart(s))
  {
    if s != "" {
      var c, rest := s[0], s[1..];
      assert s == [c] + rest;
      hide IsWhitespace, TrimEnd, TrimStart;
      TrimOrder(rest);
      TrimEndCons(s);
      TrimStartCons(c, rest);
      TrimStartCons(c, TrimEnd(rest));
      TrimStartBlank("");
    }
  }

  lemma BlankConcat(a: string, b: string)
    ensures Blank(a + b) <==> Blank(a) && Blank(b)
  {
    hide IsWhitespace;
    forall i | 0 <= i < |a| && Blank(a + b) ensures IsWhitespace(a[i]) {
      assert (a + b)[i] == a[i];
    }
    forall i | 0 <= i < |b| && Blank(a + b) ensures IsWhitespace(b[i]) {
      assert (a + b)[|a| + i] == b[i];
    }
  }

  // ----- Where a text is found -----

  lemma FirstChar(s: string, t: string, i: nat)
    requires OccursAt(s, t, i) && t != ""
    ensures i < |s| && s[i] == t[0]
  {
    assert t[0] == s[i + 0];
  }

  lemma FindIs(s: string, t: string, i: nat)
    requires OccursAt(s, t, i) && forall j :: 0 <= j < i ==> !OccursAt(s, t, j)
    ensures Find(s, t) == Some(i)
  {
    hide OccursAt, FindFrom;
    assert i <= |s| by { InRange(s, t, i); }
    var found := FindFrom(s, t, 0);
  }

  lemma RFindIs(s: string, t: string, i: nat)
    requires OccursAt(s, t, i) && forall j: nat :: OccursAt(s, t, j) ==> j <= i
    ensures RFind(s, t) == Some(i)
  {
    hide OccursAt, RFindFrom;
    InRange(s, t, i);
    var found := RFindFrom(s, t, |s|);
  }

  lemma InRange(s: string, t: string, i: nat)
    requires OccursAt(s, t, i)
    ensures i + |t| <= |s|
  {
  }

  lemma OccursShift(front: string, back: string, t: string, j: nat)
    ensures OccursAt(front + back, t, |front| + j) <==> OccursAt(back, t, j)
  {
    var s := front + back;
    if OccursAt(s, t, |front| + j) {
      forall k | 0 <= k < |t| ensures t[k] == back[j + k] {
        assert t[k] == s[|front| + j + k];
      }
    }
    if OccursAt(back, t, j) {
      forall k | 0 <= k < |t| ensures t[k] == s[|front| + j + k] {
        assert t[k] == back[j + k];
      }
    }
  }

  lemma OccursInFront(front: string, back: string, t: string, j: nat)
    requires OccursAt(front + back, t, j) && j + |t| <= |front|
    ensures OccursAt(front, t, j)
  {
    forall k | 0 <= k < |t| ensures t[k] == front[j + k] {
      assert t[k] == (front + back)[j + k];
    }
  }

  lemma OccursHere(front: string, t: string, back: string)
    ensures OccursAt(front + (t + back), t, |front|)
  {
  }

  lemma CharAt(s: string, t: string, i: nat, k: nat)
    requires OccursAt(s, t, i) && k < |t|
    ensures i + k < |s| && s[i + k] == t[k]
  {
  }
}
