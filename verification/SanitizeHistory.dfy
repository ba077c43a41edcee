/** The weaker pairing check used on compacted histories: a tool result needs a call with its
    id anywhere before it. How sanitizing relates to validating and to the stricter repair. */
module SanitizeHistory {
  import opened Conversations
  import opened RepairHistory
  import opened HistoryPasses

  /** The call ids declared by the assistants before position `i`. */
  function DeclaredBefore(s: seq<Item>, i: nat): set<string>
    requires i <= |s|
  {
    if i == 0 then {} else DeclaredBefore(s, i - 1) + CallIds(CallsOf(s[i - 1]))
  }

  predicate Supported(s: seq<Item>, i: nat)
    requires i < |s|
  {
    s[i].ToolResult? ==> s[i].result.callId in DeclaredBefore(s, i)
  }

  lemma {:induction false} DeclaredSomewhere(s: seq<Item>, i: nat, id: string)
    requires i <= |s|
    ensures id in DeclaredBefore(s, i) <==> exists j :: 0 <= j < i && s[j].Assistant? && id in CallIds(s[j].calls)
  {
    if i > 0 {
      DeclaredSomewhere(s, i - 1, id);
      hide CallIds;
      assert CallIds([]) == {} by { NoCallIds(); }
    }
  }

  lemma NoCallIds()
    ensures CallIds([]) == {}
  {
  }

  /** A result is supported if and only if some assistant before it declares its id. */
  lemma {:induction false} SupportedIff(s: seq<Item>, i: nat)
    requires i < |s| && s[i].ToolResult?
    ensures Supported(s, i) <==>
      exists j :: 0 <= j < i && s[j].Assistant? && s[i].result.callId in CallIds(s[j].calls)
  {
    hide CallIds, DeclaredBefore;
    DeclaredSomewhere(s, i, s[i].result.callId);
  }

  /** The supported items from position `i` on. */
  function SupportedFrom(s: seq<Item>, i: nat): seq<Item>
    requires i <= |s|
    decreases |s| - i
  {
    if i == |s| then [] else (if Supported(s, i) then [s[i]] else []) + SupportedFrom(s, i + 1)
  }

  /** The ids of the unsupported tool results from position `i` on, in order. */
  function OrphansFrom(s: seq<Item>, i: nat): seq<string>
    requires i <= |s|
    decreases |s| - i
  {
    if i == |s| then [] else (if Supported(s, i) then [] else [s[i].result.callId]) + OrphansFrom(s, i + 1)
  }

  ghost function Sanitized(s: seq<Item>): seq<Item> { SupportedFrom(s, 0) }
  ghost function Violations(s: seq<Item>): seq<string> { OrphansFrom(s, 0) }

  /** The read-only check. */
  method ValidateCompactedHistory(items: seq<Item>) returns (invalid: seq<string>)
    ensures invalid == Violations(items)
  {
    var seen: set<string> := {};
    invalid := [];
    assert [] + OrphansFrom(items, 0) == OrphansFrom(items, 0);
    for i := 0 to |items|
      invariant seen == DeclaredBefore(items, i)
      invariant invalid + OrphansFrom(items, i) == OrphansFrom(items, 0)
    {
      OrphanStep(items, i, invalid);
      match items[i] {
        case Assistant(_, calls) => seen := seen + CallIds(calls);
        case ToolResult(r) =>
          if r.callId !in seen {
            invalid := invalid + [r.callId];
          }
        case _ =>
      }
    }
  }

  /** The filtering scan. */
  method SanitizeCompactedHistory(items: seq<Item>) returns (sanitized: seq<Item>, stripped: seq<string>)
    ensures sanitized == Sanitized(items)
    ensures stripped == Violations(items)
  {
    var seen: set<string> := {};
    sanitized, stripped := [], [];
    assert [] + OrphansFrom(items, 0) == OrphansFrom(items, 0);
    assert [] + SupportedFrom(items, 0) == SupportedFrom(items, 0);
    for i := 0 to |items|
      invariant seen == DeclaredBefore(items, i)
      invariant sanitized + SupportedFrom(items, i) == SupportedFrom(items, 0)
      invariant stripped + OrphansFrom(items, i) == OrphansFrom(items, 0)
    {
      hide SupportedFrom, OrphansFrom;
      OrphanStep(items, i, stripped);
      SupportedStep(items, i, sanitized);
      match items[i] {
        case Assistant(_, calls) =>
          seen := seen + CallIds(calls);
          sanitized := sanitized + [items[i]];
        case ToolResult(r) =>
          if r.callId in seen {
            sanitized := sanitized + [items[i]];
          } else {
            stripped := stripped + [r.callId];
          }
        case _ => sanitized := sanitized + [items[i]];
      }
    }
  }

  lemma {:induction false} OrphanStep(s: seq<Item>, i: nat, ids: seq<string>)
    requires i < |s|
    ensures ids + OrphansFrom(s, i) ==
      (if Supported(s, i) then ids else ids + [s[i].result.callId]) + OrphansFrom(s, i + 1)
  {
    if !Supported(s, i) {
      PushStep(ids, s[i].result.callId, OrphansFrom(s, i + 1));
    } else {
      assert [] + OrphansFrom(s, i + 1) == OrphansFrom(s, i + 1);
    }
  }

  lemma {:induction false} SupportedStep(s: seq<Item>, i: nat, kept: seq<Item>)
    requires i < |s|
    ensures kept + SupportedFrom(s, i) == (if Supported(s, i) then kept + [s[i]] else kept) + SupportedFrom(s, i + 1)
  {
    PushStep(kept, s[i], SupportedFrom(s, i + 1));
  }

  // ----- The same scan with its state made explicit -----

  function Scan(seen: set<string>, s: seq<Item>): seq<Item>
    decreases |s|
  {
    if s == [] then []
    else if s[0].ToolResult? && s[0].result.callId !in seen then Scan(seen, s[1..])
    else [s[0]] + Scan(seen + CallIds(CallsOf(s[0])), s[1..])
  }

  function ScanOrphans(seen: set<string>, s: seq<Item>): seq<string>
    decreases |s|
  {
    if s == [] then []
    else if s[0].ToolResult? && s[0].result.callId !in seen then [s[0].result.callId] + ScanOrphans(seen, s[1..])
    else ScanOrphans(seen + CallIds(CallsOf(s[0])), s[1..])
  }

  lemma {:induction false} ScanUnfold(seen: set<string>, x: Item, t: seq<Item>)
    ensures var stays := x.ToolResult? ==> x.result.callId in seen;
      && Scan(seen, [x] + t) == (if stays then [x] else []) + Scan(seen + CallIds(CallsOf(x)), t)
      && ScanOrphans(seen, [x] + t) ==
        (if stays then [] else [x.result.callId]) + ScanOrphans(seen + CallIds(CallsOf(x)), t)
  {
    assert ([x] + t)[1..] == t;
    if x.ToolResult? {
      assert seen + CallIds(CallsOf(x)) == seen;
    }
    var more := seen + CallIds(CallsOf(x));
    assert [] + Scan(more, t) == Scan(more, t) && [] + ScanOrphans(more, t) == ScanOrphans(more, t);
  }

  lemma {:induction false} ScanByPosition(s: seq<Item>, i: nat)
    requires i <= |s|
    ensures SupportedFrom(s, i) == Scan(DeclaredBefore(s, i), s[i..])
    ensures OrphansFrom(s, i) == ScanOrphans(DeclaredBefore(s, i), s[i..])
    decreases |s| - i
  {
    if i < |s| {
      assert s[i..] == [s[i]] + s[i + 1..];
      assert DeclaredBefore(s, i + 1) == DeclaredBefore(s, i) + CallIds(CallsOf(s[i]));
      ScanByPosition(s, i + 1);
      ScanUnfold(DeclaredBefore(s, i), s[i], s[i + 1..]);
    }
  }

  lemma {:induction false} ScanClean(seen: set<string>, s: seq<Item>)
    ensures ScanOrphans(seen, Scan(seen, s)) == []
    ensures ScanOrphans(seen, s) == [] <==> Scan(seen, s) == s
    ensures NonResults(Scan(seen, s)) == NonResults(s)
    ensures |Scan(seen, s)| <= |s|
    decreases |s|
  {
    if s != [] {
      if s[0].ToolResult? && s[0].result.callId !in seen {
        ScanClean(seen, s[1..]);
      } else {
        var more := seen + CallIds(CallsOf(s[0]));
        ScanClean(more, s[1..]);
        var t := [s[0]] + Scan(more, s[1..]);
        assert t[0] == s[0] && t[1..] == Scan(more, s[1..]);
      }
    }
  }

  /** Sanitizing always yields a history that validates, is the identity exactly on those that
      validate already, and keeps every other item in order. */
  lemma {:induction false} SanitizedValidates(s: seq<Item>)
    ensures Violations(Sanitized(s)) == []
    ensures Sanitized(s) == s <==> Violations(s) == []
    ensures NonResults(Sanitized(s)) == NonResults(s)
  {
    assert s[0..] == s && Sanitized(s)[0..] == Sanitized(s);
    ScanByPosition(s, 0);
    ScanByPosition(Sanitized(s), 0);
    ScanClean({}, s);
  }

  // ----- Against the stricter rule -----

  lemma {:induction false} DeclaredAt(s: seq<Item>, a: nat, i: nat)
    requires a < i <= |s|
    ensures CallIds(CallsOf(s[a])) <= DeclaredBefore(s, i)
  {
    if a < i - 1 {
      DeclaredAt(s, a, i - 1);
    }
  }

  /** A result the adjacency rule keeps is never stripped by the weaker one. */
  lemma {:induction false} OwnRunIsSupported(s: seq<Item>, i: nat)
    requires i < |s| && InOwnRun(s, i)
    ensures Supported(s, i)
  {
    var a := OwnerOf(s, i);
    assert a >= 0;
    DeclaredAt(s, a, i);
  }

  /** Paired histories validate, so sanitizing leaves them alone. */
  lemma {:induction false} PairedValidates(s: seq<Item>)
    requires Paired(s)
    ensures Violations(s) == [] && Sanitized(s) == s
  {
    PairedNoOrphans(s, 0);
    SanitizedValidates(s);
  }

  lemma {:induction false} PairedSupports(s: seq<Item>, i: nat)
    requires Paired(s) && i < |s|
    ensures Supported(s, i)
  {
    if s[i].ToolResult? {
      OwnRunIsSupported(s, i);
    }
  }

  lemma {:induction false} NoOrphanHere(s: seq<Item>, i: nat)
    requires i < |s| && Supported(s, i)
    ensures OrphansFrom(s, i) == OrphansFrom(s, i + 1)
  {
    hide Supported;
    assert [] + OrphansFrom(s, i + 1) == OrphansFrom(s, i + 1);
  }

  lemma {:induction false} PairedNoOrphans(s: seq<Item>, i: nat)
    requires Paired(s) && i <= |s|
    ensures OrphansFrom(s, i) == []
    decreases |s| - i
  {
    if i < |s| {
      hide Paired, Supported, OrphansFrom;
      PairedNoOrphans(s, i + 1);
      PairedSupports(s, i);
      NoOrphanHere(s, i);
    }
  }

  lemma {:induction false} SameStripped(calls: Calls, r: Run, r': Run, s: seq<Item>)
    requires StripRun(calls, r) == StripRun(calls, r')
    ensures MapRuns(StripRun, calls, r, s) == MapRuns(StripRun, calls, r', s)
    decreases |s|
  {
    if s != [] && s[0].ToolResult? {
      DeclaredOnlyConcat(CallIds(calls), r, s[0].result);
      DeclaredOnlyConcat(CallIds(calls), r', s[0].result);
      SameStripped(calls, r + [s[0].result], r' + [s[0].result], s[1..]);
    }
  }

  lemma {:induction false} StripAfterScan(seen: set<string>, calls: Calls, run: Run, s: seq<Item>)
    requires CallIds(calls) <= seen
    ensures MapRuns(StripRun, calls, run, Scan(seen, s)) == MapRuns(StripRun, calls, run, s)
    decreases |s|
  {
    if s != [] {
      var x := s[0];
      if x.ToolResult? && x.result.callId !in seen {
        DeclaredOnlyConcat(CallIds(calls), run, x.result);
        assert StripRun(calls, run) + [] == StripRun(calls, run);
        SameStripped(calls, run, run + [x.result], s[1..]);
        StripAfterScan(seen, calls, run, s[1..]);
      } else {
        var t := Scan(seen + CallIds(CallsOf(x)), s[1..]);
        assert ([x] + t)[1..] == t;
        if x.ToolResult? {
          StripAfterScan(seen + CallIds(CallsOf(x)), calls, run + [x.result], s[1..]);
        } else {
          StripAfterScan(seen + CallIds(CallsOf(x)), CallsOf(x), [], s[1..]);
        }
      }
    }
  }

  /** Sanitizing first never changes what the stricter pass leaves. */
  lemma {:induction false} StripSubsumesSanitize(s: seq<Item>)
    ensures Stripped(Sanitized(s)) == Stripped(s)
    ensures Paired(Stripped(s))
  {
    assert s[0..] == s;
    ScanByPosition(s, 0);
    StripAfterScan({}, [], [], s);
    var always := (c: Calls, r: Run) => true;
    forall c: Calls, r: Run ensures OnlyDeclared(c, StripRun(c, r)) {
      DeclaredOnlyFacts(CallIds(c), r);
    }
    EveryRunOfMap(StripRun, OnlyDeclared, always, [], [], s);
    EveryRunAlways(always, [], [], s);
    PairedByRuns(Stripped(s));
  }
}
