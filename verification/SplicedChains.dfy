/** What the parent chains of the messages become when a preserved segment is spliced in. */
module SplicedChains {
  import opened Options
  import opened Collections
  import opened ClaudeRecords
  import opened ClaudeChain
  import opened PreservedSegment

  /** The chain of the anchor: its climb, which must not return to the anchor, or nothing if the anchor
      is not among the messages. */
  ghost predicate IsAnchorChain(records: Records, anchor: Uuid, up: seq<Uuid>) {
    if anchor in records then IsChainUp(records, anchor, up) && Above(records, up) != Some(anchor) else up == []
  }

  /** The records of a path keep their place in a chain: each leads to the next, the last to `next`. */
  ghost predicate Leads(records: Records, path: seq<Uuid>, next: Option<Uuid>) {
    && Known(records, path)
    && (forall k :: 0 < k < |path| ==> ParentOf(records[path[k - 1]]) == Some(path[k]))
    && (path != [] ==> ParentOf(records[path[|path| - 1]]) == next)
  }

  lemma LeadsConcat(records: Records, a: seq<Uuid>, b: seq<Uuid>, next: Option<Uuid>)
    requires b != [] && Leads(records, a, Some(b[0])) && Leads(records, b, next)
    ensures Leads(records, a + b, next)
  {
    var s := a + b;
    forall k | 0 < k < |s| ensures ParentOf(records[s[k - 1]]) == Some(s[k]) {
      if k < |a| {
        assert s[k - 1] == a[k - 1];
      } else if k == |a| {
        assert s[k - 1] == a[|a| - 1];
      } else {
        assert s[k - 1] == b[k - 1 - |a|];
      }
    }
  }

  /** A path none of whose records gets a new parent leads where it led. */
  lemma {:induction false} UnaffectedLeads(records: Records, tail: Uuid, head: Uuid, anchor: Uuid, path: seq<Uuid>,
      next: Option<Uuid>)
    requires Leads(records, path, next) && anchor != "" && tail != ""
    requires forall u :: u in path ==> !Affected(records, head, anchor, u)
    ensures Leads(Spliced(records, head, anchor, tail), path, next)
  {
    hide Spliced;
    forall k | 0 <= k < |path|
      ensures path[k] in Spliced(records, head, anchor, tail) &&
        ParentOf(Spliced(records, head, anchor, tail)[path[k]]) == ParentOf(records[path[k]])
    {
      assert path[k] in path;
      SplicedParents(records, head, anchor, tail, path[k]);
    }
  }

  /** So does a path whose last record alone gets a new parent, but for where it leads. */
  lemma {:induction false} LastAffected(records: Records, tail: Uuid, head: Uuid, anchor: Uuid, path: seq<Uuid>,
      next: Option<Uuid>)
    requires path != [] && Leads(records, path, next) && anchor != "" && tail != ""
    requires var last := path[|path| - 1]; last == head || (last != head && next == Some(anchor))
    requires head !in path[..|path| - 1] && anchor !in path[1..]
    ensures Leads(Spliced(records, head, anchor, tail), path,
      if path[|path| - 1] == head then Some(anchor) else Some(tail))
  {
    hide Spliced;
    var after := Spliced(records, head, anchor, tail);
    forall k | 0 <= k < |path|
      ensures path[k] in after
      ensures k < |path| - 1 ==> ParentOf(after[path[k]]) == Some(path[k + 1])
      ensures k == |path| - 1 ==> ParentOf(after[path[k]]) == if path[k] == head then Some(anchor) else Some(tail)
    {
      assert path[k] in path;
      SplicedParents(records, head, anchor, tail, path[k]);
      if k < |path| - 1 {
        assert path[..|path| - 1][k] == path[k] && path[1..][k] == path[k + 1];
        assert ParentOf(records[path[k + 1 - 1]]) == Some(path[k + 1]);
      }
    }
    forall k | 0 < k < |path| ensures ParentOf(after[path[k - 1]]) == Some(path[k]) {
      assert path[k - 1 + 1] == path[k];
    }
  }

  // ----- The chains, on any parent map -----

  /** The anchor lies nowhere on a path that repeats nothing of the anchor's chain. */
  lemma AnchorElsewhere(records: Records, anchor: Uuid, path: seq<Uuid>, above: seq<Uuid>)
    requires Known(records, path) && IsAnchorChain(records, anchor, above) && NoDuplicates(path + above)
    ensures anchor !in path
  {
    NoDuplicatesApart(path, above);
  }

  lemma {:induction false} AnchorChainStays(records: Records, tail: Uuid, head: Uuid, anchor: Uuid, above: seq<Uuid>)
    requires anchor in records && IsAnchorChain(records, anchor, above) && head !in above && anchor != "" && tail != ""
    ensures Leads(Spliced(records, head, anchor, tail), above, Above(records, above))
  {
    var next := Above(records, above);
    forall k | 0 <= k < |above| ensures !Affected(records, head, anchor, above[k]) {
      assert above[k] in above;
      if k < |above| - 1 {
        assert ParentOf(records[above[k + 1 - 1]]) == Some(above[k + 1]);
        assert above[0] != above[k + 1];
      }
    }
    UnaffectedLeads(records, tail, head, anchor, above, next);
  }

  /** A path without repetition that leads to the anchor after the splice goes on with the anchor's
      chain. */
  lemma {:induction false} OntoAnchor(records: Records, tail: Uuid, head: Uuid, anchor: Uuid, lower: seq<Uuid>,
      above: seq<Uuid>)
    requires anchor != "" && tail != "" && IsAnchorChain(records, anchor, above)
    requires lower != [] && head in lower && NoDuplicates(lower + above)
    requires Leads(Spliced(records, head, anchor, tail), lower, Some(anchor))
    ensures IsChainUp(Spliced(records, head, anchor, tail), lower[0], lower + above)
  {
    var after, whole := Spliced(records, head, anchor, tail), lower + above;
    assert after.Keys == records.Keys;
    hide Spliced;
    var next := Some(anchor);
    if anchor in records {
      NoDuplicatesApart(lower, above);
      AnchorChainStays(records, tail, head, anchor, above);
      next := Above(records, above);
      LeadsConcat(after, lower, above, next);
      assert next.Some? && next.value in above ==> next.value in whole;
    } else {
      assert whole == lower;
    }
    assert IsClimb(after, lower[0], whole);
  }

  /** Whatever climbed to the anchor through another child now climbs through the whole preserved
      segment, tail to head, before going on with the anchor's own chain. */
  lemma {:induction false} ChainThroughSegment(records: Records, tail: Uuid, head: Uuid, anchor: Uuid,
      path: seq<Uuid>, below: seq<Uuid>, above: seq<Uuid>)
    requires IsSegment(records, tail, head, path) && anchor != "" && tail != ""
    requires IsAnchorChain(records, anchor, above) && NoDuplicates(below + path + above)
    requires below != [] && head !in below && Leads(records, below, Some(anchor))
    ensures IsChainUp(Spliced(records, head, anchor, tail), below[0], below + path + above)
  {
    AnchorElsewhere(records, anchor, below + path, above);
    assert below[|below| - 1] in below && head in below + path;
    assert anchor !in below && anchor !in path;
    LastAffected(records, tail, head, anchor, below, Some(anchor));
    assert Leads(records, path, Above(records, path));
    LastAffected(records, tail, head, anchor, path, Above(records, path));
    hide Spliced, Leads, IsSegment;
    LeadsConcat(Spliced(records, head, anchor, tail), below, path, Some(anchor));
    OntoAnchor(records, tail, head, anchor, below + path, above);
  }

  /** Whatever climbed through the head now goes on with the anchor's chain instead. */
  lemma {:induction false} ChainThroughHead(records: Records, tail: Uuid, head: Uuid, anchor: Uuid,
      below: seq<Uuid>, above: seq<Uuid>)
    requires anchor != "" && tail != "" && IsAnchorChain(records, anchor, above) && NoDuplicates(below + above)
    requires below != [] && below[|below| - 1] == head && head in records
    requires Leads(records, below, ParentOf(records[head]))
    ensures IsChainUp(Spliced(records, head, anchor, tail), below[0], below + above)
  {
    AnchorElsewhere(records, anchor, below, above);
    var n := |below| - 1;
    assert head in below;
    forall k | 0 <= k < n ensures below[..n][k] != head {
      assert (below + above)[k] != (below + above)[n];
    }
    LastAffected(records, tail, head, anchor, below, ParentOf(records[head]));
    OntoAnchor(records, tail, head, anchor, below, above);
  }

  /** Every other chain stays. */
  lemma {:induction false} ChainElsewhere(records: Records, tail: Uuid, head: Uuid, anchor: Uuid, up: seq<Uuid>)
    requires up != [] && IsChainUp(records, up[0], up) && anchor != "" && tail != ""
    requires forall u :: u in up ==> !Affected(records, head, anchor, u)
    ensures IsChainUp(Spliced(records, head, anchor, tail), up[0], up)
  {
    UnaffectedLeads(records, tail, head, anchor, up, Above(records, up));
  }

  /** Cutting records away ends a chain before the first one that is gone. */
  lemma {:induction false} CutChain(records: Records, kept: seq<Uuid>, leaf: Uuid, up: seq<Uuid>, n: nat)
    requires IsChainUp(records, leaf, up) && 0 < n <= |up|
    requires forall k :: 0 <= k < n ==> up[k] in kept
    requires n < |up| ==> up[n] !in kept
    ensures IsChainUp(Restricted(records, kept), leaf, up[..n])
  {
    var short := up[..n];
    forall k | 0 <= k < |up| ensures up[k] in records { assert up[k] in up; }
    forall k | 0 < k < n ensures ParentOf(Restricted(records, kept)[short[k - 1]]) == Some(short[k]) {
      assert ParentOf(records[up[k - 1]]) == Some(up[k]);
    }
    assert Known(Restricted(records, kept), short);
    if n < |up| {
      assert ParentOf(records[up[n - 1]]) == Some(up[n]);
    } else {
      assert short == up;
    }
  }

  // ----- In an acyclic graph nothing repeats -----

  lemma {:induction false} RanksAlong(records: Records, rank: Uuid -> nat, path: seq<Uuid>, next: Option<Uuid>, i: nat,
      j: nat)
    requires Falls(records, rank) && Leads(records, path, next) && i <= j < |path|
    ensures rank(path[j]) + (j - i) <= rank(path[i])
    decreases j - i
  {
    if i < j {
      RanksAlong(records, rank, path, next, i + 1, j);
      assert path[i] in path && path[i + 1] in path;
      assert ParentOf(records[path[i + 1 - 1]]) == Some(path[i + 1]);
      assert FallsAt(records, rank, path[i]);
    }
  }

  lemma {:induction false} LeadsReaches(records: Records, path: seq<Uuid>, next: Option<Uuid>, i: nat, j: nat)
    requires Leads(records, path, next) && i <= j < |path|
    ensures path[i] in records && Reaches(records, path[i], path[j])
    decreases j - i
  {
    assert path[i] in path && path[j] in path;
    if i == j {
      ReachesSelf(records, path[i]);
    } else {
      assert path[i + 1] in path && ParentOf(records[path[i + 1 - 1]]) == Some(path[i + 1]);
      LeadsReaches(records, path, next, i + 1, j);
      ReachesFurther(records, path[i], path[j]);
    }
  }

  /** A path repeats nothing. */
  lemma {:induction false} LeadsOnce(records: Records, rank: Uuid -> nat, path: seq<Uuid>, next: Option<Uuid>)
    requires Falls(records, rank) && Leads(records, path, next)
    ensures NoDuplicates(path)
  {
    forall i, j | 0 <= i < j < |path| ensures path[i] != path[j] {
      RanksAlong(records, rank, path, next, i, j);
    }
  }

  /** No climb returns to where it began. */
  lemma {:induction false} NoReturn(records: Records, rank: Uuid -> nat, anchor: Uuid, above: seq<Uuid>)
    requires Falls(records, rank) && IsChainUp(records, anchor, above)
    ensures Above(records, above) != Some(anchor)
  {
    var n := |above| - 1;
    assert Leads(records, above, Above(records, above));
    assert above[n] in above && above[0] in above;
    RanksAlong(records, rank, above, Above(records, above), 0, n);
    if Above(records, above) == Some(anchor) {
      ParentFalls(records, rank, above[n]);
      assert false;
    }
  }

  lemma {:induction false} BelowAndAbove(records: Records, rank: Uuid -> nat, anchor: Uuid, below: seq<Uuid>,
      above: seq<Uuid>)
    requires Falls(records, rank) && Leads(records, below, Some(anchor))
    requires if anchor in records then IsChainUp(records, anchor, above) else above == []
    ensures NoDuplicates(below + above)
  {
    if anchor in records {
      var next := Above(records, above);
      assert Leads(records, above, next);
      LeadsConcat(records, below, above, next);
      LeadsOnce(records, rank, below + above, next);
    } else {
      assert below + above == below;
      LeadsOnce(records, rank, below, Some(anchor));
    }
  }

  /** Climbing is a function: from a record both on the segment and below the anchor, the climb meets the
      head before the anchor or the anchor before the head. */
  lemma {:induction false} SegmentApart(records: Records, tail: Uuid, head: Uuid, anchor: Uuid, path: seq<Uuid>,
      below: seq<Uuid>, i: nat, j: nat)
    requires IsSegment(records, tail, head, path) && Leads(records, below, Some(anchor))
    requires head !in below && !Reaches(records, anchor, head) && i < |path| && j < |below|
    ensures path[i] != below[j]
    decreases |path| - i
  {
    assert path[i] in path && below[j] in below;
    if path[i] == below[j] {
      if i == |path| - 1 {
        assert false;
      } else {
        assert ParentOf(records[path[i + 1 - 1]]) == Some(path[i + 1]) && path[i + 1] in path;
        if j == |below| - 1 {
          assert Leads(records, path, Above(records, path));
          LeadsReaches(records, path, Above(records, path), i + 1, |path| - 1);
          assert false;
        } else {
          assert ParentOf(records[below[j + 1 - 1]]) == Some(below[j + 1]);
          SegmentApart(records, tail, head, anchor, path, below, i + 1, j + 1);
        }
      }
    }
  }

  lemma ReachesOn(records: Records, u: Uuid, v: Uuid, w: Uuid)
    requires Reaches(records, u, v) && Reaches(records, v, w)
    ensures Reaches(records, u, w)
  {
    var n: nat :| Up(records, u, n) == Some(v);
    ReachesOnFrom(records, u, v, w, n);
  }

  lemma {:induction false} ReachesOnFrom(records: Records, u: Uuid, v: Uuid, w: Uuid, n: nat)
    requires u in records && Up(records, u, n) == Some(v) && Reaches(records, v, w)
    ensures Reaches(records, u, w)
    decreases n
  {
    if n > 0 {
      ReachesOnFrom(records, Parent(records, u).value, v, w, n - 1);
      ReachesFurther(records, u, w);
    }
  }

  /** In an acyclic graph the whole new chain repeats nothing. */
  lemma {:induction false} NothingRepeats(records: Records, rank: Uuid -> nat, tail: Uuid, head: Uuid, anchor: Uuid,
      path: seq<Uuid>, below: seq<Uuid>, above: seq<Uuid>)
    requires Falls(records, rank) && IsSegment(records, tail, head, path) && !Reaches(records, anchor, head)
    requires if anchor in records then IsChainUp(records, anchor, above) else above == []
    requires head !in below && Leads(records, below, Some(anchor))
    ensures NoDuplicates(below + path + above)
  {
    BelowAndAbove(records, rank, anchor, below, above);
    forall x | x in path ensures x !in below && x !in above {
      var i :| 0 <= i < |path| && path[i] == x;
      if j :| 0 <= j < |below| && below[j] == x {
        SegmentApart(records, tail, head, anchor, path, below, i, j);
      }
      if k :| 0 <= k < |above| && above[k] == x {
        AboveAndSegment(records, tail, head, anchor, path, above, i, k);
      }
    }
    InsertOnce(below, path, above);
  }

  lemma {:induction false} AboveAndSegment(records: Records, tail: Uuid, head: Uuid, anchor: Uuid, path: seq<Uuid>,
      above: seq<Uuid>, i: nat, k: nat)
    requires IsSegment(records, tail, head, path) && IsChainUp(records, anchor, above)
    requires !Reaches(records, anchor, head) && i < |path| && k < |above|
    ensures path[i] != above[k]
  {
    assert Leads(records, above, Above(records, above)) && Leads(records, path, Above(records, path));
    LeadsReaches(records, above, Above(records, above), 0, k);
    LeadsReaches(records, path, Above(records, path), i, |path| - 1);
    if path[i] == above[k] {
      ReachesOn(records, anchor, path[i], head);
    }
  }

  lemma InsertOnce(a: seq<Uuid>, b: seq<Uuid>, c: seq<Uuid>)
    requires NoDuplicates(a + c) && NoDuplicates(b) && forall x :: x in b ==> x !in a && x !in c
    ensures NoDuplicates(a + b + c)
  {
    NoDuplicatesApart(a, c);
    NoDuplicatesConcat(a, b);
    NoDuplicatesConcat(a + b, c);
  }

  /** In an acyclic graph, with the anchor neither the head nor below it, the segment comes in between
      without loss or repetition. */
  lemma {:induction false} AcyclicChainThroughSegment(records: Records, tail: Uuid, head: Uuid, anchor: Uuid,
      path: seq<Uuid>, below: seq<Uuid>, above: seq<Uuid>)
    requires Acyclic(records) && IsSegment(records, tail, head, path) && anchor != "" && tail != ""
    requires !Reaches(records, anchor, head)
    requires if anchor in records then IsChainUp(records, anchor, above) else above == []
    requires below != [] && head !in below && Leads(records, below, Some(anchor))
    ensures IsChainUp(Spliced(records, head, anchor, tail), below[0], below + path + above)
  {
    var rank: Uuid -> nat :| Falls(records, rank);
    NothingRepeats(records, rank, tail, head, anchor, path, below, above);
    if anchor in records {
      NoReturn(records, rank, anchor, above);
    }
    ChainThroughSegment(records, tail, head, anchor, path, below, above);
  }
}
