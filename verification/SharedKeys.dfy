/** Coalescing when several paths of a batch stand for one index key: what every visiting order must
    leave there, and exactly when that is what one-by-one handling leaves. */
module SharedKeys {
  import opened Options
  import opened EventCoalescing

  predicate Under(w: World, key: Key, path: Path) {
    w.indexed(path) && w.key(path) == key
  }

  /** The last touch of any path with this key. */
  function LastUnder(w: World, key: Key, touches: seq<Touch>): Option<Touch> {
    if touches == [] then None
    else if Under(w, key, touches[|touches| - 1].path) then Some(touches[|touches| - 1])
    else LastUnder(w, key, touches[..|touches| - 1])
  }

  lemma {:induction false} LastUnderIn(w: World, key: Key, touches: seq<Touch>)
    ensures var last := LastUnder(w, key, touches);
      && (last.Some? ==> last.value in touches && Under(w, key, last.value.path))
      && (last.None? ==> forall t :: t in touches ==> !Under(w, key, t.path))
  {
    if touches != [] {
      var n := |touches| - 1;
      LastUnderIn(w, key, touches[..n]);
      assert touches == touches[..n] + [touches[n]];
    }
  }

  /** One by one, a key ends up with what its last touch leaves, or with what it held. */
  lemma {:induction false} ApplyAllUnder(w: World, index: IndexMap, touches: seq<Touch>, key: Key)
    ensures EntryOf(ApplyAll(w, index, touches), key) ==
      match LastUnder(w, key, touches)
      case Some(t) => Outcome(w, t)
      case None => EntryOf(index, key)
  {
    if touches != [] {
      ApplyAllUnder(w, index, touches[..|touches| - 1], key);
    }
  }

  /** A path with this key that was touched and whose last two touches do not cancel. */
  predicate Lasting(w: World, key: Key, touches: seq<Touch>, path: Path) {
    Under(w, key, path) && LastTouch(touches, path).Some? && !CancelsOut(touches, path)
  }

  /** Every lasting path of the key leaves there what the key's last touch leaves; if none lasts, the
      key holds that already. */
  ghost predicate LeavesSame(w: World, index: IndexMap, touches: seq<Touch>, key: Key) {
    match LastUnder(w, key, touches)
    case None => true
    case Some(t) =>
      && (forall path :: Lasting(w, key, touches, path) ==>
        Outcome(w, Touch(path, LastTouch(touches, path).value)) == Outcome(w, t))
      && ((forall path :: !Lasting(w, key, touches, path)) ==> EntryOf(index, key) == Outcome(w, t))
  }

  /** Whatever the visiting order, this key ends up as it does one by one. */
  ghost predicate SameInAnyOrder(w: World, index: IndexMap, touches: seq<Touch>, events: Pending, key: Key) {
    forall order :: IsOrderOf(order, events) ==>
      EntryOf(ApplyAll(w, index, order), key) == EntryOf(ApplyAll(w, index, touches), key)
  }

  lemma {:induction false} PendingLasts(w: World, key: Key, touches: seq<Touch>, events: Pending, path: Path)
    requires Coalesced(events, touches)
    ensures Under(w, key, path) && path in events <==> Lasting(w, key, touches, path)
    ensures Lasting(w, key, touches, path) ==>
      Outcome(w, Touch(path, events[path])) == Outcome(w, Touch(path, LastTouch(touches, path).value))
  {
    assert PendingOf(events, path) == PathState(touches, path);
    PathStateIsLast(touches, path);
    NothingPendingIff(touches, path);
  }

  lemma {:induction false} AnyOrder(events: Pending) returns (order: seq<Touch>)
    ensures IsOrderOf(order, events)
    decreases |events|
  {
    if events == map[] {
      order := [];
    } else {
      var path :| path in events;
      order := OrderEnding(events, path);
    }
  }

  /** Some visiting order takes a given path last. */
  lemma {:induction false} OrderEnding(events: Pending, path: Path) returns (order: seq<Touch>)
    requires path in events
    ensures IsOrderOf(order, events) && order != [] && order[|order| - 1] == Touch(path, events[path])
    decreases |events|, 0
  {
    var others := map p | p in events && p != path :: events[p];
    assert others.Keys == events.Keys - {path};
    assert |others| == |others.Keys| && |events| == |events.Keys|;
    var before := AnyOrder(others);
    assert others == map p | p in events.Keys - {path} :: events[p];
    VisitOne(before, events, {path}, path);
    order := before + [Touch(path, events[path])];
    assert events == map p | p in events.Keys - ({path} - {path}) :: events[p];
  }

  /** What one visiting order leaves under a key. */
  lemma {:induction false} OrderLeaves(w: World, index: IndexMap, touches: seq<Touch>, events: Pending,
      order: seq<Touch>, key: Key)
    requires Coalesced(events, touches) && IsOrderOf(order, events)
    ensures LastUnder(w, key, order).None? <==> forall path :: !Lasting(w, key, touches, path)
    ensures LastUnder(w, key, order).Some? ==> var path := LastUnder(w, key, order).value.path;
      Lasting(w, key, touches, path) &&
        Outcome(w, LastUnder(w, key, order).value) == Outcome(w, Touch(path, LastTouch(touches, path).value))
  {
    LastUnderIn(w, key, order);
    match LastUnder(w, key, order)
    case Some(u) =>
      var k :| 0 <= k < |order| && order[k] == u;
      assert u == Touch(u.path, events[u.path]);
      PendingLasts(w, key, touches, events, u.path);
    case None =>
      forall path ensures !Lasting(w, key, touches, path) {
        PendingLasts(w, key, touches, events, path);
        if path in events {
          var k :| 0 <= k < |order| && order[k].path == path;
          assert order[k] in order;
        }
      }
  }

  /** With no assumption on keys: a key comes out as it does one by one, in every visiting order, if
      and only if all lasting paths of the key agree with its last touch, or, when the removals of all
      its paths cancelled, the index did not hold it. */
  lemma {:induction false} AnyOrderIff(w: World, index: IndexMap, touches: seq<Touch>, events: Pending, key: Key)
    requires Coalesced(events, touches)
    ensures SameInAnyOrder(w, index, touches, events, key) <==> LeavesSame(w, index, touches, key)
  {
    ApplyAllUnder(w, index, touches, key);
    if LeavesSame(w, index, touches, key) {
      forall order | IsOrderOf(order, events)
        ensures EntryOf(ApplyAll(w, index, order), key) == EntryOf(ApplyAll(w, index, touches), key)
      {
        AgreesInOrder(w, index, touches, events, order, key);
      }
    }
    if SameInAnyOrder(w, index, touches, events, key) {
      AgreesOnLasting(w, index, touches, events, key);
    }
  }

  /** So the whole index is the same in every visiting order if and only if that holds of every key. */
  lemma {:induction false} AnyOrderIndexIff(w: World, index: IndexMap, touches: seq<Touch>, events: Pending)
    requires Coalesced(events, touches)
    ensures (forall order :: IsOrderOf(order, events) ==> ApplyAll(w, index, order) == ApplyAll(w, index, touches))
      <==> forall key :: LeavesSame(w, index, touches, key)
  {
    hide ApplyAll, IsOrderOf, LeavesSame, Coalesced;
    if forall order :: IsOrderOf(order, events) ==> ApplyAll(w, index, order) == ApplyAll(w, index, touches) {
      forall key ensures LeavesSame(w, index, touches, key) {
        assert SameInAnyOrder(w, index, touches, events, key);
        AnyOrderIff(w, index, touches, events, key);
      }
    }
    if forall key :: LeavesSame(w, index, touches, key) {
      forall order | IsOrderOf(order, events) ensures ApplyAll(w, index, order) == ApplyAll(w, index, touches) {
        forall key ensures EntryOf(ApplyAll(w, index, order), key) == EntryOf(ApplyAll(w, index, touches), key) {
          AgreesInOrder(w, index, touches, events, order, key);
        }
        SameEntriesSameIndex(ApplyAll(w, index, order), ApplyAll(w, index, touches));
      }
    }
  }

  lemma {:induction false} AgreesInOrder(w: World, index: IndexMap, touches: seq<Touch>, events: Pending,
      order: seq<Touch>, key: Key)
    requires Coalesced(events, touches) && IsOrderOf(order, events) && LeavesSame(w, index, touches, key)
    ensures EntryOf(ApplyAll(w, index, order), key) == EntryOf(ApplyAll(w, index, touches), key)
  {
    ApplyAllUnder(w, index, touches, key);
    ApplyAllUnder(w, index, order, key);
    OrderLeaves(w, index, touches, events, order, key);
    if LastUnder(w, key, order).Some? {
      var path := LastUnder(w, key, order).value.path;
      LastTouchIn(touches, path);
      LastUnderIn(w, key, touches);
    }
  }

  lemma {:induction false} AgreesOnLasting(w: World, index: IndexMap, touches: seq<Touch>, events: Pending, key: Key)
    requires Coalesced(events, touches) && SameInAnyOrder(w, index, touches, events, key)
    ensures LeavesSame(w, index, touches, key)
  {
    ApplyAllUnder(w, index, touches, key);
    if LastUnder(w, key, touches).Some? {
      var t := LastUnder(w, key, touches).value;
      forall path | Lasting(w, key, touches, path)
        ensures Outcome(w, Touch(path, LastTouch(touches, path).value)) == Outcome(w, t)
      {
        PendingLasts(w, key, touches, events, path);
        var order := OrderEnding(events, path);
        ApplyAllUnder(w, index, order, key);
      }
      if forall path :: !Lasting(w, key, touches, path) {
        var order := AnyOrder(events);
        OrderLeaves(w, index, touches, events, order, key);
        ApplyAllUnder(w, index, order, key);
      }
    }
  }

  /** Two paths with one key, the first removed and the second created: some visiting order loses the
      entry that one-by-one handling leaves. */
  lemma SharedKeyWitness(w: World, index: IndexMap, p: Path, q: Path, key: Key, events: Pending)
    requires p != q && Under(w, key, p) && Under(w, key, q) && w.entry(q).Some?
    requires Coalesced(events, [Touch(p, Removed), Touch(q, Created)])
    ensures !SameInAnyOrder(w, index, [Touch(p, Removed), Touch(q, Created)], events, key)
  {
    var touches := [Touch(p, Removed), Touch(q, Created)];
    assert touches[..1] == [Touch(p, Removed)] && touches[..1][..0] == [];
    assert LastTouch(touches[..1], p) == Some(Removed) && Previous(touches[..1], p) == None;
    assert Lasting(w, key, touches, p) && LastUnder(w, key, touches) == Some(Touch(q, Created));
    AnyOrderIff(w, index, touches, events, key);
  }
}
