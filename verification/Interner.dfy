/** The arena string interner: one byte buffer, a table of offsets and a hash index with collision
    buckets. For any hash function it behaves like a list of distinct byte strings. */
module Interner {
  import opened Bytes
  import opened Options
  import opened Collections

  type Bytestring = seq<byte>

  /** Where a string lies in the arena: a `u32` start and a `u16` length. */
  datatype Slot = Slot(start: nat, len: nat)

  type Index = map<nat, seq<nat>>

  const U16: nat := 0x1_0000
  const U32: nat := 0x1_0000_0000

  // ----- Reading the parts -----

  predicate InArena(arena: Bytestring, slot: Slot) {
    slot.start + slot.len <= |arena|
  }

  function Lookup(arena: Bytestring, offsets: seq<Slot>, id: nat): Option<Bytestring> {
    if id < |offsets| && InArena(arena, offsets[id])
    then Some(arena[offsets[id].start..offsets[id].start + offsets[id].len])
    else None
  }

  ghost predicate Intact(arena: Bytestring, offsets: seq<Slot>) {
    forall k :: 0 <= k < |offsets| ==> InArena(arena, offsets[k]) && offsets[k].len < U16
  }

  /** The list of strings the parts stand for. */
  ghost function Strings(arena: Bytestring, offsets: seq<Slot>): (list: seq<Bytestring>)
    requires Intact(arena, offsets)
    ensures |list| == |offsets|
    ensures forall k :: 0 <= k < |list| ==> Lookup(arena, offsets, k) == Some(list[k])
  {
    seq(|offsets|, k requires 0 <= k < |offsets| => arena[offsets[k].start..offsets[k].start + offsets[k].len])
  }

  function Push(index: Index, h: nat, id: nat): Index {
    index[h := (if h in index then index[h] else []) + [id]]
  }

  /** The index that files every string under its hash, in id order. */
  function Buckets(hash: Bytestring -> nat, list: seq<Bytestring>): Index {
    if list == [] then map[]
    else Push(Buckets(hash, list[..|list| - 1]), hash(list[|list| - 1]), |list| - 1)
  }

  lemma {:induction false} BucketsHold(hash: Bytestring -> nat, list: seq<Bytestring>, h: nat, id: nat)
    ensures h in Buckets(hash, list) && id in Buckets(hash, list)[h] <==> id < |list| && hash(list[id]) == h
  {
    if list != [] {
      var shorter := list[..|list| - 1];
      BucketsHold(hash, shorter, h, id);
      var before, x := Buckets(hash, shorter), |list| - 1;
      assert id < |shorter| ==> shorter[id] == list[id];
      if h == hash(list[x]) {
        var bucket := if h in before then before[h] else [];
        assert Buckets(hash, list)[h] == bucket + [x];
        assert id in bucket + [x] <==> id in bucket || id == x;
      }
    }
  }

  lemma BucketsPush(hash: Bytestring -> nat, list: seq<Bytestring>, s: Bytestring)
    ensures Buckets(hash, list + [s]) == Push(Buckets(hash, list), hash(s), |list|)
  {
    assert (list + [s])[..|list|] == list;
  }

  lemma FilePrefix(hash: Bytestring -> nat, list: seq<Bytestring>, id: nat)
    requires id < |list|
    ensures Buckets(hash, list[..id + 1]) == Push(Buckets(hash, list[..id]), hash(list[id]), id)
  {
    assert list[..id + 1][..id] == list[..id];
  }

  /** A string that is not in the bucket of its hash is nowhere. */
  lemma {:induction false} NotInBucket(hash: Bytestring -> nat, list: seq<Bytestring>, s: Bytestring)
    requires forall id :: 0 <= id < |list| && hash(s) in Buckets(hash, list) && id in Buckets(hash, list)[hash(s)] ==>
      list[id] != s
    ensures s !in list
  {
    if s in list {
      var id: nat :| id < |list| && list[id] == s;
      BucketsHold(hash, list, hash(s), id);
      assert false;
    }
  }

  /** Appending to the arena and the offset table appends to the list. */
  lemma {:induction false} StringsGrow(arena: Bytestring, offsets: seq<Slot>, s: Bytestring)
    requires Intact(arena, offsets) && |s| < U16
    ensures Intact(arena + s, offsets + [Slot(|arena|, |s|)])
    ensures Strings(arena + s, offsets + [Slot(|arena|, |s|)]) == Strings(arena, offsets) + [s]
  {
    var arena', offsets' := arena + s, offsets + [Slot(|arena|, |s|)];
    forall k | 0 <= k < |offsets'| ensures InArena(arena', offsets'[k]) && offsets'[k].len < U16 {
      if k < |offsets| {
        assert offsets'[k] == offsets[k];
        assert InArena(arena, offsets[k]);
      }
    }
    assert Intact(arena', offsets');
    var list := Strings(arena', offsets');
    forall k | 0 <= k < |list| ensures list[k] == (Strings(arena, offsets) + [s])[k] {
      if k < |offsets| {
        var slot := offsets[k];
        assert arena'[slot.start..slot.start + slot.len] == arena[slot.start..slot.start + slot.len];
      } else {
        assert arena'[|arena|..|arena| + |s|] == s;
      }
    }
  }

  /** Appending changes no earlier entry. */
  lemma {:induction false} AppendKeepsLookups(arena: Bytestring, offsets: seq<Slot>, s: Bytestring, slot: Slot)
    requires Intact(arena, offsets)
    ensures forall k :: 0 <= k < |offsets| ==> Lookup(arena + s, offsets + [slot], k) == Lookup(arena, offsets, k)
  {
    forall k | 0 <= k < |offsets| ensures Lookup(arena + s, offsets + [slot], k) == Lookup(arena, offsets, k) {
      var entry := offsets[k];
      assert InArena(arena, entry);
      assert (arena + s)[entry.start..entry.start + entry.len] == arena[entry.start..entry.start + entry.len];
    }
  }

  /** What the code appends for a new string, with the widths of its fields. */
  function NewSlot(arena: Bytestring, s: Bytestring): Slot { Slot(|arena| % U32, |s| % U16) }

  /** A new string gets an id of its own, keeps its length, and lies where its start says; the last is
      sure while the arena is under 2^32 bytes. */
  predicate ReadsBack(arena: Bytestring, offsets: seq<Slot>, s: Bytestring) {
    && |offsets| < U32 && |s| < U16
    && (arena + s)[|arena| % U32..|arena| % U32 + |s|] == s
  }

  lemma {:induction false} ReadsBackIff(arena: Bytestring, offsets: seq<Slot>, s: Bytestring)
    requires Intact(arena, offsets) && s !in Strings(arena, offsets)
    ensures var arena', offsets' := arena + s, offsets + [NewSlot(arena, s)];
      && (Lookup(arena', offsets', |offsets| % U32) == Some(s) <==> ReadsBack(arena, offsets, s))
      && (|arena| < U32 && |offsets| < U32 ==> Lookup(arena', offsets', |offsets|) == Some(s[..|s| % U16]))
    ensures |arena| < U32 ==> (ReadsBack(arena, offsets, s) <==> |offsets| < U32 && |s| < U16)
  {
    var arena', slot := arena + s, NewSlot(arena, s);
    assert |arena| < U32 ==> arena'[|arena|..|arena| + slot.len] == s[..slot.len];
    assert |s| < U16 ==> s[..slot.len] == s;
    if |offsets| >= U32 {
      var id := |offsets| % U32;
      AppendKeepsLookups(arena, offsets, s, slot);
      assert Strings(arena, offsets)[id] != s;
    } else {
      assert |arena'[slot.start..slot.start + slot.len]| == slot.len;
    }
  }

  // ----- The abstract interner -----

  /** Position of `s` in a list that holds it. */
  ghost function IndexOf(list: seq<Bytestring>, s: Bytestring): (i: nat)
    requires s in list
    ensures i < |list| && list[i] == s
  {
    if list[0] == s then 0 else 1 + IndexOf(list[1..], s)
  }

  ghost function Interned(list: seq<Bytestring>, s: Bytestring): seq<Bytestring> {
    if s in list then list else list + [s]
  }

  ghost function IdOf(list: seq<Bytestring>, s: Bytestring): (id: nat)
    ensures id < |Interned(list, s)| && Interned(list, s)[id] == s
  {
    if s in list then IndexOf(list, s) else |list|
  }

  ghost function InternedAll(list: seq<Bytestring>, inputs: seq<Bytestring>): seq<Bytestring>
    decreases |inputs|
  {
    if inputs == [] then list else InternedAll(Interned(list, inputs[0]), inputs[1..])
  }

  ghost function IdsOfAll(list: seq<Bytestring>, inputs: seq<Bytestring>): (ids: seq<nat>)
    ensures |ids| == |inputs|
    decreases |inputs|
  {
    if inputs == [] then [] else [IdOf(list, inputs[0])] + IdsOfAll(Interned(list, inputs[0]), inputs[1..])
  }

  lemma {:induction false} InternedOnce(list: seq<Bytestring>, s: Bytestring)
    requires NoDuplicates(list)
    ensures list <= Interned(list, s) && NoDuplicates(Interned(list, s))
    ensures forall x :: x in Interned(list, s) <==> x in list || x == s
  {}

  /** Interning a whole sequence keeps every old id's meaning and keeps the strings distinct; the
      list ends up holding exactly the old strings and the inputs. */
  lemma {:induction false} InternedAllFacts(list: seq<Bytestring>, inputs: seq<Bytestring>)
    requires NoDuplicates(list)
    ensures list <= InternedAll(list, inputs) && NoDuplicates(InternedAll(list, inputs))
    ensures forall s :: s in InternedAll(list, inputs) <==> s in list || s in inputs
    decreases |inputs|
  {
    if inputs != [] {
      hide Interned, NoDuplicates, IdOf;
      InternedOnce(list, inputs[0]);
      InternedAllFacts(Interned(list, inputs[0]), inputs[1..]);
      assert inputs == [inputs[0]] + inputs[1..];
    }
  }

  /** The id handed out for an input stands for that input ever after. */
  lemma {:induction false} IdsStandForInputs(list: seq<Bytestring>, inputs: seq<Bytestring>, k: nat)
    requires NoDuplicates(list) && k < |inputs|
    ensures IdsOfAll(list, inputs)[k] < |InternedAll(list, inputs)|
    ensures InternedAll(list, inputs)[IdsOfAll(list, inputs)[k]] == inputs[k]
    decreases |inputs|
  {
    hide NoDuplicates, IdOf, Interned;
    var next, rest := Interned(list, inputs[0]), inputs[1..];
    InternedOnce(list, inputs[0]);
    if k == 0 {
      InternedAllFacts(next, rest);
    } else {
      IdsStandForInputs(next, rest, k - 1);
    }
  }

  /** Equal ids if and only if equal bytes, over any sequence of interns. */
  lemma {:induction false} EqualIdsIffEqualBytes(list: seq<Bytestring>, inputs: seq<Bytestring>, i: nat, j: nat)
    requires NoDuplicates(list) && i < |inputs| && j < |inputs|
    ensures IdsOfAll(list, inputs)[i] == IdsOfAll(list, inputs)[j] <==> inputs[i] == inputs[j]
  {
    hide InternedAll, IdsOfAll;
    InternedAllFacts(list, inputs);
    IdsStandForInputs(list, inputs, i);
    IdsStandForInputs(list, inputs, j);
  }

  lemma {:induction false} SameId(list: seq<Bytestring>, s: Bytestring, id: nat)
    requires NoDuplicates(list) && id < |Interned(list, s)| && Interned(list, s)[id] == s
    ensures id == IdOf(list, s)
  {
    InternedOnce(list, s);
  }

  lemma {:induction false} InternedAllStep(list: seq<Bytestring>, inputs: seq<Bytestring>, k: nat)
    requires k < |inputs|
    ensures InternedAll(list, inputs[k..]) == InternedAll(Interned(list, inputs[k]), inputs[k + 1..])
    ensures IdsOfAll(list, inputs[k..]) ==
      [IdOf(list, inputs[k])] + IdsOfAll(Interned(list, inputs[k]), inputs[k + 1..])
    ensures TotalLength(inputs[k..]) == |inputs[k]| + TotalLength(inputs[k + 1..])
  {
    assert inputs[k..][0] == inputs[k] && inputs[k..][1..] == inputs[k + 1..];
  }

  lemma PushId(ids: seq<nat>, id: nat, rest: seq<nat>)
    ensures ids + ([id] + rest) == (ids + [id]) + rest
  {}

  lemma NoneLeft(list: seq<Bytestring>, inputs: seq<Bytestring>)
    ensures InternedAll(list, inputs[|inputs|..]) == list && IdsOfAll(list, inputs[|inputs|..]) == []
  {}

  lemma DistinctGrows(list: seq<Bytestring>, s: Bytestring)
    requires NoDuplicates(list) && s !in list
    ensures NoDuplicates(list + [s])
  {}

  lemma NewestFound(list: seq<Bytestring>, s: Bytestring)
    ensures (list + [s])[|list|] == s
  {}

  lemma {:induction false} FoundIsShort(arena: Bytestring, offsets: seq<Slot>, s: Bytestring, id: nat)
    requires Intact(arena, offsets) && id < |offsets| && Strings(arena, offsets)[id] == s
    ensures Lookup(arena, offsets, id) == Some(s) && |s| < U16
    ensures s in Strings(arena, offsets)
  {
    assert InArena(arena, offsets[id]);
  }

  function TotalLength(inputs: seq<Bytestring>): nat {
    if inputs == [] then 0 else |inputs[0]| + TotalLength(inputs[1..])
  }

  // ----- One intern, whatever was put in before -----

  /** The three fields. */
  datatype Parts = Parts(arena: Bytestring, offsets: seq<Slot>, index: Index)

  function Bucket(index: Index, h: nat): seq<nat> { if h in index then index[h] else [] }

  /** The first id of a bucket under which the string is read. */
  function FirstReading(arena: Bytestring, offsets: seq<Slot>, ids: seq<nat>, s: Bytestring): (id: Option<nat>)
    ensures id.Some? ==> id.value in ids && Lookup(arena, offsets, id.value) == Some(s)
    ensures id.None? ==> forall k :: 0 <= k < |ids| ==> Lookup(arena, offsets, ids[k]) != Some(s)
  {
    if ids == [] then None
    else if Lookup(arena, offsets, ids[0]) == Some(s) then Some(ids[0])
    else FirstReading(arena, offsets, ids[1..], s)
  }

  function Found(hash: Bytestring -> nat, p: Parts, s: Bytestring): Option<nat> {
    FirstReading(p.arena, p.offsets, Bucket(p.index, hash(s)), s)
  }

  /** What interning a string makes of the fields, and the id it returns. */
  function Next(hash: Bytestring -> nat, p: Parts, s: Bytestring): Parts {
    if Found(hash, p, s).Some? then p
    else Parts(p.arena + s, p.offsets + [NewSlot(p.arena, s)], Push(p.index, hash(s), |p.offsets| % U32))
  }

  function NextId(hash: Bytestring -> nat, p: Parts, s: Bytestring): nat {
    if Found(hash, p, s).Some? then Found(hash, p, s).value else |p.offsets| % U32
  }

  /** Entries lie in the arena, and the index holds ids of the table only. */
  ghost predicate Sound(p: Parts) {
    && Intact(p.arena, p.offsets)
    && forall h, k :: h in p.index && 0 <= k < |p.index[h]| ==> p.index[h][k] < |p.offsets|
  }

  /** Interning keeps the fields sound and every id's bytes, for strings of any length. */
  lemma {:induction false} NextKeeps(hash: Bytestring -> nat, p: Parts, s: Bytestring)
    requires Sound(p)
    ensures var q := Next(hash, p, s);
      && Sound(q) && |p.offsets| <= |q.offsets| <= |p.offsets| + 1 && |q.arena| <= |p.arena| + |s|
      && forall k :: 0 <= k < |p.offsets| ==> Lookup(q.arena, q.offsets, k) == Lookup(p.arena, p.offsets, k)
  {
    AppendKeepsLookups(p.arena, p.offsets, s, NewSlot(p.arena, s));
    var q := Next(hash, p, s);
    if Found(hash, p, s).None? {
      forall k | 0 <= k < |q.offsets| ensures InArena(q.arena, q.offsets[k]) && q.offsets[k].len < U16 {
        if k < |p.offsets| {
          assert InArena(p.arena, p.offsets[k]);
        }
      }
      forall h, k | h in q.index && 0 <= k < |q.index[h]| ensures q.index[h][k] < |q.offsets| {
        if h == hash(s) && k < |Bucket(p.index, h)| {
          assert q.index[h][k] == p.index[h][k];
        }
      }
    }
  }

  lemma {:induction false} FirstReadingAgrees(arena: Bytestring, offsets: seq<Slot>, arena': Bytestring,
      offsets': seq<Slot>, ids: seq<nat>, more: seq<nat>, t: Bytestring)
    requires forall k :: 0 <= k < |ids| ==> Lookup(arena', offsets', ids[k]) == Lookup(arena, offsets, ids[k])
    ensures FirstReading(arena', offsets', ids + more, t) ==
      if FirstReading(arena, offsets, ids, t).Some? then FirstReading(arena, offsets, ids, t)
      else FirstReading(arena', offsets', more, t)
  {
    hide Lookup;
    if ids == [] {
      assert ids + more == more;
    } else {
      assert (ids + more)[1..] == ids[1..] + more;
      FirstReadingAgrees(arena, offsets, arena', offsets', ids[1..], more, t);
    }
  }

  /** A string once found is found under the same id ever after. */
  lemma {:induction false} FoundStays(hash: Bytestring -> nat, p: Parts, s: Bytestring, t: Bytestring)
    requires Sound(p) && Found(hash, p, t).Some?
    ensures Found(hash, Next(hash, p, s), t) == Found(hash, p, t)
  {
    NextKeeps(hash, p, s);
    var q, h := Next(hash, p, s), hash(t);
    if Found(hash, p, s).None? {
      var more := if h == hash(s) then [|p.offsets| % U32] else [];
      assert Bucket(q.index, h) == Bucket(p.index, h) + more;
      hide Lookup, Sound;
      FirstReadingAgrees(p.arena, p.offsets, q.arena, q.offsets, Bucket(p.index, h), more, t);
    }
  }

  /** Under 2^32 bytes and entries a short string reads back and is found under the id returned. */
  lemma {:induction false} ShortFound(hash: Bytestring -> nat, p: Parts, s: Bytestring)
    requires Sound(p) && |s| < U16 && |p.arena| < U32 && |p.offsets| < U32
    ensures var q, id := Next(hash, p, s), NextId(hash, p, s);
      Lookup(q.arena, q.offsets, id) == Some(s) && Found(hash, q, s) == Some(id)
  {
    NextKeeps(hash, p, s);
    var q, h := Next(hash, p, s), hash(s);
    if Found(hash, p, s).None? {
      var id := |p.offsets|;
      assert q.arena[|p.arena|..|p.arena| + |s|] == s;
      assert Lookup(q.arena, q.offsets, id) == Some(s);
      hide Lookup, Sound;
      FirstReadingAgrees(p.arena, p.offsets, q.arena, q.offsets, Bucket(p.index, h), [id], s);
    }
  }

  // ----- A run of interns -----

  function NextAll(hash: Bytestring -> nat, p: Parts, inputs: seq<Bytestring>): Parts
    decreases |inputs|
  {
    if inputs == [] then p else NextAll(hash, Next(hash, p, inputs[0]), inputs[1..])
  }

  function NextIds(hash: Bytestring -> nat, p: Parts, inputs: seq<Bytestring>): (ids: seq<nat>)
    ensures |ids| == |inputs|
    decreases |inputs|
  {
    if inputs == [] then [] else [NextId(hash, p, inputs[0])] + NextIds(hash, Next(hash, p, inputs[0]), inputs[1..])
  }

  lemma {:induction false} RunKeeps(hash: Bytestring -> nat, p: Parts, inputs: seq<Bytestring>, t: Bytestring, id: nat)
    requires Sound(p)
    ensures Sound(NextAll(hash, p, inputs))
    ensures var q := NextAll(hash, p, inputs);
      && (Found(hash, p, t).Some? ==> Found(hash, q, t) == Found(hash, p, t))
      && (id < |p.offsets| ==> Lookup(q.arena, q.offsets, id) == Lookup(p.arena, p.offsets, id))
    decreases |inputs|
  {
    hide Lookup, Next, Found, Sound;
    if inputs != [] {
      NextKeeps(hash, p, inputs[0]);
      if Found(hash, p, t).Some? {
        FoundStays(hash, p, inputs[0], t);
      }
      RunKeeps(hash, Next(hash, p, inputs[0]), inputs[1..], t, id);
    }
  }

  predicate Roomy(p: Parts, inputs: seq<Bytestring>) {
    |p.arena| + TotalLength(inputs) < U32 && |p.offsets| + |inputs| < U32
  }

  /** In a run under 2^32 bytes and entries, with strings of any length among the inputs, each short one
      still reads back at the end under its id and is found there. */
  lemma {:induction false} ShortStringsStay(hash: Bytestring -> nat, p: Parts, inputs: seq<Bytestring>, k: nat)
    requires Sound(p) && Roomy(p, inputs) && k < |inputs| && |inputs[k]| < U16
    ensures var q, id := NextAll(hash, p, inputs), NextIds(hash, p, inputs)[k];
      Lookup(q.arena, q.offsets, id) == Some(inputs[k]) && Found(hash, q, inputs[k]) == Some(id)
    decreases |inputs|
  {
    var next := Next(hash, p, inputs[0]);
    NextKeeps(hash, p, inputs[0]);
    if k == 0 {
      ShortFound(hash, p, inputs[0]);
      assert NextId(hash, p, inputs[0]) < |next.offsets|;
      hide Lookup, Next, NextId, Found, Sound;
      RunKeeps(hash, next, inputs[1..], inputs[0], NextId(hash, p, inputs[0]));
    } else {
      hide Lookup, Next, NextId, Found, Sound;
      ShortStringsStay(hash, next, inputs[1..], k - 1);
    }
  }

  /** So among the short strings of such a run ids are equal if and only if the bytes are. */
  lemma {:induction false} ShortIdsIffEqual(hash: Bytestring -> nat, p: Parts, inputs: seq<Bytestring>, i: nat, j: nat)
    requires Sound(p) && Roomy(p, inputs) && i < |inputs| && j < |inputs| && |inputs[i]| < U16 && |inputs[j]| < U16
    ensures NextIds(hash, p, inputs)[i] == NextIds(hash, p, inputs)[j] <==> inputs[i] == inputs[j]
  {
    hide NextIds, NextAll, Found, Sound, Roomy;
    ShortStringsStay(hash, p, inputs, i);
    ShortStringsStay(hash, p, inputs, j);
  }

  lemma NextAllStep(hash: Bytestring -> nat, p: Parts, inputs: seq<Bytestring>, k: nat)
    requires k < |inputs|
    ensures NextAll(hash, p, inputs[k..]) == NextAll(hash, Next(hash, p, inputs[k]), inputs[k + 1..])
    ensures NextIds(hash, p, inputs[k..]) ==
      [NextId(hash, p, inputs[k])] + NextIds(hash, Next(hash, p, inputs[k]), inputs[k + 1..])
  {
    hide Next, NextId;
    assert inputs[k..][0] == inputs[k] && inputs[k..][1..] == inputs[k + 1..];
  }

  // ----- The interner itself -----

  class StringInterner {
    const hash: Bytestring -> nat
    var arena: Bytestring
    var offsets: seq<Slot>
    var lookup: Index

    /** The parts are intact, the strings distinct, and the index files exactly them. */
    ghost predicate Valid()
      reads this
    {
      && Intact(arena, offsets)
      && NoDuplicates(Strings(arena, offsets))
      && lookup == Buckets(hash, Strings(arena, offsets))
    }

    ghost function Contents(): seq<Bytestring>
      reads this
      requires Valid()
    {
      Strings(arena, offsets)
    }

    lemma ContentsDistinct()
      requires Valid()
      ensures NoDuplicates(Contents())
    {}

    constructor (hash: Bytestring -> nat)
      ensures Valid() && Contents() == [] && this.hash == hash
    {
      this.hash := hash;
      arena, offsets, lookup := [], [], map[];
    }

    /** Rebuilds the index from the serialized parts; entries outside the arena are skipped. */
    constructor FromParts(hash: Bytestring -> nat, arena: Bytestring, offsets: seq<Slot>)
      ensures this.hash == hash && this.arena == arena && this.offsets == offsets
      ensures Intact(arena, offsets) ==> lookup == Buckets(hash, Strings(arena, offsets))
      ensures Intact(arena, offsets) && NoDuplicates(Strings(arena, offsets)) ==>
        Valid() && Contents() == Strings(arena, offsets)
    {
      var index: Index := map[];
      for id := 0 to |offsets|
        invariant Intact(arena, offsets) ==> index == Buckets(hash, Strings(arena, offsets)[..id])
      {
        match Lookup(arena, offsets, id) {
          case Some(bytes) =>
            if Intact(arena, offsets) {
              FilePrefix(hash, Strings(arena, offsets), id);
            }
            index := Push(index, hash(bytes), id);
          case None =>
            assert !Intact(arena, offsets);
        }
      }
      this.hash, this.arena, this.offsets, this.lookup := hash, arena, offsets, index;
      if Intact(arena, offsets) {
        assert Strings(arena, offsets)[..|offsets|] == Strings(arena, offsets);
      }
    }

    method GetBytes(id: nat) returns (bytes: Option<Bytestring>)
      ensures bytes == Lookup(arena, offsets, id)
      ensures Valid() ==> (bytes == if id < |Contents()| then Some(Contents()[id]) else None)
    {
      bytes := Lookup(arena, offsets, id);
    }

    function Fields(): Parts
      reads this
    {
      Parts(arena, offsets, lookup)
    }

    /** Searches the bucket of the string's hash. */
    method GetBytesId(s: Bytestring) returns (id: Option<nat>)
      ensures id == Found(hash, Fields(), s)
      ensures Valid() ==> (id.Some? <==> s in Contents())
      ensures Valid() && id.Some? ==> id.value < |Contents()| && Contents()[id.value] == s
    {
      var h := hash(s);
      id := None;
      if h in lookup {
        var ids := lookup[h];
        for k := 0 to |ids|
          invariant FirstReading(arena, offsets, ids, s) == FirstReading(arena, offsets, ids[k..], s)
        {
          assert ids[k..][0] == ids[k] && ids[k..][1..] == ids[k + 1..];
          if Lookup(arena, offsets, ids[k]) == Some(s) {
            id := Some(ids[k]);
            break;
          }
        }
      }
      if Valid() {
        FoundInValid(hash, Fields(), s);
      }
    }

    /** Returns the id of a string, adding it when it is not found. Starts and ids are kept in 32 bits and
        lengths in 16, and nothing checks that they fit. */
    method InternBytes(s: Bytestring) returns (id: nat)
      modifies this
      ensures Fields() == Next(hash, old(Fields()), s) && id == NextId(hash, old(Fields()), s)
      ensures old(Valid()) && s in old(Contents()) ==>
        Valid() && Contents() == old(Contents()) && id < |Contents()| && Contents()[id] == s
      ensures old(Valid()) && |s| < U16 && |old(arena)| < U32 && |old(offsets)| < U32 ==>
        Valid() && Contents() == Interned(old(Contents()), s)
      ensures old(Valid()) && |s| < U16 && |old(arena)| < U32 && |old(offsets)| < U32 ==>
        id < |Contents()| && Contents()[id] == s
      ensures old(Valid()) ==>
        (Lookup(arena, offsets, id) == Some(s) <==> s in old(Contents()) || ReadsBack(old(arena), old(offsets), s))
    {
      hide Strings, Intact, NoDuplicates, Buckets, Lookup, IndexOf, ReadsBack;
      ghost var before, valid := Fields(), Valid();
      var found := GetBytesId(s);
      if found.Some? {
        if valid {
          FoundIsShort(arena, offsets, s, found.value);
        }
        return found.value;
      }
      var h := hash(s);
      var start, len := |arena| % U32, |s| % U16;
      id := |offsets| % U32;
      if valid {
        ReadsBackIff(arena, offsets, s);
        if |s| < U16 && |arena| < U32 && |offsets| < U32 {
          StringsGrow(arena, offsets, s);
          BucketsPush(hash, Contents(), s);
          DistinctGrows(Contents(), s);
          NewestFound(Contents(), s);
        }
      }
      arena := arena + s;
      offsets := offsets + [Slot(start, len)];
      lookup := Push(lookup, h, id);
    }

    method Clear()
      modifies this
      ensures Valid() && Contents() == []
    {
      arena, offsets, lookup := [], [], map[];
    }

    /** A whole sequence of interns; from a valid interner, with short strings and within the widths of
        the tables, it refines a list of distinct strings. */
    method InternAll(inputs: seq<Bytestring>) returns (ids: seq<nat>)
      modifies this
      ensures Fields() == NextAll(hash, old(Fields()), inputs) && ids == NextIds(hash, old(Fields()), inputs)
      ensures old(Valid()) && AllShort(inputs) && Roomy(old(Fields()), inputs) ==>
        Valid() && Contents() == InternedAll(old(Contents()), inputs) && ids == IdsOfAll(old(Contents()), inputs)
    {
      hide Valid, InternedAll, IdsOfAll, TotalLength, Contents, NextAll, NextIds, Next, NextId, Found;
      ids := [];
      ghost var fields, exact := Fields(), Valid() && AllShort(inputs) && Roomy(Fields(), inputs);
      ghost var start := if exact then Contents() else [];
      assert inputs[0..] == inputs && [] + NextIds(hash, fields, inputs) == NextIds(hash, fields, inputs);
      assert [] + IdsOfAll(start, inputs) == IdsOfAll(start, inputs);
      for k := 0 to |inputs|
        invariant NextAll(hash, Fields(), inputs[k..]) == NextAll(hash, fields, inputs)
        invariant ids + NextIds(hash, Fields(), inputs[k..]) == NextIds(hash, fields, inputs)
        invariant exact ==> Valid() && Roomy(Fields(), inputs[k..])
        invariant exact ==> InternedAll(Contents(), inputs[k..]) == InternedAll(start, inputs)
        invariant exact ==> ids + IdsOfAll(Contents(), inputs[k..]) == IdsOfAll(start, inputs)
      {
        ghost var p, before := Fields(), if exact then Contents() else [];
        if exact {
          ContentsDistinct();
        }
        NextAllStep(hash, p, inputs, k);
        var id := InternBytes(inputs[k]);
        PushId(ids, id, NextIds(hash, Fields(), inputs[k + 1..]));
        if exact {
          RefineStep(before, inputs, k, id);
          Smaller(hash, p, inputs, k);
          PushId(ids, id, IdsOfAll(Contents(), inputs[k + 1..]));
        }
        ids := ids + [id];
      }
      NothingNext(hash, Fields(), inputs);
      assert ids + [] == ids;
      if exact {
        NoneLeft(Contents(), inputs);
      }
    }
  }

  predicate AllShort(inputs: seq<Bytestring>) {
    forall k :: 0 <= k < |inputs| ==> |inputs[k]| < U16
  }

  lemma NothingNext(hash: Bytestring -> nat, p: Parts, inputs: seq<Bytestring>)
    ensures NextAll(hash, p, inputs[|inputs|..]) == p && NextIds(hash, p, inputs[|inputs|..]) == []
  {
  }

  lemma Smaller(hash: Bytestring -> nat, p: Parts, inputs: seq<Bytestring>, k: nat)
    requires k < |inputs| && Roomy(p, inputs[k..])
    ensures Roomy(Next(hash, p, inputs[k]), inputs[k + 1..])
  {
    hide Found;
    assert inputs[k..][0] == inputs[k] && inputs[k..][1..] == inputs[k + 1..];
  }

  lemma {:induction false} RefineStep(list: seq<Bytestring>, inputs: seq<Bytestring>, k: nat, id: nat)
    requires NoDuplicates(list) && k < |inputs|
    requires id < |Interned(list, inputs[k])| && Interned(list, inputs[k])[id] == inputs[k]
    ensures InternedAll(list, inputs[k..]) == InternedAll(Interned(list, inputs[k]), inputs[k + 1..])
    ensures IdsOfAll(list, inputs[k..]) == [id] + IdsOfAll(Interned(list, inputs[k]), inputs[k + 1..])
  {
    InternedAllStep(list, inputs, k);
    SameId(list, inputs[k], id);
  }

  /** In an intact interner that files exactly its distinct strings, a string is found if it is there. */
  lemma {:induction false} FoundInValid(hash: Bytestring -> nat, p: Parts, s: Bytestring)
    requires Intact(p.arena, p.offsets) && p.index == Buckets(hash, Strings(p.arena, p.offsets))
    ensures var id, list := Found(hash, p, s), Strings(p.arena, p.offsets);
      && (id.Some? <==> s in list) && (id.Some? ==> id.value < |list| && list[id.value] == s)
  {
    var list, h := Strings(p.arena, p.offsets), hash(s);
    var id := Found(hash, p, s);
    if id.Some? {
      BucketsHold(hash, list, h, id.value);
    } else {
      forall m | 0 <= m < |list| && h in p.index && m in p.index[h] ensures list[m] != s {
        var k :| 0 <= k < |p.index[h]| && p.index[h][k] == m;
      }
      NotInBucket(hash, list, s);
    }
  }
}
