/** Records of a parent-linked transcript, as the session reader keeps them: a dictionary from
    uuid to record, in insertion order. */
module ClaudeRecords {
  import opened Options
  import opened Collections

  type Uuid = string

  datatype Kind = UserRecord | AssistantRecord | SystemRecord

  /** The ends of a preserved segment and the record it hangs from; None where no text is given. */
  datatype Segment = Segment(head: Option<Uuid>, anchor: Option<Uuid>, tail: Option<Uuid>)

  /** Whether a record marks a compaction, and the segment it preserves, if it names one. */
  datatype Boundary = NoBoundary | Boundary(segment: Option<Segment>)

  /** `logicalParent` is None when the field is absent; either field may hold no text. */
  datatype Record = Record(
    kind: Kind,
    parentUuid: Option<Uuid>,
    logicalParent: Option<Option<Uuid>>,
    messageId: Option<string>,
    hasToolResult: bool,
    timestamp: string,
    removedUuids: seq<Uuid>,
    boundary: Boundary)

  type Records = map<Uuid, Record>

  predicate NonEmpty(parent: Option<Uuid>) {
    parent.Some? ==> parent.value != ""
  }

  /** The first parent field that holds non-empty text. */
  function ParentOf(record: Record): (parent: Option<Uuid>)
    ensures NonEmpty(parent)
  {
    if record.parentUuid.Some? && record.parentUuid.value != "" then record.parentUuid
    else match record.logicalParent
      case Some(Some(p)) => if p != "" then Some(p) else None
      case _ => None
  }

  /** The parent is what `parentUuid` names, and only if that names nothing, what the logical parent does. */
  lemma ParentIs(record: Record, p: Uuid)
    ensures ParentOf(record) == Some(p) <==>
      p != "" && (record.parentUuid == Some(p) ||
        (record.parentUuid in {None, Some("")} && record.logicalParent == Some(Some(p))))
  {
  }

  /** `u` is listed before `v`. */
  ghost predicate ListedBefore(order: seq<Uuid>, u: Uuid, v: Uuid) {
    exists i, j :: 0 <= i < j < |order| && order[i] == u && order[j] == v
  }

  lemma ListedLater(order: seq<Uuid>, u: Uuid, v: Uuid)
    requires order != [] && ListedBefore(order[1..], u, v)
    ensures ListedBefore(order, u, v)
  {
    var i, j :| 0 <= i < j < |order[1..]| && order[1..][i] == u && order[1..][j] == v;
    assert order[i + 1] == u && order[j + 1] == v;
  }

  function SetParent(record: Record, parent: Option<Uuid>): (r: Record)
    ensures NonEmpty(parent) ==> ParentOf(r) == parent
    ensures r.(parentUuid := record.parentUuid, logicalParent := record.logicalParent) == record
  {
    record.(parentUuid := parent, logicalParent := if record.logicalParent.Some? then Some(parent) else None)
  }

  /** A dictionary in insertion order. */
  ghost predicate IsDictionary(order: seq<Uuid>, records: Records) {
    NoDuplicates(order) && forall u :: u in order <==> u in records
  }
}
