/** The mailbox tables that the overview phases read, as one immutable snapshot. */
module Schema {
  import opened Sql

  const MIN_INT64 := -0x8000_0000_0000_0000
  const MAX_INT64 := 0x7fff_ffff_ffff_ffff

  type Int64 = x: int | MIN_INT64 <= x <= MAX_INT64

  datatype Project = Project(id: Int64, slug: string)

  datatype Agent = Agent(id: Int64, project: Int64)

  datatype Message = Message(id: Int64, project: Int64, importance: Option<string>,
                             ackRequired: Option<Int64>, createdTs: Option<Int64>)

  datatype Recipient = Recipient(rowid: Int64, messageId: Option<Int64>,
                                 readTs: Option<Int64>, ackTs: Option<Int64>)

  datatype Reservation = Reservation(id: Int64, project: Int64, expires: Int64, releasedTs: Option<Int64>)

  /** An index as the schema lists it, with its columns in order; an
      expression column has no name. */
  datatype Index = Index(name: string, partial: bool, columns: seq<Option<string>>)

  /** `hasReleasedTs` and `ledger` are the two release schemas: the legacy
      released_ts column and the file_reservation_releases table. */
  datatype Snapshot = Snapshot(
    projects: seq<Project>, agents: seq<Agent>, messages: seq<Message>, recipients: seq<Recipient>,
    reservations: seq<Reservation>, hasReleasedTs: bool, ledger: Option<seq<Int64>>,
    agentIndexes: seq<Index>, messageIndexes: seq<Index>, recipientIndexes: seq<Index>,
    reservationIndexes: seq<Index>)
  {
    /** Every table's PRIMARY KEY (or rowid) is unique. */
    ghost predicate Valid() {
      && Keyed(projects, ProjectId)
      && Keyed(agents, AgentId)
      && Keyed(messages, MessageId)
      && Keyed(recipients, RecipientRowid)
      && Keyed(reservations, ReservationId)
      && (ledger.Some? ==> Keyed(ledger.value, ReleaseId))
    }

    /** The release predicate of the legacy column: NULL and non-positive
        sentinels mean "not released". */
    predicate Candidate(r: Reservation) {
      hasReleasedTs ==> r.releasedTs.None? || r.releasedTs.value <= 0
    }

    /** Membership in the ledger releases a reservation whatever its time. */
    predicate InLedger(id: Int64) {
      ledger.Some? && id in ledger.value
    }

    predicate Live(now: int, r: Reservation) {
      r.expires > now && Candidate(r) && !InLedger(r.id)
    }
  }

  function ProjectId(p: Project): Key { Key(p.id, 0) }
  function AgentId(a: Agent): Key { Key(a.id, 0) }
  function MessageId(m: Message): Key { Key(m.id, 0) }
  function RecipientRowid(r: Recipient): Key { Key(r.rowid, 0) }
  function ReleaseId(id: Int64): Key { Key(id, 0) }
  function ReservationId(r: Reservation): Key { Key(r.id, 0) }

  /** The first full (not partial) index whose leading columns are `prefix`. */
  method IndexWithPrefix(indexes: seq<Index>, prefix: seq<string>) returns (found: Option<string>)
    ensures found == FirstUsable(indexes, prefix)
    ensures found.Some? <==> exists ix :: ix in indexes && Usable(ix, prefix)
    ensures found.Some? ==>
              exists i :: 0 <= i < |indexes| && found == Some(indexes[i].name) && LeadsWith(indexes[i], prefix)
                && forall k :: 0 <= k < i ==> !LeadsWith(indexes[k], prefix)
  {
    hide LeadsWith, Usable;
    forall ix ensures Usable(ix, prefix) <==> LeadsWith(ix, prefix) {
      UsableMeans(ix, prefix);
    }
    for i := 0 to |indexes|
      invariant forall k :: 0 <= k < i ==> !Usable(indexes[k], prefix)
      invariant FirstUsable(indexes, prefix) == FirstUsable(indexes[i..], prefix)
    {
      if Usable(indexes[i], prefix) {
        return Some(indexes[i].name);
      }
    }
    found := None;
  }

  predicate Usable(ix: Index, prefix: seq<string>) {
    !ix.partial && |prefix| <= |ix.columns| && forall i :: 0 <= i < |prefix| ==> ix.columns[i] == Some(prefix[i])
  }

  /** In words: an index of all rows that is sorted by these columns first. */
  ghost predicate LeadsWith(ix: Index, prefix: seq<string>) {
    && !ix.partial && |prefix| <= |ix.columns|
    && ix.columns[..|prefix|] == seq(|prefix|, i requires 0 <= i < |prefix| => Some(prefix[i]))
  }

  lemma UsableMeans(ix: Index, prefix: seq<string>)
    ensures Usable(ix, prefix) <==> LeadsWith(ix, prefix)
  {
    var leading := seq(|prefix|, i requires 0 <= i < |prefix| => Some(prefix[i]));
    if |prefix| <= |ix.columns| {
      assert forall i :: 0 <= i < |prefix| ==> ix.columns[..|prefix|][i] == ix.columns[i];
    }
  }

  function FirstUsable(indexes: seq<Index>, prefix: seq<string>): Option<string> {
    if indexes == [] then None
    else if Usable(indexes[0], prefix) then Some(indexes[0].name)
    else FirstUsable(indexes[1..], prefix)
  }

  predicate HasIndex(indexes: seq<Index>, prefix: seq<string>) {
    exists ix :: ix in indexes && Usable(ix, prefix)
  }

  /** A reservation that is still held at a time: it expires later, no positive release
      time is recorded in it where such a column exists, and it is in no ledger. */
  ghost predicate StillHeld(db: Snapshot, now: int, r: Reservation) {
    && r.expires > now
    && (db.hasReleasedTs && r.releasedTs.Some? ==> r.releasedTs.value <= 0)
    && (db.ledger.Some? ==> forall id :: id in db.ledger.value ==> id != r.id)
  }

  lemma LiveIsHeld(db: Snapshot, now: int, r: Reservation)
    ensures db.Live(now, r) <==> StillHeld(db, now, r)
  {
  }
}
