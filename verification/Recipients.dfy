/** Recipients joined with their messages: the three counted columns, their
    reference totals, and the page-sized metadata lookup. */
module Recipients {
  import opened Sql
  import opened Schema
  import opened Numbers

  const ACK_OVERDUE_AGE := 1_800_000_000

  datatype Column = Unread | Urgent | Overdue

  datatype Tally = Tally(unread: int, urgent: int, overdue: int)
  {
    function Column(c: Column): int {
      match c
      case Unread => unread
      case Urgent => urgent
      case Overdue => overdue
    }
  }

  const ZERO := Tally(0, 0, 0)

  predicate IsUrgent(m: Message) {
    m.importance == Some("urgent") || m.importance == Some("high")
  }

  /** An acknowledgement was asked for before the threshold; a missing value means no. */
  predicate IsOverdue(m: Message, threshold: int) {
    m.ackRequired == Some(1) && m.createdTs.Some? && m.createdTs.value < threshold
  }

  predicate Pending(r: Recipient) {
    r.readTs.None? || r.ackTs.None?
  }

  /** The message found under an id, if any. */
  function FindMessage(messages: seq<Message>, id: int): (found: Option<Message>)
    ensures found.Some? ==> found.value in messages && found.value.id == id
    ensures found.None? ==> forall m :: m in messages ==> m.id != id
  {
    if messages == [] then None
    else if messages[0].id == id then Some(messages[0])
    else FindMessage(messages[1..], id)
  }

  /** The message a recipient belongs to; a dangling recipient joins nothing. */
  function Joined(messages: seq<Message>, r: Recipient): Option<Message> {
    if r.messageId.None? then None else FindMessage(messages, r.messageId.value)
  }

  /** What one recipient adds to one column of one project. */
  function Counted(r: Recipient, m: Option<Message>, threshold: int, project: int, c: Column): int {
    if m.None? || m.value.project != project then 0
    else
      match c
      case Unread => if r.readTs.None? then 1 else 0
      case Urgent => if r.readTs.None? && IsUrgent(m.value) then 1 else 0
      case Overdue => if r.ackTs.None? && IsOverdue(m.value, threshold) then 1 else 0
  }

  ghost function Weight(db: Snapshot, threshold: int, project: int, c: Column): Recipient -> int {
    (r: Recipient) => Counted(r, Joined(db.messages, r), threshold, project, c)
  }

  /** The reference: SUM(CASE ...) over the join, grouped by project. */
  ghost function Total(db: Snapshot, threshold: int, project: int, c: Column): int {
    Sum(db.recipients, Weight(db, threshold, project, c))
  }

  function MessageIds(rows: seq<Recipient>): (ids: set<int>)
    ensures |ids| <= |rows|
    ensures forall r :: r in rows && r.messageId.Some? ==> r.messageId.value in ids
  {
    if rows == [] then {}
    else
      var rest := MessageIds(rows[1..]);
      if rows[0].messageId.Some? then
        assert |{rows[0].messageId.value}| == 1;
        assert |rest + {rows[0].messageId.value}| <= |rest| + 1;
        rest + {rows[0].messageId.value}
      else rest
  }

  lemma FindUnique(messages: seq<Message>, m: Message)
    requires Keyed(messages, MessageId) && m in messages
    ensures FindMessage(messages, m.id) == Some(m)
  {
    var found := FindMessage(messages, m.id).value;
    var i :| 0 <= i < |messages| && messages[i] == m;
    var j :| 0 <= j < |messages| && messages[j] == found;
    assert MessageId(messages[i]) == MessageId(messages[j]);
  }

  /** The metadata of a page: the messages with the given ids. */
  function Metadata(db: Snapshot, rows: seq<Recipient>, page: nat): seq<Message> {
    Lookup(db.messages, MessageId, Sorted(MessageIds(rows)), page)
  }

  /** For the recipients of the page, the looked-up metadata is the join. */
  lemma {:induction false} MetadataJoins(db: Snapshot, rows: seq<Recipient>, page: nat)
    requires db.Valid() && |rows| <= page
    ensures |Metadata(db, rows, page)| <= page
    ensures forall r :: r in rows ==> Joined(Metadata(db, rows, page), r) == Joined(db.messages, r)
  {
    hide Lookup, Sorted, Keyed;
    var ids := Sorted(MessageIds(rows));
    LookupIsExact(db.messages, MessageId, ids, page);
    var metadata := Metadata(db, rows, page);
    forall r | r in rows && r.messageId.Some? ensures Joined(metadata, r) == Joined(db.messages, r) {
      var id := r.messageId.value;
      assert id in ids;
      var found := FindMessage(db.messages, id);
      if found.Some? {
        assert found.value in metadata;
        FindUnique(metadata, found.value);
      }
    }
  }

  // ----- what the three columns count

  ghost predicate SentTo(db: Snapshot, r: Recipient, m: Message) {
    m in db.messages && r.messageId == Some(m.id)
  }

  /** Recipients who have not read a message of the project. */
  ghost function UnreadIn(db: Snapshot, project: int): set<Recipient> {
    set r | r in db.recipients && r.readTs.None? && exists m :: SentTo(db, r, m) && m.project == project
  }

  /** Those whose message is urgent or of high importance. */
  ghost function UrgentIn(db: Snapshot, project: int): set<Recipient> {
    set r | r in db.recipients && r.readTs.None?
            && exists m :: SentTo(db, r, m) && m.project == project
                           && (m.importance == Some("urgent") || m.importance == Some("high"))
  }

  /** Recipients who have not acknowledged a message of the project that asked for it
      more than 1800 seconds (1_800_000_000 microseconds) before. */
  ghost function OverdueIn(db: Snapshot, now: int, project: int): set<Recipient> {
    set r | r in db.recipients && r.ackTs.None?
            && exists m :: SentTo(db, r, m) && m.project == project && m.ackRequired == Some(1)
                           && m.createdTs.Some? && LongAgo(m.createdTs.value, now)
  }

  predicate LongAgo(created: int, now: int) {
    created + 1_800_000_000 < now
  }

  /** For every time a message can have. */
  ghost predicate IsThreshold(threshold: int, now: int) {
    forall created: Int64 :: LongAgo(created, now) <==> created < threshold
  }

  lemma OneMessage(db: Snapshot, r: Recipient, m: Message)
    requires db.Valid() && SentTo(db, r, m)
    ensures Joined(db.messages, r) == Some(m)
  {
    FindUnique(db.messages, m);
  }

  /** The three totals of a project count these recipients. */
  lemma {:induction false} TotalsCount(db: Snapshot, threshold: int, now: int, project: int)
    requires db.Valid() && IsThreshold(threshold, now)
    ensures Total(db, threshold, project, Unread) == |UnreadIn(db, project)|
    ensures Total(db, threshold, project, Urgent) == |UrgentIn(db, project)|
    ensures Total(db, threshold, project, Overdue) == |OverdueIn(db, now, project)|
  {
    forall r | r in db.recipients
      ensures Weight(db, threshold, project, Unread)(r) == if r in UnreadIn(db, project) then 1 else 0
      ensures Weight(db, threshold, project, Urgent)(r) == if r in UrgentIn(db, project) then 1 else 0
      ensures Weight(db, threshold, project, Overdue)(r) == if r in OverdueIn(db, now, project) then 1 else 0
    {
      OneWeight(db, threshold, now, project, r);
    }
    SumIsCount(db.recipients, RecipientRowid, Weight(db, threshold, project, Unread), UnreadIn(db, project));
    SumIsCount(db.recipients, RecipientRowid, Weight(db, threshold, project, Urgent), UrgentIn(db, project));
    SumIsCount(db.recipients, RecipientRowid, Weight(db, threshold, project, Overdue), OverdueIn(db, now, project));
  }

  lemma {:induction false} OneWeight(db: Snapshot, threshold: int, now: int, project: int, r: Recipient)
    requires db.Valid() && IsThreshold(threshold, now) && r in db.recipients
    ensures Weight(db, threshold, project, Unread)(r) == if r in UnreadIn(db, project) then 1 else 0
    ensures Weight(db, threshold, project, Urgent)(r) == if r in UrgentIn(db, project) then 1 else 0
    ensures Weight(db, threshold, project, Overdue)(r) == if r in OverdueIn(db, now, project) then 1 else 0
  {
    hide Snapshot.Valid;
    forall m | SentTo(db, r, m) ensures Joined(db.messages, r) == Some(m) {
      OneMessage(db, r, m);
    }
    var found := Joined(db.messages, r);
    if found.Some? {
      assert SentTo(db, r, found.value);
    }
  }
}
