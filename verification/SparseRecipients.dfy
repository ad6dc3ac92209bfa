/** The indexed recipient phase: unread recipients in one pass, read but
    unacknowledged ones per overdue message in another, with seeks over settled
    stretches. Every strategy must give the joined reference counts.
 */
module SparseRecipients {
  import opened Sql
  import opened Schema
  import opened Paging
  import opened Recipients

  datatype Work = Work(queries: nat, recipientRows: nat, sampleRows: nat, messageLookupRows: nat,
                       ackMessageRows: nat, ackCountRows: nat, ackSeekRows: nat, sparse: bool)

  const NO_WORK := Work(0, 0, 0, 0, 0, 0, 0, false)

  datatype Group = Group(messageId: int, count: nat)

  function Threshold(now: int): int {
    if now - ACK_OVERDUE_AGE < MIN_INT64 then MIN_INT64 else now - ACK_OVERDUE_AGE
  }

  function Cell(counts: map<int, Tally>, project: int, c: Column): int {
    if project in counts then counts[project].Column(c) else 0
  }

  /** The joined and grouped answer, without all-zero projects. */
  ghost function Reference(db: Snapshot, threshold: int): map<int, Tally> {
    map p | p in MessageProjects(db) && TotalTally(db, threshold, p) != ZERO :: TotalTally(db, threshold, p)
  }

  ghost function MessageProjects(db: Snapshot): set<int> {
    set m | m in db.messages :: m.project
  }

  ghost function TotalTally(db: Snapshot, threshold: int, project: int): Tally {
    Tally(Total(db, threshold, project, Unread), Total(db, threshold, project, Urgent),
          Total(db, threshold, project, Overdue))
  }

  /** UNREAD_FILTER, or the wider RECIPIENT_FILTER of the row scan. */
  function Wanted(sparse: bool): Recipient -> bool {
    (r: Recipient) => if sparse then r.readTs.None? else Pending(r)
  }

  ghost function UnreadPart(db: Snapshot, threshold: int, project: int, c: Column): Recipient -> int {
    (r: Recipient) => if r.readTs.None? then Weight(db, threshold, project, c)(r) else 0
  }

  predicate ReadUnacked(r: Recipient) {
    r.readTs.Some? && r.ackTs.None? && r.messageId.Some?
  }

  /** A read, unacknowledged recipient of one of `messages` in the project. */
  function AckOne(messages: seq<Message>, project: int, r: Recipient): int {
    if !ReadUnacked(r) then 0
    else
      var m := FindMessage(messages, r.messageId.value);
      if m.Some? && m.value.project == project then 1 else 0
  }

  ghost function AckIn(messages: seq<Message>, project: int): Recipient -> int {
    (r: Recipient) => AckOne(messages, project, r)
  }

  function OverdueFilter(threshold: int): Message -> bool {
    (m: Message) => IsOverdue(m, threshold)
  }

  ghost function OverdueMessages(db: Snapshot, threshold: int): seq<Message> {
    Scan(db.messages, OverdueFilter(threshold), MessageId)
  }

  // ----- the page of recipients

  ghost predicate Tallied(db: Snapshot, threshold: int, counts: map<int, Tally>, rows: seq<Recipient>) {
    forall p, c :: Cell(counts, p, c) == Sum(rows, Weight(db, threshold, p, c))
  }

  /** The loop body of the recipient pass. */
  function AddRecipient(counts: map<int, Tally>, r: Recipient, found: Option<Message>, threshold: int)
    : map<int, Tally>
  {
    if found.None? then counts
    else
      var m := found.value;
      var value := if m.project in counts then counts[m.project] else ZERO;
      var first := if r.readTs.None? then
        value.(unread := value.unread + 1, urgent := value.urgent + if IsUrgent(m) then 1 else 0)
      else value;
      counts[m.project :=
          if IsOverdue(m, threshold) && r.ackTs.None? then first.(overdue := first.overdue + 1) else first]
  }

  lemma {:induction false} AddRecipientCounts(counts: map<int, Tally>, r: Recipient, found: Option<Message>,
                                              threshold: int, p: int, c: Column)
    ensures Cell(AddRecipient(counts, r, found, threshold), p, c)
            == Cell(counts, p, c) + Counted(r, found, threshold, p, c)
  {
  }

  lemma NothingTallied(db: Snapshot, threshold: int)
    ensures Tallied(db, threshold, map[], [])
  {
  }

  lemma RecipientsKeyed(db: Snapshot)
    requires db.Valid()
    ensures Keyed(db.recipients, RecipientRowid) && SingleColumn(db.recipients, RecipientRowid)
  {
  }

  lemma {:induction false} TalliedMore(db: Snapshot, threshold: int, counts: map<int, Tally>, seen: seq<Recipient>,
                                       r: Recipient)
    requires Tallied(db, threshold, counts, seen)
    ensures Tallied(db, threshold, AddRecipient(counts, r, Joined(db.messages, r), threshold), seen + [r])
  {
    var after := AddRecipient(counts, r, Joined(db.messages, r), threshold);
    forall p, c ensures Cell(after, p, c) == Sum(seen + [r], Weight(db, threshold, p, c)) {
      AddRecipientCounts(counts, r, Joined(db.messages, r), threshold, p, c);
      assert (seen + [r])[..|seen|] == seen;
    }
  }

  // ----- what the unread pass leaves to the acknowledgement pass

  lemma {:induction false} WideScanIsTotal(db: Snapshot, threshold: int, p: int, c: Column)
    ensures Sum(Scan(db.recipients, Wanted(false), RecipientRowid), Weight(db, threshold, p, c))
            == Total(db, threshold, p, c)
  {
    SumScan(db.recipients, Wanted(false), RecipientRowid, Weight(db, threshold, p, c));
  }

  /** The unread pass and the read-unacknowledged recipients of overdue messages
      partition every total. */
  lemma {:induction false} Partition(db: Snapshot, threshold: int, p: int, c: Column)
    requires db.Valid()
    ensures Total(db, threshold, p, c) ==
              Sum(Scan(db.recipients, Wanted(true), RecipientRowid), Weight(db, threshold, p, c))
              + if c.Overdue? then Sum(db.recipients, AckIn(OverdueMessages(db, threshold), p)) else 0
  {
    var unread := Scan(db.recipients, Wanted(true), RecipientRowid);
    var overdue := OverdueMessages(db, threshold);
    SumAgree(unread, Weight(db, threshold, p, c), UnreadPart(db, threshold, p, c));
    SumScan(db.recipients, Wanted(true), RecipientRowid, UnreadPart(db, threshold, p, c));
    if c.Overdue? {
      forall r | r in db.recipients
        ensures Weight(db, threshold, p, c)(r) == UnreadPart(db, threshold, p, c)(r) + AckIn(overdue, p)(r)
      {
        OverdueJoin(db, threshold, r);
      }
      SumSplit(db.recipients, Weight(db, threshold, p, c), UnreadPart(db, threshold, p, c), AckIn(overdue, p));
    } else {
      SumAgree(db.recipients, Weight(db, threshold, p, c), UnreadPart(db, threshold, p, c));
    }
  }

  /** Joining with the overdue messages alone finds the message iff it is overdue. */
  lemma {:induction false} OverdueJoin(db: Snapshot, threshold: int, r: Recipient)
    requires db.Valid()
    ensures var m := Joined(db.messages, r);
            Joined(OverdueMessages(db, threshold), r) ==
              if m.Some? && IsOverdue(m.value, threshold) then m else None
  {
    if r.messageId.Some? {
      var overdue := OverdueMessages(db, threshold);
      var m := FindMessage(overdue, r.messageId.value);
      if m.Some? {
        assert OverdueFilter(threshold)(m.value);
        FindUnique(db.messages, m.value);
      } else {
        var found := FindMessage(db.messages, r.messageId.value);
        if found.Some? {
          assert found.value in db.messages && found.value !in overdue;
        }
      }
    }
  }

  /** A project without messages counts nothing. */
  lemma {:induction false} NoMessagesNoTotal(db: Snapshot, threshold: int, p: int, c: Column)
    requires p !in MessageProjects(db)
    ensures Total(db, threshold, p, c) == 0
  {
    forall r | r in db.recipients ensures Weight(db, threshold, p, c)(r) == 0 {
      var m := Joined(db.messages, r);
      assert m.Some? ==> m.value.project in MessageProjects(db);
    }
    SumZero(db.recipients, Weight(db, threshold, p, c));
  }

  function NonZero(counts: map<int, Tally>): map<int, Tally> {
    map p | p in counts && counts[p] != ZERO :: counts[p]
  }

  lemma {:induction false} CellsDecide(db: Snapshot, threshold: int, counts: map<int, Tally>, p: int)
    requires forall c :: Cell(counts, p, c) == Total(db, threshold, p, c)
    ensures TotalTally(db, threshold, p) == if p in counts then counts[p] else ZERO
    ensures p !in MessageProjects(db) ==> TotalTally(db, threshold, p) == ZERO
  {
    assert Cell(counts, p, Unread) == Total(db, threshold, p, Unread);
    assert Cell(counts, p, Urgent) == Total(db, threshold, p, Urgent);
    assert Cell(counts, p, Overdue) == Total(db, threshold, p, Overdue);
    if p !in MessageProjects(db) {
      NoMessagesNoTotal(db, threshold, p, Unread);
      NoMessagesNoTotal(db, threshold, p, Urgent);
      NoMessagesNoTotal(db, threshold, p, Overdue);
    }
  }

  /** Right cells give the right dictionary: zero rows are dropped on both sides. */
  /** The answer in words: per project the unread, the unread urgent, and the overdue
      recipients, and no project with none of them. */
  ghost predicate CountsRecipients(db: Snapshot, now: int, result: map<int, Tally>) {
    && (forall p :: p in result ==> result[p] != Tally(0, 0, 0))
    && (forall p :: ProjectCounted(db, now, p, if p in result then result[p] else Tally(0, 0, 0)))
  }

  ghost predicate ProjectCounted(db: Snapshot, now: int, project: int, tally: Tally) {
    && tally.unread == |UnreadIn(db, project)| && tally.urgent == |UrgentIn(db, project)|
    && tally.overdue == |OverdueIn(db, now, project)|
  }

  lemma ThresholdIs(now: int)
    ensures IsThreshold(Threshold(now), now)
  {
  }

  lemma {:induction false} ReferenceCounts(db: Snapshot, now: int)
    requires db.Valid()
    ensures CountsRecipients(db, now, Reference(db, Threshold(now)))
  {
    hide Snapshot.Valid, IsThreshold, Total, UnreadIn, UrgentIn, OverdueIn, MessageProjects;
    ThresholdIs(now);
    var result := Reference(db, Threshold(now));
    forall p ensures ProjectCounted(db, now, p, if p in result then result[p] else Tally(0, 0, 0)) {
      TotalsCount(db, Threshold(now), now, p);
      if p !in MessageProjects(db) {
        NobodyIn(db, now, p);
      }
    }
  }

  lemma NobodyIn(db: Snapshot, now: int, project: int)
    requires project !in MessageProjects(db)
    ensures UnreadIn(db, project) == UrgentIn(db, project) == OverdueIn(db, now, project) == {}
  {
  }

  lemma {:induction false} ResultIsReference(db: Snapshot, threshold: int, counts: map<int, Tally>)
    requires forall p, c :: Cell(counts, p, c) == Total(db, threshold, p, c)
    ensures NonZero(counts) == Reference(db, threshold)
  {
    hide TotalTally;
    var reference := Reference(db, threshold);
    forall p: int
      ensures p in NonZero(counts) <==> p in reference
      ensures p in reference ==> NonZero(counts)[p] == reference[p]
    {
      CellsDecide(db, threshold, counts, p);
    }
    assert NonZero(counts).Keys == reference.Keys;
  }

  // ----- grouped acknowledgement counts of one page of messages

  function PendingOf(id: int): Recipient -> bool {
    (r: Recipient) => ReadUnacked(r) && r.messageId.value == id
  }

  /** The pending recipients of the given messages, counted message by message. */
  function Groups(recipients: seq<Recipient>, messages: seq<Message>): (groups: seq<Group>)
    ensures |groups| <= |messages|
    ensures forall g :: g in groups ==> exists m :: m in messages && m.id == g.messageId
  {
    if messages == [] then []
    else
      var last := messages[|messages| - 1];
      var before := Groups(recipients, messages[..|messages| - 1]);
      var n := |Filter(recipients, PendingOf(last.id))|;
      assert forall m :: m in messages[..|messages| - 1] ==> m in messages;
      if n > 0 then before + [Group(last.id, n)] else before
  }

  function GroupTotal(groups: seq<Group>, messages: seq<Message>, project: int): int {
    if groups == [] then 0
    else
      var last := groups[|groups| - 1];
      var m := FindMessage(messages, last.messageId);
      GroupTotal(groups[..|groups| - 1], messages, project)
        + if m.Some? && m.value.project == project then last.count else 0
  }

  ghost function Indicator(keep: Recipient -> bool): Recipient -> int {
    (r: Recipient) => if keep(r) then 1 else 0
  }

  lemma FilterCount(rows: seq<Recipient>, keep: Recipient -> bool)
    ensures |Filter(rows, keep)| == Sum(rows, Indicator(keep))
  {
    if rows != [] {
      FilterCount(rows[1..], keep);
      SumCons(rows[0], rows[1..], Indicator(keep));
      assert rows == [rows[0]] + rows[1..];
    }
  }

  lemma FindAppend(a: seq<Message>, b: seq<Message>, id: int)
    ensures FindMessage(a + b, id) == if FindMessage(a, id).Some? then FindMessage(a, id) else FindMessage(b, id)
  {
    if a == [] {
      assert a + b == b;
    } else {
      assert (a + b)[1..] == a[1..] + b;
      FindAppend(a[1..], b, id);
    }
  }

  /** Disjoint stretches of messages contribute separately. */
  lemma {:induction false} AckSplit(recipients: seq<Recipient>, a: seq<Message>, b: seq<Message>, p: int)
    requires forall m, n :: m in a && n in b ==> m.id != n.id
    ensures Sum(recipients, AckIn(a + b, p)) == Sum(recipients, AckIn(a, p)) + Sum(recipients, AckIn(b, p))
  {
    forall r | r in recipients ensures AckIn(a + b, p)(r) == AckIn(a, p)(r) + AckIn(b, p)(r) {
      if ReadUnacked(r) {
        FindAppend(a, b, r.messageId.value);
      }
    }
    SumSplit(recipients, AckIn(a + b, p), AckIn(a, p), AckIn(b, p));
  }

  lemma {:induction false} AckOfOne(recipients: seq<Recipient>, m: Message, p: int)
    ensures Sum(recipients, AckIn([m], p)) == if m.project == p then |Filter(recipients, PendingOf(m.id))| else 0
  {
    if m.project == p {
      FilterCount(recipients, PendingOf(m.id));
      SumAgree(recipients, AckIn([m], p), Indicator(PendingOf(m.id)));
    } else {
      SumZero(recipients, AckIn([m], p));
    }
  }

  lemma NothingGrouped(recipients: seq<Recipient>, messages: seq<Message>, p: int)
    ensures GroupTotal(Groups(recipients, messages[..0]), messages, p) == Sum(recipients, AckIn(messages[..0], p)) == 0
  {
    SumZero(recipients, AckIn(messages[..0], p));
  }

  lemma {:induction false} GroupsNext(recipients: seq<Recipient>, messages: seq<Message>, n: nat, p: int)
    requires Keyed(messages, MessageId) && 0 < n <= |messages|
    ensures GroupTotal(Groups(recipients, messages[..n]), messages, p)
            == GroupTotal(Groups(recipients, messages[..n - 1]), messages, p)
               + if messages[n - 1].project == p then |Filter(recipients, PendingOf(messages[n - 1].id))| else 0
  {
    hide Keyed, Filter, PendingOf, FindMessage;
    var m := messages[n - 1];
    FindUnique(messages, m);
    assert messages[..n][..n - 1] == messages[..n - 1];
    var groups := Groups(recipients, messages[..n - 1]);
    assert (groups + [Group(m.id, |Filter(recipients, PendingOf(m.id))|)])[..|groups|] == groups;
  }

  lemma {:induction false} EarlierDiffer(messages: seq<Message>, n: nat)
    requires Keyed(messages, MessageId) && 0 < n <= |messages|
    ensures forall a, b :: a in messages[..n - 1] && b in [messages[n - 1]] ==> a.id != b.id
  {
    forall a, b | a in messages[..n - 1] && b in [messages[n - 1]] ensures a.id != b.id {
      var i :| 0 <= i < n - 1 && messages[..n - 1][i] == a;
      assert MessageId(messages[i]) != MessageId(messages[n - 1]);
    }
  }

  /** Adding up the groups gives every read-unacknowledged recipient of the page. */
  lemma {:induction false} GroupsCount(recipients: seq<Recipient>, messages: seq<Message>, n: nat, p: int)
    requires Keyed(messages, MessageId) && n <= |messages|
    ensures GroupTotal(Groups(recipients, messages[..n]), messages, p) == Sum(recipients, AckIn(messages[..n], p))
  {
    hide Sum, AckIn, Filter, PendingOf, Groups, GroupTotal, Keyed;
    if n == 0 {
      NothingGrouped(recipients, messages, p);
    } else {
      GroupsCount(recipients, messages, n - 1, p);
      GroupsNext(recipients, messages, n, p);
      EarlierDiffer(messages, n);
      assert messages[..n] == messages[..n - 1] + [messages[n - 1]];
      AckSplit(recipients, messages[..n - 1], [messages[n - 1]], p);
      AckOfOne(recipients, messages[n - 1], p);
    }
  }

  // ----- the position of the acknowledgement walk

  /** The walk has dealt with exactly the first `k` overdue messages. */
  ghost predicate Frontier(overdue: seq<Message>, lower: Option<int>, inclusive: bool, k: nat) {
    && k <= |overdue|
    && forall i :: 0 <= i < |overdue| ==>
         (i < k <==> lower.Some? && (overdue[i].id < lower.value || (overdue[i].id == lower.value && !inclusive)))
  }

  function AckResumed(threshold: int, lower: Option<int>, inclusive: bool): Message -> bool {
    (m: Message) => IsOverdue(m, threshold)
                    && (lower.None? || m.id > lower.value || (inclusive && m.id == lower.value))
  }

  function AckQuery(db: Snapshot, threshold: int, lower: Option<int>, inclusive: bool, page: nat): seq<Message> {
    Select(db.messages, AckResumed(threshold, lower, inclusive), MessageId, page)
  }

  ghost function Least(a: nat, b: nat): nat { if a <= b then a else b }

  lemma {:induction false} AckPageIs(db: Snapshot, threshold: int, lower: Option<int>, inclusive: bool, k: nat,
                                     page: nat)
    requires db.Valid()
    requires Frontier(OverdueMessages(db, threshold), lower, inclusive, k)
    ensures var overdue := OverdueMessages(db, threshold);
            AckQuery(db, threshold, lower, inclusive, page) == overdue[k..Least(k + page, |overdue|)]
  {
    var overdue := OverdueMessages(db, threshold);
    hide Keyed, Select;
    forall i | 0 <= i < |overdue|
      ensures AckResumed(threshold, lower, inclusive)(overdue[i]) <==> k <= i
    {
      assert overdue[i] in overdue;
      assert OverdueFilter(threshold)(overdue[i]);
    }
    ResumedPage(db.messages, OverdueFilter(threshold), AckResumed(threshold, lower, inclusive), MessageId, k, page);
  }

  lemma {:induction false} OverdueOrdered(db: Snapshot, threshold: int)
    requires db.Valid()
    ensures Keyed(OverdueMessages(db, threshold), MessageId)
    ensures var overdue := OverdueMessages(db, threshold);
            forall i, j :: 0 <= i < j < |overdue| ==> overdue[i].id < overdue[j].id
  {
    ScanOrdered(db.messages, OverdueFilter(threshold), MessageId);
    hide Scan;
    var overdue := OverdueMessages(db, threshold);
    forall i, j | 0 <= i < j < |overdue| ensures overdue[i].id < overdue[j].id {
      assert Precedes(MessageId(overdue[i]), MessageId(overdue[j]));
    }
  }

  function MessageKey(r: Recipient): Key {
    Key(if r.messageId.Some? then r.messageId.value else 0, r.rowid)
  }

  /** Pending acknowledgements; whether they were read is deliberately not asked. */
  function UnackedAfter(after: Option<int>): Recipient -> bool {
    (r: Recipient) => r.ackTs.None? && r.messageId.Some? && (after.None? || r.messageId.value > after.value)
  }

  function SeekQuery(db: Snapshot, after: Option<int>): seq<Recipient> {
    Select(db.recipients, UnackedAfter(after), MessageKey, 1)
  }

  ghost predicate NextAfter(db: Snapshot, after: Option<int>, next: Option<int>) {
    && (next.Some? && after.Some? ==> next.value > after.value)
    && forall r :: r in db.recipients && UnackedAfter(after)(r) ==> next.Some? && next.value <= r.messageId.value
  }

  lemma MessageKeyed(recipients: seq<Recipient>)
    requires Keyed(recipients, RecipientRowid)
    ensures Keyed(recipients, MessageKey)
  {
    forall i, j | 0 <= i < j < |recipients| ensures MessageKey(recipients[i]) != MessageKey(recipients[j]) {
      assert RecipientRowid(recipients[i]) != RecipientRowid(recipients[j]);
    }
  }

  lemma {:induction false} SeekFinds(db: Snapshot, after: Option<int>)
    requires db.Valid()
    ensures var rows := SeekQuery(db, after);
            && |rows| <= 1
            && (rows != [] ==> rows[0].messageId.Some?)
            && NextAfter(db, after, if rows == [] then None else rows[0].messageId)
  {
    MessageKeyed(db.recipients);
    hide Keyed, Select, Snapshot.Valid;
    FirstRow(db.recipients, UnackedAfter(after), MessageKey);
  }

  lemma FirstFrom(overdue: seq<Message>, bound: int, k: nat) returns (j: nat)
    requires k <= |overdue|
    requires forall a, b :: 0 <= a < b < |overdue| ==> overdue[a].id < overdue[b].id
    requires forall i :: 0 <= i < k ==> overdue[i].id < bound
    ensures k <= j <= |overdue|
    ensures forall i :: 0 <= i < |overdue| ==> (i < j <==> overdue[i].id < bound)
    decreases |overdue| - k
  {
    if k == |overdue| || overdue[k].id >= bound {
      j := k;
    } else {
      j := FirstFrom(overdue, bound, k + 1);
    }
  }

  /** A seek skips no obligation: the overdue messages it passes over have no
      unacknowledged recipient at all. */
  lemma {:induction false} Jump(db: Snapshot, threshold: int, k: nat, after: Option<int>, next: Option<int>)
    returns (j: nat)
    requires db.Valid()
    requires k <= |OverdueMessages(db, threshold)|
    requires after == if k == 0 then None else Some(OverdueMessages(db, threshold)[k - 1].id)
    requires NextAfter(db, after, next)
    ensures k <= j <= |OverdueMessages(db, threshold)|
    ensures next.Some? ==> Frontier(OverdueMessages(db, threshold), next, true, j)
    ensures next.None? ==> j == |OverdueMessages(db, threshold)|
    ensures forall p :: Sum(db.recipients, AckIn(OverdueMessages(db, threshold)[..j], p))
                     == Sum(db.recipients, AckIn(OverdueMessages(db, threshold)[..k], p))
  {
    var overdue := OverdueMessages(db, threshold);
    OverdueOrdered(db, threshold);
    hide OverdueMessages, Snapshot.Valid, Sum;
    if next.Some? {
      assert forall i :: 0 <= i < k - 1 ==> overdue[i].id < overdue[k - 1].id;
      j := FirstFrom(overdue, next.value, k);
    } else {
      j := |overdue|;
    }
    forall p ensures Sum(db.recipients, AckIn(overdue[..j], p)) == Sum(db.recipients, AckIn(overdue[..k], p)) {
      SkippedAddsNothing(db, overdue, k, j, after, next, p);
    }
  }

  lemma {:induction false} SkippedAddsNothing(db: Snapshot, overdue: seq<Message>, k: nat, j: nat,
                                              after: Option<int>, next: Option<int>, p: int)
    requires k <= j <= |overdue| && NextAfter(db, after, next)
    requires forall a, b :: 0 <= a < b < |overdue| ==> overdue[a].id < overdue[b].id
    requires after == if k == 0 then None else Some(overdue[k - 1].id)
    requires next.Some? ==> forall i :: 0 <= i < j ==> overdue[i].id < next.value
    ensures Sum(db.recipients, AckIn(overdue[..j], p)) == Sum(db.recipients, AckIn(overdue[..k], p))
  {
    var skipped := overdue[k..j];
    assert overdue[..j] == overdue[..k] + skipped;
    forall m, n | m in overdue[..k] && n in skipped ensures m.id != n.id {
      var a :| 0 <= a < k && overdue[..k][a] == m;
      var b :| 0 <= b < |skipped| && skipped[b] == n;
      assert overdue[a].id < overdue[b + k].id;
    }
    AckSplit(db.recipients, overdue[..k], skipped, p);
    forall r | r in db.recipients ensures AckIn(skipped, p)(r) == 0 {
      SkippedIsSettled(db, overdue, k, j, after, next, r);
    }
    SumZero(db.recipients, AckIn(skipped, p));
  }

  lemma {:induction false} SkippedIsSettled(db: Snapshot, overdue: seq<Message>, k: nat, j: nat,
                                            after: Option<int>, next: Option<int>, r: Recipient)
    requires k <= j <= |overdue| && r in db.recipients && NextAfter(db, after, next)
    requires forall a, b :: 0 <= a < b < |overdue| ==> overdue[a].id < overdue[b].id
    requires after == if k == 0 then None else Some(overdue[k - 1].id)
    requires next.Some? ==> forall i :: 0 <= i < j ==> overdue[i].id < next.value
    ensures r.ackTs.Some? || r.messageId.None? || FindMessage(overdue[k..j], r.messageId.value).None?
  {
    if r.ackTs.None? && r.messageId.Some? {
      forall m | m in overdue[k..j] ensures m.id != r.messageId.value {
        var i :| 0 <= i < j - k && overdue[k..j][i] == m;
        assert k > 0 ==> overdue[k - 1].id < overdue[k + i].id;
        assert UnackedAfter(after)(r) == (after.None? || r.messageId.value > after.value);
      }
    }
  }

  // ----- what the acknowledgement walk has added so far

  ghost function AckTotal(db: Snapshot, threshold: int, p: int, c: Column): int {
    if c.Overdue? then Sum(db.recipients, AckIn(OverdueMessages(db, threshold), p)) else 0
  }

  ghost predicate Acked(db: Snapshot, before: map<int, Tally>, counts: map<int, Tally>, messages: seq<Message>) {
    forall p, c :: Cell(counts, p, c) == Cell(before, p, c) +
                     if c.Overdue? then Sum(db.recipients, AckIn(messages, p)) else 0
  }

  lemma {:induction false} NothingAcked(db: Snapshot, before: map<int, Tally>, overdue: seq<Message>, page: nat)
    ensures Acked(db, before, before, overdue[..0])
    ensures Frontier(overdue, None, false, 0)
    ensures RowsOf(0, page) == 0
  {
    forall p ensures Sum(db.recipients, AckIn(overdue[..0], p)) == 0 {
      SumZero(db.recipients, AckIn(overdue[..0], p));
    }
  }

  lemma {:induction false} AckedAll(db: Snapshot, threshold: int, before: map<int, Tally>, counts: map<int, Tally>)
    requires var overdue := OverdueMessages(db, threshold); Acked(db, before, counts, overdue[..|overdue|])
    ensures forall p, c :: Cell(counts, p, c) == Cell(before, p, c) + AckTotal(db, threshold, p, c)
  {
    var overdue := OverdueMessages(db, threshold);
    assert overdue[..|overdue|] == overdue;
  }

  lemma {:induction false} JumpAcked(db: Snapshot, threshold: int, before: map<int, Tally>, counts: map<int, Tally>,
                                     k: nat, after: Option<int>, next: Option<int>) returns (j: nat)
    requires db.Valid()
    requires k <= |OverdueMessages(db, threshold)|
    requires after == if k == 0 then None else Some(OverdueMessages(db, threshold)[k - 1].id)
    requires NextAfter(db, after, next)
    requires Acked(db, before, counts, OverdueMessages(db, threshold)[..k])
    ensures k <= j <= |OverdueMessages(db, threshold)|
    ensures Acked(db, before, counts, OverdueMessages(db, threshold)[..j])
    ensures next.Some? ==> Frontier(OverdueMessages(db, threshold), next, true, j)
    ensures next.None? ==> j == |OverdueMessages(db, threshold)|
  {
    hide Snapshot.Valid, OverdueMessages, NextAfter, Frontier, Sum;
    j := Jump(db, threshold, k, after, next);
  }

  lemma FrontierInside(overdue: seq<Message>, lower: Option<int>, inclusive: bool, k: nat)
    requires Frontier(overdue, lower, inclusive, k)
    ensures k <= |overdue|
  {
  }

  /** The next page of the walk, and where the walk may stand behind it. */
  lemma {:induction false} AckPageReads(db: Snapshot, threshold: int, lower: Option<int>, inclusive: bool, k: nat,
                                        page: nat)
    requires db.Valid() && page >= 1
    requires Frontier(OverdueMessages(db, threshold), lower, inclusive, k)
    ensures var overdue := OverdueMessages(db, threshold);
            var rows := AckQuery(db, threshold, lower, inclusive, page);
            && |rows| <= page && k + |rows| <= |overdue| && Keyed(rows, MessageId)
            && rows == overdue[k..k + |rows|]
            && (|rows| < page ==> k + |rows| == |overdue|)
            && (rows != [] ==>
                  && rows[|rows| - 1] == overdue[k + |rows| - 1]
                  && Frontier(overdue, Some(rows[|rows| - 1].id), false, k + |rows|))
  {
    hide Snapshot.Valid, OverdueMessages, AckQuery, Keyed, Frontier;
    AckPageIs(db, threshold, lower, inclusive, k, page);
    OverdueOrdered(db, threshold);
    var overdue := OverdueMessages(db, threshold);
    var rows := AckQuery(db, threshold, lower, inclusive, page);
    FrontierInside(overdue, lower, inclusive, k);
    assert |rows| == Least(k + page, |overdue|) - k;
    PageKeyed(overdue, k, k + |rows|);
    if rows != [] {
      FrontierBehind(overdue, k + |rows|);
    }
  }

  lemma {:induction false} PageKeyed(overdue: seq<Message>, k: nat, j: nat)
    requires k <= j <= |overdue|
    requires forall a, b :: 0 <= a < b < |overdue| ==> overdue[a].id < overdue[b].id
    ensures Keyed(overdue[k..j], MessageId)
  {
    forall a, b | 0 <= a < b < j - k ensures MessageId(overdue[k..j][a]) != MessageId(overdue[k..j][b]) {
      assert overdue[k + a].id < overdue[k + b].id;
    }
  }

  lemma {:induction false} FrontierBehind(overdue: seq<Message>, k: nat)
    requires 0 < k <= |overdue|
    requires forall a, b :: 0 <= a < b < |overdue| ==> overdue[a].id < overdue[b].id
    ensures Frontier(overdue, Some(overdue[k - 1].id), false, k)
  {
    forall i | 0 <= i < |overdue| ensures i < k <==> overdue[i].id <= overdue[k - 1].id {
      assert i < k - 1 ==> overdue[i].id < overdue[k - 1].id;
      assert k - 1 < i ==> overdue[k - 1].id < overdue[i].id;
    }
  }

  lemma {:induction false} AckedMore(db: Snapshot, threshold: int, before: map<int, Tally>, beforePage: map<int, Tally>,
                                     counts: map<int, Tally>, k: nat, rows: seq<Message>)
    requires db.Valid()
    requires k + |rows| <= |OverdueMessages(db, threshold)| && Keyed(rows, MessageId)
    requires rows == OverdueMessages(db, threshold)[k..k + |rows|]
    requires Acked(db, before, beforePage, OverdueMessages(db, threshold)[..k])
    requires forall p, c :: Cell(counts, p, c) == Cell(beforePage, p, c) +
                              if c.Overdue? then GroupTotal(Groups(db.recipients, rows), rows, p) else 0
    ensures Acked(db, before, counts, OverdueMessages(db, threshold)[..k + |rows|])
  {
    hide Snapshot.Valid, OverdueMessages, Groups, GroupTotal, Keyed, Sum, AckIn;
    OverdueOrdered(db, threshold);
    var overdue := OverdueMessages(db, threshold);
    assert overdue[..k + |rows|] == overdue[..k] + rows;
    forall m, n | m in overdue[..k] && n in rows ensures m.id != n.id {
      var a :| 0 <= a < k && overdue[..k][a] == m;
      var b :| 0 <= b < |rows| && rows[b] == n;
      assert overdue[a].id < overdue[b + k].id;
    }
    forall p, c ensures Cell(counts, p, c) == Cell(before, p, c) +
                          if c.Overdue? then Sum(db.recipients, AckIn(overdue[..k] + rows, p)) else 0
    {
      assert rows[..|rows|] == rows;
      GroupsCount(db.recipients, rows, |rows|, p);
      AckSplit(db.recipients, overdue[..k], rows, p);
      assert Cell(beforePage, p, c) == Cell(before, p, c) +
               if c.Overdue? then Sum(db.recipients, AckIn(overdue[..k], p)) else 0;
    }
  }

  lemma {:induction false} WalkQueries(full: nat, queries: nat, rows: nat, page: nat, exact: bool)
    requires page >= 1 && RowsOf(full, page) <= rows && full <= queries <= full + 1
    requires exact ==> queries == full + 1 && rows < RowsOf(full, page) + page
    ensures queries <= rows / page + 1
    ensures exact ==> queries == rows / page + 1
  {
    FullPages(full, rows, page);
    if exact {
      RowsOfIsProduct(full, page);
      RowsOfIsProduct(full + 1, page);
      QuotientBelow(rows, full + 1, page);
    }
  }

  lemma QuotientBelow(rows: nat, n: nat, page: nat)
    requires page >= 1 && rows < n * page
    ensures rows / page < n
  {
    assert rows == page * (rows / page) + rows % page;
    assert (rows / page - n) * page == page * (rows / page) - n * page;
  }

  lemma {:induction false} WideTotals(db: Snapshot, threshold: int, counts: map<int, Tally>)
    requires Tallied(db, threshold, counts, Scan(db.recipients, Wanted(false), RecipientRowid))
    ensures forall p, c :: Cell(counts, p, c) == Total(db, threshold, p, c)
  {
    forall p, c ensures Cell(counts, p, c) == Total(db, threshold, p, c) {
      WideScanIsTotal(db, threshold, p, c);
    }
  }

  lemma {:induction false} SparseTotals(db: Snapshot, threshold: int, first: map<int, Tally>, counts: map<int, Tally>)
    requires db.Valid()
    requires Tallied(db, threshold, first, Scan(db.recipients, Wanted(true), RecipientRowid))
    requires forall p, c :: Cell(counts, p, c) == Cell(first, p, c) + AckTotal(db, threshold, p, c)
    ensures forall p, c :: Cell(counts, p, c) == Total(db, threshold, p, c)
  {
    hide Snapshot.Valid;
    forall p, c ensures Cell(counts, p, c) == Total(db, threshold, p, c) {
      Partition(db, threshold, p, c);
    }
  }

  /** An empty sample means that nothing is pending anywhere. */
  lemma {:induction false} NothingPending(db: Snapshot, threshold: int, page: nat)
    requires db.Valid() && page >= 1
    requires Select(db.recipients, Wanted(false), RecipientRowid, page) == []
    ensures Reference(db, threshold) == map[]
  {
    SelectIsPage(db.recipients, Wanted(false), RecipientRowid, page);
    assert forall r :: r in db.recipients ==> !Wanted(false)(r);
    forall p, c ensures Cell(map[], p, c) == Total(db, threshold, p, c) {
      SumZero(db.recipients, Weight(db, threshold, p, c));
    }
    ResultIsReference(db, threshold, map[]);
  }

  // ----- the phase

  class Phase {
    const db: Snapshot
    const now: Int64
    const page: nat
    var work: Work
    var counts: map<int, Tally>
    ghost var probes: nat
    ghost var messageQueries: nat
    ghost var groupPages: nat

    constructor (db: Snapshot, now: Int64, page: nat)
      ensures this.db == db && this.now == now && this.page == page
      ensures work == NO_WORK && counts == map[] && probes == messageQueries == groupPages == 0
    {
      this.db, this.now, this.page := db, now, page;
      work, counts := NO_WORK, map[];
      probes, messageQueries, groupPages := 0, 0, 0;
    }

    ghost predicate Valid() {
      db.Valid() && page >= 1
    }

    /** One page of recipients: look its messages up, then count each recipient. */
    method TallyPage(rows: seq<Recipient>, ghost seen: seq<Recipient>)
      requires Valid() && |rows| <= page
      requires Tallied(db, Threshold(now), counts, seen)
      modifies `work, `counts
      ensures Tallied(db, Threshold(now), counts, seen + rows)
      ensures work.sparse == old(work.sparse)
    {
      MetadataJoins(db, rows, page);
      hide Tallied, Metadata, Snapshot.Valid;
      var metadata := Metadata(db, rows, page);
      work := work.(recipientRows := work.recipientRows + |rows|,
                    queries := work.queries + (if MessageIds(rows) == {} then 0 else 1),
                    messageLookupRows := work.messageLookupRows + |metadata|);
      assert seen + rows[..0] == seen;
      for i := 0 to |rows|
        modifies `counts
        invariant Tallied(db, Threshold(now), counts, seen + rows[..i])
      {
        assert rows[i] in rows;
        TalliedMore(db, Threshold(now), counts, seen + rows[..i], rows[i]);
        assert seen + rows[..i + 1] == seen + rows[..i] + [rows[i]];
        counts := AddRecipient(counts, rows[i], Joined(metadata, rows[i]), Threshold(now));
      }
      assert rows[..|rows|] == rows;
    }

    /** All wanted recipients, page by page in rowid order. */
    method RecipientPass(sparse: bool)
      requires Valid() && counts == map[]
      modifies `work, `counts
      ensures Tallied(db, Threshold(now), counts, Scan(db.recipients, Wanted(sparse), RecipientRowid))
      ensures work.sparse == old(work.sparse)
    {
      hide Behind, Tallied, Scan, Select, Keyed, SingleColumn, Snapshot.Valid;
      ghost var wanted := Scan(db.recipients, Wanted(sparse), RecipientRowid);
      var after: Option<int> := None;
      ghost var k: nat := 0;
      StartsBehind(db.recipients, Wanted(sparse), RecipientRowid);
      NothingTallied(db, Threshold(now));
      RecipientsKeyed(db);
      assert wanted[..0] == [];
      while true
        invariant work.sparse == old(work.sparse)
        invariant Behind(after, k, db.recipients, Wanted(sparse), RecipientRowid)
        invariant k <= |wanted| && Tallied(db, Threshold(now), counts, wanted[..k])
        decreases |wanted| - k
      {
        var rows := Select(db.recipients, After(Wanted(sparse), RecipientRowid, after), RecipientRowid, page);
        NextPage(after, k, db.recipients, Wanted(sparse), RecipientRowid, page);
        work := work.(queries := work.queries + 1);
        if rows != [] {
          TallyPage(rows, wanted[..k]);
          after := Some(rows[|rows| - 1].rowid);
          k := k + |rows|;
        }
        if |rows| < page {
          return;
        }
      }
    }

    /** Seek the next message id with an unacknowledged recipient. */
    method NextUnacked(after: Option<int>) returns (next: Option<int>)
      requires Valid()
      modifies `work, `probes
      ensures NextAfter(db, after, next)
      ensures probes == old(probes) + 1
      ensures work.sparse == old(work.sparse)
    {
      SeekFinds(db, after);
      hide NextAfter, SeekQuery, Snapshot.Valid;
      var rows := SeekQuery(db, after);
      work := work.(queries := work.queries + 1, ackSeekRows := work.ackSeekRows + |rows|);
      probes := probes + 1;
      next := if rows == [] then None else rows[0].messageId;
    }

    /** One page of overdue messages: group its pending recipients, add them up. */
    method AckPage(rows: seq<Message>) returns (grouped: seq<Group>)
      requires Valid() && |rows| <= page && Keyed(rows, MessageId)
      modifies `work, `counts
      ensures grouped == Groups(db.recipients, rows)
      ensures forall p, c :: Cell(counts, p, c) == Cell(old(counts), p, c) +
                               if c.Overdue? then GroupTotal(grouped, rows, p) else 0
      ensures work.sparse == old(work.sparse)
    {
      hide Snapshot.Valid, Keyed, Filter, PendingOf;
      grouped := Groups(db.recipients, rows);
      work := work.(queries := work.queries + 1, ackMessageRows := work.ackMessageRows + |rows|,
                    ackCountRows := work.ackCountRows + |grouped|);
      ghost var before := counts;
      for i := 0 to |grouped|
        modifies `counts
        invariant forall p, c :: Cell(counts, p, c) == Cell(before, p, c) +
                                   if c.Overdue? then GroupTotal(grouped[..i], rows, p) else 0
      {
        assert grouped[i] in grouped;
        assert grouped[..i + 1][..i] == grouped[..i];
        var project := FindMessage(rows, grouped[i].messageId).value.project;
        var value := if project in counts then counts[project] else ZERO;
        counts := counts[project := value.(overdue := value.overdue + grouped[i].count)];
      }
      assert grouped[..|grouped|] == grouped;
    }

    /** All overdue messages in id order, with or without seeks. Every overdue
        read-unacknowledged recipient is counted once; probes are bounded by the
        pages with groups, message pages by those of the walk without seeks. */
    method AckPass(ackSeek: bool)
      requires Valid() && probes == messageQueries == groupPages == 0
      modifies `work, `counts, `probes, `messageQueries, `groupPages
      ensures forall p, c :: Cell(counts, p, c) == Cell(old(counts), p, c) + AckTotal(db, Threshold(now), p, c)
      ensures work.sparse == old(work.sparse)
      ensures if ackSeek then probes <= 2 + groupPages else probes == 0
      ensures messageQueries <= |OverdueMessages(db, Threshold(now))| / page + 1
      ensures !ackSeek ==> messageQueries == |OverdueMessages(db, Threshold(now))| / page + 1
    {
      hide Frontier, NextAfter, OverdueMessages, Snapshot.Valid, Keyed, AckQuery, RowsOf, Groups, AckTotal, Acked;
      ghost var overdue := OverdueMessages(db, Threshold(now));
      ghost var before := counts;
      ghost var k: nat := 0;
      ghost var full: nat := 0;
      NothingAcked(db, before, overdue, page);
      var lower: Option<int> := None;
      var inclusive := ackSeek;
      var seekEmpty := true;
      if ackSeek {
        lower := NextUnacked(None);
        k := JumpAcked(db, Threshold(now), before, counts, 0, None, lower);
      }
      while !ackSeek || lower.Some?
        invariant k <= |overdue| && Acked(db, before, counts, overdue[..k])
        invariant !ackSeek || lower.Some? ==> Frontier(overdue, lower, inclusive, k)
        invariant ackSeek && lower.None? ==> k == |overdue|
        invariant ackSeek ==> probes <= 1 + groupPages + if seekEmpty then 0 else 1
        invariant !ackSeek ==> probes == 0
        invariant messageQueries == full && RowsOf(full, page) <= k
        invariant !ackSeek ==> RowsOf(full, page) == k
        invariant work.sparse == old(work.sparse)
        decreases |overdue| - k
      {
        var rows := AckQuery(db, Threshold(now), lower, inclusive, page);
        AckPageReads(db, Threshold(now), lower, inclusive, k, page);
        work := work.(queries := work.queries + 1);
        messageQueries := messageQueries + 1;
        if rows == [] {
          break;
        }
        ghost var beforePage := counts;
        var grouped := AckPage(rows);
        AckedMore(db, Threshold(now), before, beforePage, counts, k, rows);
        k := k + |rows|;
        if grouped != [] { groupPages := groupPages + 1; }
        if |rows| < page {
          break;
        }
        OneMorePage(full, page);
        full := full + 1;
        var last := rows[|rows| - 1].id;
        if ackSeek && grouped == [] && seekEmpty {
          seekEmpty := false;
          lower := NextUnacked(Some(last));
          inclusive := true;
          k := JumpAcked(db, Threshold(now), before, counts, k, Some(last), lower);
        } else {
          lower := Some(last);
          inclusive := false;
          if grouped != [] { seekEmpty := true; }
        }
      }
      AckedAll(db, Threshold(now), before, counts);
      WalkQueries(full, messageQueries, |overdue|, page, !ackSeek);
    }

    /** The whole phase: choose the strategy from the indexes and the sample, then
        count. The answer is the reference whichever strategy is chosen. */
    method Run(sparse: bool, ackSeek: bool) returns (result: map<int, Tally>)
      requires Valid() && counts == map[] && work == NO_WORK && probes == messageQueries == groupPages == 0
      modifies this
      ensures result == Reference(db, Threshold(now)) && CountsRecipients(db, now, result)
      ensures probes <= 2 + groupPages
    {
      hide Tallied, Reference, Snapshot.Valid, OverdueMessages, AckTotal, CountsRecipients, Cell, Total, Threshold,
           NonZero, Scan, Select, Filter, Wanted;
      ReferenceCounts(db, now);
      var usable := false;
      if sparse {
        var messageIndex := IndexWithPrefix(db.messageIndexes, ["ack_required", "id"]);
        if messageIndex.Some? {
          var recipientIndex := IndexWithPrefix(db.recipientIndexes, ["ack_ts", "message_id"]);
          usable := recipientIndex.Some?;
        }
      }
      work := work.(sparse := usable);
      if usable {
        var sample := Select(db.recipients, Wanted(false), RecipientRowid, page);
        work := work.(queries := work.queries + 1, sampleRows := work.sampleRows + |sample|);
        if sample == [] {
          NothingPending(db, Threshold(now), page);
          return map[];
        }
        work := work.(sparse := 2 * |Filter(sample, (r: Recipient) => r.readTs.Some?)| >= |sample|);
      }
      RecipientPass(work.sparse);
      if work.sparse {
        ghost var first := counts;
        AckPass(ackSeek);
        SparseTotals(db, Threshold(now), first, counts);
      } else {
        WideTotals(db, Threshold(now), counts);
      }
      ResultIsReference(db, Threshold(now), counts);
      result := NonZero(counts);
    }
  }
}
