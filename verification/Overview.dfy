/** The full overview: one row per project with its recipient counts and live
    reservations, collected with page-sized queries.
 */
module Overview {
  import opened Sql
  import opened Schema
  import opened Paging
  import opened ExpiryScan
  import opened Recipients
  import opened Numbers
  import Order

  datatype Row = Row(slug: string, unread: int, urgent: int, overdue: int, reservations: int)

  /** A row of the agents or of the messages: its own id and its project. */
  datatype Entry = Entry(id: Int64, project: Int64)

  datatype Work = Work(queries: nat, peakQueryRows: nat)

  function Placeholder(project: int): string {
    "[unknown-project-" + Decimal(project) + "]"
  }

  function FindProject(projects: seq<Project>, id: int): (found: Option<Project>)
    ensures found.Some? ==> found.value in projects && found.value.id == id
    ensures found.None? ==> forall p :: p in projects ==> p.id != id
  {
    if projects == [] then None
    else if projects[0].id == id then Some(projects[0])
    else FindProject(projects[1..], id)
  }

  function SlugOf(db: Snapshot, project: int): string {
    var found := FindProject(db.projects, project);
    if found.Some? then found.value.slug else Placeholder(project)
  }

  function AgentEntries(db: Snapshot): seq<Entry> {
    seq(|db.agents|, i requires 0 <= i < |db.agents| => Entry(db.agents[i].id, db.agents[i].project))
  }

  function MessageEntries(db: Snapshot): seq<Entry> {
    seq(|db.messages|, i requires 0 <= i < |db.messages| => Entry(db.messages[i].id, db.messages[i].project))
  }

  ghost function EntryProjects(entries: seq<Entry>): set<int> {
    set e | e in entries :: e.project
  }

  ghost function ProjectIds(projects: seq<Project>): set<int> {
    set p | p in projects :: p.id
  }

  /** The joined oracle: registered projects, orphans of agents, messages and live
      reservations, each with the counts over the whole tables. */
  ghost function Reference(db: Snapshot, now: int): map<int, Row> {
    map p | p in ProjectIds(db.projects) + EntryProjects(AgentEntries(db)) + EntryProjects(MessageEntries(db))
      + LiveProjects(db, now, db.reservations)
      :: ReferenceRow(db, now, p)
  }

  ghost function ReferenceRow(db: Snapshot, now: int, project: int): Row {
    var threshold := now - ACK_OVERDUE_AGE;
    Row(SlugOf(db, project),
        Total(db, threshold, project, Unread),
        Total(db, threshold, project, Urgent),
        Total(db, threshold, project, Overdue),
        Sum(db.reservations, LiveCount(db, now, project)))
  }

  // ----- the dictionary of projects while it is being filled

  /** The row of a project after the given recipients and reservations. */
  ghost function RowAfter(db: Snapshot, now: int, project: int, recipients: seq<Recipient>,
                          reservations: seq<Reservation>): Row {
    var threshold := now - ACK_OVERDUE_AGE;
    Row(SlugOf(db, project),
        Sum(recipients, Weight(db, threshold, project, Unread)),
        Sum(recipients, Weight(db, threshold, project, Urgent)),
        Sum(recipients, Weight(db, threshold, project, Overdue)),
        Sum(reservations, UnreleasedCount(db, project)))
  }

  ghost function EmptyRow(db: Snapshot, project: int): Row {
    Row(SlugOf(db, project), 0, 0, 0, 0)
  }

  /** Every entry is right for what has been read, and a missing one would be empty. */
  ghost predicate Filled(db: Snapshot, now: int, projects: map<int, Row>, recipients: seq<Recipient>,
                         reservations: seq<Reservation>) {
    forall p :: RowAfter(db, now, p, recipients, reservations) == if p in projects then projects[p] else EmptyRow(db, p)
  }

  /** The project has a row: the one it had, or a placeholder with no counts. */
  function WithProject(projects: map<int, Row>, project: int): (out: map<int, Row>)
    ensures out.Keys == projects.Keys + {project}
  {
    if project in projects then projects else projects[project := Row(Placeholder(project), 0, 0, 0, 0)]
  }

  ghost predicate Registered(db: Snapshot, projects: map<int, Row>) {
    forall p :: FindProject(db.projects, p).Some? ==> p in projects
  }

  lemma {:induction false} WithProjectFilled(db: Snapshot, now: int, projects: map<int, Row>,
                                             recipients: seq<Recipient>, reservations: seq<Reservation>, project: int)
    requires Registered(db, projects) && Filled(db, now, projects, recipients, reservations)
    ensures Registered(db, WithProject(projects, project))
    ensures Filled(db, now, WithProject(projects, project), recipients, reservations)
  {
    hide RowAfter;
    forall p ensures RowAfter(db, now, p, recipients, reservations)
               == if p in WithProject(projects, project) then WithProject(projects, project)[p] else EmptyRow(db, p) {
    }
  }

  /** A recipient counts when unread, when unread and urgent, when unacknowledged and overdue. */
  function AddRecipient(projects: map<int, Row>, r: Recipient, found: Option<Message>, threshold: int): map<int, Row> {
    if found.None? then projects
    else
      var m := found.value;
      var unread := if r.readTs.None? then 1 else 0;
      var unacked := if r.ackTs.None? then 1 else 0;
      var with := WithProject(projects, m.project);
      var row := with[m.project];
      with[m.project := row.(unread := row.unread + unread,
                             urgent := row.urgent + unread * (if IsUrgent(m) then 1 else 0),
                             overdue := row.overdue + unacked * (if IsOverdue(m, threshold) then 1 else 0))]
  }

  lemma {:induction false} RecipientFilled(db: Snapshot, now: int, projects: map<int, Row>, recipients: seq<Recipient>,
                                           reservations: seq<Reservation>, r: Recipient)
    requires Registered(db, projects) && Filled(db, now, projects, recipients, reservations)
    ensures var after := AddRecipient(projects, r, Joined(db.messages, r), now - ACK_OVERDUE_AGE);
            && Registered(db, after)
            && Filled(db, now, after, recipients + [r], reservations)
            && after.Keys
               == projects.Keys + if Joined(db.messages, r).Some? then {Joined(db.messages, r).value.project} else {}
  {
    var found := Joined(db.messages, r);
    var threshold := now - ACK_OVERDUE_AGE;
    var after := AddRecipient(projects, r, found, threshold);
    assert (recipients + [r])[..|recipients|] == recipients;
    if found.Some? {
      WithProjectFilled(db, now, projects, recipients, reservations, found.value.project);
    }
    forall p ensures RowAfter(db, now, p, recipients + [r], reservations)
                     == if p in after then after[p] else EmptyRow(db, p) {
      assert RowAfter(db, now, p, recipients, reservations) == if p in projects then projects[p] else EmptyRow(db, p);
    }
  }

  /** An unreleased reservation counts for its project. */
  function AddReservation(projects: map<int, Row>, r: Reservation): map<int, Row> {
    var with := WithProject(projects, r.project);
    with[r.project := with[r.project].(reservations := with[r.project].reservations + 1)]
  }

  lemma {:induction false} ReservationFilled(db: Snapshot, now: int, projects: map<int, Row>,
                                             recipients: seq<Recipient>, reservations: seq<Reservation>, r: Reservation)
    requires Registered(db, projects) && Filled(db, now, projects, recipients, reservations)
    ensures var after := if db.InLedger(r.id) then projects else AddReservation(projects, r);
            && Registered(db, after)
            && Filled(db, now, after, recipients, reservations + [r])
            && after.Keys == projects.Keys + if db.InLedger(r.id) then {} else {r.project}
  {
    assert (reservations + [r])[..|reservations|] == reservations;
    WithProjectFilled(db, now, projects, recipients, reservations, r.project);
    var after := if db.InLedger(r.id) then projects else AddReservation(projects, r);
    forall p ensures RowAfter(db, now, p, recipients, reservations + [r])
                     == if p in after then after[p] else EmptyRow(db, p) {
      assert RowAfter(db, now, p, recipients, reservations) == if p in projects then projects[p] else EmptyRow(db, p);
    }
  }

  // ----- the passes

  /** A registered project gives its slug to its row. */
  function SetSlug(projects: map<int, Row>, p: Project): map<int, Row> {
    var with := WithProject(projects, p.id);
    with[p.id := with[p.id].(slug := p.slug)]
  }

  /** The registered projects read so far, each still empty. */
  ghost predicate Named(db: Snapshot, projects: map<int, Row>, seen: seq<Project>) {
    && projects.Keys == ProjectIds(seen)
    && forall p :: p in projects ==> projects[p] == EmptyRow(db, p)
  }

  function AnyProject(): Project -> bool { (p: Project) => true }
  function AnyEntry(): Entry -> bool { (e: Entry) => true }
  function PendingFilter(): Recipient -> bool { (r: Recipient) => Pending(r) }

  lemma {:induction false} SlugIsUnique(db: Snapshot, p: Project)
    requires db.Valid() && p in db.projects
    ensures SlugOf(db, p.id) == p.slug
  {
    var found := FindProject(db.projects, p.id).value;
    var i :| 0 <= i < |db.projects| && db.projects[i] == p;
    var j :| 0 <= j < |db.projects| && db.projects[j] == found;
    assert ProjectId(db.projects[i]) == ProjectId(db.projects[j]);
  }

  lemma {:induction false} SetSlugNamed(db: Snapshot, projects: map<int, Row>, seen: seq<Project>, p: Project)
    requires db.Valid() && p in db.projects && Named(db, projects, seen)
    ensures Named(db, SetSlug(projects, p), seen + [p])
  {
    SlugIsUnique(db, p);
    assert ProjectIds(seen + [p]) == ProjectIds(seen) + {p.id};
  }

  lemma {:induction false} AllNamed(db: Snapshot, now: int, projects: map<int, Row>)
    requires Named(db, projects, Scan(db.projects, AnyProject(), ProjectId))
    ensures projects.Keys == ProjectIds(db.projects)
    ensures Registered(db, projects) && Filled(db, now, projects, [], [])
  {
    var seen := Scan(db.projects, AnyProject(), ProjectId);
    assert ProjectIds(seen) == ProjectIds(db.projects) by {
      assert forall p :: p in seen <==> p in db.projects;
    }
    forall p ensures RowAfter(db, now, p, [], []) == if p in projects then projects[p] else EmptyRow(db, p) {
    }
  }

  lemma WithinScan<T>(all: seq<T>, k: nat, rows: seq<T>)
    requires k + |rows| <= |all| && all[..k] + rows == all[..k + |rows|]
    ensures forall r :: r in rows ==> r in all
  {
    forall i | 0 <= i < |rows| ensures rows[i] in all {
      assert rows[i] == (all[..k] + rows)[k + i] == all[k + i];
    }
  }

  lemma NoneNamed(db: Snapshot)
    ensures Named(db, map[], [])
  {
  }

  lemma ProjectsKeyed(db: Snapshot)
    requires db.Valid()
    ensures Keyed(db.projects, ProjectId) && SingleColumn(db.projects, ProjectId)
    ensures Keyed(db.recipients, RecipientRowid) && SingleColumn(db.recipients, RecipientRowid)
  {
  }

  // ----- inventory of projects by their agents or messages

  lemma UnreleasedNext(db: Snapshot, rows: seq<Reservation>, i: nat)
    requires i < |rows|
    ensures Unreleased(db, rows[..i + 1])
            == Unreleased(db, rows[..i]) + if db.InLedger(rows[i].id) then {} else {rows[i].project}
  {
    assert rows[..i + 1][..i] == rows[..i];
  }

  function EntryKey(indexed: bool): Entry -> Key {
    (e: Entry) => if indexed then Key(e.project, e.id) else Key(e.id, 0)
  }

  function InventoryQuery(entries: seq<Entry>, indexed: bool, after: Option<int>, page: nat): seq<Entry> {
    Select(entries, After(AnyEntry(), EntryKey(indexed), after), EntryKey(indexed), page)
  }

  /** Every entry up to the cursor has its project in `found`. */
  ghost predicate Inventoried(entries: seq<Entry>, indexed: bool, after: Option<int>, found: set<int>) {
    forall e :: e in entries && after.Some? && EntryKey(indexed)(e).major <= after.value ==> e.project in found
  }

  ghost predicate UniqueEntries(entries: seq<Entry>) {
    forall i, j :: 0 <= i < j < |entries| ==> entries[i].id != entries[j].id
  }

  lemma NothingInventoried(entries: seq<Entry>, indexed: bool, found: set<int>)
    ensures Inventoried(entries, indexed, None, found)
  {
  }

  predicate Remaining(indexed: bool, after: Option<int>, e: Entry) {
    after.None? || EntryKey(indexed)(e).major > after.value
  }

  lemma {:induction false} InventoryPage(entries: seq<Entry>, indexed: bool, after: Option<int>, page: nat)
    requires UniqueEntries(entries)
    ensures var rows := InventoryQuery(entries, indexed, after, page);
            && |rows| <= page
            && (forall e :: e in rows ==> e in entries && Remaining(indexed, after, e))
            && (forall e :: e in entries && Remaining(indexed, after, e) && e !in rows ==>
                  |rows| == page
                    && (rows != [] ==> EntryKey(indexed)(rows[|rows| - 1]).major <= EntryKey(indexed)(e).major))
  {
    var key := EntryKey(indexed);
    EntriesKeyed(entries, indexed);
    hide Keyed, Select, UniqueEntries, Ordered;
    SelectIsPage(entries, After(AnyEntry(), key, after), key, page);
    var rows := InventoryQuery(entries, indexed, after, page);
    forall e: Entry ensures After(AnyEntry(), key, after)(e) == Remaining(indexed, after, e) {
    }
    if rows != [] {
      assert rows[|rows| - 1] in rows;
    }
  }

  /** A page moves the cursor to its last key. With the index, the rest of that
      key's rows is skipped, and nothing is lost: their project is the same. */
  lemma {:induction false} InventoryReads(entries: seq<Entry>, indexed: bool, after: Option<int>, found: set<int>,
                                          page: nat)
    requires page >= 1 && UniqueEntries(entries)
    requires Inventoried(entries, indexed, after, found)
    ensures var rows := InventoryQuery(entries, indexed, after, page);
            && |rows| <= page
            && EntryProjects(rows) <= EntryProjects(entries)
            && (|rows| < page ==> EntryProjects(entries) <= found + EntryProjects(rows))
            && (rows != [] ==>
                  var last := EntryKey(indexed)(rows[|rows| - 1]).major;
                  && MIN_INT64 <= last <= MAX_INT64
                  && (after.Some? ==> after.value < last)
                  && Inventoried(entries, indexed, Some(last), found + EntryProjects(rows)))
  {
    InventoryPage(entries, indexed, after, page);
    hide InventoryQuery, UniqueEntries;
    var rows := InventoryQuery(entries, indexed, after, page);
    if |rows| < page {
      forall e | e in entries ensures e.project in found + EntryProjects(rows) {
        assert Remaining(indexed, after, e) || e.project in found;
      }
    }
    if rows != [] {
      LastInventoried(entries, indexed, after, found, rows);
    }
  }

  lemma {:induction false} LastInventoried(entries: seq<Entry>, indexed: bool, after: Option<int>, found: set<int>,
                                           rows: seq<Entry>)
    requires UniqueEntries(entries) && rows != [] && Inventoried(entries, indexed, after, found)
    requires forall e :: e in rows ==> e in entries && Remaining(indexed, after, e)
    requires forall e :: e in entries && Remaining(indexed, after, e) && e !in rows ==>
               EntryKey(indexed)(rows[|rows| - 1]).major <= EntryKey(indexed)(e).major
    ensures var last := EntryKey(indexed)(rows[|rows| - 1]).major;
            && MIN_INT64 <= last <= MAX_INT64
            && (after.Some? ==> after.value < last)
            && Inventoried(entries, indexed, Some(last), found + EntryProjects(rows))
  {
    var last := rows[|rows| - 1];
    assert last in rows;
    forall e | e in entries && EntryKey(indexed)(e).major <= EntryKey(indexed)(last).major
      ensures e.project in found + EntryProjects(rows)
    {
      if Remaining(indexed, after, e) && e !in rows {
        SameKey(entries, indexed, e, last);
      }
    }
  }

  /** Two entries with one cursor key belong to one project. */
  lemma {:induction false} SameKey(entries: seq<Entry>, indexed: bool, e: Entry, f: Entry)
    requires UniqueEntries(entries) && e in entries && f in entries
    requires EntryKey(indexed)(e).major == EntryKey(indexed)(f).major
    ensures e.project == f.project
  {
    var i :| 0 <= i < |entries| && entries[i] == e;
    var j :| 0 <= j < |entries| && entries[j] == f;
    assert !indexed ==> entries[i].id == entries[j].id;
  }

  lemma EntriesKeyed(entries: seq<Entry>, indexed: bool)
    requires UniqueEntries(entries)
    ensures Keyed(entries, EntryKey(indexed))
  {
    forall i, j | 0 <= i < j < |entries| ensures EntryKey(indexed)(entries[i]) != EntryKey(indexed)(entries[j]) {
      assert entries[i].id != entries[j].id;
    }
  }

  lemma {:induction false} EntriesUnique(db: Snapshot)
    requires db.Valid()
    ensures UniqueEntries(AgentEntries(db)) && UniqueEntries(MessageEntries(db))
  {
    forall i, j | 0 <= i < j < |db.agents| ensures AgentEntries(db)[i].id != AgentEntries(db)[j].id {
      assert AgentId(db.agents[i]) != AgentId(db.agents[j]);
    }
    forall i, j | 0 <= i < j < |db.messages| ensures MessageEntries(db)[i].id != MessageEntries(db)[j].id {
      assert MessageId(db.messages[i]) != MessageId(db.messages[j]);
    }
  }

  lemma {:induction false} JoinedIsInventoried(db: Snapshot, r: Recipient)
    ensures Joined(db.messages, r).Some? ==> Joined(db.messages, r).value.project in EntryProjects(MessageEntries(db))
  {
    var found := Joined(db.messages, r);
    if found.Some? {
      var i :| 0 <= i < |db.messages| && db.messages[i] == found.value;
      assert MessageEntries(db)[i] in MessageEntries(db);
    }
  }

  /** What has been read by the end is worth the whole tables. */
  lemma {:induction false} ReadIsReference(db: Snapshot, now: int, projects: map<int, Row>)
    requires Filled(db, now, projects, Scan(db.recipients, PendingFilter(), RecipientRowid),
                    ScanOf(db, Everything, now))
    requires projects.Keys == Reference(db, now).Keys
    ensures projects == Reference(db, now)
  {
    hide ReferenceRow, Scan, ScanOf;
    forall p | p in projects ensures projects[p] == ReferenceRow(db, now, p) {
      RowIsReference(db, now, p);
    }
  }

  lemma {:induction false} RowIsReference(db: Snapshot, now: int, p: int)
    ensures RowAfter(db, now, p, Scan(db.recipients, PendingFilter(), RecipientRowid), ScanOf(db, Everything, now))
            == ReferenceRow(db, now, p)
  {
    hide Scan, ScanOf, Weight, LiveCount, UnreleasedCount, SlugOf, Sum;
    PendingIsTotal(db, now - ACK_OVERDUE_AGE, p, Unread);
    PendingIsTotal(db, now - ACK_OVERDUE_AGE, p, Urgent);
    PendingIsTotal(db, now - ACK_OVERDUE_AGE, p, Overdue);
    ScanCountsLive(db, now, p);
  }

  lemma {:induction false} PendingIsTotal(db: Snapshot, threshold: int, p: int, c: Column)
    ensures Sum(Scan(db.recipients, PendingFilter(), RecipientRowid), Weight(db, threshold, p, c))
            == Total(db, threshold, p, c)
  {
    SumScan(db.recipients, PendingFilter(), RecipientRowid, Weight(db, threshold, p, c));
  }

  lemma {:induction false} RecipientKeeps(db: Snapshot, now: int, projects: map<int, Row>, recipients: seq<Recipient>,
                                          r: Recipient)
    requires Registered(db, projects) && Filled(db, now, projects, recipients, [])
    requires EntryProjects(MessageEntries(db)) <= projects.Keys
    ensures var after := AddRecipient(projects, r, Joined(db.messages, r), now - ACK_OVERDUE_AGE);
            after.Keys == projects.Keys && Registered(db, after) && Filled(db, now, after, recipients + [r], [])
  {
    hide Registered, Filled, AddRecipient, MessageEntries, EntryProjects;
    RecipientFilled(db, now, projects, recipients, [], r);
    JoinedIsInventoried(db, r);
  }

  // ----- the collector

  class Collector {
    const db: Snapshot
    const now: Int64
    const page: nat
    var work: Work
    var projects: map<int, Row>

    constructor (db: Snapshot, now: Int64, page: nat)
      ensures this.db == db && this.now == now && this.page == page && projects == map[] && work == Work(0, 0)
    {
      this.db, this.now, this.page := db, now, page;
      work, projects := Work(0, 0), map[];
    }

    /** No query returns more than a page. */
    ghost predicate Valid()
      reads this
    {
      db.Valid() && page >= 1 && work.peakQueryRows <= page
    }

    method Count(rows: nat)
      requires Valid() && rows <= page
      modifies `work
      ensures Valid() && work.queries == old(work.queries) + 1
    {
      work := Work(work.queries + 1, if rows > work.peakQueryRows then rows else work.peakQueryRows);
    }

    /** Register every project of the projects table. */
    method ProjectPass()
      requires Valid() && projects == map[]
      modifies this
      ensures Valid()
      ensures projects.Keys == ProjectIds(db.projects)
      ensures Registered(db, projects) && Filled(db, now, projects, [], [])
    {
      hide Named, Behind, Scan, Select, Keyed, SingleColumn, Registered, Filled, Snapshot.Valid;
      ghost var all := Scan(db.projects, AnyProject(), ProjectId);
      var after: Option<int> := None;
      ghost var k: nat := 0;
      StartsBehind(db.projects, AnyProject(), ProjectId);
      NoneNamed(db);
      ProjectsKeyed(db);
      assert all[..0] == [];
      while true
        invariant Valid() && k <= |all|
        invariant Behind(after, k, db.projects, AnyProject(), ProjectId)
        invariant Named(db, projects, all[..k])
        decreases |all| - k
      {
        var rows := Select(db.projects, After(AnyProject(), ProjectId, after), ProjectId, page);
        NextPage(after, k, db.projects, AnyProject(), ProjectId, page);
        Count(|rows|);
        WithinScan(all, k, rows);
        NamePage(rows, all[..k]);
        if rows != [] {
          after := Some(rows[|rows| - 1].id);
          k := k + |rows|;
        }
        if |rows| < page {
          AllNamed(db, now, projects);
          return;
        }
      }
    }

    method NamePage(rows: seq<Project>, ghost seen: seq<Project>)
      requires db.Valid() && Named(db, projects, seen)
      requires forall p :: p in rows ==> p in db.projects
      modifies `projects
      ensures Named(db, projects, seen + rows)
    {
      hide Named, Snapshot.Valid, SetSlug;
      assert seen + rows[..0] == seen;
      for i := 0 to |rows|
        invariant Named(db, projects, seen + rows[..i])
      {
        assert rows[i] in rows;
        SetSlugNamed(db, projects, seen + rows[..i], rows[i]);
        assert seen + rows[..i + 1] == seen + rows[..i] + [rows[i]];
        projects := SetSlug(projects, rows[i]);
      }
      assert rows[..|rows|] == rows;
    }

    /** Add the projects of one table, by project groups when an index allows it. */
    method InventoryPass(entries: seq<Entry>, indexes: seq<Index>, allowIndex: bool)
      requires Valid() && UniqueEntries(entries)
      requires Registered(db, projects) && Filled(db, now, projects, [], [])
      modifies this
      ensures Valid()
      ensures projects.Keys == old(projects.Keys) + EntryProjects(entries)
      ensures Registered(db, projects) && Filled(db, now, projects, [], [])
    {
      hide Inventoried, InventoryQuery, UniqueEntries, Registered, Filled, Snapshot.Valid;
      var index: Option<string> := None;
      if allowIndex {
        index := IndexWithPrefix(indexes, ["project_id"]);
      }
      var after: Option<int> := None;
      NothingInventoried(entries, index.Some?, projects.Keys);
      while true
        invariant Valid()
        invariant old(projects.Keys) <= projects.Keys <= old(projects.Keys) + EntryProjects(entries)
        invariant Inventoried(entries, index.Some?, after, projects.Keys)
        invariant Registered(db, projects) && Filled(db, now, projects, [], [])
        decreases MAX_INT64 + 1 - (if after.Some? then after.value else MIN_INT64 - 1)
      {
        var rows := InventoryQuery(entries, index.Some?, after, page);
        InventoryReads(entries, index.Some?, after, projects.Keys, page);
        Count(|rows|);
        AddEntries(rows);
        if |rows| < page {
          return;
        }
        after := Some(EntryKey(index.Some?)(rows[|rows| - 1]).major);
      }
    }

    method AddEntries(rows: seq<Entry>)
      requires Registered(db, projects) && Filled(db, now, projects, [], [])
      modifies `projects
      ensures projects.Keys == old(projects.Keys) + EntryProjects(rows)
      ensures Registered(db, projects) && Filled(db, now, projects, [], [])
    {
      hide Registered, Filled;
      for i := 0 to |rows|
        invariant projects.Keys == old(projects.Keys) + EntryProjects(rows[..i])
        invariant Registered(db, projects) && Filled(db, now, projects, [], [])
      {
        WithProjectFilled(db, now, projects, [], [], rows[i].project);
        assert rows[..i + 1] == rows[..i] + [rows[i]];
        projects := WithProject(projects, rows[i].project);
      }
      assert rows[..|rows|] == rows;
    }

    /** Count the pending recipients, page by page in rowid order. */
    method RecipientPass()
      requires Valid() && EntryProjects(MessageEntries(db)) <= projects.Keys
      requires Registered(db, projects) && Filled(db, now, projects, [], [])
      modifies this
      ensures Valid() && projects.Keys == old(projects.Keys)
      ensures Registered(db, projects)
              && Filled(db, now, projects, Scan(db.recipients, PendingFilter(), RecipientRowid), [])
    {
      hide Behind, Scan, Select, Keyed, SingleColumn, Registered, Filled, Snapshot.Valid;
      ghost var pending := Scan(db.recipients, PendingFilter(), RecipientRowid);
      var after: Option<int> := None;
      ghost var k: nat := 0;
      StartsBehind(db.recipients, PendingFilter(), RecipientRowid);
      ProjectsKeyed(db);
      assert pending[..0] == [];
      while true
        invariant Valid() && k <= |pending| && projects.Keys == old(projects.Keys)
        invariant Behind(after, k, db.recipients, PendingFilter(), RecipientRowid)
        invariant Registered(db, projects) && Filled(db, now, projects, pending[..k], [])
        decreases |pending| - k
      {
        var rows := Select(db.recipients, After(PendingFilter(), RecipientRowid, after), RecipientRowid, page);
        NextPage(after, k, db.recipients, PendingFilter(), RecipientRowid, page);
        Count(|rows|);
        CountPage(rows, pending[..k]);
        if rows != [] {
          after := Some(rows[|rows| - 1].rowid);
          k := k + |rows|;
        } else {
          assert pending[..k] + rows == pending[..k];
        }
        if |rows| < page {
          return;
        }
      }
    }

    method CountPage(rows: seq<Recipient>, ghost seen: seq<Recipient>)
      requires Valid() && |rows| <= page && EntryProjects(MessageEntries(db)) <= projects.Keys
      requires Registered(db, projects) && Filled(db, now, projects, seen, [])
      modifies this
      ensures Valid() && projects.Keys == old(projects.Keys)
      ensures Registered(db, projects) && Filled(db, now, projects, seen + rows, [])
    {
      hide Registered, Filled, Snapshot.Valid, Metadata, Joined, EntryProjects, MessageEntries, AddRecipient;
      MetadataJoins(db, rows, page);
      var metadata := Metadata(db, rows, page);
      if MessageIds(rows) != {} {
        Count(|metadata|);
      }
      ghost var known := projects.Keys;
      assert seen + rows[..0] == seen;
      for i := 0 to |rows|
        modifies `projects
        invariant projects.Keys == known
        invariant Registered(db, projects) && Filled(db, now, projects, seen + rows[..i], [])
      {
        assert rows[i] in rows;
        RecipientKeeps(db, now, projects, seen + rows[..i], rows[i]);
        assert seen + rows[..i + 1] == seen + rows[..i] + [rows[i]];
        projects := AddRecipient(projects, rows[i], Joined(metadata, rows[i]), now - ACK_OVERDUE_AGE);
      }
      assert rows[..|rows|] == rows;
    }

    /** Count the live reservations with the two-mode expiry cursor. */
    method ReservationPass(ghost recipients: seq<Recipient>)
      requires Valid()
      requires Registered(db, projects) && Filled(db, now, projects, recipients, [])
      modifies this
      ensures Valid()
      ensures projects.Keys == old(projects.Keys) + LiveProjects(db, now, db.reservations)
      ensures Registered(db, projects) && Filled(db, now, projects, recipients, ScanOf(db, Everything, now))
    {
      hide At, Registered, Filled, Snapshot.Valid, PageQuery, ScanOf, Unreleased, LiveProjects, Advance, RowsOf;
      var cursor := Cursor(now, None);
      ghost var seen: seq<Reservation> := [];
      ghost var n: nat := 0;
      ghost var full: nat := 0;
      Begin(db, Everything, now, page);
      NothingUnreleased(db);
      while true
        invariant Valid()
        invariant At(db, Everything, now, page, n) == Position(Some(cursor), seen, n, full)
        invariant projects.Keys == old(projects.Keys) + Unreleased(db, seen)
        invariant Registered(db, projects) && Filled(db, now, projects, recipients, seen)
        decreases |db.reservations| - |seen|, if cursor.lastId.Some? then 1 else 0
      {
        var rows := PageQuery(db, Everything, cursor, page);
        PageQueryIsScoped(db, Everything, cursor, page);
        Count(|rows|);
        NextQuery(db, Everything, now, page, n);
        UnreleasedMore(db, seen, rows);
        ReservationPage(rows, recipients, seen);
        seen, full, n := seen + rows, full + (if |rows| == page then 1 else 0), n + 1;
        var next := Advance(cursor, rows, page);
        if next.None? {
          FullScanIsOracle(db, now);
          return;
        }
        cursor := next.value;
      }
    }

    /** The released ones among the rows of a page, looked up in the ledger. */
    method Releases(rows: seq<Reservation>) returns (released: set<Int64>)
      requires Valid() && |rows| <= page
      modifies `work
      ensures Valid()
      ensures forall r :: r in rows ==> (r.id in released <==> db.InLedger(r.id))
    {
      hide Keyed, Lookup;
      released := {};
      if db.ledger.Some? && rows != [] {
        LookupIsExact(db.ledger.value, ReleaseId, Ids(rows), page);
        var releases := Lookup(db.ledger.value, ReleaseId, Ids(rows), page);
        Count(|releases|);
        released := set id | id in releases;
      }
    }

    method ReservationPage(rows: seq<Reservation>, ghost recipients: seq<Recipient>, ghost seen: seq<Reservation>)
      requires Valid() && |rows| <= page
      requires Registered(db, projects) && Filled(db, now, projects, recipients, seen)
      modifies this
      ensures Valid()
      ensures projects.Keys == old(projects.Keys) + Unreleased(db, rows)
      ensures Registered(db, projects) && Filled(db, now, projects, recipients, seen + rows)
    {
      hide Registered, Filled, Unreleased, AddReservation, Snapshot.Valid;
      var released := Releases(rows);
      ghost var known := projects.Keys;
      assert seen + rows[..0] == seen && rows[..0] == [];
      NothingUnreleased(db);
      for i := 0 to |rows|
        modifies `projects
        invariant projects.Keys == known + Unreleased(db, rows[..i])
        invariant Registered(db, projects) && Filled(db, now, projects, recipients, seen + rows[..i])
      {
        assert rows[i] in rows;
        ReservationFilled(db, now, projects, recipients, seen + rows[..i], rows[i]);
        assert seen + rows[..i + 1] == seen + rows[..i] + [rows[i]];
        UnreleasedNext(db, rows, i);
        if rows[i].id !in released {
          projects := AddReservation(projects, rows[i]);
        }
      }
      assert rows[..|rows|] == rows;
    }

    /** The bounded plan gives the oracle's rows, in the oracle's order, whatever
        the page size, the release schema and the inventory indexes. */
    method Bounded(indexedInventory: bool) returns (result: seq<Row>)
      requires Valid() && projects == map[]
      modifies this
      ensures Valid()
      ensures projects == Reference(db, now)
      ensures result == SortedRows(Reference(db, now)) && IsReport(db, now, result)
    {
      ReferenceReports(db, now);
      hide IsReport;
      hide Registered, Filled, Snapshot.Valid, UniqueEntries, ProjectIds, EntryProjects, LiveProjects, Scan, ScanOf,
        ReferenceRow, SortedRows;
      EntriesUnique(db);
      ProjectPass();
      InventoryPass(AgentEntries(db), db.agentIndexes, indexedInventory);
      InventoryPass(MessageEntries(db), db.messageIndexes, indexedInventory);
      RecipientPass();
      ReservationPass(Scan(db.recipients, PendingFilter(), RecipientRowid));
      ReadIsReference(db, now, projects);
      result := SortedRows(projects);
    }
  }

  // ----- the order of the report

  /** Tuple comparison: the slug, then the four counts. */
  predicate RowBefore(a: Row, b: Row) {
    if a.slug != b.slug then Order.Less(a.slug, b.slug)
    else if a.unread != b.unread then a.unread < b.unread
    else if a.urgent != b.urgent then a.urgent < b.urgent
    else if a.overdue != b.overdue then a.overdue < b.overdue
    else a.reservations < b.reservations
  }

  predicate Listed(projects: map<int, Row>, ids: seq<int>) {
    forall i :: 0 <= i < |ids| ==> ids[i] in projects
  }

  /** The rows of the given projects, in the given order. */
  function RowsFor(projects: map<int, Row>, ids: seq<int>): seq<Row>
    requires Listed(projects, ids)
  {
    if ids == [] then []
    else
      RowsFor(projects, ids[..|ids| - 1]) + [projects[ids[|ids| - 1]]]
  }

  lemma SortedListed(projects: map<int, Row>)
    ensures Listed(projects, Sorted(projects.Keys))
  {
    var ids := Sorted(projects.Keys);
    forall i | 0 <= i < |ids| ensures ids[i] in projects {
      assert ids[i] in ids;
    }
  }

  function SortedRows(projects: map<int, Row>): seq<Row> {
    SortedListed(projects);
    Order.Sort(RowsFor(projects, Sorted(projects.Keys)), RowBefore)
  }

  lemma {:induction false} RowOrderIsTotal()
    ensures Order.Total(RowBefore)
  {
    forall x: Row, y: Row ensures RowBefore(x, y) ==> !RowBefore(y, x) {
      Order.LessTotal(x.slug, y.slug);
    }
    forall x: Row, y: Row | x != y ensures RowBefore(x, y) || RowBefore(y, x) {
      Order.LessTotal(x.slug, y.slug);
    }
    forall x: Row, y: Row, z: Row | RowBefore(x, y) && RowBefore(y, z) ensures RowBefore(x, z) {
      RowsChain(x, y, z);
    }
  }

  lemma {:induction false} RowsChain(x: Row, y: Row, z: Row)
    requires RowBefore(x, y) && RowBefore(y, z)
    ensures RowBefore(x, z)
  {
    Order.LessTotal(x.slug, z.slug);
    if x.slug != y.slug && y.slug != z.slug {
      Order.LessTransitive(x.slug, y.slug, z.slug);
    }
  }

  /** The report is ascending, and it is the only ascending arrangement of the rows:
      whatever order the dictionary lists its projects in, sorting gives the same. */
  lemma {:induction false} ReportIsSorted(projects: map<int, Row>, ids: seq<int>)
    requires multiset(ids) == multiset(projects.Keys) && Listed(projects, ids)
    ensures Order.Ascending(SortedRows(projects), RowBefore)
    ensures Order.Sort(RowsFor(projects, ids), RowBefore) == SortedRows(projects)
  {
    hide RowBefore, Order.Sort, Order.Total, Order.Ascending, Sorted, RowsFor;
    var own := Sorted(projects.Keys);
    RowOrderIsTotal();
    SortedListed(projects);
    Order.SortAscending(RowsFor(projects, own), RowBefore);
    SetOfSorted(projects.Keys);
    SameRows(projects, ids, own);
    Order.SortUnique(RowsFor(projects, ids), RowsFor(projects, own), RowBefore);
  }

  // ----- the report in words

  /** The first component in which the rows differ is smaller in the first one. */
  ghost predicate EarlierRow(a: Row, b: Row) {
    || Order.EarlierText(a.slug, b.slug)
    || (a.slug == b.slug && a.unread < b.unread)
    || (a.slug == b.slug && a.unread == b.unread && a.urgent < b.urgent)
    || (a.slug == b.slug && a.unread == b.unread && a.urgent == b.urgent && a.overdue < b.overdue)
    || (a.slug == b.slug && a.unread == b.unread && a.urgent == b.urgent && a.overdue == b.overdue
        && a.reservations < b.reservations)
  }

  lemma {:induction false} RowBeforeIsEarlier(a: Row, b: Row)
    ensures RowBefore(a, b) <==> EarlierRow(a, b)
  {
    hide Order.EarlierText;
    Order.LessIsEarlier(a.slug, b.slug);
    Order.LessTotal(a.slug, b.slug);
  }

  /** Registered, or an orphan of an agent, a message, or a reservation still held. */
  ghost predicate IsProject(db: Snapshot, now: int, project: int) {
    || (exists p :: p in db.projects && p.id == project)
    || (exists a :: a in db.agents && a.project == project)
    || (exists m :: m in db.messages && m.project == project)
    || IsHeld(db, now, project)
  }

  /** Its slug, or the placeholder with its number, and the four counts. */
  ghost predicate DescribesProject(db: Snapshot, now: int, project: int, row: Row) {
    && (forall p :: p in db.projects && p.id == project ==> row.slug == p.slug)
    && ((forall p :: p in db.projects ==> p.id != project) ==>
          exists text :: IsDecimal(text, project) && row.slug == "[unknown-project-" + text + "]")
    && row.unread == |UnreadIn(db, project)| && row.urgent == |UrgentIn(db, project)|
    && row.overdue == |OverdueIn(db, now, project)| && row.reservations == |HeldIn(db, now, project)|
  }

  ghost predicate ListsProjects(db: Snapshot, now: int, ids: seq<int>, rows: seq<Row>) {
    && |ids| == |rows| && (forall i, j :: 0 <= i < j < |ids| ==> ids[i] != ids[j])
    && (forall p :: p in ids <==> IsProject(db, now, p))
    && forall i :: 0 <= i < |ids| ==> DescribesProject(db, now, ids[i], rows[i])
  }

  /** One row for each project, in ascending order. */
  ghost predicate IsReport(db: Snapshot, now: int, rows: seq<Row>) {
    && (exists ids :: ListsProjects(db, now, ids, rows))
    && forall i, j :: 0 <= i < j < |rows| ==> rows[i] == rows[j] || EarlierRow(rows[i], rows[j])
  }

  lemma {:induction false} ReferenceProjects(db: Snapshot, now: int, project: int)
    ensures project in Reference(db, now) <==> IsProject(db, now, project)
  {
    hide LiveProjects, IsHeld, ReferenceRow;
    LiveProjectsHold(db, now, project);
    EntriesOf(db, project);
  }

  lemma EntriesOf(db: Snapshot, project: int)
    ensures project in EntryProjects(AgentEntries(db)) <==> exists a :: a in db.agents && a.project == project
    ensures project in EntryProjects(MessageEntries(db)) <==> exists m :: m in db.messages && m.project == project
  {
    forall a | a in db.agents ensures a.project in EntryProjects(AgentEntries(db)) {
      var i :| 0 <= i < |db.agents| && db.agents[i] == a;
      assert AgentEntries(db)[i] in AgentEntries(db);
    }
    forall m | m in db.messages ensures m.project in EntryProjects(MessageEntries(db)) {
      var i :| 0 <= i < |db.messages| && db.messages[i] == m;
      assert MessageEntries(db)[i] in MessageEntries(db);
    }
  }

  lemma {:induction false} SlugIs(db: Snapshot, p: Project)
    requires db.Valid() && p in db.projects
    ensures SlugOf(db, p.id) == p.slug
  {
    var found := FindProject(db.projects, p.id).value;
    var i :| 0 <= i < |db.projects| && db.projects[i] == p;
    var j :| 0 <= j < |db.projects| && db.projects[j] == found;
    assert ProjectId(db.projects[i]) == ProjectId(db.projects[j]);
  }

  lemma PlainThreshold(now: int)
    ensures IsThreshold(now - ACK_OVERDUE_AGE, now)
  {
  }

  lemma {:induction false} ReferenceDescribes(db: Snapshot, now: int, project: int)
    requires db.Valid()
    ensures DescribesProject(db, now, project, ReferenceRow(db, now, project))
  {
    hide Snapshot.Valid, Total, UnreadIn, UrgentIn, OverdueIn, HeldIn, IsThreshold, Sum, LiveCount, IsDecimal;
    PlainThreshold(now);
    TotalsCount(db, now - ACK_OVERDUE_AGE, now, project);
    LiveCountIsHeld(db, now, project);
    DecimalIs(project);
    forall p | p in db.projects && p.id == project ensures SlugOf(db, project) == p.slug {
      SlugIs(db, p);
    }
  }

  /** The projects behind some arrangement of the rows. */
  lemma {:induction false} Arranged(projects: map<int, Row>, ids: seq<int>, rows: seq<Row>) returns (out: seq<int>)
    requires Listed(projects, ids) && multiset(RowsFor(projects, ids)) == multiset(rows)
    ensures multiset(out) == multiset(ids) && Listed(projects, out) && RowsFor(projects, out) == rows
    decreases |rows|
  {
    hide RowsFor;
    out := [];
    RowsForLength(projects, ids);
    if rows == [] {
      NoRows(projects, ids);
    } else {
      var before, last := rows[..|rows| - 1], rows[|rows| - 1];
      assert rows == before + [last];
      var i := WhereIs(RowsFor(projects, ids), rows, last);
      RowsForAt(projects, ids, i);
      var rest := WithoutOne(projects, ids, i);
      SameRows(projects, ids, rest + [ids[i]]);
      OneMoreRow(projects, rest, ids[i]);
      LessOne(RowsFor(projects, rest), before, last);
      out := Arranged(projects, rest, before);
      OneMoreRow(projects, out, ids[i]);
      out := out + [ids[i]];
    }
  }

  lemma LessOne(a: seq<Row>, b: seq<Row>, last: Row)
    requires multiset(a + [last]) == multiset(b + [last])
    ensures multiset(a) == multiset(b)
  {
    assert multiset(a) == multiset(a + [last]) - multiset{last};
    assert multiset(b) == multiset(b + [last]) - multiset{last};
  }

  lemma NoRows(projects: map<int, Row>, ids: seq<int>)
    requires Listed(projects, ids) && multiset(RowsFor(projects, ids)) == multiset([])
    ensures ids == [] && RowsFor(projects, []) == []
  {
    RowsForLength(projects, ids);
    assert |multiset(RowsFor(projects, ids))| == |ids|;
  }

  lemma WhereIs(s: seq<Row>, rows: seq<Row>, last: Row) returns (i: nat)
    requires multiset(s) == multiset(rows) && last in rows
    ensures i < |s| && s[i] == last
  {
    assert last in multiset(s);
    i :| 0 <= i < |s| && s[i] == last;
  }

  lemma WithoutOne(projects: map<int, Row>, ids: seq<int>, i: nat) returns (rest: seq<int>)
    requires i < |ids| && Listed(projects, ids)
    ensures multiset(rest + [ids[i]]) == multiset(ids) && Listed(projects, rest) && Listed(projects, rest + [ids[i]])
  {
    rest := ids[..i] + ids[i + 1..];
    assert ids == ids[..i] + [ids[i]] + ids[i + 1..];
  }

  lemma OneMoreRow(projects: map<int, Row>, ids: seq<int>, id: int)
    requires Listed(projects, ids) && id in projects
    ensures Listed(projects, ids + [id])
    ensures RowsFor(projects, ids + [id]) == RowsFor(projects, ids) + [projects[id]]
  {
    assert (ids + [id])[..|ids|] == ids;
  }

  lemma {:induction false} RowsForLength(projects: map<int, Row>, ids: seq<int>)
    requires Listed(projects, ids)
    ensures |RowsFor(projects, ids)| == |ids|
  {
    if ids != [] {
      RowsForLength(projects, ids[..|ids| - 1]);
    }
  }

  lemma {:induction false} RowsForAt(projects: map<int, Row>, ids: seq<int>, i: nat)
    requires Listed(projects, ids) && i < |ids| == |RowsFor(projects, ids)|
    ensures RowsFor(projects, ids)[i] == projects[ids[i]]
  {
    RowsForLength(projects, ids[..|ids| - 1]);
    if i < |ids| - 1 {
      RowsForAt(projects, ids[..|ids| - 1], i);
    }
  }

  lemma {:induction false} SameMembers(a: seq<int>, b: seq<int>)
    requires multiset(a) == multiset(b) && forall i, j :: 0 <= i < j < |a| ==> a[i] < a[j]
    ensures forall x :: x in b <==> x in a
    ensures forall i, j :: 0 <= i < j < |b| ==> b[i] != b[j]
  {
    forall x: int ensures x in b <==> x in a {
      assert x in multiset(b) <==> x in multiset(a);
    }
    forall i, j | 0 <= i < j < |b| ensures b[i] != b[j] {
      OnceIn(a, b[i]);
      if b[i] == b[j] {
        TwiceIn(b, i, j);
      }
    }
  }

  lemma {:induction false} TwiceIn(s: seq<int>, i: nat, j: nat)
    requires i < j < |s| && s[i] == s[j]
    ensures multiset(s)[s[i]] >= 2
  {
    assert s == s[..j] + ([s[j]] + s[j + 1..]);
    assert s[i] == s[..j][i];
    assert s[i] in multiset(s[..j]) && multiset(s) == multiset(s[..j]) + multiset([s[j]] + s[j + 1..]);
  }

  lemma {:induction false} ReferenceListed(db: Snapshot, now: int, rows: seq<Row>)
    requires db.Valid() && rows == SortedRows(Reference(db, now))
    ensures exists ids :: ListsProjects(db, now, ids, rows)
  {
    hide Snapshot.Valid, IsProject, DescribesProject, ReferenceRow, RowBefore, Order.Sort, Sorted, RowsFor,
         LiveProjects, EntryProjects, ProjectIds;
    var projects := Reference(db, now);
    var own := Sorted(projects.Keys);
    SortedListed(projects);
    var ids := Arranged(projects, own, rows);
    SameMembers(own, ids);
    RowsForLength(projects, ids);
    forall i | 0 <= i < |ids| ensures DescribesProject(db, now, ids[i], rows[i]) {
      RowsForAt(projects, ids, i);
      ReferenceDescribes(db, now, ids[i]);
    }
    forall p ensures p in ids <==> IsProject(db, now, p) {
      assert p in own <==> p in projects.Keys;
      ReferenceProjects(db, now, p);
    }
    assert ListsProjects(db, now, ids, rows);
  }

  lemma {:induction false} RowsAscend(projects: map<int, Row>)
    ensures var rows := SortedRows(projects);
            forall i, j :: 0 <= i < j < |rows| ==> rows[i] == rows[j] || EarlierRow(rows[i], rows[j])
  {
    hide RowBefore, EarlierRow, Order.Sort, Sorted, RowsFor;
    var rows := SortedRows(projects);
    SortedListed(projects);
    RowOrderIsTotal();
    Order.SortAscending(RowsFor(projects, Sorted(projects.Keys)), RowBefore);
    forall i, j | 0 <= i < j < |rows| ensures rows[i] == rows[j] || EarlierRow(rows[i], rows[j]) {
      RowBeforeIsEarlier(rows[i], rows[j]);
      assert !RowBefore(rows[j], rows[i]);
    }
  }

  /** The sorted reference is the report. */
  lemma {:induction false} ReferenceReports(db: Snapshot, now: int)
    requires db.Valid()
    ensures IsReport(db, now, SortedRows(Reference(db, now)))
  {
    hide Snapshot.Valid, ListsProjects, EarlierRow, SortedRows, Reference;
    ReferenceListed(db, now, SortedRows(Reference(db, now)));
    RowsAscend(Reference(db, now));
  }

  lemma {:induction false} SetOfSorted(ids: set<int>)
    ensures multiset(Sorted(ids)) == multiset(ids)
  {
    hide Sorted;
    var out := Sorted(ids);
    forall id: int ensures multiset(out)[id] == multiset(ids)[id] {
      OnceIn(out, id);
    }
  }

  lemma {:induction false} OnceIn(out: seq<int>, id: int)
    requires forall i, j :: 0 <= i < j < |out| ==> out[i] < out[j]
    ensures multiset(out)[id] == if id in out then 1 else 0
  {
    if out != [] {
      var before, last := out[..|out| - 1], out[|out| - 1];
      assert out == before + [last];
      OnceIn(before, id);
    }
  }

  /** How often a row occurs among those of the given projects. */
  function RowCount(projects: map<int, Row>, row: Row): int -> int {
    (id: int) => if id in projects && projects[id] == row then 1 else 0
  }

  lemma {:induction false} RowsCounted(projects: map<int, Row>, ids: seq<int>, row: Row)
    requires Listed(projects, ids)
    ensures multiset(RowsFor(projects, ids))[row] == Sum(ids, RowCount(projects, row))
  {
    if ids != [] {
      var before := ids[..|ids| - 1];
      RowsCounted(projects, before, row);
      assert multiset(RowsFor(projects, before) + [projects[ids[|ids| - 1]]])
             == multiset(RowsFor(projects, before)) + multiset{projects[ids[|ids| - 1]]};
    }
  }

  lemma {:induction false} SameRows(projects: map<int, Row>, a: seq<int>, b: seq<int>)
    requires multiset(a) == multiset(b)
    requires Listed(projects, a) && Listed(projects, b)
    ensures multiset(RowsFor(projects, a)) == multiset(RowsFor(projects, b))
  {
    hide RowsFor, RowCount, Sum;
    forall row ensures multiset(RowsFor(projects, a))[row] == multiset(RowsFor(projects, b))[row] {
      RowsCounted(projects, a, row);
      RowsCounted(projects, b, row);
      SumOfMultiset(a, b, RowCount(projects, row));
    }
  }
}
