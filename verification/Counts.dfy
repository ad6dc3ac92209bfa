/** Reservation presence for `overview --counts`: which projects exist because
    they are known already or hold a live reservation.

    `Oracle` is the straight scan. `Collector.Counts` finds the same set with
    pages of at most `page` rows: a bounded initial scan, then seeks through the
    gaps between known project ids, then a restarted scan when a budget ran out.
    What a page visitor adds to and counts are fields of the class; the visitors
    themselves are the constructors of `Visitor`.
 */
module Counts {
  import opened Sql
  import opened Schema
  import opened Numbers
  import opened Paging
  import opened ExpiryScan

  datatype Budgets = Budgets(page: nat, initialPages: nat, maxIndexQueries: nat, maxOrphanPages: nat)
  {
    predicate Valid() {
      page >= 1 && initialPages >= 1 && maxIndexQueries >= 1 && maxOrphanPages >= 1
    }
  }

  datatype Work = Work(queries: nat, candidateRows: nat, releaseRows: nat, projectKeys: nat,
                       peakRows: nat, peakReleaseKeys: nat, indexed: bool, fallback: bool)
  {
    /** What the page loop never touches. */
    function Strategy(): (nat, bool, bool) { (projectKeys, indexed, fallback) }
  }

  const NO_WORK := Work(0, 0, 0, 0, 0, 0, false, false)

  datatype Visitor = Initial | Finish | Full | Orphan(project: Int64, started: nat)

  /** The straight scan: known projects and the projects of live reservations. */
  ghost function Oracle(db: Snapshot, known: set<int>, now: int): set<int> {
    known + LiveProjects(db, now, db.reservations)
  }

  /** In words: the known projects, and those with a reservation still held. */
  lemma {:induction false} OracleHolds(db: Snapshot, known: set<int>, now: int)
    ensures forall p :: p in Oracle(db, known, now) <==> p in known || IsHeld(db, now, p)
  {
    hide IsHeld, LiveProjects;
    forall p ensures p in LiveProjects(db, now, db.reservations) <==> IsHeld(db, now, p) {
      LiveProjectsHold(db, now, p);
    }
  }

  function Get(totals: map<int, nat>, project: int): nat {
    if project in totals then totals[project] else 0
  }

  /** The totals after tallying the unreleased ones among these rows. */
  ghost predicate Tallied(db: Snapshot, before: map<int, nat>, totals: map<int, nat>, rows: seq<Reservation>) {
    && totals.Keys == before.Keys + Unreleased(db, rows)
    && forall p :: Get(totals, p) == Get(before, p) + Sum(rows, UnreleasedCount(db, p))
  }

  lemma NothingTallied(db: Snapshot, before: map<int, nat>)
    ensures Tallied(db, before, before, [])
  {
  }

  lemma {:induction false} TalliedNext(db: Snapshot, before: map<int, nat>, totals: map<int, nat>,
                                       rows: seq<Reservation>, r: Reservation)
    requires Tallied(db, before, totals, rows)
    ensures Tallied(db, before,
                    if db.InLedger(r.id) then totals else totals[r.project := Get(totals, r.project) + 1], rows + [r])
  {
    assert (rows + [r])[..|rows|] == rows;
  }

  lemma {:induction false} TalliedMore(db: Snapshot, before: map<int, nat>, middle: map<int, nat>, after: map<int, nat>,
                                       seen: seq<Reservation>, rows: seq<Reservation>)
    requires Tallied(db, before, middle, seen) && Tallied(db, middle, after, rows)
    ensures Tallied(db, before, after, seen + rows)
  {
    hide Unreleased, Sum, Get;
    UnreleasedMore(db, seen, rows);
    forall p ensures Get(after, p) == Get(before, p) + Sum(seen + rows, UnreleasedCount(db, p)) {
      SumAppend(seen, rows, UnreleasedCount(db, p));
    }
  }

  function ProjectKey(r: Reservation): Key { Key(r.project, r.id) }

  function InGap(after: Option<int>, upper: Option<int>): Reservation -> bool {
    (r: Reservation) => (after.None? || r.project > after.value) && (upper.None? || r.project < upper.value)
  }

  predicate EmptyGap(lower: Option<int>, upper: Option<int>) {
    || (lower.None? && upper == Some(MIN_INT64))
    || (lower == Some(MAX_INT64) && upper.None?)
    || (lower.Some? && upper.Some? && lower.value + 1 == upper.value)
  }

  lemma VisitedMore(db: Snapshot, before: seq<Reservation>, rows: seq<Reservation>, known: set<int>, projects: set<int>)
    requires known <= projects
    ensures Unreleased(db, before + rows) == Unreleased(db, before) + Unreleased(db, rows)
    ensures AllKnown(before + rows, known) ==> AllKnown(before, known) && AllKnown(rows, projects)
  {
    UnreleasedMore(db, before, rows);
    forall r | r in before ensures r in before + rows {}
    forall r | r in rows ensures r in before + rows {}
  }

  /** Every live project up to `upto` has been found. */
  ghost predicate Settled(db: Snapshot, now: int, projects: set<int>, upto: int) {
    forall r :: r in db.reservations && db.Live(now, r) && r.project <= upto ==> r.project in projects
  }

  ghost function UpTo(after: Option<int>): int {
    if after.None? then MIN_INT64 - 1 else after.value
  }

  function Upper(bounds: seq<int>, i: nat): Option<int> {
    if i < |bounds| then Some(bounds[i]) else None
  }

  /** The first row inside a gap, in the order of the project index. */
  function GapQuery(db: Snapshot, after: Option<int>, upper: Option<int>): seq<Reservation> {
    Select(db.reservations, InGap(after, upper), ProjectKey, 1)
  }

  lemma ProjectKeyed(table: seq<Reservation>)
    requires Keyed(table, ReservationId)
    ensures Keyed(table, ProjectKey)
  {
    forall i, j | 0 <= i < j < |table| ensures ProjectKey(table[i]) != ProjectKey(table[j]) {
      assert ReservationId(table[i]) != ReservationId(table[j]);
    }
  }

  /** The gap query finds the next reserved project of the gap, or shows that the
      rest of the gap has none. */
  lemma {:induction false} GapQueryFinds(db: Snapshot, after: Option<int>, upper: Option<int>)
    requires db.Valid()
    ensures var rows := GapQuery(db, after, upper);
            && |rows| <= 1
            && (forall r :: r in rows ==> r in db.reservations && InGap(after, upper)(r))
            && forall r :: r in db.reservations && InGap(after, upper)(r) ==>
                 rows != [] && rows[0].project <= r.project
  {
    ProjectKeyed(db.reservations);
    hide Keyed, Select, Ordered, Snapshot.Valid, InGap;
    SelectIsPage(db.reservations, InGap(after, upper), ProjectKey, 1);
    var rows := GapQuery(db, after, upper);
    forall r | r in db.reservations && InGap(after, upper)(r) ensures rows != [] && rows[0].project <= r.project {
      if r !in rows {
        assert rows[0] in rows;
      }
    }
  }

  /** A whole gap is settled once nothing is left in it: its upper end was known. */
  lemma {:induction false} GapSettled(db: Snapshot, now: int, projects: set<int>, after: Option<int>,
                                      upper: Option<int>)
    requires Settled(db, now, projects, UpTo(after))
    requires upper.Some? ==> upper.value in projects
    requires forall r :: r in db.reservations && InGap(after, upper)(r) && db.Live(now, r) ==> r.project in projects
    ensures Settled(db, now, projects, if upper.Some? then upper.value else MAX_INT64)
  {
    forall r | r in db.reservations && db.Live(now, r) && r.project <= (if upper.Some? then upper.value else MAX_INT64)
      ensures r.project in projects
    {
      assert InGap(after, upper)(r) || r.project <= UpTo(after) || upper == Some(r.project);
    }
  }

  /** Consecutive sorted ids have no id between them. */
  lemma {:induction false} NoneBetween(projects: set<int>, i: nat, id: int)
    requires i <= |projects|
    requires var bounds := Sorted(projects);
             && (i > 0 ==> bounds[i - 1] < id) && (i < |bounds| ==> id < bounds[i])
    ensures id !in projects
  {
    hide Sorted;
    var bounds := Sorted(projects);
    forall k | 0 <= k < |bounds| ensures bounds[k] != id {
      if k < i - 1 {
        assert bounds[k] < bounds[i - 1];
      } else if i < k {
        assert bounds[i] < bounds[k];
      }
    }
  }

  lemma {:induction false} EmptyGapSettled(db: Snapshot, now: int, projects: set<int>, lower: Option<int>,
                                           upper: Option<int>)
    requires EmptyGap(lower, upper)
    requires Settled(db, now, projects, UpTo(lower))
    requires upper.Some? ==> upper.value in projects
    ensures Settled(db, now, projects, if upper.Some? then upper.value else MAX_INT64)
  {
    GapSettled(db, now, projects, lower, upper);
  }

  lemma {:induction false} GapsFollow(known: set<int>, i: nat)
    requires i <= |known|
    ensures i == 0 ==> InsideGap(known, 0, None, Upper(Sorted(known), 0))
    ensures i < |known| ==> InsideGap(known, i + 1, Upper(Sorted(known), i), Upper(Sorted(known), i + 1))
    ensures Upper(Sorted(known), i).Some? <==> i < |known|
    ensures i < |known| ==> Upper(Sorted(known), i).value in known
  {
    hide Sorted;
    if i < |known| {
      assert Sorted(known)[i] in Sorted(known);
    }
  }

  lemma NothingSettled(db: Snapshot, now: int, projects: set<int>)
    ensures Settled(db, now, projects, UpTo(None))
    ensures forall found :: Settled(db, now, found, MAX_INT64) && projects <= found <= Oracle(db, projects, now) ==>
              found == Oracle(db, projects, now)
    ensures projects <= Oracle(db, projects, now)
  {
  }

  /** The gap between two consecutive known ids, as seen from inside it. */
  ghost predicate InsideGap(known: set<int>, i: nat, after: Option<int>, upper: Option<int>) {
    && i <= |known|
    && upper == Upper(Sorted(known), i)
    && (i > 0 ==> after.Some? && Sorted(known)[i - 1] <= after.value)
    && (after.Some? && upper.Some? ==> after.value < upper.value)
  }

  /** What one gap query settles. */
  lemma {:induction false} GapOutcome(db: Snapshot, now: int, projects: set<int>, known: set<int>, i: nat,
                                      after: Option<int>, upper: Option<int>)
    requires db.Valid() && known <= projects && InsideGap(known, i, after, upper)
    requires Settled(db, now, projects, UpTo(after))
    ensures var rows := GapQuery(db, after, upper);
            && |rows| <= 1
            && (rows == [] ==> Settled(db, now, projects, if upper.Some? then upper.value else MAX_INT64))
            && (rows != [] ==>
                  var pid := rows[0].project;
                  && InsideGap(known, i, Some(pid), upper) && (after.Some? ==> after.value < pid)
                  && Settled(db, now, projects, pid - 1))
            && (AllKnown(db.reservations, known) ==> rows == [])
  {
    hide Settled, GapQuery, Snapshot.Valid, Sorted;
    GapQueryFinds(db, after, upper);
    var rows := GapQuery(db, after, upper);
    if rows == [] {
      GapSettled(db, now, projects, after, upper);
    } else {
      assert rows[0] in rows;
      assert rows[0] in db.reservations && InGap(after, upper)(rows[0]);
      NoneBetween(known, i, rows[0].project);
      GapStart(db, now, projects, after, upper, rows[0].project);
    }
  }

  lemma {:induction false} GapStart(db: Snapshot, now: int, projects: set<int>, after: Option<int>, upper: Option<int>,
                                    pid: Int64)
    requires Settled(db, now, projects, UpTo(after))
    requires upper.Some? ==> pid < upper.value
    requires forall r :: r in db.reservations && InGap(after, upper)(r) ==> pid <= r.project
    ensures Settled(db, now, projects, pid - 1)
  {
    forall r | r in db.reservations && db.Live(now, r) && r.project <= pid - 1 ensures r.project in projects {
      assert !InGap(after, upper)(r) ==> r.project <= UpTo(after);
    }
  }

  /** Looking at one project settles it, if its scan completed or it was found. */
  lemma {:induction false} ProbeSettles(db: Snapshot, now: int, known: set<int>, before: set<int>, projects: set<int>,
                                        pid: Int64, complete: bool, seen: seq<Reservation>)
    requires before <= Oracle(db, known, now) && Settled(db, now, before, pid - 1)
    requires projects == before + Unreleased(db, seen) && seen <= ScanOf(db, Only(pid), now)
    requires complete ==> seen == ScanOf(db, Only(pid), now)
    ensures before <= projects <= Oracle(db, known, now)
    ensures complete || pid in projects ==> Settled(db, now, projects, pid)
  {
    VisitedAreLive(db, Only(pid), now, seen);
    ScanFindsLive(db, Only(pid), now);
  }

  class Collector {
    const db: Snapshot
    const now: Int64
    const budgets: Budgets
    var work: Work
    var projects: set<int>
    var pages: nat
    var totals: map<int, nat>
    ghost var lookups: nat
    ghost var fetches: nat

    constructor (db: Snapshot, now: Int64, budgets: Budgets)
      ensures this.db == db && this.now == now && this.budgets == budgets
      ensures work == NO_WORK && lookups == 0 && fetches == 0
      ensures db.Valid() && budgets.Valid() ==> Valid()
    {
      this.db, this.now, this.budgets := db, now, budgets;
      work, projects, pages, totals := NO_WORK, {}, 0, map[];
      lookups, fetches := 0, 0;
    }

    /** No query returned more than a page of rows. */
    ghost predicate Valid()
      reads this
    {
      db.Valid() && budgets.Valid() && work.peakRows <= budgets.page
    }

    /** Every query is counted, and none returns more than a page. */
    method Count(rows: nat)
      requires Valid() && rows <= budgets.page
      modifies `work
      ensures work == old(work).(queries := old(work.queries) + 1,
                                 peakRows := if old(work.peakRows) < rows then rows else old(work.peakRows))
      ensures Valid()
    {
      work := work.(queries := work.queries + 1,
                    peakRows := if rows > work.peakRows then rows else work.peakRows);
    }

    method Released(ids: seq<Int64>) returns (released: set<Int64>)
      requires Valid() && |ids| <= budgets.page
      modifies `work, `lookups
      ensures forall id :: id in released <==> id in ids && db.InLedger(id)
      ensures old(lookups) <= lookups <= old(lookups) + 1
      ensures ids == [] ==> lookups == old(lookups)
      ensures work.queries == old(work.queries) + (lookups - old(lookups))
      ensures work.candidateRows == old(work.candidateRows) && work.Strategy() == old(work.Strategy())
      ensures Valid()
      ensures work.releaseRows >= old(work.releaseRows)
      ensures lookups == old(lookups) ==> work == old(work)
    {
      if db.ledger.None? || ids == [] {
        return {};
      }
      LookupIsExact(db.ledger.value, ReleaseId, ids, budgets.page);
      var rows := Lookup(db.ledger.value, ReleaseId, ids, budgets.page);
      Count(|rows|);
      lookups := lookups + 1;
      released := set id | id in rows;
      work := work.(releaseRows := work.releaseRows + |rows|,
                    peakReleaseKeys := if |released| > work.peakReleaseKeys then |released| else work.peakReleaseKeys);
    }

    /** Only rows of unknown projects are looked up, and exactly the unreleased
        ones add their project. */
    method AddOrphans(rows: seq<Reservation>)
      requires Valid() && |rows| <= budgets.page
      modifies `work, `lookups, `projects
      ensures projects == old(projects) + Unreleased(db, rows)
      ensures old(lookups) <= lookups <= old(lookups) + 1
      ensures AllKnown(rows, old(projects)) ==> lookups == old(lookups)
      ensures work.queries == old(work.queries) + (lookups - old(lookups))
      ensures work.candidateRows == old(work.candidateRows) && work.Strategy() == old(work.Strategy())
      ensures Valid()
      ensures lookups == old(lookups) ==> work == old(work)
    {
      var before := projects;
      var candidates := Filter(rows, (r: Reservation) => r.project !in before);
      if candidates != [] {
        assert candidates[0] in candidates;
      }
      var released := Released(Ids(candidates));
      projects := projects + set r | r in candidates && r.id !in released :: r.project;
      forall p: int ensures p in projects <==> p in before + Unreleased(db, rows) {
        UnreleasedHas(db, rows, p);
      }
    }

    /** The Full visitor looks up the whole page and tallies its unreleased rows. */
    method CountAll(rows: seq<Reservation>)
      requires Valid() && |rows| <= budgets.page
      modifies `work, `lookups, `totals
      ensures Tallied(db, old(totals), totals, rows)
      ensures old(lookups) <= lookups <= old(lookups) + 1
      ensures work.queries == old(work.queries) + (lookups - old(lookups))
      ensures work.candidateRows == old(work.candidateRows) && work.Strategy() == old(work.Strategy())
      ensures Valid()
    {
      hide Tallied, Get, Snapshot.Valid;
      var released := Released(Ids(rows));
      ghost var before := totals;
      NothingTallied(db, before);
      assert rows[..0] == [];
      for i := 0 to |rows|
        modifies `totals
        invariant Tallied(db, before, totals, rows[..i])
      {
        assert rows[..i + 1] == rows[..i] + [rows[i]];
        assert rows[i].id in Ids(rows);
        TalliedNext(db, before, totals, rows[..i], rows[i]);
        if rows[i].id !in released {
          totals := totals[rows[i].project := Get(totals, rows[i].project) + 1];
        }
      }
      assert rows[..|rows|] == rows;
    }

    /** One call of the visitor closure; `more` is what the closure returns. */
    method Visit(v: Visitor, rows: seq<Reservation>) returns (more: bool)
      requires Valid() && |rows| <= budgets.page
      requires v.Orphan? ==> work.queries >= v.started && forall r :: r in rows ==> r.project == v.project
      modifies `work, `lookups, `projects, `pages, `totals
      ensures !v.Full? ==> totals == old(totals) && projects == old(projects) + Unreleased(db, rows)
      ensures v.Full? ==>
                projects == old(projects) && Tallied(db, old(totals), totals, rows)
      ensures v.Finish? || v.Full? ==> more && pages == old(pages)
      ensures v.Initial? || v.Orphan? ==> pages == old(pages) + 1
      ensures v.Initial? ==> (more <==> pages < budgets.initialPages)
      ensures v.Orphan? ==>
                (more <==> && v.project !in projects && pages < budgets.maxOrphanPages
                           && work.queries - v.started < budgets.maxIndexQueries)
      ensures old(lookups) <= lookups <= old(lookups) + 1
      ensures !v.Full? && AllKnown(rows, old(projects)) ==>
                lookups == old(lookups) && work == old(work)
      ensures work.queries == old(work.queries) + (lookups - old(lookups))
      ensures work.candidateRows == old(work.candidateRows) && work.Strategy() == old(work.Strategy())
      ensures Valid()
    {
      match v
      case Initial =>
        AddOrphans(rows);
        pages := pages + 1;
        more := pages < budgets.initialPages;
      case Finish =>
        AddOrphans(rows);
        more := true;
      case Full =>
        CountAll(rows);
        more := true;
      case Orphan(pid, started) =>
        AddOrphans(rows);
        pages := pages + 1;
        more := && pid !in projects && pages < budgets.maxOrphanPages
                && work.queries - started < budgets.maxIndexQueries;
    }

    /** One page query of the cursor loop. */
    method Fetch(scope: Scope, cursor: Cursor) returns (rows: seq<Reservation>)
      requires Valid()
      modifies `work, `fetches
      ensures rows == PageQuery(db, scope, cursor, budgets.page)
      ensures |rows| <= budgets.page
      ensures scope.Only? ==> forall r :: r in rows ==> r.project == scope.project
      ensures fetches == old(fetches) + 1
      ensures work == old(work).(queries := old(work.queries) + 1, peakRows := work.peakRows,
                                 candidateRows := old(work.candidateRows) + |rows|)
      ensures Valid()
    {
      PageQueryIsScoped(db, scope, cursor, budgets.page);
      rows := PageQuery(db, scope, cursor, budgets.page);
      Count(|rows|);
      fetches := fetches + 1;
      work := work.(candidateRows := work.candidateRows + |rows|);
    }

    /** The page loop with a visitor. It visits a beginning of the expiry-ordered
        scan, all of it when it completes, in few page queries; it stops early
        only because the visitor said so. */
    method Pages(scope: Scope, v: Visitor)
      returns (complete: bool, ghost seen: seq<Reservation>, ghost full: nat)
      requires Valid()
      requires v.Orphan? ==>
               scope == Only(v.project) && v.started <= work.queries <= v.started + budgets.maxIndexQueries
      modifies `work, `lookups, `fetches, `projects, `pages, `totals
      ensures seen <= ScanOf(db, scope, now)
      ensures complete ==> seen == ScanOf(db, scope, now)
      ensures !v.Full? ==> totals == old(totals) && projects == old(projects) + Unreleased(db, seen)
      ensures v.Full? ==>
                projects == old(projects) && Tallied(db, old(totals), totals, seen)
      ensures v.Finish? || v.Full? ==> complete
      ensures v.Initial? && !complete ==> pages >= budgets.initialPages
      ensures v.Initial? && old(pages) == 0 ==> |seen| <= RowsOf(budgets.initialPages, budgets.page)
      ensures v.Orphan? && !complete && v.project !in projects ==>
                pages >= budgets.maxOrphanPages || work.queries - v.started >= budgets.maxIndexQueries
      ensures v.Orphan? ==> work.queries <= v.started + budgets.maxIndexQueries + 2
      ensures work.queries >= old(work.queries)
      ensures work.candidateRows == old(work.candidateRows) + |seen|
      ensures RowsOf(full, budgets.page) <= |seen| && fetches - old(fetches) <= 2 * full + 1
      ensures old(lookups) <= lookups
      ensures work.queries == old(work.queries) + (fetches - old(fetches)) + (lookups - old(lookups))
      ensures !v.Full? && AllKnown(seen, old(projects)) ==> lookups == old(lookups)
      ensures work.Strategy() == old(work.Strategy())
      ensures Valid()
    {
      hide At, ScanOf, PageQuery, Unreleased, AllKnown, Keyed, RowsOf, Advance, Snapshot.Valid, Tallied;
      Begin(db, scope, now, budgets.page);
      NothingTallied(db, totals);
      NothingUnreleased(db);
      var cursor := Cursor(now, None);
      seen, full := [], 0;
      ghost var n: nat := 0;
      while true
        invariant At(db, scope, now, budgets.page, n) == Position(Some(cursor), seen, n, full)
        invariant fetches == old(fetches) + n
        invariant !v.Full? ==> totals == old(totals) && projects == old(projects) + Unreleased(db, seen)
        invariant v.Full? ==>
                    projects == old(projects) && Tallied(db, old(totals), totals, seen)
        invariant old(projects) <= projects
        invariant v.Initial? && old(pages) == 0 ==> |seen| <= RowsOf(pages, budgets.page)
        invariant v.Initial? && old(pages) == 0 ==> pages < budgets.initialPages
        invariant v.Orphan? ==> work.queries >= v.started
        invariant v.Orphan? ==>
                  work.queries - v.started <= budgets.maxIndexQueries - (if cursor.lastId.Some? then 1 else 0)
        invariant work.candidateRows == old(work.candidateRows) + |seen|
        invariant old(lookups) <= lookups
        invariant work.queries == old(work.queries) + n + (lookups - old(lookups))
        invariant !v.Full? && AllKnown(seen, old(projects)) ==> lookups == old(lookups)
        invariant work.Strategy() == old(work.Strategy())
        invariant Valid()
        decreases |db.reservations| - |seen|, if cursor.lastId.Some? then 1 else 0
      {
        ghost var visited := pages;
        OneMorePage(visited, budgets.page);
        var rows := Fetch(scope, cursor);
        VisitedMore(db, seen, rows, old(projects), projects);
        NextQuery(db, scope, now, budgets.page, n);
        seen, full, n := seen + rows, full + (if |rows| == budgets.page then 1 else 0), n + 1;
        var more := true;
        ghost var middle := totals;
        NothingTallied(db, middle);
        if rows != [] {
          more := Visit(v, rows);
        }
        if v.Full? {
          TalliedMore(db, old(totals), middle, totals, seen[..|seen| - |rows|], rows);
        }
        if v.Initial? && old(pages) == 0 {
          assert pages == visited || pages == visited + 1;
          RowsOfMonotone(pages, budgets.initialPages, budgets.page);
        }
        if !more {
          return false, seen, full;
        }
        var next := Advance(cursor, rows, budgets.page);
        if next.None? {
          return true, seen, full;
        }
        cursor := next.value;
      }
    }

    /** Probe the gaps between the known project ids for unknown projects. False
        means that a budget ran out; the result so far is still sound. */
    method Seek() returns (complete: bool)
      requires Valid()
      modifies this
      ensures Valid()
      ensures old(projects) <= projects <= Oracle(db, old(projects), now)
      ensures complete ==> projects == Oracle(db, old(projects), now)
      ensures work.indexed && work.fallback == old(work.fallback)
      ensures work.queries <= old(work.queries) + budgets.maxIndexQueries + 2
      ensures AllKnown(db.reservations, old(projects)) && |old(projects)| < budgets.maxIndexQueries ==>
                && complete && lookups == old(lookups)
                && work.candidateRows == old(work.candidateRows) && work.projectKeys == old(work.projectKeys)
                && work.queries <= old(work.queries) + |old(projects)| + 1
    {
      hide Oracle, AllKnown, Snapshot.Valid, InsideGap, Sorted, Settled, Upper;
      work := work.(indexed := true);
      var started := work.queries;
      var bounds := Sorted(projects);
      ghost var known := projects;
      NothingSettled(db, now, projects);
      GapsFollow(known, 0);
      ghost var easy := AllKnown(db.reservations, known) && |known| < budgets.maxIndexQueries;
      var lower: Option<int> := None;
      for i := 0 to |bounds| + 1
        invariant bounds == Sorted(known) && |bounds| == |known|
        invariant Valid()
        invariant known <= projects <= Oracle(db, known, now)
        invariant i <= |known| ==> InsideGap(known, i, lower, Upper(bounds, i))
        invariant Settled(db, now, projects, if i > |known| then MAX_INT64 else UpTo(lower))
        invariant work.indexed && work.fallback == old(work.fallback)
        invariant started <= work.queries <= started + budgets.maxIndexQueries + 2
        invariant easy ==>
                    && lookups == old(lookups) && work.queries <= started + i
                    && work.candidateRows == old(work.candidateRows) && work.projectKeys == old(work.projectKeys)
      {
        var upper := Upper(bounds, i);
        GapsFollow(known, i);
        if EmptyGap(lower, upper) {
          EmptyGapSettled(db, now, projects, lower, upper);
          lower := upper;
          continue;
        }
        var ok := SeekGap(started, lower, upper, known, i);
        if !ok {
          return false;
        }
        lower := upper;
      }
      complete := true;
    }

    /** The inner loop of the seek: look at each project found in one gap, until
        the gap is exhausted. */
    method SeekGap(started: nat, lower: Option<int>, upper: Option<int>, ghost known: set<int>, ghost i: nat)
      returns (ok: bool)
      requires Valid() && known <= projects <= Oracle(db, known, now)
      requires InsideGap(known, i, lower, upper)
      requires Settled(db, now, projects, UpTo(lower))
      requires started <= work.queries <= started + budgets.maxIndexQueries + 2
      modifies this
      ensures Valid() && known <= projects <= Oracle(db, known, now)
      ensures ok ==> Settled(db, now, projects, if upper.Some? then upper.value else MAX_INT64)
      ensures work.indexed == old(work.indexed) && work.fallback == old(work.fallback)
      ensures started <= work.queries <= started + budgets.maxIndexQueries + 2
      ensures AllKnown(db.reservations, known) && old(work.queries) - started < budgets.maxIndexQueries ==>
                && ok && lookups == old(lookups) && work.queries == old(work.queries) + 1
                && work.candidateRows == old(work.candidateRows) && work.projectKeys == old(work.projectKeys)
    {
      hide Oracle, Settled, ScanOf, Unreleased, GapQuery, AllKnown, Snapshot.Valid, RowsOf, InsideGap;
      var after := lower;
      while true
        invariant Valid() && known <= projects <= Oracle(db, known, now)
        invariant InsideGap(known, i, after, upper)
        invariant Settled(db, now, projects, UpTo(after))
        invariant work.indexed == old(work.indexed) && work.fallback == old(work.fallback)
        invariant started <= work.queries <= started + budgets.maxIndexQueries + 2
        invariant AllKnown(db.reservations, known) ==> lookups == old(lookups) && work == old(work)
        decreases MAX_INT64 + 1 - UpTo(after)
      {
        if work.queries - started >= budgets.maxIndexQueries {
          return false;
        }
        GapOutcome(db, now, projects, known, i, after, upper);
        var rows := GapQuery(db, after, upper);
        Count(|rows|);
        work := work.(projectKeys := work.projectKeys + |rows|);
        if rows == [] {
          return true;
        }
        var pid := rows[0].project;
        pages := 0;
        ghost var before := projects;
        var complete, seen, full := Pages(Only(pid), Orphan(pid, started));
        ProbeSettles(db, now, known, before, projects, pid, complete, seen);
        if !complete && pid !in projects {
          return false;
        }
        after := Some(pid);
      }
    }

    /** The entry point: initial pages, then gap seeks over the index, then the
        restarted scan. Whichever strategy answers, the answer is the oracle's. */
    method Counts(known: set<int>)
      requires Valid()
      modifies this
      ensures Valid()
      ensures projects == Oracle(db, known, now)
      ensures forall p :: p in projects <==> p in known || IsHeld(db, now, p)
      ensures AllKnown(db.reservations, known) && |known| < budgets.maxIndexQueries
              && HasIndex(db.reservationIndexes, ["project_id"]) ==>
                && lookups == old(lookups) && !(work.fallback && !old(work.fallback))
                && work.candidateRows <= old(work.candidateRows) + budgets.initialPages * budgets.page
    {
      hide AllKnown, Snapshot.Valid, ScanOf, Unreleased, IsHeld, LiveProjects, RowsOf, Tallied;
      OracleHolds(db, known, now);
      projects, pages := known, 0;
      var complete, seen, full := Pages(Everything, Initial);
      FullScanIsOracle(db, now);
      VisitedAreLive(db, Everything, now, seen);
      RowsOfIsProduct(budgets.initialPages, budgets.page);
      assert AllKnown(db.reservations, known) ==> projects == known;
      if complete {
        return;
      }
      if |projects| < budgets.maxIndexQueries {
        var index := IndexWithPrefix(db.reservationIndexes, ["project_id"]);
        if index.Some? {
          var ok := Seek();
          if ok {
            return;
          }
        }
      }
      work := work.(fallback := true);
      complete, seen, full := Pages(Everything, Finish);
    }

    /** The unconditional tally, which looks up the releases of every page. */
    method FullCounts(known: set<int>) returns (found: set<int>)
      requires Valid()
      modifies this
      ensures Valid()
      ensures found == Oracle(db, known, now) == totals.Keys
      ensures forall p :: p in found <==> p in known || IsHeld(db, now, p)
      ensures forall p :: Get(totals, p) == Sum(db.reservations, LiveCount(db, now, p)) == |HeldIn(db, now, p)|
    {
      hide Sum, Unreleased, ScanOf, Snapshot.Valid, UnreleasedCount, LiveCount, IsHeld, HeldIn;
      OracleHolds(db, known, now);
      totals := map p | p in known :: 0;
      ghost var zero := totals;
      var complete, seen, full := Pages(Everything, Full);
      FullScanIsOracle(db, now);
      forall p ensures Get(totals, p) == Sum(db.reservations, LiveCount(db, now, p)) == |HeldIn(db, now, p)| {
        LiveCountIsHeld(db, now, p);
        assert Get(zero, p) == 0;
        ScanCountsLive(db, now, p);
      }
      found := totals.Keys;
    }
  }
}
