/** The reservation cursor as a scan: what its page queries read, in which order
    and in how many queries.
 */
module ExpiryScan {
  import opened Sql
  import opened Schema
  import opened Paging

  datatype Scope = Everything | Only(project: Int64)

  function Matching(db: Snapshot, scope: Scope): Reservation -> bool {
    (r: Reservation) => db.Candidate(r) && (scope.Everything? || r.project == scope.project)
  }

  /** What a complete scan visits: the unexpired candidates by (expiry, id). */
  ghost function ScanOf(db: Snapshot, scope: Scope, now: int): seq<Reservation> {
    Scan(db.reservations, Unexpired(Matching(db, scope), now), ExpiryKey)
  }

  function PageQuery(db: Snapshot, scope: Scope, cursor: Cursor, page: nat): seq<Reservation> {
    Select(db.reservations, Continuation(Matching(db, scope), cursor), ExpiryKey, page)
  }

  /** Where the cursor loop stands: what it has read, in how many queries, and how
      many of the pages were full. */
  datatype Position = Position(cursor: Option<Cursor>, seen: seq<Reservation>, queries: nat, full: nat)

  ghost function Step(db: Snapshot, scope: Scope, page: nat, before: Position): Position {
    if before.cursor.None? then before
    else
      var rows := PageQuery(db, scope, before.cursor.value, page);
      Position(Advance(before.cursor.value, rows, page), before.seen + rows, before.queries + 1,
               before.full + if |rows| == page then 1 else 0)
  }

  ghost function At(db: Snapshot, scope: Scope, now: int, page: nat, n: nat): Position {
    if n == 0 then Position(Some(Cursor(now, None)), [], 0, 0)
    else Step(db, scope, page, At(db, scope, now, page, n - 1))
  }

  /** Page queries paid for by the full pages: two for each, and the last. */
  function Allowed(at: Position): int {
    if at.cursor.None? then 2 * at.full + 1
    else 2 * at.full - if at.cursor.value.lastId.Some? then 1 else 0
  }

  /** The loop invariant: the queries so far have read `seen`, a beginning of the
      expiry-ordered scan that is the whole scan once the cursor has ended. */
  ghost predicate Holds(db: Snapshot, scope: Scope, now: int, page: nat, at: Position) {
    && RowsOf(at.full, page) <= |at.seen|
    && at.queries <= Allowed(at)
    && match at.cursor
       case None => at.seen == ScanOf(db, scope, now)
       case Some(c) => ReadTo(c, at.seen, db.reservations, Matching(db, scope), now)
  }

  lemma {:induction false} StepHolds(db: Snapshot, scope: Scope, now: int, page: nat, before: Position)
    requires db.Valid() && page >= 1
    requires Holds(db, scope, now, page, before)
    ensures Holds(db, scope, now, page, Step(db, scope, page, before))
  {
    hide ReadTo, IsPage, Keyed, Scan, Select, Ordered, Continuation, Unexpired, Matching;
    if before.cursor.Some? {
      ExpiryKeyed(db.reservations);
      SelectIsPage(db.reservations, Continuation(Matching(db, scope), before.cursor.value), ExpiryKey, page);
      var rows := PageQuery(db, scope, before.cursor.value, page);
      AdvanceReads(before.cursor.value, before.seen, rows, db.reservations, Matching(db, scope), now, page);
      assert RowsOf(before.full + 1, page) == RowsOf(before.full, page) + page;
    }
  }

  lemma Begin(db: Snapshot, scope: Scope, now: int, page: nat)
    ensures At(db, scope, now, page, 0) == Position(Some(Cursor(now, None)), [], 0, 0)
    ensures RowsOf(0, page) == 0
  {
  }

  lemma {:induction false} StartHolds(db: Snapshot, scope: Scope, now: int, page: nat)
    ensures Holds(db, scope, now, page, At(db, scope, now, page, 0))
  {
  }

  lemma {:induction false} AtHolds(db: Snapshot, scope: Scope, now: int, page: nat, n: nat)
    requires db.Valid() && page >= 1
    ensures Holds(db, scope, now, page, At(db, scope, now, page, n))
  {
    hide Holds, Step;
    if n == 0 {
      StartHolds(db, scope, now, page);
    } else {
      AtHolds(db, scope, now, page, n - 1);
      StepHolds(db, scope, now, page, At(db, scope, now, page, n - 1));
    }
  }

  /** One more query: where the loop stands then, that it has visited a beginning
      of the expiry-ordered scan, all of it when the cursor has ended, and that
      it has used at most two queries for each full page and one more. */
  lemma {:induction false} NextQuery(db: Snapshot, scope: Scope, now: int, page: nat, n: nat)
    requires db.Valid() && page >= 1
    requires At(db, scope, now, page, n).cursor.Some?
    ensures var before := At(db, scope, now, page, n);
            var rows := PageQuery(db, scope, before.cursor.value, page);
            var at := At(db, scope, now, page, n + 1);
            && at == Position(Advance(before.cursor.value, rows, page), before.seen + rows, before.queries + 1,
                              before.full + if |rows| == page then 1 else 0)
            && at.seen <= ScanOf(db, scope, now)
            && |at.seen| <= |db.reservations|
            && (at.cursor.None? ==> at.seen == ScanOf(db, scope, now))
            && RowsOf(at.full, page) <= |at.seen| && at.queries <= 2 * at.full + 1
            && (rows == [] && at.cursor.Some? ==> before.cursor.value.lastId.Some? && at.cursor.value.lastId.None?)
  {
    hide ReadTo, PageQuery, Keyed, RowsOf;
    AtHolds(db, scope, now, page, n + 1);
    var at := At(db, scope, now, page, n + 1);
    if at.cursor.Some? {
      ReadToPrefix(at.cursor.value, at.seen, db.reservations, Matching(db, scope), now);
    }
  }

  lemma {:induction false} OpenCounts(db: Snapshot, scope: Scope, now: int, page: nat, n: nat)
    requires At(db, scope, now, page, n).cursor.Some?
    ensures At(db, scope, now, page, n).queries == n
  {
    hide PageQuery, Advance, Continuation, Matching;
    if n > 0 {
      OpenCounts(db, scope, now, page, n - 1);
    }
  }

  /** The two-mode cursor ends within 2 * floor(n / page) + 1 page queries and has
      then visited every unexpired candidate exactly once, in (expiry, id) order,
      however many rows share one expiry. */
  lemma {:induction false} CursorEnds(db: Snapshot, scope: Scope, now: int, page: nat)
    requires db.Valid() && page >= 1
    ensures var at := At(db, scope, now, page, 2 * (|db.reservations| / page) + 1);
            && at.cursor.None?
            && Ordered(at.seen, ExpiryKey)
            && forall r :: r in at.seen <==> r in db.reservations && Matching(db, scope)(r) && r.expires > now
  {
    var n := 2 * (|db.reservations| / page) + 1;
    var at := At(db, scope, now, page, n);
    AtHolds(db, scope, now, page, n);
    ExpiryKeyed(db.reservations);
    ScanOrdered(db.reservations, Unexpired(Matching(db, scope), now), ExpiryKey);
    hide Keyed, At, Scan, ReadTo, Ordered;
    FullPages(at.full, |at.seen|, page);
    if at.cursor.Some? {
      OpenCounts(db, scope, now, page, n);
      ReadToPrefix(at.cursor.value, at.seen, db.reservations, Matching(db, scope), now);
      QuotientGrows(|at.seen|, |db.reservations|, page);
    }
  }

  lemma {:induction false} PageQueryIsScoped(db: Snapshot, scope: Scope, cursor: Cursor, page: nat)
    requires db.Valid()
    ensures |PageQuery(db, scope, cursor, page)| <= page
    ensures scope.Only? ==> forall r :: r in PageQuery(db, scope, cursor, page) ==> r.project == scope.project
  {
    var where := Continuation(Matching(db, scope), cursor);
    ExpiryKeyed(db.reservations);
    SelectIsPage(db.reservations, where, ExpiryKey, page);
    forall r | r in PageQuery(db, scope, cursor, page) && scope.Only? ensures r.project == scope.project {
      assert where(r);
    }
  }

  // ----- the projects that a scan finds

  ghost function LiveProjects(db: Snapshot, now: int, rows: seq<Reservation>): set<int> {
    set r | r in rows && db.Live(now, r) :: r.project
  }

  /** The projects that visited rows add: those of the unreleased ones. */
  ghost function Unreleased(db: Snapshot, rows: seq<Reservation>): set<int> {
    if rows == [] then {}
    else Unreleased(db, rows[..|rows| - 1]) +
         if db.InLedger(rows[|rows| - 1].id) then {} else {rows[|rows| - 1].project}
  }

  lemma NothingUnreleased(db: Snapshot)
    ensures Unreleased(db, []) == {}
  {
  }

  lemma UnreleasedHas(db: Snapshot, rows: seq<Reservation>, project: int)
    ensures project in Unreleased(db, rows) <==> exists r :: r in rows && !db.InLedger(r.id) && r.project == project
  {
    if rows != [] {
      var last := rows[|rows| - 1];
      UnreleasedHas(db, rows[..|rows| - 1], project);
      assert forall r :: r in rows <==> r in rows[..|rows| - 1] || r == last by {
        assert rows == rows[..|rows| - 1] + [last];
      }
    }
  }

  lemma UnreleasedMore(db: Snapshot, before: seq<Reservation>, rows: seq<Reservation>)
    ensures Unreleased(db, before + rows) == Unreleased(db, before) + Unreleased(db, rows)
  {
    if rows == [] {
      assert before + rows == before;
    } else {
      UnreleasedMore(db, before, rows[..|rows| - 1]);
      assert (before + rows)[..|before + rows| - 1] == before + rows[..|rows| - 1];
    }
  }

  ghost predicate AllKnown(rows: seq<Reservation>, projects: set<int>) {
    forall r :: r in rows ==> r.project in projects
  }

  function Ids(rows: seq<Reservation>): (ids: seq<Int64>)
    ensures |ids| == |rows|
    ensures forall r :: r in rows ==> r.id in ids
  {
    if rows == [] then [] else [rows[0].id] + Ids(rows[1..])
  }

  /** Visiting any part of a scan adds live projects only. */
  lemma {:induction false} VisitedAreLive(db: Snapshot, scope: Scope, now: int, seen: seq<Reservation>)
    requires seen <= ScanOf(db, scope, now)
    ensures Unreleased(db, seen) <= LiveProjects(db, now, db.reservations)
    ensures forall known :: AllKnown(db.reservations, known) ==>
              AllKnown(seen, known) && Unreleased(db, seen) <= known
  {
    hide Scan;
    forall p | p in Unreleased(db, seen) ensures p in LiveProjects(db, now, db.reservations) {
      UnreleasedHas(db, seen, p);
      var r :| r in seen && !db.InLedger(r.id) && r.project == p;
      var i :| 0 <= i < |seen| && seen[i] == r;
      assert ScanOf(db, scope, now)[i] == r;
      assert Unexpired(Matching(db, scope), now)(r) && Matching(db, scope)(r);
      assert db.Live(now, r);
    }
    forall known | AllKnown(db.reservations, known) ensures AllKnown(seen, known) {
      forall r | r in seen ensures r in db.reservations {
        var i :| 0 <= i < |seen| && seen[i] == r;
        assert ScanOf(db, scope, now)[i] == r;
      }
    }
  }

  /** A completed scan misses no live project of its scope. */
  lemma {:induction false} ScanFindsLive(db: Snapshot, scope: Scope, now: int)
    ensures forall r :: r in db.reservations && db.Live(now, r) && (scope.Everything? || r.project == scope.project) ==>
              r.project in Unreleased(db, ScanOf(db, scope, now))
  {
    forall r | r in db.reservations && db.Live(now, r) && (scope.Everything? || r.project == scope.project)
      ensures r.project in Unreleased(db, ScanOf(db, scope, now))
    {
      assert Matching(db, scope)(r) && Unexpired(Matching(db, scope), now)(r);
      assert r in ScanOf(db, scope, now);
      UnreleasedHas(db, ScanOf(db, scope, now), r.project);
    }
  }

  lemma {:induction false} FullScanIsOracle(db: Snapshot, now: int)
    ensures Unreleased(db, ScanOf(db, Everything, now)) == LiveProjects(db, now, db.reservations)
  {
    VisitedAreLive(db, Everything, now, ScanOf(db, Everything, now));
    ScanFindsLive(db, Everything, now);
  }

  // ----- counts per project

  ghost function LiveCount(db: Snapshot, now: int, project: int): Reservation -> int {
    (r: Reservation) => if r.project == project && db.Live(now, r) then 1 else 0
  }

  ghost function UnreleasedCount(db: Snapshot, project: int): Reservation -> int {
    (r: Reservation) => if r.project == project && !db.InLedger(r.id) then 1 else 0
  }

  lemma {:induction false} ScanCountsLive(db: Snapshot, now: int, p: int)
    ensures Sum(ScanOf(db, Everything, now), UnreleasedCount(db, p)) == Sum(db.reservations, LiveCount(db, now, p))
  {
    hide Scan, Sum;
    var wanted := Unexpired(Matching(db, Everything), now);
    var scan := ScanOf(db, Everything, now);
    forall r | r in scan ensures UnreleasedCount(db, p)(r) == LiveCount(db, now, p)(r) {
      assert wanted(r) && Matching(db, Everything)(r);
    }
    SumAgree(scan, UnreleasedCount(db, p), LiveCount(db, now, p));
    forall r | r in db.reservations && !wanted(r) ensures LiveCount(db, now, p)(r) == 0 {
      assert !Matching(db, Everything)(r) || r.expires <= now;
    }
    SumScan(db.reservations, wanted, ExpiryKey, LiveCount(db, now, p));
  }

  ghost function HeldIn(db: Snapshot, now: int, project: int): set<Reservation> {
    set r | r in db.reservations && r.project == project && StillHeld(db, now, r)
  }

  ghost predicate IsHeld(db: Snapshot, now: int, project: int) {
    exists r :: r in db.reservations && r.project == project && StillHeld(db, now, r)
  }

  /** The live projects are those with a reservation that is still held. */
  lemma {:induction false} LiveProjectsHold(db: Snapshot, now: int, project: int)
    ensures project in LiveProjects(db, now, db.reservations) <==> IsHeld(db, now, project)
  {
    forall r | r in db.reservations ensures db.Live(now, r) <==> StillHeld(db, now, r) {
      LiveIsHeld(db, now, r);
    }
  }

  /** The sum over live reservations is the number of those still held. */
  lemma {:induction false} LiveCountIsHeld(db: Snapshot, now: int, project: int)
    requires db.Valid()
    ensures Sum(db.reservations, LiveCount(db, now, project)) == |HeldIn(db, now, project)|
  {
    forall r | r in db.reservations
      ensures LiveCount(db, now, project)(r) == if r in HeldIn(db, now, project) then 1 else 0
    {
      LiveIsHeld(db, now, r);
    }
    SumIsCount(db.reservations, ReservationId, LiveCount(db, now, project), HeldIn(db, now, project));
  }
}
