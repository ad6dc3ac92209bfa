/** Cursor arithmetic of the paged readers, and the loop invariants that say how
    much of a table has been read.

    The expiry cursor has two modes. Without a last id it asks for every later
    expiry; after a full page it finishes the page's last expiry by id first.
 */
module Paging {
  import opened Sql
  import opened Schema
  import Numbers

  datatype Cursor = Cursor(expiry: int, lastId: Option<int>)

  function ExpiryKey(r: Reservation): Key { Key(r.expires, r.id) }

  /** The WHERE clause of the next reservation page. */
  function Continuation(keep: Reservation -> bool, c: Cursor): Reservation -> bool {
    (r: Reservation) => keep(r) && Beyond(c, r)
  }

  predicate Beyond(c: Cursor, r: Reservation) {
    if c.lastId.None? then r.expires > c.expiry else r.expires == c.expiry && r.id > c.lastId.value
  }

  predicate Passed(c: Cursor, r: Reservation) {
    r.expires < c.expiry || (r.expires == c.expiry && (c.lastId.None? || r.id <= c.lastId.value))
  }

  /** The cursor after one answer, or None when the scan is complete. */
  function Advance(c: Cursor, rows: seq<Reservation>, page: nat): Option<Cursor>
  {
    if |rows| < page || rows == [] then
      if c.lastId.None? then None else Some(Cursor(c.expiry, None))
    else
      var last := rows[|rows| - 1];
      Some(Cursor(last.expires, Some(last.id)))
  }

  /** What the scan wants: the candidates that expire after `now`. */
  function Unexpired(keep: Reservation -> bool, now: int): Reservation -> bool {
    (r: Reservation) => keep(r) && r.expires > now
  }

  /** `seen` is every wanted row that the cursor has passed, in cursor order. */
  ghost predicate ReadTo(c: Cursor, seen: seq<Reservation>, table: seq<Reservation>, keep: Reservation -> bool,
                         now: int) {
    && c.expiry >= now
    && (c.lastId.Some? ==> c.expiry > now)
    && Ordered(seen, ExpiryKey)
    && forall r :: r in seen <==> r in table && keep(r) && r.expires > now && Passed(c, r)
  }

  ghost predicate ReadAll(seen: seq<Reservation>, table: seq<Reservation>, keep: Reservation -> bool, now: int) {
    seen == Scan(table, Unexpired(keep, now), ExpiryKey)
  }

  lemma ExpiryKeyed(table: seq<Reservation>)
    requires Keyed(table, ReservationId)
    ensures Keyed(table, ExpiryKey)
  {
    forall i, j | 0 <= i < j < |table| ensures ExpiryKey(table[i]) != ExpiryKey(table[j]) {
      assert ReservationId(table[i]) != ReservationId(table[j]);
    }
  }

  lemma {:induction false} OrderedConcat<T(!new)>(seen: seq<T>, rows: seq<T>, key: T -> Key)
    requires Ordered(seen, key) && Ordered(rows, key)
    requires forall r, s :: r in seen && s in rows ==> Precedes(key(r), key(s))
    ensures Ordered(seen + rows, key)
  {
    forall i, j | 0 <= i < j < |seen + rows|
      ensures Precedes(key((seen + rows)[i]), key((seen + rows)[j]))
    {
      if i < |seen| <= j {
        assert seen[i] in seen && rows[j - |seen|] in rows;
      }
    }
  }

  /** The last row of a page is the largest. */
  lemma {:induction false} LastIsLargest<T(!new)>(rows: seq<T>, row: T, key: T -> Key)
    requires Ordered(rows, key) && row in rows
    ensures key(row) == key(rows[|rows| - 1]) || Precedes(key(row), key(rows[|rows| - 1]))
  {
    var i :| 0 <= i < |rows| && rows[i] == row;
    assert i < |rows| - 1 ==> Precedes(key(rows[i]), key(rows[|rows| - 1]));
  }

  /** One answer moves the cursor over exactly its rows: nothing is skipped and
      nothing repeated, even when many rows share one expiry. */
  lemma {:induction false} AdvanceReads(c: Cursor, seen: seq<Reservation>, rows: seq<Reservation>,
                     table: seq<Reservation>, keep: Reservation -> bool, now: int, page: nat)
    requires page >= 1
    requires Keyed(table, ReservationId)
    requires ReadTo(c, seen, table, keep, now)
    requires IsPage(rows, table, Continuation(keep, c), ExpiryKey, page)
    ensures match Advance(c, rows, page)
            case None => ReadAll(seen + rows, table, keep, now)
            case Some(next) => ReadTo(next, seen + rows, table, keep, now)
  {
    ExpiryKeyed(table);
    forall r, s | r in seen && s in rows ensures Precedes(ExpiryKey(r), ExpiryKey(s)) {
      assert Continuation(keep, c)(s);
    }
    OrderedConcat(seen, rows, ExpiryKey);
    var all := seen + rows;
    forall r | r in rows ensures keep(r) && Beyond(c, r) {
      assert Continuation(keep, c)(r);
    }
    match Advance(c, rows, page)
    case None =>
      forall r | r in table && keep(r) && r.expires > now ensures r in all {
        assert Passed(c, r) || Continuation(keep, c)(r);
      }
      assert forall r :: r in all ==> r in table && Unexpired(keep, now)(r);
      ClosedIsPrefix(all, table, Unexpired(keep, now), ExpiryKey);
    case Some(next) =>
      forall r | r in rows ensures Passed(next, r) && r.expires > now {
        LastIsLargest(rows, r, ExpiryKey);
      }
      if rows != [] { assert rows[|rows| - 1] in rows; }
      forall r | r in table && keep(r) && r.expires > now && Passed(next, r) ensures r in all {
        assert Continuation(keep, c)(r) == Beyond(c, r);
      }
  }

  /** A cursor position always stands for a beginning of the complete scan. */
  lemma {:induction false} ReadToPrefix(c: Cursor, seen: seq<Reservation>, table: seq<Reservation>,
                                        keep: Reservation -> bool, now: int)
    requires Keyed(table, ReservationId)
    requires ReadTo(c, seen, table, keep, now)
    ensures seen <= Scan(table, Unexpired(keep, now), ExpiryKey)
  {
    ExpiryKeyed(table);
    ClosedIsPrefix(seen, table, Unexpired(keep, now), ExpiryKey);
  }

  /** Keyset paging on one unique integer column: WHERE keep AND key > after. */
  function After<T>(keep: T -> bool, key: T -> Key, after: Option<int>): T -> bool {
    (r: T) => keep(r) && (after.None? || key(r).major > after.value)
  }

  /** The cursor stands behind the first `k` rows of the complete scan. */
  ghost predicate Behind<T(!new)>(after: Option<int>, k: nat, table: seq<T>, keep: T -> bool, key: T -> Key) {
    var rows := Scan(table, keep, key);
    k <= |rows| && after == if k == 0 then None else Some(key(rows[k - 1]).major)
  }

  lemma StartsBehind<T(!new)>(table: seq<T>, keep: T -> bool, key: T -> Key)
    ensures Behind(None, 0, table, keep, key)
  {
  }

  /** The next page is the next rows of the complete scan, a full page unless
      the scan ends, and the cursor may move behind them. */
  lemma {:induction false} NextPage<T(!new)>(after: Option<int>, k: nat, table: seq<T>, keep: T -> bool, key: T -> Key,
                                      page: nat)
    requires Keyed(table, key) && SingleColumn(table, key)
    requires Behind(after, k, table, keep, key)
    ensures var all := Scan(table, keep, key);
            var rows := Select(table, After(keep, key, after), key, page);
            && |rows| <= page && k + |rows| <= |all|
            && all[..k] + rows == all[..k + |rows|]
            && (|rows| < page ==> k + |rows| == |all| && all[..k + |rows|] == all)
            && (rows != [] ==> Behind(Some(key(rows[|rows| - 1]).major), k + |rows|, table, keep, key))
  {
    hide Scan, Select, Keyed, SingleColumn;
    PageIsNext(after, k, table, keep, key, page);
  }

  lemma {:induction false} PageIsNext<T(!new)>(after: Option<int>, k: nat, table: seq<T>, keep: T -> bool,
                                        key: T -> Key, page: nat)
    requires Keyed(table, key) && SingleColumn(table, key)
    requires Behind(after, k, table, keep, key)
    ensures var rows := Scan(table, keep, key);
            Select(table, After(keep, key, after), key, page)
            == rows[k..if k + page <= |rows| then k + page else |rows|]
  {
    var rows := Scan(table, keep, key);
    ScanOrdered(table, keep, key);
    forall i | 0 <= i < |rows| ensures After(keep, key, after)(rows[i]) <==> k <= i {
      assert rows[i] in rows;
      if k > 0 {
        assert rows[k - 1] in rows;
        assert i < k - 1 ==> Precedes(key(rows[i]), key(rows[k - 1]));
        assert k - 1 < i ==> Precedes(key(rows[k - 1]), key(rows[i]));
      }
    }
    ResumedPage(table, keep, After(keep, key, after), key, k, page);
  }

  /** n pages hold n * page rows, kept as a sum so that the loop stays linear. */
  ghost function RowsOf(n: nat, page: nat): nat {
    if n == 0 then 0 else RowsOf(n - 1, page) + page
  }

  lemma RowsOfIsProduct(n: nat, page: nat)
    ensures RowsOf(n, page) == n * page
  {
    if n > 0 {
      RowsOfIsProduct(n - 1, page);
      assert n * page == (n - 1) * page + page;
    }
  }

  lemma OneMorePage(n: nat, page: nat)
    ensures RowsOf(n + 1, page) == RowsOf(n, page) + page
  {
  }

  lemma RowsOfMonotone(m: nat, n: nat, page: nat)
    requires m <= n
    ensures RowsOf(m, page) <= RowsOf(n, page)
    decreases n - m
  {
    if m < n { RowsOfMonotone(m, n - 1, page); }
  }

  lemma QuotientGrows(a: nat, b: nat, page: nat)
    requires a <= b && page >= 1
    ensures a / page <= b / page
  {
    var p, q := a / page, b / page;
    assert a == page * p + a % page && b == page * q + b % page;
    var k := p - q;
    assert page * k == page * p - page * q;
    if k >= 1 {
      Numbers.AtLeastOnce(page, k);
    }
  }

  lemma FullPages(full: nat, rows: nat, page: nat)
    requires page >= 1 && RowsOf(full, page) <= rows
    ensures full <= rows / page
  {
    RowsOfIsProduct(full, page);
    assert rows == page * (rows / page) + rows % page;
    assert (full - rows / page - 1) * page == full * page - (rows / page) * page - page;
  }
}
