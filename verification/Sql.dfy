/** Single-table SELECT over an immutable snapshot.

    A stored table is a sequence of rows in storage order. `Scan` is
    SELECT ... WHERE ... ORDER BY, `Select` is the same with a LIMIT, and
    `IsPage` says what a reader may conclude from one limited answer. Sums over
    rows stand for COUNT(*) and SUM(...).
 */
module Sql {
  import Order

  datatype Option<+T> = None | Some(value: T)

  /** An ORDER BY key of one or two integer columns. */
  datatype Key = Key(major: int, minor: int)

  predicate Precedes(a: Key, b: Key) {
    a.major < b.major || (a.major == b.major && a.minor < b.minor)
  }

  /** No two stored rows share an ordering key (PRIMARY KEY or UNIQUE). */
  ghost predicate Keyed<T(!new)>(table: seq<T>, key: T -> Key) {
    forall i, j :: 0 <= i < j < |table| ==> key(table[i]) != key(table[j])
  }

  ghost predicate Ordered<T(!new)>(rows: seq<T>, key: T -> Key) {
    forall i, j :: 0 <= i < j < |rows| ==> Precedes(key(rows[i]), key(rows[j]))
  }

  function Filter<T(!new)>(rows: seq<T>, keep: T -> bool): (kept: seq<T>)
    ensures |kept| <= |rows|
    ensures forall r :: r in kept <==> r in rows && keep(r)
  {
    if rows == [] then []
    else
      var rest := Filter(rows[1..], keep);
      if keep(rows[0]) then [rows[0]] + rest else rest
  }

  function ByKey<T>(key: T -> Key): (T, T) -> bool {
    (a: T, b: T) => Precedes(key(a), key(b))
  }

  /** The rows that match, in the order of their keys. */
  function Scan<T(!new)>(table: seq<T>, keep: T -> bool, key: T -> Key): (rows: seq<T>)
    ensures forall r :: r in rows <==> r in table && keep(r)
    ensures |rows| <= |table|
  {
    Order.SortMembers(Filter(table, keep), ByKey(key));
    Order.Sort(Filter(table, keep), ByKey(key))
  }

  /** The same, cut off at the limit. */
  function Select<T(!new)>(table: seq<T>, keep: T -> bool, key: T -> Key, limit: nat): (page: seq<T>)
  {
    var rows := Scan(table, keep, key);
    if |rows| <= limit then rows else rows[..limit]
  }

  /** All that a limited answer tells about the table: it holds matching rows in
      key order, and a matching row it lacks lies beyond a full page. */
  ghost predicate IsPage<T(!new)>(page: seq<T>, table: seq<T>, keep: T -> bool, key: T -> Key, limit: nat) {
    && |page| <= limit
    && Ordered(page, key)
    && (forall r :: r in page ==> r in table && keep(r))
    && (forall r :: r in table && keep(r) && r !in page ==>
          |page| == limit && forall s :: s in page ==> Precedes(key(s), key(r)))
  }

  lemma FilterKeyed<T(!new)>(rows: seq<T>, keep: T -> bool, key: T -> Key)
    requires Keyed(rows, key)
    ensures Keyed(Filter(rows, keep), key)
  {
    if rows != [] {
      FilterKeyed(rows[1..], keep, key);
      var rest := Filter(rows[1..], keep);
      forall i | 0 <= i < |rest| ensures key(rows[0]) != key(rest[i]) {
        assert rest[i] in rows[1..];
        var j :| 0 <= j < |rows[1..]| && rows[1..][j] == rest[i];
        assert key(rows[0]) != key(rows[j + 1]);
      }
    }
  }

  lemma ScanOrdered<T(!new)>(table: seq<T>, keep: T -> bool, key: T -> Key)
    requires Keyed(table, key)
    ensures Ordered(Scan(table, keep, key), key)
  {
    FilterKeyed(table, keep, key);
    Order.SortIncreasing(Filter(table, keep), ByKey(key));
  }

  /** A limited SELECT gives exactly the evidence `IsPage` describes. */
  lemma {:induction false} SelectIsPage<T(!new)>(table: seq<T>, keep: T -> bool, key: T -> Key, limit: nat)
    requires Keyed(table, key)
    ensures IsPage(Select(table, keep, key, limit), table, keep, key, limit)
  {
    ScanOrdered(table, keep, key);
    var rows := Scan(table, keep, key);
    var page := Select(table, keep, key, limit);
    forall r | r in table && keep(r) && r !in page
      ensures |page| == limit && forall s :: s in page ==> Precedes(key(s), key(r))
    {
      assert r in rows;
      var j :| 0 <= j < |rows| && rows[j] == r;
      assert |rows| > limit;
      assert limit <= j;
      forall s | s in page ensures Precedes(key(s), key(r)) {
        var i :| 0 <= i < |page| && page[i] == s;
        assert rows[i] == s;
      }
    }
  }

  /** Limited to one row, it gives the least match, or nothing when there is none. */
  lemma {:induction false} FirstRow<T(!new)>(table: seq<T>, keep: T -> bool, key: T -> Key)
    requires Keyed(table, key)
    ensures var rows := Select(table, keep, key, 1);
            && |rows| <= 1
            && (rows != [] ==> rows[0] in table && keep(rows[0]))
            && forall r :: r in table && keep(r) ==> rows != [] && !Precedes(key(r), key(rows[0]))
  {
    hide Keyed, Select, Ordered;
    SelectIsPage(table, keep, key, 1);
    var rows := Select(table, keep, key, 1);
    if rows != [] {
      assert rows[0] in rows && rows == [rows[0]];
    }
  }

  /** Ordered rows that are closed downwards among the matching ones are the
      beginning of the whole scan, in the scan's order. */
  lemma {:induction false} ClosedIsPrefix<T(!new)>(seen: seq<T>, table: seq<T>, keep: T -> bool, key: T -> Key)
    requires Keyed(table, key)
    requires Ordered(seen, key)
    requires forall r :: r in seen ==> r in table && keep(r)
    requires forall r, s :: r in seen && s in table && keep(s) && Precedes(key(s), key(r)) ==> s in seen
    ensures seen <= Scan(table, keep, key)
    ensures (forall r :: r in table && keep(r) ==> r in seen) ==> seen == Scan(table, keep, key)
  {
    ScanOrdered(table, keep, key);
    var rows := Scan(table, keep, key);
    OrderedClosedPrefix(seen, rows, key);
    if forall r :: r in table && keep(r) ==> r in seen {
      if |seen| < |rows| {
        OrderedDistinct(rows, |seen|, key);
      }
    }
  }

  lemma OrderedDistinct<T(!new)>(rows: seq<T>, k: nat, key: T -> Key)
    requires Ordered(rows, key) && k < |rows|
    ensures rows[k] !in rows[..k]
  {
  }

  lemma OrderedFirst<T(!new)>(rows: seq<T>, row: T, key: T -> Key)
    requires Ordered(rows, key) && row in rows
    ensures !Precedes(key(row), key(rows[0]))
  {
    var i :| 0 <= i < |rows| && rows[i] == row;
    assert i > 0 ==> Precedes(key(rows[0]), key(rows[i]));
  }

  lemma OrderedClosedPrefix<T(!new)>(seen: seq<T>, rows: seq<T>, key: T -> Key)
    requires Ordered(seen, key) && Ordered(rows, key)
    requires forall r :: r in seen ==> r in rows
    requires forall r, s :: r in seen && s in rows && Precedes(key(s), key(r)) ==> s in seen
    ensures seen <= rows
  {
    if seen != [] {
      assert seen[0] in rows;
      var i :| 0 <= i < |rows| && rows[i] == seen[0];
      if rows[0] in seen {
        OrderedFirst(seen, rows[0], key);
      }
      assert i == 0;
      forall r | r in seen[1..] ensures r in rows[1..] {
        var k :| 0 <= k < |seen[1..]| && seen[1..][k] == r;
        assert Precedes(key(seen[0]), key(seen[k + 1]));
        var m :| 0 <= m < |rows| && rows[m] == r;
        assert m > 0;
        assert rows[1..][m - 1] == r;
      }
      forall r, s | r in seen[1..] && s in rows[1..] && Precedes(key(s), key(r)) ensures s in seen[1..] {
        assert r in seen && s in rows;
        var k :| 0 <= k < |seen| && seen[k] == s;
        var m :| 0 <= m < |rows[1..]| && rows[1..][m] == s;
        assert Precedes(key(rows[0]), key(rows[m + 1]));
        assert k > 0;
        assert seen[1..][k - 1] == s;
      }
      OrderedClosedPrefix(seen[1..], rows[1..], key);
      assert seen == [seen[0]] + seen[1..] && rows == [rows[0]] + rows[1..];
    }
  }

  /** The rows with one of the given ids, up to the limit; the key is unique. */
  function Lookup<T(!new)>(table: seq<T>, key: T -> Key, ids: seq<int>, limit: nat): (found: seq<T>)
  {
    var matching := Filter(table, (row: T) => key(row).major in ids);
    if |matching| <= limit then matching else matching[..limit]
  }

  ghost predicate SingleColumn<T(!new)>(table: seq<T>, key: T -> Key) {
    forall r :: r in table ==> key(r).minor == 0
  }

  lemma KeyedWithin<T(!new)>(found: seq<T>, key: T -> Key, ids: seq<int>)
    requires Keyed(found, key) && SingleColumn(found, key)
    requires forall row :: row in found ==> key(row).major in ids
    ensures |found| <= |ids|
  {
    if found != [] {
      var last := found[|found| - 1];
      var rest := found[..|found| - 1];
      assert last in found;
      var i :| 0 <= i < |ids| && ids[i] == key(last).major;
      var others := ids[..i] + ids[i + 1..];
      forall row | row in rest ensures key(row).major in others && row in found {
        var k :| 0 <= k < |rest| && rest[k] == row;
        assert found[k] == row && key(found[k]) != key(found[|found| - 1]);
        var j :| 0 <= j < |ids| && ids[j] == key(row).major;
        assert if j < i then others[j] == ids[j] else others[j - 1] == ids[j];
      }
      KeyedWithin(rest, key, others);
    }
  }

  /** The LIMIT of a key lookup never hides a match, because the key is unique
      and at most `limit` keys are asked for. */
  lemma {:induction false} LookupIsExact<T(!new)>(table: seq<T>, key: T -> Key, ids: seq<int>, limit: nat)
    requires Keyed(table, key) && SingleColumn(table, key) && |ids| <= limit
    ensures |Lookup(table, key, ids, limit)| <= |ids|
    ensures forall row :: row in Lookup(table, key, ids, limit) <==> row in table && key(row).major in ids
    ensures Keyed(Lookup(table, key, ids, limit), key)
  {
    FilterKeyed(table, (row: T) => key(row).major in ids, key);
    KeyedWithin(Filter(table, (row: T) => key(row).major in ids), key, ids);
  }

  /** A continued query, whose filter lets exactly the rows from position `k` of
      the complete scan pass, answers with the next rows of that scan. */
  lemma {:induction false} ResumedPage<T(!new)>(table: seq<T>, keep: T -> bool, resumed: T -> bool, key: T -> Key,
                                         k: nat, limit: nat)
    requires Keyed(table, key)
    requires k <= |Scan(table, keep, key)|
    requires forall i :: 0 <= i < |Scan(table, keep, key)| ==> (resumed(Scan(table, keep, key)[i]) <==> k <= i)
    requires forall r :: r in table && resumed(r) ==> keep(r)
    ensures var rows := Scan(table, keep, key);
            Select(table, resumed, key, limit) == rows[k..if k + limit <= |rows| then k + limit else |rows|]
  {
    hide Scan, Keyed;
    var rows := Scan(table, keep, key);
    ScanOrdered(table, keep, key);
    var rest := rows[k..];
    assert Ordered(rest, key);
    forall r | r in table && resumed(r) ensures r in rest {
      assert r in rows;
      var i :| 0 <= i < |rows| && rows[i] == r;
      assert rest[i - k] == r;
    }
    forall r | r in rest ensures r in table && resumed(r) {
      var i :| 0 <= i < |rest| && rest[i] == r;
      assert rows[i + k] == r && r in rows;
    }
    ClosedIsPrefix(rest, table, resumed, key);
  }

  /** SUM(weight) over rows. */
  function Sum<T(!new)>(rows: seq<T>, weight: T -> int): int {
    if rows == [] then 0 else Sum(rows[..|rows| - 1], weight) + weight(rows[|rows| - 1])
  }

  lemma SumSingle<T(!new)>(x: T, weight: T -> int)
    ensures Sum([x], weight) == weight(x)
  {
    assert Sum([x], weight) == Sum([x][..0], weight) + weight(x);
  }

  lemma SumNext<T(!new)>(rows: seq<T>, i: nat, weight: T -> int)
    requires i < |rows|
    ensures Sum(rows[..i + 1], weight) == Sum(rows[..i], weight) + weight(rows[i])
  {
    assert rows[..i + 1][..i] == rows[..i];
  }

  lemma SumAppend<T(!new)>(rows: seq<T>, more: seq<T>, weight: T -> int)
    ensures Sum(rows + more, weight) == Sum(rows, weight) + Sum(more, weight)
  {
    if more == [] {
      assert rows + more == rows;
    } else {
      var last := |more| - 1;
      assert (rows + more)[..|rows + more| - 1] == rows + more[..last];
      SumAppend(rows, more[..last], weight);
    }
  }

  lemma {:induction false} SumRemove<T(!new)>(rows: seq<T>, i: nat, weight: T -> int)
    requires i < |rows|
    ensures var rest := rows[..i] + rows[i + 1..];
            Sum(rows, weight) == Sum(rest, weight) + weight(rows[i])
              && multiset(rest) == multiset(rows) - multiset{rows[i]}
  {
    assert rows == rows[..i] + [rows[i]] + rows[i + 1..];
    SumAppend(rows[..i], rows[i + 1..], weight);
    SumAppend(rows[..i], [rows[i]], weight);
    SumAppend(rows[..i] + [rows[i]], rows[i + 1..], weight);
    SumSingle(rows[i], weight);
  }

  /** A sum depends on the rows, not on their order. */
  lemma {:induction false} SumOfMultiset<T(!new)>(a: seq<T>, b: seq<T>, weight: T -> int)
    requires multiset(a) == multiset(b)
    ensures Sum(a, weight) == Sum(b, weight)
    decreases |a|
  {
    hide Sum;
    if a == [] {
      assert |multiset(b)| == |multiset(a)|;
      assert b == a;
    } else {
      assert a[0] in multiset(b);
      var i :| 0 <= i < |b| && b[i] == a[0];
      SumRemove(a, 0, weight);
      SumRemove(b, i, weight);
      SumOfMultiset(a[..0] + a[1..], b[..i] + b[i + 1..], weight);
    }
  }

  lemma SumAgree<T(!new)>(rows: seq<T>, f: T -> int, g: T -> int)
    requires forall r :: r in rows ==> f(r) == g(r)
    ensures Sum(rows, f) == Sum(rows, g)
  {
    if rows != [] {
      assert rows[|rows| - 1] in rows;
      forall r | r in rows[..|rows| - 1] ensures f(r) == g(r) { assert r in rows; }
      SumAgree(rows[..|rows| - 1], f, g);
    }
  }

  lemma SumSplit<T(!new)>(rows: seq<T>, whole: T -> int, f: T -> int, g: T -> int)
    requires forall r :: r in rows ==> whole(r) == f(r) + g(r)
    ensures Sum(rows, whole) == Sum(rows, f) + Sum(rows, g)
  {
    if rows != [] {
      assert rows[|rows| - 1] in rows;
      forall r | r in rows[..|rows| - 1] ensures whole(r) == f(r) + g(r) { assert r in rows; }
      SumSplit(rows[..|rows| - 1], whole, f, g);
    }
  }

  lemma SumZero<T(!new)>(rows: seq<T>, f: T -> int)
    requires forall r :: r in rows ==> f(r) == 0
    ensures Sum(rows, f) == 0
  {
    if rows != [] {
      assert rows[|rows| - 1] in rows;
      forall r | r in rows[..|rows| - 1] ensures f(r) == 0 { assert r in rows; }
      SumZero(rows[..|rows| - 1], f);
    }
  }

  lemma SumCons<T(!new)>(row: T, rows: seq<T>, weight: T -> int)
    ensures Sum([row] + rows, weight) == weight(row) + Sum(rows, weight)
  {
    SumAppend([row], rows, weight);
    SumSingle(row, weight);
  }

  lemma {:induction false} SumFilter<T(!new)>(rows: seq<T>, keep: T -> bool, weight: T -> int)
    requires forall r :: r in rows && !keep(r) ==> weight(r) == 0
    ensures Sum(Filter(rows, keep), weight) == Sum(rows, weight)
  {
    if rows != [] {
      forall r | r in rows[1..] && !keep(r) ensures weight(r) == 0 { assert r in rows; }
      SumFilter(rows[1..], keep, weight);
      assert rows == [rows[0]] + rows[1..];
      SumCons(rows[0], rows[1..], weight);
      SumCons(rows[0], Filter(rows[1..], keep), weight);
      assert rows[0] in rows;
    }
  }

  lemma SumSort<T(!new)>(s: seq<T>, before: (T, T) -> bool, weight: T -> int)
    ensures Sum(Order.Sort(s, before), weight) == Sum(s, weight)
  {
    SumOfMultiset(Order.Sort(s, before), s, weight);
  }

  /** Reading only the matching rows, in any key order, loses nothing of a sum
      to which the other rows contribute zero. */
  lemma {:induction false} SumScan<T(!new)>(table: seq<T>, keep: T -> bool, key: T -> Key, weight: T -> int)
    requires forall r :: r in table && !keep(r) ==> weight(r) == 0
    ensures Sum(Scan(table, keep, key), weight) == Sum(table, weight)
  {
    SumSort(Filter(table, keep), ByKey(key), weight);
    SumFilter(table, keep, weight);
  }

  /** A sum of ones and zeros over different rows is the number of rows it marks. */
  lemma {:induction false} SumIsCount<T(!new)>(rows: seq<T>, key: T -> Key, weight: T -> int, marked: set<T>)
    requires Keyed(rows, key)
    requires forall r :: r in rows ==> weight(r) == if r in marked then 1 else 0
    requires forall r :: r in marked ==> r in rows
    ensures Sum(rows, weight) == |marked|
  {
    if rows == [] {
      assert marked == {};
    } else {
      var rest, last := rows[..|rows| - 1], rows[|rows| - 1];
      LastIsNew(rows, key);
      hide Keyed;
      SumIsCount(rest, key, weight, marked - {last});
      assert last in rows;
      if last in marked {
        assert marked == (marked - {last}) + {last};
      } else {
        assert marked == marked - {last};
      }
    }
  }

  lemma {:induction false} LastIsNew<T(!new)>(rows: seq<T>, key: T -> Key)
    requires Keyed(rows, key) && rows != []
    ensures var rest, last := rows[..|rows| - 1], rows[|rows| - 1];
            && last !in rest && Keyed(rest, key)
            && (forall r :: r in rest ==> r in rows) && (forall r :: r in rows ==> r in rest || r == last)
  {
    var rest, last := rows[..|rows| - 1], rows[|rows| - 1];
    forall i | 0 <= i < |rest| ensures rest[i] != last && rest[i] in rows {
      assert key(rows[i]) != key(rows[|rows| - 1]);
    }
    assert rows == rest + [last];
  }
}
