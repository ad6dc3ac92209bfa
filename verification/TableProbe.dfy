/** The whole probe in words: from the bytes of a file to the report on one table. */
module TableProbe {
  import opened Sql
  import opened Bytes
  import opened RecordPages
  import opened LayoutWalk
  import opened BTree
  import opened PageFormat

  /** A database file whose table at page `root` is `t`. */
  ghost predicate HoldsTable(bytes: seq<byte>, root: nat, size: nat, usable: nat, t: Stored) {
    && IsDatabase(bytes, size, usable) && t.page == root
    && var image := Image(bytes, size, usable, |bytes| / size);
       image.Valid() && IsTable(image, t)
  }

  /** The rowids of the rows with fewer than thirteen fields, in order. */
  function ShortRowids(rows: seq<Row>): seq<int> {
    if rows == [] then []
    else
      ShortRowids(rows[..|rows| - 1])
      + if |rows[|rows| - 1].serials| < 13 then [rows[|rows| - 1].rowid] else []
  }

  /** The rows with this many fields. */
  ghost function OfWidth(rows: seq<Row>, fields: nat): set<nat> {
    set i: nat | i < |rows| && |rows[i].serials| == fields
  }

  /** In words: all rows, the short ones and the first eight of their rowids, how many
      rows there are of each width, and all the pages they take up. */
  ghost predicate Reports(layout: Layout, t: Stored) {
    var rows, short := Rows(t), ShortRowids(Rows(t));
    && layout.rows == |rows| && layout.short == |short|
    && layout.samples == (if |short| <= 8 then short else short[..8])
    && (forall fields: nat :: (fields in layout.widths <==> OfWidth(rows, fields) != {})
                          && (fields in layout.widths ==> layout.widths[fields] == |OfWidth(rows, fields)|))
    && layout.overflowPages == |ChainPages(rows)|
    && layout.tablePages + layout.overflowPages == |PagesUsed(t)|
  }

  lemma {:induction false} SameShort(rows: seq<Row>)
    ensures ShortOnes(RecordsOf(rows)) == ShortRowids(rows)
  {
    if rows != [] {
      SameShort(rows[..|rows| - 1]);
      var records := RecordsOf(rows);
      assert records[..|records| - 1] == RecordsOf(rows[..|rows| - 1]);
    }
  }

  lemma {:induction false} SameWidth(rows: seq<Row>, fields: nat)
    ensures WithFields(RecordsOf(rows), fields) == |OfWidth(rows, fields)|
  {
    if rows == [] {
      assert OfWidth(rows, fields) == {};
    } else {
      var n := |rows| - 1;
      SameWidth(rows[..n], fields);
      var records := RecordsOf(rows);
      assert records[..n] == RecordsOf(rows[..n]);
      OneMoreRow(rows, n, fields);
      hide OfWidth;
    }
  }

  lemma OneMoreRow(rows: seq<Row>, n: nat, fields: nat)
    requires |rows| == n + 1
    ensures n !in OfWidth(rows[..n], fields)
    ensures OfWidth(rows, fields)
            == OfWidth(rows[..n], fields) + if |rows[n].serials| == fields then {n} else {}
  {
  }

  lemma {:induction false} ChainPagesAppend(a: seq<Row>, b: seq<Row>)
    ensures |ChainPages(a + b)| == |ChainPages(a)| + |ChainPages(b)|
  {
    if b == [] {
      assert a + b == a;
    } else {
      assert (a + b)[..|a + b| - 1] == a + b[..|b| - 1];
      ChainPagesAppend(a, b[..|b| - 1]);
    }
  }

  /** Every page of a table is a tree page or an overflow page of one of its rows. */
  lemma {:induction false} PagesAreOwned(t: Stored)
    ensures PageCount(Shape(t)) + |ChainPages(Rows(t))| == |PagesUsed(t)|
    decreases t, 1
  {
    match t
    case StoredLeaf(_, _, _, _) =>
    case StoredInterior(_, _, _, children) => AllPagesAreOwned(children);
  }

  lemma {:induction false} AllPagesAreOwned(forest: seq<Stored>)
    ensures PageCountAll(Shapes(forest)) + |ChainPages(AllRows(forest))| == |AllPagesUsed(forest)|
    decreases forest, 0
  {
    hide PagesUsed, PageCount, Shape, Rows;
    if forest != [] {
      PagesAreOwned(forest[0]);
      AllPagesAreOwned(forest[1..]);
      ChainPagesAppend(Rows(forest[0]), AllRows(forest[1..]));
      assert Shapes(forest)[1..] == Shapes(forest[1..]);
    }
  }

  lemma {:induction false} CountsReport(t: Stored)
    ensures Reports(CountAll(NO_LAYOUT, RecordsOf(Rows(t))).(tablePages := PageCount(Shape(t))), t)
  {
    hide CountAll, RecordsOf, Rows, PageCount, Shape, ChainPages, PagesUsed, ShortOnes, ShortRowids, WithFields,
         OfWidth, Chains;
    var rows := Rows(t);
    CountsMean(RecordsOf(rows));
    SameShort(rows);
    SameChains(rows);
    PagesAreOwned(t);
    forall fields: nat
      ensures WithFields(RecordsOf(rows), fields) == |OfWidth(rows, fields)|
      ensures |OfWidth(rows, fields)| > 0 <==> OfWidth(rows, fields) != {}
    {
      SameWidth(rows, fields);
    }
  }

  lemma SomeSize(bytes: seq<byte>, size: nat, usable: nat)
    requires IsDatabase(bytes, size, usable)
    ensures size > 0
  {
  }

  /** On any bytes the probe succeeds exactly when they are a database file with such a
      table of as many rows as expected, and then it reports on that table. */
  lemma {:induction false} ProbeFindsTables(bytes: seq<byte>, root: nat, expectedRows: nat)
    ensures ProbeResult(bytes, root, expectedRows).Some? <==>
            exists size, usable, t :: HoldsTable(bytes, root, size, usable, t) && |Rows(t)| == expectedRows
    ensures forall size, usable, t :: HoldsTable(bytes, root, size, usable, t) && |Rows(t)| == expectedRows ==>
              Reports(ProbeResult(bytes, root, expectedRows).value, t)
  {
    hide Walk, OpenImage, IsDatabase, LaidOut, Rows, PagesUsed, NoneTwice, RowidsIncrease, CountAll, RecordsOf,
         PageCount, Shape, Reports, Image.Valid;
    forall size, usable, t | HoldsTable(bytes, root, size, usable, t)
      ensures ProbeResult(bytes, root, expectedRows).Some? <==> |Rows(t)| == expectedRows
      ensures |Rows(t)| == expectedRows ==> Reports(ProbeResult(bytes, root, expectedRows).value, t)
    {
      SomeSize(bytes, size, usable);
      var image := Image(bytes, size, usable, |bytes| / size);
      OpensDatabases(bytes, image);
      StoredTable(image, t);
      CountsReport(t);
    }
    if ProbeResult(bytes, root, expectedRows).Some? {
      var image := OpenImage(bytes).value;
      OpensDatabases(bytes, image);
      WalkAcceptsTables(image, root);
      var t: Stored :| t.page == root && IsTable(image, t);
      assert HoldsTable(bytes, root, image.size, image.usable, t);
    }
  }
}
