/** What the stack walk does on pages that encode a well-formed table b-tree: it
    visits the leaves in order, and refuses only rowids that do not increase.
 */
module BTree {
  import opened Sql
  import opened RecordPages
  import opened LayoutWalk

  datatype Tree = LeafPage(page: nat, records: seq<Record>) | InteriorPage(page: nat, children: seq<Tree>)

  function Roots(forest: seq<Tree>): (pages: seq<nat>)
    ensures |pages| == |forest|
  {
    if forest == [] then [] else [forest[0].page] + Roots(forest[1..])
  }

  /** The pages of the file hold this tree. */
  ghost predicate Encodes(image: Image, t: Tree)
    requires image.Valid()
    decreases t, 1
  {
    InRange(image, t.page) &&
    match t
    case LeafPage(page, records) => ParsePage(image, page) == Some(Leaf(records))
    case InteriorPage(page, children) =>
      ParsePage(image, page) == Some(Interior(Roots(children))) && EncodesAll(image, children)
  }

  ghost predicate EncodesAll(image: Image, forest: seq<Tree>)
    requires image.Valid()
    decreases forest, 0
  {
    forest == [] || (Encodes(image, forest[0]) && EncodesAll(image, forest[1..]))
  }

  /** The overflow pages of the records, in reading order. */
  function Chains(records: seq<Record>): seq<nat> {
    if records == [] then [] else Chains(records[..|records| - 1]) + records[|records| - 1].chain
  }

  /** Table and overflow pages of a tree; in a well-formed one none is shared. */
  function Owned(t: Tree): seq<nat>
    decreases t, 1
  {
    [t.page] + match t
               case LeafPage(_, records) => Chains(records)
               case InteriorPage(_, children) => OwnedAll(children)
  }

  function OwnedAll(forest: seq<Tree>): seq<nat>
    decreases forest, 0
  {
    if forest == [] then [] else Owned(forest[0]) + OwnedAll(forest[1..])
  }

  /** The recursive traversal: the records of the leaves, left to right. */
  function InOrder(t: Tree): seq<Record>
    decreases t, 1
  {
    match t
    case LeafPage(_, records) => records
    case InteriorPage(_, children) => InOrderAll(children)
  }

  function InOrderAll(forest: seq<Tree>): seq<Record>
    decreases forest, 0
  {
    if forest == [] then [] else InOrder(forest[0]) + InOrderAll(forest[1..])
  }

  function PageCount(t: Tree): nat
    decreases t, 1
  {
    1 + match t
        case LeafPage(_, _) => 0
        case InteriorPage(_, children) => PageCountAll(children)
  }

  function PageCountAll(forest: seq<Tree>): (n: nat)
    ensures forest != [] ==> n >= PageCount(forest[0])
    decreases forest, 0
  {
    if forest == [] then 0 else PageCount(forest[0]) + PageCountAll(forest[1..])
  }

  ghost predicate WellFormed(image: Image, t: Tree)
    requires image.Valid()
  {
    Encodes(image, t) && Fresh(Owned(t), {})
  }

  ghost predicate StrictlyIncreasing(records: seq<Record>) {
    forall i, j :: 0 <= i < j < |records| ==> records[i].rowid < records[j].rowid
  }

  function LastRowid(previous: Option<int>, records: seq<Record>): Option<int> {
    if records == [] then previous else Some(records[|records| - 1].rowid)
  }

  function IncreasingFrom(previous: Option<int>, records: seq<Record>): bool {
    records == [] ||
    (IncreasingFrom(previous, records[..|records| - 1])
     && var last := LastRowid(previous, records[..|records| - 1]);
        last.None? || last.value < records[|records| - 1].rowid)
  }

  /** The counts of a record list. */
  function CountAll(layout: Layout, records: seq<Record>): Layout {
    if records == [] then layout
    else CountRecord(CountAll(layout, records[..|records| - 1]), records[|records| - 1])
  }

  // ----- concatenations

  lemma {:induction false} ForestAppend(image: Image, a: seq<Tree>, b: seq<Tree>)
    requires image.Valid()
    requires EncodesAll(image, a) && EncodesAll(image, b)
    ensures EncodesAll(image, a + b)
  {
    hide Encodes;
    if a == [] {
      assert a + b == b;
    } else {
      assert (a + b)[1..] == a[1..] + b;
      ForestAppend(image, a[1..], b);
    }
  }

  lemma {:induction false} RootsAppend(a: seq<Tree>, b: seq<Tree>)
    ensures Roots(a + b) == Roots(a) + Roots(b)
    ensures PageCountAll(a + b) == PageCountAll(a) + PageCountAll(b)
  {
    hide PageCount;
    if a == [] {
      assert a + b == b;
    } else {
      assert (a + b)[1..] == a[1..] + b;
      RootsAppend(a[1..], b);
    }
  }

  lemma {:induction false} OwnedAppend(a: seq<Tree>, b: seq<Tree>)
    ensures OwnedAll(a + b) == OwnedAll(a) + OwnedAll(b)
  {
    hide Owned;
    if a == [] {
      assert a + b == b;
    } else {
      assert (a + b)[1..] == a[1..] + b;
      OwnedAppend(a[1..], b);
    }
  }

  lemma {:induction false} InOrderAppend(a: seq<Tree>, b: seq<Tree>)
    ensures InOrderAll(a + b) == InOrderAll(a) + InOrderAll(b)
  {
    hide InOrder;
    if a == [] {
      assert a + b == b;
    } else {
      assert (a + b)[1..] == a[1..] + b;
      InOrderAppend(a[1..], b);
    }
  }

  lemma IncreasingAppend(previous: Option<int>, a: seq<Record>, b: seq<Record>)
    ensures IncreasingFrom(previous, a + b)
            <==> IncreasingFrom(previous, a) && IncreasingFrom(LastRowid(previous, a), b)
    ensures LastRowid(previous, a + b) == LastRowid(LastRowid(previous, a), b)
  {
    if b == [] {
      assert a + b == a;
    } else {
      assert (a + b)[..|a + b| - 1] == a + b[..|b| - 1];
      IncreasingAppend(previous, a, b[..|b| - 1]);
    }
  }

  lemma CountAppend(layout: Layout, a: seq<Record>, b: seq<Record>)
    ensures CountAll(layout, a + b) == CountAll(CountAll(layout, a), b)
  {
    if b == [] {
      assert a + b == a;
    } else {
      assert (a + b)[..|a + b| - 1] == a + b[..|b| - 1];
      CountAppend(layout, a, b[..|b| - 1]);
    }
  }

  lemma CountPages(layout: Layout, records: seq<Record>, pages: nat)
    ensures CountAll(layout.(tablePages := layout.tablePages + pages), records)
            == CountAll(layout, records).(tablePages := layout.tablePages + pages)
    ensures CountAll(layout, records).tablePages == layout.tablePages
  {
    if records != [] {
      CountPages(layout, records[..|records| - 1], pages);
    }
  }

  // ----- one leaf

  ghost function AfterRecords(st: State, records: seq<Record>): State {
    State(st.visited + Elements(Chains(records)), LastRowid(st.previous, records), CountAll(st.layout, records))
  }

  /** With fresh overflow pages only the rowid order can refuse a record. */
  lemma {:induction false} LeafAccepts(st: State, records: seq<Record>)
    requires Fresh(Chains(records), st.visited)
    ensures AcceptAll(st, records)
            == if IncreasingFrom(st.previous, records) then Some(AfterRecords(st, records)) else None
  {
    if records == [] {
      assert st.visited + Elements([]) == st.visited;
    } else {
      var before := records[..|records| - 1];
      var last := records[|records| - 1];
      FreshAppend(Chains(before), last.chain, st.visited);
      LeafAccepts(st, before);
      assert st.visited + Elements(Chains(before) + last.chain)
             == st.visited + Elements(Chains(before)) + Elements(last.chain);
    }
  }

  // ----- a stack of subtrees

  ghost function AfterForest(st: State, forest: seq<Tree>): State {
    var records := InOrderAll(forest);
    State(st.visited + Elements(OwnedAll(forest)), LastRowid(st.previous, records),
          CountAll(st.layout, records).(tablePages := st.layout.tablePages + PageCountAll(forest)))
  }

  lemma {:induction false} FreshLess(pages: seq<nat>, more: set<nat>, fewer: set<nat>)
    requires Fresh(pages, more) && fewer <= more
    ensures Fresh(pages, fewer)
  {
    if pages != [] {
      FreshLess(pages[..|pages| - 1], more, fewer);
    }
  }

  lemma {:induction false} RootsAreOwned(forest: seq<Tree>, visited: set<nat>)
    requires Fresh(OwnedAll(forest), visited)
    ensures Fresh(Roots(forest), visited)
  {
    hide Fresh, Elements, Owned;
    if forest == [] {
      NothingFresh(visited);
    } else {
      var t := forest[0];
      OwnsRoot(t);
      var inner := Owned(t)[1..];
      FreshAppend(Owned(t), OwnedAll(forest[1..]), visited);
      FreshAppend([t.page], inner, visited);
      RootsAreOwned(forest[1..], visited + Elements(Owned(t)));
      ElementsAppend([t.page], inner);
      FreshLess(Roots(forest[1..]), visited + Elements(Owned(t)), visited + Elements([t.page]));
      FreshAppend([t.page], Roots(forest[1..]), visited);
    }
  }

  lemma OwnsRoot(t: Tree)
    ensures Owned(t) != [] && Owned(t) == [t.page] + Owned(t)[1..]
  {
  }

  lemma NothingFresh(visited: set<nat>)
    ensures Fresh([], visited)
  {
  }

  lemma ElementsAppend(a: seq<nat>, b: seq<nat>)
    ensures Elements(a + b) == Elements(a) + Elements(b)
  {
  }

  lemma RootsInFile(image: Image, forest: seq<Tree>)
    requires image.Valid() && EncodesAll(image, forest)
    ensures Elements(Roots(forest)) <= AllPages(image)
  {
    if forest != [] {
      RootsInFile(image, forest[1..]);
    }
  }

  /** The fan-out check cannot fire: the pages on the stack are distinct. */
  lemma {:induction false} FanOutFits(image: Image, forest: seq<Tree>)
    requires image.Valid() && EncodesAll(image, forest)
    requires Fresh(Roots(forest), {})
    ensures |forest| <= image.count
  {
    RootsInFile(image, forest);
    FreshCount(Roots(forest), {});
    assert {} + Elements(Roots(forest)) == Elements(Roots(forest));
    FewPages(image, Elements(Roots(forest)));
  }

  /** What a walk over a forest must come to: refused for its rowids, or done. */
  ghost function Expected(st: State, forest: seq<Tree>): Option<State> {
    if IncreasingFrom(st.previous, InOrderAll(forest)) then Some(AfterForest(st, forest)) else None
  }

  lemma {:induction false} AfterLeaf(st: State, page: nat, records: seq<Record>, rest: seq<Tree>)
    ensures var after := AfterRecords(EnterPage(st, page), records);
            Expected(st, [LeafPage(page, records)] + rest)
            == if IncreasingFrom(st.previous, records) then Expected(after, rest) else None
  {
    hide IncreasingFrom, CountAll, Elements, Chains, LastRowid;
    var forest := [LeafPage(page, records)] + rest;
    var entered := EnterPage(st, page);
    assert forest[1..] == rest;
    IncreasingAppend(st.previous, records, InOrderAll(rest));
    CountAppend(st.layout, records, InOrderAll(rest));
    CountPages(st.layout, records, 1);
    CountPages(CountAll(st.layout, records), InOrderAll(rest), 1);
    LeafVisits(st.visited, page, records, OwnedAll(rest));
    assert InOrderAll(forest) == records + InOrderAll(rest);
    assert OwnedAll(forest) == [page] + Chains(records) + OwnedAll(rest);
    assert PageCountAll(forest) == 1 + PageCountAll(rest);
  }

  lemma LeafVisits(visited: set<nat>, page: nat, records: seq<Record>, rest: seq<nat>)
    ensures visited + Elements([page] + Chains(records) + rest)
            == visited + {page} + Elements(Chains(records)) + Elements(rest)
  {
  }

  lemma {:induction false} AfterInterior(st: State, page: nat, children: seq<Tree>, rest: seq<Tree>)
    ensures Expected(st, [InteriorPage(page, children)] + rest) == Expected(EnterPage(st, page), children + rest)
  {
    hide IncreasingFrom, CountAll, Elements, LastRowid;
    var forest := [InteriorPage(page, children)] + rest;
    assert forest[1..] == rest;
    InOrderAppend(children, rest);
    OwnedAppend(children, rest);
    RootsAppend(children, rest);
    CountPages(st.layout, InOrderAll(forest), 1);
    InteriorVisits(st.visited, page, OwnedAll(children), OwnedAll(rest));
    assert InOrderAll(forest) == InOrderAll(children + rest);
    assert OwnedAll(forest) == [page] + OwnedAll(children) + OwnedAll(rest);
    assert PageCountAll(forest) == 1 + PageCountAll(children + rest);
  }

  lemma InteriorVisits(visited: set<nat>, page: nat, children: seq<nat>, rest: seq<nat>)
    ensures visited + Elements([page] + children + rest) == visited + {page} + Elements(children + rest)
  {
  }

  lemma {:induction false} HeadFresh(t: Tree, rest: seq<Tree>, visited: set<nat>)
    requires Fresh(OwnedAll([t] + rest), visited)
    ensures t.page !in visited
    ensures Fresh(Owned(t)[1..] + OwnedAll(rest), visited + {t.page})
  {
    hide Fresh, Elements;
    assert ([t] + rest)[1..] == rest;
    OwnsRoot(t);
    assert OwnedAll([t] + rest) == [t.page] + (Owned(t)[1..] + OwnedAll(rest));
    FreshAppend([t.page], Owned(t)[1..] + OwnedAll(rest), visited);
    OneFresh(t.page, visited);
  }

  lemma OneFresh(page: nat, visited: set<nat>)
    ensures Fresh([page], visited) ==> page !in visited
    ensures Elements([page]) == {page}
  {
  }

  /** The stack walk over a forest of well-formed trees. */
  lemma {:induction false} ForestWalk(image: Image, forest: seq<Tree>, st: State)
    requires image.Valid() && EncodesAll(image, forest)
    requires Fresh(OwnedAll(forest), st.visited)
    ensures Walk(image, Roots(forest), st) == Expected(st, forest)
    decreases PageCountAll(forest)
  {
    hide Fresh, Elements, ParsePage, AcceptAll, EnterPage, Chains, Expected, Owned;
    if forest == [] {
      EmptyForest(st);
    } else {
      var t, rest := forest[0], forest[1..];
      var entered := EnterPage(st, t.page);
      assert forest == [t] + rest;
      HeadFresh(t, rest, st.visited);
      EnteredPage(image, st, t.page);
      match t
      case LeafPage(page, records) => {
        OwnedByLeaf(page, records);
        FreshAppend(Chains(records), OwnedAll(rest), entered.visited);
        LeafAccepts(entered, records);
        AfterLeaf(st, page, records, rest);
        if IncreasingFrom(st.previous, records) {
          ForestWalk(image, rest, AfterRecords(entered, records));
        }
      }
      case InteriorPage(page, children) => {
        OwnedByInterior(page, children);
        OwnedAppend(children, rest);
        RootsAppend(children, rest);
        ForestAppend(image, children, rest);
        AfterInterior(st, page, children, rest);
        RootsAreOwned(children + rest, entered.visited);
        FreshLess(Roots(children + rest), entered.visited, {});
        FanOutFits(image, children + rest);
        ForestWalk(image, children + rest, entered);
      }
    }
  }

  lemma EmptyForest(st: State)
    ensures Expected(st, []) == Some(st)
  {
    assert st.visited + Elements([]) == st.visited;
  }

  lemma OwnedByLeaf(page: nat, records: seq<Record>)
    ensures Owned(LeafPage(page, records))[1..] == Chains(records)
  {
  }

  lemma OwnedByInterior(page: nat, children: seq<Tree>)
    ensures Owned(InteriorPage(page, children))[1..] == OwnedAll(children)
  {
  }

  lemma {:induction false} IncreasingIsStrict(records: seq<Record>)
    ensures IncreasingFrom(None, records) <==> StrictlyIncreasing(records)
  {
    if records != [] {
      var before := records[..|records| - 1];
      IncreasingIsStrict(before);
      if IncreasingFrom(None, records) {
        forall i, j | 0 <= i < j < |records| ensures records[i].rowid < records[j].rowid {
          assert i < |before| - 1 ==> before[i].rowid < before[|before| - 1].rowid;
        }
      }
      if StrictlyIncreasing(records) {
        forall i, j | 0 <= i < j < |before| ensures before[i].rowid < before[j].rowid {
          assert before[i] == records[i] && before[j] == records[j];
        }
        assert before != [] ==> records[|before| - 1].rowid < records[|records| - 1].rowid;
      }
    }
  }

  /** On a well-formed b-tree the walk accepts exactly the strictly increasing
      in-order lists, and reports their counts: neither the fan-out check nor the
      cycle check can refuse such a tree. */
  lemma {:induction false} WalkIsInOrder(image: Image, t: Tree)
    requires image.Valid() && WellFormed(image, t)
    ensures Walk(image, [t.page], START).Some? <==> StrictlyIncreasing(InOrder(t))
    ensures Walk(image, [t.page], START).Some? ==>
              Walk(image, [t.page], START).value.layout
              == CountAll(NO_LAYOUT, InOrder(t)).(tablePages := PageCount(t))
  {
    hide Walk, Encodes, Owned, InOrder, IncreasingFrom, StrictlyIncreasing, Fresh, CountAll;
    Single(image, t);
    ForestWalk(image, [t], START);
    IncreasingIsStrict(InOrder(t));
  }

  lemma Single(image: Image, t: Tree)
    requires image.Valid()
    ensures EncodesAll(image, [t]) == Encodes(image, t)
    ensures OwnedAll([t]) == Owned(t) && InOrderAll([t]) == InOrder(t)
    ensures Roots([t]) == [t.page] && PageCountAll([t]) == PageCount(t)
  {
    assert Owned(t) + [] == Owned(t) && InOrder(t) + [] == InOrder(t);
    assert Roots([t]) == [t.page] + Roots([]);
  }

  // ----- the tree behind an accepted walk

  /** Records can only be taken with overflow pages of their own. */
  lemma {:induction false} TakenAreFresh(st: State, records: seq<Record>)
    requires AcceptAll(st, records).Some?
    ensures Fresh(Chains(records), st.visited)
  {
    if records != [] {
      var before := records[..|records| - 1];
      var last := records[|records| - 1];
      TakenAreFresh(st, before);
      LeafAccepts(st, before);
      FreshAppend(Chains(before), last.chain, st.visited);
    }
  }

  lemma {:induction false} RootsSplit(forest: seq<Tree>, n: nat)
    requires n <= |forest|
    ensures Roots(forest[..n]) == Roots(forest)[..n] && Roots(forest[n..]) == Roots(forest)[n..]
  {
    RootsAppend(forest[..n], forest[n..]);
    assert forest[..n] + forest[n..] == forest;
  }

  lemma {:induction false} EncodesSplit(image: Image, forest: seq<Tree>, n: nat)
    requires image.Valid() && EncodesAll(image, forest) && n <= |forest|
    ensures EncodesAll(image, forest[..n]) && EncodesAll(image, forest[n..])
  {
    hide Encodes;
    if n > 0 {
      EncodesSplit(image, forest[1..], n - 1);
      assert forest[..n][1..] == forest[1..][..n - 1];
      assert forest[n..] == forest[1..][n - 1..];
    } else {
      assert forest[0..] == forest;
    }
  }

  lemma {:induction false} LeafOnTop(image: Image, page: nat, records: seq<Record>, rest: seq<Tree>, visited: set<nat>)
    requires image.Valid() && InRange(image, page) && ParsePage(image, page) == Some(Leaf(records))
    requires EncodesAll(image, rest) && page !in visited
    requires Fresh(Chains(records), visited + {page})
    requires Fresh(OwnedAll(rest), visited + {page} + Elements(Chains(records)))
    ensures var forest := [LeafPage(page, records)] + rest;
            && Roots(forest) == [page] + Roots(rest) && EncodesAll(image, forest)
            && Fresh(OwnedAll(forest), visited)
  {
    hide Fresh, Elements, Chains, ParsePage;
    var forest := [LeafPage(page, records)] + rest;
    assert forest[1..] == rest;
    FreshAppend(Chains(records), OwnedAll(rest), visited + {page});
    SingleFresh(page, visited);
    FreshAppend([page], Chains(records) + OwnedAll(rest), visited);
    assert OwnedAll(forest) == [page] + (Chains(records) + OwnedAll(rest));
  }

  lemma {:induction false} InteriorOnTop(image: Image, page: nat, children: seq<Tree>, rest: seq<Tree>,
                                         visited: set<nat>)
    requires image.Valid() && InRange(image, page) && ParsePage(image, page) == Some(Interior(Roots(children)))
    requires EncodesAll(image, children) && EncodesAll(image, rest) && page !in visited
    requires Fresh(OwnedAll(children + rest), visited + {page})
    ensures var forest := [InteriorPage(page, children)] + rest;
            && Roots(forest) == [page] + Roots(rest) && EncodesAll(image, forest)
            && Fresh(OwnedAll(forest), visited)
  {
    hide Fresh, Elements, ParsePage;
    var forest := [InteriorPage(page, children)] + rest;
    assert forest[1..] == rest;
    OwnedAppend(children, rest);
    SingleFresh(page, visited);
    FreshAppend([page], OwnedAll(children + rest), visited);
    assert OwnedAll(forest) == [page] + OwnedAll(children + rest);
  }

  lemma SingleFresh(page: nat, visited: set<nat>)
    ensures page !in visited ==> Fresh([page], visited)
    ensures Elements([page]) == {page}
  {
  }

  /** A walk that succeeds has walked a forest of well-formed trees. */
  lemma {:induction false} WalkedForest(image: Image, todo: seq<nat>, st: State) returns (forest: seq<Tree>)
    requires image.Valid() && Walk(image, todo, st).Some?
    ensures Roots(forest) == todo && EncodesAll(image, forest) && Fresh(OwnedAll(forest), st.visited)
    decreases AllPages(image) - st.visited, |todo|
  {
    hide Fresh, Elements, ParsePage, AcceptAll, EnterPage, Chains, Owned, Encodes, IncreasingFrom, AllPages;
    forest := [];
    if todo == [] {
      NothingFresh(st.visited);
    } else {
      var page := todo[0];
      var entered := EnterPage(st, page);
      EnteredPage(image, st, page);
      match ParsePage(image, page).value
      case Leaf(records) => {
        TakenAreFresh(entered, records);
        LeafAccepts(entered, records);
        AcceptAllGrows(entered, records);
        var rest := WalkedForest(image, todo[1..], AfterRecords(entered, records));
        LeafOnTop(image, page, records, rest, st.visited);
        forest := [LeafPage(page, records)] + rest;
      }
      case Interior(children) => {
        var below := WalkedForest(image, children + todo[1..], entered);
        RootsSplit(below, |children|);
        EncodesSplit(image, below, |children|);
        assert below[..|children|] + below[|children|..] == below;
        InteriorOnTop(image, page, below[..|children|], below[|children|..], st.visited);
        forest := [InteriorPage(page, below[..|children|])] + below[|children|..];
      }
    }
  }

  /** The walk from a page succeeds exactly when a well-formed b-tree with strictly
      increasing rowids hangs on that page: it accepts nothing else. */
  lemma {:induction false} WalkAcceptsTrees(image: Image, root: nat)
    requires image.Valid()
    ensures Walk(image, [root], START).Some?
            <==> exists t: Tree :: t.page == root && WellFormed(image, t) && StrictlyIncreasing(InOrder(t))
  {
    hide Walk, Encodes, Owned, InOrder, StrictlyIncreasing, Fresh;
    if Walk(image, [root], START).Some? {
      var forest := WalkedForest(image, [root], START);
      assert forest == [forest[0]];
      Single(image, forest[0]);
      WalkIsInOrder(image, forest[0]);
    }
    forall t: Tree | t.page == root && WellFormed(image, t) && StrictlyIncreasing(InOrder(t))
      ensures Walk(image, [root], START).Some?
    {
      WalkIsInOrder(image, t);
    }
  }

  // ----- what the report counts

  function ShortOnes(records: seq<Record>): seq<int> {
    if records == [] then []
    else
      var last := records[|records| - 1];
      ShortOnes(records[..|records| - 1]) + if last.fields < MESSAGE_COLUMNS then [last.rowid] else []
  }

  function WithFields(records: seq<Record>, fields: nat): nat {
    if records == [] then 0
    else
      WithFields(records[..|records| - 1], fields) + if records[|records| - 1].fields == fields then 1 else 0
  }

  /** The counts mean what their names say, for every list of records. */
  lemma {:induction false} CountsMean(records: seq<Record>)
    ensures var layout := CountAll(NO_LAYOUT, records);
            && layout.rows == |records|
            && layout.short == |ShortOnes(records)|
            && layout.samples == Prefix(ShortOnes(records), 8)
            && layout.overflowPages == |Chains(records)|
            && forall f: nat :: (f in layout.widths <==> WithFields(records, f) > 0)
                         && (f in layout.widths ==> layout.widths[f] == WithFields(records, f))
  {
    if records != [] {
      CountsMean(records[..|records| - 1]);
    }
  }
}
