/** The physical layout probe: an explicit stack of table pages, a set of visited
    pages shared with the overflow chains, and counts of stored fields.
 */
module LayoutWalk {
  import opened Sql
  import opened Bytes
  import opened Varint
  import opened RecordPages

  /** The report; `widths` is keyed by the number of stored fields. */
  datatype Layout = Layout(rows: nat, short: nat, widths: map<nat, nat>, samples: seq<int>,
                           tablePages: nat, overflowPages: nat)

  const NO_LAYOUT := Layout(0, 0, map[], [], 0, 0)

  datatype State = State(visited: set<nat>, previous: Option<int>, layout: Layout)

  const START := State({}, None, NO_LAYOUT)

  function Elements(pages: seq<nat>): set<nat> {
    set p | p in pages
  }

  /** The pages can be read one after the other: none twice, none seen before. */
  predicate Fresh(pages: seq<nat>, visited: set<nat>) {
    pages == [] || (Fresh(pages[..|pages| - 1], visited)
                    && pages[|pages| - 1] !in visited && pages[|pages| - 1] !in pages[..|pages| - 1])
  }

  /** rows, widths, short and the first eight sample rowids. */
  function CountFields(layout: Layout, rowid: int, fields: nat): Layout {
    var width := if fields in layout.widths then layout.widths[fields] else 0;
    var counted := layout.(rows := layout.rows + 1, widths := layout.widths[fields := width + 1]);
    if fields >= MESSAGE_COLUMNS then counted
    else counted.(short := layout.short + 1,
                  samples := if |layout.samples| < 8 then layout.samples + [rowid] else layout.samples)
  }

  function CountRecord(layout: Layout, record: Record): Layout {
    CountFields(layout.(overflowPages := layout.overflowPages + |record.chain|), record.rowid, record.fields)
  }

  /** Taking one record: rowids strictly increase, overflow pages are fresh. */
  function Accept(st: State, record: Record): Option<State> {
    if st.previous.Some? && record.rowid <= st.previous.value then None
    else if !Fresh(record.chain, st.visited) then None
    else Some(State(st.visited + Elements(record.chain), Some(record.rowid), CountRecord(st.layout, record)))
  }

  function AcceptAll(st: State, records: seq<Record>): Option<State> {
    if records == [] then Some(st)
    else
      var before := AcceptAll(st, records[..|records| - 1]);
      if before.None? then None else Accept(before.value, records[|records| - 1])
  }

  ghost function AllPages(image: Image): set<nat> {
    set n: nat | n < image.count + 1 && InRange(image, n)
  }

  function EnterPage(st: State, number: nat): State {
    st.(visited := st.visited + {number}, layout := st.layout.(tablePages := st.layout.tablePages + 1))
  }

  lemma AcceptAllGrows(st: State, records: seq<Record>)
    ensures AcceptAll(st, records).Some? ==> st.visited <= AcceptAll(st, records).value.visited
  {
    if records != [] {
      AcceptAllGrows(st, records[..|records| - 1]);
    }
  }

  /** The walk over the pages still to do, next page first. None is a refusal. */
  ghost function Walk(image: Image, todo: seq<nat>, st: State): Option<State>
    requires image.Valid()
    decreases AllPages(image) - st.visited, |todo|
  {
    if todo == [] then Some(st)
    else
      var number := todo[0];
      if !InRange(image, number) || number in st.visited then None
      else
        assert number in AllPages(image) - st.visited;
        var entered := EnterPage(st, number);
        match ParsePage(image, number)
        case None => None
        case Some(Leaf(records)) =>
          AcceptAllGrows(entered, records);
          var after := AcceptAll(entered, records);
          if after.None? then None else Walk(image, todo[1..], after.value)
        case Some(Interior(children)) =>
          if |children| + |todo[1..]| > image.count then None
          else Walk(image, children + todo[1..], entered)
  }

  // ----- reading in pieces

  lemma FreshAppend(a: seq<nat>, b: seq<nat>, visited: set<nat>)
    ensures Fresh(a + b, visited) <==> Fresh(a, visited) && Fresh(b, visited + Elements(a))
  {
    if b == [] {
      assert a + b == a;
    } else {
      var last := b[|b| - 1];
      assert (a + b)[..|a + b| - 1] == a + b[..|b| - 1];
      FreshAppend(a, b[..|b| - 1], visited);
    }
  }

  /** A chain that has been followed for a while. */
  function Extend(done: seq<nat>, got: seq<byte>, rest: Option<Chain>): Option<Chain> {
    if rest.None? then None
    else Some(Chain(done + rest.value.pages, got + rest.value.content, rest.value.last))
  }

  function Prefix<T>(bytes: seq<T>, n: nat): seq<T> {
    if n <= |bytes| then bytes[..n] else bytes
  }

  function Smaller(a: int, b: int): int { if a <= b then a else b }

  lemma PrefixIs(bytes: seq<byte>, n: nat)
    ensures Prefix(bytes, n) == bytes[..Smaller(n, |bytes|)]
  {
  }

  lemma {:induction false} LocalPrefix(page: seq<byte>, start: nat, end: nat, n: nat)
    requires start <= end <= |page|
    ensures page[start..Smaller(end, start + n)] == Prefix(page[start..end], n)
  {
  }

  /** Taking what is still needed of a block keeps the header a prefix. */
  lemma {:induction false} AppendBlock(local: seq<byte>, got: seq<byte>, block: seq<byte>, take: nat, n: nat)
    requires 4 + take <= |block|
    ensures var header := Prefix(local + got, n);
            var needed := if n > |header| then n - |header| else 0;
            && local + (got + block[4..4 + take]) == local + got + block[4..4 + take]
            && Prefix(local + (got + block[4..4 + take]), n) == header + block[4..4 + Smaller(take, needed)]
  {
    var header := Prefix(local + got, n);
    var needed := if n > |header| then n - |header| else 0;
    assert local + (got + block[4..4 + take]) == local + got + block[4..4 + take];
    assert block[4..4 + take][..Smaller(take, needed)] == block[4..4 + Smaller(take, needed)];
    assert |header| < n ==> header == local + got;
  }

  /** One block further along the chain. */
  lemma {:induction false} ChainStep(image: Image, done: seq<nat>, got: seq<byte>, next: nat, remaining: nat)
    requires image.Valid() && remaining > 0 && InRange(image, next)
    ensures var block := PageAt(image, next);
            var take := Smaller(remaining, image.usable - 4);
            Extend(done, got, FollowChain(image, next, remaining))
            == Extend(done + [next], got + block[4..4 + take], FollowChain(image, U32(block, 0), remaining - take))
  {
    var block := PageAt(image, next);
    var take := Smaller(remaining, image.usable - 4);
    var rest := FollowChain(image, U32(block, 0), remaining - take);
    if rest.Some? {
      assert done + ([next] + rest.value.pages) == (done + [next]) + rest.value.pages;
      assert got + (block[4..4 + take] + rest.value.content) == (got + block[4..4 + take]) + rest.value.content;
    }
  }

  lemma {:induction false} ChainBegin(local: seq<byte>, chain: Option<Chain>, visited: set<nat>)
    ensures chain == Extend([], [], chain)
    ensures Fresh([], visited) && Elements([]) == {}
    ensures local + [] == local
  {
    if chain.Some? {
      assert [] + chain.value.pages == chain.value.pages && [] + chain.value.content == chain.value.content;
    }
  }

  lemma {:induction false} ChainEnd(image: Image, done: seq<nat>, got: seq<byte>, next: nat)
    requires image.Valid()
    ensures Extend(done, got, FollowChain(image, next, 0)) == Some(Chain(done, got, next))
  {
    assert done + [] == done && got + [] == got;
  }

  lemma {:induction false} ChainVisits(done: seq<nat>, next: nat, visited: set<nat>)
    requires Fresh(done, visited) && next !in visited + Elements(done)
    ensures Fresh(done + [next], visited)
    ensures Elements(done + [next]) == Elements(done) + {next}
  {
    assert (done + [next])[..|done|] == done;
  }

  lemma {:induction false} ChainBlocked(image: Image, done: seq<nat>, got: seq<byte>, next: nat, remaining: nat,
                                        before: set<nat>)
    requires image.Valid() && remaining > 0
    requires !InRange(image, next) || next in before + Elements(done)
    ensures var chain := Extend(done, got, FollowChain(image, next, remaining));
            chain.Some? ==> !Fresh(chain.value.pages, before)
  {
    var chain := Extend(done, got, FollowChain(image, next, remaining));
    if chain.Some? {
      var pages := FollowChain(image, next, remaining).value.pages;
      FreshAppend(done, pages, before);
      FreshAppend([next], pages[1..], before + Elements(done));
      assert pages == [next] + pages[1..];
    }
  }

  lemma FreshCount(pages: seq<nat>, visited: set<nat>)
    requires Fresh(pages, visited)
    ensures |visited + Elements(pages)| == |visited| + |pages|
  {
    if pages != [] {
      var rest := pages[..|pages| - 1];
      var last := pages[|pages| - 1];
      FreshCount(rest, visited);
      assert pages == rest + [last];
      assert visited + Elements(pages) == visited + Elements(rest) + {last};
      assert last !in visited + Elements(rest);
    }
  }

  lemma PagesOfFile(image: Image, n: nat)
    requires n <= image.count
    ensures |set k: nat | k < n + 1 && InRange(image, k)| == n
  {
    var upTo := set k: nat | k < n + 1 && InRange(image, k);
    if n == 0 {
      assert upTo == {};
    } else {
      PagesOfFile(image, n - 1);
      assert upTo == (set k: nat | k < n - 1 + 1 && InRange(image, k)) + {n};
    }
  }

  lemma Subset(a: set<nat>, b: set<nat>)
    requires a <= b
    ensures |a| <= |b|
  {
    assert b == a + (b - a);
  }

  // ----- prefixes of a page

  lemma RecordsPrefix(image: Image, page: seq<byte>, frame: Frame, i: nat, n: nat)
    requires image.Valid() && |page| == image.usable
    requires i <= n <= frame.count && frame.pointers + 2 * frame.count <= frame.content <= |page|
    ensures Records(image, page, frame, n).Some? ==>
              Records(image, page, frame, i).Some?
                && Records(image, page, frame, i).value == Records(image, page, frame, n).value[..i]
    decreases n - i
  {
    if i < n {
      RecordsPrefix(image, page, frame, i, n - 1);
    }
  }

  lemma ChildrenPrefix(page: seq<byte>, frame: Frame, i: nat, n: nat)
    requires i <= n <= frame.count && frame.pointers + 2 * frame.count <= frame.content <= |page|
    ensures Children(page, frame, n).Some? ==> Children(page, frame, i).Some?
    decreases n - i
  {
    if i < n {
      ChildrenPrefix(page, frame, i, n - 1);
    }
  }

  lemma AcceptPrefix(st: State, records: seq<Record>, i: nat)
    requires i <= |records|
    ensures AcceptAll(st, records).Some? ==> AcceptAll(st, records[..i]).Some?
  {
    if i < |records| {
      AcceptPrefix(st, records[..|records| - 1], i);
      assert records[..|records| - 1][..i] == records[..i];
    } else {
      assert records[..i] == records;
    }
  }

  /** A page whose record `i` is refused is refused. */
  lemma {:induction false} RefusedRecord(image: Image, page: seq<byte>, frame: Frame, i: nat, st: State)
    requires image.Valid() && |page| == image.usable
    requires i < frame.count && frame.pointers + 2 * frame.count <= frame.content <= |page|
    requires var records := Records(image, page, frame, i + 1);
             records.Some? ==> AcceptAll(st, records.value).None?
    ensures var records := Records(image, page, frame, frame.count);
            records.Some? ==> AcceptAll(st, records.value).None?
  {
    hide Records, AcceptAll;
    RecordsPrefix(image, page, frame, i + 1, frame.count);
    var records := Records(image, page, frame, frame.count);
    if records.Some? {
      AcceptPrefix(st, records.value, i + 1);
    }
  }

  // ----- the stack

  /** The stack as a list of pages to do, top of the stack first. */
  function TopFirst(stack: seq<nat>): (todo: seq<nat>)
    ensures |todo| == |stack|
  {
    if stack == [] then [] else [stack[|stack| - 1]] + TopFirst(stack[..|stack| - 1])
  }

  lemma TopFirstAppend(a: seq<nat>, b: seq<nat>)
    ensures TopFirst(a + b) == TopFirst(b) + TopFirst(a)
  {
    if b == [] {
      assert a + b == a;
    } else {
      assert (a + b)[..|a + b| - 1] == a + b[..|b| - 1];
      TopFirstAppend(a, b[..|b| - 1]);
    }
  }

  lemma TopFirstTwice(children: seq<nat>)
    ensures TopFirst(TopFirst(children)) == children
  {
    if children != [] {
      var last := children[|children| - 1];
      var rest := children[..|children| - 1];
      TopFirstTwice(rest);
      TopFirstAppend([last], TopFirst(rest));
      assert TopFirst([last]) == [last] + TopFirst([]);
    }
  }

  /** Pushing the children in reverse leaves them on top of the stack, in order. */
  lemma {:induction false} PushChildren(pending: seq<nat>, children: seq<nat>)
    ensures TopFirst(pending + TopFirst(children)) == children + TopFirst(pending)
  {
    TopFirstAppend(pending, TopFirst(children));
    TopFirstTwice(children);
  }

  /** The walk goes on past this cell. */
  predicate Takes(image: Image, page: seq<byte>, cell: nat, st: State)
    requires image.Valid() && |page| == image.usable
  {
    CellAt(image, page, cell).Some? && Accept(st, CellAt(image, page, cell).value).Some?
  }

  /** The steps of the cell loop decide the same, one after the other. */
  lemma {:induction false} CellOutcome(image: Image, page: seq<byte>, cell: nat, st: State)
    requires image.Valid() && |page| == image.usable
    ensures var head := HeadAt(image.usable, page, cell);
            if head.None? || (st.previous.Some? && head.value.rowid <= st.previous.value)
            then !Takes(image, page, cell, st)
            else
              var payload := PayloadAt(image, page, head.value);
              if payload.None? || payload.value.last != 0 || !Fresh(payload.value.pages, st.visited)
              then !Takes(image, page, cell, st)
              else
                var fields := FieldCount(payload.value.content[..head.value.headerSize], head.value.payload);
                if fields.None? then !Takes(image, page, cell, st)
                else
                  && Takes(image, page, cell, st)
                  && Accept(st, CellAt(image, page, cell).value)
                     == Some(State(st.visited + Elements(payload.value.pages), Some(head.value.rowid),
                                   CountFields(st.layout.(overflowPages :=
                                                            st.layout.overflowPages + |payload.value.pages|),
                                               head.value.rowid, fields.value)))
  {
    hide Fresh, FieldCount, PayloadAt, HeadAt, Elements, CountFields;
  }

  lemma StartBalanced(image: Image)
    ensures START.visited <= AllPages(image)
  {
  }

  lemma OneTodo(root: nat)
    ensures TopFirst([root]) == [root]
  {
    assert TopFirst([root]) == [root] + TopFirst([]);
  }

  lemma FewPages(image: Image, visited: set<nat>)
    requires visited <= AllPages(image)
    ensures |visited| <= image.count
  {
    PagesOfFile(image, image.count);
    Subset(visited, AllPages(image));
  }

  lemma WalkDone(image: Image, st: State)
    requires image.Valid()
    ensures Walk(image, [], st) == Some(st)
  {
  }

  lemma EnteredPage(image: Image, st: State, number: nat)
    requires InRange(image, number) && number !in st.visited
    ensures number in AllPages(image) - st.visited
    ensures EnterPage(st, number) == State(st.visited + {number}, st.previous,
                                           st.layout.(tablePages := st.layout.tablePages + 1))
  {
  }

  /** One turn of the loop: what the page on top of the stack makes of the walk. */
  lemma {:induction false} WalkStep(image: Image, pending: seq<nat>, st: State)
    requires image.Valid() && pending != []
    ensures var number := pending[|pending| - 1];
            var rest := pending[..|pending| - 1];
            var walk := Walk(image, TopFirst(pending), st);
            if !InRange(image, number) || number in st.visited then walk.None?
            else
              var page := PageAt(image, number);
              var frame := FrameAt(image.usable, page, number);
              if frame.None? then walk.None?
              else if frame.value.interior then
                var children := Children(page, frame.value, frame.value.count);
                if children.None? then walk.None?
                else
                  var all := children.value + [U32(page, (if number == 1 then 100 else 0) + 8)];
                  if |all| + |rest| > image.count then walk.None?
                  else walk == Walk(image, TopFirst(rest + TopFirst(all)), EnterPage(st, number))
              else
                var records := Records(image, page, frame.value, frame.value.count);
                if records.None? || AcceptAll(EnterPage(st, number), records.value).None? then walk.None?
                else walk == Walk(image, TopFirst(rest), AcceptAll(EnterPage(st, number), records.value).value)
  {
    hide FrameAt, Records, Children, AcceptAll, PageAt, U32, Image.Whole, EnterPage, InRange;
    var number := pending[|pending| - 1];
    var rest := pending[..|pending| - 1];
    assert TopFirst(pending) == [number] + TopFirst(rest);
    assert TopFirst(pending)[1..] == TopFirst(rest);
    if InRange(image, number) {
      match ParsePage(image, number)
      case Some(Interior(all)) => PushChildren(rest, all);
      case _ =>
    }
  }

  class Walker {
    const image: Image
    var visited: set<nat>
    var previous: Option<int>
    var layout: Layout

    constructor (image: Image)
      ensures this.image == image && Current() == START
    {
      this.image := image;
      visited, previous, layout := {}, None, NO_LAYOUT;
    }

    ghost function Current(): State
      reads this
    {
      State(visited, previous, layout)
    }

    /** Read a page that is in the file and has not been read before. */
    method ReadPage(number: nat) returns (page: Option<seq<byte>>)
      requires image.Valid()
      modifies `visited
      ensures page.Some? <==> InRange(image, number) && number !in old(visited)
      ensures page.Some? ==> page.value == PageAt(image, number) && visited == old(visited) + {number}
      ensures page.None? ==> visited == old(visited)
      ensures old(visited) <= AllPages(image) ==> visited <= AllPages(image)
      ensures page.Some? ==> |visited| == |old(visited)| + 1
    {
      if !InRange(image, number) || number in visited {
        return None;
      }
      visited := visited + {number};
      page := Some(PageAt(image, number));
    }

    /** Follow the overflow chain of a cell, keeping only the bounded header. When
        it succeeds the kept bytes are exactly the first `headerSize` bytes of
        the reassembled payload, and every chain page was read once. */
    method ReadHeader(page: seq<byte>, head: CellHead) returns (header: Option<seq<byte>>)
      requires image.Valid() && |page| == image.usable
      requires head.start <= head.end <= image.usable && head.end - head.start <= head.payload
      requires head.end - head.start < head.payload ==> head.end + 4 <= image.usable
      requires 1 <= head.headerSize <= head.payload
      requires Balanced()
      modifies `visited, `layout
      ensures Balanced() && old(visited) <= visited
      ensures var payload := PayloadAt(image, page, head);
              && (header.Some?
                 <==> payload.Some? && payload.value.last == 0 && Fresh(payload.value.pages, old(visited)))
              && (header.Some? ==>
                    && header.value == payload.value.content[..head.headerSize]
                    && visited == old(visited) + Elements(payload.value.pages)
                    && layout == old(layout).(overflowPages := old(layout.overflowPages) + |payload.value.pages|))
    {
      hide Fresh, Elements, FollowChain, Prefix, PageAt, U32, Extend, InRange, AllPages, Image.Whole;
      var remaining: nat := head.payload - (head.end - head.start);
      var next: nat := if remaining > 0 then U32(page, head.end) else 0;
      var record := page[head.start..Smaller(head.end, head.start + head.headerSize)];
      ghost var local := page[head.start..head.end];
      ghost var chain := FollowChain(image, next, remaining);
      ghost var done: seq<nat> := [];
      ghost var got: seq<byte> := [];
      ghost var before := visited;
      ChainBegin(local, chain, before);
      LocalPrefix(page, head.start, head.end, head.headerSize);
      while remaining > 0
        invariant chain == Extend(done, got, FollowChain(image, next, remaining))
        invariant Fresh(done, before) && visited == before + Elements(done)
        invariant |local + got| + remaining == head.payload
        invariant Balanced() && before <= visited
        invariant record == Prefix(local + got, head.headerSize)
        invariant layout == old(layout).(overflowPages := old(layout.overflowPages) + |done|)
      {
        var block := ReadPage(next);
        if block.None? {
          ChainBlocked(image, done, got, next, remaining, before);
          return None;
        }
        layout := layout.(overflowPages := layout.overflowPages + 1);
        var take := Smaller(remaining, image.usable - 4);
        var needed := if head.headerSize > |record| then head.headerSize - |record| else 0;
        ChainStep(image, done, got, next, remaining);
        ChainVisits(done, next, before);
        AppendBlock(local, got, block.value, take, head.headerSize);
        record := record + block.value[4..4 + Smaller(take, needed)];
        done, got := done + [next], got + block.value[4..4 + take];
        remaining := remaining - take;
        next := U32(block.value, 0);
      }
      ChainEnd(image, done, got, next);
      PrefixIs(local + got, head.headerSize);
      if next != 0 {
        return None;
      }
      header := Some(record);
    }

    /** Every page read so far was in the file and was read once. */
    ghost predicate Balanced()
      reads this
    {
      && image.Valid() && visited <= AllPages(image)
      && |visited| == layout.tablePages + layout.overflowPages
    }

    /** Count the fields of a header and check the body size they imply. */
    method ReadFields(header: seq<byte>, payload: nat) returns (fields: Option<nat>)
      ensures fields == FieldCount(header, payload)
    {
      hide Decode, SerialSize;
      var size := ReadVarint(header, 0, |header|);
      if size.None? {
        return None;
      }
      var position := size.value.next;
      var count, bodySize: nat := 0, 0;
      ghost var all := ParseFields(header, position, |header|, Fields(0, 0));
      while position < |header|
        invariant all == ParseFields(header, position, |header|, Fields(count, bodySize))
        decreases |header| - position
      {
        var serial := ReadVarint(header, position, |header|);
        if serial.None? || serial.value.value == 10 || serial.value.value == 11 {
          return None;
        }
        position := serial.value.next;
        bodySize := bodySize + SerialSize(serial.value.value);
        count := count + 1;
      }
      if !(1 <= count <= MESSAGE_COLUMNS) || |header| + bodySize != payload {
        return None;
      }
      fields := Some(count);
    }

    /** One leaf cell: taken exactly when it holds a well-formed record with a
        larger rowid and unread overflow pages. */
    method ReadCell(page: seq<byte>, cell: nat) returns (ok: bool)
      requires Balanced() && |page| == image.usable
      modifies this
      ensures Balanced()
      ensures old(visited) <= visited
      ensures ok <==> Takes(image, page, cell, old(Current()))
      ensures ok ==> Accept(old(Current()), CellAt(image, page, cell).value) == Some(Current())
    {
      hide CellAt, Accept, Takes, FollowChain, Fresh, FieldCount, AllPages, Elements, PayloadAt, HeadAt, Image.Whole;
      CellOutcome(image, page, cell, Current());
      var head := HeadAt(image.usable, page, cell);
      if head.None? {
        return false;
      }
      var rowid := head.value.rowid;
      if previous.Some? && rowid <= previous.value {
        return false;
      }
      var header := ReadHeader(page, head.value);
      if header.None? {
        return false;
      }
      var fields := ReadFields(header.value, head.value.payload);
      if fields.None? {
        return false;
      }
      previous := Some(rowid);
      layout := CountFields(layout, rowid, fields.value);
      ok := true;
    }

    /** The cells of a leaf, in pointer order. */
    method ReadLeaf(page: seq<byte>, frame: Frame) returns (ok: bool)
      requires Balanced() && |page| == image.usable
      requires frame.pointers + 2 * frame.count <= frame.content <= |page|
      modifies this
      ensures Balanced()
      ensures var records := Records(image, page, frame, frame.count);
              && (ok <==> records.Some? && AcceptAll(old(Current()), records.value).Some?)
              && (ok ==> Current() == AcceptAll(old(Current()), records.value).value)
      ensures old(visited) <= visited
    {
      hide Accept, CellAt, Pointer, AllPages, Image.Valid;
      ghost var start := Current();
      for i := 0 to frame.count
        invariant Balanced() && old(visited) <= visited
        invariant Records(image, page, frame, i).Some?
        invariant AcceptAll(start, Records(image, page, frame, i).value) == Some(Current())
      {
        RecordsPrefix(image, page, frame, i + 1, frame.count);
        var cell := Pointer(page, frame, i);
        if cell.None? {
          return false;
        }
        ghost var before := Records(image, page, frame, i).value;
        var taken := ReadCell(page, cell.value);
        ghost var record := CellAt(image, page, cell.value);
        if record.Some? {
          assert (before + [record.value])[..|before|] == before;
        }
        if !taken {
          RefusedRecord(image, page, frame, i, start);
          return false;
        }
      }
      ok := true;
    }

    /** The children of an interior page, left to right. */
    method ReadInterior(page: seq<byte>, frame: Frame, number: nat) returns (children: Option<seq<nat>>)
      requires |page| == image.usable && frame.pointers + 2 * frame.count <= frame.content <= |page|
      ensures children == Children(page, frame, frame.count)
    {
      hide U16, ChildAt;
      var found: seq<nat> := [];
      for i := 0 to frame.count
        invariant Children(page, frame, i) == Some(found)
      {
        ChildrenPrefix(page, frame, i + 1, frame.count);
        var cell := Pointer(page, frame, i);
        if cell.None? {
          return None;
        }
        var child := ChildAt(page, cell.value);
        if child.None? {
          return None;
        }
        found := found + [child.value];
      }
      children := Some(found);
    }

    /** The whole probe. It ends on every image, has then read each page at most
        once, and reports exactly what the walk from the root accepts. */
    method PhysicalLayout(root: nat, expectedRows: nat) returns (r: Option<Layout>)
      requires image.Valid() && Current() == START
      modifies this
      ensures layout.tablePages + layout.overflowPages == |visited| <= image.count
      ensures r.Some? ==> r.value == layout
      ensures r == var walked := Walk(image, [root], START);
                   if walked.Some? && walked.value.layout.rows == expectedRows then Some(walked.value.layout) else None
    {
      hide Walk, ParsePage, FrameAt, Records, Children, AcceptAll, AllPages, PageAt, U32, Image.Whole, EnterPage,
           InRange;
      var pending := [root];
      OneTodo(root);
      StartBalanced(image);
      while pending != []
        invariant Balanced()
        invariant Walk(image, TopFirst(pending), Current()) == Walk(image, [root], START)
        decreases AllPages(image) - visited, |pending|
      {
        ghost var before := Current();
        WalkStep(image, pending, before);
        FewPages(image, visited);
        var number := pending[|pending| - 1];
        pending := pending[..|pending| - 1];
        var page := ReadPage(number);
        if page.None? {
          return None;
        }
        layout := layout.(tablePages := layout.tablePages + 1);
        EnteredPage(image, before, number);
        FewPages(image, visited);
        var frame := FrameAt(image.usable, page.value, number);
        if frame.None? {
          return None;
        }
        if frame.value.interior {
          var children := ReadInterior(page.value, frame.value, number);
          if children.None? {
            return None;
          }
          var all := children.value + [U32(page.value, (if number == 1 then 100 else 0) + 8)];
          if |all| + |pending| > image.count {
            return None;
          }
          pending := pending + TopFirst(all);
        } else {
          var ok := ReadLeaf(page.value, frame.value);
          FewPages(image, visited);
          if !ok {
            return None;
          }
        }
      }
      FewPages(image, visited);
      WalkDone(image, Current());
      if layout.rows != expectedRows {
        return None;
      }
      r := Some(layout);
    }
  }

  /** The report on the table at page `root`, if the walk from there succeeds. */
  ghost function ProbeResult(bytes: seq<byte>, root: nat, expectedRows: nat): Option<Layout> {
    if OpenImage(bytes).None? then None
    else
      var walked := Walk(OpenImage(bytes).value, [root], START);
      if walked.Some? && walked.value.layout.rows == expectedRows then Some(walked.value.layout) else None
  }

  /** The probe on any byte string: a database header, then the walk. */
  method Probe(bytes: seq<byte>, root: nat, expectedRows: nat) returns (r: Option<Layout>)
    ensures r == ProbeResult(bytes, root, expectedRows)
    ensures r.Some? ==> r.value.tablePages + r.value.overflowPages <= OpenImage(bytes).value.count
  {
    hide Walk, OpenImage;
    var image := OpenImage(bytes);
    if image.None? {
      return None;
    }
    var walker := new Walker(image.value);
    r := walker.PhysicalLayout(root, expectedRows);
  }
}
