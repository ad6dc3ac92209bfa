/** The pages of a table b-tree (sections 1.5 to 1.7 and 2.1 of the SQLite Database
    File Format), said by their bytes and not by the code that reads them: the probe
    accepts the tables stored in this format, and no others.
 */
module PageFormat {
  import opened Sql
  import opened Bytes
  import opened Varint
  import opened Spill
  import opened RecordPages
  import opened LayoutWalk
  import opened BTree

  const INTERIOR_PAGE: byte := 5
  const LEAF_PAGE: byte := 13

  // ----- records

  /** A stored row: its rowid, its record, the serial types of its fields, and the
      overflow pages that hold what does not fit on its leaf. */
  datatype Row = Row(rowid: int, payload: seq<byte>, serials: seq<nat>, chain: seq<nat>)

  /** Types 10 and 11 are reserved. */
  predicate FieldType(serial: nat) {
    serial != 10 && serial != 11
  }

  /** The bytes of a field: integers of 1, 2, 3, 4, 6 and 8 bytes, a float, nothing for
      NULL and the constants 0 and 1, then blobs and texts by their length. */
  function ContentSize(serial: nat): nat
    requires FieldType(serial)
  {
    if serial <= 4 then serial
    else if serial == 5 then 6
    else if serial <= 7 then 8
    else if serial <= 9 then 0
    else if serial % 2 == 0 then (serial - 12) / 2
    else (serial - 13) / 2
  }

  function BodySize(serials: seq<nat>): nat
    requires forall i :: 0 <= i < |serials| ==> FieldType(serials[i])
  {
    if serials == [] then 0 else ContentSize(serials[0]) + BodySize(serials[1..])
  }

  /** The rest of the header, from `at` on, is these serial types. */
  ghost predicate SerialsAt(header: seq<byte>, at: nat, serials: seq<nat>)
    decreases |serials|
  {
    if serials == [] then at == |header|
    else
      FieldType(serials[0])
      && exists next :: IsVarint(header, at, |header|, serials[0], next) && SerialsAt(header, next, serials[1..])
  }

  /** A record header: its own size, then the serial types. */
  ghost predicate IsHeader(header: seq<byte>, serials: seq<nat>) {
    exists first :: IsVarint(header, 0, |header|, |header|, first) && SerialsAt(header, first, serials)
  }

  /** A record of the table: one to thirteen fields, and the bytes they need. */
  ghost predicate IsRecord(payload: seq<byte>, serials: seq<nat>, header: nat) {
    && header <= |payload| && 1 <= |serials| <= 13 && IsHeader(payload[..header], serials)
    && (forall i :: 0 <= i < |serials| ==> FieldType(serials[i]))
    && |payload| == header + BodySize(serials)
  }

  // ----- cells

  ghost predicate Holds(page: seq<byte>, at: nat, bytes: seq<byte>) {
    at + |bytes| <= |page| && page[at..at + |bytes|] == bytes
  }

  /** A number of `width` bytes, the most significant first. */
  ghost predicate HoldsNumber(page: seq<byte>, at: nat, n: nat, width: nat) {
    n < Radix(width) && Holds(page, at, BigEndian(n, width))
  }

  function First(chain: seq<nat>): nat { if chain == [] then 0 else chain[0] }

  /** Each overflow page: the number of the next one, zero on the last, and as much
      of the rest as it has room for. */
  ghost predicate ChainHolds(image: Image, chain: seq<nat>, rest: seq<byte>)
    requires image.Valid()
    decreases |chain|
  {
    if rest == [] then chain == []
    else
      && chain != [] && InRange(image, chain[0])
      && var take := if |rest| <= image.usable - 4 then |rest| else image.usable - 4;
         && HoldsNumber(PageAt(image, chain[0]), 0, First(chain[1..]), 4)
         && Holds(PageAt(image, chain[0]), 4, rest[..take])
         && ChainHolds(image, chain[1..], rest[take..])
  }

  /** A leaf cell: payload size, rowid in two's complement, the local part from `start`
      on, and behind it the first overflow page when there is one. */
  ghost predicate CellParts(image: Image, page: seq<byte>, cell: nat, row: Row, header: nat,
                            middle: nat, start: nat, local: nat)
    requires image.Valid()
  {
    && IsRecord(row.payload, row.serials, header)
    && IsVarint(page, cell, |page|, |row.payload|, middle)
    && -0x8000_0000_0000_0000 <= row.rowid < 0x8000_0000_0000_0000
    && IsVarint(page, middle, |page|, if row.rowid >= 0 then row.rowid else row.rowid + 0x1_0000_0000_0000_0000, start)
    && IsLocalSize(image.usable, |row.payload|, local) && local <= |row.payload|
    && Holds(page, start, row.payload[..local])
    && (local < |row.payload| ==> HoldsNumber(page, start + local, First(row.chain), 4))
    && ChainHolds(image, row.chain, row.payload[local..])
  }

  ghost predicate CellHolds(image: Image, page: seq<byte>, cell: nat, row: Row)
    requires image.Valid()
  {
    exists header: nat, middle: nat, start: nat, local: nat ::
      CellParts(image, page, cell, row, header, middle, start, local)
  }

  function RecordOf(row: Row): Record { Record(row.rowid, |row.serials|, row.chain) }

  // ----- reading numbers and bytes

  lemma {:induction false} NumberIs(page: seq<byte>, at: nat, n: nat, width: nat)
    requires at + width <= |page|
    ensures HoldsNumber(page, at, n, width) <==> FromBigEndian(page[at..at + width]) == n
  {
    hide Radix, BigEndian, FromBigEndian;
    if n < Radix(width) {
      BigEndianRoundTrip(n, width);
    }
    BigEndianOfBytes(page[at..at + width]);
  }

  lemma NumberInside(page: seq<byte>, at: nat, n: nat, width: nat)
    ensures HoldsNumber(page, at, n, width) ==> at + width <= |page|
  {
  }

  lemma HoldsInside(page: seq<byte>, at: nat, bytes: seq<byte>)
    ensures Holds(page, at, bytes) ==> at + |bytes| <= |page|
  {
  }

  lemma {:induction false} FollowStep(image: Image, next: nat, remaining: nat)
    requires image.Valid() && remaining > 0
    ensures FollowChain(image, next, remaining).Some? ==> InRange(image, next)
    ensures InRange(image, next) ==>
              var block := PageAt(image, next);
              var take := if remaining <= image.usable - 4 then remaining else image.usable - 4;
              var rest := FollowChain(image, U32(block, 0), remaining - take);
              FollowChain(image, next, remaining)
              == if rest.None? then None
                 else Some(Chain([next] + rest.value.pages, block[4..4 + take] + rest.value.content, rest.value.last))
  {
  }

  lemma NothingFollowed(image: Image, next: nat)
    requires image.Valid()
    ensures FollowChain(image, next, 0) == Some(Chain([], [], next))
  {
  }

  /** The first page of a chain, and what it leaves to the others. */
  lemma {:induction false} ChainUnfolds(image: Image, chain: seq<nat>, rest: seq<byte>)
    requires image.Valid() && rest != [] && chain != [] && InRange(image, chain[0])
    ensures var block := PageAt(image, chain[0]);
            var take := if |rest| <= image.usable - 4 then |rest| else image.usable - 4;
            ChainHolds(image, chain, rest)
            <==> U32(block, 0) == First(chain[1..]) && block[4..4 + take] == rest[..take]
                 && ChainHolds(image, chain[1..], rest[take..])
  {
    hide HoldsNumber, PageAt;
    NumberIs(PageAt(image, chain[0]), 0, First(chain[1..]), 4);
  }

  lemma EmptyChain(image: Image, chain: seq<nat>, rest: seq<byte>)
    requires image.Valid()
    ensures ChainHolds(image, chain, rest) ==> (rest == [] <==> chain == [])
    ensures ChainHolds(image, chain, rest) && chain != [] ==> InRange(image, chain[0])
    ensures ChainHolds(image, [], [])
  {
  }

  /** An overflow chain is followed to its end and gives the stored bytes back. */
  lemma {:induction false} ChainReadsBack(image: Image, chain: seq<nat>, rest: seq<byte>)
    requires image.Valid() && ChainHolds(image, chain, rest)
    ensures FollowChain(image, First(chain), |rest|) == Some(Chain(chain, rest, 0))
    decreases |chain|
  {
    hide HoldsNumber, PageAt, U32, FollowChain, ChainHolds;
    EmptyChain(image, chain, rest);
    if rest == [] {
      NothingFollowed(image, 0);
    } else {
      var take := if |rest| <= image.usable - 4 then |rest| else image.usable - 4;
      ChainUnfolds(image, chain, rest);
      ChainReadsBack(image, chain[1..], rest[take..]);
      FollowStep(image, chain[0], |rest|);
      assert chain == [chain[0]] + chain[1..];
      assert rest == rest[..take] + rest[take..];
    }
  }

  /** Whatever is followed to its end is a stored chain. */
  lemma {:induction false} FollowedIsStored(image: Image, next: nat, rest: seq<byte>, chain: seq<nat>)
    requires image.Valid() && FollowChain(image, next, |rest|) == Some(Chain(chain, rest, 0))
    ensures ChainHolds(image, chain, rest) && next == First(chain)
    decreases |rest|
  {
    hide HoldsNumber, PageAt, U32, FollowChain, ChainHolds;
    EmptyChain(image, chain, rest);
    if rest == [] {
      NothingFollowed(image, next);
    } else {
      var take := if |rest| <= image.usable - 4 then |rest| else image.usable - 4;
      FollowStep(image, next, |rest|);
      var block := PageAt(image, next);
      var tail := FollowChain(image, U32(block, 0), |rest| - take).value;
      assert rest[..take] == block[4..4 + take] && rest[take..] == tail.content;
      assert chain[1..] == tail.pages;
      FollowedIsStored(image, U32(block, 0), rest[take..], chain[1..]);
      ChainUnfolds(image, chain, rest);
    }
  }

  // ----- reading a record

  lemma SameSize(serial: nat)
    requires FieldType(serial)
    ensures ContentSize(serial) == SerialSize(serial)
  {
  }

  lemma {:induction false} TypesReadBack(header: seq<byte>, at: nat, serials: seq<nat>, before: Fields)
    requires SerialsAt(header, at, serials)
    ensures forall i :: 0 <= i < |serials| ==> FieldType(serials[i])
    ensures at <= |header| <= at + 9 * |serials|
    ensures ParseFields(header, at, |header|, before)
            == Some(Fields(before.count + |serials|, before.bodySize + BodySize(serials)))
    decreases |serials|
  {
    hide IsVarint, Decode, SerialSize, ContentSize;
    if serials != [] {
      var next :| IsVarint(header, at, |header|, serials[0], next) && SerialsAt(header, next, serials[1..]);
      VarintAdvances(header, at, |header|, serials[0], next);
      DecodeIs(header, at, |header|, serials[0], next);
      SameSize(serials[0]);
      TypesReadBack(header, next, serials[1..],
                    Fields(before.count + 1, before.bodySize + SerialSize(serials[0])));
      assert forall i :: 0 < i < |serials| ==> serials[i] == serials[1..][i - 1];
    }
  }

  lemma {:induction false} ParsedAreTypes(header: seq<byte>, at: nat, before: Fields) returns (serials: seq<nat>)
    requires at <= |header| && ParseFields(header, at, |header|, before).Some?
    ensures SerialsAt(header, at, serials)
    ensures forall i :: 0 <= i < |serials| ==> FieldType(serials[i])
    ensures ParseFields(header, at, |header|, before).value
            == Fields(before.count + |serials|, before.bodySize + BodySize(serials))
    decreases |header| - at
  {
    hide IsVarint, Decode, SerialSize, ContentSize;
    serials := [];
    if at < |header| {
      var serial := Decode(header, at, |header|).value;
      DecodeIs(header, at, |header|, serial.value, serial.next);
      SameSize(serial.value);
      var rest := ParsedAreTypes(header, serial.next,
                                 Fields(before.count + 1, before.bodySize + SerialSize(serial.value)));
      serials := [serial.value] + rest;
      assert serials[1..] == rest;
    }
  }

  /** The field count of a record, as the probe takes it from the header. */
  lemma {:induction false} HeaderReadsBack(payload: seq<byte>, serials: seq<nat>, header: nat)
    requires IsRecord(payload, serials, header)
    ensures header <= 126 && header <= |payload|
    ensures FieldCount(payload[..header], |payload|) == Some(|serials|)
  {
    hide IsVarint, Decode, SerialsAt, BodySize, ParseFields;
    var bytes := payload[..header];
    var first :| IsVarint(bytes, 0, header, header, first) && SerialsAt(bytes, first, serials);
    DecodeIs(bytes, 0, header, header, first);
    TypesReadBack(bytes, first, serials, Fields(0, 0));
    VarintLength(bytes, 0, header, header, first);
  }

  lemma VarintLength(data: seq<byte>, at: nat, limit: nat, v: nat, next: nat)
    ensures IsVarint(data, at, limit, v, next) ==> at < next <= limit <= |data| && next <= at + 9
  {
  }

  lemma {:induction false} CountedIsRecord(payload: seq<byte>, header: nat) returns (serials: seq<nat>)
    requires header <= |payload| && FieldCount(payload[..header], |payload|).Some?
    requires Decode(payload[..header], 0, header).Some? ==> Decode(payload[..header], 0, header).value.value == header
    ensures IsRecord(payload, serials, header) && FieldCount(payload[..header], |payload|) == Some(|serials|)
  {
    hide IsVarint, Decode, SerialsAt, BodySize, ParseFields;
    var bytes := payload[..header];
    var size := Decode(bytes, 0, header).value;
    DecodeIs(bytes, 0, header, size.value, size.next);
    VarintLength(bytes, 0, header, size.value, size.next);
    serials := ParsedAreTypes(bytes, size.next, Fields(0, 0));
  }

  // ----- reading a cell

  /** A head whose three varints read as these. */
  lemma {:induction false} HeadOf(usable: nat, page: seq<byte>, cell: nat, payload: nat, afterSize: nat,
                                  rowid: nat, start: nat, header: nat, afterHeader: nat)
    requires usable >= 480 && |page| == usable && rowid < TWO_64 && 1 <= header <= payload && header <= MAX_HEADER
    requires LocalSize(usable, payload) >= 0
    requires start + LocalSize(usable, payload) + (if LocalSize(usable, payload) < payload then 4 else 0) <= usable
    requires Decode(page, cell, usable) == Some(Decoded(payload, afterSize))
    requires Decode(page, afterSize, usable) == Some(Decoded(rowid, start))
    requires Decode(page, start, start + LocalSize(usable, payload)) == Some(Decoded(header, afterHeader))
    ensures HeadAt(usable, page, cell)
            == Some(CellHead(payload, Signed(rowid), start, start + LocalSize(usable, payload), header))
  {
    hide Decode, LocalSize, Signed;
  }

  /** The size of the header lies in the local part. */
  lemma {:induction false} SizeIsLocal(usable: nat, payload: seq<byte>, serials: seq<nat>, header: nat, local: nat)
    returns (first: nat)
    requires usable >= 480 && IsRecord(payload, serials, header) && local == LocalSize(usable, |payload|)
    ensures IsVarint(payload[..header], 0, header, header, first) && first <= local <= |payload| && first <= header
    ensures 1 <= header
  {
    hide IsVarint, LocalSize, SerialsAt, BodySize;
    first :| IsVarint(payload[..header], 0, header, header, first) && SerialsAt(payload[..header], first, serials);
    VarintLength(payload[..header], 0, header, header, first);
    LocalSizeBounds(usable, |payload|);
  }

  lemma {:induction false} HeadReadsBack(image: Image, page: seq<byte>, cell: nat, row: Row, header: nat,
                                         middle: nat, start: nat, local: nat)
    requires image.Valid() && |page| == image.usable
    requires CellParts(image, page, cell, row, header, middle, start, local)
    ensures HeadAt(image.usable, page, cell)
            == Some(CellHead(|row.payload|, row.rowid, start, start + local, header))
    ensures start + local + (if local < |row.payload| then 4 else 0) <= image.usable
  {
    hide IsRecord, IsVarint, Decode, LocalSize, IsLocalSize, HoldsNumber, ChainHolds, HeadAt, Holds;
    var usable, payload := image.usable, row.payload;
    var v := if row.rowid >= 0 then row.rowid else row.rowid + TWO_64;
    LocalSizeIs(usable, |payload|, local);
    HeaderReadsBack(payload, row.serials, header);
    DecodeIs(page, cell, usable, |payload|, middle);
    DecodeIs(page, middle, usable, v, start);
    HoldsInside(page, start, payload[..local]);
    NumberInside(page, start + local, First(row.chain), 4);
    var first := SizeIsLocal(usable, payload, row.serials, header, local);
    VarintLength(payload[..header], 0, header, header, first);
    FirstBytes(page, start, payload, local, header, first);
    VarintMoved(payload[..header], 0, header, header, first, page, start, start + local);
    DecodeIs(page, start, start + local, header, start + first);
    HeadOf(usable, page, cell, |payload|, middle, v, start, header, start + first);
  }

  lemma {:induction false} FirstBytes(page: seq<byte>, start: nat, payload: seq<byte>, local: nat, header: nat, n: nat)
    requires local <= |payload| && header <= |payload| && n <= local && n <= header
    requires Holds(page, start, payload[..local])
    ensures start + n <= |page| && page[start..start + n] == payload[..header][0..n]
  {
    assert page[start..start + n] == page[start..start + local][..n];
  }

  /** A stored cell is read as the record of its row. */
  lemma {:induction false} CellReadsBack(image: Image, page: seq<byte>, cell: nat, row: Row)
    requires image.Valid() && |page| == image.usable && CellHolds(image, page, cell, row)
    ensures CellAt(image, page, cell) == Some(RecordOf(row))
  {
    hide HeadAt, FieldCount, IsRecord, IsVarint, IsLocalSize, HoldsNumber, ChainHolds, FollowChain;
    var header: nat, middle: nat, start: nat, local: nat
      :| CellParts(image, page, cell, row, header, middle, start, local);
    HeadReadsBack(image, page, cell, row, header, middle, start, local);
    HeaderReadsBack(row.payload, row.serials, header);
    ChainReadsBack(image, row.chain, row.payload[local..]);
    if local < |row.payload| {
      NumberIs(page, start + local, First(row.chain), 4);
    } else {
      NoOverflow(image, row.chain);
    }
    assert row.payload == row.payload[..local] + row.payload[local..];
  }

  lemma NoOverflow(image: Image, chain: seq<nat>)
    requires image.Valid() && ChainHolds(image, chain, [])
    ensures chain == []
  {
  }

  /** The varints behind an accepted head. */
  lemma {:induction false} HeadIsStored(usable: nat, page: seq<byte>, cell: nat)
    returns (middle: nat, v: nat, next: nat)
    requires usable >= 480 && |page| == usable && HeadAt(usable, page, cell).Some?
    ensures var h := HeadAt(usable, page, cell).value;
            && IsVarint(page, cell, usable, h.payload, middle) && IsVarint(page, middle, usable, v, h.start)
            && v < TWO_64 && h.rowid == Signed(v) && h.end == h.start + LocalSize(usable, h.payload)
            && Decode(page, h.start, h.end) == Some(Decoded(h.headerSize, next))
  {
    hide IsVarint, Decode, LocalSize, Signed;
    var size := Decode(page, cell, usable).value;
    var rowid := Decode(page, size.next, usable).value;
    middle, v := size.next, rowid.value;
    next := Decode(page, rowid.next, rowid.next + LocalSize(usable, size.value)).value.next;
    DecodeIs(page, cell, usable, size.value, size.next);
    DecodeIs(page, size.next, usable, rowid.value, rowid.next);
  }

  lemma SignedIs(v: nat)
    requires v < TWO_64
    ensures -0x8000_0000_0000_0000 <= Signed(v) < 0x8000_0000_0000_0000
    ensures v == if Signed(v) >= 0 then Signed(v) else Signed(v) + 0x1_0000_0000_0000_0000
  {
  }

  /** The header size read on the page is the one in the header itself. */
  lemma {:induction false} SizeAgrees(page: seq<byte>, start: nat, end: nat, payload: seq<byte>, header: nat, next: nat)
    requires start <= end <= |page| && end - start <= |payload| && 1 <= header <= |payload|
    requires page[start..end] == payload[..end - start]
    requires Decode(page, start, end) == Some(Decoded(header, next))
    ensures Decode(payload[..header], 0, header).Some? ==> Decode(payload[..header], 0, header).value.value == header
  {
    hide IsVarint, Decode;
    var bytes := payload[..header];
    if Decode(bytes, 0, header).Some? {
      var size := Decode(bytes, 0, header).value;
      DecodeIs(bytes, 0, header, size.value, size.next);
      VarintLength(bytes, 0, header, size.value, size.next);
      assert payload[0..size.next] == bytes[0..size.next];
      VarintMoved(bytes, 0, header, size.value, size.next, payload, 0, |payload|);
      DecodeIs(page, start, end, header, next);
      VarintLength(page, start, end, header, next);
      assert payload[0..next - start] == page[start..end][..next - start] == page[start..next];
      VarintMoved(page, start, end, header, next, payload, 0, |payload|);
      VarintUnique(payload, 0, |payload|, size.value, size.next, |payload|, header, next - start);
    }
  }

  /** Whatever is read as a record is a stored row. */
  lemma {:induction false} CellIsStored(image: Image, page: seq<byte>, cell: nat) returns (row: Row)
    requires image.Valid() && |page| == image.usable && CellAt(image, page, cell).Some?
    ensures CellHolds(image, page, cell, row) && RecordOf(row) == CellAt(image, page, cell).value
  {
    hide HeadAt, FieldCount, IsRecord, IsVarint, IsLocalSize, HoldsNumber, ChainHolds, FollowChain, Decode, Signed;
    var h := HeadAt(image.usable, page, cell).value;
    var payload := PayloadAt(image, page, h).value;
    var middle, v, next := HeadIsStored(image.usable, page, cell);
    var local := h.end - h.start;
    var first := if local < h.payload then U32(page, h.end) else 0;
    var rest := FollowChain(image, first, h.payload - local).value;
    assert payload.content[..local] == page[h.start..h.end] && payload.content[local..] == rest.content;
    FollowedIsStored(image, first, rest.content, rest.pages);
    SizeAgrees(page, h.start, h.end, payload.content, h.headerSize, next);
    var serials := CountedIsRecord(payload.content, h.headerSize);
    LocalSizeIs(image.usable, h.payload, local);
    SignedIs(v);
    if local < h.payload {
      NumberIs(page, h.end, First(rest.pages), 4);
    }
    row := Row(h.rowid, payload.content, serials, rest.pages);
    assert CellParts(image, page, cell, row, h.headerSize, middle, h.start, local);
  }

  // ----- pages

  /** Page 1 begins with the database header. */
  function HeaderStart(number: nat): nat { if number == 1 then 100 else 0 }

  function PointersStart(number: nat, kind: byte): nat {
    HeaderStart(number) + if kind == INTERIOR_PAGE then 12 else 8
  }

  ghost predicate PointerHolds(page: seq<byte>, at: nat, content: nat, cell: nat) {
    content <= cell < |page| && HoldsNumber(page, at, cell, 2)
  }

  /** Kind, cell count, start of the cell content, and the pointers to the cells. A
      content start of 65536 is stored as zero. */
  ghost predicate FrameHolds(page: seq<byte>, number: nat, kind: byte, cells: seq<nat>, content: nat) {
    var at, pointers := HeaderStart(number), PointersStart(number, kind);
    && at < |page| && page[at] == kind
    && HoldsNumber(page, at + 3, |cells|, 2) && HoldsNumber(page, at + 5, content % 65536, 2)
    && pointers + 2 * |cells| <= content <= |page|
    && forall i :: 0 <= i < |cells| ==> PointerHolds(page, pointers + 2 * i, content, cells[i])
  }

  ghost predicate LeafHolds(image: Image, number: nat, cells: seq<nat>, content: nat, rows: seq<Row>)
    requires image.Valid() && InRange(image, number)
  {
    var page := PageAt(image, number);
    && FrameHolds(page, number, LEAF_PAGE, cells, content) && |rows| == |cells|
    && forall i :: 0 <= i < |rows| ==> CellHolds(image, page, cells[i], rows[i])
  }

  /** The cells of an interior page: a child and a key, which the probe reads past. */
  ghost predicate ChildHolds(page: seq<byte>, cell: nat, child: nat) {
    HoldsNumber(page, cell, child, 4) && HasVarint(page, cell + 4)
  }

  ghost predicate HasVarint(data: seq<byte>, at: nat) {
    exists v: nat, next: nat :: IsVarint(data, at, |data|, v, next)
  }

  lemma {:induction false} HasVarintIs(data: seq<byte>, at: nat)
    ensures HasVarint(data, at) <==> Decode(data, at, |data|).Some?
  {
    hide IsVarint, Decode;
    if Decode(data, at, |data|).Some? {
      var read := Decode(data, at, |data|).value;
      DecodeIs(data, at, |data|, read.value, read.next);
    }
    forall v: nat, next: nat | IsVarint(data, at, |data|, v, next) ensures Decode(data, at, |data|).Some? {
      DecodeIs(data, at, |data|, v, next);
    }
  }

  /** There is one child more than cells: the right-most one stands in the header. */
  ghost predicate InteriorHolds(image: Image, number: nat, cells: seq<nat>, content: nat, children: seq<nat>)
    requires image.Valid() && InRange(image, number)
  {
    var page := PageAt(image, number);
    && FrameHolds(page, number, INTERIOR_PAGE, cells, content) && |children| == |cells| + 1
    && (forall i :: 0 <= i < |cells| ==> ChildHolds(page, cells[i], children[i]))
    && HoldsNumber(page, HeaderStart(number) + 8, children[|cells|], 4)
  }

  lemma {:induction false} FrameReadsBack(usable: nat, page: seq<byte>, number: nat, kind: byte, cells: seq<nat>,
                                          content: nat)
    requires 480 <= usable <= 65536 && |page| == usable
    requires kind == INTERIOR_PAGE || kind == LEAF_PAGE
    requires FrameHolds(page, number, kind, cells, content)
    ensures FrameAt(usable, page, number)
            == Some(Frame(kind == INTERIOR_PAGE, |cells|, PointersStart(number, kind), content))
  {
    hide HoldsNumber, PointerHolds, FromBigEndian;
    var at := HeaderStart(number);
    NumberIs(page, at + 3, |cells|, 2);
    NumberIs(page, at + 5, content % 65536, 2);
  }

  /** An accepted page header, but for the pointers. */
  lemma {:induction false} FrameIsStored(usable: nat, page: seq<byte>, number: nat)
    requires 480 <= usable <= 65536 && |page| == usable && FrameAt(usable, page, number).Some?
    ensures var frame := FrameAt(usable, page, number).value;
            var kind := if frame.interior then INTERIOR_PAGE else LEAF_PAGE;
            var at := HeaderStart(number);
            && page[at] == kind && frame.pointers == PointersStart(number, kind)
            && HoldsNumber(page, at + 3, frame.count, 2) && HoldsNumber(page, at + 5, frame.content % 65536, 2)
            && frame.pointers + 2 * frame.count <= frame.content <= |page|
  {
    hide HoldsNumber, FromBigEndian;
    var at := HeaderStart(number);
    NumberIs(page, at + 3, FrameAt(usable, page, number).value.count, 2);
    NumberIs(page, at + 5, FrameAt(usable, page, number).value.content % 65536, 2);
  }

  /** What the probe takes from a pointer. */
  lemma {:induction false} PointerIs(page: seq<byte>, frame: Frame, cell: nat, i: nat)
    requires i < frame.count && frame.pointers + 2 * frame.count <= frame.content <= |page|
    ensures Pointer(page, frame, i) == Some(cell) <==> PointerHolds(page, frame.pointers + 2 * i, frame.content, cell)
  {
    hide HoldsNumber, FromBigEndian;
    NumberIs(page, frame.pointers + 2 * i, cell, 2);
  }

  function RecordsOf(rows: seq<Row>): (records: seq<Record>)
    ensures |records| == |rows|
  {
    if rows == [] then [] else RecordsOf(rows[..|rows| - 1]) + [RecordOf(rows[|rows| - 1])]
  }

  lemma {:induction false} RowsReadBack(image: Image, page: seq<byte>, frame: Frame, cells: seq<nat>, rows: seq<Row>,
                                        n: nat)
    requires image.Valid() && |page| == image.usable
    requires n <= frame.count == |cells| == |rows|
    requires frame.pointers + 2 * frame.count <= frame.content <= |page|
    requires forall i :: 0 <= i < |cells| ==> PointerHolds(page, frame.pointers + 2 * i, frame.content, cells[i])
    requires forall i :: 0 <= i < |rows| ==> CellHolds(image, page, cells[i], rows[i])
    ensures RecordPages.Records(image, page, frame, n) == Some(RecordsOf(rows[..n]))
  {
    hide PointerHolds, Pointer, CellHolds, CellAt;
    if n > 0 {
      RowsReadBack(image, page, frame, cells, rows, n - 1);
      PointerIs(page, frame, cells[n - 1], n - 1);
      CellReadsBack(image, page, cells[n - 1], rows[n - 1]);
      assert rows[..n][..n - 1] == rows[..n - 1];
    }
  }

  lemma {:induction false} RecordsAreStored(image: Image, page: seq<byte>, frame: Frame, n: nat)
    returns (cells: seq<nat>, rows: seq<Row>)
    requires image.Valid() && |page| == image.usable && n <= frame.count
    requires frame.pointers + 2 * frame.count <= frame.content <= |page|
    requires RecordPages.Records(image, page, frame, n).Some?
    ensures |cells| == |rows| == n && RecordPages.Records(image, page, frame, n).value == RecordsOf(rows)
    ensures forall i :: 0 <= i < n ==> PointerHolds(page, frame.pointers + 2 * i, frame.content, cells[i])
    ensures forall i :: 0 <= i < n ==> CellHolds(image, page, cells[i], rows[i])
  {
    hide PointerHolds, Pointer, CellHolds, CellAt;
    cells, rows := [], [];
    if n > 0 {
      cells, rows := RecordsAreStored(image, page, frame, n - 1);
      var cell := Pointer(page, frame, n - 1).value;
      PointerIs(page, frame, cell, n - 1);
      var row := CellIsStored(image, page, cell);
      assert (rows + [row])[..n - 1] == rows;
      cells, rows := cells + [cell], rows + [row];
    }
  }

  /** A stored leaf is read as its rows in pointer order. */
  lemma {:induction false} LeafReadsBack(image: Image, number: nat, cells: seq<nat>, content: nat, rows: seq<Row>)
    requires image.Valid() && InRange(image, number) && LeafHolds(image, number, cells, content, rows)
    ensures ParsePage(image, number) == Some(Leaf(RecordsOf(rows)))
  {
    hide FrameAt, PointerHolds, HoldsNumber, CellHolds, PageAt, RecordsOf;
    var page := PageAt(image, number);
    FrameReadsBack(image.usable, page, number, LEAF_PAGE, cells, content);
    var frame := Frame(false, |cells|, PointersStart(number, LEAF_PAGE), content);
    RowsReadBack(image, page, frame, cells, rows, |rows|);
    assert rows[..|rows|] == rows;
  }

  lemma LeafParts(image: Image, number: nat)
    requires image.Valid() && InRange(image, number)
    requires ParsePage(image, number).Some? && ParsePage(image, number).value.Leaf?
    ensures var page := PageAt(image, number);
            && FrameAt(image.usable, page, number).Some?
            && var frame := FrameAt(image.usable, page, number).value;
               && !frame.interior
               && RecordPages.Records(image, page, frame, frame.count) == Some(ParsePage(image, number).value.records)
  {
    hide RecordPages.Records, Children, FrameAt, PageAt;
  }

  lemma {:induction false} LeafIsStored(image: Image, number: nat)
    returns (cells: seq<nat>, content: nat, rows: seq<Row>)
    requires image.Valid() && InRange(image, number)
    requires ParsePage(image, number).Some? && ParsePage(image, number).value.Leaf?
    ensures LeafHolds(image, number, cells, content, rows)
    ensures ParsePage(image, number).value.records == RecordsOf(rows)
  {
    hide FrameAt, PointerHolds, HoldsNumber, CellHolds, PageAt, RecordsOf, ParsePage, RecordPages.Records;
    var page := PageAt(image, number);
    LeafParts(image, number);
    var frame := FrameAt(image.usable, page, number).value;
    FrameIsStored(image.usable, page, number);
    cells, rows := RecordsAreStored(image, page, frame, frame.count);
    content := frame.content;
  }

  lemma {:induction false} ChildIs(page: seq<byte>, cell: nat, child: nat)
    requires cell < |page|
    ensures ChildAt(page, cell) == Some(child) <==> ChildHolds(page, cell, child)
  {
    hide HoldsNumber, FromBigEndian, HasVarint, Decode;
    NumberInside(page, cell, child, 4);
    HasVarintIs(page, cell + 4);
    NothingThere(page, cell + 4);
    if cell + 4 < |page| {
      NumberIs(page, cell, child, 4);
    }
  }

  lemma NothingThere(data: seq<byte>, at: nat)
    ensures at >= |data| ==> Decode(data, at, |data|).None?
  {
  }

  lemma {:induction false} ChildrenReadBack(page: seq<byte>, frame: Frame, cells: seq<nat>, children: seq<nat>, n: nat)
    requires n <= frame.count == |cells| <= |children|
    requires frame.pointers + 2 * frame.count <= frame.content <= |page|
    requires forall i :: 0 <= i < |cells| ==> PointerHolds(page, frame.pointers + 2 * i, frame.content, cells[i])
    requires forall i :: 0 <= i < |cells| ==> ChildHolds(page, cells[i], children[i])
    ensures Children(page, frame, n) == Some(children[..n])
  {
    hide Pointer, ChildHolds, ChildAt, HoldsNumber;
    if n > 0 {
      ChildrenReadBack(page, frame, cells, children, n - 1);
      PointerIs(page, frame, cells[n - 1], n - 1);
      ChildIs(page, cells[n - 1], children[n - 1]);
      assert children[..n] == children[..n - 1] + [children[n - 1]];
    }
  }

  lemma {:induction false} ChildrenAreStored(page: seq<byte>, frame: Frame, n: nat) returns (cells: seq<nat>)
    requires n <= frame.count && frame.pointers + 2 * frame.count <= frame.content <= |page|
    requires Children(page, frame, n).Some?
    ensures |cells| == n
    ensures forall i :: 0 <= i < n ==> PointerHolds(page, frame.pointers + 2 * i, frame.content, cells[i])
    ensures forall i :: 0 <= i < n ==> ChildHolds(page, cells[i], Children(page, frame, n).value[i])
  {
    hide Pointer, ChildHolds, ChildAt, HoldsNumber;
    cells := [];
    if n > 0 {
      cells := ChildrenAreStored(page, frame, n - 1);
      var cell := Pointer(page, frame, n - 1).value;
      PointerIs(page, frame, cell, n - 1);
      ChildIs(page, cell, ChildAt(page, cell).value);
      cells := cells + [cell];
    }
  }

  /** A stored interior page is read as its children, the right-most one last. */
  lemma {:induction false} InteriorReadsBack(image: Image, number: nat, cells: seq<nat>, content: nat,
                                             children: seq<nat>)
    requires image.Valid() && InRange(image, number)
    requires InteriorHolds(image, number, cells, content, children)
    ensures ParsePage(image, number) == Some(Interior(children))
  {
    hide FrameAt, PointerHolds, ChildHolds, PageAt, Children, HoldsNumber, FromBigEndian;
    var page := PageAt(image, number);
    FrameReadsBack(image.usable, page, number, INTERIOR_PAGE, cells, content);
    var frame := Frame(true, |cells|, PointersStart(number, INTERIOR_PAGE), content);
    ChildrenReadBack(page, frame, cells, children, |cells|);
    NumberIs(page, HeaderStart(number) + 8, children[|cells|], 4);
    assert children == children[..|cells|] + [children[|cells|]];
  }

  lemma {:induction false} InteriorIsStored(image: Image, number: nat) returns (cells: seq<nat>, content: nat)
    requires image.Valid() && InRange(image, number)
    requires ParsePage(image, number).Some? && ParsePage(image, number).value.Interior?
    ensures InteriorHolds(image, number, cells, content, ParsePage(image, number).value.children)
  {
    hide FrameAt, PointerHolds, ChildHolds, PageAt, HoldsNumber, FromBigEndian, Children;
    var page := PageAt(image, number);
    var frame := FrameAt(image.usable, page, number).value;
    FrameIsStored(image.usable, page, number);
    cells := ChildrenAreStored(page, frame, frame.count);
    content := frame.content;
    var children := ParsePage(image, number).value.children;
    assert children[..|cells|] == Children(page, frame, frame.count).value;
    NumberIs(page, HeaderStart(number) + 8, children[|cells|], 4);
  }

  // ----- trees

  /** A stored b-tree: its pages, where their cells are, and what they hold. */
  datatype Stored =
    | StoredLeaf(page: nat, cells: seq<nat>, content: nat, rows: seq<Row>)
    | StoredInterior(page: nat, cells: seq<nat>, content: nat, children: seq<Stored>)

  function Pages(forest: seq<Stored>): (pages: seq<nat>)
    ensures |pages| == |forest|
  {
    if forest == [] then [] else [forest[0].page] + Pages(forest[1..])
  }

  ghost predicate LaidOut(image: Image, t: Stored)
    requires image.Valid()
    decreases t, 1
  {
    InRange(image, t.page) &&
    match t
    case StoredLeaf(page, cells, content, rows) => LeafHolds(image, page, cells, content, rows)
    case StoredInterior(page, cells, content, children) =>
      InteriorHolds(image, page, cells, content, Pages(children)) && AllLaidOut(image, children)
  }

  ghost predicate AllLaidOut(image: Image, forest: seq<Stored>)
    requires image.Valid()
    decreases forest, 0
  {
    forest == [] || (LaidOut(image, forest[0]) && AllLaidOut(image, forest[1..]))
  }

  /** The rows of the leaves, left to right. */
  function Rows(t: Stored): seq<Row>
    decreases t, 1
  {
    match t
    case StoredLeaf(_, _, _, rows) => rows
    case StoredInterior(_, _, _, children) => AllRows(children)
  }

  function AllRows(forest: seq<Stored>): seq<Row>
    decreases forest, 0
  {
    if forest == [] then [] else Rows(forest[0]) + AllRows(forest[1..])
  }

  /** Every table and overflow page of the tree. */
  function PagesUsed(t: Stored): seq<nat>
    decreases t, 1
  {
    match t
    case StoredLeaf(page, _, _, rows) => [page] + ChainPages(rows)
    case StoredInterior(page, _, _, children) => [page] + AllPagesUsed(children)
  }

  function AllPagesUsed(forest: seq<Stored>): seq<nat>
    decreases forest, 0
  {
    if forest == [] then [] else PagesUsed(forest[0]) + AllPagesUsed(forest[1..])
  }

  function ChainPages(rows: seq<Row>): seq<nat> {
    if rows == [] then [] else ChainPages(rows[..|rows| - 1]) + rows[|rows| - 1].chain
  }

  ghost predicate NoneTwice(pages: seq<nat>) {
    forall i, j :: 0 <= i < j < |pages| ==> pages[i] != pages[j]
  }

  /** The tree without the places of its cells. */
  function Shape(t: Stored): (shape: Tree)
    ensures shape.page == t.page
    decreases t, 1
  {
    match t
    case StoredLeaf(page, _, _, rows) => LeafPage(page, RecordsOf(rows))
    case StoredInterior(page, _, _, children) => InteriorPage(page, Shapes(children))
  }

  function Shapes(forest: seq<Stored>): (shapes: seq<Tree>)
    ensures Roots(shapes) == Pages(forest)
    decreases forest, 0
  {
    if forest == [] then [] else [Shape(forest[0])] + Shapes(forest[1..])
  }

  lemma {:induction false} RecordsAppend(a: seq<Row>, b: seq<Row>)
    ensures RecordsOf(a + b) == RecordsOf(a) + RecordsOf(b)
  {
    if b == [] {
      assert a + b == a;
    } else {
      assert (a + b)[..|a + b| - 1] == a + b[..|b| - 1];
      RecordsAppend(a, b[..|b| - 1]);
    }
  }

  lemma {:induction false} SameChains(rows: seq<Row>)
    ensures ChainPages(rows) == Chains(RecordsOf(rows))
  {
    if rows != [] {
      SameChains(rows[..|rows| - 1]);
      var records := RecordsOf(rows);
      assert records[..|records| - 1] == RecordsOf(rows[..|rows| - 1]);
    }
  }

  lemma {:induction false} SameOwned(t: Stored)
    ensures PagesUsed(t) == Owned(Shape(t))
    decreases t, 1
  {
    match t
    case StoredLeaf(_, _, _, rows) => SameChains(rows);
    case StoredInterior(_, _, _, children) => AllSameOwned(children);
  }

  lemma {:induction false} AllSameOwned(forest: seq<Stored>)
    ensures AllPagesUsed(forest) == OwnedAll(Shapes(forest))
    decreases forest, 0
  {
    hide PagesUsed, Owned;
    if forest != [] {
      SameOwned(forest[0]);
      AllSameOwned(forest[1..]);
      assert Shapes(forest)[1..] == Shapes(forest[1..]);
    }
  }

  lemma {:induction false} FreshIsNoneTwice(pages: seq<nat>)
    ensures Fresh(pages, {}) <==> NoneTwice(pages)
  {
    if pages != [] {
      var rest := pages[..|pages| - 1];
      FreshIsNoneTwice(rest);
      if NoneTwice(pages) {
        forall i, j | 0 <= i < j < |rest| ensures rest[i] != rest[j] {
          assert pages[i] != pages[j];
        }
        forall i | 0 <= i < |rest| ensures rest[i] != pages[|pages| - 1] {
          assert pages[i] != pages[|pages| - 1];
        }
      }
      if NoneTwice(rest) && pages[|pages| - 1] !in rest {
        forall i, j | 0 <= i < j < |pages| ensures pages[i] != pages[j] {
          assert pages[i] in rest && (j < |rest| ==> rest[i] != rest[j]);
        }
      }
    }
  }

  /** A laid out tree is a tree the pages encode, with the same rows in order. */
  lemma {:induction false} LaidOutEncodes(image: Image, t: Stored)
    requires image.Valid() && LaidOut(image, t)
    ensures Encodes(image, Shape(t)) && InOrder(Shape(t)) == RecordsOf(Rows(t))
    decreases t, 1
  {
    hide LeafHolds, InteriorHolds, ParsePage, InRange, RecordsOf;
    match t
    case StoredLeaf(page, cells, content, rows) => LeafReadsBack(image, page, cells, content, rows);
    case StoredInterior(page, cells, content, children) =>
      InteriorReadsBack(image, page, cells, content, Pages(children));
      AllLaidOutEncode(image, children);
  }

  lemma {:induction false} AllLaidOutEncode(image: Image, forest: seq<Stored>)
    requires image.Valid() && AllLaidOut(image, forest)
    ensures EncodesAll(image, Shapes(forest)) && InOrderAll(Shapes(forest)) == RecordsOf(AllRows(forest))
    decreases forest, 0
  {
    hide LaidOut, Encodes;
    if forest != [] {
      LaidOutEncodes(image, forest[0]);
      AllLaidOutEncode(image, forest[1..]);
      RecordsAppend(Rows(forest[0]), AllRows(forest[1..]));
      assert Shapes(forest)[1..] == Shapes(forest[1..]);
    }
  }

  /** Every tree the pages encode is laid out in them. */
  lemma {:induction false} EncodedIsLaidOut(image: Image, shape: Tree) returns (t: Stored)
    requires image.Valid() && Encodes(image, shape)
    ensures LaidOut(image, t) && Shape(t) == shape
    decreases shape, 1
  {
    hide LeafHolds, InteriorHolds, ParsePage, InRange, RecordsOf;
    match shape
    case LeafPage(page, records) => {
      var cells, content, rows := LeafIsStored(image, page);
      t := StoredLeaf(page, cells, content, rows);
    }
    case InteriorPage(page, children) => {
      var cells, content := InteriorIsStored(image, page);
      var below := AllEncodedAreLaidOut(image, children);
      t := StoredInterior(page, cells, content, below);
    }
  }

  lemma {:induction false} AllEncodedAreLaidOut(image: Image, shapes: seq<Tree>) returns (forest: seq<Stored>)
    requires image.Valid() && EncodesAll(image, shapes)
    ensures AllLaidOut(image, forest) && Shapes(forest) == shapes
    decreases shapes, 0
  {
    hide LaidOut, Encodes;
    forest := [];
    if shapes != [] {
      var first := EncodedIsLaidOut(image, shapes[0]);
      var rest := AllEncodedAreLaidOut(image, shapes[1..]);
      forest := [first] + rest;
      assert forest[1..] == rest;
    }
  }

  ghost predicate RowidsIncrease(rows: seq<Row>) {
    forall i, j :: 0 <= i < j < |rows| ==> rows[i].rowid < rows[j].rowid
  }

  lemma {:induction false} RecordsOfAt(rows: seq<Row>, i: nat)
    requires i < |rows|
    ensures RecordsOf(rows)[i] == RecordOf(rows[i])
  {
    if i < |rows| - 1 {
      RecordsOfAt(rows[..|rows| - 1], i);
    }
  }

  /** A table stored from this page on: laid out, no page used twice, rowids rising. */
  ghost predicate IsTable(image: Image, t: Stored)
    requires image.Valid()
  {
    LaidOut(image, t) && NoneTwice(PagesUsed(t)) && RowidsIncrease(Rows(t))
  }

  /** The probe of a stored table: with no page used twice it accepts exactly the
      increasing rowids, whatever the file holds elsewhere, and counts every row. */
  lemma {:induction false} StoredTable(image: Image, t: Stored)
    requires image.Valid() && LaidOut(image, t) && NoneTwice(PagesUsed(t))
    ensures Walk(image, [t.page], START).Some? <==> RowidsIncrease(Rows(t))
    ensures RowidsIncrease(Rows(t)) ==>
              var layout := Walk(image, [t.page], START).value.layout;
              && layout.rows == |Rows(t)|
              && layout == CountAll(NO_LAYOUT, RecordsOf(Rows(t))).(tablePages := PageCount(Shape(t)))
  {
    hide Walk, Encodes, Owned, InOrder, Fresh, CountAll, LaidOut, Rows, PageCount, RecordsOf, PagesUsed, NoneTwice;
    LaidOutEncodes(image, t);
    SameOwned(t);
    FreshIsNoneTwice(PagesUsed(t));
    WalkIsInOrder(image, Shape(t));
    CountsMean(RecordsOf(Rows(t)));
    SameOrder(Rows(t));
  }

  lemma {:induction false} SameOrder(rows: seq<Row>)
    ensures StrictlyIncreasing(RecordsOf(rows)) <==> RowidsIncrease(rows)
  {
    hide RecordsOf;
    forall i | 0 <= i < |rows| ensures RecordsOf(rows)[i].rowid == rows[i].rowid {
      RecordsOfAt(rows, i);
    }
  }

  /** The walk accepts the tables of the format, and nothing else. */
  lemma {:induction false} WalkAcceptsTables(image: Image, root: nat)
    requires image.Valid()
    ensures Walk(image, [root], START).Some? <==> exists t: Stored :: t.page == root && IsTable(image, t)
  {
    hide Walk, Encodes, Owned, InOrder, Fresh, LaidOut, Rows, RecordsOf, PagesUsed, NoneTwice, StrictlyIncreasing,
         RowidsIncrease;
    WalkAcceptsTrees(image, root);
    if Walk(image, [root], START).Some? {
      var shape: Tree :| shape.page == root && WellFormed(image, shape) && StrictlyIncreasing(InOrder(shape));
      var t := EncodedIsLaidOut(image, shape);
      LaidOutEncodes(image, t);
      SameOwned(t);
      FreshIsNoneTwice(PagesUsed(t));
      SameOrder(Rows(t));
      assert t.page == root && IsTable(image, t);
    }
    forall t: Stored | t.page == root && IsTable(image, t) ensures Walk(image, [root], START).Some? {
      StoredTable(image, t);
    }
  }

  // ----- the database header

  function Doubled(k: nat): (size: nat)
    ensures size >= 512
  {
    if k == 0 then 512 else 2 * Doubled(k - 1)
  }

  /** The header of section 1.3: the magic text, a page size that is a power of two from
      512 on (65536 is stored as 1), whole pages, and at least 480 usable bytes in each. */
  ghost predicate IsDatabase(bytes: seq<byte>, size: nat, usable: nat) {
    && |bytes| >= 100 && (forall k :: 0 <= k < 15 ==> bytes[k] == "SQLite format 3"[k] as int) && bytes[15] == 0
    && PowerOfTwo(size)
    && HoldsNumber(bytes, 16, if size == 65536 then 1 else size, 2)
    && |bytes| % size == 0 && usable == size - bytes[20] && usable >= 480
  }

  lemma Doublings()
    ensures Doubled(0) == 512 && Doubled(1) == 1024 && Doubled(2) == 2048 && Doubled(3) == 4096
    ensures Doubled(4) == 8192 && Doubled(5) == 16384 && Doubled(6) == 32768 && Doubled(7) == 65536
  {
    assert Doubled(3) == 4096;
  }

  ghost predicate PowerOfTwo(size: nat) {
    exists k: nat :: k <= 7 && size == Doubled(k)
  }

  lemma {:induction false} PageSizes(size: nat)
    ensures IsPageSize(size) <==> PowerOfTwo(size)
    ensures IsPageSize(size) ==> 512 <= size <= 65536
  {
    Doublings();
    hide Doubled;
    if IsPageSize(size) {
      var k: nat :| k <= 7 && size == Doubled(k);
    }
    forall k: nat | k <= 7 && size == Doubled(k) ensures IsPageSize(size) {
      assert k == 0 || k == 1 || k == 2 || k == 3 || k == 4 || k == 5 || k == 6 || k == 7;
    }
  }

  lemma MagicText(bytes: seq<byte>)
    requires |bytes| >= 100
    ensures bytes[..16] == MAGIC
            <==> (forall k :: 0 <= k < 15 ==> bytes[k] == "SQLite format 3"[k] as int) && bytes[15] == 0
  {
    var text := "SQLite format 3";
    assert forall k :: 0 <= k < 15 ==> MAGIC[k] == text[k] as int;
    if bytes[..16] == MAGIC {
      forall k | 0 <= k < 16 ensures bytes[k] == MAGIC[k] {
        assert bytes[k] == bytes[..16][k];
      }
    }
  }

  /** The page size as the header stores it. */
  lemma {:induction false} StoredSize(bytes: seq<byte>, size: nat)
    requires |bytes| >= 100 && IsPageSize(size)
    ensures HoldsNumber(bytes, 16, if size == 65536 then 1 else size, 2)
            <==> size == if FromBigEndian(bytes[16..18]) == 1 then 65536 else FromBigEndian(bytes[16..18])
  {
    hide HoldsNumber, FromBigEndian;
    PageSizes(size);
    ShortNumbers();
    assert FromBigEndian(bytes[16..18]) < Radix(2);
    NumberIs(bytes, 16, if size == 65536 then 1 else size, 2);
  }

  /** Exactly the databases are opened, with their page size and usable size. */
  lemma {:induction false} OpensDatabases(bytes: seq<byte>, image: Image)
    ensures OpenImage(bytes) == Some(image) <==>
            && IsDatabase(bytes, image.size, image.usable)
            && image == Image(bytes, image.size, image.usable, |bytes| / image.size)
  {
    hide HoldsNumber, FromBigEndian, IsPageSize, PowerOfTwo, Image.Valid;
    if |bytes| >= 100 {
      MagicText(bytes);
      var stored := FromBigEndian(bytes[16..18]);
      var size := if stored == 1 then 65536 else stored;
      PageSizes(image.size);
      PageSizes(size);
      if IsPageSize(image.size) {
        StoredSize(bytes, image.size);
      }
      if IsPageSize(size) {
        StoredSize(bytes, size);
      }
    }
  }

  /** Page `number` is the `number`-th stretch of the file, without its reserved end. */
  lemma {:induction false} PageBytes(image: Image, number: nat, k: nat)
    requires image.Valid() && InRange(image, number) && k < image.usable
    ensures image.size * (number - 1) + k < |image.bytes|
    ensures PageAt(image, number)[k] == image.bytes[image.size * (number - 1) + k]
  {
    PageInside(image, number);
    assert (number - 1) * image.size == image.size * (number - 1);
  }

  // ----- a file

  function Zeros(n: nat): (bytes: seq<byte>)
    ensures |bytes| == n
  {
    seq(n, i => 0)
  }

  /** A row with one NULL field. */
  const ROW := Row(1, [2, 0], [0], [])

  const LEAF: seq<byte> := [13, 0, 0, 0, 1, 1, 252, 0, 1, 252] + Zeros(498) + [2, 1, 2, 0]

  /** Two pages of 512 bytes, the second a leaf with that row at its end. */
  const FILE: seq<byte> := MAGIC + [2, 0] + Zeros(494) + LEAF

  const TABLE := StoredLeaf(2, [508], 508, [ROW])

  lemma {:induction false} SmallFileOpens()
    ensures OpenImage(FILE) == Some(Image(FILE, 512, 512, 2))
    ensures PageAt(Image(FILE, 512, 512, 2), 2) == LEAF
  {
    assert |MAGIC + [2, 0] + Zeros(494)| == 512;
    assert FILE[..16] == MAGIC;
    assert FILE[16..18] == [2, 0];
    assert FromBigEndian([2, 0]) == 512 by {
      assert [2, 0][..1] == [2];
      assert FromBigEndian([2]) == 2;
    }
    assert FILE[20] == 0;
    assert FILE[512..1024] == LEAF;
  }

  lemma {:induction false} ByteIsVarint(data: seq<byte>, at: nat)
    requires at < |data| && data[at] < 128
    ensures IsVarint(data, at, |data|, data[at], at + 1)
  {
    assert Bits(data, at, 1) == 128 * Bits(data, at, 0) + data[at];
  }

  lemma {:induction false} SmallRecord()
    ensures IsRecord([2, 0], [0], 2)
  {
    var header: seq<byte> := [2, 0];
    assert header[..2] == header;
    ByteIsVarint(header, 0);
    ByteIsVarint(header, 1);
    assert SerialsAt(header, 2, []);
    assert SerialsAt(header, 1, [0]) by { assert [0][1..] == []; }
    assert IsHeader(header, [0]);
    assert BodySize([0]) == 0;
  }

  lemma {:induction false} ShortNumbers()
    ensures BigEndian(1, 2) == [0, 1] && BigEndian(508, 2) == [1, 252] && Radix(2) == 65536
  {
    assert BigEndian(0, 1) == [0] && BigEndian(1, 1) == [1];
  }

  lemma {:induction false} SmallLeaf(image: Image)
    requires image == Image(FILE, 512, 512, 2) && image.Valid() && PageAt(image, 2) == LEAF
    ensures LaidOut(image, TABLE)
  {
    hide BigEndian, Radix, PageAt, IsRecord, IsVarint;
    SmallRecord();
    ShortNumbers();
    ByteIsVarint(LEAF, 508);
    ByteIsVarint(LEAF, 509);
    assert CellParts(image, LEAF, 508, ROW, 2, 509, 510, 2);
    assert PointerHolds(LEAF, 8, 508, 508);
    assert FrameHolds(LEAF, 2, LEAF_PAGE, [508], 508);
  }

  /** The format is not empty: this file is one, and the probe reads its row. */
  lemma {:induction false} SmallTable()
    ensures OpenImage(FILE).Some?
    ensures var image := OpenImage(FILE).value;
            && IsTable(image, TABLE)
            && Walk(image, [2], START).Some? && Walk(image, [2], START).value.layout.rows == 1
  {
    hide Walk, OpenImage, LaidOut;
    SmallFileOpens();
    var image := Image(FILE, 512, 512, 2);
    SmallLeaf(image);
    assert ChainPages([ROW]) == ChainPages([ROW][..0]) + [];
    assert PagesUsed(TABLE) == [2];
    StoredTable(image, TABLE);
  }
}
