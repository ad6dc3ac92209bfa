/** The pages of a SQLite file as the layout probe reads them, and the stored
    records of a table leaf: header, overflow chain, field count.

    Nothing here looks at page bookkeeping: `CellAt` says what one cell holds, and
    `ParsePage` what one page holds, whoever reads them and in whatever order.
 */
module RecordPages {
  import opened Sql
  import opened Bytes
  import opened Varint
  import opened Spill

  const MESSAGE_COLUMNS := 13
  const MAX_HEADER := 9 * (MESSAGE_COLUMNS + 1)
  const MAGIC: seq<byte> := [83, 81, 76, 105, 116, 101, 32, 102, 111, 114, 109, 97, 116, 32, 51, 0]

  /** A file of `count` pages of `size` bytes each, `usable` of them used. */
  datatype Image = Image(bytes: seq<byte>, size: nat, usable: nat, count: nat)
  {
    ghost predicate Valid() {
      480 <= usable <= size <= 65536 && Whole()
    }

    ghost predicate Whole() {
      |bytes| == size * count
    }
  }

  predicate IsPageSize(size: nat) {
    size == 512 || size == 1024 || size == 2048 || size == 4096 || size == 8192
    || size == 16384 || size == 32768 || size == 65536
  }

  /** The checks of the 100-byte database header. */
  function OpenImage(bytes: seq<byte>): (r: Option<Image>)
    ensures r.Some? ==> r.value.Valid() && r.value.bytes == bytes && |bytes| >= 100
  {
    if |bytes| < 100 || bytes[..16] != MAGIC then None
    else
      var stored := FromBigEndian(bytes[16..18]);
      var size := if stored == 1 then 65536 else stored;
      if !IsPageSize(size) || |bytes| % size != 0 then None
      else if size - bytes[20] < 480 then None
      else Some(Image(bytes, size, size - bytes[20], |bytes| / size))
  }

  predicate InRange(image: Image, number: nat) {
    1 <= number <= image.count
  }

  /** The usable bytes of a page in the file. */
  function PageAt(image: Image, number: nat): (page: seq<byte>)
    requires image.Valid() && InRange(image, number)
    ensures |page| == image.usable
  {
    PageInside(image, number);
    var start := (number - 1) * image.size;
    image.bytes[start..start + image.usable]
  }

  lemma PageInside(image: Image, number: nat)
    requires image.Valid() && InRange(image, number)
    ensures 0 <= (number - 1) * image.size && (number - 1) * image.size + image.usable <= |image.bytes|
  {
    assert (number - 1) * image.size + image.size + (image.count - number) * image.size == image.size * image.count;
  }

  function U16(page: seq<byte>, at: nat): (n: nat)
    requires at + 2 <= |page|
    ensures n < 0x1_0000
  {
    assert Radix(2) == 0x1_0000;
    FromBigEndian(page[at..at + 2])
  }

  function U32(page: seq<byte>, at: nat): nat
    requires at + 4 <= |page|
  {
    FromBigEndian(page[at..at + 4])
  }

  // ----- overflow chains

  /** The pages of a chain in reading order, the payload bytes they carry, and the
      pointer found on the last one. */
  datatype Chain = Chain(pages: seq<nat>, content: seq<byte>, last: nat)

  function FollowChain(image: Image, next: nat, remaining: nat): (chain: Option<Chain>)
    requires image.Valid()
    ensures chain.Some? ==>
              && |chain.value.content| == remaining
              && |chain.value.pages| == PagesFor(remaining, image.usable - 4)
              && forall p :: p in chain.value.pages ==> InRange(image, p)
    decreases remaining
  {
    if remaining == 0 then Some(Chain([], [], next))
    else if !InRange(image, next) then None
    else
      var block := PageAt(image, next);
      var take := if remaining <= image.usable - 4 then remaining else image.usable - 4;
      var rest := FollowChain(image, U32(block, 0), remaining - take);
      if rest.None? then None
      else Some(Chain([next] + rest.value.pages, block[4..4 + take] + rest.value.content, rest.value.last))
  }

  // ----- records

  datatype Record = Record(rowid: int, fields: nat, chain: seq<nat>)

  datatype Fields = Fields(count: nat, bodySize: nat)

  function SerialSize(serial: nat): nat
    requires serial != 10 && serial != 11
  {
    if serial < 10 then [0, 1, 2, 3, 4, 6, 8, 8, 0, 0][serial] else (serial - 12) / 2
  }

  /** The serial types of a record header; types 10 and 11 are reserved. */
  function ParseFields(record: seq<byte>, position: nat, limit: nat, so_far: Fields): Option<Fields>
    requires limit <= |record|
    decreases limit - position
  {
    if position >= limit then Some(so_far)
    else
      var serial := Decode(record, position, limit);
      if serial.None? || serial.value.value == 10 || serial.value.value == 11 then None
      else ParseFields(record, serial.value.next, limit,
                       Fields(so_far.count + 1, so_far.bodySize + SerialSize(serial.value.value)))
  }

  /** The fields of a header of `headerSize` bytes for a payload of `payload`. */
  function FieldCount(header: seq<byte>, payload: nat): Option<nat> {
    var size := Decode(header, 0, |header|);
    if size.None? then None
    else
      var fields := ParseFields(header, size.value.next, |header|, Fields(0, 0));
      if fields.None? || !(1 <= fields.value.count <= MESSAGE_COLUMNS)
         || |header| + fields.value.bodySize != payload then None
      else Some(fields.value.count)
  }

  /** The two leading varints of a leaf cell and what they lay out. */
  datatype CellHead = CellHead(payload: nat, rowid: int, start: nat, end: nat, headerSize: nat)

  function HeadAt(usable: nat, page: seq<byte>, cell: nat): (head: Option<CellHead>)
    requires usable >= 480 && |page| == usable
    ensures head.Some? ==>
              var h := head.value;
              && h.start <= h.end && h.end - h.start == LocalSize(usable, h.payload) <= h.payload
              && h.end + (if h.end - h.start < h.payload then 4 else 0) <= usable
              && 1 <= h.headerSize <= h.payload && h.headerSize <= MAX_HEADER
  {
    var payload := Decode(page, cell, usable);
    if payload.None? then None
    else
      var rowid := Decode(page, payload.value.next, usable);
      if rowid.None? then None
      else
        LocalSizeBounds(usable, payload.value.value);
        var start := rowid.value.next;
        var end := start + LocalSize(usable, payload.value.value);
        if end + (if end - start < payload.value.value then 4 else 0) > usable then None
        else
          var size := Decode(page, start, end);
          if size.None? || !(1 <= size.value.value <= payload.value.value) || size.value.value > MAX_HEADER then None
          else Some(CellHead(payload.value.value, Signed(rowid.value.value), start, end, size.value.value))
  }

  /** The reassembled payload: the local part, then the overflow content. */
  function PayloadAt(image: Image, page: seq<byte>, head: CellHead): (payload: Option<Chain>)
    requires image.Valid() && |page| == image.usable
    requires head.start <= head.end <= image.usable && head.end - head.start <= head.payload
    requires head.end - head.start < head.payload ==> head.end + 4 <= image.usable
    ensures payload.Some? ==> |payload.value.content| == head.payload
  {
    var remaining := head.payload - (head.end - head.start);
    var chain := FollowChain(image, if remaining > 0 then U32(page, head.end) else 0, remaining);
    if chain.None? then None
    else Some(chain.value.(content := page[head.start..head.end] + chain.value.content))
  }

  /** What one leaf cell holds, if it holds a well-formed message record. */
  function CellAt(image: Image, page: seq<byte>, cell: nat): (record: Option<Record>)
    requires image.Valid() && |page| == image.usable
  {
    var head := HeadAt(image.usable, page, cell);
    if head.None? then None
    else
      var payload := PayloadAt(image, page, head.value);
      if payload.None? || payload.value.last != 0 then None
      else
        var fields := FieldCount(payload.value.content[..head.value.headerSize], head.value.payload);
        if fields.None? then None else Some(Record(head.value.rowid, fields.value, payload.value.pages))
  }

  // ----- pages

  datatype Content = Interior(children: seq<nat>) | Leaf(records: seq<Record>)

  /** The page header: kind, cell count, first cell pointer, start of the content. */
  datatype Frame = Frame(interior: bool, count: nat, pointers: nat, content: nat)

  function FrameAt(usable: nat, page: seq<byte>, number: nat): (frame: Option<Frame>)
    requires usable >= 480 && |page| == usable
    ensures frame.Some? ==> frame.value.pointers + 2 * frame.value.count <= frame.value.content <= usable
  {
    var start := if number == 1 then 100 else 0;
    if page[start] != 5 && page[start] != 13 then None
    else
      var count := U16(page, start + 3);
      var pointers := start + if page[start] == 5 then 12 else 8;
      var stored := U16(page, start + 5);
      var content := if stored == 0 then 65536 else stored;
      if pointers + 2 * count <= content <= usable
      then Some(Frame(page[start] == 5, count, pointers, content))
      else None
  }

  /** Cell pointer number `index`, which must lie in the content area. */
  function Pointer(page: seq<byte>, frame: Frame, index: nat): Option<nat>
    requires index < frame.count && frame.pointers + 2 * frame.count <= frame.content <= |page|
  {
    var cell := U16(page, frame.pointers + 2 * index);
    if frame.content <= cell < |page| then Some(cell) else None
  }

  /** The child pointer of an interior cell; its key must be a varint. */
  function ChildAt(page: seq<byte>, cell: nat): Option<nat>
    requires cell < |page|
  {
    if cell + 4 >= |page| || Decode(page, cell + 4, |page|).None? then None else Some(U32(page, cell))
  }

  function Children(page: seq<byte>, frame: Frame, n: nat): (children: Option<seq<nat>>)
    requires n <= frame.count && frame.pointers + 2 * frame.count <= frame.content <= |page|
    ensures children.Some? ==> |children.value| == n
  {
    if n == 0 then Some([])
    else
      var before := Children(page, frame, n - 1);
      var cell := Pointer(page, frame, n - 1);
      if before.None? || cell.None? then None
      else
        var child := ChildAt(page, cell.value);
        if child.None? then None else Some(before.value + [child.value])
  }

  function Records(image: Image, page: seq<byte>, frame: Frame, n: nat): (records: Option<seq<Record>>)
    requires image.Valid() && |page| == image.usable
    requires n <= frame.count && frame.pointers + 2 * frame.count <= frame.content <= |page|
    ensures records.Some? ==> |records.value| == n
  {
    if n == 0 then Some([])
    else
      var before := Records(image, page, frame, n - 1);
      var cell := Pointer(page, frame, n - 1);
      if before.None? || cell.None? then None
      else
        var record := CellAt(image, page, cell.value);
        if record.None? then None else Some(before.value + [record.value])
  }

  function ParsePage(image: Image, number: nat): Option<Content>
    requires image.Valid() && InRange(image, number)
  {
    var page := PageAt(image, number);
    var frame := FrameAt(image.usable, page, number);
    if frame.None? then None
    else if frame.value.interior then
      var children := Children(page, frame.value, frame.value.count);
      if children.None? then None
      else Some(Interior(children.value + [U32(page, (if number == 1 then 100 else 0) + 8)]))
    else
      var records := Records(image, page, frame.value, frame.value.count);
      if records.None? then None else Some(Leaf(records.value))
  }
}
