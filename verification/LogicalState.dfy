/** The byte streams hashed to compare whole databases before and after a repair.

    Each stream is a sequence of tagged, length-framed fields. What is proved here
    is that no two different databases share their streams; SHA-256 itself is
    replaced by the stream it is fed.
 */
module LogicalState {
  import opened Bytes
  import opened Varint
  import opened Schema
  import opened Sql

  /** A Unicode scalar value. */
  type Scalar = c: int | 0 <= c < 0x11_0000 && !(0xD800 <= c < 0xE000)

  /** The five storage classes; a REAL is its eight IEEE bytes. */
  datatype Value =
    | Null
    | Integer(n: Int64)
    | Real(bits: seq<byte>)
    | Text(chars: seq<Scalar>)
    | Blob(bytes: seq<byte>)

  /** The framing needs a 64-bit length, and a REAL has eight bytes. */
  predicate Storable(v: Value) {
    (v.Real? ==> |v.bits| == 8) && |Payload(v)| < TWO_64
  }

  // ----- UTF-8

  function EncodeScalar(c: Scalar): (bytes: seq<byte>)
    ensures 1 <= |bytes| <= 4
  {
    if c < 0x80 then [c]
    else if c < 0x800 then [0xC0 + c / 0x40, 0x80 + c % 0x40]
    else if c < 0x1_0000 then [0xE0 + c / 0x40 / 0x40, 0x80 + c / 0x40 % 0x40, 0x80 + c % 0x40]
    else [0xF0 + c / 0x40 / 0x40 / 0x40, 0x80 + c / 0x40 / 0x40 % 0x40, 0x80 + c / 0x40 % 0x40, 0x80 + c % 0x40]
  }

  function Utf8(chars: seq<Scalar>): seq<byte> {
    if chars == [] then [] else EncodeScalar(chars[0]) + Utf8(chars[1..])
  }

  /** The first byte tells the length. */
  lemma {:induction false} ScalarLength(c: Scalar, d: Scalar)
    requires EncodeScalar(c)[0] == EncodeScalar(d)[0]
    ensures |EncodeScalar(c)| == |EncodeScalar(d)|
  {
    assert c < 0x80 <==> EncodeScalar(c)[0] < 0xC0;
    assert d < 0x80 <==> EncodeScalar(d)[0] < 0xC0;
  }

  /** The bits of an encoded scalar, put together again. */
  function Rebuilt(bytes: seq<byte>): int
    requires 1 <= |bytes| <= 4
  {
    var low := (k: nat) => if k < |bytes| then bytes[k] as int - 0x80 else 0;
    if |bytes| == 1 then bytes[0]
    else if |bytes| == 2 then 0x40 * (bytes[0] as int - 0xC0) + low(1)
    else if |bytes| == 3 then 0x40 * (0x40 * (bytes[0] as int - 0xE0) + low(1)) + low(2)
    else 0x40 * (0x40 * (0x40 * (bytes[0] as int - 0xF0) + low(1)) + low(2)) + low(3)
  }

  lemma {:induction false} RebuiltScalar(c: Scalar)
    ensures Rebuilt(EncodeScalar(c)) == c
  {
    var high := c / 0x40;
    var top := high / 0x40;
    assert c == 0x40 * high + c % 0x40;
    assert high == 0x40 * top + high % 0x40;
    assert top == 0x40 * (top / 0x40) + top % 0x40;
  }

  lemma {:induction false} ScalarUnique(c: Scalar, d: Scalar, s: seq<byte>, t: seq<byte>)
    requires EncodeScalar(c) + s == EncodeScalar(d) + t
    ensures c == d && s == t
  {
    hide EncodeScalar;
    var a, b := EncodeScalar(c), EncodeScalar(d);
    var whole := a + s;
    assert a[0] == whole[0] == b[0];
    ScalarLength(c, d);
    assert a == whole[..|a|] == b;
    RebuiltScalar(c);
    RebuiltScalar(d);
    assert s == whole[|a|..] == t;
  }

  lemma {:induction false} Utf8Unique(a: seq<Scalar>, b: seq<Scalar>)
    requires Utf8(a) == Utf8(b)
    ensures a == b
  {
    hide EncodeScalar;
    if a != [] && b != [] {
      ScalarUnique(a[0], b[0], Utf8(a[1..]), Utf8(b[1..]));
      Utf8Unique(a[1..], b[1..]);
    }
  }

  /** The bytes of a scalar by the table of RFC 3629, section 3. */
  ghost predicate IsScalarBytes(bytes: seq<byte>, c: Scalar) {
    if c <= 0x7F then bytes == [c]
    else
      && |bytes| == (if c <= 0x7FF then 2 else if c <= 0xFFFF then 3 else 4)
      && (forall k :: 0 < k < |bytes| ==> 0x80 <= bytes[k] <= 0xBF)
      && var first, second := bytes[0] as int, bytes[1] as int - 128;
         if |bytes| == 2 then 0xC2 <= first <= 0xDF && c == 64 * (first - 192) + second
         else
           var third := bytes[2] as int - 128;
           if |bytes| == 3 then 0xE0 <= first <= 0xEF && c == 4_096 * (first - 224) + 64 * second + third
           else
             var fourth := bytes[3] as int - 128;
             0xF0 <= first <= 0xF4 && c == 262_144 * (first - 240) + 4_096 * second + 64 * third + fourth
  }

  lemma {:induction false} ScalarMeans(c: Scalar)
    ensures IsScalarBytes(EncodeScalar(c), c)
  {
    RebuiltScalar(c);
    var top := c / 0x40 / 0x40;
    assert c == 0x40 * (c / 0x40) + c % 0x40 && c / 0x40 == 0x40 * top + c / 0x40 % 0x40;
    assert top == 0x40 * (top / 0x40) + top % 0x40;
  }

  // ----- one field

  function Tag(v: Value): byte {
    match v
    case Null => 0x4E
    case Integer(_) => 0x49
    case Real(_) => 0x46
    case Text(_) => 0x54
    case Blob(_) => 0x42
  }

  function Payload(v: Value): seq<byte> {
    match v
    case Null => []
    case Integer(n) => BigEndian(Unsigned(n), 8)
    case Real(bits) => bits
    case Text(chars) => Utf8(chars)
    case Blob(bytes) => bytes
  }

  function EncodeField(v: Value): seq<byte> {
    [Tag(v)] + BigEndian(|Payload(v)|, 8) + Payload(v)
  }

  lemma RadixEight()
    ensures Radix(8) == TWO_64
  {
    assert Radix(4) == 0x1_0000_0000;
    assert Radix(6) == 256 * (256 * Radix(4));
    assert Radix(8) == 256 * (256 * Radix(6));
  }

  lemma {:induction false} PayloadUnique(v: Value, w: Value)
    requires Tag(v) == Tag(w) && Payload(v) == Payload(w)
    ensures v == w
  {
    hide Unsigned, Utf8, BigEndian;
    match v
    case Integer(n) =>
      RadixEight();
      TwosComplement(n, 0);
      TwosComplement(w.n, 0);
      BigEndianInjective(Unsigned(n), Unsigned(w.n), 8);
    case Text(chars) => Utf8Unique(chars, w.chars);
    case _ =>
  }

  /** A length-framed block is recovered from any stream it begins. */
  lemma {:induction false} FrameUnique(a: seq<byte>, b: seq<byte>, s: seq<byte>, t: seq<byte>)
    requires |a| < TWO_64 && |b| < TWO_64
    requires BigEndian(|a|, 8) + a + s == BigEndian(|b|, 8) + b + t
    ensures a == b && s == t
  {
    hide BigEndian;
    RadixEight();
    var whole := BigEndian(|a|, 8) + a + s;
    assert BigEndian(|a|, 8) == whole[..8] == BigEndian(|b|, 8);
    BigEndianInjective(|a|, |b|, 8);
    assert a == whole[8..8 + |a|] == b;
    assert s == whole[8 + |a|..] == t;
  }

  /** A field is recovered from any stream it begins: NULL, INTEGER, REAL, TEXT
      and BLOB are never confused. */
  lemma {:induction false} FieldUnique(v: Value, w: Value, s: seq<byte>, t: seq<byte>)
    requires Storable(v) && Storable(w)
    requires EncodeField(v) + s == EncodeField(w) + t
    ensures v == w && s == t
  {
    hide Tag, Payload, BigEndian;
    var whole := EncodeField(v) + s;
    assert Tag(v) == whole[0] == Tag(w);
    assert BigEndian(|Payload(v)|, 8) + Payload(v) + s == whole[1..];
    assert BigEndian(|Payload(w)|, 8) + Payload(w) + t == whole[1..];
    FrameUnique(Payload(v), Payload(w), s, t);
    PayloadUnique(v, w);
  }

  /** The bytes of a text, scalar by scalar. */
  ghost predicate IsUtf8(chars: seq<Scalar>, bytes: seq<byte>) {
    if chars == [] then bytes == []
    else exists n: nat :: n <= |bytes| && StartsUtf8(chars, bytes, n)
  }

  ghost predicate StartsUtf8(chars: seq<Scalar>, bytes: seq<byte>, n: nat)
    requires chars != [] && n <= |bytes|
  {
    IsScalarBytes(bytes[..n], chars[0]) && IsUtf8(chars[1..], bytes[n..])
  }

  /** In words: the kind's letter N, I, F, T or B, eight bytes of length, and the value:
      a number as 64-bit two's complement, high byte first. */
  ghost predicate IsField(v: Value, bytes: seq<byte>) {
    && |bytes| >= 9 && FromBigEndian(bytes[1..9]) == |bytes| - 9
    && match v
       case Null => bytes[0] == 'N' as int && |bytes| == 9
       case Integer(n) =>
         && bytes[0] == 'I' as int && |bytes| == 17
         && FromBigEndian(bytes[9..]) == if n < 0 then n + 18_446_744_073_709_551_616 else n
       case Real(bits) => bytes[0] == 'F' as int && bytes[9..] == bits
       case Text(chars) => bytes[0] == 'T' as int && IsUtf8(chars, bytes[9..])
       case Blob(data) => bytes[0] == 'B' as int && bytes[9..] == data
  }

  lemma {:induction false} Utf8Means(chars: seq<Scalar>)
    ensures IsUtf8(chars, Utf8(chars))
  {
    hide EncodeScalar, IsScalarBytes;
    if chars != [] {
      var bytes, first := Utf8(chars), EncodeScalar(chars[0]);
      ScalarMeans(chars[0]);
      Utf8Means(chars[1..]);
      assert bytes[..|first|] == first && bytes[|first|..] == Utf8(chars[1..]);
      assert StartsUtf8(chars, bytes, |first|);
    }
  }

  lemma {:induction false} FieldMeans(v: Value)
    requires Storable(v)
    ensures IsField(v, EncodeField(v))
  {
    hide BigEndian, FromBigEndian, Utf8, IsUtf8;
    RadixEight();
    var bytes := EncodeField(v);
    BigEndianRoundTrip(|Payload(v)|, 8);
    assert bytes[1..9] == BigEndian(|Payload(v)|, 8) && bytes[9..] == Payload(v);
    match v
    case Integer(n) => BigEndianRoundTrip(Unsigned(n), 8);
    case Text(chars) => Utf8Means(chars);
    case _ =>
  }

  // ----- fields, rows and tables

  type Row = seq<Value>

  predicate AllStorable(row: Row) {
    forall k :: 0 <= k < |row| ==> Storable(row[k])
  }

  function EncodeFields(row: Row): seq<byte> {
    if row == [] then [] else EncodeFields(row[..|row| - 1]) + EncodeField(row[|row| - 1])
  }

  function EncodeRow(row: Row): seq<byte> {
    [0x52] + BigEndian(|row|, 8) + EncodeFields(row)
  }

  function EncodeRows(rows: seq<Row>): seq<byte> {
    if rows == [] then [] else EncodeRows(rows[..|rows| - 1]) + EncodeRow(rows[|rows| - 1])
  }

  predicate RowsStorable(rows: seq<Row>) {
    forall k :: 0 <= k < |rows| ==> |rows[k]| < TWO_64 && AllStorable(rows[k])
  }

  /** In words: the letter R, eight bytes for the number of columns, and the fields. */
  lemma {:induction false} RowMeans(row: Row)
    requires |row| < TWO_64
    ensures var bytes := EncodeRow(row);
            && |bytes| >= 9 && bytes[0] == 'R' as int && FromBigEndian(bytes[1..9]) == |row|
            && bytes[9..] == EncodeFields(row)
  {
    hide BigEndian, FromBigEndian, EncodeFields;
    RadixEight();
    BigEndianRoundTrip(|row|, 8);
    assert EncodeRow(row)[1..9] == BigEndian(|row|, 8);
  }

  lemma {:induction false} FieldsCons(row: Row)
    requires row != []
    ensures EncodeFields(row) == EncodeField(row[0]) + EncodeFields(row[1..])
  {
    hide EncodeField;
    var before, last := row[..|row| - 1], row[|row| - 1];
    if before == [] {
      assert EncodeFields([]) == [];
      assert row[1..] == [];
    } else {
      FieldsCons(before);
      var rest := row[1..];
      assert rest[..|rest| - 1] == before[1..] && rest[|rest| - 1] == last;
      assert EncodeFields(rest) == EncodeFields(before[1..]) + EncodeField(last);
      assert EncodeField(row[0]) + EncodeFields(before[1..]) + EncodeField(last)
             == EncodeField(row[0]) + (EncodeFields(before[1..]) + EncodeField(last));
    }
  }

  lemma {:induction false} RowsCons(rows: seq<Row>)
    requires rows != []
    ensures EncodeRows(rows) == EncodeRow(rows[0]) + EncodeRows(rows[1..])
  {
    hide EncodeRow;
    var before, last := rows[..|rows| - 1], rows[|rows| - 1];
    if before == [] {
      assert EncodeRows([]) == [];
      assert rows[1..] == [];
    } else {
      RowsCons(before);
      var rest := rows[1..];
      assert rest[..|rest| - 1] == before[1..] && rest[|rest| - 1] == last;
      assert EncodeRows(rest) == EncodeRows(before[1..]) + EncodeRow(last);
      assert EncodeRow(rows[0]) + EncodeRows(before[1..]) + EncodeRow(last)
             == EncodeRow(rows[0]) + (EncodeRows(before[1..]) + EncodeRow(last));
    }
  }

  lemma {:induction false} FieldsUnique(a: Row, b: Row, s: seq<byte>, t: seq<byte>)
    requires AllStorable(a) && AllStorable(b) && |a| == |b|
    requires EncodeFields(a) + s == EncodeFields(b) + t
    ensures a == b && s == t
  {
    hide EncodeField, Storable;
    if a == [] {
      assert EncodeFields(a) == [] && EncodeFields(b) == [];
      assert [] + s == s && [] + t == t;
    } else {
      FieldsCons(a);
      FieldsCons(b);
      assert EncodeField(a[0]) + (EncodeFields(a[1..]) + s) == EncodeFields(a) + s;
      assert EncodeField(b[0]) + (EncodeFields(b[1..]) + t) == EncodeFields(b) + t;
      FieldUnique(a[0], b[0], EncodeFields(a[1..]) + s, EncodeFields(b[1..]) + t);
      FieldsUnique(a[1..], b[1..], s, t);
      assert a == [a[0]] + a[1..] && b == [b[0]] + b[1..];
    }
  }

  lemma {:induction false} RowUnique(a: Row, b: Row, s: seq<byte>, t: seq<byte>)
    requires |a| < TWO_64 && |b| < TWO_64 && AllStorable(a) && AllStorable(b)
    requires EncodeRow(a) + s == EncodeRow(b) + t
    ensures a == b && s == t
  {
    hide BigEndian, EncodeFields, AllStorable;
    RadixEight();
    var whole := EncodeRow(a) + s;
    assert BigEndian(|a|, 8) == whole[1..9] == BigEndian(|b|, 8);
    BigEndianInjective(|a|, |b|, 8);
    assert EncodeFields(a) + s == whole[9..] == EncodeFields(b) + t;
    FieldsUnique(a, b, s, t);
  }

  /** Two tables with the same stream have the same rows, in the same order, with
      the same column counts and the same value types. */
  lemma {:induction false} RowsUnique(a: seq<Row>, b: seq<Row>)
    requires RowsStorable(a) && RowsStorable(b)
    requires EncodeRows(a) == EncodeRows(b)
    ensures a == b
  {
    hide EncodeRow, AllStorable;
    if a == [] || b == [] {
      EmptyStream(a);
      EmptyStream(b);
    } else {
      RowsCons(a);
      RowsCons(b);
      RowUnique(a[0], b[0], EncodeRows(a[1..]), EncodeRows(b[1..]));
      RowsUnique(a[1..], b[1..]);
      assert a == [a[0]] + a[1..] && b == [b[0]] + b[1..];
    }
  }

  lemma {:induction false} EmptyStream(rows: seq<Row>)
    ensures EncodeRows(rows) == [] <==> rows == []
  {
    if rows != [] {
      assert |EncodeRow(rows[|rows| - 1])| > 0;
    }
  }

  // ----- the schema stream: fields of four-column rows, without row framing

  function Flat(rows: seq<Row>): Row {
    if rows == [] then [] else Flat(rows[..|rows| - 1]) + rows[|rows| - 1]
  }

  ghost predicate SchemaRows(rows: seq<Row>) {
    forall k :: 0 <= k < |rows| ==> |rows[k]| == 4 && AllStorable(rows[k])
  }

  lemma {:induction false} FieldsAppend(a: Row, b: Row)
    ensures EncodeFields(a + b) == EncodeFields(a) + EncodeFields(b)
  {
    hide EncodeField;
    if b == [] {
      assert a + b == a;
      assert EncodeFields(b) == [];
    } else {
      assert (a + b)[..|a + b| - 1] == a + b[..|b| - 1];
      FieldsAppend(a, b[..|b| - 1]);
    }
  }

  lemma {:induction false} FieldsNonempty(row: Row)
    ensures EncodeFields(row) == [] <==> row == []
  {
  }

  /** Without row framing the column count must be fixed; there it is four. */
  lemma {:induction false} SchemaUnique(a: seq<Row>, b: seq<Row>)
    requires SchemaRows(a) && SchemaRows(b)
    requires EncodeFields(Flat(a)) == EncodeFields(Flat(b))
    ensures a == b
  {
    FlatStorable(a);
    FlatStorable(b);
    StreamUnique(Flat(a), Flat(b));
    FlatUnique(a, b);
  }

  lemma {:induction false} StreamUnique(a: Row, b: Row)
    requires AllStorable(a) && AllStorable(b)
    requires EncodeFields(a) == EncodeFields(b)
    ensures a == b
  {
    hide EncodeField, Storable;
    FieldsNonempty(a);
    FieldsNonempty(b);
    if a != [] && b != [] {
      FieldsCons(a);
      FieldsCons(b);
      FieldUnique(a[0], b[0], EncodeFields(a[1..]), EncodeFields(b[1..]));
      StreamUnique(a[1..], b[1..]);
      assert a == [a[0]] + a[1..] && b == [b[0]] + b[1..];
    }
  }

  lemma {:induction false} FlatStorable(rows: seq<Row>)
    requires SchemaRows(rows)
    ensures AllStorable(Flat(rows)) && |Flat(rows)| == 4 * |rows|
  {
    hide Storable;
    if rows != [] {
      FlatStorable(rows[..|rows| - 1]);
    }
  }

  lemma {:induction false} FlatUnique(a: seq<Row>, b: seq<Row>)
    requires SchemaRows(a) && SchemaRows(b) && Flat(a) == Flat(b)
    ensures a == b
  {
    hide AllStorable;
    FlatStorable(a);
    FlatStorable(b);
    if a != [] {
      var x, y := a[..|a| - 1], b[..|b| - 1];
      FlatStorable(x);
      FlatStorable(y);
      assert Flat(x) == Flat(a)[..4 * |x|] == Flat(y);
      assert a[|a| - 1] == Flat(a)[4 * |x|..] == b[|b| - 1];
      FlatUnique(x, y);
      assert a == x + [a[|a| - 1]] && b == y + [b[|b| - 1]];
    }
  }

  // ----- the whole database

  /** One row of PRAGMA table_xinfo: the folded name, whether the column is hidden or
      generated, and its place in the primary key (0 for none). */
  datatype Column = Column(folded: string, hidden: bool, key: nat)

  /** A table as listed; `rows` are in key order, each with its row identity. */
  datatype Table = Table(kind: string, withoutRowid: bool, columns: seq<Column>, rows: seq<Row>)

  const ROWID_ALIASES: seq<string> := ["_rowid_", "rowid", "oid"]

  predicate HasColumn(columns: seq<Column>, folded: string) {
    exists k :: 0 <= k < |columns| && columns[k].folded == folded
  }

  /** A table whose rows can be listed completely, each with its identity: an
      ordinary one without hidden columns that either has a primary key of its own
      or leaves a rowid alias visible. */
  predicate Listable(t: Table) {
    && t.kind == "table"
    && (forall k :: 0 <= k < |t.columns| ==> !t.columns[k].hidden)
    && (if t.withoutRowid then exists k :: 0 <= k < |t.columns| && t.columns[k].key != 0
        else exists i :: 0 <= i < |ROWID_ALIASES| && !HasColumn(t.columns, ROWID_ALIASES[i]))
  }

  ghost predicate Shadows(columns: seq<Column>, alias: string) {
    exists c :: c in columns && c.folded == alias
  }

  /** In words: not a view or virtual table, nothing hidden, and rows that are told apart
      by a primary key or by one of the three names of the rowid. */
  lemma {:induction false} ListableMeans(t: Table)
    ensures Listable(t) <==>
            && t.kind == "table" && (forall c :: c in t.columns ==> !c.hidden)
            && (t.withoutRowid ==> exists c :: c in t.columns && c.key > 0)
            && (t.withoutRowid || !Shadows(t.columns, "_rowid_") || !Shadows(t.columns, "rowid")
                || !Shadows(t.columns, "oid"))
  {
    assert ROWID_ALIASES[0] == "_rowid_" && ROWID_ALIASES[1] == "rowid" && ROWID_ALIASES[2] == "oid";
    assert forall k :: 0 <= k < |t.columns| ==> t.columns[k] in t.columns;
    forall name ensures HasColumn(t.columns, name) <==> Shadows(t.columns, name) {
      ColumnShadows(t.columns, name);
    }
  }

  lemma ColumnShadows(columns: seq<Column>, name: string)
    ensures HasColumn(columns, name) <==> Shadows(columns, name)
  {
    if HasColumn(columns, name) {
      var k :| 0 <= k < |columns| && columns[k].folded == name;
      assert columns[k] in columns;
    }
  }

  datatype Database = Database(schema: seq<Row>, userVersion: int, applicationId: int, encoding: string,
                               tables: map<string, Table>)

  datatype Fingerprint = Fingerprint(rows: nat, stream: seq<byte>)

  datatype State = State(schema: seq<byte>, userVersion: int, applicationId: int, encoding: string,
                         tables: map<string, Fingerprint>)

  ghost predicate Stored(db: Database) {
    SchemaRows(db.schema) && forall name :: name in db.tables ==> RowsStorable(db.tables[name].rows)
  }

  ghost predicate AllListable(db: Database) {
    forall name :: name in db.tables ==> Listable(db.tables[name])
  }

  function StateOf(db: Database): State {
    State(EncodeFields(Flat(db.schema)), db.userVersion, db.applicationId, db.encoding,
          map name | name in db.tables :: Fingerprint(|db.tables[name].rows|, EncodeRows(db.tables[name].rows)))
  }

  /** What two databases must share: schema, header fields, and every table's rows. */
  ghost predicate SameContents(a: Database, b: Database) {
    && a.schema == b.schema && a.userVersion == b.userVersion && a.applicationId == b.applicationId
    && a.encoding == b.encoding && a.tables.Keys == b.tables.Keys
    && forall name :: name in a.tables ==> a.tables[name].rows == b.tables[name].rows
  }

  /** The equality test before a repair is published compares whole databases. */
  lemma {:induction false} SameStateSameDatabase(a: Database, b: Database)
    requires Stored(a) && Stored(b)
    ensures StateOf(a) == StateOf(b) <==> SameContents(a, b)
  {
    hide RowsStorable, SchemaRows, EncodeFields, EncodeRows, Flat;
    if StateOf(a) == StateOf(b) {
      SchemaUnique(a.schema, b.schema);
      assert a.tables.Keys == StateOf(a).tables.Keys == StateOf(b).tables.Keys == b.tables.Keys;
      forall name | name in a.tables ensures a.tables[name].rows == b.tables[name].rows {
        assert StateOf(a).tables[name] == StateOf(b).tables[name];
        RowsUnique(a.tables[name].rows, b.tables[name].rows);
      }
    }
    if SameContents(a, b) {
      assert StateOf(a).tables == StateOf(b).tables;
    }
  }

  /** A hash object that remembers what it was fed. */
  class Digest {
    var stream: seq<byte>

    constructor ()
      ensures stream == []
    {
      stream := [];
    }

    method Update(bytes: seq<byte>)
      modifies this
      ensures stream == old(stream) + bytes
    {
      stream := stream + bytes;
    }

    method Field(v: Value)
      modifies this
      ensures stream == old(stream) + EncodeField(v)
    {
      hide Tag, Payload, BigEndian;
      Update([Tag(v)]);
      Update(BigEndian(|Payload(v)|, 8));
      Update(Payload(v));
      assert stream == old(stream) + [Tag(v)] + BigEndian(|Payload(v)|, 8) + Payload(v);
    }

    /** Row marker, column count, then the fields. */
    method FeedRow(row: Row)
      modifies this
      ensures stream == old(stream) + EncodeRow(row)
    {
      hide BigEndian, EncodeField;
      Update([0x52] + BigEndian(|row|, 8));
      for k := 0 to |row|
        invariant stream == old(stream) + ([0x52] + BigEndian(|row|, 8) + EncodeFields(row[..k]))
      {
        assert row[..k + 1][..k] == row[..k];
        Field(row[k]);
      }
      assert row[..|row|] == row;
    }

    /** The fields of every row, unframed. */
    method FeedSchema(rows: seq<Row>)
      modifies this
      ensures stream == old(stream) + EncodeFields(Flat(rows))
    {
      hide EncodeField;
      for i := 0 to |rows|
        invariant stream == old(stream) + EncodeFields(Flat(rows[..i]))
      {
        ghost var done := Flat(rows[..i]);
        assert done + rows[i][..0] == done;
        assert rows[..i + 1][..i] == rows[..i];
        for k := 0 to |rows[i]|
          invariant stream == old(stream) + EncodeFields(done + rows[i][..k])
        {
          assert (done + rows[i][..k + 1])[..|done| + k] == done + rows[i][..k];
          Field(rows[i][k]);
        }
        assert rows[i][..|rows[i]|] == rows[i];
      }
      assert rows[..|rows|] == rows;
    }
  }

  method HashTable(rows: seq<Row>) returns (fingerprint: Fingerprint)
    ensures fingerprint == Fingerprint(|rows|, EncodeRows(rows))
  {
    hide EncodeRow;
    var digest := new Digest();
    var count := 0;
    while count < |rows|
      invariant count <= |rows|
      invariant digest.stream == EncodeRows(rows[..count])
    {
      assert rows[..count + 1][..count] == rows[..count];
      digest.FeedRow(rows[count]);
      count := count + 1;
    }
    assert rows[..count] == rows;
    fingerprint := Fingerprint(count, digest.stream);
  }

  /** The first rowid alias that no column shadows. */
  method FirstAlias(columns: seq<Column>) returns (alias: Option<string>)
    ensures alias.Some? <==> exists i :: 0 <= i < |ROWID_ALIASES| && !HasColumn(columns, ROWID_ALIASES[i])
    ensures alias.Some? ==> alias.value in ROWID_ALIASES && !HasColumn(columns, alias.value)
  {
    for i := 0 to |ROWID_ALIASES|
      invariant forall k :: 0 <= k < i ==> HasColumn(columns, ROWID_ALIASES[k])
    {
      if !HasColumn(columns, ROWID_ALIASES[i]) {
        return Some(ROWID_ALIASES[i]);
      }
    }
    alias := None;
  }

  method CheckTable(t: Table) returns (ok: bool)
    ensures ok <==> Listable(t)
  {
    hide HasColumn;
    if t.kind != "table" || exists k :: 0 <= k < |t.columns| && t.columns[k].hidden {
      return false;
    }
    if t.withoutRowid {
      return exists k :: 0 <= k < |t.columns| && t.columns[k].key != 0;
    }
    var alias := FirstAlias(t.columns);
    ok := alias.Some?;
  }

  /** Schema first, then one fingerprint per table in name order; refused when a
      table cannot be listed completely. */
  method LogicalState(db: Database, names: seq<string>) returns (state: Option<State>)
    requires forall name :: name in names <==> name in db.tables
    ensures state == if AllListable(db) then Some(StateOf(db)) else None
  {
    hide EncodeRows, EncodeFields, Flat, Listable;
    var schemaHash := new Digest();
    schemaHash.FeedSchema(db.schema);
    var schema := schemaHash.stream;
    assert schema == EncodeFields(Flat(db.schema));
    var tables: map<string, Fingerprint> := map[];
    for i := 0 to |names|
      invariant forall name :: name in tables <==> name in names[..i]
      invariant forall name :: name in tables ==> Listable(db.tables[name]) && tables[name] == StateOf(db).tables[name]
    {
      assert names[i] in db.tables;
      var ok := CheckTable(db.tables[names[i]]);
      if !ok {
        return None;
      }
      var fingerprint := HashTable(db.tables[names[i]].rows);
      tables := tables[names[i] := fingerprint];
    }
    assert names[..|names|] == names;
    assert tables == StateOf(db).tables;
    state := Some(State(schema, db.userVersion, db.applicationId, db.encoding, tables));
  }
}
