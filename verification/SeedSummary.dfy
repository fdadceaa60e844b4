/**
 * Expected and observed summaries of seed tables (src/d1_migration_seed_rows.rs).
 * Rows are put in order by their JSON bytes; of JSON only its injectivity is used.
 */
module SeedSummary {
  import opened Prelude
  import UpperHex
  import Decimal
  import opened LexOrder
  import opened Sorting
  import opened SeedInsert
  import opened SeedState

  /** One value as it is summarized: its storage class and its text, none for NULL. */
  datatype Cell = Cell(storage: string, value: Option<Bytes>)

  type Json = seq<Cell> -> Bytes

  /** A proof of rows, known by its content. */
  datatype Proof = Proof(version: Version, table: Bytes, columns: seq<Bytes>, rows: seq<seq<Cell>>)

  datatype Summary = Summary(table: Bytes, columns: seq<Bytes>, rowCount: nat, proof: Proof)

  ghost predicate Injective(json: Json) {
    forall a, b :: json(a) == json(b) ==> a == b
  }

  predicate JsonLess(json: Json, a: seq<Cell>, b: seq<Cell>) {
    BytesLess(json(a), json(b))
  }

  function ByJson(json: Json): (seq<Cell>, seq<Cell>) -> bool {
    (a, b) => JsonLess(json, a, b)
  }

  lemma ByJsonStrictTotal(json: Json)
    requires Injective(json)
    ensures StrictTotal(ByJson(json))
  {
    IntStrictTotal();
    LexStrictTotal(IntLess);
    assert StrictTotal(BytesLess) by {
      var lex := (a: seq<int>, b: seq<int>) => LexLess(IntLess, a, b);
      forall a, b ensures BytesLess(a, b) == lex(a, b) {}
    }
  }

  // ---- The expected side ----

  function CellOf(l: Literal): Cell {
    match l
    case Null => Cell("null", None)
    case Text(t) => Cell("text", Some(UpperHex.Encode(t)))
    case Integer(n) => Cell("integer", Some(Decimal.PrintInt(n)))
    case Blob(b) => Cell("blob", Some(UpperHex.Encode(b)))
  }

  function CellsOf(r: Row): (cs: seq<Cell>)
    ensures |cs| == |r|
  {
    if r == [] then [] else [CellOf(r[0])] + CellsOf(r[1..])
  }

  function Summarize(t: TableState, rows: seq<seq<Cell>>): Summary {
    Summary(t.table, t.columns, |rows|, Proof(t.version, t.table, t.columns, rows))
  }

  function ExpectedSummary(json: Json, t: TableState): Summary {
    Summarize(t, Sort(ByJson(json), Map(CellsOf, t.rows)))
  }

  function Map<A, B>(f: A -> B, s: seq<A>): (r: seq<B>)
    ensures |r| == |s|
  {
    if s == [] then [] else [f(s[0])] + Map(f, s[1..])
  }

  // ---- The observed side ----

  datatype JsonValue = JsonNull | JsonString(text: Bytes) | JsonOther

  /** A returned row: an object from field names to values, or something else. */
  datatype Observed = Object(fields: map<Bytes, JsonValue>) | NotObject

  function StorageField(i: nat): Bytes { [116] + Decimal.PrintNat(i) }

  function ValueField(i: nat): Bytes { [118] + Decimal.PrintNat(i) }

  function FieldNames(width: nat): set<Bytes> {
    (set i: nat | i < width :: StorageField(i)) + (set i: nat | i < width :: ValueField(i))
  }

  function StorageText(v: JsonValue): Option<string> {
    match v
    case JsonString(t) =>
      if t == Ascii("null") then Some("null")
      else if t == Ascii("text") then Some("text")
      else if t == Ascii("integer") then Some("integer")
      else if t == Ascii("blob") then Some("blob") else None
    case _ => None
  }

  predicate CanonicalSignedDecimal(t: Bytes) {
    if t != [] && t[0] == 45 then
      t[1..] != [] && t[1..] != Ascii("0") && t[1] != 48 && AllDigits(t[1..]) && Decimal.ParseNat(t[1..]) <= I64_MAX + 1
    else ParseUnsigned(t).Some?
  }

  /** One value, if its field is canonical for its storage class. */
  function ReadCell(version: Version, storage: JsonValue, value: JsonValue): Option<Cell> {
    match StorageText(storage)
    case None => None
    case Some(s) =>
      if s == "null" then (if version.AllowsNull() && value == JsonNull then Some(Cell(s, None)) else None)
      else if s == "integer" then
        (if value.JsonString? && CanonicalSignedDecimal(value.text) then Some(Cell(s, Some(value.text))) else None)
      else if s == "blob" && !version.AllowsBlob() then None
      else if value.JsonString? && |value.text| <= 2 * MAX_SEED_VALUE_BYTES && UpperHex.IsCanonical(value.text)
      then Some(Cell(s, Some(value.text))) else None
  }

  /** The cell of column `i`, if both its fields are there. */
  function FieldCell(version: Version, fields: map<Bytes, JsonValue>, i: nat): Option<Cell> {
    if StorageField(i) !in fields || ValueField(i) !in fields then None
    else ReadCell(version, fields[StorageField(i)], fields[ValueField(i)])
  }

  function FieldReader(version: Version, fields: map<Bytes, JsonValue>): nat -> Option<Cell> {
    (i: nat) => FieldCell(version, fields, i)
  }

  /** The cells of columns `i` up to `width`, unless one of them is missing. */
  function Collect(cell: nat -> Option<Cell>, i: nat, width: nat): Option<seq<Cell>>
    requires i <= width
    decreases width - i
  {
    if i == width then Some([])
    else
      match (cell(i), Collect(cell, i + 1, width))
      case (Some(c), Some(more)) => Some([c] + more)
      case _ => None
  }

  function ReadRow(version: Version, o: Observed, width: nat): Option<seq<Cell>> {
    match o
    case NotObject => None
    case Object(fields) => if fields.Keys != FieldNames(width) then None
      else Collect(FieldReader(version, fields), 0, width)
  }

  /** The cells of all rows, unless some row is malformed. */
  function ReadRows(version: Version, rows: seq<Observed>, width: nat): Option<seq<seq<Cell>>> {
    if rows == [] then Some([])
    else
      match (ReadRows(version, rows[..|rows| - 1], width), ReadRow(version, rows[|rows| - 1], width))
      case (Some(front), Some(last)) => Some(front + [last])
      case _ => None
  }

  datatype SummaryRefusal = RowsExtra | RowMalformed

  function After(cells: seq<Cell>, more: Option<seq<Cell>>): Option<seq<Cell>> {
    match more case None => None case Some(m) => Some(cells + m)
  }

  lemma AfterOneMore(cells: seq<Cell>, c: Cell, more: Option<seq<Cell>>)
    ensures After(cells + [c], more) == After(cells, After([c], more))
    ensures After([], more) == more
  {
    if more.Some? { assert cells + [c] + more.value == cells + ([c] + more.value) && [] + more.value == more.value; }
  }

  /** One row, column by column. */
  method ReadOneRow(version: Version, o: Observed, width: nat) returns (r: Option<seq<Cell>>)
    ensures r == ReadRow(version, o, width)
  {
    if o.NotObject? || o.fields.Keys != FieldNames(width) {
      return None;
    }
    var cells: seq<Cell> := [];
    ghost var cellAt := FieldReader(version, o.fields);
    AfterOneMore([], Cell("", None), Collect(cellAt, 0, width));
    for i := 0 to width
      invariant Collect(cellAt, 0, width) == After(cells, Collect(cellAt, i, width))
    {
      var cell := FieldCell(version, o.fields, i);
      if cell.None? {
        return None;
      }
      AfterOneMore(cells, cell.value, Collect(cellAt, i + 1, width));
      cells := cells + [cell.value];
    }
    assert cells + [] == cells;
    return Some(cells);
  }

  function ObservedOutcome(json: Json, t: TableState, rows: seq<Observed>): Result<Summary, SummaryRefusal> {
    if |rows| > |t.rows| then Err(RowsExtra)
    else
      match ReadRows(t.version, rows, |t.columns|)
      case None => Err(RowMalformed)
      case Some(cells) => Ok(Summarize(t, Sort(ByJson(json), cells)))
  }

  method ObservedSummary(json: Json, t: TableState, rows: seq<Observed>) returns (r: Result<Summary, SummaryRefusal>)
    ensures r == ObservedOutcome(json, t, rows)
  {
    if |rows| > |t.rows| {
      return Err(RowsExtra);
    }
    var canonical: seq<seq<Cell>> := [];
    for i := 0 to |rows|
      invariant ReadRows(t.version, rows[..i], |t.columns|) == Some(canonical)
    {
      var row := ReadOneRow(t.version, rows[i], |t.columns|);
      assert rows[..i + 1][..i] == rows[..i];
      if row.None? {
        MalformedStays(t.version, rows, |t.columns|, i + 1);
        return Err(RowMalformed);
      }
      canonical := canonical + [row.value];
    }
    assert rows[..|rows|] == rows;
    return Ok(Summarize(t, Sort(ByJson(json), canonical)));
  }

  lemma {:induction false} MalformedStays(version: Version, rows: seq<Observed>, width: nat, n: nat)
    requires n <= |rows| && ReadRows(version, rows[..n], width).None?
    ensures ReadRows(version, rows, width).None?
  {
    if n == |rows| {
      assert rows[..n] == rows;
    } else {
      assert rows[..|rows| - 1][..n] == rows[..n];
      MalformedStays(version, rows[..|rows| - 1], width, n);
    }
  }

  // ---- Encoding rows the way they are read back ----

  function ValueJson(v: Option<Bytes>): JsonValue {
    match v case None => JsonNull case Some(t) => JsonString(t)
  }

  function Fields(cs: seq<Cell>): map<Bytes, JsonValue> {
    if cs == [] then map[]
    else
      var n := |cs| - 1;
      Fields(cs[..n])[StorageField(n) := JsonString(Ascii(cs[n].storage))][ValueField(n) := ValueJson(cs[n].value)]
  }

  function Build(cs: seq<Cell>): Observed {
    Object(Fields(cs))
  }

  /** The row object that holds exactly these literals. */
  function EncodeRow(r: Row): Observed {
    Build(CellsOf(r))
  }

  lemma FieldsDiffer(i: nat, j: nat)
    ensures StorageField(i) != ValueField(j)
    ensures StorageField(i) == StorageField(j) ==> i == j
    ensures ValueField(i) == ValueField(j) ==> i == j
  {
    assert StorageField(i)[0] == 116 && ValueField(j)[0] == 118;
    if StorageField(i) == StorageField(j) {
      assert StorageField(i)[1..] == Decimal.PrintNat(i) && StorageField(j)[1..] == Decimal.PrintNat(j);
    }
    if ValueField(i) == ValueField(j) {
      assert ValueField(i)[1..] == Decimal.PrintNat(i) && ValueField(j)[1..] == Decimal.PrintNat(j);
    }
    Decimal.ParsePrint(i);
    Decimal.ParsePrint(j);
  }

  lemma {:induction false} FieldsKeys(cs: seq<Cell>)
    ensures Fields(cs).Keys == FieldNames(|cs|)
  {
    if cs != [] { FieldsKeys(cs[..|cs| - 1]); }
  }

  lemma {:induction false} FieldsAt(cs: seq<Cell>, i: nat)
    requires i < |cs|
    ensures StorageField(i) in Fields(cs) && Fields(cs)[StorageField(i)] == JsonString(Ascii(cs[i].storage))
    ensures ValueField(i) in Fields(cs) && Fields(cs)[ValueField(i)] == ValueJson(cs[i].value)
  {
    var n := |cs| - 1;
    FieldsDiffer(i, n);
    FieldsDiffer(n, i);
    FieldsDiffer(i, i);
    if i < n { FieldsAt(cs[..n], i); }
  }

  lemma {:induction false} CollectExact(cell: nat -> Option<Cell>, i: nat, width: nat, cs: seq<Cell>)
    requires i <= width
    ensures Collect(cell, i, width) == Some(cs) <==>
            |cs| == width - i && forall k: nat :: k < |cs| ==> cell(i + k) == Some(cs[k])
    decreases width - i
  {
    if i < width && cs != [] {
      var tail := cs[1..];
      CollectExact(cell, i + 1, width, tail);
      assert cs == [cs[0]] + tail;
      if Collect(cell, i + 1, width) == Some(tail) {
        forall k: nat | 0 < k < |cs|
            ensures cell(i + k) == Some(cs[k]) { assert cell(i + 1 + (k - 1)) == Some(tail[k - 1]); }
      }
      if forall k: nat :: k < |cs| ==> cell(i + k) == Some(cs[k]) {
        assert cell(i + 0) == Some(cs[0]);
        forall k: nat | k < |tail|
            ensures cell(i + 1 + k) == Some(tail[k]) { assert cell(i + (k + 1)) == Some(cs[k + 1]); }
      }
    }
  }

  /** A canonical cell determines the two fields it was read from. */
  lemma CellFields(version: Version, storage: JsonValue, value: JsonValue)
    requires ReadCell(version, storage, value).Some?
    ensures var c := ReadCell(version, storage, value).value;
            storage == JsonString(Ascii(c.storage)) && value == ValueJson(c.value)
  {
  }

  /** What is read from an object is all there is in it. */
  lemma ReadThenBuild(version: Version, o: Observed, width: nat)
    requires ReadRow(version, o, width).Some?
    ensures o == Build(ReadRow(version, o, width).value)
  {
    var cs := ReadRow(version, o, width).value;
    CollectExact(FieldReader(version, o.fields), 0, width, cs);
    FieldsKeys(cs);
    forall k | k in FieldNames(width) ensures o.fields[k] == Fields(cs)[k] {
      var i: nat :| i < width && (k == StorageField(i) || k == ValueField(i));
      FieldDetermined(version, o.fields, i, cs);
    }
    assert o.fields == Fields(cs);
  }

  lemma FieldDetermined(version: Version, fields: map<Bytes, JsonValue>, i: nat, cs: seq<Cell>)
    requires i < |cs| && forall k: nat :: k < |cs| ==> FieldReader(version, fields)(0 + k) == Some(cs[k])
    ensures StorageField(i) in fields && ValueField(i) in fields && StorageField(i) in Fields(cs)
            && ValueField(i) in Fields(cs)
    ensures fields[StorageField(i)] == Fields(cs)[StorageField(i)] && fields[ValueField(i)] == Fields(cs)[ValueField(i)]
  {
    assert FieldReader(version, fields)(0 + i) == Some(cs[i]);
    assert FieldCell(version, fields, i) == Some(cs[i]);
    CellFields(version, fields[StorageField(i)], fields[ValueField(i)]);
    FieldsAt(cs, i);
  }

  // ---- Literals and cells ----

  predicate LiteralAllowed(version: Version, l: Literal) {
    match l
    case Null => version.AllowsNull()
    case Text(t) => |t| <= MAX_SEED_VALUE_BYTES
    case Integer(_) => true
    case Blob(b) => version.AllowsBlob() && |b| <= MAX_SEED_VALUE_BYTES
  }

  lemma IntegerTextCanonical(n: i64)
    ensures CanonicalSignedDecimal(Decimal.PrintInt(n))
  {
    var t := Decimal.PrintInt(n);
    var digits := Decimal.PrintNat(Magnitude(n));
    Decimal.ParsePrint(Magnitude(n));
    UnsignedExact(t, n);
    if n < 0 {
      assert t[1..] == digits && digits[0] != 48;
    }
  }

  /** A literal is read back as its own cell exactly when its version allows it. */
  lemma LiteralReadsBack(version: Version, l: Literal)
    ensures var c := CellOf(l);
            ReadCell(version, JsonString(Ascii(c.storage)), ValueJson(c.value)) ==
                (if LiteralAllowed(version, l) then Some(c) else None)
  {
    StorageNames();
    match l
    case Null =>
    case Text(t) => UpperHex.EncodeCanonical(t);
    case Integer(n) => IntegerTextCanonical(n);
    case Blob(b) => UpperHex.EncodeCanonical(b);
  }

  lemma StorageNames()
    ensures StorageText(JsonString(Ascii("null"))) == Some("null")
    ensures StorageText(JsonString(Ascii("text"))) == Some("text")
    ensures StorageText(JsonString(Ascii("integer"))) == Some("integer")
    ensures StorageText(JsonString(Ascii("blob"))) == Some("blob")
  {
    assert Ascii("null")[0] == 110 && Ascii("text")[0] == 116 && Ascii("integer")[0] == 105 && Ascii("blob")[0] == 98;
  }

  lemma {:induction false} CellsOfAt(r: Row, i: nat)
    requires i < |r|
    ensures CellsOf(r)[i] == CellOf(r[i])
  {
    if i > 0 { CellsOfAt(r[1..], i - 1); }
  }

  predicate RowAllowed(version: Version, r: Row) {
    forall i :: 0 <= i < |r| ==> LiteralAllowed(version, r[i])
  }

  lemma RowReadsBack(version: Version, r: Row)
    requires RowAllowed(version, r)
    ensures ReadRow(version, EncodeRow(r), |r|) == Some(CellsOf(r))
  {
    var cs := CellsOf(r);
    FieldsKeys(cs);
    forall k: nat | k < |cs| ensures FieldReader(version, Fields(cs))(0 + k) == Some(cs[k]) {
      FieldsAt(cs, k);
      CellsOfAt(r, k);
      LiteralReadsBack(version, r[k]);
      assert FieldCell(version, Fields(cs), k) == Some(cs[k]);
    }
    CollectExact(FieldReader(version, Fields(cs)), 0, |r|, cs);
  }

  lemma CellInjective(a: Literal, b: Literal)
    requires CellOf(a) == CellOf(b)
    ensures a == b
  {
    match a
    case Null =>
    case Text(t) => UpperHex.EncodeInjective(t, b.text);
    case Integer(n) => Decimal.PrintIntInjective(n, b.value);
    case Blob(t) => UpperHex.EncodeInjective(t, b.bytes);
  }

  /** Different rows are summarized differently. */
  lemma {:induction false} EncodingInjective(a: Row, b: Row)
    requires CellsOf(a) == CellsOf(b)
    ensures a == b
  {
    if a != [] && b != [] {
      assert CellsOf(a)[0] == CellOf(a[0]) && CellsOf(b)[0] == CellOf(b[0]);
      CellInjective(a[0], b[0]);
      assert CellsOf(a)[1..] == CellsOf(a[1..]) && CellsOf(b)[1..] == CellsOf(b[1..]);
      EncodingInjective(a[1..], b[1..]);
      assert a == [a[0]] + a[1..] && b == [b[0]] + b[1..];
    }
  }

  // ---- Mapping permutations ----

  lemma {:induction false} MapAppend<A, B>(f: A -> B, a: seq<A>, b: seq<A>)
    ensures Map(f, a + b) == Map(f, a) + Map(f, b)
  {
    if a == [] {
      assert a + b == b;
    } else {
      assert (a + b)[1..] == a[1..] + b;
      MapAppend(f, a[1..], b);
    }
  }

  function Without<A>(s: seq<A>, j: nat): seq<A>
    requires j < |s|
  {
    s[..j] + s[j + 1..]
  }

  lemma WithoutOne<A>(s: seq<A>, j: nat)
    requires j < |s|
    ensures multiset(Without(s, j)) == multiset(s) - multiset{s[j]}
  {
    assert s == s[..j] + [s[j]] + s[j + 1..];
  }

  lemma {:induction false} MapSplit<A, B>(f: A -> B, s: seq<A>, j: nat)
    requires j < |s|
    ensures Map(f, s) == Map(f, s[..j]) + [f(s[j])] + Map(f, s[j + 1..])
  {
    if j == 0 {
      assert s[..j] == [];
    } else {
      MapSplit(f, s[1..], j - 1);
      assert s[1..][..j - 1] == s[..j][1..] && s[1..][j..] == s[j + 1..];
    }
  }

  lemma MapWithout<A, B>(f: A -> B, s: seq<A>, j: nat)
    requires j < |s|
    ensures multiset(Map(f, s)) == multiset(Map(f, Without(s, j))) + multiset{f(s[j])}
  {
    MapSplit(f, s, j);
    MapAppend(f, s[..j], s[j + 1..]);
  }

  lemma {:induction false} MapPermutes<A, B>(f: A -> B, a: seq<A>, b: seq<A>)
    requires multiset(a) == multiset(b)
    ensures multiset(Map(f, a)) == multiset(Map(f, b))
  {
    assert |multiset(a)| == |a| && |multiset(b)| == |b|;
    if a != [] {
      assert a[0] in multiset(b);
      var j :| 0 <= j < |b| && b[j] == a[0];
      WithoutOne(a, 0);
      WithoutOne(b, j);
      MapPermutes(f, Without(a, 0), Without(b, j));
      MapWithout(f, a, 0);
      MapWithout(f, b, j);
    }
  }

  // ---- The comparison ----

  lemma {:induction false} ReadRowsMaps(version: Version, rows: seq<Observed>, width: nat)
    requires ReadRows(version, rows, width).Some?
    ensures Map(Build, ReadRows(version, rows, width).value) == rows
  {
    hide ReadRow, Build;
    if rows != [] {
      var front, last := rows[..|rows| - 1], rows[|rows| - 1];
      ReadRowsMaps(version, front, width);
      ReadThenBuild(version, last, width);
      MapOneMore(Build, ReadRows(version, front, width).value, ReadRow(version, last, width).value);
      assert rows == front + [last];
    }
  }

  lemma MapOneMore<A, B>(f: A -> B, s: seq<A>, x: A)
    ensures Map(f, s + [x]) == Map(f, s) + [f(x)]
  {
    MapAppend(f, s, [x]);
  }

  /** The cells of a row object; of a malformed one, none. */
  function CellsRead(version: Version, width: nat): Observed -> seq<Cell> {
    o => match ReadRow(version, o, width) case Some(cs) => cs case None => []
  }

  lemma {:induction false} AllReadable(version: Version, rows: seq<Observed>, width: nat)
    requires forall o :: o in rows ==> ReadRow(version, o, width).Some?
    ensures ReadRows(version, rows, width) == Some(Map(CellsRead(version, width), rows))
  {
    if rows != [] {
      var front, last := rows[..|rows| - 1], rows[|rows| - 1];
      AllReadable(version, front, width);
      assert rows == front + [last] && last in rows;
      MapAppend(CellsRead(version, width), front, [last]);
      assert Map(CellsRead(version, width), [last]) == [ReadRow(version, last, width).value];
    }
  }

  predicate TableAllowed(t: TableState) {
    forall r :: r in t.rows ==> |r| == |t.columns| && RowAllowed(t.version, r)
  }

  lemma {:induction false} InMap<A, B>(f: A -> B, s: seq<A>, y: B)
    requires y in Map(f, s)
    ensures exists x :: x in s && f(x) == y
  {
    if y == f(s[0]) { assert s[0] in s; } else {
      assert Map(f, s)[1..] == Map(f, s[1..]);
      InMap(f, s[1..], y);
    }
  }

  lemma {:induction false} MapCompose<A, B, C>(f: A -> B, g: B -> C, h: A -> C, s: seq<A>)
    requires forall x :: x in s ==> g(f(x)) == h(x)
    ensures Map(g, Map(f, s)) == Map(h, s)
  {
    if s != [] {
      MapCompose(f, g, h, s[1..]);
      assert Map(f, s)[1..] == Map(f, s[1..]);
    }
  }

  /** The rows a table is expected to read back as. */
  function EncodedRows(t: TableState): seq<Observed> {
    Map(EncodeRow, t.rows)
  }

  lemma EqualSummariesPermute(json: Json, t: TableState, rows: seq<Observed>)
    requires Injective(json) && ObservedOutcome(json, t, rows) == Ok(ExpectedSummary(json, t))
    ensures multiset(rows) == multiset(EncodedRows(t))
  {
    var cells := ReadRows(t.version, rows, |t.columns|).value;
    ByJsonStrictTotal(json);
    SortIsCanonical(ByJson(json), cells, Map(CellsOf, t.rows));
    MapPermutes(Build, cells, Map(CellsOf, t.rows));
    ReadRowsMaps(t.version, rows, |t.columns|);
    MapCompose(CellsOf, Build, EncodeRow, t.rows);
  }

  lemma PermutedRowsEqual(json: Json, t: TableState, rows: seq<Observed>)
    requires Injective(json) && TableAllowed(t) && multiset(rows) == multiset(EncodedRows(t))
    ensures ObservedOutcome(json, t, rows) == Ok(ExpectedSummary(json, t))
  {
    var encoded, read := EncodedRows(t), CellsRead(t.version, |t.columns|);
    assert |multiset(rows)| == |rows| && |multiset(encoded)| == |encoded|;
    forall r | r in t.rows ensures ReadRow(t.version, EncodeRow(r), |t.columns|) == Some(CellsOf(r)) {
      RowReadsBack(t.version, r);
    }
    forall o | o in rows ensures ReadRow(t.version, o, |t.columns|).Some? {
      assert o in multiset(encoded);
      InMap(EncodeRow, t.rows, o);
    }
    AllReadable(t.version, rows, |t.columns|);
    MapPermutes(read, rows, encoded);
    MapCompose(EncodeRow, read, CellsOf, t.rows);
    ByJsonStrictTotal(json);
    SortIsCanonical(ByJson(json), Map(read, rows), Map(CellsOf, t.rows));
    assert Sort(ByJson(json), Map(read, rows)) == Sort(ByJson(json), Map(CellsOf, t.rows));
    assert |Sort(ByJson(json), Map(read, rows))| == |rows| by { SortPermutes(ByJson(json), Map(read, rows)); }
  }

  /**
   * The observed summary is the expected one exactly when the observed rows are the encoded expected rows in some
   * order.
   */
  lemma SummariesEqualIffPermuted(json: Json, t: TableState, rows: seq<Observed>)
    requires Injective(json) && TableAllowed(t)
    ensures ObservedOutcome(json, t, rows) == Ok(ExpectedSummary(json, t)) <==>
              multiset(rows) == multiset(EncodedRows(t))
  {
    if ObservedOutcome(json, t, rows) == Ok(ExpectedSummary(json, t)) { EqualSummariesPermute(json, t, rows); }
    if multiset(rows) == multiset(EncodedRows(t)) { PermutedRowsEqual(json, t, rows); }
  }
}
