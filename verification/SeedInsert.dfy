/**
 * The closed seed INSERT grammar and the cumulative seed state
 * (src/d1_migration_seed_rows.rs).
 */
module SeedInsert {
  import opened Prelude
  import opened LexOrder
  import opened Sorting
  import Decimal
  import opened SqlTokens
  import CommaList

  const MAX_SEED_TABLES: nat := 16
  const MAX_SEED_COLUMNS: nat := 16
  const MAX_SEED_ROWS: nat := 256
  const MAX_SEED_ROWS_TOTAL: nat := 1024
  const MAX_SEED_VALUE_BYTES: nat := 1024
  const MAX_SEED_LITERAL_BYTES: nat := 64 * 1024
  const MAX_SEED_TOKENS: nat := 4096

  datatype Version = V1 | V2 | V3Fts {
    predicate AllowsNull() { this != V1 }
    predicate AllowsBlob() { this == V3Fts }
  }

  datatype Literal = Null | Text(text: Bytes) | Integer(value: i64) | Blob(bytes: Bytes)

  type Row = seq<Literal>

  datatype Effect = Effect(version: Version, table: Bytes, columns: seq<Bytes>, rows: seq<Row>)

  datatype Refusal = Grammar | RowsDuplicate | RowsUnbounded | TargetReused

  // ---- Order of literals and rows ----

  function Rank(l: Literal): nat {
    match l case Null => 0 case Text(_) => 1 case Integer(_) => 2 case Blob(_) => 3
  }

  predicate BytesLess(a: seq<int>, b: seq<int>) {
    LexLess(IntLess, a, b)
  }

  predicate LiteralLess(a: Literal, b: Literal) {
    || Rank(a) < Rank(b)
    || match (a, b)
       case (Text(s), Text(t)) => BytesLess(s, t)
       case (Integer(m), Integer(n)) => m < n
       case (Blob(s), Blob(t)) => BytesLess(s, t)
       case _ => false
  }

  predicate RowLess(a: Row, b: Row) {
    LexLess(LiteralLess, a, b)
  }

  lemma RowStrictTotal()
    ensures StrictTotal(RowLess)
  {
    IntStrictTotal();
    LexStrictTotal(IntLess);
    assert StrictTotal(BytesLess) by {
      var lex := (a: seq<int>, b: seq<int>) => LexLess(IntLess, a, b);
      forall a, b ensures BytesLess(a, b) == lex(a, b) {}
    }
    assert StrictTotal(LiteralLess);
    LexStrictTotal(LiteralLess);
    var rows := (a: Row, b: Row) => LexLess(LiteralLess, a, b);
    forall a: Row, b: Row ensures RowLess(a, b) == rows(a, b) {}
  }

  // ---- Integers ----

  function Magnitude(n: int): nat {
    if n < 0 then -n else n
  }

  /** Length of the decimal form, by dividing the magnitude down. */
  method SignedDecimalLen(value: i64) returns (digits: nat)
    ensures digits == |Decimal.PrintInt(value)|
  {
    if value == 0 {
      assert |Decimal.PrintInt(value)| == |Decimal.PrintNat(0)| == 1;
      return 1;
    }
    var magnitude: nat := Magnitude(value);
    digits := if value < 0 then 1 else 0;
    while magnitude > 0
      invariant magnitude > 0 ==> |Decimal.PrintInt(value)| == digits + |Decimal.PrintNat(magnitude)|
      invariant magnitude == 0 ==> |Decimal.PrintInt(value)| == digits
      decreases magnitude
    {
      digits := digits + 1;
      magnitude := magnitude / 10;
    }
  }

  function ParseUnsigned(w: Bytes): Option<i64> {
    if Decimal.IsCanonical(w) && Decimal.ParseNat(w) <= I64_MAX then Some(Decimal.ParseNat(w)) else None
  }

  function ParseNegative(w: Bytes): Option<i64> {
    if !Decimal.IsCanonical(w) || w == Ascii("0") then None
    else if Decimal.ParseNat(w) > I64_MAX + 1 then None
    else
      var magnitude: int := Decimal.ParseNat(w);
      Some(-magnitude)
  }

  lemma UnsignedExact(w: Bytes, n: i64)
    ensures ParseUnsigned(w) == Some(n) <==> n >= 0 && w == Decimal.PrintNat(n)
  {
    if n >= 0 { Decimal.ParsePrint(n); }
    if Decimal.IsCanonical(w) { Decimal.PrintParse(w); }
  }

  lemma NegativeExact(w: Bytes, n: i64)
    ensures ParseNegative(w) == Some(n) <==> n < 0 && w == Decimal.PrintNat(Magnitude(n))
  {
    Decimal.ParsePrint(0);
    if n < 0 { Decimal.ParsePrint(Magnitude(n)); }
    if Decimal.IsCanonical(w) {
      Decimal.PrintParse(w);
      if w != Ascii("0") && w[0] == 48 { assert w == [48]; }
      if w[0] != 48 { Decimal.PositiveUnlessZero(w); }
    }
  }

  // ---- Written statements and their text ----

  /** A literal as written; the spelling of NULL is kept. */
  datatype Written = WrittenNull(word: Bytes) | WrittenText(text: Bytes) | WrittenInteger(value: i64)

  function ValueOf(w: Written): Literal {
    match w case WrittenNull(_) => Null case WrittenText(t) => Text(t) case WrittenInteger(n) => Integer(n)
  }

  function RowOf(ws: seq<Written>): (r: Row)
    ensures |r| == |ws|
  {
    if ws == [] then [] else RowOf(ws[..|ws| - 1]) + [ValueOf(ws[|ws| - 1])]
  }

  function RowsOf(wss: seq<seq<Written>>): (rs: seq<Row>)
    ensures |rs| == |wss|
  {
    if wss == [] then [] else RowsOf(wss[..|wss| - 1]) + [RowOf(wss[|wss| - 1])]
  }

  datatype Statement = Statement(
    words: (Bytes, Bytes, Bytes),
    table: Bytes,
    columns: seq<Bytes>,
    rows: seq<seq<Written>>)

  function PrintLiteral(w: Written): seq<Token> {
    match w
    case WrittenNull(word) => [Word(word)]
    case WrittenText(t) => [StringLiteral(t)]
    case WrittenInteger(n) =>
      if n < 0 then [Symbol('-'), Word(Decimal.PrintNat(Magnitude(n)))] else [Word(Decimal.PrintNat(n))]
  }

  function PrintRow(ws: seq<Written>): seq<Token> {
    [Symbol('(')] + (CommaList.Print(PrintLiteral, ws) + [Symbol(')')])
  }

  function PrintRows(wss: seq<seq<Written>>): seq<Token> {
    CommaList.Print(PrintRow, wss)
  }

  function PrintColumns(cs: seq<Bytes>): seq<Token> {
    if cs == [] then []
    else if |cs| == 1 then [Word(cs[0]), Symbol(')')]
    else [Word(cs[0]), Symbol(',')] + PrintColumns(cs[1..])
  }

  function PrintStatement(s: Statement): seq<Token> {
    [Word(s.words.0), Word(s.words.1), Word(s.table), Symbol('(')]
    + (PrintColumns(s.columns) + ([Word(s.words.2)] + PrintRows(s.rows)))
  }

  // ---- Which statements are admitted ----

  predicate WrittenOk(w: Written, version: Version) {
    match w
    case WrittenNull(word) => version.AllowsNull() && SameWord(word, Ascii("null"))
    case WrittenText(t) => |t| <= MAX_SEED_VALUE_BYTES && 0 !in t
    case WrittenInteger(_) => true
  }

  predicate RowOk(ws: seq<Written>, version: Version, width: nat) {
    |ws| == width && forall i :: 0 <= i < |ws| ==> WrittenOk(ws[i], version)
  }

  predicate RowsOk(wss: seq<seq<Written>>, version: Version, width: nat) {
    forall i :: 0 <= i < |wss| ==> RowOk(wss[i], version, width)
  }

  predicate ColumnsOk(cs: seq<Bytes>) {
    && (forall i :: 0 <= i < |cs| ==> CanonicalIdentifier(cs[i]))
    && (forall i, j :: 0 <= i < j < |cs| ==> !SameWord(cs[i], cs[j]))
  }

  predicate WordsOk(s: Statement) {
    && SameWord(s.words.0, Ascii("insert")) && SameWord(s.words.1, Ascii("into"))
        && SameWord(s.words.2, Ascii("values"))
    && CanonicalIdentifier(s.table)
  }

  predicate StatementOk(s: Statement, version: Version) {
    && WordsOk(s)
    && 1 <= |s.columns| <= MAX_SEED_COLUMNS && ColumnsOk(s.columns)
    && 1 <= |s.rows| <= MAX_SEED_ROWS && RowsOk(s.rows, version, |s.columns|)
  }

  function LiteralBytes(l: Literal): nat {
    match l
    case Null => 0
    case Text(t) => 2 * |t|
    case Integer(n) => |Decimal.PrintInt(n)|
    case Blob(b) => 2 * |b|
  }

  /** The canonical bytes of the first `k` literals. */
  function LiteralBytesUpTo(r: Row, k: nat): nat
    requires k <= |r|
  {
    if k == 0 then 0 else LiteralBytesUpTo(r, k - 1) + LiteralBytes(r[k - 1])
  }

  function RowBytes(r: Row): nat {
    LiteralBytesUpTo(r, |r|)
  }

  function RowBytesUpTo(rs: seq<Row>, k: nat): nat
    requires k <= |rs|
  {
    if k == 0 then 0 else RowBytesUpTo(rs, k - 1) + RowBytes(rs[k - 1])
  }

  function RowsBytes(rs: seq<Row>): nat {
    RowBytesUpTo(rs, |rs|)
  }

  lemma {:induction false} LiteralBytesFirst(r: Row, l: Literal, k: nat)
    requires k <= |r|
    ensures LiteralBytesUpTo(r + [l], k) == LiteralBytesUpTo(r, k)
  {
    if k > 0 { LiteralBytesFirst(r, l, k - 1); }
  }

  lemma {:induction false} RowBytesFirst(rs: seq<Row>, r: Row, k: nat)
    requires k <= |rs|
    ensures RowBytesUpTo(rs + [r], k) == RowBytesUpTo(rs, k)
  {
    if k > 0 { RowBytesFirst(rs, r, k - 1); }
  }

  // ---- Specification parser ----

  function ParseLiteral(ts: seq<Token>, version: Version): (r: Option<(Written, seq<Token>)>)
    ensures r.Some? ==> |r.value.1| < |ts|
  {
    if ts == [] then None
    else
      match ts[0]
      case Word(w) =>
        if version.AllowsNull() && SameWord(w, Ascii("null")) then Some((WrittenNull(w), ts[1..]))
        else if ParseUnsigned(w).Some? then Some((WrittenInteger(ParseUnsigned(w).value), ts[1..])) else None
      case StringLiteral(t) =>
        if |t| <= MAX_SEED_VALUE_BYTES && 0 !in t then Some((WrittenText(t), ts[1..])) else None
      case Symbol(c) =>
        if c == '-' && |ts| >= 2 && ts[1].Word? && ParseNegative(ts[1].text).Some?
        then Some((WrittenInteger(ParseNegative(ts[1].text).value), ts[2..])) else None
      case Identifier(_) => None
  }

  function LiteralItem(version: Version): CommaList.Item<Written> {
    ts => ParseLiteral(ts, version)
  }

  /** A parenthesised row of exactly `n` literals. */
  function ParseRow(ts: seq<Token>, version: Version, n: nat): Option<(seq<Written>, seq<Token>)> {
    if !StartsWithSymbol(ts, '(') then None
    else
      match CommaList.Parse(LiteralItem(version), ts[1..], n)
      case None => None
      case Some((ws, rest)) => if |ws| == n && StartsWithSymbol(rest, ')') then Some((ws, rest[1..])) else None
  }

  function RowItem(version: Version, n: nat): CommaList.Item<seq<Written>> {
    ts => ParseRow(ts, version, n)
  }

  /** One row or more, at most `room`, up to the very end. */
  function ParseRows(ts: seq<Token>, version: Version, n: nat, room: nat): Option<seq<seq<Written>>> {
    match CommaList.Parse(RowItem(version, n), ts, room)
    case None => None
    case Some((wss, rest)) => if rest == [] then Some(wss) else None
  }

  /** Column names up to the closing parenthesis, none of them in `seen`. */
  function ParseColumns(ts: seq<Token>, seen: set<Bytes>, room: nat): (r: Option<(seq<Bytes>, seq<Token>)>)
    ensures r.Some? ==> |r.value.1| < |ts| && |r.value.0| >= 1
    decreases room, |ts|
  {
    if |ts| < 2 || !ts[0].Word? || !CanonicalIdentifier(ts[0].text) || Lower(ts[0].text) in seen || room == 0 then None
    else if ts[1] == Symbol(')') then Some(([ts[0].text], ts[2..]))
    else if ts[1] != Symbol(',') then None
    else
      match ParseColumns(ts[2..], seen + {Lower(ts[0].text)}, room - 1)
      case None => None
      case Some((cs, rest)) => Some(([ts[0].text] + cs, rest))
  }

  function ParseStatement(ts: seq<Token>, version: Version): Option<Statement> {
    if !(|ts| > 4 && IsWord(ts[0], Ascii("insert")) && IsWord(ts[1], Ascii("into")) && ts[2].Word?
         && CanonicalIdentifier(ts[2].text)
         && ts[3] == Symbol('(')) then None
    else
      match ParseColumns(ts[4..], {}, MAX_SEED_COLUMNS)
      case None => None
      case Some((cs, rest)) =>
        if !StartsWithWord(rest, Ascii("values")) then None
        else
          match ParseRows(rest[1..], version, |cs|, MAX_SEED_ROWS)
          case None => None
          case Some(rows) => Some(Statement((ts[0].text, ts[1].text, rest[0].text), ts[2].text, cs, rows))
  }

  // ---- Accepted text is the print of an admitted statement ----

  lemma LiteralSound(ts: seq<Token>, version: Version)
    requires ParseLiteral(ts, version).Some?
    ensures var (w, rest) := ParseLiteral(ts, version).value; ts == PrintLiteral(w) + rest && WrittenOk(w, version)
  {
    if ts[0].Word? && ParseUnsigned(ts[0].text).Some? { UnsignedExact(ts[0].text, ParseUnsigned(ts[0].text).value); }
    if ts[0].Symbol? { NegativeExact(ts[1].text, ParseNegative(ts[1].text).value); }
  }

  function LiteralAdmitted(version: Version): Written -> bool {
    w => WrittenOk(w, version)
  }

  function RowAdmitted(version: Version, n: nat): seq<Written> -> bool {
    ws => RowOk(ws, version, n)
  }

  lemma LiteralItemSound(version: Version)
    ensures CommaList.ItemSound(LiteralItem(version), PrintLiteral, LiteralAdmitted(version))
  {
    forall ts | ParseLiteral(ts, version).Some?
      ensures var (w, rest) := ParseLiteral(ts, version).value; WrittenOk(w, version) && ts == PrintLiteral(w) + rest
    {
      LiteralSound(ts, version);
    }
  }

  lemma RowSound(ts: seq<Token>, version: Version, n: nat)
    requires ParseRow(ts, version, n).Some?
    ensures var (ws, rest) := ParseRow(ts, version, n).value; RowOk(ws, version, n) && ts == PrintRow(ws) + rest
  {
    LiteralItemSound(version);
    var item, ok := LiteralItem(version), LiteralAdmitted(version);
    CommaList.ListSound(item, PrintLiteral, ok, ts[1..], n);
    RowText(ts, CommaList.Parse(item, ts[1..], n).value.0, CommaList.Parse(item, ts[1..], n).value.1);
    assert CommaList.AllOk(ok, CommaList.Parse(item, ts[1..], n).value.0);
  }

  /** The parentheses around the literals of a row. */
  lemma RowText(ts: seq<Token>, ws: seq<Written>, rest: seq<Token>)
    requires StartsWithSymbol(ts, '(') && StartsWithSymbol(rest, ')')
             && ts[1..] == CommaList.Print(PrintLiteral, ws) + rest
    ensures ts == PrintRow(ws) + rest[1..]
  {
    var literals := CommaList.Print(PrintLiteral, ws);
    assert rest == [Symbol(')')] + rest[1..] && ts == [Symbol('(')] + ts[1..];
    Reassociate([Symbol('(')], literals + [Symbol(')')], rest[1..]);
    Reassociate(literals, [Symbol(')')], rest[1..]);
  }

  lemma RowItemSound(version: Version, n: nat)
    ensures CommaList.ItemSound(RowItem(version, n), PrintRow, RowAdmitted(version, n))
  {
    forall ts | ParseRow(ts, version, n).Some?
      ensures var (ws, rest) := ParseRow(ts, version, n).value; RowOk(ws, version, n) && ts == PrintRow(ws) + rest
    {
      RowSound(ts, version, n);
    }
  }

  lemma RowsSound(ts: seq<Token>, version: Version, n: nat, room: nat)
    requires ParseRows(ts, version, n, room).Some?
    ensures var wss := ParseRows(ts, version, n, room).value;
            ts == PrintRows(wss) && RowsOk(wss, version, n) && 1 <= |wss| <= room
  {
    var item, ok := RowItem(version, n), RowAdmitted(version, n);
    RowItemSound(version, n);
    CommaList.ListSound(item, PrintRow, ok, ts, room);
    var wss := ParseRows(ts, version, n, room).value;
    assert CommaList.AllOk(ok, wss);
    assert PrintRows(wss) + [] == PrintRows(wss);
  }

  predicate Unseen(cs: seq<Bytes>, seen: set<Bytes>) {
    forall i :: 0 <= i < |cs| ==> Lower(cs[i]) !in seen
  }

  lemma {:induction false} ColumnsSound(ts: seq<Token>, seen: set<Bytes>, room: nat)
    requires ParseColumns(ts, seen, room).Some?
    ensures var (cs, rest) := ParseColumns(ts, seen, room).value;
            ts == PrintColumns(cs) + rest && ColumnsOk(cs) && Unseen(cs, seen) && 1 <= |cs| <= room
    decreases room
  {
    if ts[1] == Symbol(')') {
      assert ts == [ts[0], ts[1]] + ts[2..];
    } else {
      var name := ts[0].text;
      ColumnsSound(ts[2..], seen + {Lower(name)}, room - 1);
      var (cs, rest) := ParseColumns(ts[2..], seen + {Lower(name)}, room - 1).value;
      assert ([name] + cs)[1..] == cs && ts == [ts[0], ts[1]] + ts[2..];
      ColumnsCons(name, cs);
    }
  }

  /** One more name in front of distinct names it does not repeat. */
  lemma ColumnsCons(name: Bytes, cs: seq<Bytes>)
    requires CanonicalIdentifier(name) && ColumnsOk(cs) && Unseen(cs, {Lower(name)})
    ensures ColumnsOk([name] + cs)
  {
    var all := [name] + cs;
    forall i, j | 0 <= i < j < |all| ensures !SameWord(all[i], all[j]) {
      assert all[j] == cs[j - 1];
      if i > 0 { assert all[i] == cs[i - 1]; }
    }
  }

  /** The head of a statement, its columns, and its rows are its whole text. */
  lemma StatementText(s: Statement, ts: seq<Token>, rest: seq<Token>)
    requires |ts| > 4 && ts[..4] == [Word(s.words.0), Word(s.words.1), Word(s.table), Symbol('(')]
    requires ts[4..] == PrintColumns(s.columns) + rest && rest != [] && rest[0] == Word(s.words.2)
             && rest[1..] == PrintRows(s.rows)
    ensures ts == PrintStatement(s)
  {
    assert ts == ts[..4] + ts[4..] && rest == [rest[0]] + rest[1..];
  }

  lemma StatementSound(ts: seq<Token>, version: Version)
    requires ParseStatement(ts, version).Some?
    ensures var s := ParseStatement(ts, version).value; ts == PrintStatement(s) && StatementOk(s, version)
  {
    var s := ParseStatement(ts, version).value;
    var rest := ParseColumns(ts[4..], {}, MAX_SEED_COLUMNS).value.1;
    ColumnsSound(ts[4..], {}, MAX_SEED_COLUMNS);
    RowsSound(rest[1..], version, |s.columns|, MAX_SEED_ROWS);
    assert ts[..4] == [ts[0], ts[1], ts[2], ts[3]];
    StatementText(s, ts, rest);
  }

  // ---- The print of an admitted statement is accepted ----

  lemma LiteralComplete(w: Written, rest: seq<Token>, version: Version)
    requires WrittenOk(w, version)
    ensures ParseLiteral(PrintLiteral(w) + rest, version) == Some((w, rest))
  {
    var ts := PrintLiteral(w) + rest;
    assert ts[|PrintLiteral(w)|..] == rest;
    if w.WrittenInteger? {
      var digits := Decimal.PrintNat(Magnitude(w.value));
      Decimal.ParsePrint(Magnitude(w.value));
      UnsignedExact(digits, w.value);
      NegativeExact(digits, w.value);
      DigitsAreNotNull(digits);
    }
  }

  lemma DigitsAreNotNull(w: Bytes)
    requires AllDigits(w) && w != []
    ensures !SameWord(w, Ascii("null"))
  {
    assert Lower(w)[0] < 58 && Lower(Ascii("null"))[0] == 110;
  }

  lemma RowComplete(ws: seq<Written>, rest: seq<Token>, version: Version, n: nat)
    requires n > 0 && RowOk(ws, version, n)
    ensures ParseRow(PrintRow(ws) + rest, version, n) == Some((ws, rest))
  {
    var item, ok := LiteralItem(version), LiteralAdmitted(version);
    forall w, more | ok(w) ensures item(PrintLiteral(w) + more) == Some((w, more)) {
      LiteralComplete(w, more, version);
    }
    assert CommaList.AllOk(ok, ws);
    var literals, close := CommaList.Print(PrintLiteral, ws), [Symbol(')')] + rest;
    CommaList.ListComplete(item, PrintLiteral, ok, ws, close, n);
    assert close[1..] == rest;
    Reassociate([Symbol('(')], literals + [Symbol(')')], rest);
    Reassociate(literals, [Symbol(')')], rest);
    assert ([Symbol('(')] + (literals + close))[1..] == literals + close;
  }

  lemma RowsComplete(wss: seq<seq<Written>>, version: Version, n: nat, room: nat)
    requires n > 0 && 1 <= |wss| <= room && RowsOk(wss, version, n)
    ensures ParseRows(PrintRows(wss), version, n, room) == Some(wss)
  {
    var item, ok := RowItem(version, n), RowAdmitted(version, n);
    forall ws, more | ok(ws) ensures item(PrintRow(ws) + more) == Some((ws, more)) {
      RowComplete(ws, more, version, n);
    }
    assert CommaList.AllOk(ok, wss);
    CommaList.ListComplete(item, PrintRow, ok, wss, [], room);
    assert PrintRows(wss) + [] == PrintRows(wss);
  }

  lemma {:induction false} ColumnsComplete(cs: seq<Bytes>, rest: seq<Token>, seen: set<Bytes>, room: nat)
    requires 1 <= |cs| <= room && ColumnsOk(cs) && Unseen(cs, seen)
    ensures ParseColumns(PrintColumns(cs) + rest, seen, room) == Some((cs, rest))
    decreases room
  {
    var ts := PrintColumns(cs) + rest;
    if |cs| == 1 {
      assert ts[2..] == rest && cs == [cs[0]];
    } else {
      assert ts[2..] == PrintColumns(cs[1..]) + rest;
      ColumnsTail(cs, seen);
      ColumnsComplete(cs[1..], rest, seen + {Lower(cs[0])}, room - 1);
      assert cs == [cs[0]] + cs[1..];
    }
  }

  lemma ColumnsTail(cs: seq<Bytes>, seen: set<Bytes>)
    requires cs != [] && ColumnsOk(cs) && Unseen(cs, seen)
    ensures ColumnsOk(cs[1..]) && Unseen(cs[1..], seen + {Lower(cs[0])})
  {
    var tail := cs[1..];
    forall i | 0 <= i < |tail| ensures Lower(tail[i]) !in seen + {Lower(cs[0])} && CanonicalIdentifier(tail[i]) {
      assert tail[i] == cs[i + 1] && !SameWord(cs[0], cs[i + 1]);
    }
    forall i, j | 0 <= i < j < |tail| ensures !SameWord(tail[i], tail[j]) {
      assert tail[i] == cs[i + 1] && tail[j] == cs[j + 1];
    }
  }

  lemma StatementComplete(s: Statement, version: Version)
    requires StatementOk(s, version)
    ensures ParseStatement(PrintStatement(s), version) == Some(s)
  {
    var ts := PrintStatement(s);
    var rest := [Word(s.words.2)] + PrintRows(s.rows);
    assert ts[4..] == PrintColumns(s.columns) + rest && rest[1..] == PrintRows(s.rows);
    ColumnsComplete(s.columns, rest, {}, MAX_SEED_COLUMNS);
    RowsComplete(s.rows, version, |s.columns|, MAX_SEED_ROWS);
  }

  // ---- The cursor parser ----

  predicate NameAt(tokens: seq<Token>, cursor: nat, names: set<Bytes>) {
    cursor < |tokens| && tokens[cursor].Word? && CanonicalIdentifier(tokens[cursor].text)
        && Lower(tokens[cursor].text) !in names
  }

  /** The next column name, and what has to follow it. */
  lemma ColumnsStep(tokens: seq<Token>, cursor: nat, names: set<Bytes>, room: nat)
    requires cursor <= |tokens|
    ensures var parsed := ParseColumns(tokens[cursor..], names, room);
            && (!NameAt(tokens, cursor, names) || room == 0 || cursor + 1 == |tokens| ==> parsed.None?)
            && (NameAt(tokens, cursor, names) && room > 0 && cursor + 1 < |tokens| ==>
                  parsed == if tokens[cursor + 1] == Symbol(')')
                    then Some(([tokens[cursor].text], tokens[cursor + 2..]))
                            else if tokens[cursor + 1] != Symbol(',') then None
                            else CommaList.Prepend([tokens[cursor].text],
                                           ParseColumns(tokens[cursor + 2..], names + {Lower(tokens[cursor].text)},
                                                        room - 1)))
  {
    var ts := tokens[cursor..];
    if cursor + 1 < |tokens| {
      assert ts[0] == tokens[cursor] && ts[1] == tokens[cursor + 1] && ts[2..] == tokens[cursor + 2..];
    }
  }

  /** Column names from the cursor up to the closing parenthesis. */
  method ParseColumnList(tokens: seq<Token>, start: nat, limit: nat)
      returns (ok: bool, columns: seq<Bytes>, cursor: nat)
    requires start <= |tokens|
    ensures var parsed := ParseColumns(tokens[start..], {}, limit);
            && (ok <==> parsed.Some?)
            && (ok ==> cursor <= |tokens| && parsed.value == (columns, tokens[cursor..]))
  {
    cursor, columns := start, [];
    var names: set<Bytes> := {};
    ghost var whole := ParseColumns(tokens[start..], {}, limit);
    CommaList.PrependTwice([], [], whole);
    while true
      invariant start <= cursor <= |tokens| && |columns| <= limit
      invariant whole == CommaList.Prepend(columns, ParseColumns(tokens[cursor..], names, limit - |columns|))
      decreases |tokens| - cursor
    {
      ColumnsStep(tokens, cursor, names, limit - |columns|);
      if !NameAt(tokens, cursor, names) || |columns| >= limit {
        return false, columns, cursor;
      }
      var column: Bytes := tokens[cursor].text;
      names := names + {Lower(column)};
      cursor := cursor + 1;
      if cursor == |tokens| {
        return false, columns, cursor;
      }
      if tokens[cursor] == Symbol(')') {
        return true, columns + [column], cursor + 1;
      }
      if tokens[cursor] != Symbol(',') {
        return false, columns, cursor;
      }
      cursor := cursor + 1;
      CommaList.PrependTwice(columns, column, ParseColumns(tokens[cursor..], names, limit - |columns| - 1));
      columns := columns + [column];
    }
  }

  lemma SuffixAt(tokens: seq<Token>, cursor: nat, version: Version)
    requires cursor <= |tokens| && ParseLiteral(tokens[cursor..], version).Some?
    ensures var rest := ParseLiteral(tokens[cursor..], version).value.1;
            cursor < |tokens| - |rest| && tokens[|tokens| - |rest|..] == rest
  {
  }

  /** One literal at the cursor. */
  method ReadLiteral(tokens: seq<Token>, cursor: nat, version: Version) returns (ok: bool, w: Written, next: nat)
    requires cursor <= |tokens|
    ensures ok <==> LiteralItem(version)(tokens[cursor..]).Some?
    ensures ok ==> cursor < next <= |tokens| && LiteralItem(version)(tokens[cursor..]) == Some((w, tokens[next..]))
  {
    var literal := ParseLiteral(tokens[cursor..], version);
    if literal.None? {
      return false, WrittenInteger(0), cursor;
    }
    SuffixAt(tokens, cursor, version);
    return true, literal.value.0, |tokens| - |literal.value.1|;
  }

  function ParsedRow(tokens: seq<Token>, start: nat, version: Version, n: nat): Option<(seq<Written>, seq<Token>)>
    requires start <= |tokens|
  {
    CommaList.Parse(LiteralItem(version), tokens[start..], n)
  }

  /**
   * `ws` are the first literals of a row of `n` that starts at `start`; after the last one the cursor stands behind
   * it.
   */
  ghost predicate RowProgress(tokens: seq<Token>, start: nat, version: Version, n: nat, cursor: nat, ws: seq<Written>)
    requires start <= |tokens| && cursor <= |tokens|
  {
    && |ws| <= n
    && if |ws| < n then CommaList.Progress(LiteralItem(version), tokens, start, n, cursor, ws)
       else if StartsWithSymbol(tokens[cursor..], ',') then ParsedRow(tokens, start, version, n).None?
       else ParsedRow(tokens, start, version, n) == Some((ws, tokens[cursor..]))
  }

  /** The parsed row has all `n` literals, and they fit into what is left of the byte bound. */
  ghost predicate RowFits(parsed: Option<(seq<Written>, seq<Token>)>, n: nat, total: nat) {
    parsed.Some? && |parsed.value.0| == n && total + RowBytes(RowOf(parsed.value.0)) <= MAX_SEED_LITERAL_BYTES
  }

  /** The next literal of a row, and the comma after it unless it is the last. */
  method ReadRowLiteral(tokens: seq<Token>, ghost start: nat, version: Version, n: nat, cursor: nat, i: nat,
                        ghost ws: seq<Written>)
    returns (ok: bool, w: Written, next: nat)
    requires start <= |tokens| && cursor <= |tokens| && |ws| == i < n
             && RowProgress(tokens, start, version, n, cursor, ws)
    ensures ok ==> cursor < next <= |tokens| && RowProgress(tokens, start, version, n, next, ws + [w])
    ensures ok && ParsedRow(tokens, start, version, n).Some? ==>
              ws + [w] <= ParsedRow(tokens, start, version, n).value.0
    ensures !ok ==> !RowFits(ParsedRow(tokens, start, version, n), n, 0)
  {
    ghost var item := LiteralItem(version);
    ok, w, next := ReadLiteral(tokens, cursor, version);
    if !ok {
      CommaList.ProgressFails(item, tokens, start, n, cursor, ws);
      return;
    }
    CommaList.ProgressStep(item, tokens, start, n, cursor, ws, w, next);
    if StartsWithSymbol(tokens[next..], ',') {
      CommaList.ProgressPrefix(item, tokens, start, n, next + 1, ws + [w]);
      if i + 1 == n { CommaList.ProgressFails(item, tokens, start, n, next + 1, ws + [w]); }
    }
    if i + 1 < n {
      ok := next < |tokens| && tokens[next] == Symbol(',');
      next := if ok then next + 1 else next;
    }
  }

  /** The literals between the parentheses of one row. */
  method ParseRowLiterals(tokens: seq<Token>, start: nat, version: Version, n: nat, total: nat)
    returns (ok: bool, row: Row, cursor: nat, bytes: nat, ghost ws: seq<Written>)
    requires start <= |tokens| && n > 0 && total <= MAX_SEED_LITERAL_BYTES
    ensures !ok ==> !RowFits(ParsedRow(tokens, start, version, n), n, total)
    ensures ok ==> start < cursor <= |tokens| && |ws| == n && RowProgress(tokens, start, version, n, cursor, ws)
    ensures ok ==> row == RowOf(ws) && bytes == total + RowBytes(row) <= MAX_SEED_LITERAL_BYTES
  {
    cursor, bytes, row, ws := start, total, [], [];
    CommaList.ProgressStart(LiteralItem(version), tokens, start, n);
    for i := 0 to n
      invariant start <= cursor <= |tokens| && row == RowOf(ws) && |ws| == i && (i > 0 ==> start < cursor)
      invariant bytes == total + RowBytes(row) <= MAX_SEED_LITERAL_BYTES
      invariant RowProgress(tokens, start, version, n, cursor, ws)
    {
      var read, written, next := ReadRowLiteral(tokens, start, version, n, cursor, i, ws);
      if !read {
        return false, row, cursor, bytes, ws;
      }
      RowOneMore(ws, written);
      cursor, ws := next, ws + [written];
      row := row + [ValueOf(written)];
      bytes := bytes + LiteralBytes(ValueOf(written));
      if bytes > MAX_SEED_LITERAL_BYTES {
        ghost var parsed := ParsedRow(tokens, start, version, n);
        if parsed.Some? { LiteralsGrow(ws, parsed.value.0); }
        return false, row, cursor, bytes, ws;
      }
    }
    ok := true;
  }

  lemma RowOneMore(ws: seq<Written>, w: Written)
    ensures RowOf(ws + [w]) == RowOf(ws) + [ValueOf(w)]
    ensures RowBytes(RowOf(ws + [w])) == RowBytes(RowOf(ws)) + LiteralBytes(ValueOf(w))
  {
    assert (ws + [w])[..|ws|] == ws;
    LiteralBytesFirst(RowOf(ws), ValueOf(w), |ws|);
  }

  lemma {:induction false} LiteralsGrow(ws: seq<Written>, all: seq<Written>)
    requires ws <= all
    ensures RowBytes(RowOf(ws)) <= RowBytes(RowOf(all))
  {
    if |ws| < |all| {
      var front := all[..|all| - 1];
      LiteralsGrow(ws, front);
      RowOneMore(front, all[|all| - 1]);
      assert front + [all[|all| - 1]] == all;
    } else {
      assert ws == all;
    }
  }

  // ---- Rows ----

  lemma RowsOneMore(wss: seq<seq<Written>>, ws: seq<Written>)
    ensures RowsOf(wss + [ws]) == RowsOf(wss) + [RowOf(ws)]
    ensures RowsBytes(RowsOf(wss + [ws])) == RowsBytes(RowsOf(wss)) + RowBytes(RowOf(ws))
  {
    assert (wss + [ws])[..|wss|] == wss;
    RowBytesFirst(RowsOf(wss), RowOf(ws), |wss|);
  }

  lemma {:induction false} RowsGrow(wss: seq<seq<Written>>, all: seq<seq<Written>>)
    requires wss <= all
    ensures RowsBytes(RowsOf(wss)) <= RowsBytes(RowsOf(all))
  {
    if |wss| < |all| {
      var front := all[..|all| - 1];
      RowsGrow(wss, front);
      RowsOneMore(front, all[|all| - 1]);
      assert front + [all[|all| - 1]] == all;
    } else {
      assert wss == all;
    }
  }

  /** The row at a place, if its literals fit into what is left of the byte bound. */
  ghost predicate RowAtFits(parsed: Option<(seq<Written>, seq<Token>)>, total: nat) {
    parsed.Some? && total + RowBytes(RowOf(parsed.value.0)) <= MAX_SEED_LITERAL_BYTES
  }

  /** What a row is, read from its parenthesis. */
  lemma RowAtParenthesis(tokens: seq<Token>, start: nat, version: Version, n: nat)
    requires start <= |tokens|
    ensures RowItem(version, n)(tokens[start..]) ==
            if !(start < |tokens| && tokens[start] == Symbol('(')) then None
            else
              match ParsedRow(tokens, start + 1, version, n)
              case None => None
              case Some((ws, rest)) => if |ws| == n && StartsWithSymbol(rest, ')') then Some((ws, rest[1..])) else None
  {
    if start < |tokens| { assert tokens[start..][1..] == tokens[start + 1..]; }
  }

  /** Behind the last literal, a row is complete exactly when its closing parenthesis follows. */
  lemma RowEnds(tokens: seq<Token>, start: nat, version: Version, n: nat, cursor: nat, ws: seq<Written>)
    requires start < |tokens| && tokens[start] == Symbol('(') && cursor <= |tokens|
    requires |ws| == n && RowProgress(tokens, start + 1, version, n, cursor, ws)
    ensures RowItem(version, n)(tokens[start..]) ==
            if cursor < |tokens| && tokens[cursor] == Symbol(')') then Some((ws, tokens[cursor + 1..])) else None
  {
    RowAtParenthesis(tokens, start, version, n);
    if cursor < |tokens| {
      assert tokens[cursor..][0] == tokens[cursor] && tokens[cursor..][1..] == tokens[cursor + 1..];
    }
  }

  lemma RowTooLong(tokens: seq<Token>, start: nat, version: Version, n: nat, total: nat)
    requires start < |tokens|
             && tokens[start] == Symbol('(') && !RowFits(ParsedRow(tokens, start + 1, version, n), n, total)
    ensures !RowAtFits(RowItem(version, n)(tokens[start..]), total)
  {
    RowAtParenthesis(tokens, start, version, n);
  }

  lemma NoRowHere(tokens: seq<Token>, start: nat, version: Version, n: nat)
    requires start <= |tokens| && !(start < |tokens| && tokens[start] == Symbol('('))
    ensures RowItem(version, n)(tokens[start..]).None?
  {
  }

  /** A row as read: its literals, the place after it, and the bytes so far. */
  datatype RowRead = RowRead(row: Row, next: nat, bytes: nat)

  /** One parenthesised row. */
  method ParseRowAt(tokens: seq<Token>, start: nat, version: Version, n: nat, total: nat) returns (r: Option<RowRead>)
    requires start <= |tokens| && n > 0 && total <= MAX_SEED_LITERAL_BYTES
    ensures r.None? ==> !RowAtFits(RowItem(version, n)(tokens[start..]), total)
    ensures r.Some? ==> IsRowRead(RowItem(version, n)(tokens[start..]), tokens, start, total, r.value)
  {
    if !(start < |tokens| && tokens[start] == Symbol('(')) {
      NoRowHere(tokens, start, version, n);
      return None;
    }
    var ok, row, cursor, bytes;
    ghost var ws;
    ok, row, cursor, bytes, ws := ParseRowLiterals(tokens, start + 1, version, n, total);
    if !ok {
      RowTooLong(tokens, start, version, n, total);
      return None;
    }
    RowEnds(tokens, start, version, n, cursor, ws);
    if cursor == |tokens| || tokens[cursor] != Symbol(')') {
      return None;
    }
    r := Some(RowRead(row, cursor + 1, bytes));
  }

  /** The row read is the parsed one. */
  ghost predicate IsRowRead(parsed: Option<(seq<Written>, seq<Token>)>, tokens: seq<Token>, start: nat, total: nat,
                            r: RowRead) {
    && start < r.next <= |tokens| && parsed.Some? && tokens[r.next..] == parsed.value.1
    && r.row == RowOf(parsed.value.0) && r.bytes == total + RowBytes(r.row) <= MAX_SEED_LITERAL_BYTES
  }

  function ParsedRows(tokens: seq<Token>, start: nat, version: Version, n: nat, limit: nat)
    : Option<(seq<seq<Written>>, seq<Token>)>
    requires start <= |tokens|
  {
    CommaList.Parse(RowItem(version, n), tokens[start..], limit)
  }

  /** All rows parse up to the end, and their literals fit the byte bound. */
  ghost predicate StatementFits(parsed: Option<(seq<seq<Written>>, seq<Token>)>) {
    parsed.Some? && parsed.value.1 == [] && RowsBytes(RowsOf(parsed.value.0)) <= MAX_SEED_LITERAL_BYTES
  }

  /** What follows a row that has been read: the end, a comma and more rows, or something that does not belong there. */
  lemma AfterRow(item: CommaList.Item<seq<Written>>, tokens: seq<Token>, start: nat, limit: nat, cursor: nat,
                 wss: seq<seq<Written>>, ws: seq<Written>, next: nat)
    requires start <= |tokens| && cursor <= |tokens| && |wss| < limit && next <= |tokens|
    requires CommaList.Progress(item, tokens, start, limit, cursor, wss)
             && item(tokens[cursor..]) == Some((ws, tokens[next..]))
    ensures next == |tokens| ==> CommaList.Parse(item, tokens[start..], limit) == Some((wss + [ws], []))
    ensures next < |tokens| && tokens[next] == Symbol(',') ==>
              CommaList.Progress(item, tokens, start, limit, next + 1, wss + [ws])
    ensures next < |tokens| && tokens[next] != Symbol(',') ==>
              !StatementFits(CommaList.Parse(item, tokens[start..], limit))
  {
    CommaList.ProgressStep(item, tokens, start, limit, cursor, wss, ws, next);
    if next < |tokens| { assert tokens[next..][0] == tokens[next]; }
  }

  /** What an item reads off the tokens at the cursor ends at `next`. */
  ghost predicate ReadsTo<A(!new)>(item: CommaList.Item<A>, tokens: seq<Token>, cursor: nat, next: nat)
    requires cursor <= |tokens|
  {
    next <= |tokens| && (item(tokens[cursor..]).Some? ==> item(tokens[cursor..]).value.1 == tokens[next..])
  }

  lemma RowSuffix(tokens: seq<Token>, cursor: nat, version: Version, n: nat) returns (next: nat)
    requires cursor <= |tokens|
    ensures ReadsTo(RowItem(version, n), tokens, cursor, next)
  {
    next := 0;
    var parsed := ParseRow(tokens[cursor..], version, n);
    if parsed.Some? {
      RowSound(tokens[cursor..], version, n);
      var k := |PrintRow(parsed.value.0)|;
      next := cursor + k;
      assert tokens[cursor..][k..] == parsed.value.1 && tokens[cursor..][k..] == tokens[cursor + k..];
    }
  }

  /** Rows read so far are the first of all rows, which then take at least their bytes. */
  lemma RowsTakeBytes(item: CommaList.Item<seq<Written>>, tokens: seq<Token>, start: nat, limit: nat, cursor: nat,
                      wss: seq<seq<Written>>, ws: seq<Written>, next: nat)
    requires start <= |tokens| && cursor <= |tokens| && |wss| < limit && next <= |tokens|
    requires CommaList.Progress(item, tokens, start, limit, cursor, wss)
             && item(tokens[cursor..]) == Some((ws, tokens[next..]))
    ensures var whole := CommaList.Parse(item, tokens[start..], limit);
            whole.Some? ==> RowsBytes(RowsOf(wss)) + RowBytes(RowOf(ws)) <= RowsBytes(RowsOf(whole.value.0))
  {
    var whole := CommaList.Parse(item, tokens[start..], limit);
    CommaList.ProgressStep(item, tokens, start, limit, cursor, wss, ws, next);
    if StartsWithSymbol(tokens[next..], ',') {
      CommaList.ProgressPrefix(item, tokens, start, limit, next + 1, wss + [ws]);
    }
    RowsOneMore(wss, ws);
    if whole.Some? { RowsGrow(wss + [ws], whole.value.0); }
  }

  /** A row that does not parse or does not fit makes the statement unacceptable. */
  lemma RowRefused(item: CommaList.Item<seq<Written>>, tokens: seq<Token>, start: nat, limit: nat, cursor: nat,
                   wss: seq<seq<Written>>, next: nat)
    requires start <= |tokens| && cursor <= |tokens| && |wss| < limit && ReadsTo(item, tokens, cursor, next)
    requires CommaList.Progress(item, tokens, start, limit, cursor, wss)
    requires !RowAtFits(item(tokens[cursor..]), RowsBytes(RowsOf(wss)))
    ensures !StatementFits(CommaList.Parse(item, tokens[start..], limit))
  {
    if item(tokens[cursor..]).None? {
      CommaList.ProgressFails(item, tokens, start, limit, cursor, wss);
    } else {
      RowsTakeBytes(item, tokens, start, limit, cursor, wss, item(tokens[cursor..]).value.0, next);
    }
  }

  /** `wss` are the first rows and take `total` bytes, and `read` is the row after them. */
  ghost predicate RowJoins(wss: seq<seq<Written>>, ws: seq<Written>, total: nat, read: RowRead) {
    && RowsOf(wss + [ws]) == RowsOf(wss) + [read.row]
    && total <= read.bytes == RowsBytes(RowsOf(wss + [ws])) <= MAX_SEED_LITERAL_BYTES
  }

  /** The next row. */
  method ReadRow(tokens: seq<Token>, ghost start: nat, version: Version, n: nat, ghost limit: nat, cursor: nat,
                 ghost wss: seq<seq<Written>>, total: nat)
    returns (read: Option<RowRead>, ghost ws: seq<Written>)
    requires start <= |tokens| && cursor <= |tokens| && n > 0 && |wss| < limit
    requires CommaList.Progress(RowItem(version, n), tokens, start, limit, cursor, wss)
    requires total == RowsBytes(RowsOf(wss)) <= MAX_SEED_LITERAL_BYTES
    ensures read.None? ==> !StatementFits(ParsedRows(tokens, start, version, n, limit))
    ensures read.Some? ==>
              && cursor < read.value.next <= |tokens| && RowJoins(wss, ws, total, read.value)
              && RowItem(version, n)(tokens[cursor..]) == Some((ws, tokens[read.value.next..]))
  {
    ghost var item := RowItem(version, n);
    ws := [];
    read := ParseRowAt(tokens, cursor, version, n, total);
    if read.None? {
      ghost var next := RowSuffix(tokens, cursor, version, n);
      RowRefused(item, tokens, start, limit, cursor, wss, next);
    } else {
      ws := item(tokens[cursor..]).value.0;
      RowsOneMore(wss, ws);
    }
  }

  /** All rows, up to the end of the statement. */
  method ParseRowList(tokens: seq<Token>, start: nat, version: Version, n: nat, limit: nat)
      returns (ok: bool, rows: seq<Row>)
    requires start <= |tokens| && n > 0
    ensures var parsed := ParsedRows(tokens, start, version, n, limit);
            && (ok <==> StatementFits(parsed))
            && (ok ==> rows == RowsOf(parsed.value.0))
  {
    hide ParseRow, RowOf;
    var cursor, total := start, 0;
    rows := [];
    ghost var wss: seq<seq<Written>> := [];
    ghost var item := RowItem(version, n);
    CommaList.ProgressStart(item, tokens, start, limit);
    while true
      invariant start <= cursor <= |tokens| && |wss| <= limit && rows == RowsOf(wss)
      invariant total == RowsBytes(RowsOf(wss)) <= MAX_SEED_LITERAL_BYTES
      invariant CommaList.Progress(item, tokens, start, limit, cursor, wss)
      decreases |tokens| - cursor
    {
      if |rows| >= limit {
        CommaList.ProgressFails(item, tokens, start, limit, cursor, wss);
        return false, rows;
      }
      var read;
      ghost var ws;
      read, ws := ReadRow(tokens, start, version, n, limit, cursor, wss, total);
      if read.None? {
        return false, rows;
      }
      AfterRow(item, tokens, start, limit, cursor, wss, ws, read.value.next);
      rows, wss, total, cursor := rows + [read.value.row], wss + [ws], read.value.bytes, read.value.next;
      if cursor == |tokens| {
        return true, rows;
      }
      if tokens[cursor] != Symbol(',') {
        return false, rows;
      }
      cursor := cursor + 1;
    }
  }

  // ---- The whole statement ----

  /** The tokens are the text of `s`, and `s` is admitted within all bounds. */
  ghost predicate Writes(tokens: seq<Token>, version: Version, s: Statement) {
    && StatementOk(s, version) && tokens == PrintStatement(s)
    && |tokens| <= MAX_SEED_TOKENS && RowsBytes(RowsOf(s.rows)) <= MAX_SEED_LITERAL_BYTES
  }

  /** What a statement does: its rows in canonical order. */
  function EffectOf(version: Version, s: Statement): Effect {
    Effect(version, s.table, s.columns, Sort(RowLess, RowsOf(s.rows)))
  }

  lemma WritesIsParse(tokens: seq<Token>, version: Version, s: Statement)
    ensures Writes(tokens, version, s) <==>
            ParseStatement(tokens, version) == Some(s) && |tokens| <= MAX_SEED_TOKENS
                && RowsBytes(RowsOf(s.rows)) <= MAX_SEED_LITERAL_BYTES
  {
    if Writes(tokens, version, s) { StatementComplete(s, version); }
    if ParseStatement(tokens, version) == Some(s) { StatementSound(tokens, version); }
  }

  /** Everything after INSERT; only the bounds on tokens, and duplicates, are left to the caller. */
  method ParseInsert(tokens: seq<Token>, version: Version)
      returns (ok: bool, table: Bytes, columns: seq<Bytes>, rows: seq<Row>)
    requires StartsWithWord(tokens, Ascii("insert"))
    ensures var parsed := ParseStatement(tokens, version);
            && (ok <==> parsed.Some? && RowsBytes(RowsOf(parsed.value.rows)) <= MAX_SEED_LITERAL_BYTES)
            && (ok ==>
                  && table == parsed.value.table && columns == parsed.value.columns
                  && rows == RowsOf(parsed.value.rows))
  {
    table, columns, rows := [], [], [];
    if !(|tokens| > 4 && IsWord(tokens[1], Ascii("into")) && tokens[2].Word? && CanonicalIdentifier(tokens[2].text)
         && tokens[3] == Symbol('('))
    {
      return false, table, columns, rows;
    }
    table := tokens[2].text;
    var cursor;
    ok, columns, cursor := ParseColumnList(tokens, 4, MAX_SEED_COLUMNS);
    if !ok || cursor == |tokens| || !IsWord(tokens[cursor], Ascii("values")) {
      return false, table, columns, rows;
    }
    assert tokens[cursor..][1..] == tokens[cursor + 1..];
    ok, rows := ParseRowList(tokens, cursor + 1, version, |columns|, MAX_SEED_ROWS);
  }

  /**
   * An INSERT is accepted exactly when it is the text of an admitted statement without
   * duplicate rows; its effect is then that statement's. Other statements are passed over.
   */
  method ClassifySeedInsert(tokens: seq<Token>, version: Version) returns (r: Result<Option<Effect>, Refusal>)
    ensures r == Ok(None) <==> !StartsWithWord(tokens, Ascii("insert"))
    ensures forall s :: Writes(tokens, version, s) ==>
              r == if Distinct(RowsOf(s.rows)) then Ok(Some(EffectOf(version, s))) else Err(RowsDuplicate)
    ensures r == Err(RowsDuplicate) || (r.Ok? && r.value.Some?) ==> exists s :: Writes(tokens, version, s)
    ensures r.Err? ==> r.error in {Grammar, RowsDuplicate}
  {
    forall s ensures Writes(tokens, version, s) <==>
        ParseStatement(tokens, version) == Some(s) && |tokens| <= MAX_SEED_TOKENS
            && RowsBytes(RowsOf(s.rows)) <= MAX_SEED_LITERAL_BYTES
    {
      WritesIsParse(tokens, version, s);
    }
    if !StartsWithWord(tokens, Ascii("insert")) {
      return Ok(None);
    }
    if |tokens| > MAX_SEED_TOKENS {
      return Err(Grammar);
    }
    var ok, table, columns, rows := ParseInsert(tokens, version);
    if !ok {
      return Err(Grammar);
    }
    assert Writes(tokens, version, ParseStatement(tokens, version).value);
    RowStrictTotal();
    NeighboursShowDuplicates(RowLess, rows);
    var sorted := Sort(RowLess, rows);
    if exists i :: 0 <= i < |sorted| - 1 && sorted[i] == sorted[i + 1] {
      return Err(RowsDuplicate);
    }
    return Ok(Some(Effect(version, table, columns, sorted)));
  }

  /** Writing rows in another order changes nothing about the effect. */
  lemma RowOrderIrrelevant(version: Version, a: Statement, b: Statement)
    requires a.table == b.table && a.columns == b.columns
    ensures EffectOf(version, a) == EffectOf(version, b) <==> multiset(RowsOf(a.rows)) == multiset(RowsOf(b.rows))
  {
    RowStrictTotal();
    SortIsCanonical(RowLess, RowsOf(a.rows), RowsOf(b.rows));
  }
}
