/** The cumulative seed state of a manifest (src/d1_migration_seed_rows.rs). */
module SeedState {
  import opened Prelude
  import opened Sorting
  import opened SeedInsert

  datatype TableState = TableState(version: Version, table: Bytes, columns: seq<Bytes>, rows: seq<Row>)

  type Tables = map<Bytes, TableState>

  function RowCounts(m: Tables): map<Bytes, nat> {
    map k | k in m :: |m[k].rows|
  }

  function ByteCounts(m: Tables): map<Bytes, nat> {
    map k | k in m :: RowsBytes(m[k].rows)
  }

  /** As many slots as the counts of all tables add up to. */
  function Slots(counts: map<Bytes, nat>): set<(Bytes, nat)> {
    set k, i | k in counts && 0 <= i < counts[k] :: (k, i)
  }

  function TotalRows(m: Tables): nat {
    |Slots(RowCounts(m))|
  }

  function TotalBytes(m: Tables): nat {
    |Slots(ByteCounts(m))|
  }

  function Pile(k: Bytes, n: nat): set<(Bytes, nat)> {
    set i: nat | i < n :: (k, i)
  }

  lemma {:induction false} PileSize(k: Bytes, n: nat)
    ensures |Pile(k, n)| == n
  {
    if n == 0 {
      assert Pile(k, n) == {};
    } else {
      PileSize(k, n - 1);
      assert Pile(k, n) == Pile(k, n - 1) + {(k, n - 1)};
    }
  }

  lemma SlotsAdd(counts: map<Bytes, nat>, key: Bytes, n: nat)
    requires key !in counts
    ensures |Slots(counts[key := n])| == |Slots(counts)| + n
  {
    PileSize(key, n);
    assert Slots(counts[key := n]) == Slots(counts) + Pile(key, n);
    assert Slots(counts) !! Pile(key, n);
  }

  /** A new table adds its own rows and bytes to the totals. */
  lemma TotalsAdd(m: Tables, key: Bytes, t: TableState)
    requires key !in m
    ensures TotalRows(m[key := t]) == TotalRows(m) + |t.rows|
    ensures TotalBytes(m[key := t]) == TotalBytes(m) + RowsBytes(t.rows)
  {
    SlotsAdd(RowCounts(m), key, |t.rows|);
    SlotsAdd(ByteCounts(m), key, RowsBytes(t.rows));
    assert RowCounts(m[key := t]) == RowCounts(m)[key := |t.rows|];
    assert ByteCounts(m[key := t]) == ByteCounts(m)[key := RowsBytes(t.rows)];
  }

  predicate LiteralBounded(l: Literal) {
    match l
    case Text(t) => |t| <= MAX_SEED_VALUE_BYTES && 0 !in t
    case Blob(b) => |b| <= MAX_SEED_VALUE_BYTES
    case _ => true
  }

  predicate RowBounded(r: Row, width: nat) {
    |r| == width && forall i :: 0 <= i < |r| ==> LiteralBounded(r[i])
  }

  predicate ColumnsBounded(cs: seq<Bytes>) {
    1 <= |cs| <= MAX_SEED_COLUMNS && ColumnsOk(cs)
  }

  predicate RowsBounded(rows: seq<Row>, width: nat) {
    && |rows| <= MAX_SEED_ROWS
    && (forall i :: 0 <= i < |rows| ==> RowBounded(rows[i], width))
    && (forall i, j :: 0 <= i < j < |rows| ==> rows[i] != rows[j])
  }

  /** The closed bounds an engine-derived effect is checked against again. */
  predicate EngineEffectBounded(m: Tables, e: Effect) {
    && TotalBytes(m) + RowsBytes(e.rows) <= MAX_SEED_LITERAL_BYTES
    && ColumnsBounded(e.columns) && RowsBounded(e.rows, |e.columns|)
  }

  function StateOf(e: Effect): TableState {
    TableState(e.version, e.table, e.columns, e.rows)
  }

  predicate Insertable(m: Tables, e: Effect) {
    && (e.version == V3Fts ==> EngineEffectBounded(m, e))
    && |m| < MAX_SEED_TABLES && Lower(e.table) !in m
    && TotalRows(m) + |e.rows| <= MAX_SEED_ROWS_TOTAL
  }

  class Ledger {
    var tables: Tables

    ghost predicate Valid()
      reads this
    {
      && |tables| <= MAX_SEED_TABLES && TotalRows(tables) <= MAX_SEED_ROWS_TOTAL
      && forall k :: k in tables ==> Lower(tables[k].table) == k
    }

    constructor ()
      ensures Valid() && tables == map[]
    {
      tables := map[];
      new;
      assert Slots(RowCounts(tables)) == {};
    }

    /** Add the seed rows of one more table; a refusal changes nothing. */
    method InsertSeedEffect(e: Effect) returns (r: Result<(), Refusal>)
      requires Valid()
      modifies this
      ensures Valid()
      ensures r.Ok? <==> Insertable(old(tables), e)
      ensures r.Ok? ==> tables == old(tables)[Lower(e.table) := StateOf(e)]
      ensures r.Ok? ==> TotalRows(tables) == old(TotalRows(tables)) + |e.rows|
      ensures r.Ok? && e.version == V3Fts ==> TotalBytes(tables) <= MAX_SEED_LITERAL_BYTES
      ensures r.Err? ==> tables == old(tables) && r.error in {RowsUnbounded, TargetReused}
      ensures r == Err(TargetReused) ==> |tables| >= MAX_SEED_TABLES || Lower(e.table) in tables
    {
      if e.version == V3Fts && !EngineEffectBounded(tables, e) {
        return Err(RowsUnbounded);
      }
      var key := Lower(e.table);
      if |tables| >= MAX_SEED_TABLES || key in tables {
        return Err(TargetReused);
      }
      if TotalRows(tables) + |e.rows| > MAX_SEED_ROWS_TOTAL {
        return Err(RowsUnbounded);
      }
      TotalsAdd(tables, key, StateOf(e));
      tables := tables[key := StateOf(e)];
      return Ok(());
    }
  }

  /** What the parser accepts always meets the closed bounds of its own table. */
  lemma {:induction false} ParsedRowsBounded(version: Version, s: Statement)
    requires StatementOk(s, version) && Distinct(RowsOf(s.rows))
    ensures ColumnsBounded(EffectOf(version, s).columns)
    ensures RowsBounded(EffectOf(version, s).rows, |s.columns|)
  {
    var rows := RowsOf(s.rows);
    RowStrictTotal();
    SortPermutes(RowLess, rows);
    DistinctIsMultiplicity(rows);
    DistinctIsMultiplicity(Sort(RowLess, rows));
    assert |multiset(Sort(RowLess, rows))| == |multiset(rows)|;
    RowsOfBounded(s.rows, version, |s.columns|);
    forall i | 0 <= i < |rows| ensures RowBounded(Sort(RowLess, rows)[i], |s.columns|) {
      assert Sort(RowLess, rows)[i] in multiset(rows);
    }
  }

  lemma {:induction false} RowOfBounded(ws: seq<Written>, version: Version)
    requires forall i :: 0 <= i < |ws| ==> WrittenOk(ws[i], version)
    ensures forall i :: 0 <= i < |ws| ==> LiteralBounded(RowOf(ws)[i])
  {
    if ws != [] { RowOfBounded(ws[..|ws| - 1], version); }
  }

  lemma {:induction false} RowsOfBounded(wss: seq<seq<Written>>, version: Version, width: nat)
    requires RowsOk(wss, version, width)
    ensures forall r :: r in RowsOf(wss) ==> RowBounded(r, width)
  {
    if wss != [] {
      RowsOfBounded(wss[..|wss| - 1], version, width);
      RowOfBounded(wss[|wss| - 1], version);
    }
  }
}
