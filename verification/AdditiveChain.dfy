/**
 * Additive transitions between manifest prefixes (src/d1_migration_additive.rs):
 * the check of one prefix against the next, and what it means over all of them.
 */
module AdditiveChain {
  import opened Prelude
  import opened AddColumn

  datatype SchemaObject = SchemaObject(objectType: Bytes, name: Bytes, tableName: Bytes, sql: Bytes)

  datatype ForeignKey = ForeignKey(
    id: i64, sequence: i64, referencedTable: Bytes, fromColumn: Bytes, toColumn: Option<Bytes>,
    onUpdate: Bytes, onDelete: Bytes, matchMode: Bytes)

  datatype TableState = TableState(name: Bytes, columns: seq<Column>, foreignKeys: seq<ForeignKey>)

  datatype SchemaState = SchemaState(objects: seq<SchemaObject>, tables: seq<TableState>)

  type ObjectKey = (Bytes, Bytes)

  datatype PrefixPlan = PrefixPlan(created: set<ObjectKey>, addition: Option<Effect>, foreignKeysOn: bool)

  datatype Drift = PrefixMismatch | SchemaDrift | ParentSqlDrift | ParentMissing | TableDrift | ColumnDrift

  const TABLE: Bytes := Ascii("table")

  // ---- Lookup by identity; a later entry replaces an earlier one of the same identity ----

  function ObjectMap(objects: seq<SchemaObject>): map<ObjectKey, SchemaObject> {
    if objects == [] then map[]
    else ObjectMap(objects[..|objects| - 1])[KeyOf(objects[|objects| - 1]) := objects[|objects| - 1]]
  }

  function KeyOf(o: SchemaObject): ObjectKey {
    (o.objectType, o.name)
  }

  function TableMap(tables: seq<TableState>): map<Bytes, TableState> {
    if tables == [] then map[]
    else TableMap(tables[..|tables| - 1])[tables[|tables| - 1].name := tables[|tables| - 1]]
  }

  ghost predicate ObjectsKeyed(m: map<ObjectKey, SchemaObject>) {
    forall k :: k in m ==> KeyOf(m[k]) == k
  }

  ghost predicate TablesKeyed(m: map<Bytes, TableState>) {
    forall n :: n in m ==> m[n].name == n
  }

  lemma {:induction false} ObjectMapKeyed(objects: seq<SchemaObject>)
    ensures ObjectsKeyed(ObjectMap(objects))
  {
    if objects != [] { ObjectMapKeyed(objects[..|objects| - 1]); }
  }

  lemma {:induction false} TableMapKeyed(tables: seq<TableState>)
    ensures TablesKeyed(TableMap(tables))
  {
    if tables != [] { TableMapKeyed(tables[..|tables| - 1]); }
  }

  ghost predicate NamesUnique(tables: seq<TableState>) {
    forall i, j :: 0 <= i < j < |tables| ==> tables[i].name != tables[j].name
  }

  /** With unique names, lookup finds every listed table itself. */
  lemma {:induction false} UniqueLookup(tables: seq<TableState>, i: nat)
    requires NamesUnique(tables) && i < |tables|
    ensures tables[i].name in TableMap(tables) && TableMap(tables)[tables[i].name] == tables[i]
  {
    if i < |tables| - 1 { UniqueLookup(tables[..|tables| - 1], i); }
  }

  // ---- One prefix ----

  function Target(plan: PrefixPlan): Option<Bytes> {
    match plan.addition case None => None case Some(effect) => Some(effect.table)
  }

  /** The column number after the last one; it starts at 0, and again at 0 past the largest. */
  function NextCid(columns: seq<Column>): i64 {
    if columns == [] then 0
    else if columns[|columns| - 1].cid == I64_MAX then 0
    else columns[|columns| - 1].cid + 1
  }

  predicate ObjectKept(plan: PrefixPlan, before: SchemaObject, after: SchemaObject) {
    if before.objectType == TABLE && Target(plan) == Some(before.name)
    then after.tableName == before.tableName && after.sql != before.sql
    else after == before
  }

  predicate ColumnAppended(before: TableState, after: TableState, effect: Effect) {
    && after.foreignKeys == before.foreignKeys
    && |after.columns| == |before.columns| + 1
    && after.columns[..|before.columns|] == before.columns
    && after.columns[|before.columns|] == effect.column.(cid := NextCid(before.columns))
  }

  predicate TableKept(plan: PrefixPlan, before: TableState, after: TableState) {
    if Target(plan) == Some(before.name) then ColumnAppended(before, after, plan.addition.value) else after == before
  }

  ghost predicate ObjectsAdvance(before: map<ObjectKey, SchemaObject>, after: map<ObjectKey, SchemaObject>,
                                 plan: PrefixPlan) {
    && (forall k :: k in before ==> k in after && ObjectKept(plan, before[k], after[k]))
    && (forall k :: k in after && k !in before ==> k in plan.created)
  }

  ghost predicate TablesAdvance(before: map<Bytes, TableState>, after: map<Bytes, TableState>, plan: PrefixPlan) {
    && (forall n :: n in before ==> n in after && TableKept(plan, before[n], after[n]))
    && (forall n :: n in after && n !in before ==> (TABLE, n) in plan.created)
    && (Target(plan).Some? ==> Target(plan).value in before)
  }

  ghost predicate Advances(before: SchemaState, after: SchemaState, plan: PrefixPlan) {
    && ObjectsAdvance(ObjectMap(before.objects), ObjectMap(after.objects), plan)
    && TablesAdvance(TableMap(before.tables), TableMap(after.tables), plan)
  }

  /** The altered parent lost its table name, or kept the text it was supposed to change. */
  predicate ParentDrifted(plan: PrefixPlan, before: SchemaObject, after: SchemaObject) {
    before.objectType == TABLE && Target(plan) == Some(before.name) && !ObjectKept(plan, before, after)
  }

  method ValidateObjects(before: map<ObjectKey, SchemaObject>, after: map<ObjectKey, SchemaObject>, plan: PrefixPlan)
    returns (r: Result<(), Drift>)
    requires ObjectsKeyed(before)
    ensures r.Ok? <==> ObjectsAdvance(before, after, plan)
    ensures r.Err? ==> r.error in {SchemaDrift, ParentSqlDrift}
    ensures r == Err(ParentSqlDrift) ==>
              exists k :: k in before && k in after && ParentDrifted(plan, before[k], after[k])
  {
    var left := before.Keys;
    while left != {}
      invariant left <= before.Keys
      invariant forall k :: k in before.Keys - left ==> k in after && ObjectKept(plan, before[k], after[k])
      decreases left
    {
      var k :| k in left;
      if k !in after {
        return Err(SchemaDrift);
      }
      if before[k].objectType == TABLE && Target(plan) == Some(before[k].name) {
        if after[k].tableName != before[k].tableName || after[k].sql == before[k].sql {
          return Err(ParentSqlDrift);
        }
      } else if after[k] != before[k] {
        return Err(SchemaDrift);
      }
      left := left - {k};
    }
    if exists k | k in after.Keys :: k !in before && k !in plan.created {
      return Err(SchemaDrift);
    }
    return Ok(());
  }

  method ValidateTables(before: map<Bytes, TableState>, after: map<Bytes, TableState>, plan: PrefixPlan)
      returns (r: Result<(), Drift>)
    requires TablesKeyed(before)
    ensures r.Ok? <==> TablesAdvance(before, after, plan)
    ensures r.Err? ==> r.error in {ParentMissing, ColumnDrift, TableDrift}
    ensures r == Err(ColumnDrift) ==> plan.addition.Some?
  {
    var left := before.Keys;
    while left != {}
      invariant left <= before.Keys
      invariant forall n :: n in before.Keys - left ==> n in after && TableKept(plan, before[n], after[n])
      decreases left
    {
      var n :| n in left;
      if n !in after {
        return Err(ParentMissing);
      }
      if Target(plan) == Some(n) {
        var appended := ValidateColumnAppend(before[n], after[n], plan.addition.value);
        if appended.Err? {
          return appended;
        }
      } else if after[n] != before[n] {
        return Err(TableDrift);
      }
      left := left - {n};
    }
    if exists n | n in after.Keys :: n !in before && (TABLE, n) !in plan.created {
      return Err(TableDrift);
    }
    if Target(plan).Some? && (Target(plan).value !in before || Target(plan).value !in after) {
      return Err(ParentMissing);
    }
    return Ok(());
  }

  method ValidateColumnAppend(before: TableState, after: TableState, effect: Effect) returns (r: Result<(), Drift>)
    ensures r.Ok? <==> ColumnAppended(before, after, effect)
    ensures r.Err? ==> r.error == ColumnDrift
  {
    if before.foreignKeys != after.foreignKeys || |after.columns| != |before.columns| + 1
       || after.columns[..|before.columns|] != before.columns
    {
      return Err(ColumnDrift);
    }
    var expected := effect.column.(cid := NextCid(before.columns));
    if after.columns[|after.columns| - 1] != expected {
      return Err(ColumnDrift);
    }
    return Ok(());
  }

  method ValidatePrefixTransition(before: SchemaState, after: SchemaState, plan: PrefixPlan)
      returns (r: Result<(), Drift>)
    ensures r.Ok? <==> Advances(before, after, plan)
    ensures r != Err(PrefixMismatch)
  {
    ObjectMapKeyed(before.objects);
    TableMapKeyed(before.tables);
    r := ValidateObjects(ObjectMap(before.objects), ObjectMap(after.objects), plan);
    if r.Ok? {
      r := ValidateTables(TableMap(before.tables), TableMap(after.tables), plan);
    }
  }

  /** Every adjacent pair of states advances by its plan. */
  ghost predicate ChainAdvances(plans: seq<PrefixPlan>, states: seq<SchemaState>) {
    |states| == |plans| + 1 && forall k {:trigger plans[k]} :: 0 <= k < |plans| ==>
          Advances(states[k], states[k + 1], plans[k])
  }

  method ValidateAdditiveTransitions(plans: seq<PrefixPlan>, states: seq<SchemaState>) returns (r: Result<(), Drift>)
    ensures r.Ok? <==> ChainAdvances(plans, states)
    ensures r == Err(PrefixMismatch) <==> |states| != |plans| + 1
  {
    if |states| != |plans| + 1 {
      return Err(PrefixMismatch);
    }
    for k := 0 to |plans|
      invariant forall n :: 0 <= n < k ==> Advances(states[n], states[n + 1], plans[n])
    {
      r := ValidatePrefixTransition(states[k], states[k + 1], plans[k]);
      if r.Err? {
        return;
      }
    }
    return Ok(());
  }

  // ---- All prefixes at once ----

  /** The columns of table `name` after the additions of `plans` aimed at it. */
  function Extend(columns: seq<Column>, plans: seq<PrefixPlan>, name: Bytes): seq<Column> {
    if plans == [] then columns
    else
      var sofar := Extend(columns, plans[..|plans| - 1], name);
      var last := plans[|plans| - 1];
      if Target(last) == Some(name) then sofar + [last.addition.value.column.(cid := NextCid(sofar))] else sofar
  }

  /** How many additions of `plans` are aimed at table `name`. */
  function AdditionsTo(plans: seq<PrefixPlan>, name: Bytes): nat {
    if plans == [] then 0
    else AdditionsTo(plans[..|plans| - 1], name) + (if Target(plans[|plans| - 1]) == Some(name) then 1 else 0)
  }

  lemma {:induction false} ExtendCounts(columns: seq<Column>, plans: seq<PrefixPlan>, name: Bytes)
    ensures columns <= Extend(columns, plans, name)
    ensures |Extend(columns, plans, name)| == |columns| + AdditionsTo(plans, name)
  {
    if plans != [] { ExtendCounts(columns, plans[..|plans| - 1], name); }
  }

  /** How a table differs after the additions of `plans`. */
  ghost predicate TableLinked(before: TableState, after: TableState, plans: seq<PrefixPlan>) {
    && after.name == before.name && after.foreignKeys == before.foreignKeys
    && after.columns == Extend(before.columns, plans, before.name)
  }

  lemma TableStep(first: TableState, before: map<Bytes, TableState>, after: map<Bytes, TableState>,
                  plans: seq<PrefixPlan>)
    requires plans != [] && TablesAdvance(before, after, plans[|plans| - 1]) && TablesKeyed(after)
    requires first.name in before && TableLinked(first, before[first.name], plans[..|plans| - 1])
    ensures first.name in after && TableLinked(first, after[first.name], plans)
  {
    var middle, last := before[first.name], after[first.name];
    assert TableKept(plans[|plans| - 1], middle, last);
    if Target(plans[|plans| - 1]) == Some(first.name) {
      assert last.columns == middle.columns + [last.columns[|middle.columns|]];
    }
  }

  /** A table of an earlier prefix is in every later one, extended by exactly the additions in between. */
  lemma {:induction false} TableSurvives(plans: seq<PrefixPlan>, states: seq<SchemaState>, i: nat, j: nat, name: Bytes)
    requires ChainAdvances(plans, states) && i <= j < |states| && name in TableMap(states[i].tables)
    ensures name in TableMap(states[j].tables)
    ensures TableLinked(TableMap(states[i].tables)[name], TableMap(states[j].tables)[name], plans[i..j])
  {
    TableMapKeyed(states[i].tables);
    if i < j {
      TableSurvives(plans, states, i, j - 1, name);
      assert Advances(states[j - 1], states[j], plans[j - 1]);
      var between := plans[i..j];
      assert between[..|between| - 1] == plans[i..j - 1] && between[|between| - 1] == plans[j - 1];
      TableMapKeyed(states[j].tables);
      TableStep(TableMap(states[i].tables)[name], TableMap(states[j - 1].tables), TableMap(states[j].tables), between);
    }
  }

  /** Earlier columns stay a prefix, and the difference in number is the number of additions aimed at the table. */
  lemma ColumnsOnlyAppended(plans: seq<PrefixPlan>, states: seq<SchemaState>, i: nat, j: nat, name: Bytes)
    requires ChainAdvances(plans, states) && i <= j < |states| && name in TableMap(states[i].tables)
    ensures name in TableMap(states[j].tables)
    ensures var before, after := TableMap(states[i].tables)[name], TableMap(states[j].tables)[name];
            && before.columns <= after.columns
            && |after.columns| - |before.columns| == AdditionsTo(plans[i..j], name)
  {
    TableMapKeyed(states[i].tables);
    TableSurvives(plans, states, i, j, name);
    ExtendCounts(TableMap(states[i].tables)[name].columns, plans[i..j], name);
  }

  /** How an object may differ after `n` additions aimed at its name. */
  predicate ObjectLinked(before: SchemaObject, after: SchemaObject, n: nat) {
    && after.objectType == before.objectType && after.name == before.name && after.tableName == before.tableName
    && (before.objectType != TABLE || n == 0 ==> after == before)
    && (before.objectType == TABLE && n == 1 ==> after.sql != before.sql)
  }

  lemma ObjectStep(first: SchemaObject, before: map<ObjectKey, SchemaObject>, after: map<ObjectKey, SchemaObject>,
                   plan: PrefixPlan, key: ObjectKey, n: nat)
    requires ObjectsAdvance(before, after, plan) && key in before && ObjectLinked(first, before[key], n)
    requires ObjectsKeyed(before) && ObjectsKeyed(after)
    ensures key in after && ObjectLinked(first, after[key], if Target(plan) == Some(key.1) then n + 1 else n)
  {
    assert ObjectKept(plan, before[key], after[key]);
  }

  lemma AdditionsStep(plans: seq<PrefixPlan>, i: nat, j: nat, name: Bytes)
    requires i < j <= |plans|
    ensures AdditionsTo(plans[i..j], name) == AdditionsTo(plans[i..j - 1], name) +
            (if Target(plans[j - 1]) == Some(name) then 1 else 0)
  {
    assert plans[i..j][..j - i - 1] == plans[i..j - 1] && plans[i..j][j - i - 1] == plans[j - 1];
  }

  /** An object keeps its identity and table; without an addition aimed at it, it is unchanged. */
  lemma {:induction false} ObjectSurvives(plans: seq<PrefixPlan>, states: seq<SchemaState>, i: nat, j: nat,
                                          key: ObjectKey)
    requires ChainAdvances(plans, states) && i <= j < |states| && key in ObjectMap(states[i].objects)
    ensures key in ObjectMap(states[j].objects)
    ensures ObjectLinked(ObjectMap(states[i].objects)[key], ObjectMap(states[j].objects)[key],
                         AdditionsTo(plans[i..j], key.1))
  {
    hide ObjectMap;
    ObjectMapKeyed(states[i].objects);
    ObjectMapKeyed(states[j].objects);
    if i < j {
      ObjectMapKeyed(states[j - 1].objects);
      ObjectSurvives(plans, states, i, j - 1, key);
      assert Advances(states[j - 1], states[j], plans[j - 1]);
      AdditionsStep(plans, i, j, key.1);
      ObjectStep(ObjectMap(states[i].objects)[key], ObjectMap(states[j - 1].objects), ObjectMap(states[j].objects),
                 plans[j - 1], key,
                 AdditionsTo(plans[i..j - 1], key.1));
    }
  }

  /** A table that was not there before was created in between. */
  lemma {:induction false} NewTableWasCreated(plans: seq<PrefixPlan>, states: seq<SchemaState>, i: nat, j: nat,
                                              name: Bytes)
    requires ChainAdvances(plans, states) && i <= j < |states|
    requires name !in TableMap(states[i].tables) && name in TableMap(states[j].tables)
    ensures exists k :: i <= k < j && (TABLE, name) in plans[k].created
  {
    assert i < j;
    assert Advances(states[j - 1], states[j], plans[j - 1]);
    if name in TableMap(states[j - 1].tables) { NewTableWasCreated(plans, states, i, j - 1, name); }
  }

  ghost predicate ContiguousCids(columns: seq<Column>) {
    forall k :: 0 <= k < |columns| ==> columns[k].cid == k
  }

  lemma CountedColumns(columns: seq<Column>)
    requires ContiguousCids(columns)
    ensures |columns| <= I64_MAX + 1
  {
    if columns != [] { assert columns[|columns| - 1].cid == |columns| - 1; }
  }

  /** Column numbers that count from 0 keep doing so, as long as signed 64-bit numbers can count the columns. */
  lemma {:induction false} CidsStayContiguous(columns: seq<Column>, plans: seq<PrefixPlan>, name: Bytes)
    requires ContiguousCids(columns)
    ensures ContiguousCids(Extend(columns, plans, name)) <==> |columns| + AdditionsTo(plans, name) <= I64_MAX + 1
  {
    ExtendCounts(columns, plans, name);
    CountedColumns(columns);
    if ContiguousCids(Extend(columns, plans, name)) {
      CountedColumns(Extend(columns, plans, name));
    }
    if plans != [] && |columns| + AdditionsTo(plans, name) <= I64_MAX + 1 {
      CidsStayContiguous(columns, plans[..|plans| - 1], name);
      ExtendCounts(columns, plans[..|plans| - 1], name);
      var sofar := Extend(columns, plans[..|plans| - 1], name);
      if sofar != [] { assert sofar[|sofar| - 1].cid == |sofar| - 1; }
    }
  }

  /**
   * In any later prefix of an accepted chain column numbers still count from 0, if they can count the columns at all.
   */
  lemma TableStaysContiguous(plans: seq<PrefixPlan>, states: seq<SchemaState>, i: nat, j: nat, name: Bytes)
    requires ChainAdvances(plans, states) && i <= j < |states| && name in TableMap(states[i].tables)
    requires ContiguousCids(TableMap(states[i].tables)[name].columns)
    ensures name in TableMap(states[j].tables)
    ensures var after := TableMap(states[j].tables)[name].columns; ContiguousCids(after) <==> |after| <= I64_MAX + 1
  {
    TableSurvives(plans, states, i, j, name);
    TableMapKeyed(states[i].tables);
    var before := TableMap(states[i].tables)[name].columns;
    ExtendCounts(before, plans[i..j], name);
    CidsStayContiguous(before, plans[i..j], name);
  }
}
