/**
 * Validation of the structured catalog projection (src/d1_catalog_evidence.rs).
 * Text that is only compared for equality is a `string`; hexadecimal text and
 * what it decodes to are bytes.
 */
module CatalogEvidence {
  import opened Prelude
  import UpperHex
  import Decimal
  import opened LexOrder

  const TABLE_SQL_TOKEN_SOURCE_BYTE_CAP: nat := 64 * 1024
  const CATALOG_VERSION: nat := 5

  datatype Classification = CatalogRowMalformed | CatalogRowsNonCanonical | CatalogFactsContradictory

  datatype Row = Row(
    schemaRowid: int,
    factOrder: int,
    factKind: string,
    typeStorage: string,
    typeHex: Bytes,
    relationType: string,
    nameStorage: string,
    nameHex: Bytes,
    ownerStorage: string,
    ownerHex: Bytes,
    sqlStorage: string,
    tokenSourceIsNull: int,
    tokenSourceHex: Bytes,
    virtualHit: int,
    replaceHit: int,
    fkIdStorage: string,
    fkIdHex: Bytes,
    fkId: int,
    fkSeqStorage: string,
    fkSeqHex: Bytes,
    fkSeq: int,
    parentStorage: string,
    parentHex: Bytes,
    fromStorage: string,
    fromHex: Bytes,
    toStorage: string,
    toIsNull: int,
    toHex: Bytes,
    onUpdateStorage: string,
    onUpdateHex: Bytes,
    onDeleteStorage: string,
    onDeleteHex: Bytes,
    matchStorage: string,
    matchHex: Bytes,
    blocker: string)

  // ---- One row on its own ----

  predicate ValueStorage(s: string) {
    s in ["null", "integer", "real", "text", "blob"]
  }

  predicate StorageHexPair(storage: string, hex: Bytes, notApplicableAllowed: bool) {
    || (ValueStorage(storage)
        && UpperHex.IsCanonical(hex)
        && (storage != "null" || hex == [])
        && (storage !in ["integer", "real"] || hex != []))
    || (notApplicableAllowed && storage == "not_applicable" && hex == [])
  }

  predicate IsFlag(n: int) {
    n == 0 || n == 1
  }

  predicate RowTyped(row: Row) {
    && IsFlag(row.factOrder)
    && StorageHexPair(row.typeStorage, row.typeHex, false)
    && StorageHexPair(row.nameStorage, row.nameHex, false)
    && StorageHexPair(row.ownerStorage, row.ownerHex, true)
    && (ValueStorage(row.sqlStorage) || row.sqlStorage == "not_applicable")
    && IsFlag(row.tokenSourceIsNull)
    && UpperHex.IsCanonical(row.tokenSourceHex)
    && IsFlag(row.virtualHit)
    && IsFlag(row.replaceHit)
    && StorageHexPair(row.fkIdStorage, row.fkIdHex, true)
    && StorageHexPair(row.fkSeqStorage, row.fkSeqHex, true)
    && StorageHexPair(row.parentStorage, row.parentHex, true)
    && StorageHexPair(row.fromStorage, row.fromHex, true)
    && StorageHexPair(row.toStorage, row.toHex, true)
    && IsFlag(row.toIsNull)
    && StorageHexPair(row.onUpdateStorage, row.onUpdateHex, true)
    && StorageHexPair(row.onDeleteStorage, row.onDeleteHex, true)
    && StorageHexPair(row.matchStorage, row.matchHex, true)
  }

  function Chars(s: string): seq<int> {
    seq(|s|, i requires 0 <= i < |s| => s[i] as int)
  }

  /** The fields of a row in declaration order; rows compare as these keys do. */
  function RowKey(r: Row): seq<seq<int>> {
    [[r.schemaRowid], [r.factOrder], Chars(r.factKind), Chars(r.typeStorage), r.typeHex,
     Chars(r.relationType), Chars(r.nameStorage), r.nameHex, Chars(r.ownerStorage), r.ownerHex,
     Chars(r.sqlStorage), [r.tokenSourceIsNull], r.tokenSourceHex, [r.virtualHit], [r.replaceHit],
     Chars(r.fkIdStorage), r.fkIdHex, [r.fkId], Chars(r.fkSeqStorage), r.fkSeqHex, [r.fkSeq],
     Chars(r.parentStorage), r.parentHex, Chars(r.fromStorage), r.fromHex, Chars(r.toStorage),
     [r.toIsNull], r.toHex, Chars(r.onUpdateStorage), r.onUpdateHex, Chars(r.onDeleteStorage),
     r.onDeleteHex, Chars(r.matchStorage), r.matchHex, Chars(r.blocker)]
  }

  predicate TextLess(a: seq<int>, b: seq<int>) {
    LexLess(IntLess, a, b)
  }

  predicate RowLess(a: Row, b: Row) {
    LexLess(TextLess, RowKey(a), RowKey(b))
  }

  predicate SchemaFactSentinels(row: Row) {
    && row.factOrder == 0
    && row.fkIdStorage == "not_applicable" && row.fkIdHex == [] && row.fkId == -1
    && row.fkSeqStorage == "not_applicable" && row.fkSeqHex == [] && row.fkSeq == -1
    && row.parentStorage == "not_applicable" && row.parentHex == []
    && row.fromStorage == "not_applicable" && row.fromHex == []
    && row.toStorage == "not_applicable" && row.toIsNull == 1 && row.toHex == []
    && row.onUpdateStorage == "not_applicable" && row.onUpdateHex == []
    && row.onDeleteStorage == "not_applicable" && row.onDeleteHex == []
    && row.matchStorage == "not_applicable" && row.matchHex == []
  }

  /** Case-insensitive substring search for an uppercase token. */
  predicate ContainsToken(source: Bytes, token: Bytes) {
    exists i :: 0 <= i <= |source| - |token| && TokenAt(source, token, i)
  }

  predicate TokenAt(source: Bytes, token: Bytes, i: nat)
    requires i <= |source| - |token|
  {
    Upper(source[i..i + |token|]) == token
  }

  function RecognizedType(row: Row): Option<string> {
    if row.typeStorage != "text" then None
    else
      match UpperHex.DecodePairs(row.typeHex)
      case None => None
      case Some(t) =>
        if t == Ascii("table") then Some("table")
        else if t == Ascii("view") then Some("view")
        else if t == Ascii("trigger") then Some("trigger")
        else if t == Ascii("index") then Some("index")
        else None
  }

  /** The lower-cased decoded name, as SQLite compares ASCII identifiers. */
  function LowerDecoded(hex: Bytes): Option<Bytes> {
    match UpperHex.DecodePairs(hex)
    case None => None
    case Some(b) => Some(Lower(b))
  }

  // ---- Schema rows among each other ----

  function SchemaRows(rows: seq<Row>): (s: seq<Row>)
    ensures forall r :: r in s <==> r in rows && r.factOrder == 0
  {
    if rows == [] then []
    else if rows[0].factOrder == 0 then [rows[0]] + SchemaRows(rows[1..])
    else SchemaRows(rows[1..])
  }

  /** `candidate` claims the name of `row`: same hexadecimal text, or same text name up to case. */
  predicate Claims(candidate: Row, row: Row) {
    || candidate.nameHex == row.nameHex
    || (candidate.nameStorage == "text" && row.nameStorage == "text"
        && LowerDecoded(candidate.nameHex) == LowerDecoded(row.nameHex))
  }

  function Claimants(s: seq<Row>, row: Row): set<nat> {
    set i: nat | i < |s| && Claims(s[i], row)
  }

  predicate IsTableOrView(t: Option<string>) {
    t == Some("table") || t == Some("view")
  }

  predicate PrintableHex(hex: Bytes) {
    match UpperHex.DecodePairs(hex)
    case None => false
    case Some(b) => IsPrintable(b)
  }

  predicate BaseCanonicalRelation(row: Row, s: seq<Row>) {
    && IsTableOrView(RecognizedType(row))
    && row.nameStorage == "text"
    && row.ownerStorage == "text"
    && row.sqlStorage in ["null", "text"]
    && PrintableHex(row.nameHex)
    && PrintableHex(row.ownerHex)
    && LowerDecoded(row.nameHex) == LowerDecoded(row.ownerHex)
    && |Claimants(s, row)| == 1
  }

  /** Which structural defect a schema row has, "" for none; `None` when its text does not decode. */
  function SchemaBlocker(row: Row, s: seq<Row>): Option<string> {
    if row.typeStorage != "text" then Some("schema_type_storage_class_invalid")
    else if RecognizedType(row).None? then Some("schema_type_value_invalid")
    else if row.nameStorage != "text" then Some("schema_name_storage_class_invalid")
    else
      match UpperHex.DecodePairs(row.nameHex)
      case None => None
      case Some(name) =>
        if 0 in name then Some("schema_name_contains_nul")
        else if !IsPrintable(name) then Some("schema_name_noncanonical_text")
        else if row.ownerStorage != "text" then Some("schema_owner_storage_class_invalid")
        else
          match UpperHex.DecodePairs(row.ownerHex)
          case None => None
          case Some(owner) =>
            if 0 in owner then Some("schema_owner_contains_nul")
            else if !IsPrintable(owner) then Some("schema_owner_noncanonical_text")
            else if row.sqlStorage !in ["null", "text"] then Some("schema_sql_storage_class_invalid")
            else if |Claimants(s, row)| != 1 then Some("schema_identity_ambiguous")
            else if IsTableOrView(RecognizedType(row)) && Lower(name) != Lower(owner)
              then Some("relation_owner_mismatch")
            else if !IsTableOrView(RecognizedType(row)) && !OwnerResolved(Lower(owner), s)
              then Some("schema_owner_unresolved")
            else Some("")
  }

  predicate OwnerResolved(owner: Bytes, s: seq<Row>) {
    exists i :: 0 <= i < |s| && BaseCanonicalRelation(s[i], s) && LowerDecoded(s[i].nameHex) == Some(owner)
  }

  function FlagOf(b: bool): int {
    if b then 1 else 0
  }

  /** Whether a schema row says exactly what its own text implies; `None` when its text does not decode. */
  function SchemaFactHolds(row: Row, s: seq<Row>): Option<bool> {
    if "not_applicable" in [row.typeStorage, row.nameStorage, row.ownerStorage, row.sqlStorage] then Some(false)
    else
      var recognized := RecognizedType(row);
      if row.relationType != (if recognized.Some? then recognized.value else "") then Some(false)
      else
        match SchemaBlocker(row, s)
        case None => None
        case Some(structural) =>
          if structural == "" && recognized.None? then Some(false)
          else
            var tokenAvailable := structural == "" && recognized == Some("table") && row.sqlStorage == "text";
            var decoded := UpperHex.DecodePairs(row.tokenSourceHex);
            if tokenAvailable && decoded.None? then None
            else
              var oversized := tokenAvailable && |decoded.value| > TABLE_SQL_TOKEN_SOURCE_BYTE_CAP;
              var isVirtual := tokenAvailable && ContainsToken(decoded.value, Ascii("VIRTUAL"));
              var isReplace := tokenAvailable && ContainsToken(decoded.value, Ascii("REPLACE"));
              var expectedBlocker :=
                if structural != "" then structural
                else if recognized == Some("view") then "view_write_semantics_unproven"
                else if recognized == Some("trigger") then "trigger_effects_unproven"
                else if recognized == Some("table") && row.sqlStorage == "null"
                  then "table_sql_token_source_unavailable"
                else if recognized == Some("table") && oversized then "table_sql_token_source_oversized"
                else if recognized == Some("table") && isVirtual then "table_virtual_semantics_unproven"
                else if recognized == Some("table") && isReplace then "table_replace_semantics_unproven"
                else "";
              Some(
                && row.factKind == ExpectedSchemaKind(structural, recognized)
                && row.blocker == expectedBlocker
                && row.tokenSourceIsNull == FlagOf(!tokenAvailable)
                && (tokenAvailable || row.tokenSourceHex == [])
                && row.virtualHit == FlagOf(isVirtual && !oversized)
                && row.replaceHit == FlagOf(isReplace && !oversized))
  }

  function ExpectedSchemaKind(structural: string, recognized: Option<string>): string {
    if structural != "" then "schema_blocker"
    else if IsTableOrView(recognized) then "relation"
    else if recognized == Some("trigger") then "trigger_owner"
    else "schema_auxiliary"
  }

  /** The relation facts by name; a later row replaces an earlier one; `None` when a name does not decode. */
  function RelationTypes(s: seq<Row>): Option<map<Bytes, string>> {
    if s == [] then Some(map[])
    else
      var last := s[|s| - 1];
      match RelationTypes(s[..|s| - 1])
      case None => None
      case Some(m) =>
        if last.factKind != "relation" then Some(m)
        else
          match LowerDecoded(last.nameHex)
          case None => None
          case Some(name) => Some(m[name := last.relationType])
  }

  // ---- Foreign-key rows ----

  predicate ForeignKeyMarkersApplicable(row: Row) {
    "not_applicable" !in [row.fkIdStorage, row.fkSeqStorage, row.parentStorage, row.fromStorage,
                          row.toStorage, row.onUpdateStorage, row.onDeleteStorage, row.matchStorage]
  }

  const ACTIONS: seq<Bytes> :=
    [Ascii("NO ACTION"), Ascii("RESTRICT"), Ascii("SET NULL"), Ascii("SET DEFAULT"), Ascii("CASCADE")]

  const MATCH_MODES: seq<Bytes> := [Ascii("NONE"), Ascii("SIMPLE"), Ascii("PARTIAL"), Ascii("FULL")]

  function NameBlocker(storage: string, hex: Bytes, storageBlocker: string, nulBlocker: string,
                       textBlocker: string): Option<string> {
    if storage != "text" then Some(storageBlocker)
    else
      match UpperHex.DecodePairs(hex)
      case None => None
      case Some(b) => Some(if 0 in b then nulBlocker else if !IsPrintable(b) then textBlocker else "")
  }

  function ValueBlocker(storage: string, hex: Bytes, storageBlocker: string, valueBlocker: string,
                        allowed: seq<Bytes>): Option<string> {
    if storage != "text" then Some(storageBlocker)
    else
      match UpperHex.DecodePairs(hex)
      case None => None
      case Some(b) => Some(if b in allowed then "" else valueBlocker)
  }

  /** The first of two checks that finds something decides. */
  function Then(first: Option<string>, next: Option<string>): Option<string> {
    if first == Some("") then next else first
  }

  function ToBlocker(row: Row): Option<string> {
    if row.toStorage !in ["null", "text"] || row.toIsNull != FlagOf(row.toStorage == "null")
    then Some("foreign_key_to_storage_class_invalid")
    else if row.toStorage == "text"
    then NameBlocker(row.toStorage, row.toHex, "", "foreign_key_to_contains_nul", "foreign_key_to_noncanonical_text")
    else Some("")
  }

  function ForeignKeyBlocker(row: Row): Option<string> {
    if row.fkIdStorage != "integer" then
      (if row.fkId != -1 then None else Some("foreign_key_id_storage_class_invalid"))
    else if row.fkIdHex != UpperHex.Encode(Decimal.PrintInt(row.fkId)) || row.fkId < 0
      then Some("foreign_key_id_value_invalid")
    else if row.fkSeqStorage != "integer" then
      (if row.fkSeq != -1 then None else Some("foreign_key_seq_storage_class_invalid"))
    else if row.fkSeqHex != UpperHex.Encode(Decimal.PrintInt(row.fkSeq)) || row.fkSeq < 0
      then Some("foreign_key_seq_value_invalid")
    else
      Then(NameBlocker(row.parentStorage, row.parentHex, "foreign_key_parent_storage_class_invalid",
                       "foreign_key_parent_contains_nul", "foreign_key_parent_noncanonical_text"),
      Then(NameBlocker(row.fromStorage, row.fromHex, "foreign_key_from_storage_class_invalid",
                       "foreign_key_from_contains_nul", "foreign_key_from_noncanonical_text"),
      Then(ToBlocker(row),
      Then(ValueBlocker(row.onUpdateStorage, row.onUpdateHex, "foreign_key_on_update_storage_class_invalid",
                        "foreign_key_on_update_value_invalid", ACTIONS),
      Then(ValueBlocker(row.onDeleteStorage, row.onDeleteHex, "foreign_key_on_delete_storage_class_invalid",
                        "foreign_key_on_delete_value_invalid", ACTIONS),
           ValueBlocker(row.matchStorage, row.matchHex, "foreign_key_match_storage_class_invalid",
                        "foreign_key_match_value_invalid", MATCH_MODES))))))
  }

  function FindByRowid(s: seq<Row>, id: int): (r: Option<Row>)
    ensures r.Some? ==> r.value in s && r.value.schemaRowid == id
  {
    if s == [] then None
    else if s[0].schemaRowid == id then Some(s[0])
    else FindByRowid(s[1..], id)
  }

  predicate ForeignKeyRowBound(row: Row, child: Row) {
    && child.factKind == "relation"
    && child.relationType == "table"
    && row.typeStorage == "text"
    && row.typeHex == UpperHex.Encode(Ascii("table"))
    && row.relationType == "table"
    && row.nameStorage == "text"
    && row.nameHex == child.nameHex
    && row.ownerStorage == "not_applicable"
    && row.ownerHex == []
    && row.sqlStorage == "not_applicable"
    && row.tokenSourceIsNull == 1
    && row.tokenSourceHex == []
    && row.virtualHit == 0
    && row.replaceHit == 0
    && ForeignKeyMarkersApplicable(row)
  }

  predicate ForeignKeyFactHolds(row: Row, relationTypes: map<Bytes, string>) {
    match (ForeignKeyBlocker(row), LowerDecoded(row.nameHex), LowerDecoded(row.parentHex))
    case (Some(structural), Some(_), Some(parent)) =>
      && row.factKind == (if structural == "" then "foreign_key" else "foreign_key_blocker")
      && row.blocker == (if structural != "" then structural
                         else if parent in relationTypes && relationTypes[parent] == "table" then ""
                         else "foreign_key_parent_unresolved")
    case _ => false
  }

  predicate ForeignKeyRowOk(row: Row, s: seq<Row>, relationTypes: map<Bytes, string>) {
    match FindByRowid(s, row.schemaRowid)
    case None => false
    case Some(child) => ForeignKeyRowBound(row, child) && ForeignKeyFactHolds(row, relationTypes)
  }

  /** A foreign-key row without a structural defect takes part in a constraint group. */
  predicate Grouped(row: Row) {
    row.factOrder == 1 && ForeignKeyBlocker(row) == Some("")
  }

  /** What one grouped row contributes: its constraint, what the constraint says, and its position in it. */
  datatype Entry = Entry(child: Option<Bytes>, id: int, group: Group, seq_: int)

  datatype Group = Group(parent: Option<Bytes>, onUpdate: Option<Bytes>, onDelete: Option<Bytes>,
                         matchMode: Option<Bytes>, blocker: string)

  type GroupKey = (Option<Bytes>, int)

  function KeyOf(e: Entry): GroupKey {
    (e.child, e.id)
  }

  function EntryOf(row: Row): Entry {
    Entry(LowerDecoded(row.nameHex), row.fkId,
          Group(LowerDecoded(row.parentHex), UpperHex.DecodePairs(row.onUpdateHex),
                UpperHex.DecodePairs(row.onDeleteHex),
                UpperHex.DecodePairs(row.matchHex), row.blocker),
          row.fkSeq)
  }

  function Entries(rows: seq<Row>): (es: seq<Entry>)
    ensures forall r :: r in rows && Grouped(r) ==> EntryOf(r) in es
  {
    if rows == [] then []
    else Entries(rows[..|rows| - 1]) + (if Grouped(rows[|rows| - 1]) then [EntryOf(rows[|rows| - 1])] else [])
  }

  function Sequences(es: seq<Entry>, key: GroupKey): set<int> {
    set i | 0 <= i < |es| && KeyOf(es[i]) == key :: es[i].seq_
  }

  /** Sequence numbers fill 0, 1, ...: as many numbers as they are, each below their count. */
  predicate IsContiguous(s: set<int>) {
    forall n :: n in s ==> 0 <= n < |s|
  }

  ghost predicate GroupsConsistent(es: seq<Entry>) {
    forall i, j :: 0 <= i < j < |es| && KeyOf(es[i]) == KeyOf(es[j]) ==>
      es[i].group == es[j].group && es[i].seq_ != es[j].seq_
  }

  ghost predicate GroupsOk(es: seq<Entry>) {
    && GroupsConsistent(es)
    && (forall i :: 0 <= i < |es| ==> IsContiguous(Sequences(es, KeyOf(es[i]))))
  }

  // ---- The whole projection ----

  ghost predicate SchemaRowsOk(s: seq<Row>) {
    && (forall i, j :: 0 <= i < j < |s| ==> s[i].schemaRowid != s[j].schemaRowid)
    && (forall i :: 0 <= i < |s| ==> SchemaFactSentinels(s[i]) && SchemaFactHolds(s[i], s) == Some(true))
  }

  ghost predicate StructuredValid(rows: seq<Row>) {
    var s := SchemaRows(rows);
    && SchemaRowsOk(s)
    && RelationTypes(s).Some?
    && (forall i :: 0 <= i < |rows| && rows[i].factOrder == 1 ==> ForeignKeyRowOk(rows[i], s, RelationTypes(s).value))
    && GroupsOk(Entries(rows))
  }

  ghost predicate ProjectionValid(rows: seq<Row>) {
    && (forall i :: 0 <= i < |rows| ==> RowTyped(rows[i]))
    && AdjacentSorted(RowLess, rows)
    && StructuredValid(rows)
  }

  method ValidateSchemaRows(s: seq<Row>) returns (ok: bool)
    ensures ok <==> SchemaRowsOk(s)
  {
    var rowids: set<int> := {};
    for i := 0 to |s|
      invariant rowids == set k | 0 <= k < i :: s[k].schemaRowid
      invariant forall j, k :: 0 <= j < k < i ==> s[j].schemaRowid != s[k].schemaRowid
      invariant forall k :: 0 <= k < i ==> SchemaFactSentinels(s[k]) && SchemaFactHolds(s[k], s) == Some(true)
    {
      if s[i].schemaRowid in rowids || !SchemaFactSentinels(s[i]) || SchemaFactHolds(s[i], s) != Some(true) {
        return false;
      }
      rowids := rowids + {s[i].schemaRowid};
    }
    return true;
  }

  /** Collect the grouped foreign-key rows, stopping at the first row that contradicts its schema. */
  method ValidateForeignKeyRows(rows: seq<Row>, s: seq<Row>, relationTypes: map<Bytes, string>)
    returns (r: Option<seq<Entry>>)
    ensures r.Some? <==> forall i :: 0 <= i < |rows| && rows[i].factOrder == 1 ==>
              ForeignKeyRowOk(rows[i], s, relationTypes)
    ensures r.Some? ==> r.value == Entries(rows)
  {
    hide ForeignKeyRowOk, Grouped, EntryOf;
    var entries: seq<Entry> := [];
    for i := 0 to |rows|
      invariant forall k :: 0 <= k < i && rows[k].factOrder == 1 ==> ForeignKeyRowOk(rows[k], s, relationTypes)
      invariant entries == Entries(rows[..i])
    {
      EntriesOneMore(rows, i);
      if rows[i].factOrder == 1 && !ForeignKeyRowOk(rows[i], s, relationTypes) {
        return None;
      }
      if Grouped(rows[i]) {
        entries := entries + [EntryOf(rows[i])];
      }
    }
    assert rows[..|rows|] == rows;
    return Some(entries);
  }

  lemma EntriesOneMore(rows: seq<Row>, i: nat)
    requires i < |rows|
    ensures Entries(rows[..i + 1]) == Entries(rows[..i]) + if Grouped(rows[i]) then [EntryOf(rows[i])] else []
  {
    assert rows[..i + 1][..i] == rows[..i];
  }

  method ValidateGroups(es: seq<Entry>) returns (ok: bool)
    ensures ok <==> GroupsOk(es)
  {
    var groups: map<GroupKey, (Group, set<int>)> := map[];
    for i := 0 to |es|
      invariant GroupsConsistent(es[..i])
      invariant forall k :: 0 <= k < i ==> KeyOf(es[k]) in groups && groups[KeyOf(es[k])].0 == es[k].group
      invariant forall key :: key in groups ==> groups[key].1 == Sequences(es[..i], key)
      invariant forall key :: key in groups ==> exists k :: 0 <= k < i && KeyOf(es[k]) == key
    {
      var key := KeyOf(es[i]);
      ExtendSequences(es, i);
      if key in groups {
        if groups[key].0 != es[i].group || es[i].seq_ in groups[key].1 {
          return false;
        }
        groups := groups[key := (groups[key].0, groups[key].1 + {es[i].seq_})];
      } else {
        assert Sequences(es[..i], key) == {};
        groups := groups[key := (es[i].group, {es[i].seq_})];
      }
    }
    assert es[..|es|] == es;
    var keys := groups.Keys;
    while keys != {}
      invariant keys <= groups.Keys
      invariant forall key :: key in groups.Keys - keys ==> IsContiguous(groups[key].1)
      decreases keys
    {
      var key :| key in keys;
      keys := keys - {key};
      if !IsContiguous(groups[key].1) {
        return false;
      }
    }
    return true;
  }

  lemma ExtendSequences(es: seq<Entry>, i: nat)
    requires i < |es|
    ensures forall key :: Sequences(es[..i + 1], key) ==
                          Sequences(es[..i], key) + (if KeyOf(es[i]) == key then {es[i].seq_} else {})
  {
    var longer, shorter := es[..i + 1], es[..i];
    forall key: GroupKey
      ensures Sequences(longer, key) == Sequences(shorter, key) + (if KeyOf(es[i]) == key then {es[i].seq_} else {})
    {
      forall k | 0 <= k < i ensures longer[k] == shorter[k] {}
      assert longer[i] == es[i];
    }
  }

  method ValidateStructuredRelationships(rows: seq<Row>) returns (r: Result<(), Classification>)
    ensures r == if StructuredValid(rows) then Ok(()) else Err(CatalogFactsContradictory)
  {
    var s := SchemaRows(rows);
    var schemaOk := ValidateSchemaRows(s);
    if !schemaOk || RelationTypes(s).None? {
      return Err(CatalogFactsContradictory);
    }
    var entries := ValidateForeignKeyRows(rows, s, RelationTypes(s).value);
    if entries.None? {
      return Err(CatalogFactsContradictory);
    }
    var groupsOk := ValidateGroups(entries.value);
    return if groupsOk then Ok(()) else Err(CatalogFactsContradictory);
  }

  /** One pass over a list: every element is well typed, and each is above the one before it. */
  method ScanCanonical<T>(rows: seq<T>, typed: T -> bool, less: (T, T) -> bool) returns (r: Result<(), Classification>)
    ensures r.Ok? <==> (forall i :: 0 <= i < |rows| ==> typed(rows[i])) && AdjacentSorted(less, rows)
    ensures r.Err? ==> r.error in {CatalogRowMalformed, CatalogRowsNonCanonical}
  {
    var previous: Option<T> := None;
    for i := 0 to |rows|
      invariant previous == if i == 0 then None else Some(rows[i - 1])
      invariant forall k :: 0 <= k < i ==> typed(rows[k])
      invariant forall k :: 0 <= k < i - 1 ==> less(rows[k], rows[k + 1])
    {
      if !typed(rows[i]) {
        return Err(CatalogRowMalformed);
      }
      if previous.Some? && !less(previous.value, rows[i]) {
        assert !less(rows[i - 1], rows[i - 1 + 1]);
        return Err(CatalogRowsNonCanonical);
      }
      previous := Some(rows[i]);
    }
    return Ok(());
  }

  method ValidateProjectionRows(rows: seq<Row>) returns (r: Result<(), Classification>)
    ensures r.Ok? <==> ProjectionValid(rows)
  {
    r := ScanCanonical(rows, RowTyped, RowLess);
    if r.Ok? {
      r := ValidateStructuredRelationships(rows);
    }
  }

  lemma RowStrictOrder()
    ensures StrictOrder(RowLess)
  {
    IntStrictTotal();
    LexStrictTotal(IntLess);
    assert StrictTotal(TextLess) by {
      var lex := (a: seq<int>, b: seq<int>) => LexLess(IntLess, a, b);
      forall a, b ensures TextLess(a, b) == lex(a, b) {}
    }
    LexStrictTotal(TextLess);
    var keys := (a: seq<seq<int>>, b: seq<seq<int>>) => LexLess(TextLess, a, b);
    forall a, b ensures RowLess(a, b) == keys(RowKey(a), RowKey(b)) {}
  }

  /** Comparing neighbours only, the validator still rules out any repeated row. */
  lemma AcceptedRowsDistinct(rows: seq<Row>, i: nat, j: nat)
    requires ProjectionValid(rows) && i < j < |rows|
    ensures RowLess(rows[i], rows[j]) && rows[i] != rows[j]
  {
    RowStrictOrder();
    AdjacentIsGlobal(RowLess, rows, i, j);
  }

  // ---- The product handed on ----

  /** SHA-256 taken as injective: a digest is known by what it was taken of. */
  datatype Digest<T> = Sha256(content: T)

  datatype Target = Target(accountId: string, databaseId: string)

  datatype Receipt = Receipt(
    version: nat,
    operation: string,
    targetKey: Digest<Target>,
    projectionVersion: nat,
    snapshot: Digest<seq<Row>>,
    rowCount: nat,
    schemaPhysicalRowCount: nat,
    relationFactCount: nat,
    triggerOwnerFactCount: nat,
    schemaAuxiliaryFactCount: nat,
    schemaBlockerFactCount: nat,
    foreignKeyFactCount: nat,
    foreignKeyBlockerFactCount: nat,
    conservativeBlockerCount: nat,
    stablePrimaryObservations: nat)

  const OPERATION := "d1_catalog_evidence"

  function KindCount(rows: seq<Row>, kind: string): (n: nat)
    ensures n <= |rows|
  {
    if rows == [] then 0
    else KindCount(rows[..|rows| - 1], kind) + (if rows[|rows| - 1].factKind == kind then 1 else 0)
  }

  function SchemaPhysicalCount(rows: seq<Row>): nat {
    |SchemaRows(rows)|
  }

  function BlockerCount(rows: seq<Row>): nat {
    if rows == [] then 0
    else BlockerCount(rows[..|rows| - 1]) + (if rows[|rows| - 1].blocker != "" then 1 else 0)
  }

  /** The receipt issued for two equal accepted observations of `rows`. */
  function IssueReceipt(target: Target, rows: seq<Row>): Receipt {
    Receipt(CATALOG_VERSION, OPERATION, Sha256(target), CATALOG_VERSION, Sha256(rows), |rows|,
            SchemaPhysicalCount(rows),
            KindCount(rows, "relation"), KindCount(rows, "trigger_owner"), KindCount(rows, "schema_auxiliary"),
            KindCount(rows, "schema_blocker"), KindCount(rows, "foreign_key"), KindCount(rows, "foreign_key_blocker"),
            BlockerCount(rows), 2)
  }
}
