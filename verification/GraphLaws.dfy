/**
 * What catalog validation already guarantees to the graph derivation: the two
 * files check the same rows on their own and have to agree.
 */
module GraphLaws {
  import opened Prelude
  import UpperHex
  import Cat = CatalogEvidence
  import opened Traversal
  import opened ReservedFacts
  import opened ReservedGraph

  // ---- Catalog side ----

  /** For a table or a view the short test and the list of defects say the same. */
  lemma BaseRelationHasNoBlocker(row: Cat.Row, s: seq<Cat.Row>)
    requires Cat.IsTableOrView(Cat.RecognizedType(row))
    ensures Cat.BaseCanonicalRelation(row, s) <==> Cat.SchemaBlocker(row, s) == Some("")
  {
    var name, owner := UpperHex.DecodePairs(row.nameHex), UpperHex.DecodePairs(row.ownerHex);
    if name.Some? && 0 in name.value {
      var i :| 0 <= i < |name.value| && name.value[i] == 0;
      assert !Cat.PrintableHex(row.nameHex);
    }
    if owner.Some? && 0 in owner.value {
      var i :| 0 <= i < |owner.value| && owner.value[i] == 0;
      assert !Cat.PrintableHex(row.ownerHex);
    }
  }

  // ---- What one accepted row says ----

  /** The content of an accepted row, as the catalog decodes it. */
  datatype Reading =
    | RelationReading(name: Bytes, table: bool)
    | OwnerReading(owner: Bytes)
    | KeyReading(id: int, key: ForeignKey)
    | BlockedReading

  function Text(hex: Bytes): Bytes {
    match UpperHex.DecodePairs(hex) case Some(b) => b case None => []
  }

  function ReadingOf(r: Cat.Row): Reading {
    if r.factKind == "relation" then RelationReading(Lower(Text(r.nameHex)), r.relationType == "table")
    else if r.factKind == "trigger_owner" || r.factKind == "schema_auxiliary" then OwnerReading(Lower(Text(r.ownerHex)))
    else if r.factKind == "foreign_key" && r.blocker == "" then
      KeyReading(r.fkId, ForeignKey(Lower(Text(r.nameHex)), Lower(Text(r.parentHex)),
                                    Text(r.onUpdateHex), Text(r.onDeleteHex), Text(r.matchHex)))
    else BlockedReading
  }

  /** The derivation reads the row as the catalog does, or fails for a reason other than an unsupported fact. */
  predicate Agrees(read: Result<Fact, Classification>, v: Reading) {
    match read
    case Err(e) => e != CatalogFactUnsupported
    case Ok(RelationFact(name, relation)) => v == RelationReading(name, relation.kind == Table)
    case Ok(TriggerFact(owner)) => v == OwnerReading(owner)
    case Ok(AuxiliaryFact(owner)) => v == OwnerReading(owner)
    case Ok(ForeignKeyFact(id, key)) => v == KeyReading(id, key)
  }

  /** The row alone holds its name. */
  ghost predicate HoldsName(r: Cat.Row, s: seq<Cat.Row>, name: Bytes) {
    r in s && r.nameStorage == "text" && Cat.LowerDecoded(r.nameHex) == Some(name) && |Cat.Claimants(s, r)| == 1
  }

  lemma TypedHex(storage: string, hex: Bytes, notApplicable: bool)
    requires Cat.StorageHexPair(storage, hex, notApplicable)
    ensures UpperHex.DecodeExact(hex) == UpperHex.DecodePairs(hex) == Some(Text(hex))
  {
    UpperHex.DecodeCanonical(hex);
  }

  lemma IdentityOfText(hex: Bytes)
    requires UpperHex.DecodeExact(hex) == Some(Text(hex))
    ensures IdentityFromHex(hex) in {Ok(Lower(Text(hex))), Err(CatalogTextInvalid)}
  {
  }

  lemma ExactTextOfText(hex: Bytes)
    requires UpperHex.DecodeExact(hex) == Some(Text(hex))
    ensures ExactTextFromHex(hex) in {Ok(Text(hex)), Err(CatalogTextInvalid)}
  {
  }

  predicate NamesDecode(r: Cat.Row) {
    UpperHex.DecodeExact(r.nameHex) == UpperHex.DecodePairs(r.nameHex) == Some(Text(r.nameHex))
    && UpperHex.DecodeExact(r.ownerHex) == UpperHex.DecodePairs(r.ownerHex) == Some(Text(r.ownerHex))
  }

  predicate KeyTextsDecode(r: Cat.Row) {
    && UpperHex.DecodeExact(r.parentHex) == UpperHex.DecodePairs(r.parentHex) == Some(Text(r.parentHex))
    && UpperHex.DecodeExact(r.onUpdateHex) == UpperHex.DecodePairs(r.onUpdateHex) == Some(Text(r.onUpdateHex))
    && UpperHex.DecodeExact(r.onDeleteHex) == UpperHex.DecodePairs(r.onDeleteHex) == Some(Text(r.onDeleteHex))
    && UpperHex.DecodeExact(r.matchHex) == UpperHex.DecodePairs(r.matchHex) == Some(Text(r.matchHex))
  }

  /** On typed rows the tolerant and the strict hexadecimal reader agree. */
  lemma TypedRowDecodes(r: Cat.Row)
    requires Cat.RowTyped(r)
    ensures NamesDecode(r) && KeyTextsDecode(r)
  {
    TypedHex(r.nameStorage, r.nameHex, false);
    TypedHex(r.ownerStorage, r.ownerHex, true);
    TypedHex(r.parentStorage, r.parentHex, true);
    TypedHex(r.onUpdateStorage, r.onUpdateHex, true);
    TypedHex(r.onDeleteStorage, r.onDeleteHex, true);
    TypedHex(r.matchStorage, r.matchHex, true);
  }

  ghost predicate SchemaRowHolds(row: Cat.Row, s: seq<Cat.Row>) {
    Cat.SchemaFactHolds(row, s) == Some(true)
  }

  /** What an accepted schema row looks like, by kind. */
  ghost predicate SchemaRowShape(row: Cat.Row, s: seq<Cat.Row>) {
    match row.factKind
    case "relation" => row.relationType in ["table", "view"] && row.nameStorage == "text"
        && |Cat.Claimants(s, row)| == 1
                       && (row.relationType == "view" ==> row.blocker == "view_write_semantics_unproven")
    case "trigger_owner" => row.relationType == "trigger" && row.blocker == "trigger_effects_unproven"
                            && Cat.OwnerResolved(Lower(Text(row.ownerHex)), s)
    case "schema_auxiliary" => row.relationType == "index" && row.blocker == ""
                               && Cat.OwnerResolved(Lower(Text(row.ownerHex)), s)
    case _ => row.factKind == "schema_blocker"
  }

  lemma AcceptedSchemaRow(row: Cat.Row, s: seq<Cat.Row>)
    requires SchemaRowHolds(row, s)
    ensures SchemaRowShape(row, s)
  {
  }

  /** A base relation that passed is stated as a relation. */
  lemma BaseRelationStated(row: Cat.Row, s: seq<Cat.Row>)
    requires SchemaRowHolds(row, s) && Cat.BaseCanonicalRelation(row, s)
    ensures row.factKind == "relation"
  {
    BaseRelationHasNoBlocker(row, s);
  }

  /** What an accepted foreign-key row looks like. */
  ghost predicate KeyRowShape(r: Cat.Row, s: seq<Cat.Row>, types: map<Bytes, string>) {
    || r.factKind == "foreign_key_blocker"
    || (&& r.factKind == "foreign_key" && Cat.ForeignKeyBlocker(r) == Some("")
        && ChildIsTable(r, s)
        && (r.blocker == "" ==> ParentIsTable(r, types))
        && Text(r.onUpdateHex) in Cat.ACTIONS && Text(r.onDeleteHex) in Cat.ACTIONS
            && Text(r.matchHex) in Cat.MATCH_MODES)
  }

  ghost predicate ChildIsTable(r: Cat.Row, s: seq<Cat.Row>) {
    exists child :: child in s && child.factKind == "relation" && child.relationType == "table"
        && child.nameHex == r.nameHex
  }

  predicate ParentIsTable(r: Cat.Row, types: map<Bytes, string>) {
    var parent := Lower(Text(r.parentHex));
    parent in types && types[parent] == "table"
  }

  lemma AcceptedKeyRow(r: Cat.Row, s: seq<Cat.Row>, types: map<Bytes, string>)
    requires r.factOrder == 1 && Cat.ForeignKeyRowOk(r, s, types)
    ensures KeyRowShape(r, s, types)
  {
    var child := Cat.FindByRowid(s, r.schemaRowid).value;
    assert child in s && child.nameHex == r.nameHex;
    if r.factKind == "foreign_key" {
      NoKeyBlocker(r);
    }
  }

  lemma NoKeyBlocker(r: Cat.Row)
    requires Cat.ForeignKeyBlocker(r) == Some("")
    ensures Text(r.onUpdateHex) in Cat.ACTIONS && Text(r.onDeleteHex) in Cat.ACTIONS
            && Text(r.matchHex) in Cat.MATCH_MODES
  {
  }

  lemma SchemaRowAgrees(r: Cat.Row, s: seq<Cat.Row>)
    requires SchemaRowShape(r, s) && NamesDecode(r)
    ensures Agrees(ReadFact(r), ReadingOf(r))
  {
    IdentityOfText(r.nameHex);
    IdentityOfText(r.ownerHex);
  }

  lemma KeyRowAgrees(r: Cat.Row)
    requires r.factKind in ["foreign_key", "foreign_key_blocker"] && NamesDecode(r) && KeyTextsDecode(r)
    ensures Agrees(ReadFact(r), ReadingOf(r))
  {
    IdentityOfText(r.nameHex);
    IdentityOfText(r.parentHex);
    ExactTextOfText(r.onUpdateHex);
    ExactTextOfText(r.onDeleteHex);
    ExactTextOfText(r.matchHex);
  }

  // ---- What backs a reading in the rest of the catalog ----

  ghost predicate Backed(v: Reading, r: Cat.Row, s: seq<Cat.Row>, types: map<Bytes, string>) {
    match v
    case RelationReading(name, table) =>
      HoldsName(r, s, name) && r.factKind == "relation" && (table <==> r.relationType == "table")
    case OwnerReading(owner) => Cat.OwnerResolved(owner, s)
    case KeyReading(id, key) =>
      && Cat.Grouped(r) && Cat.EntryOf(r) == EntryFor(id, key, r.fkSeq)
      && ChildIsTable(r, s) && Cat.LowerDecoded(r.nameHex) == Some(key.child)
      && key.parent in types && types[key.parent] == "table"
      && key.matchMode in Cat.MATCH_MODES && ActionsKnown(key)
    case BlockedReading => true
  }

  function EntryFor(id: int, key: ForeignKey, n: int): Cat.Entry {
    Cat.Entry(Some(key.child), id,
              Cat.Group(Some(key.parent), Some(key.onUpdate), Some(key.onDelete), Some(key.matchMode), ""), n)
  }

  lemma SchemaRowBacked(r: Cat.Row, s: seq<Cat.Row>, types: map<Bytes, string>)
    requires r in s && SchemaRowShape(r, s) && NamesDecode(r)
    ensures Backed(ReadingOf(r), r, s, types)
  {
  }

  lemma KeyRowBacked(r: Cat.Row, s: seq<Cat.Row>, types: map<Bytes, string>)
    requires r.factOrder == 1 && KeyRowShape(r, s, types) && NamesDecode(r) && KeyTextsDecode(r)
    ensures Backed(ReadingOf(r), r, s, types)
  {
  }

  lemma AcceptedRow(rows: seq<Cat.Row>, i: nat)
    requires Cat.ProjectionValid(rows) && i < |rows|
    ensures Cat.RelationTypes(Cat.SchemaRows(rows)).Some?
    ensures Agrees(ReadFact(rows[i]), ReadingOf(rows[i]))
    ensures Backed(ReadingOf(rows[i]), rows[i], Cat.SchemaRows(rows), Cat.RelationTypes(Cat.SchemaRows(rows)).value)
  {
    var r, s := rows[i], Cat.SchemaRows(rows);
    TypedRowDecodes(r);
    if r.factOrder == 0 {
      var k :| 0 <= k < |s| && s[k] == r;
      AcceptedSchemaRow(s[k], s);
      SchemaRowAgrees(r, s);
      SchemaRowBacked(r, s, Cat.RelationTypes(s).value);
    } else {
      AcceptedKeyRow(r, s, Cat.RelationTypes(s).value);
      KeyRowAgrees(r);
      KeyRowBacked(r, s, Cat.RelationTypes(s).value);
    }
  }

  // ---- The readings of accepted rows fit together ----

  predicate Compatible(a: Reading, b: Reading) {
    && (a.RelationReading? && b.RelationReading? ==> a.name != b.name)
    && (a.KeyReading? && b.KeyReading? && a.id == b.id && a.key.child == b.key.child ==> a == b)
  }

  ghost predicate Complete(vs: seq<Reading>) {
    && (forall i, j :: 0 <= i < j < |vs| ==> Compatible(vs[i], vs[j]))
    && (forall i :: 0 <= i < |vs| && vs[i].OwnerReading? ==> NameRead(vs, vs[i].owner))
    && (forall i :: 0 <= i < |vs| && vs[i].KeyReading? ==> KeyRead(vs, vs[i].key))
  }

  ghost predicate NameRead(vs: seq<Reading>, name: Bytes) {
    RelationReading(name, true) in vs || RelationReading(name, false) in vs
  }

  ghost predicate KeyRead(vs: seq<Reading>, key: ForeignKey) {
    && RelationReading(key.child, true) in vs && RelationReading(key.parent, true) in vs
    && key.matchMode in Cat.MATCH_MODES && ActionsKnown(key)
  }

  lemma NamesDistinct(a: Cat.Row, b: Cat.Row, s: seq<Cat.Row>, na: Bytes, nb: Bytes)
    requires HoldsName(a, s, na) && HoldsName(b, s, nb) && a != b
    ensures na != nb
  {
    if na == nb {
      var i :| 0 <= i < |s| && s[i] == a;
      var j :| 0 <= j < |s| && s[j] == b;
      assert i in Cat.Claimants(s, a) && j in Cat.Claimants(s, a);
      SingletonIndices(Cat.Claimants(s, a), i, j);
    }
  }

  /** Rows of one constraint say the same thing. */
  lemma ConstraintRowsAgree(es: seq<Cat.Entry>, a: Cat.Entry, b: Cat.Entry)
    requires Cat.GroupsConsistent(es) && a in es && b in es && Cat.KeyOf(a) == Cat.KeyOf(b)
    ensures a.group == b.group
  {
    var i :| 0 <= i < |es| && es[i] == a;
    var j :| 0 <= j < |es| && es[j] == b;
  }

  lemma AcceptedPair(rows: seq<Cat.Row>, i: nat, j: nat)
    requires Cat.ProjectionValid(rows) && i < j < |rows|
    ensures Compatible(ReadingOf(rows[i]), ReadingOf(rows[j]))
  {
    AcceptedRow(rows, i);
    AcceptedRow(rows, j);
    Cat.AcceptedRowsDistinct(rows, i, j);
    var a, b := ReadingOf(rows[i]), ReadingOf(rows[j]);
    if a.RelationReading? && b.RelationReading? {
      NamesDistinct(rows[i], rows[j], Cat.SchemaRows(rows), a.name, b.name);
    } else if a.KeyReading? && b.KeyReading? && a.id == b.id && a.key.child == b.key.child {
      ConstraintRowsAgree(Cat.Entries(rows), Cat.EntryOf(rows[i]), Cat.EntryOf(rows[j]));
    }
  }

  function Readings(rows: seq<Cat.Row>): (vs: seq<Reading>)
    ensures |vs| == |rows| && forall i :: 0 <= i < |rows| ==> vs[i] == ReadingOf(rows[i])
  {
    seq(|rows|, i requires 0 <= i < |rows| => ReadingOf(rows[i]))
  }

  lemma RelationRowRead(rows: seq<Cat.Row>, r: Cat.Row, name: Bytes)
    requires Cat.ProjectionValid(rows) && r in Cat.SchemaRows(rows)
    requires r.factKind == "relation" && Cat.LowerDecoded(r.nameHex) == Some(name)
    ensures RelationReading(name, r.relationType == "table") in Readings(rows)
  {
    var i :| 0 <= i < |rows| && rows[i] == r;
    AcceptedRow(rows, i);
    assert Readings(rows)[i] == RelationReading(name, r.relationType == "table");
  }

  lemma OwnerRead(rows: seq<Cat.Row>, owner: Bytes)
    requires Cat.ProjectionValid(rows) && Cat.OwnerResolved(owner, Cat.SchemaRows(rows))
    ensures NameRead(Readings(rows), owner)
  {
    var s := Cat.SchemaRows(rows);
    var i :| 0 <= i < |s| && Cat.BaseCanonicalRelation(s[i], s) && Cat.LowerDecoded(s[i].nameHex) == Some(owner);
    BaseRelationStated(s[i], s);
    RelationRowRead(rows, s[i], owner);
  }

  lemma {:induction false} RelationTypeHasRow(s: seq<Cat.Row>, name: Bytes)
    requires Cat.RelationTypes(s).Some? && name in Cat.RelationTypes(s).value
    ensures exists r :: r in s && r.factKind == "relation" && Cat.LowerDecoded(r.nameHex) == Some(name)
              && r.relationType == Cat.RelationTypes(s).value[name]
  {
    var last := s[|s| - 1];
    if last.factKind == "relation" && Cat.LowerDecoded(last.nameHex) == Some(name) {
      assert last in s;
    } else {
      RelationTypeHasRow(s[..|s| - 1], name);
    }
  }

  lemma KeyEndsRead(rows: seq<Cat.Row>, i: nat)
    requires Cat.ProjectionValid(rows) && i < |rows| && ReadingOf(rows[i]).KeyReading?
    ensures KeyRead(Readings(rows), ReadingOf(rows[i]).key)
  {
    AcceptedRow(rows, i);
    var s, key := Cat.SchemaRows(rows), ReadingOf(rows[i]).key;
    var child :| child in s && child.factKind == "relation" && child.relationType == "table"
        && child.nameHex == rows[i].nameHex;
    RelationRowRead(rows, child, key.child);
    RelationTypeHasRow(s, key.parent);
    var parent :| parent in s && parent.factKind == "relation" && Cat.LowerDecoded(parent.nameHex) == Some(key.parent)
                  && parent.relationType == "table";
    RelationRowRead(rows, parent, key.parent);
  }

  lemma AcceptedComplete(rows: seq<Cat.Row>)
    requires Cat.ProjectionValid(rows)
    ensures Complete(Readings(rows))
  {
    var vs := Readings(rows);
    forall i, j | 0 <= i < j < |vs| ensures Compatible(vs[i], vs[j]) { AcceptedPair(rows, i, j); }
    forall i | 0 <= i < |vs| && vs[i].OwnerReading? ensures NameRead(vs, vs[i].owner) {
      AcceptedRow(rows, i);
      OwnerRead(rows, vs[i].owner);
    }
    forall i | 0 <= i < |vs| && vs[i].KeyReading? ensures KeyRead(vs, vs[i].key) { KeyEndsRead(rows, i); }
  }

  // ---- Complete readings leave the derivation nothing to miss ----

  ghost predicate AllAgree(rows: seq<Cat.Row>, vs: seq<Reading>) {
    |vs| == |rows| && forall i :: 0 <= i < |rows| ==> Agrees(ReadFact(rows[i]), vs[i])
  }

  lemma GatherSupported(rows: seq<Cat.Row>, vs: seq<Reading>)
    requires AllAgree(rows, vs) && Complete(vs)
    ensures Gather(rows) != Err(CatalogFactUnsupported)
  {
    if Gather(rows) == Err(CatalogFactUnsupported) {
      GatherFailure(rows);
      forall i, j | 0 <= i < j < |rows| ensures !ConflictAt(rows, i, j) {
        assert Agrees(ReadFact(rows[i]), vs[i]) && Agrees(ReadFact(rows[j]), vs[j]) && Compatible(vs[i], vs[j]);
      }
    }
  }

  lemma {:induction false} GatherReads(rows: seq<Cat.Row>)
    requires Gather(rows).Ok?
    ensures forall i :: 0 <= i < |rows| ==> ReadFact(rows[i]).Ok?
  {
    hide ReadFact;
    if rows != [] {
      GatherReads(rows[..|rows| - 1]);
      assert rows == rows[..|rows| - 1] + [rows[|rows| - 1]];
    }
  }

  lemma RelationReadingCollected(rows: seq<Cat.Row>, vs: seq<Reading>, name: Bytes, table: bool)
    requires AllAgree(rows, vs) && Gather(rows).Ok? && RelationReading(name, table) in vs
    ensures name in Gather(rows).value.relations && (table <==> Gather(rows).value.relations[name].kind == Table)
  {
    GatherReads(rows);
    GatherHolds(rows);
    var i :| 0 <= i < |vs| && vs[i] == RelationReading(name, table);
    var f := ReadFact(rows[i]).value;
    assert Agrees(ReadFact(rows[i]), vs[i]) && f == RelationFact(name, f.relation);
    assert f in FactsOf(rows);
  }

  /** The reading behind a collected fact. */
  lemma FactHasReading(rows: seq<Cat.Row>, vs: seq<Reading>, f: Fact) returns (i: nat)
    requires AllAgree(rows, vs) && f in FactsOf(rows)
    ensures i < |vs| && Agrees(Ok(f), vs[i])
  {
    var r :| r in rows && ReadFact(r) == Ok(f);
    i :| 0 <= i < |rows| && rows[i] == r;
  }

  lemma CompleteLeavesNothingMissing(rows: seq<Cat.Row>, vs: seq<Reading>)
    requires AllAgree(rows, vs) && Complete(vs) && Gather(rows).Ok?
    ensures !MissesReference(Gather(rows).value) && KeysActionsKnown(Gather(rows).value.foreignKeys.Values)
  {
    var c := Gather(rows).value;
    GatherHolds(rows);
    forall o | o in c.auxiliaryOwners || o in c.triggerOwners ensures o in c.relations {
      var i := FactHasReading(rows, vs, if o in c.triggerOwners then TriggerFact(o) else AuxiliaryFact(o));
      RelationReadingCollected(rows, vs, o, RelationReading(o, true) in vs);
    }
    forall k | k in c.foreignKeys.Values ensures KeyResolves(k, c.relations) && ActionsKnown(k) {
      var at :| at in c.foreignKeys && c.foreignKeys[at] == k;
      var i := FactHasReading(rows, vs, ForeignKeyFact(at.1, k));
      assert KeyRead(vs, vs[i].key);
      RelationReadingCollected(rows, vs, k.child, true);
      RelationReadingCollected(rows, vs, k.parent, true);
    }
  }

  /** Rows the catalog accepts leave the derivation no reference to miss and no fact it does not know. */
  lemma AcceptedCatalogSuffices(rows: seq<Cat.Row>)
    requires Cat.ProjectionValid(rows)
    ensures Gather(rows) != Err(CatalogFactUnsupported)
    ensures Gather(rows).Ok? ==>
              !MissesReference(Gather(rows).value) && KeysActionsKnown(Gather(rows).value.foreignKeys.Values)
  {
    var vs := Readings(rows);
    forall i | 0 <= i < |rows| ensures Agrees(ReadFact(rows[i]), vs[i]) { AcceptedRow(rows, i); }
    AcceptedComplete(rows);
    GatherSupported(rows, vs);
    if Gather(rows).Ok? { CompleteLeavesNothingMissing(rows, vs); }
  }

  /** The derivation on accepted rows: two of its errors are unreachable. */
  method DeriveAccepted(receipt: Cat.Receipt, rows: seq<Cat.Row>, configured: seq<Bytes>)
    returns (r: Result<GraphProduct, Classification>)
    requires Cat.ProjectionValid(rows)
    ensures r.Err? ==> r.error != CatalogReferenceMissing && r.error != CatalogFactUnsupported
  {
    r := Derive(receipt, rows, configured);
    AcceptedCatalogSuffices(rows);
    GatherNeverMissing(rows);
  }

  // ---- The six kinds of fact cover the accepted rows ----

  predicate KnownKind(r: Cat.Row) {
    r.factKind in ["relation", "trigger_owner", "schema_auxiliary", "schema_blocker", "foreign_key",
                   "foreign_key_blocker"]
  }

  lemma SchemaKind(rows: seq<Cat.Row>, i: nat)
    requires Cat.ProjectionValid(rows) && i < |rows| && rows[i].factOrder == 0
    ensures KnownKind(rows[i])
  {
    hide Cat.SchemaFactHolds;
    var s := Cat.SchemaRows(rows);
    TypedRowDecodes(rows[i]);
    var k :| 0 <= k < |s| && s[k] == rows[i];
    AcceptedSchemaRow(s[k], s);
  }

  lemma KeyKind(rows: seq<Cat.Row>, i: nat)
    requires Cat.ProjectionValid(rows) && i < |rows| && rows[i].factOrder != 0
    ensures KnownKind(rows[i])
  {
    var s := Cat.SchemaRows(rows);
    TypedRowDecodes(rows[i]);
    AcceptedKeyRow(rows[i], s, Cat.RelationTypes(s).value);
  }

  lemma AcceptedKind(rows: seq<Cat.Row>, i: nat)
    requires Cat.ProjectionValid(rows) && i < |rows|
    ensures KnownKind(rows[i])
  {
    if rows[i].factOrder == 0 { SchemaKind(rows, i); } else { KeyKind(rows, i); }
  }

  lemma {:induction false} KindsCover(rows: seq<Cat.Row>)
    requires forall i :: 0 <= i < |rows| ==> KnownKind(rows[i])
    ensures Cat.KindCount(rows, "relation") + Cat.KindCount(rows, "trigger_owner") +
            Cat.KindCount(rows, "schema_auxiliary")
            + Cat.KindCount(rows, "schema_blocker") + Cat.KindCount(rows, "foreign_key")
            + Cat.KindCount(rows, "foreign_key_blocker") == |rows|
  {
    if rows != [] {
      assert KnownKind(rows[|rows| - 1]);
      KindsCover(rows[..|rows| - 1]);
    }
  }

  lemma AcceptedKindsCover(rows: seq<Cat.Row>)
    requires Cat.ProjectionValid(rows)
    ensures Cat.KindCount(rows, "relation") + Cat.KindCount(rows, "trigger_owner") +
            Cat.KindCount(rows, "schema_auxiliary")
            + Cat.KindCount(rows, "schema_blocker") + Cat.KindCount(rows, "foreign_key")
            + Cat.KindCount(rows, "foreign_key_blocker") == |rows|
  {
    forall i | 0 <= i < |rows| ensures KnownKind(rows[i]) { AcceptedKind(rows, i); }
    KindsCover(rows);
  }
}
