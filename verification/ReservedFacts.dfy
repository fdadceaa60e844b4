/**
 * What the write graph reads from verified catalog rows
 * (src/d1_reserved_relation_graph.rs).
 */
module ReservedFacts {
  import opened Prelude
  import UpperHex
  import Cat = CatalogEvidence
  import opened Traversal


  datatype RelationKind = Table | View

  datatype Relation = Relation(kind: RelationKind, autoincrement: bool)

  datatype ForeignKey = ForeignKey(child: Bytes, parent: Bytes, onUpdate: Bytes, onDelete: Bytes, matchMode: Bytes)

  /** What one catalog row says to the graph. */
  datatype Fact =
    | RelationFact(name: Bytes, relation: Relation)
    | TriggerFact(owner: Bytes)
    | AuxiliaryFact(owner: Bytes)
    | ForeignKeyFact(id: int, foreignKey: ForeignKey)

  // ---- Reading one row ----

  function IdentityFromHex(hex: Bytes): Result<Bytes, Classification> {
    match UpperHex.DecodeExact(hex)
    case None => Err(CatalogTextInvalid)
    case Some(b) => if |b| > 255 || !IsPrintable(b) then Err(CatalogTextInvalid) else Ok(Lower(b))
  }

  function ExactTextFromHex(hex: Bytes): Result<Bytes, Classification> {
    match UpperHex.DecodeExact(hex)
    case None => Err(CatalogTextInvalid)
    case Some(b) => if b == [] || !(forall i :: 0 <= i < |b| ==> b[i] < 128) then Err(CatalogTextInvalid) else Ok(b)
  }

  function TableTokenSource(row: Cat.Row): Result<Bytes, Classification> {
    if row.sqlStorage != "text" || row.tokenSourceIsNull != 0 || row.tokenSourceHex == [] then Err(CatalogFactBlocked)
    else
      match UpperHex.DecodeExact(row.tokenSourceHex)
      case None => Err(CatalogTextInvalid)
      case Some(b) => if |b| > Cat.TABLE_SQL_TOKEN_SOURCE_BYTE_CAP then Err(AutoincrementEvidenceUnsupported) else Ok(b)
  }

  function ReadRelation(row: Cat.Row): Result<Relation, Classification> {
    if row.relationType == "table" then
      if row.virtualHit != 0 || row.replaceHit != 0 || row.blocker != "" then Err(CatalogFactBlocked)
      else
        match TableTokenSource(row)
        case Err(e) => Err(e)
        case Ok(source) => Ok(Relation(Table, Cat.ContainsToken(source, Ascii("AUTOINCREMENT"))))
    else if row.relationType == "view" then
      if row.blocker != "view_write_semantics_unproven" then Err(CatalogFactUnsupported) else Ok(Relation(View, false))
    else Err(CatalogFactUnsupported)
  }

  function ReadForeignKey(row: Cat.Row): Result<ForeignKey, Classification> {
    match (IdentityFromHex(row.nameHex), IdentityFromHex(row.parentHex),
           ExactTextFromHex(row.onUpdateHex), ExactTextFromHex(row.onDeleteHex), ExactTextFromHex(row.matchHex))
    case (Ok(child), Ok(parent), Ok(onUpdate), Ok(onDelete), Ok(matchMode)) =>
      Ok(ForeignKey(child, parent, onUpdate, onDelete, matchMode))
    case _ => Err(CatalogTextInvalid)
  }

  function ReadFact(row: Cat.Row): Result<Fact, Classification> {
    if row.factKind == "relation" then
      match IdentityFromHex(row.nameHex)
      case Err(e) => Err(e)
      case Ok(name) =>
        match ReadRelation(row)
        case Err(e) => Err(e)
        case Ok(relation) => Ok(RelationFact(name, relation))
    else if row.factKind == "trigger_owner" then
      if row.relationType != "trigger" || row.blocker != "trigger_effects_unproven" then Err(CatalogFactUnsupported)
      else
        match IdentityFromHex(row.ownerHex)
        case Err(e) => Err(e)
        case Ok(owner) => Ok(TriggerFact(owner))
    else if row.factKind == "schema_auxiliary" then
      if row.relationType != "index" || row.blocker != "" then Err(CatalogFactUnsupported)
      else
        match IdentityFromHex(row.ownerHex)
        case Err(e) => Err(e)
        case Ok(owner) => Ok(AuxiliaryFact(owner))
    else if row.factKind == "foreign_key" then
      if row.blocker != "" then Err(CatalogFactBlocked)
      else
        match ReadForeignKey(row)
        case Err(e) => Err(e)
        case Ok(foreignKey) => Ok(ForeignKeyFact(row.fkId, foreignKey))
    else if row.factKind == "schema_blocker" || row.factKind == "foreign_key_blocker" then Err(CatalogFactBlocked)
    else Err(CatalogFactUnsupported)
  }

  // ---- Collecting the facts ----

  type ForeignKeyTable = map<(Bytes, int), ForeignKey>

  datatype Collected = Collected(
    relations: map<Bytes, Relation>,
    triggerOwners: seq<Bytes>,
    auxiliaryOwners: seq<Bytes>,
    foreignKeys: ForeignKeyTable,
    foreignKeyFacts: nat)

  const NOTHING := Collected(map[], [], [], map[], 0)

  /** One fact enters the tables, unless it contradicts an earlier one. */
  function Enter(c: Collected, f: Fact): Result<Collected, Classification> {
    match f
    case RelationFact(name, relation) =>
      if name in c.relations then Err(CatalogFactUnsupported)
      else Ok(c.(relations := c.relations[name := relation]))
    case TriggerFact(owner) => Ok(c.(triggerOwners := c.triggerOwners + [owner]))
    case AuxiliaryFact(owner) => Ok(c.(auxiliaryOwners := c.auxiliaryOwners + [owner]))
    case ForeignKeyFact(id, foreignKey) =>
      var key := (foreignKey.child, id);
      if key in c.foreignKeys && c.foreignKeys[key] != foreignKey then Err(CatalogFactUnsupported)
      else Ok(c.(foreignKeys := c.foreignKeys[key := foreignKey], foreignKeyFacts := c.foreignKeyFacts + 1))
  }

  /** The tables after all rows, or the first failure in row order. */
  function Gather(rows: seq<Cat.Row>): Result<Collected, Classification> {
    if rows == [] then Ok(NOTHING)
    else
      match Gather(rows[..|rows| - 1])
      case Err(e) => Err(e)
      case Ok(c) =>
        match ReadFact(rows[|rows| - 1])
        case Err(e) => Err(e)
        case Ok(f) => Enter(c, f)
  }

  method ScanRows(rows: seq<Cat.Row>) returns (r: Result<Collected, Classification>)
    ensures r == Gather(rows)
  {
    var c := NOTHING;
    for i := 0 to |rows|
      invariant Gather(rows[..i]) == Ok(c)
    {
      GatherNext(rows, i);
      var read := ReadFact(rows[i]);
      if read.Err? {
        GatherFailsEarly(rows, i + 1);
        return Err(read.error);
      }
      var step := Enter(c, read.value);
      if step.Err? {
        GatherFailsEarly(rows, i + 1);
        return step;
      }
      c := step.value;
    }
    assert rows[..|rows|] == rows;
    return Ok(c);
  }

  lemma GatherNext(rows: seq<Cat.Row>, i: nat)
    requires i < |rows| && Gather(rows[..i]).Ok?
    ensures Gather(rows[..i + 1]) ==
            match ReadFact(rows[i]) { case Err(e) => Err(e) case Ok(f) => Enter(Gather(rows[..i]).value, f) }
  {
    assert rows[..i + 1][..i] == rows[..i];
  }

  lemma {:induction false} GatherFailsEarly(rows: seq<Cat.Row>, n: nat)
    requires n <= |rows| && Gather(rows[..n]).Err?
    ensures Gather(rows) == Gather(rows[..n])
  {
    if n == |rows| {
      assert rows[..n] == rows;
    } else {
      var front := rows[..|rows| - 1];
      assert front[..n] == rows[..n];
      GatherFailsEarly(front, n);
    }
  }

  /** The facts some row states. */
  function FactsOf(rows: seq<Cat.Row>): (fs: set<Fact>)
    ensures forall r :: r in rows && ReadFact(r).Ok? ==> ReadFact(r).value in fs
    ensures forall f :: f in fs ==> exists r :: r in rows && ReadFact(r) == Ok(f)
  {
    if rows == [] then {}
    else
      FactsOf(rows[..|rows| - 1])
      + (match ReadFact(rows[|rows| - 1]) case Ok(f) => {f} case Err(_) => {})
  }

  /** The tables hold the stated facts, all of them and nothing else. */
  ghost predicate HoldsExactly(c: Collected, fs: set<Fact>) {
    && (forall n, rel :: RelationFact(n, rel) in fs <==> n in c.relations && c.relations[n] == rel)
    && (forall o :: TriggerFact(o) in fs <==> o in c.triggerOwners)
    && (forall o :: AuxiliaryFact(o) in fs <==> o in c.auxiliaryOwners)
    && (forall id, k :: ForeignKeyFact(id, k) in fs <==>
        (k.child, id) in c.foreignKeys && c.foreignKeys[(k.child, id)] == k)
  }

  ghost predicate KeyedByChild(c: Collected) {
    forall key :: key in c.foreignKeys ==> c.foreignKeys[key].child == key.0
  }

  lemma EnterHolds(c: Collected, f: Fact, fs: set<Fact>)
    requires HoldsExactly(c, fs) && KeyedByChild(c) && Enter(c, f).Ok?
    ensures HoldsExactly(Enter(c, f).value, fs + {f}) && KeyedByChild(Enter(c, f).value)
  {
  }

  lemma {:induction false} GatherHolds(rows: seq<Cat.Row>)
    requires Gather(rows).Ok?
    ensures HoldsExactly(Gather(rows).value, FactsOf(rows)) && KeyedByChild(Gather(rows).value)
  {
    if rows != [] {
      var front := rows[..|rows| - 1];
      GatherHolds(front);
      EnterHolds(Gather(front).value, ReadFact(rows[|rows| - 1]).value, FactsOf(front));
    }
  }

  ghost predicate CountsMatch(c: Collected, rows: seq<Cat.Row>) {
    && |c.relations| == Cat.KindCount(rows, "relation")
    && |c.triggerOwners| == Cat.KindCount(rows, "trigger_owner")
    && |c.auxiliaryOwners| == Cat.KindCount(rows, "schema_auxiliary")
    && |c.foreignKeys| <= c.foreignKeyFacts == Cat.KindCount(rows, "foreign_key")
  }

  lemma {:induction false} GatherCounts(rows: seq<Cat.Row>)
    requires Gather(rows).Ok?
    ensures CountsMatch(Gather(rows).value, rows)
  {
    if rows != [] {
      GatherCounts(rows[..|rows| - 1]);
      FactKind(rows[|rows| - 1]);
    }
  }

  predicate KindMatches(f: Fact, kind: string) {
    match f
    case RelationFact(_, _) => kind == "relation"
    case TriggerFact(_) => kind == "trigger_owner"
    case AuxiliaryFact(_) => kind == "schema_auxiliary"
    case ForeignKeyFact(_, _) => kind == "foreign_key"
  }

  lemma FactKind(row: Cat.Row)
    ensures ReadFact(row).Ok? ==> KindMatches(ReadFact(row).value, row.factKind)
  {
  }

  /** Two facts that cannot both enter the tables. */
  predicate Conflict(a: Fact, b: Fact) {
    || (a.RelationFact? && b.RelationFact? && a.name == b.name)
    || (a.ForeignKeyFact? && b.ForeignKeyFact? && a.id == b.id && a.foreignKey.child == b.foreignKey.child && a != b)
  }

  ghost predicate ConflictAt(rows: seq<Cat.Row>, i: nat, j: nat)
    requires i < j < |rows|
  {
    ReadFact(rows[i]).Ok? && ReadFact(rows[j]).Ok? && Conflict(ReadFact(rows[i]).value, ReadFact(rows[j]).value)
  }

  /** Gathering fails only on a row that cannot be read or on two rows that contradict each other. */
  lemma {:induction false} GatherFailure(rows: seq<Cat.Row>)
    requires Gather(rows).Err?
    ensures || (exists i :: 0 <= i < |rows| && ReadFact(rows[i]) == Err(Gather(rows).error))
            || (Gather(rows).error == CatalogFactUnsupported
                && exists i, j :: 0 <= i < j < |rows| && ConflictAt(rows, i, j))
  {
    hide ReadFact;
    var n := |rows| - 1;
    var front := rows[..n];
    if Gather(front).Err? {
      GatherFailure(front);
      if i :| 0 <= i < n && ReadFact(front[i]) == Err(Gather(front).error) {
        assert ReadFact(rows[i]) == Err(Gather(rows).error);
      } else {
        var i, j :| 0 <= i < j < n && ConflictAt(front, i, j);
        assert ConflictAt(rows, i, j);
      }
    } else if ReadFact(rows[n]).Ok? {
      GatherHolds(front);
      var f := ReadFact(rows[n]).value;
      var other := match f
        case RelationFact(name, _) => RelationFact(name, Gather(front).value.relations[name])
        case ForeignKeyFact(id, k) => ForeignKeyFact(id, Gather(front).value.foreignKeys[(k.child, id)])
        case _ => f;
      assert other in FactsOf(front) && Conflict(other, f);
      var r :| r in front && ReadFact(r) == Ok(other);
      var i :| 0 <= i < n && front[i] == r;
      assert ConflictAt(rows, i, n);
    }
  }

  lemma GatherNeverMissing(rows: seq<Cat.Row>)
    ensures Gather(rows) != Err(CatalogReferenceMissing)
  {
    if Gather(rows).Err? { GatherFailure(rows); }
  }
}
