/**
 * Composition of one classified write plan with the catalog and graph products
 * (src/d1_exact_plan_composition.rs).
 */
module PlanComposition {
  import opened Prelude
  import Cat = CatalogEvidence
  import opened Traversal
  import opened ReservedGraph

  const COMPOSITION_VERSION: nat := 1
  const OPERATION_NAME := "d1_exact_write_plan_composition"
  const EXECUTE_OPERATION := "d1_execute_write"
  const REQUIRED_EXECUTE_PLAN_VERSION: nat := 2
  const REQUIRED_GRAPH_VERSION: nat := 3
  const MAX_WRITE_ROWS: nat := 1000
  const MAX_RELATION_IDENTITY_BYTES: nat := 255

  datatype Refusal =
    | TargetIdentityInvalid
    | PlanDigestInvalid
    | PlanProductMismatch
    | PlanTargetMismatch
    | PlanFormMismatch
    | ClassifiedRelationInvalid
    | CatalogProductMismatch
    | CatalogProjectionUnsupported
    | GraphProductMismatch
    | GraphProjectionUnsupported
    | CompoundWriteUnsupported
    | PrimitiveExpansionMismatch
    | PrimitiveDuplicate
    | GraphDecisionMissing
    | GraphDecisionDenied

  datatype StatementKind = InsertStatement | UpdateStatement | DeleteStatement | ReplaceStatement

  /** Digest text handed in by a caller: 64 lowercase hexadecimal characters, or not. */
  datatype DigestText<T> = Malformed | WellFormed(digest: Cat.Digest<T>)

  datatype ExecutePlan = ExecutePlan(
    version: nat,
    operation: string,
    target: Cat.Target,
    targetKey: Cat.Digest<Cat.Target>,
    executionSession: DigestText<Bytes>,
    statementKind: StatementKind,
    sql: DigestText<Bytes>,
    sqlSize: nat,
    params: DigestText<Bytes>,
    paramsSize: nat,
    maxRows: nat)

  // ---- The single checks ----

  predicate AccountCharacter(c: char) {
    'a' <= c <= 'z' || 'A' <= c <= 'Z' || '0' <= c <= '9' || c == '_' || c == '-'
  }

  predicate DatabaseCharacter(i: nat, c: char) {
    if i in [8, 13, 18, 23] then c == '-' else '0' <= c <= '9' || 'a' <= c <= 'f'
  }

  predicate CanonicalTarget(t: Cat.Target) {
    && 1 <= |t.accountId| <= 256 && (forall i :: 0 <= i < |t.accountId| ==> AccountCharacter(t.accountId[i]))
    && |t.databaseId| == 36 && (forall i :: 0 <= i < 36 ==> DatabaseCharacter(i, t.databaseId[i]))
  }

  predicate KindMatchesForm(kind: StatementKind, form: WriteForm) {
    match kind
    case InsertStatement => form in {InsertForm, InsertOrReplace, UpsertDoUpdate}
    case UpdateStatement => form in {UpdateForm, UpdateOrReplace}
    case DeleteStatement => form == DeleteForm
    case ReplaceStatement => form == ReplaceForm
  }

  function ValidatePlan(target: Cat.Target, plan: ExecutePlan, digest: DigestText<ExecutePlan>,
                        form: WriteForm): Result<(), Refusal> {
    if digest.Malformed? || plan.executionSession.Malformed? || plan.sql.Malformed? || plan.params.Malformed?
    then Err(PlanDigestInvalid)
    else if plan.version != REQUIRED_EXECUTE_PLAN_VERSION || plan.operation != EXECUTE_OPERATION || plan.sqlSize == 0
            || plan.paramsSize == 0 || !(1 <= plan.maxRows <= MAX_WRITE_ROWS) || digest.digest != Cat.Sha256(plan)
    then Err(PlanProductMismatch)
    else if plan.target != target || plan.targetKey != Cat.Sha256(target) then Err(PlanTargetMismatch)
    else if !KindMatchesForm(plan.statementKind, form) then Err(PlanFormMismatch)
    else Ok(())
  }

  predicate RelationCanonical(name: Bytes) {
    1 <= |name| <= MAX_RELATION_IDENTITY_BYTES && IsPrintable(name) && Lower(name) == name
  }

  predicate CatalogShapeConsistent(c: Cat.Receipt) {
    && c.relationFactCount + c.triggerOwnerFactCount + c.schemaAuxiliaryFactCount + c.schemaBlockerFactCount
       + c.foreignKeyFactCount + c.foreignKeyBlockerFactCount == c.rowCount
    && c.stablePrimaryObservations == 2
  }

  function ValidateCatalogReceipt(target: Cat.Target, c: Cat.Receipt): Result<(), Refusal> {
    if c.version != REQUIRED_CATALOG_VERSION || c.operation != Cat.OPERATION
        || c.projectionVersion != REQUIRED_CATALOG_VERSION
    then Err(Refusal.CatalogProjectionUnsupported)
    else if c.targetKey != Cat.Sha256(target) || !CatalogShapeConsistent(c) then Err(Refusal.CatalogProductMismatch)
    else Ok(())
  }

  function ValidateGraphReceipt(c: Cat.Receipt, g: GraphReceipt): Result<(), Refusal> {
    if g.version != REQUIRED_GRAPH_VERSION || g.operation != OPERATION
        || g.catalogProjectionVersion != REQUIRED_CATALOG_VERSION
    then Err(GraphProjectionUnsupported)
    else if g.targetKey != c.targetKey
            || g.catalogSnapshot != c.snapshot
            || g.catalogProjectionVersion != c.projectionVersion
            || g.catalogRowCount != c.rowCount
            || g.relationCount != c.relationFactCount
            || g.triggerFactCount != c.triggerOwnerFactCount
            || g.schemaAuxiliaryFactCount != c.schemaAuxiliaryFactCount
            || g.foreignKeyFactCount != c.foreignKeyFactCount
            || g.foreignKeyGroupCount > g.foreignKeyFactCount
            || g.triggerOwnedRelationCount > g.triggerFactCount
            || g.tableCount + g.viewCount != g.relationCount
            || g.configuredReservedRootCount + g.automaticReservedRootCount != g.totalReservedRootCount
            || 3 * g.relationCount != g.graphNodeCount
            || g.allowCount + g.denyReservedReachableCount + g.denyTriggerEffectsUnprovenCount
               + g.denyViewWriteSemanticsUnprovenCount != g.graphNodeCount
            || g.totalReservedRootCount == 0
    then Err(GraphProductMismatch)
    else Ok(())
  }

  predicate HasDuplicate(ops: seq<WriteOp>) {
    exists i, j :: 0 <= i < j < |ops| && ops[i] == ops[j]
  }

  function ValidatePrimitives(form: WriteForm, primitives: seq<WriteOp>): Result<(), Refusal> {
    if HasDuplicate(primitives) then Err(PrimitiveDuplicate)
    else
      match RequiredWriteOps(form)
      case Err(_) => Err(Refusal.CompoundWriteUnsupported)
      case Ok(expected) => if primitives != expected then Err(PrimitiveExpansionMismatch) else Ok(())
  }

  function AndThen(first: Result<(), Refusal>, next: Result<(), Refusal>): Result<(), Refusal> {
    if first.Ok? then next else first
  }

  datatype Request = Request(
    target: Cat.Target,
    plan: ExecutePlan,
    planDigest: DigestText<ExecutePlan>,
    relation: Bytes,
    form: WriteForm)

  /** Every check that comes before the decisions are looked at, in order. */
  function Screen(q: Request, catalog: Cat.Receipt, graph: GraphReceipt,
                  primitives: seq<WriteOp>): Result<(), Refusal> {
    AndThen(if CanonicalTarget(q.target) then Ok(()) else Err(TargetIdentityInvalid),
    AndThen(ValidatePlan(q.target, q.plan, q.planDigest, q.form),
    AndThen(if RelationCanonical(q.relation) then Ok(()) else Err(ClassifiedRelationInvalid),
    AndThen(ValidateCatalogReceipt(q.target, catalog),
    AndThen(ValidateGraphReceipt(catalog, graph),
            ValidatePrimitives(q.form, primitives))))))
  }

  function DecisionFor(graph: GraphProduct, relation: Bytes, op: WriteOp): Option<Decision> {
    match CanonicalIdentity(relation)
    case None => None
    case Some(identity) =>
      if Node(identity, op) in graph.decisions then Some(graph.decisions[Node(identity, op)]) else None
  }

  // ---- Composition ----

  /** The two receipt digests are represented by the receipts themselves. */
  datatype CompositionReceipt = CompositionReceipt(
    version: nat,
    operation: string,
    targetKey: Cat.Digest<Cat.Target>,
    executePlan: DigestText<ExecutePlan>,
    catalogSnapshot: Cat.Digest<seq<Cat.Row>>,
    catalogReceipt: Cat.Receipt,
    graph: Cat.Digest<(Edges, set<Bytes>, set<Bytes>)>,
    graphDecision: Cat.Digest<Decisions>,
    graphReceipt: GraphReceipt,
    classifiedRelation: Cat.Digest<Bytes>,
    classifiedForm: Cat.Digest<WriteForm>,
    effectivePrimitive: Cat.Digest<seq<WriteOp>>,
    effectivePrimitiveCount: nat,
    allowDecisionCount: nat,
    effectiveDecision: Cat.Digest<(Bytes, WriteForm, seq<(WriteOp, Decision)>)>)

  datatype Composition = Composition(
    receipt: CompositionReceipt,
    plan: ExecutePlan,
    relation: Bytes,
    form: WriteForm,
    primitives: seq<WriteOp>)

  function Binding(q: Request, catalog: Cat.Receipt, graph: GraphReceipt,
                   primitives: seq<WriteOp>): CompositionReceipt {
    CompositionReceipt(
      COMPOSITION_VERSION, OPERATION_NAME, Cat.Sha256(q.target), q.planDigest, catalog.snapshot, catalog,
      graph.graph, graph.decision, graph, Cat.Sha256(q.relation), Cat.Sha256(q.form), Cat.Sha256(primitives),
      |primitives|, |primitives|, Cat.Sha256((q.relation, q.form, AllAllowed(primitives))))
  }

  function AllAllowed(ops: seq<WriteOp>): (ds: seq<(WriteOp, Decision)>)
    ensures |ds| == |ops| && forall i :: 0 <= i < |ops| ==> ds[i] == (ops[i], Allow)
  {
    seq(|ops|, i requires 0 <= i < |ops| => (ops[i], Allow))
  }

  ghost predicate EveryPrimitiveAllowed(graph: GraphProduct, relation: Bytes, primitives: seq<WriteOp>) {
    forall i :: 0 <= i < |primitives| ==> DecisionFor(graph, relation, primitives[i]) == Some(Allow)
  }

  ghost predicate FirstRefused(graph: GraphProduct, relation: Bytes, primitives: seq<WriteOp>, i: nat, refusal: Refusal)
    requires i < |primitives|
  {
    && EveryPrimitiveAllowed(graph, relation, primitives[..i])
    && match DecisionFor(graph, relation, primitives[i])
       case None => refusal == GraphDecisionMissing
       case Some(d) => d != Allow && refusal == GraphDecisionDenied
  }

  /** Look up the decision of each primitive; the first that is not `Allow` ends the composition. */
  method CollectDecisions(graph: GraphProduct, relation: Bytes, primitives: seq<WriteOp>)
    returns (r: Result<seq<(WriteOp, Decision)>, Refusal>)
    ensures r.Ok? <==> EveryPrimitiveAllowed(graph, relation, primitives)
    ensures r.Ok? ==> r.value == AllAllowed(primitives)
    ensures r.Err? ==> exists i :: 0 <= i < |primitives| && FirstRefused(graph, relation, primitives, i, r.error)
  {
    var decisions: seq<(WriteOp, Decision)> := [];
    for i := 0 to |primitives|
      invariant EveryPrimitiveAllowed(graph, relation, primitives[..i])
      invariant decisions == AllAllowed(primitives)[..i]
    {
      var decision := DecisionFor(graph, relation, primitives[i]);
      if decision.None? {
        assert FirstRefused(graph, relation, primitives, i, GraphDecisionMissing);
        return Err(GraphDecisionMissing);
      }
      if decision.value != Allow {
        assert FirstRefused(graph, relation, primitives, i, GraphDecisionDenied);
        return Err(GraphDecisionDenied);
      }
      decisions := decisions + [(primitives[i], decision.value)];
    }
    assert primitives[..|primitives|] == primitives;
    return Ok(decisions);
  }

  method ComposeFromVerifiedParts(q: Request, catalog: Cat.Receipt, graph: GraphProduct, primitives: seq<WriteOp>)
    returns (r: Result<Composition, Refusal>)
    ensures Screen(q, catalog, graph.receipt, primitives).Err? ==>
              r == Err(Screen(q, catalog, graph.receipt, primitives).error)
    ensures r.Ok? <==>
      Screen(q, catalog, graph.receipt, primitives).Ok? && EveryPrimitiveAllowed(graph, q.relation, primitives)
    ensures r.Ok? ==>
      r.value == Composition(Binding(q, catalog, graph.receipt, primitives), q.plan, q.relation, q.form, primitives)
  {
    var screened := Screen(q, catalog, graph.receipt, primitives);
    if screened.Err? {
      return Err(screened.error);
    }
    var decided := CollectDecisions(graph, q.relation, primitives);
    if decided.Err? {
      return Err(decided.error);
    }
    var binding := Binding(q, catalog, graph.receipt, primitives);
    var bound := binding.(allowDecisionCount := |decided.value|,
                          effectiveDecision := Cat.Sha256((q.relation, q.form, decided.value)));
    return Ok(Composition(bound, q.plan, q.relation, q.form, primitives));
  }

  ghost predicate Composable(q: Request, catalog: Cat.Receipt, graph: GraphProduct) {
    match RequiredWriteOps(q.form)
    case Err(_) => false
    case Ok(ops) => Screen(q, catalog, graph.receipt, ops).Ok? && EveryPrimitiveAllowed(graph, q.relation, ops)
  }

  method Compose(q: Request, catalog: Cat.Receipt, graph: GraphProduct) returns (r: Result<Composition, Refusal>)
    ensures r.Ok? <==> Composable(q, catalog, graph)
    ensures r.Ok? ==> r.value.plan == q.plan && r.value.relation == q.relation && r.value.form == q.form
                      && RequiredWriteOps(q.form) == Ok(r.value.primitives)
  {
    var primitives := RequiredWriteOps(q.form);
    if primitives.Err? {
      return Err(Refusal.CompoundWriteUnsupported);
    }
    r := ComposeFromVerifiedParts(q, catalog, graph, primitives.value);
  }
}
