/**
 * What an allowed plan means for the database: no cascade of writes it sets off
 * ever reaches a guarded relation. Cascades are stated on the catalog rows, not
 * on the derived graph.
 */
module WriteSafety {
  import opened Prelude
  import Cat = CatalogEvidence
  import opened Traversal
  import opened ReservedFacts
  import opened ReservedGraph
  import GraphLaws
  import opened PlanComposition

  // ---- Cascades, stated on the facts ----

  /** Some stated fact makes SQLite write `b` whenever `a` is written. */
  ghost predicate FactCauses(fs: set<Fact>, a: Node, b: Node) {
    || (exists f :: f in fs && AutoincrementOf(f, a, b))
    || (exists f :: f in fs && f.ForeignKeyFact? && KeyLink(f.foreignKey, a, b))
  }

  predicate AutoincrementOf(f: Fact, a: Node, b: Node) {
    f.RelationFact? && f.relation.autoincrement && a == Node(f.name, Insert) && b == Node(SQLITE_SEQUENCE, Update)
  }

  /** A run of writes, each after the first caused by the one before it. */
  ghost predicate Cascade(fs: set<Fact>, p: seq<Node>) {
    |p| > 0 && forall i :: 0 <= i < |p| - 1 ==> FactCauses(fs, p[i], p[i + 1])
  }

  /** Relations no plan may touch: reserved ones, those with triggers, and views. */
  ghost predicate Guarded(fs: set<Fact>, roots: set<Bytes>, name: Bytes) {
    || name in roots || AutomaticReserved(name)
    || TriggerFact(name) in fs
    || RelationFact(name, Relation(View, true)) in fs || RelationFact(name, Relation(View, false)) in fs
  }

  ghost predicate ReachesGuarded(fs: set<Fact>, roots: set<Bytes>, start: Node) {
    exists p: seq<Node> :: Cascade(fs, p) && p[0] == start && Guarded(fs, roots, p[|p| - 1].relation)
  }

  // ---- The derived graph has exactly these edges ----

  lemma CausesAreFacts(c: Collected, fs: set<Fact>, a: Node, b: Node)
    requires HoldsExactly(c, fs) && KeyedByChild(c)
    ensures Caused(AutoincrementNames(c.relations), c.foreignKeys.Values, a, b) <==> FactCauses(fs, a, b)
  {
    if SequenceLink(AutoincrementNames(c.relations), a, b) {
      assert AutoincrementOf(RelationFact(a.relation, c.relations[a.relation]), a, b);
    }
    if k :| k in c.foreignKeys.Values && KeyLink(k, a, b) {
      var at :| at in c.foreignKeys && c.foreignKeys[at] == k;
      assert ForeignKeyFact(at.1, k) in fs;
    }
    if f :| f in fs && f.ForeignKeyFact? && KeyLink(f.foreignKey, a, b) {
      assert c.foreignKeys[(f.foreignKey.child, f.id)] == f.foreignKey;
      assert f.foreignKey in c.foreignKeys.Values;
    }
  }

  /** Whatever a write on a relation causes is again a write on a relation. */
  lemma CausedStaysInside(c: Collected, roots: set<Bytes>, a: Node, b: Node)
    requires Derivable(c, roots)
    requires Caused(AutoincrementNames(c.relations), c.foreignKeys.Values, a, b)
    ensures b.relation in c.relations
  {
    if k :| k in c.foreignKeys.Values && KeyLink(k, a, b) {
      assert KeyResolves(k, c.relations);
    }
  }

  lemma EdgeIsCause(c: Collected, fs: set<Fact>, roots: set<Bytes>, a: Node, b: Node)
    requires HoldsExactly(c, fs) && KeyedByChild(c) && Derivable(c, roots) && a.relation in c.relations
    ensures a in WriteGraph(c)
    ensures FactCauses(fs, a, b) <==> b in WriteGraph(c)[a]
    ensures FactCauses(fs, a, b) ==> b.relation in c.relations
  {
    NodesOfRelations(c.relations.Keys);
    CausesAreFacts(c, fs, a, b);
    if FactCauses(fs, a, b) { CausedStaysInside(c, roots, a, b); }
  }

  lemma {:induction false} CascadeStaysInside(c: Collected, fs: set<Fact>, roots: set<Bytes>, p: seq<Node>, k: nat)
    requires HoldsExactly(c, fs) && KeyedByChild(c) && Derivable(c, roots)
    requires Cascade(fs, p) && p[0].relation in c.relations && k < |p|
    ensures p[k].relation in c.relations
  {
    if k > 0 {
      CascadeStaysInside(c, fs, roots, p, k - 1);
      assert FactCauses(fs, p[k - 1], p[k - 1 + 1]);
      EdgeIsCause(c, fs, roots, p[k - 1], p[k]);
    }
  }

  lemma CascadeIsTrace(c: Collected, fs: set<Fact>, roots: set<Bytes>, p: seq<Node>)
    requires HoldsExactly(c, fs) && KeyedByChild(c) && Derivable(c, roots)
    requires |p| > 0 && p[0].relation in c.relations
    ensures Cascade(fs, p) ==> Trace(WriteGraph(c), p)
    ensures Trace(WriteGraph(c), p) ==> Cascade(fs, p)
  {
    NodesOfRelations(c.relations.Keys);
    forall i | 0 <= i < |p| - 1 && (Cascade(fs, p) || Trace(WriteGraph(c), p))
      ensures p[i] in WriteGraph(c) && (FactCauses(fs, p[i], p[i + 1]) <==> p[i + 1] in WriteGraph(c)[p[i]])
    {
      if Cascade(fs, p) { CascadeStaysInside(c, fs, roots, p, i); }
      EdgeIsCause(c, fs, roots, p[i], p[i + 1]);
    }
  }

  ghost function GuardedNames(c: Collected, roots: set<Bytes>): set<Bytes> {
    roots + AutomaticRoots(c.relations) + Owners(c.triggerOwners) + Names(c.relations, View)
  }

  lemma GuardedIsNamed(c: Collected, fs: set<Fact>, roots: set<Bytes>, name: Bytes)
    requires HoldsExactly(c, fs) && name in c.relations
    ensures Guarded(fs, roots, name) <==> name in GuardedNames(c, roots)
  {
    assert c.relations[name] == Relation(c.relations[name].kind, c.relations[name].autoincrement);
  }

  lemma GuardedCascadeIsTouch(c: Collected, fs: set<Fact>, roots: set<Bytes>, start: Node)
    requires HoldsExactly(c, fs) && KeyedByChild(c) && Derivable(c, roots) && start.relation in c.relations
    ensures ReachesGuarded(fs, roots, start) <==> Touches(WriteGraph(c), start, GuardedNames(c, roots))
  {
    if ReachesGuarded(fs, roots, start) {
      var p: seq<Node> :| Cascade(fs, p) && p[0] == start && Guarded(fs, roots, p[|p| - 1].relation);
      CascadeIsTrace(c, fs, roots, p);
      CascadeStaysInside(c, fs, roots, p, |p| - 1);
      GuardedIsNamed(c, fs, roots, p[|p| - 1].relation);
      assert Reaches(WriteGraph(c), start, p[|p| - 1]);
    }
    if Touches(WriteGraph(c), start, GuardedNames(c, roots)) {
      var n :| Reaches(WriteGraph(c), start, n) && n.relation in GuardedNames(c, roots);
      var p :| Trace(WriteGraph(c), p) && p[0] == start && p[|p| - 1] == n;
      CascadeIsTrace(c, fs, roots, p);
      CascadeStaysInside(c, fs, roots, p, |p| - 1);
      GuardedIsNamed(c, fs, roots, n.relation);
    }
  }

  lemma AllowIsUntouched(edges: Edges, start: Node, reserved: set<Bytes>, triggers: set<Bytes>, views: set<Bytes>)
    ensures Decide(edges, start, reserved, triggers, views) == Allow <==>
              !Touches(edges, start, reserved + triggers + views)
  {
    forall n | Reaches(edges, start, n) && n.relation in reserved + triggers + views
      ensures Touches(edges, start, reserved) || Touches(edges, start, triggers) || Touches(edges, start, views)
    {
    }
    forall n | Reaches(edges, start, n) && (n.relation in reserved || n.relation in triggers || n.relation in views)
      ensures n.relation in reserved + triggers + views
    {
    }
  }

  /** A derived decision is `Allow` exactly when no cascade from the write reaches a guarded relation. */
  lemma AllowMeansNoGuardedCascade(rows: seq<Cat.Row>, roots: set<Bytes>, decisions: Decisions, relation: Bytes,
                                   op: WriteOp)
    requires Gather(rows).Ok? && Derivable(Gather(rows).value, roots)
             && DecisionsOf(decisions, Gather(rows).value, roots)
    ensures Node(relation, op) in decisions <==> relation in Gather(rows).value.relations
    ensures relation in Gather(rows).value.relations ==>
      (decisions[Node(relation, op)] == Allow <==> !ReachesGuarded(FactsOf(rows), roots, Node(relation, op)))
  {
    var c, fs, start := Gather(rows).value, FactsOf(rows), Node(relation, op);
    GatherHolds(rows);
    NodesOfRelations(c.relations.Keys);
    assert start in WriteGraph(c) <==> relation in c.relations;
    if relation in c.relations {
      GuardedCascadeIsTouch(c, fs, roots, start);
      AllowIsUntouched(WriteGraph(c), start, roots + AutomaticRoots(c.relations), Owners(c.triggerOwners),
                       Names(c.relations, View));
    }
  }

  ghost predicate PlanHarmless(relations: set<Bytes>, fs: set<Fact>, roots: set<Bytes>, relation: Bytes,
                               ops: seq<WriteOp>) {
    && relation in relations
    && forall i :: 0 <= i < |ops| ==> !ReachesGuarded(fs, roots, Node(relation, ops[i]))
  }

  lemma LookupOfCanonical(product: GraphProduct, relation: Bytes, op: WriteOp)
    requires RelationCanonical(relation)
    ensures DecisionFor(product, relation, op) == Some(Allow) <==>
            Node(relation, op) in product.decisions && product.decisions[Node(relation, op)] == Allow
  {
  }

  lemma EveryPrimitiveHarmless(rows: seq<Cat.Row>, roots: set<Bytes>, product: GraphProduct, relation: Bytes,
                               ops: seq<WriteOp>)
    requires Gather(rows).Ok? && Derivable(Gather(rows).value, roots)
             && DecisionsOf(product.decisions, Gather(rows).value, roots)
    requires RelationCanonical(relation) && ops != []
    ensures EveryPrimitiveAllowed(product, relation, ops) <==>
            PlanHarmless(Gather(rows).value.relations.Keys, FactsOf(rows), roots, relation, ops)
  {
    forall i | 0 <= i < |ops|
      ensures DecisionFor(product, relation, ops[i]) == Some(Allow) <==>
              relation in Gather(rows).value.relations && !ReachesGuarded(FactsOf(rows), roots, Node(relation, ops[i]))
    {
      LookupOfCanonical(product, relation, ops[i]);
      AllowMeansNoGuardedCascade(rows, roots, product.decisions, relation, ops[i]);
    }
    if EveryPrimitiveAllowed(product, relation, ops) {
      assert DecisionFor(product, relation, ops[0]) == Some(Allow);
    }
  }

  lemma ComposableParts(q: Request, catalog: Cat.Receipt, graph: GraphProduct)
    requires RequiredWriteOps(q.form).Ok?
    ensures RequiredWriteOps(q.form).value != []
    ensures Composable(q, catalog, graph) <==>
            Screen(q, catalog, graph.receipt, RequiredWriteOps(q.form).value).Ok?
            && EveryPrimitiveAllowed(graph, q.relation, RequiredWriteOps(q.form).value)
    ensures Screen(q, catalog, graph.receipt, RequiredWriteOps(q.form).value).Ok? ==> RelationCanonical(q.relation)
  {
  }

  /** Composition succeeds on screened products exactly when no primitive of the form sets off a guarded write. */
  lemma ComposedPlansAreSafe(q: Request, rows: seq<Cat.Row>, catalog: Cat.Receipt, roots: set<Bytes>,
                             product: GraphProduct)
    requires Gather(rows).Ok? && Derivable(Gather(rows).value, roots)
             && DecisionsOf(product.decisions, Gather(rows).value, roots)
    requires RequiredWriteOps(q.form).Ok?
    requires Screen(q, catalog, product.receipt, RequiredWriteOps(q.form).value).Ok?
    ensures Composable(q, catalog, product) <==>
            PlanHarmless(Gather(rows).value.relations.Keys, FactsOf(rows), roots, q.relation,
                         RequiredWriteOps(q.form).value)
  {
    ComposableParts(q, catalog, product);
    EveryPrimitiveHarmless(rows, roots, product, q.relation, RequiredWriteOps(q.form).value);
  }

  lemma HarmlessCascade(relations: set<Bytes>, fs: set<Fact>, roots: set<Bytes>, ops: seq<WriteOp>, p: seq<Node>,
                        k: nat)
    requires Cascade(fs, p) && k < |p| && p[0].op in ops
    requires PlanHarmless(relations, fs, roots, p[0].relation, ops)
    ensures !Guarded(fs, roots, p[k].relation)
  {
    var prefix := p[..k + 1];
    assert Cascade(fs, prefix) && prefix[0] == p[0] && prefix[|prefix| - 1] == p[k];
    var i :| 0 <= i < |ops| && ops[i] == p[0].op;
    assert p[0] == Node(p[0].relation, ops[i]);
    assert !ReachesGuarded(fs, roots, Node(p[0].relation, ops[i]));
  }

  /** No write of any cascade that starts with a primitive on the relation is on a guarded relation. */
  ghost predicate CascadesUnguarded(fs: set<Fact>, roots: set<Bytes>, relation: Bytes, ops: seq<WriteOp>) {
    forall p: seq<Node>, k ::
      Cascade(fs, p) && 0 <= k < |p| && p[0].relation == relation && p[0].op in ops ==>
            !Guarded(fs, roots, p[k].relation)
  }

  /** A graph composed with a catalog was derived from the very rows, on the very target, of that catalog. */
  lemma ComposedFromSameCatalog(q: Request, target: Cat.Target, rows: seq<Cat.Row>, otherTarget: Cat.Target,
                                other: seq<Cat.Row>, roots: set<Bytes>, product: GraphProduct)
    requires Gather(other).Ok? && ProductOf(product, Cat.IssueReceipt(otherTarget, other), Gather(other).value, roots)
    requires Composable(q, Cat.IssueReceipt(target, rows), product)
    ensures other == rows && otherTarget == target == q.target
  {
  }

  /**
   * In a composed plan every write of every cascade, at any length, stays on unguarded relations: the cascades are
   * those of the catalog that composition saw, from whatever rows the graph was derived.
   */
  lemma ComposedCascadeUnguarded(q: Request, target: Cat.Target, rows: seq<Cat.Row>, otherTarget: Cat.Target,
                                 other: seq<Cat.Row>, roots: set<Bytes>, product: GraphProduct)
    requires Gather(other).Ok? && Derivable(Gather(other).value, roots)
    requires ProductOf(product, Cat.IssueReceipt(otherTarget, other), Gather(other).value, roots)
    requires Composable(q, Cat.IssueReceipt(target, rows), product)
    ensures q.target == target && CascadesUnguarded(FactsOf(rows), roots, q.relation, RequiredWriteOps(q.form).value)
  {
    var ops := RequiredWriteOps(q.form).value;
    ComposedFromSameCatalog(q, target, rows, otherTarget, other, roots, product);
    ComposableParts(q, Cat.IssueReceipt(target, rows), product);
    EveryPrimitiveHarmless(rows, roots, product, q.relation, ops);
    forall p: seq<Node>, k | Cascade(FactsOf(rows), p) && 0 <= k < |p| && p[0].relation == q.relation && p[0].op in ops
      ensures !Guarded(FactsOf(rows), roots, p[k].relation)
    {
      HarmlessCascade(Gather(rows).value.relations.Keys, FactsOf(rows), roots, ops, p, k);
    }
  }

  datatype Stop = NotDerived(Classification) | NotComposed(Refusal)

  /** Rows to graph to composition in one go: a plan comes out only if its cascades are harmless. */
  method DeriveAndCompose(target: Cat.Target, rows: seq<Cat.Row>, configured: seq<Bytes>, q: Request)
    returns (r: Result<Composition, Stop>)
    ensures r.Ok? ==>
              && q.target == target && r.value.plan == q.plan && RequiredWriteOps(q.form) == Ok(r.value.primitives)
              && exists roots :: IsIdentitySet(roots, configured, RootIdentity)
                                 && CascadesUnguarded(FactsOf(rows), roots, q.relation, r.value.primitives)
    ensures r.Err? && r.error.NotDerived? && Cat.ProjectionValid(rows) ==>
              r.error != NotDerived(CatalogReferenceMissing) && r.error != NotDerived(CatalogFactUnsupported)
  {
    var catalog := Cat.IssueReceipt(target, rows);
    var graph := Derive(catalog, rows, configured);
    if graph.Err? {
      GatherNeverMissing(rows);
      if Cat.ProjectionValid(rows) { GraphLaws.AcceptedCatalogSuffices(rows); }
      return Err(NotDerived(graph.error));
    }
    var composed := Compose(q, catalog, graph.value);
    if composed.Err? {
      return Err(NotComposed(composed.error));
    }
    ghost var roots :| IsIdentitySet(roots, configured, RootIdentity)
        && ProductOf(graph.value, catalog, Gather(rows).value, roots);
    DerivableRoots(configured, roots, Gather(rows).value);
    ComposedCascadeUnguarded(q, target, rows, target, rows, roots, graph.value);
    return Ok(composed.value);
  }

  /** The identities of the configured roots are one set, so any of them is the one that was derived with. */
  lemma DerivableRoots(configured: seq<Bytes>, roots: set<Bytes>, c: Collected)
    requires IsIdentitySet(roots, configured, RootIdentity)
    requires exists other :: IsIdentitySet(other, configured, RootIdentity) && Derivable(c, other)
    ensures Derivable(c, roots)
  {
    var other :| IsIdentitySet(other, configured, RootIdentity) && Derivable(c, other);
    assert forall t :: t in other <==> t in roots;
    assert other == roots;
  }

  // ---- The receipts are the ones the next stage expects ----

  /** The receipt issued for accepted rows passes both later checks of it. */
  lemma IssuedReceiptAccepted(target: Cat.Target, rows: seq<Cat.Row>)
    requires Cat.ProjectionValid(rows)
    ensures ValidateCatalogProduct(Cat.IssueReceipt(target, rows), rows) == Ok(())
    ensures ValidateCatalogReceipt(target, Cat.IssueReceipt(target, rows)) == Ok(())
  {
    GraphLaws.AcceptedKindsCover(rows);
  }

  lemma {:induction false} OwnersAtMost(owners: seq<Bytes>)
    ensures |Owners(owners)| <= |owners|
  {
    if owners != [] {
      var front := owners[..|owners| - 1];
      OwnersAtMost(front);
      assert Owners(owners) == Owners(front) + {owners[|owners| - 1]} by {
        assert owners == front + [owners[|owners| - 1]];
      }
    }
  }

  function Decided(decisions: Decisions, d: Decision): set<Node> {
    set n | n in decisions && decisions[n] == d
  }

  /** The four kinds of decision partition the nodes. */
  lemma DecisionsPartition(decisions: Decisions)
    ensures DecisionCount(decisions, Allow) + DecisionCount(decisions, DenyReservedReachable)
            + DecisionCount(decisions, DenyTriggerEffectsUnproven) +
                DecisionCount(decisions, DenyViewWriteSemanticsUnproven)
            == |decisions|
  {
    var a, r := Decided(decisions, Allow), Decided(decisions, DenyReservedReachable);
    var t, v := Decided(decisions, DenyTriggerEffectsUnproven), Decided(decisions, DenyViewWriteSemanticsUnproven);
    assert decisions.Keys == a + r + t + v;
    assert a !! r && a + r !! t && a + r + t !! v;
  }

  /** Configured roots are never of an automatically reserved family, so the two counts add up. */
  lemma RootsDisjoint(roots: set<Bytes>, configured: seq<Bytes>, relations: map<Bytes, Relation>)
    requires RootsAcceptable(configured) && IsIdentitySet(roots, configured, RootIdentity)
    ensures |roots + AutomaticRoots(relations)| == |roots| + |AutomaticRoots(relations)| && |roots| > 0
  {
    assert roots !! AutomaticRoots(relations);
  }

  lemma DerivedReceiptAccepted(rows: seq<Cat.Row>, catalog: Cat.Receipt, configured: seq<Bytes>, roots: set<Bytes>,
                               product: GraphProduct)
    requires ValidateCatalogProduct(catalog, rows).Ok?
    requires RootsAcceptable(configured) && IsIdentitySet(roots, configured, RootIdentity)
    requires Gather(rows).Ok? && Derivable(Gather(rows).value, roots)
    requires ProductOf(product, catalog, Gather(rows).value, roots)
    ensures ValidateGraphReceipt(catalog, product.receipt) == Ok(())
    ensures product.receipt.graphEdgeCount == |Pairs(WriteGraph(Gather(rows).value))| <= MAX_GRAPH_EDGES
  {
    hide Decide, Gather, Cat.KindCount, NodesOf, Pairs;
    var c := Gather(rows).value;
    GatherCounts(rows);
    NodeCount(c.relations.Keys);
    DecisionsPartition(product.decisions);
    assert product.decisions.Keys == NodesOf(c.relations.Keys);
    RootsDisjoint(roots, configured, c.relations);
    OwnersAtMost(c.triggerOwners);
    TableCountBounded(c.relations);
  }
}
