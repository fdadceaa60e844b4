/**
 * Derivation of the write graph and its decisions from verified catalog rows
 * (src/d1_reserved_relation_graph.rs).
 */
module ReservedGraph {
  import opened Prelude
  import Cat = CatalogEvidence
  import opened Traversal
  import opened ReservedFacts

  const GRAPH_VERSION: nat := 3
  const REQUIRED_CATALOG_VERSION: nat := 5
  const MAX_CONFIGURED_RESERVED_ROOTS: nat := 64
  const OPERATION := "d1_reserved_relation_write_graph"
  const SQLITE_SEQUENCE: Bytes := Ascii("sqlite_sequence")

  datatype WriteForm =
    | InsertForm
    | UpdateForm
    | DeleteForm
    | ReplaceForm
    | InsertOrReplace
    | UpsertDoUpdate
    | UpdateOrReplace
    | UnsupportedCompound

  function RequiredWriteOps(form: WriteForm): Result<seq<WriteOp>, Classification> {
    match form
    case InsertForm => Ok([Insert])
    case UpdateForm => Ok([Update])
    case DeleteForm => Ok([Delete])
    case ReplaceForm => Ok([Delete, Insert])
    case InsertOrReplace => Ok([Delete, Insert])
    case UpsertDoUpdate => Ok([Insert, Update])
    case UpdateOrReplace => Ok([Update, Delete])
    case UnsupportedCompound => Err(CompoundWriteUnsupported)
  }

  // ---- Identities and roots ----

  function CanonicalIdentity(value: Bytes): Option<Bytes> {
    if |value| > 255 || !IsPrintable(value) then None else Some(Lower(value))
  }

  predicate AutomaticReserved(identity: Bytes) {
    Ascii("sqlite_") <= identity || Ascii("_cf_") <= identity
  }

  /** A configured root: canonical, nonempty, and not of a family reserved anyway. */
  function RootIdentity(value: Bytes): Option<Bytes> {
    match CanonicalIdentity(value)
    case None => None
    case Some(identity) => if identity == [] || AutomaticReserved(identity) then None else Some(identity)
  }

  ghost predicate AllDistinct<V, T(!new)>(values: seq<V>, identity: V -> Option<T>) {
    && (forall i :: 0 <= i < |values| ==> identity(values[i]).Some?)
    && (forall i, j :: 0 <= i < j < |values| ==> identity(values[i]) != identity(values[j]))
  }

  ghost predicate RootsAcceptable(values: seq<Bytes>) {
    1 <= |values| <= MAX_CONFIGURED_RESERVED_ROOTS && AllDistinct(values, RootIdentity)
  }

  ghost predicate IsIdentitySet<V, T(!new)>(roots: set<T>, values: seq<V>, identity: V -> Option<T>) {
    && |roots| == |values|
    && forall t :: t in roots <==> exists i :: 0 <= i < |values| && identity(values[i]) == Some(t)
  }

  method CollectDistinct<V, T(!new, ==)>(values: seq<V>, identity: V -> Option<T>)
      returns (r: Result<set<T>, Classification>)
    ensures r.Ok? <==> AllDistinct(values, identity)
    ensures r.Ok? ==> IsIdentitySet(r.value, values, identity)
    ensures r.Err? ==> r.error in {ReservedRootInvalid, ReservedRootDuplicate}
    ensures r == Err(ReservedRootInvalid) ==> exists i :: 0 <= i < |values| && identity(values[i]).None?
  {
    var roots: set<T> := {};
    for i := 0 to |values|
      invariant AllDistinct(values[..i], identity)
      invariant |roots| == i
      invariant forall t :: t in roots <==> exists k :: 0 <= k < i && identity(values[k]) == Some(t)
    {
      var found := identity(values[i]);
      if found.None? {
        return Err(ReservedRootInvalid);
      }
      if found.value in roots {
        return Err(ReservedRootDuplicate);
      }
      roots := roots + {found.value};
    }
    assert values[..|values|] == values;
    return Ok(roots);
  }

  method NormalizeReservedRoots(values: seq<Bytes>) returns (r: Result<set<Bytes>, Classification>)
    ensures r.Ok? <==> RootsAcceptable(values)
    ensures r.Ok? ==> IsIdentitySet(r.value, values, RootIdentity)
    ensures r.Err? ==> r.error in {ReservedRootInvalid, ReservedRootDuplicate}
  {
    if |values| == 0 || |values| > MAX_CONFIGURED_RESERVED_ROOTS {
      return Err(ReservedRootInvalid);
    }
    r := CollectDistinct(values, RootIdentity);
  }

  /** The rows are the ones the receipt counts. */
  function ValidateCatalogProduct(receipt: Cat.Receipt, rows: seq<Cat.Row>): Result<(), Classification> {
    if receipt.version != REQUIRED_CATALOG_VERSION || receipt.operation != Cat.OPERATION
       || receipt.projectionVersion != REQUIRED_CATALOG_VERSION
    then Err(CatalogProjectionUnsupported)
    else if receipt.rowCount != |rows|
            || receipt.schemaPhysicalRowCount != Cat.SchemaPhysicalCount(rows)
            || receipt.relationFactCount != Cat.KindCount(rows, "relation")
            || receipt.triggerOwnerFactCount != Cat.KindCount(rows, "trigger_owner")
            || receipt.schemaAuxiliaryFactCount != Cat.KindCount(rows, "schema_auxiliary")
            || receipt.schemaBlockerFactCount != Cat.KindCount(rows, "schema_blocker")
            || receipt.foreignKeyFactCount != Cat.KindCount(rows, "foreign_key")
            || receipt.foreignKeyBlockerFactCount != Cat.KindCount(rows, "foreign_key_blocker")
            || receipt.conservativeBlockerCount != Cat.BlockerCount(rows)
            || receipt.stablePrimaryObservations != 2
    then Err(CatalogProductMismatch)
    else Ok(())
  }

  // ---- Which write causes which ----

  /** What a foreign-key action does to the child rows when the parent row undergoes `op`. */
  function Effect(action: Bytes, op: WriteOp): Option<WriteOp> {
    if action == Ascii("CASCADE") then Some(op)
    else if action == Ascii("SET NULL") || action == Ascii("SET DEFAULT") then Some(Update)
    else None
  }

  /** Inserting into an AUTOINCREMENT table updates `sqlite_sequence`. */
  predicate SequenceLink(autos: set<Bytes>, a: Node, b: Node) {
    a.op == Insert && a.relation in autos && b == Node(SQLITE_SEQUENCE, Update)
  }

  /** Updating or deleting a parent row writes the child as the constraint's action says. */
  predicate KeyLink(k: ForeignKey, a: Node, b: Node) {
    ActionLink(k, Update, k.onUpdate, a, b) || ActionLink(k, Delete, k.onDelete, a, b)
  }

  predicate ActionLink(k: ForeignKey, op: WriteOp, action: Bytes, a: Node, b: Node) {
    a == Node(k.parent, op) && b.relation == k.child && Effect(action, op) == Some(b.op)
  }

  predicate Caused(autos: set<Bytes>, keys: set<ForeignKey>, a: Node, b: Node) {
    SequenceLink(autos, a, b) || exists k :: k in keys && KeyLink(k, a, b)
  }

  function OpNodes(relations: set<Bytes>, op: WriteOp): set<Node> {
    set r | r in relations :: Node(r, op)
  }

  /** Three nodes for each relation. */
  function NodesOf(relations: set<Bytes>): set<Node> {
    OpNodes(relations, Insert) + OpNodes(relations, Update) + OpNodes(relations, Delete)
  }

  lemma NodesOfRelations(relations: set<Bytes>)
    ensures forall n: Node :: n in NodesOf(relations) <==> n.relation in relations
  {
    forall n: Node ensures n in NodesOf(relations) <==> n.relation in relations {
      assert n in OpNodes(relations, n.op) <==> n.relation in relations;
      assert n.op == Insert || n.op == Update || n.op == Delete;
    }
  }

  lemma {:induction false} OpNodesCount(relations: set<Bytes>, op: WriteOp)
    ensures |OpNodes(relations, op)| == |relations|
  {
    if relations != {} {
      var r :| r in relations;
      OpNodesCount(relations - {r}, op);
      assert OpNodes(relations, op) == OpNodes(relations - {r}, op) + {Node(r, op)};
    }
  }

  lemma NodeCount(relations: set<Bytes>)
    ensures |NodesOf(relations)| == 3 * |relations|
  {
    OpNodesCount(relations, Insert);
    OpNodesCount(relations, Update);
    OpNodesCount(relations, Delete);
    assert OpNodes(relations, Insert) !! OpNodes(relations, Update);
    assert OpNodes(relations, Insert) + OpNodes(relations, Update) !! OpNodes(relations, Delete);
  }

  /** The graph of all direct causes among `nodes`. */
  function GraphOf(nodes: set<Node>, autos: set<Bytes>, keys: set<ForeignKey>): (g: Edges)
    ensures Closed(g) && g.Keys == nodes
  {
    map a | a in nodes :: set b | b in nodes && Caused(autos, keys, a, b)
  }

  /** The distinct edges of a graph. */
  function Pairs(edges: Edges): set<(Node, Node)> {
    set a, b | a in edges && b in edges[a] :: (a, b)
  }

  /** So far the table holds exactly the edges that `autos` and `keys` cause. */
  ghost predicate Tabulates(edges: Edges, nodes: set<Node>, autos: set<Bytes>, keys: set<ForeignKey>) {
    && edges.Keys == nodes
    && forall a, b :: a in nodes ==> (b in edges[a] <==> Caused(autos, keys, a, b))
  }

  lemma TabulatesIsGraph(edges: Edges, nodes: set<Node>, autos: set<Bytes>, keys: set<ForeignKey>)
    requires Closed(edges) && Tabulates(edges, nodes, autos, keys)
    ensures edges == GraphOf(nodes, autos, keys)
  {
    var g := GraphOf(nodes, autos, keys);
    forall a | a in nodes ensures edges[a] == g[a] {
      assert forall b :: b in edges[a] <==> b in g[a];
    }
  }

  ghost predicate Below(small: Edges, large: Edges) {
    small.Keys == large.Keys && forall a :: a in small ==> small[a] <= large[a]
  }

  lemma BelowPairs(small: Edges, large: Edges)
    requires Below(small, large)
    ensures |Pairs(small)| <= |Pairs(large)|
  {
    forall p | p in Pairs(small) ensures p in Pairs(large) {
      assert p.0 in large && p.1 in large[p.0];
    }
    SubsetSize(Pairs(small), Pairs(large));
  }

  class EdgeTable {
    var edges: Edges
    var edgeCount: nat

    /** The counter is the number of distinct edges. */
    ghost predicate Valid()
      reads this
    {
      Closed(edges) && edgeCount == |Pairs(edges)|
    }

    constructor (nodes: set<Node>)
      ensures Valid() && Tabulates(edges, nodes, {}, {}) && edgeCount == 0
    {
      edges := map n | n in nodes :: {};
      edgeCount := 0;
      new;
      assert Pairs(edges) == {};
    }

    method AddEdge(source: Node, target: Node) returns (r: Result<(), Classification>)
      requires Valid()
      modifies this
      ensures Valid()
      ensures source in old(edges) && target in old(edges) ==>
                edges == old(edges)[source := old(edges)[source] + {target}]
      ensures r == Err(CatalogReferenceMissing) <==> !(source in old(edges) && target in old(edges))
      ensures r == Err(CatalogReferenceMissing) ==> edges == old(edges)
      ensures r.Err? && r.error != CatalogReferenceMissing ==>
                r.error == GraphLimitExceeded && edgeCount > MAX_GRAPH_EDGES
      ensures r.Ok? && old(edgeCount) <= MAX_GRAPH_EDGES ==> edgeCount <= MAX_GRAPH_EDGES
    {
      if source !in edges || target !in edges {
        return Err(CatalogReferenceMissing);
      }
      if target !in edges[source] {
        ghost var before := Pairs(edges);
        edges := edges[source := edges[source] + {target}];
        edgeCount := edgeCount + 1;
        assert Pairs(edges) == before + {(source, target)};
        if edgeCount > MAX_GRAPH_EDGES {
          return Err(GraphLimitExceeded);
        }
      } else {
        assert edges[source] + {target} == edges[source];
      }
      return Ok(());
    }

    /** Add the edge one action of a constraint stands for, if it stands for one. */
    method AddForeignKeyAction(k: ForeignKey, op: WriteOp, action: Bytes) returns (r: Result<(), Classification>)
      requires Valid()
      requires Node(k.parent, op) in edges && Node(k.child, op) in edges && Node(k.child, Update) in edges
      modifies this
      ensures Valid() && edges.Keys == old(edges).Keys
      ensures forall a, b :: a in edges ==>
                (b in edges[a] <==> b in old(edges)[a] || ActionLink(k, op, action, a, b))
      ensures r == Err(CatalogFactUnsupported) <==> action !in Cat.ACTIONS
      ensures r.Err? && r.error != CatalogFactUnsupported ==>
                r.error == GraphLimitExceeded && edgeCount > MAX_GRAPH_EDGES
      ensures r.Ok? && old(edgeCount) <= MAX_GRAPH_EDGES ==> edgeCount <= MAX_GRAPH_EDGES
    {
      var childOp: Option<WriteOp>;
      if action == Ascii("NO ACTION") || action == Ascii("RESTRICT") {
        assert action == Cat.ACTIONS[0] || action == Cat.ACTIONS[1];
        NoEffect(action, op);
        childOp := None;
      } else if action == Ascii("CASCADE") {
        assert action == Cat.ACTIONS[4];
        childOp := Some(op);
      } else if action == Ascii("SET NULL") || action == Ascii("SET DEFAULT") {
        assert action == Cat.ACTIONS[2] || action == Cat.ACTIONS[3];
        NotCascade(action);
        childOp := Some(Update);
      } else {
        return Err(CatalogFactUnsupported);
      }
      r := Ok(());
      if childOp.Some? {
        r := AddEdge(Node(k.parent, op), Node(k.child, childOp.value));
      }
    }
  }

  lemma NoEffect(action: Bytes, op: WriteOp)
    requires action == Ascii("NO ACTION") || action == Ascii("RESTRICT")
    ensures Effect(action, op) == None
  {
    assert Ascii("CASCADE")[0] != Ascii("NO ACTION")[0] && Ascii("CASCADE")[0] != Ascii("RESTRICT")[0];
    assert Ascii("SET NULL")[0] != Ascii("NO ACTION")[0] && Ascii("SET NULL")[0] != Ascii("RESTRICT")[0];
    assert Ascii("SET DEFAULT")[0] != Ascii("NO ACTION")[0] && Ascii("SET DEFAULT")[0] != Ascii("RESTRICT")[0];
  }

  lemma NotCascade(action: Bytes)
    requires action == Ascii("SET NULL") || action == Ascii("SET DEFAULT")
    ensures action != Ascii("CASCADE")
  {
    assert Ascii("CASCADE")[0] != Ascii("SET NULL")[0] && Ascii("CASCADE")[0] != Ascii("SET DEFAULT")[0];
  }

  // ---- Building the graph ----

  /** Both ends are tables and the match mode is a known one. */
  predicate KeyResolves(k: ForeignKey, relations: map<Bytes, Relation>) {
    && k.child in relations && relations[k.child].kind == Table
    && k.parent in relations && relations[k.parent].kind == Table
    && k.matchMode in Cat.MATCH_MODES
  }

  predicate ActionsKnown(k: ForeignKey) {
    k.onUpdate in Cat.ACTIONS && k.onDelete in Cat.ACTIONS
  }

  ghost predicate OverLimit(nodes: set<Node>, autos: set<Bytes>, keys: set<ForeignKey>) {
    |Pairs(GraphOf(nodes, autos, keys))| > MAX_GRAPH_EDGES
  }

  predicate SequenceTable(relations: map<Bytes, Relation>) {
    SQLITE_SEQUENCE in relations && relations[SQLITE_SEQUENCE].kind == Table
  }

  /** A table too large, all of whose edges the graph has too, means the graph is too large. */
  lemma TooManyEdges(edges: Edges, nodes: set<Node>, autos: set<Bytes>, keys: set<ForeignKey>)
    requires Closed(edges) && edges.Keys == nodes && |Pairs(edges)| > MAX_GRAPH_EDGES
    requires forall a, b :: a in edges && b in edges[a] ==> Caused(autos, keys, a, b)
    ensures OverLimit(nodes, autos, keys)
  {
    BelowPairs(edges, GraphOf(nodes, autos, keys));
  }

  method AddSequenceEdges(t: EdgeTable, nodes: set<Node>, autos: set<Bytes>, ghost keys: set<ForeignKey>)
    returns (r: Result<(), Classification>)
    requires t.Valid() && Tabulates(t.edges, nodes, {}, {}) && t.edgeCount <= MAX_GRAPH_EDGES
    requires forall n :: n in autos ==> Node(n, Insert) in nodes && Node(SQLITE_SEQUENCE, Update) in nodes
    modifies t
    ensures t.Valid()
    ensures r.Ok? ==> Tabulates(t.edges, nodes, autos, {}) && t.edgeCount <= MAX_GRAPH_EDGES
    ensures r.Err? ==> r.error == GraphLimitExceeded && OverLimit(nodes, autos, keys)
  {
    var left := autos;
    while left != {}
      invariant left <= autos
      invariant t.Valid() && Tabulates(t.edges, nodes, autos - left, {}) && t.edgeCount <= MAX_GRAPH_EDGES
      decreases left
    {
      var name :| name in left;
      r := t.AddEdge(Node(name, Insert), Node(SQLITE_SEQUENCE, Update));
      if r.Err? {
        TooManyEdges(t.edges, nodes, autos, keys);
        return;
      }
      left := left - {name};
    }
    return Ok(());
  }

  method AddForeignKeys(t: EdgeTable, ghost nodes: set<Node>, relations: map<Bytes, Relation>, ghost autos: set<Bytes>,
                        keys: set<ForeignKey>) returns (r: Result<(), Classification>)
    requires forall n: Node :: n.relation in relations ==> n in nodes
    requires t.Valid() && Tabulates(t.edges, nodes, autos, {}) && t.edgeCount <= MAX_GRAPH_EDGES
    modifies t
    ensures t.Valid()
    ensures r.Ok? ==>
      && Tabulates(t.edges, nodes, autos, keys) && t.edgeCount <= MAX_GRAPH_EDGES
      && forall k :: k in keys ==> KeyResolves(k, relations) && ActionsKnown(k)
    ensures r.Err? ==> match r.error
      case CatalogReferenceMissing => exists k :: k in keys && !KeyResolves(k, relations)
      case CatalogFactUnsupported => exists k :: k in keys && !ActionsKnown(k)
      case GraphLimitExceeded => OverLimit(nodes, autos, keys)
      case _ => false
  {
    var left := keys;
    while left != {}
      invariant left <= keys
      invariant t.Valid() && Tabulates(t.edges, nodes, autos, keys - left) && t.edgeCount <= MAX_GRAPH_EDGES
      invariant forall k :: k in keys - left ==> KeyResolves(k, relations) && ActionsKnown(k)
      decreases left
    {
      var k :| k in left;
      if !KeyResolves(k, relations) {
        return Err(CatalogReferenceMissing);
      }
      assert k.parent in relations && k.child in relations;
      r := AddKey(t, k, nodes, autos, keys - left, keys);
      if r.Err? {
        return;
      }
      left := left - {k};
      assert keys - left == (keys - (left + {k})) + {k};
    }
    assert keys - left == keys;
    return Ok(());
  }

  /** The two edges one constraint stands for. */
  method AddKey(t: EdgeTable, k: ForeignKey, ghost nodes: set<Node>, ghost autos: set<Bytes>,
                ghost done: set<ForeignKey>, ghost keys: set<ForeignKey>) returns (r: Result<(), Classification>)
    requires t.Valid() && Tabulates(t.edges, nodes, autos, done) && t.edgeCount <= MAX_GRAPH_EDGES
    requires done <= keys && k in keys
    requires forall op: WriteOp :: Node(k.parent, op) in nodes && Node(k.child, op) in nodes
    modifies t
    ensures t.Valid()
    ensures r.Ok? ==> Tabulates(t.edges, nodes, autos, done + {k}) && t.edgeCount <= MAX_GRAPH_EDGES && ActionsKnown(k)
    ensures r.Err? ==>
      || (r.error == CatalogFactUnsupported && !ActionsKnown(k))
      || (r.error == GraphLimitExceeded && OverLimit(nodes, autos, keys))
  {
    assert forall op: WriteOp :: Node(k.parent, op) in t.edges && Node(k.child, op) in t.edges;
    r := t.AddForeignKeyAction(k, Update, k.onUpdate);
    if r.Ok? {
      r := t.AddForeignKeyAction(k, Delete, k.onDelete);
    }
    if r.Err? {
      if r.error == GraphLimitExceeded {
        TooManyEdges(t.edges, nodes, autos, keys);
      }
    } else {
      CausedByOneMore(autos, done, k);
    }
  }

  lemma CausedByOneMore(autos: set<Bytes>, keys: set<ForeignKey>, k: ForeignKey)
    ensures forall a, b :: Caused(autos, keys + {k}, a, b) <==> Caused(autos, keys, a, b) || KeyLink(k, a, b)
  {
  }

  // ---- Deriving the product ----

  type Decisions = map<Node, Decision>

  datatype GraphReceipt = GraphReceipt(
    version: nat,
    operation: string,
    targetKey: Cat.Digest<Cat.Target>,
    catalogSnapshot: Cat.Digest<seq<Cat.Row>>,
    catalogProjectionVersion: nat,
    catalogRowCount: nat,
    configuredReservedRootCount: nat,
    automaticReservedRootCount: nat,
    totalReservedRootCount: nat,
    reservedRootSet: Cat.Digest<set<Bytes>>,
    relationCount: nat,
    tableCount: nat,
    viewCount: nat,
    triggerFactCount: nat,
    triggerOwnedRelationCount: nat,
    schemaAuxiliaryFactCount: nat,
    foreignKeyFactCount: nat,
    foreignKeyGroupCount: nat,
    autoincrementRelationCount: nat,
    graphNodeCount: nat,
    graphEdgeCount: nat,
    allowCount: nat,
    denyReservedReachableCount: nat,
    denyTriggerEffectsUnprovenCount: nat,
    denyViewWriteSemanticsUnprovenCount: nat,
    graph: Cat.Digest<(Edges, set<Bytes>, set<Bytes>)>,
    decision: Cat.Digest<Decisions>)

  datatype GraphProduct = GraphProduct(receipt: GraphReceipt, decisions: Decisions)

  function Names(relations: map<Bytes, Relation>, kind: RelationKind): set<Bytes> {
    set n | n in relations && relations[n].kind == kind
  }

  function AutoincrementNames(relations: map<Bytes, Relation>): set<Bytes> {
    set n | n in relations && relations[n].autoincrement
  }

  function AutomaticRoots(relations: map<Bytes, Relation>): set<Bytes> {
    set n | n in relations && AutomaticReserved(n)
  }

  function Owners(owners: seq<Bytes>): set<Bytes> {
    set o | o in owners
  }

  function DecisionCount(decisions: Decisions, d: Decision): nat {
    |set n | n in decisions && decisions[n] == d|
  }

  /** The graph of the collected facts. */
  function WriteGraph(c: Collected): Edges {
    GraphOf(NodesOf(c.relations.Keys), AutoincrementNames(c.relations), c.foreignKeys.Values)
  }

  ghost predicate OwnersResolve(c: Collected) {
    forall o :: o in c.auxiliaryOwners || o in c.triggerOwners ==> o in c.relations
  }

  ghost predicate KeysResolve(relations: map<Bytes, Relation>, keys: set<ForeignKey>) {
    forall k :: k in keys ==> KeyResolves(k, relations)
  }

  ghost predicate KeysActionsKnown(keys: set<ForeignKey>) {
    forall k :: k in keys ==> ActionsKnown(k)
  }

  ghost predicate MissesReference(c: Collected) {
    !OwnersResolve(c) || !KeysResolve(c.relations, c.foreignKeys.Values)
  }

  ghost predicate Buildable(relations: map<Bytes, Relation>, autos: set<Bytes>, keys: set<ForeignKey>) {
    && (autos != {} ==> SequenceTable(relations))
    && KeysResolve(relations, keys)
    && KeysActionsKnown(keys)
    && !OverLimit(NodesOf(relations.Keys), autos, keys)
  }

  /** Everything the collected facts must satisfy for a product to exist. */
  ghost predicate Derivable(c: Collected, configured: set<Bytes>) {
    && ReferencesPresent(c, configured)
    && Buildable(c.relations, AutoincrementNames(c.relations), c.foreignKeys.Values)
  }

  ghost predicate DecidedFrom(decisions: Decisions, edges: Edges, reserved: set<Bytes>, triggers: set<Bytes>,
                              views: set<Bytes>) {
    && decisions.Keys == edges.Keys
    && forall n :: n in decisions ==> decisions[n] == Decide(edges, n, reserved, triggers, views)
  }

  /** Decide every node of a graph; the traversal cannot fail on a closed graph within the limit. */
  method DecideAll(edges: Edges, reserved: set<Bytes>, triggers: set<Bytes>, views: set<Bytes>)
      returns (decisions: Decisions)
    requires Closed(edges) && |edges| <= MAX_GRAPH_NODES
    ensures DecidedFrom(decisions, edges, reserved, triggers, views)
  {
    decisions := map[];
    var left := edges.Keys;
    while left != {}
      invariant left <= edges.Keys && decisions.Keys == edges.Keys - left
      invariant forall n :: n in decisions ==> decisions[n] == Decide(edges, n, reserved, triggers, views)
      decreases left
    {
      var node :| node in left;
      var decision := Traverse(node, edges, reserved, triggers, views);
      decisions := decisions[node := decision.value];
      left := left - {node};
    }
  }

  function MakeReceipt(catalog: Cat.Receipt, c: Collected, configured: set<Bytes>, edges: Edges, edgeCount: nat,
                       decisions: Decisions): GraphReceipt {
    var automatic := AutomaticRoots(c.relations);
    var tables := |Names(c.relations, Table)|;
    TableCountBounded(c.relations);
    GraphReceipt(
      GRAPH_VERSION, OPERATION, catalog.targetKey, catalog.snapshot, catalog.projectionVersion, catalog.rowCount,
      |configured|, |automatic|, |configured + automatic|, Cat.Sha256(configured + automatic),
      |c.relations|, tables, |c.relations| - tables,
      |c.triggerOwners|, |Owners(c.triggerOwners)|, |c.auxiliaryOwners|, c.foreignKeyFacts, |c.foreignKeys|,
      |AutoincrementNames(c.relations)|, |edges|, edgeCount,
      DecisionCount(decisions, Allow), DecisionCount(decisions, DenyReservedReachable),
      DecisionCount(decisions, DenyTriggerEffectsUnproven), DecisionCount(decisions, DenyViewWriteSemanticsUnproven),
      Cat.Sha256((edges, Owners(c.triggerOwners), Names(c.relations, View))), Cat.Sha256(decisions))
  }

  lemma TableCountBounded(relations: map<Bytes, Relation>)
    ensures |Names(relations, Table)| <= |relations|
  {
    SubsetSize(Names(relations, Table), relations.Keys);
  }

  /** Every node of the graph of `c` carries the decision about its cascades. */
  ghost predicate DecisionsOf(decisions: Decisions, c: Collected, configured: set<Bytes>) {
    DecidedFrom(decisions, WriteGraph(c), configured + AutomaticRoots(c.relations),
                Owners(c.triggerOwners), Names(c.relations, View))
  }

  /** The product the derivation promises for collected facts and configured roots. */
  ghost predicate ProductOf(p: GraphProduct, catalog: Cat.Receipt, c: Collected, configured: set<Bytes>) {
    && DecisionsOf(p.decisions, c, configured)
    && p.receipt == MakeReceipt(catalog, c, configured, WriteGraph(c), |Pairs(WriteGraph(c))|, p.decisions)
  }

  /** Why there is no graph. */
  ghost predicate CannotBuild(e: Classification, relations: map<Bytes, Relation>, autos: set<Bytes>,
                              keys: set<ForeignKey>) {
    match e
    case AutoincrementEvidenceUnsupported => autos != {} && !SequenceTable(relations)
    case CatalogReferenceMissing => !KeysResolve(relations, keys)
    case CatalogFactUnsupported => !KeysActionsKnown(keys)
    case GraphLimitExceeded => OverLimit(NodesOf(relations.Keys), autos, keys)
    case _ => false
  }

  /** Why there is no product of collected facts. */
  ghost predicate CannotDerive(e: Classification, c: Collected, configured: set<Bytes>) {
    || (e == GraphLimitExceeded && !(1 <= |c.relations| <= MAX_RELATIONS))
    || (e == CatalogReferenceMissing && !OwnersResolve(c))
    || (e == ReservedRootAbsent && !(configured <= c.relations.Keys))
    || CannotBuild(e, c.relations, AutoincrementNames(c.relations), c.foreignKeys.Values)
  }

  /** The edge table of the causes, or why there is none. */
  method BuildGraph(relations: map<Bytes, Relation>, autos: set<Bytes>, keys: set<ForeignKey>)
    returns (r: Result<EdgeTable, Classification>)
    requires autos <= relations.Keys
    ensures r.Ok? <==> Buildable(relations, autos, keys)
    ensures r.Ok? ==> r.value.Valid() && r.value.edges == GraphOf(NodesOf(relations.Keys), autos, keys)
    ensures r.Err? ==> CannotBuild(r.error, relations, autos, keys)
  {
    var nodes := NodesOf(relations.Keys);
    NodesOfRelations(relations.Keys);
    var table := new EdgeTable(nodes);
    if autos != {} && !SequenceTable(relations) {
      return Err(AutoincrementEvidenceUnsupported);
    }
    var step := AddSequenceEdges(table, nodes, autos, keys);
    if step.Ok? {
      step := AddForeignKeys(table, nodes, relations, autos, keys);
    }
    if step.Err? {
      return Err(step.error);
    }
    TabulatesIsGraph(table.edges, nodes, autos, keys);
    return Ok(table);
  }

  ghost predicate ReferencesPresent(c: Collected, configured: set<Bytes>) {
    1 <= |c.relations| <= MAX_RELATIONS && OwnersResolve(c) && configured <= c.relations.Keys
  }

  method CheckReferences(c: Collected, configured: set<Bytes>) returns (r: Result<(), Classification>)
    ensures r.Ok? <==> ReferencesPresent(c, configured)
    ensures r.Err? ==> CannotDerive(r.error, c, configured)
  {
    if |c.relations| == 0 || |c.relations| > MAX_RELATIONS {
      return Err(GraphLimitExceeded);
    }
    if exists o | o in c.auxiliaryOwners :: o !in c.relations {
      return Err(CatalogReferenceMissing);
    }
    if exists o | o in c.triggerOwners :: o !in c.relations {
      return Err(CatalogReferenceMissing);
    }
    if !(configured <= c.relations.Keys) {
      return Err(ReservedRootAbsent);
    }
    return Ok(());
  }

  method Finish(catalog: Cat.Receipt, c: Collected, configured: set<Bytes>, table: EdgeTable) returns (p: GraphProduct)
    requires table.Valid() && table.edges == WriteGraph(c) && |table.edges| <= MAX_GRAPH_NODES
    ensures ProductOf(p, catalog, c, configured)
  {
    var decisions := DecideAll(table.edges, configured + AutomaticRoots(c.relations), Owners(c.triggerOwners),
                               Names(c.relations, View));
    return GraphProduct(MakeReceipt(catalog, c, configured, table.edges, table.edgeCount, decisions), decisions);
  }

  method DeriveFromFacts(catalog: Cat.Receipt, c: Collected, configured: set<Bytes>)
      returns (r: Result<GraphProduct, Classification>)
    ensures r.Ok? <==> Derivable(c, configured)
    ensures r.Ok? ==> ProductOf(r.value, catalog, c, configured)
    ensures r.Err? ==> CannotDerive(r.error, c, configured)
  {
    var present := CheckReferences(c, configured);
    if present.Err? {
      return Err(present.error);
    }
    var built := BuildGraph(c.relations, AutoincrementNames(c.relations), c.foreignKeys.Values);
    if built.Err? {
      return Err(built.error);
    }
    NodeCount(c.relations.Keys);
    var product := Finish(catalog, c, configured, built.value);
    return Ok(product);
  }

  /** The whole derivation: receipt, roots, facts, graph, decisions. */
  method Derive(receipt: Cat.Receipt, rows: seq<Cat.Row>, configured: seq<Bytes>)
      returns (r: Result<GraphProduct, Classification>)
    ensures r.Ok? <==>
      && ValidateCatalogProduct(receipt, rows).Ok? && RootsAcceptable(configured) && Gather(rows).Ok?
      && exists roots :: IsIdentitySet(roots, configured, RootIdentity) && Derivable(Gather(rows).value, roots)
    ensures r.Ok? ==> exists roots ::
      IsIdentitySet(roots, configured, RootIdentity) && ProductOf(r.value, receipt, Gather(rows).value, roots)
    ensures r.Err? ==>
      || ValidateCatalogProduct(receipt, rows) == Err(r.error)
      || (!RootsAcceptable(configured) && r.error in {ReservedRootInvalid, ReservedRootDuplicate})
      || Gather(rows) == Err(r.error)
      || (Gather(rows).Ok? && exists roots ::
            IsIdentitySet(roots, configured, RootIdentity) && CannotDerive(r.error, Gather(rows).value, roots))
  {
    var valid := ValidateCatalogProduct(receipt, rows);
    if valid.Err? {
      return Err(valid.error);
    }
    var roots := NormalizeReservedRoots(configured);
    if roots.Err? {
      return Err(roots.error);
    }
    var gathered := ScanRows(rows);
    if gathered.Err? {
      GatherNeverMissing(rows);
      return Err(gathered.error);
    }
    r := DeriveFromFacts(receipt, gathered.value, roots.value);
    forall other | IsIdentitySet(other, configured, RootIdentity) ensures other == roots.value {
      assert forall t :: t in other <==> t in roots.value;
    }
  }
}
