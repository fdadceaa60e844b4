/**
 * Breadth-first decision over a write graph (src/d1_reserved_relation_graph.rs).
 * A node is one primitive write on one relation; an edge is a write that SQLite
 * performs on its own because of the first one.
 */
module Traversal {
  import opened Prelude

  const MAX_RELATIONS: nat := 1000
  const MAX_GRAPH_NODES: nat := 3 * MAX_RELATIONS
  const MAX_GRAPH_EDGES: nat := 4096

  datatype WriteOp = Insert | Update | Delete

  datatype Node = Node(relation: Bytes, op: WriteOp)

  type Edges = map<Node, set<Node>>

  datatype Decision = Allow | DenyReservedReachable | DenyTriggerEffectsUnproven | DenyViewWriteSemanticsUnproven

  datatype Classification =
    | CatalogProductMismatch
    | CatalogProjectionUnsupported
    | CatalogFactBlocked
    | CatalogFactUnsupported
    | CatalogTextInvalid
    | CatalogReferenceMissing
    | ReservedRootInvalid
    | ReservedRootDuplicate
    | ReservedRootAbsent
    | AutoincrementEvidenceUnsupported
    | CompoundWriteUnsupported
    | GraphLimitExceeded

  /** Every target is itself a node. */
  ghost predicate Closed(edges: Edges) {
    forall a :: a in edges ==> edges[a] <= edges.Keys
  }

  /** A cascade: each write after the first is an edge target of the one before it. */
  ghost predicate Trace(edges: Edges, p: seq<Node>) {
    && |p| > 0
    && forall i :: 0 <= i < |p| - 1 ==> p[i] in edges && p[i + 1] in edges[p[i]]
  }

  ghost predicate Reaches(edges: Edges, a: Node, b: Node) {
    exists p :: Trace(edges, p) && p[0] == a && p[|p| - 1] == b
  }

  /** Some cascade from `start` ends in a relation of `s`. */
  ghost predicate Touches(edges: Edges, start: Node, s: set<Bytes>) {
    exists n :: Reaches(edges, start, n) && n.relation in s
  }

  /** The decision the traversal promises, stated over all cascades. */
  ghost function Decide(edges: Edges, start: Node, reserved: set<Bytes>, triggers: set<Bytes>,
                        views: set<Bytes>): Decision {
    if Touches(edges, start, reserved) then DenyReservedReachable
    else if Touches(edges, start, triggers) then DenyTriggerEffectsUnproven
    else if Touches(edges, start, views) then DenyViewWriteSemanticsUnproven
    else Allow
  }

  lemma ReachesSelf(edges: Edges, a: Node)
    ensures Reaches(edges, a, a)
  {
    assert Trace(edges, [a]);
  }

  lemma ReachesStep(edges: Edges, a: Node, b: Node, c: Node)
    requires Reaches(edges, a, b) && b in edges && c in edges[b]
    ensures Reaches(edges, a, c)
  {
    var p :| Trace(edges, p) && p[0] == a && p[|p| - 1] == b;
    assert Trace(edges, p + [c]);
  }

  lemma ReachesFirst(edges: Edges, a: Node, b: Node, c: Node)
    requires a in edges && b in edges[a] && Reaches(edges, b, c)
    ensures Reaches(edges, a, c)
  {
    var p :| Trace(edges, p) && p[0] == b && p[|p| - 1] == c;
    var q := [a] + p;
    forall i | 0 <= i < |q| - 1 ensures q[i] in edges && q[i + 1] in edges[q[i]] {
      if i > 0 { assert q[i] == p[i - 1] && q[i + 1] == p[i]; }
    }
    assert Trace(edges, q);
  }

  /** A set closed under edges that holds the first node of a cascade holds all of it. */
  lemma {:induction false} TraceStaysIn(edges: Edges, s: set<Node>, p: seq<Node>, k: nat)
    requires forall v :: v in s ==> v in edges && edges[v] <= s
    requires Trace(edges, p) && p[0] in s && k < |p|
    ensures p[k] in s
  {
    if k > 0 { TraceStaysIn(edges, s, p, k - 1); }
  }

  /** Visit the targets of one popped node: mark each new one and queue it. */
  method Expand(ghost start: Node, edges: Edges, node: Node, queue: seq<Node>, visited: set<Node>)
    returns (r: Result<(seq<Node>, set<Node>), Classification>)
    requires node in edges && node in visited && start in visited && visited <= edges.Keys + {start}
    requires Reaches(edges, start, node)
    ensures r.Err? ==> r.error in {CatalogReferenceMissing, GraphLimitExceeded}
    ensures r.Err? ==> !(edges[node] <= edges.Keys && start in edges && |edges| <= MAX_GRAPH_NODES)
    ensures r.Ok? ==>
      && r.value.1 == visited + edges[node] && r.value.1 <= edges.Keys + {start}
      && |r.value.0| >= |queue| && r.value.0[..|queue|] == queue
      && (r.value.1 == visited ==> r.value.0 == queue)
      && (forall v :: v in r.value.0 <==> v in queue || v in r.value.1 - visited)
      && (forall v :: v in r.value.1 - visited ==> Reaches(edges, start, v))
  {
    var q, seen := queue, visited;
    var targets := edges[node];
    while targets != {}
      invariant targets <= edges[node]
      invariant edges[node] - targets <= seen
      invariant visited <= seen <= visited + edges[node] && seen <= edges.Keys + {start}
      invariant |q| >= |queue| && q[..|queue|] == queue && (seen == visited ==> q == queue)
      invariant forall v :: v in q <==> v in queue || v in seen - visited
      invariant forall v :: v in seen - visited ==> Reaches(edges, start, v)
      decreases targets
    {
      var target :| target in targets;
      targets := targets - {target};
      if target !in edges {
        return Err(CatalogReferenceMissing);
      }
      if target !in seen {
        ReachesStep(edges, start, node, target);
        seen := seen + {target};
        if |seen| > MAX_GRAPH_NODES || |seen| > |edges| {
          if start in edges {
            SubsetSize(seen, edges.Keys);
          }
          return Err(GraphLimitExceeded);
        }
        q := q + [target];
      }
    }
    return Ok((q, seen));
  }

  method Traverse(start: Node, edges: Edges, reserved: set<Bytes>, triggers: set<Bytes>, views: set<Bytes>)
    returns (r: Result<Decision, Classification>)
    ensures Closed(edges) && start in edges && |edges| <= MAX_GRAPH_NODES
            ==> r == Ok(Decide(edges, start, reserved, triggers, views))
    ensures r.Err? ==> r.error in {CatalogReferenceMissing, GraphLimitExceeded}
  {
    var queue := [start];
    var visited := {start};
    var triggerUnproven, viewUnproven := false, false;
    ghost var done: set<Node> := {};
    ReachesSelf(edges, start);
    while |queue| > 0
      invariant start in visited && visited <= edges.Keys + {start}
      invariant forall v :: v in visited <==> v in done || v in queue
      invariant forall v :: v in visited ==> Reaches(edges, start, v)
      invariant forall v :: v in done ==> v in edges && edges[v] <= visited && v.relation !in reserved
      invariant triggerUnproven <==> exists v :: v in done && v.relation in triggers
      invariant viewUnproven <==> exists v :: v in done && v.relation in views
      decreases |edges.Keys + {start} - visited|, |queue|
    {
      var node := queue[0];
      assert node in queue;
      queue := queue[1..];
      if node.relation in reserved {
        return Ok(DenyReservedReachable);
      }
      triggerUnproven := triggerUnproven || node.relation in triggers;
      viewUnproven := viewUnproven || node.relation in views;
      if node !in edges {
        return Err(CatalogReferenceMissing);
      }
      var expanded := Expand(start, edges, node, queue, visited);
      if expanded.Err? {
        return Err(expanded.error);
      }
      done := done + {node};
      if expanded.value.1 != visited {
        ProperSubsetSize(edges.Keys + {start} - expanded.value.1, edges.Keys + {start} - visited);
      }
      queue, visited := expanded.value.0, expanded.value.1;
    }
    DoneIsReachable(edges, start, done);
    return Ok(if triggerUnproven then DenyTriggerEffectsUnproven
              else if viewUnproven then DenyViewWriteSemanticsUnproven
              else Allow);
  }

  /** A closed set that holds the start and only reachable nodes is the reachable set. */
  lemma DoneIsReachable(edges: Edges, start: Node, done: set<Node>)
    requires start in done
    requires forall v :: v in done ==> v in edges && edges[v] <= done && Reaches(edges, start, v)
    ensures forall n :: Reaches(edges, start, n) <==> n in done
  {
    forall n | Reaches(edges, start, n) ensures n in done {
      var p :| Trace(edges, p) && p[0] == start && p[|p| - 1] == n;
      TraceStaysIn(edges, done, p, |p| - 1);
    }
  }

  lemma SubsetSize<T>(a: set<T>, b: set<T>)
    requires a <= b
    ensures |a| <= |b|
  {
    assert b == a + (b - a);
  }

  lemma ProperSubsetSize<T>(a: set<T>, b: set<T>)
    requires a < b
    ensures |a| < |b|
  {
    assert b == a + (b - a);
    assert |b - a| > 0;
  }

  function Severity(d: Decision): nat {
    match d
    case DenyReservedReachable => 3
    case DenyTriggerEffectsUnproven => 2
    case DenyViewWriteSemanticsUnproven => 1
    case Allow => 0
  }

  /** Following an edge never leads to a more severe decision than the one it starts from. */
  lemma SeverityFlowsBack(edges: Edges, a: Node, b: Node, reserved: set<Bytes>, triggers: set<Bytes>, views: set<Bytes>)
    requires a in edges && b in edges[a]
    ensures Severity(Decide(edges, b, reserved, triggers, views))
            <= Severity(Decide(edges, a, reserved, triggers, views))
  {
    forall s: set<Bytes> | Touches(edges, b, s) ensures Touches(edges, a, s) {
      var n :| Reaches(edges, b, n) && n.relation in s;
      ReachesFirst(edges, a, b, n);
    }
  }

  /** Reserving more relations never weakens a decision, and changes it only into a reserved denial. */
  lemma MoreRootsNeverWeaken(edges: Edges, n: Node, few: set<Bytes>, many: set<Bytes>, triggers: set<Bytes>,
                             views: set<Bytes>)
    requires few <= many
    ensures var before := Decide(edges, n, few, triggers, views);
            var after := Decide(edges, n, many, triggers, views);
            Severity(before) <= Severity(after) && (after == before || after == DenyReservedReachable)
  {
    if Touches(edges, n, few) {
      var m :| Reaches(edges, n, m) && m.relation in few;
      assert Touches(edges, n, many);
    }
  }
}
