# Verified model of the D1 write guards

The repository guards writes to Cloudflare D1 (SQLite) with decision procedures, state
machines and small closed parsers that do no I/O themselves. This project models those parts
in Dafny and proves what they are for. `dafny verify dfyconfig.toml` checks everything.

| modules | what they model |
|---|---|
| `CatalogEvidence`, `ReservedFacts`, `ReservedGraph`, `Traversal`, `GraphLaws`, `PlanComposition`, `WriteSafety` | verified catalog rows become a graph over (relation, operation); a breadth-first search decides each node; composition admits a plan. The main result: a composed plan has no cascade of writes, of any length, that touches a reserved, trigger-owned or view relation, and plans without such a cascade are not refused for their decisions |
| `AttemptCustody`, `CustodyProtocol` | the durable evidence of one write attempt and the exactly-once protocol around it: one cell, any number of callers, crashes |
| `SqlTokens`, `CommaList`, `CheckGrammar`, `AddColumn`, `AdditiveChain` | the closed grammar of additive migrations, and the chain of schema states it leads to |
| `PragmaScan`, `ExecutionPlan`, `ManifestOrder` | the byte scanner for the foreign_keys pragma, the one prefix that may be dropped, the order of migration paths and manifest validation |
| `SeedInsert`, `SeedState`, `SeedSummary` | the seed INSERT grammar, the cumulative bounds, and the comparison of expected with observed rows |
| `LeasePlaces`, `BootstrapProtocol`, `ReceiptCustody`, `BootstrapRecovery`, `BlockedTargets`, `BootstrapAccounting` | bootstrap, finalize and abort on the leases and the database of one target effect by effect, with failures, crashes and power losses; what recovery can resolve; the accounting of calls and custody of one invocation |
| `Prelude`, `LexOrder`, `Sorting`, `Decimal`, `UpperHex` | bytes, orders, sorting and number text shared by the others |

Grammars are modelled three times over: trees with a print function, a parser as a function, and
the cursor parser of the source as methods. The methods are proved against the function, and
the function is proved to accept exactly the prints of the admitted trees.

A digest is represented by the content it was taken of, so equal digests mean equal content. The
JSON text of a custody state is a parameter with a left inverse, and the JSON text of a seed row is
an injective parameter. Answers of the provider and of the file system are parameters or nondeterministic steps.

## Findings

- The header of the custody module (`src/d1_dml_attempt_custody.rs:3-10`) asks for
  compare-and-exchange on the reservation only. If every other product may be written over the
  cell blindly, one attempt can be dispatched twice: an exact replay of preparation emits the
  Prepared bytes, and writing them over a reserved cell frees the reservation. That replay is the
  only such product: whatever else an adapter writes blindly, at most one dispatch holds exactly when
  it refuses the replay (`CustodyProtocol.OneDispatchIffReplayRefused`).
- A terminal receipt found on a later invocation is not synced again
  (`src/d1_migration_bootstrap_recovery.rs:1568-1643`, `src/d1_migration_lease.rs:3497-3507`). If the
  sync of the invocation that wrote it failed, custody can be retired while the receipt is not on the
  disk, and a power loss can then remove or break it (`BlockedTargets.ReceiptLost`, `BlockedTargets.ReceiptBroken`).
  Retirements that come after a completed sync by the creating invocation are safe in every run
  (`ReceiptCustody.AnchoredThroughout`); at any moment the receipt can be lost exactly when its own sync or a
  sync of the directory has not returned since it was created (`ReceiptCustody.ReceiptLostIffUnsynced`).
- Every invocation first reads all lease, marker and receipt files of the target and refuses it for any that is
  not whole (`src/d1_migration_lease.rs:2358-2466`); finalize needs the installed ledger
  (`src/d1_migration_bootstrap_recovery.rs:647-730`), abort the absence of a marker
  (`src/d1_migration_lease.rs:3056-3085`), and both refuse retiring custody without its receipt
  (`src/d1_migration_bootstrap_recovery.rs:1343-1358`, `:1945-1960`). Single failures and crashes can therefore block a
  target for good: seven runs are shown in `BlockedTargets`, among them a crash in the middle of a
  release after the initializer was proven applied. `BootstrapRecovery.FreeableIffRecoverable` says exactly which
  left-behind evidence can still be resolved.
- Bootstrap reports `lease_retained: false` whenever acquiring fails
  (`src/d1_migration_bootstrap.rs:1235-1256`), although a failed creation can leave its entry in place, or take it
  away with a payload that is not whole (`src/d1_migration_lease.rs:3653-3671`, `:3706-3720`), which
  blocks the target either way; and `lease_retained: true` whenever releasing fails, although the evidence can have
  ended under its retired name (`src/d1_migration_lease.rs:3673-3704`). The report is true of the directory exactly
  unless one of these happened (`BootstrapAccounting.ExecuteBootstrap`).

## Model

| member | source | states |
|---|---|---|
| Traversal.Traverse | src/d1_reserved_relation_graph.rs:660-697 | On a closed graph within the node bound the breadth-first search ends without error with the decision defined over all cascades: reserved-deny iff some cascade from the start ends in a reserved relation, else trigger-deny iff one ends in a trigger-owned one, else view-deny iff one ends in a view, else allow; its only errors are a missing reference and the graph bound |
| Traversal.Expand | src/d1_reserved_relation_graph.rs:677-688 | Visiting the targets of one popped node marks exactly its unvisited targets, queues each of them once behind the queue, and every one of them is reachable from the start |
| Traversal.DoneIsReachable | src/d1_reserved_relation_graph.rs:660-697 | A set closed under edges that holds the start and only reachable nodes is the set of reachable nodes |
| Traversal.SeverityFlowsBack | src/d1_reserved_relation_graph.rs:660-697 | The decision at the target of an edge is never more severe than the decision at its source |
| Traversal.MoreRootsNeverWeaken | src/d1_reserved_relation_graph.rs:660-697 | Adding reserved roots either leaves a decision alone or turns it into the reserved denial |
| CatalogEvidence.ScanCanonical | src/d1_catalog_evidence.rs:750-805 | One pass accepts exactly the lists whose elements are all well typed and each above the one before it |
| CatalogEvidence.ValidateProjectionRows | src/d1_catalog_evidence.rs:750-805 | Rows are accepted exactly when every row is typed, neighbours ascend strictly, and all structural facts hold |
| CatalogEvidence.ValidateStructuredRelationships | src/d1_catalog_evidence.rs:838-945 | Accepted exactly when every schema and foreign-key row says what the other rows imply; otherwise the facts are contradictory |
| CatalogEvidence.ValidateSchemaRows | src/d1_catalog_evidence.rs:841-853 | Row identities are pairwise distinct, every schema row carries the foreign-key sentinels, and its stated facts are the expected ones |
| CatalogEvidence.ValidateForeignKeyRows | src/d1_catalog_evidence.rs:866-916 | All foreign-key rows are bound to their child schema row and state what is expected; exactly the rows without structural defect are grouped |
| CatalogEvidence.ValidateGroups | src/d1_catalog_evidence.rs:917-943 | Rows of one constraint state the same parent, actions and match mode, and their sequence numbers are distinct and fill 0, 1, ... without a gap |
| CatalogEvidence.RowStrictOrder | src/d1_catalog_evidence.rs:750-805 | The comparison of rows is a strict order |
| CatalogEvidence.AcceptedRowsDistinct | src/d1_catalog_evidence.rs:750-805 | Although only neighbours are compared, any two accepted rows are in order and different |
| UpperHex.EncodeCanonical | src/d1_catalog_evidence.rs:1274-1287 | Encoding gives uppercase base16 that decodes to the same bytes (section 8 of RFC 4648) |
| UpperHex.DecodeCanonical | src/d1_catalog_evidence.rs:1278-1299 | On uppercase base16 of even length the strict and the tolerant decoder agree, and encoding the result gives the text back |
| UpperHex.EncodeInjective | src/d1_catalog_evidence.rs:1274-1276 | Different bytes have different hexadecimal text |
| ReservedFacts.ScanRows | src/d1_reserved_relation_graph.rs:231-306 | The loop over rows collects what the recursive reading of the rows collects, or fails as it does |
| ReservedFacts.GatherFailsEarly | src/d1_reserved_relation_graph.rs:231-306 | The first failing row decides the error; rows behind it are never looked at |
| ReservedFacts.GatherHolds | src/d1_reserved_relation_graph.rs:231-306 | The tables hold exactly the facts some row states, none lost and none invented |
| ReservedFacts.GatherCounts | src/d1_reserved_relation_graph.rs:231-306 | The counters of the collected tables are the numbers of rows of each kind, and distinct groups and owners are no more than those |
| ReservedFacts.GatherFailure | src/d1_reserved_relation_graph.rs:231-306 | Collecting fails only on a row that cannot be read or on two rows that contradict each other |
| ReservedFacts.GatherNeverMissing | src/d1_reserved_relation_graph.rs:231-306 | Collecting never reports a missing reference |
| ReservedGraph.CollectDistinct | src/d1_reserved_relation_graph.rs:552-583 | Values are accepted exactly when each has an identity and no two share one; the result is the set of identities |
| ReservedGraph.NormalizeReservedRoots | src/d1_reserved_relation_graph.rs:552-583 | Roots are accepted exactly when nonempty, canonical, not of an automatically reserved family, and pairwise distinct up to letter case |
| ReservedGraph.NodeCount | src/d1_reserved_relation_graph.rs:345-353 | A graph over n relations has 3n nodes |
| ReservedGraph.EdgeTable.constructor | src/d1_reserved_relation_graph.rs:345-355 | A new table has every node, no edge, and counter 0 |
| ReservedGraph.EdgeTable.AddEdge | src/d1_reserved_relation_graph.rs:638-658 | Adds exactly one target to one source; both ends must be nodes; the counter stays the number of distinct edges |
| ReservedGraph.EdgeTable.AddForeignKeyAction | src/d1_reserved_relation_graph.rs:614-636 | Adds exactly the edge the action stands for and nothing for NO ACTION and RESTRICT; refuses exactly the unknown actions |
| ReservedGraph.AddSequenceEdges | src/d1_reserved_relation_graph.rs:355-379 | Every insert into an AUTOINCREMENT table leads to an update of sqlite_sequence, and there are no other such edges |
| ReservedGraph.AddKey | src/d1_reserved_relation_graph.rs:381-411 | One constraint adds its delete and its update edge, no others |
| ReservedGraph.AddForeignKeys | src/d1_reserved_relation_graph.rs:381-411 | After all constraints the table has exactly the edges that AUTOINCREMENT and foreign-key actions cause; every error has its cause in the constraints or the bound |
| ReservedGraph.TabulatesIsGraph | src/d1_reserved_relation_graph.rs:345-411 | A table with exactly the caused edges is the graph of the causes |
| ReservedGraph.TooManyEdges | src/d1_reserved_relation_graph.rs:638-658 | A table over the bound proves that the whole graph is over the bound, so stopping early refuses nothing that would fit |
| ReservedGraph.BuildGraph | src/d1_reserved_relation_graph.rs:345-411 | A table comes out exactly when all constraints resolve, all actions are known and the graph fits the bound, and then it is the graph of the causes |
| ReservedGraph.DecideAll | src/d1_reserved_relation_graph.rs:413-431 | Every node of a closed graph gets the decision about all its cascades |
| ReservedGraph.CheckReferences | src/d1_reserved_relation_graph.rs:308-339 | Passes exactly when there is a relation, the relations fit the bound, all owners are relations and all configured roots exist |
| ReservedGraph.Finish | src/d1_reserved_relation_graph.rs:413-489 | The product holds the decisions about all cascades and a receipt with the true counts |
| ReservedGraph.DeriveFromFacts | src/d1_reserved_relation_graph.rs:308-489 | A product comes out exactly when the collected facts are derivable, and it is the promised one |
| ReservedGraph.Derive | src/d1_reserved_relation_graph.rs:208-550 | The whole derivation: exactly when receipt, roots, facts and graph are acceptable there is a product, and it holds the decision about every cascade; every error has its cause in the receipt, the roots, the rows, the references, the actions, the AUTOINCREMENT evidence or the bounds |
| GraphLaws.BaseRelationHasNoBlocker | src/d1_catalog_evidence.rs:1041-1131 | On table and view rows the short base-relation test holds exactly when the list of structural defects is empty |
| GraphLaws.TypedRowDecodes | src/d1_catalog_evidence.rs:807-813 | On typed rows the strict reader used by the derivation decodes whatever the validator decoded |
| GraphLaws.NamesDistinct | src/d1_catalog_evidence.rs:1105-1131 | Two rows that each alone hold their name hold different names |
| GraphLaws.ConstraintRowsAgree | src/d1_catalog_evidence.rs:917-938 | Rows of one constraint, in whatever order, state one parent and one pair of actions |
| GraphLaws.AcceptedComplete | src/d1_catalog_evidence.rs:838-945 | The readings of accepted rows contain every owner, child and parent they refer to, and no two contradict each other |
| GraphLaws.GatherSupported | src/d1_reserved_relation_graph.rs:231-306 | Readings that are complete and agree with the rows leave no unsupported fact to collect |
| GraphLaws.CompleteLeavesNothingMissing | src/d1_reserved_relation_graph.rs:308-411 | After collecting complete readings no reference is missing and every action is known |
| GraphLaws.AcceptedCatalogSuffices | src/d1_reserved_relation_graph.rs:231-411 | For every row list the catalog validator accepts, collecting and resolving never meet an unsupported fact or a missing reference |
| GraphLaws.DeriveAccepted | src/d1_reserved_relation_graph.rs:215-489 | Derivation from accepted rows never returns CatalogReferenceMissing or CatalogFactUnsupported |
| GraphLaws.AcceptedKindsCover | src/d1_catalog_evidence.rs:962-1030 | The six kinds of fact account for every accepted row |
| PlanComposition.CollectDecisions | src/d1_exact_plan_composition.rs:174-191 | Succeeds exactly when every primitive is allowed; otherwise the first primitive in order that is not decides the refusal |
| PlanComposition.ComposeFromVerifiedParts | src/d1_exact_plan_composition.rs:149-245 | The checks decide in their order; success exactly when all pass and all primitives are allowed, and the composition binds exactly these inputs |
| PlanComposition.Compose | src/d1_exact_plan_composition.rs:120-146 | Composition for a form uses exactly the primitives the form requires |
| WriteSafety.CausesAreFacts | src/d1_reserved_relation_graph.rs:345-411 | An edge of the graph stands for a stated foreign-key action or AUTOINCREMENT fact, and each such fact has its edge |
| WriteSafety.CascadeIsTrace | src/d1_reserved_relation_graph.rs:345-411 | A run of writes each caused by the one before it is exactly a path of the graph |
| WriteSafety.ComposedPlansAreSafe | src/d1_exact_plan_composition.rs:149-191 | On screened products composition succeeds exactly when no primitive of the form starts a cascade that touches a reserved, trigger-owned or view relation |
| WriteSafety.ComposedFromSameCatalog | src/d1_exact_plan_composition.rs:325-416 | A graph that composes with a catalog was derived from the very rows and the very target of that catalog |
| WriteSafety.ComposedCascadeUnguarded | src/d1_exact_plan_composition.rs:149-191 | In a composed plan every write of every cascade of that catalog, of any length, stays on relations that are not reserved, not trigger-owned and not views, from whatever rows the graph claims to be derived |
| WriteSafety.DeriveAndCompose | src/d1_exact_plan_composition.rs:120-245 | Deriving and composing in one go: a plan comes out only if all cascades of its primitives over the given rows are harmless for the configured roots; rows the catalog validator accepts never lead to the two catalog errors |
| WriteSafety.IssuedReceiptAccepted | src/d1_exact_plan_composition.rs:325-364 | The receipt issued for accepted rows passes the later checks of derivation and composition |
| WriteSafety.DecisionsPartition | src/d1_reserved_relation_graph.rs:699-707 | The four decision counts add up to the number of nodes |
| WriteSafety.RootsDisjoint | src/d1_reserved_relation_graph.rs:327-343 | Configured and automatic roots are disjoint, so their counts add; there is at least one configured root |
| WriteSafety.DerivedReceiptAccepted | src/d1_exact_plan_composition.rs:366-416 | Every receipt the derivation issues passes the graph-receipt validation of composition, and its edge counter is the number of distinct edges |
| AttemptCustody.EmittedRestores | src/d1_dml_attempt_custody.rs:547-584 | Every emitted product restores, under the identities it was emitted for, to the same state |
| AttemptCustody.OtherIdentitiesRefused | src/d1_dml_attempt_custody.rs:547-584 | Bytes of one attempt are refused as a replay conflict under any other identities |
| AttemptCustody.GrowthIsForward | src/d1_dml_attempt_custody.rs:618-670 | Between valid states, more evidence never moves the retry decision backwards, terminal phases stay with their outcome, and a contradictory pair stays in reconciliation |
| AttemptCustody.StepGrows | src/d1_dml_attempt_custody.rs:257-461 | Every accepted operation keeps all evidence, emits a valid state, and the bytes emitted restore to it |
| AttemptCustody.RunGrows | src/d1_dml_attempt_custody.rs:257-461 | So does every sequence of operations, refused ones included |
| AttemptCustody.RunIsSafe | src/d1_dml_attempt_custody.rs:257-670 | Over every sequence: the state validates, evidence only grows, the retry decision never moves backwards, terminal phases are absorbing with a fixed outcome, and contradictory evidence never becomes terminal |
| AttemptCustody.AssertionsCommute | src/d1_dml_attempt_custody.rs:369-461 | Provider and readback assertions recorded in either order leave the same bytes, refusals included |
| AttemptCustody.RecordersIdempotent | src/d1_dml_attempt_custody.rs:334-461 | Recording the same evidence again is accepted as an exact replay and changes no byte |
| AttemptCustody.ReserveSettles | src/d1_dml_attempt_custody.rs:297-332 | Reserving from Prepared reserves, reserving again quarantines the attempt, and from then on reserving changes nothing |
| CustodyProtocol.ProposalReserves | src/d1_dml_attempt_custody.rs:297-332 | A compare-and-exchange proposal goes from exactly the unreserved bytes read to a reserved successor |
| CustodyProtocol.OnlyReplayIsUnreserved | src/d1_dml_attempt_custody.rs:257-461 | Of all products of all operations that are no proposals, the replay of the preparation is the only one without a reservation |
| CustodyProtocol.OverwriteKeepsReservation | src/d1_dml_attempt_custody.rs:334-461 | Unless that replay may be written, a product written over the cell carries a reservation and was made from bytes that carried it |
| CustodyProtocol.SafeAfterCallerStep | src/d1_dml_attempt_custody.rs:3-10 | Every step of every caller keeps the invariant that a granted or done dispatch leaves a reserved cell |
| CustodyProtocol.SafeThroughout | src/d1_dml_attempt_custody.rs:3-10 | The invariant holds throughout every interleaving of any number of callers with crashes |
| CustodyProtocol.ReplayRunDispatchesTwice | src/d1_dml_attempt_custody.rs:257-332 | A run in which a caller writes the replay of the preparation over the cell dispatches twice |
| CustodyProtocol.OneDispatchIffReplayRefused | src/d1_dml_attempt_custody.rs:3-10 | For an arbitrary choice of the products that may be written without compare-and-exchange: at most one dispatch over every run, exactly when the choice leaves out the replay of the preparation |
| CheckGrammar.ValueSound | src/d1_migration_additive.rs:255-308 | A value accepted is the text of a literal, the column, or LENGTH or SUBSTR over the column, and only its tokens are consumed |
| CheckGrammar.ValueComplete | src/d1_migration_additive.rs:255-308 | The text of every admitted value is read back as that value |
| CheckGrammar.PredicateSound | src/d1_migration_additive.rs:208-253 | Accepted predicate tokens are the print of an admitted predicate over the one column |
| CheckGrammar.PredicateComplete | src/d1_migration_additive.rs:208-253 | The print of every admitted predicate is accepted and exactly its tokens are consumed, whatever follows |
| CheckGrammar.ConjunctionSound | src/d1_migration_additive.rs:200-206 | Accepted AND tokens are the print of an admitted conjunction |
| CheckGrammar.ConjunctionComplete | src/d1_migration_additive.rs:200-206 | The print of every admitted conjunction is consumed exactly, unless AND follows |
| CheckGrammar.DisjunctionSound | src/d1_migration_additive.rs:191-198 | Accepted OR tokens are the print of an admitted disjunction of nesting depth at most 6 with at most 16 IN values |
| CheckGrammar.DisjunctionComplete | src/d1_migration_additive.rs:191-198 | The print of every admitted disjunction is consumed exactly, unless AND or OR follows |
| CheckGrammar.CheckExpressionParser.ParseValueAt | src/d1_migration_additive.rs:255-308 | The cursor method reads the value the grammar reads, tells its kind, and stands behind it |
| CheckGrammar.CheckExpressionParser.ParseInValues | src/d1_migration_additive.rs:235-250 | The loop over IN values consumes what the bounded comma list of the grammar consumes |
| CheckGrammar.CheckExpressionParser.ParsePredicateAt | src/d1_migration_additive.rs:208-253 | The cursor method accepts what the grammar accepts at this depth and stands behind it |
| CheckGrammar.CheckExpressionParser.ParseAndExpression | src/d1_migration_additive.rs:200-206 | The AND loop consumes what the grammar of conjunctions consumes, and terminates |
| CheckGrammar.CheckExpressionParser.ParseOrExpression | src/d1_migration_additive.rs:191-198 | The OR loop consumes what the grammar of disjunctions consumes, and terminates |
| CheckGrammar.CheckRestSound | src/d1_migration_additive.rs:174-188 | An accepted constraint is the text of an admitted tree in parentheses |
| CheckGrammar.CheckRestComplete | src/d1_migration_additive.rs:174-188 | The text of an admitted tree in parentheses is accepted, up to exactly its end |
| CheckGrammar.ParseCheckConstraint | src/d1_migration_additive.rs:174-188 | Within the token bound a constraint is accepted exactly when an admitted tree is written at the cursor, and the result is the end of its text |
| AddColumn.DefinitionComplete | src/d1_migration_additive.rs:98-159 | Every clause of an admitted column definition is read back in order |
| AddColumn.ParseAddColumn | src/d1_migration_additive.rs:98-159 | ALTER is accepted exactly when it is the text of an admitted definition, with the effect of that definition; there is at most one such effect |
| AddColumn.ClassifyAdditiveStatement | src/d1_migration_additive.rs:78-96 | Every statement is classified: exactly the added columns, exactly the one pragma, nothing for statements that start with neither word, and refusal of the rest |
| AddColumn.NullText | src/d1_migration_additive.rs:138-148 | A default reads NULL exactly when it was written as the null word |
| PragmaScan.ConsumeQuotedSqlToken | src/d1_migration_manifest.rs:59-90 | Reading quoted text in place gives the end and the answer of unquoting it first and comparing afterwards |
| PragmaScan.ScanLexeme | src/d1_migration_manifest.rs:92-237 | One turn of the fused loop consumes one lexeme and moves the automaton as that lexeme does |
| PragmaScan.ScanAll | src/d1_migration_manifest.rs:92-237 | The one-pass scanner runs the automaton over the lexemes of the text |
| PragmaScan.OneStatement | src/d1_migration_manifest.rs:92-237 | On one statement without trivia the automaton finds the pragma exactly when the statement is PRAGMA, or EXPLAIN (QUERY PLAN) PRAGMA, with the name itself or with a schema name, quoted tokens in between, a dot and the name |
| PragmaScan.MachineFindsStatements | src/d1_migration_manifest.rs:92-237 | Over whole texts the automaton finds the pragma exactly when some statement names it |
| PragmaScan.ContainsForeignKeysPragma | src/d1_migration_manifest.rs:92-237 | The fused scanner answers what splitting into lexemes, then into statements, then matching each statement would answer |
| PragmaScan.TokeniseAppend | src/d1_migration_manifest.rs:92-237 | Behind a lexically closed text a semicolon starts fresh: the lexemes are those of both parts |
| PragmaScan.ScanDistributes | src/d1_migration_manifest.rs:92-237 | For lexically closed s1, scanning s1;s2 finds the pragma exactly when scanning s1 or scanning s2 does |
| PragmaScan.ContainsNonTriviaSql | src/d1_migration_manifest.rs:239-265 | True exactly when some lexeme is neither trivia nor a semicolon |
| PragmaScan.PragmaIsExecutable | src/d1_migration_manifest.rs:239-265 | A text that names the pragma has something to execute |
| ExecutionPlan.Execute | src/d1_migration_manifest.rs:274-303 | One migration is executed as its admitted reading, or refused with it |
| ExecutionPlan.DerivePlan | src/d1_migration_manifest.rs:267-311 | Success gives the plan of all migrations; a refusal is that of the first migration that has one |
| ExecutionPlan.PlannedExecution | src/d1_migration_manifest.rs:267-311 | Each source is the executed SQL, or the fixed prefix and then it, the latter exactly when the source names the pragma; executed SQL never names the pragma and a shortened one has something to execute |
| ExecutionPlan.PrefixNamesPragma | src/d1_migration_manifest.rs:267-311 | The fixed prefix names the pragma whatever follows it |
| ExecutionPlan.DerivingAgainIsIdentity | src/d1_migration_manifest.rs:267-311 | Deriving from the executed SQL changes nothing and is marked as not transformed |
| ExecutionPlan.DerivingAgainSucceeds | src/d1_migration_manifest.rs:267-311 | Deriving from the executed SQL is never refused |
| ManifestOrder.Utf16Injective | src/d1_migration_manifest.rs:432-444 | Texts with the same UTF-16 units are the same text |
| ManifestOrder.SegmentStrictTotal | src/d1_migration_manifest.rs:432-444 | The comparison of segments, by leading number and then by UTF-16 units, is a strict total order |
| ManifestOrder.JoinSplit | src/d1_migration_manifest.rs:446-456 | A path is its segments joined by slashes |
| ManifestOrder.PathCmp | src/d1_migration_manifest.rs:446-456 | The segment-wise comparison is Less exactly along the path order and Equal exactly on identical paths |
| ManifestOrder.PathStrictTotal | src/d1_migration_manifest.rs:446-456 | The path order is irreflexive, transitive and total, and equal means the same path |
| ManifestOrder.CheckEntry | src/d1_migration_manifest.rs:500-552 | One migration passes exactly when its size, bytes so far, text and digest are right; the running total is then exact |
| ManifestOrder.CheckNext | src/d1_migration_manifest.rs:487-557 | The next migration passes exactly when its name follows the previous one and its own checks pass |
| ManifestOrder.ValidateManifest | src/d1_migration_manifest.rs:470-559 | A manifest is accepted unchanged exactly when it is nonempty within the count bound, neighbours ascend, every entry is right and the exact byte sum is within the cap |
| ManifestOrder.AcceptedNamesOrdered | src/d1_migration_manifest.rs:470-559 | Although only neighbours are compared, all accepted names are sorted and pairwise distinct |
| AdditiveChain.ValidateObjects | src/d1_migration_additive.rs:475-511 | Passes exactly when every earlier object survives unchanged but for the altered parent, whose text does change, and every new object was created by the prefix |
| AdditiveChain.ValidateTables | src/d1_migration_additive.rs:523-562 | Passes exactly when every earlier table survives, equal or with the one column appended, every new table was created by the prefix, and the altered table was there before |
| AdditiveChain.ValidateColumnAppend | src/d1_migration_additive.rs:566-594 | Passes exactly when the later table is the earlier one with the stated column behind its last, numbered next |
| AdditiveChain.ValidatePrefixTransition | src/d1_migration_additive.rs:455-564 | One transition passes exactly when objects and tables both advance by the plan |
| AdditiveChain.ValidateAdditiveTransitions | src/d1_migration_additive.rs:439-453 | The chain passes exactly when each adjacent pair advances; the numbers of states and plans must fit |
| AdditiveChain.UniqueLookup | src/d1_migration_additive.rs:513-522 | With unique names the lookup map finds every listed table itself |
| AdditiveChain.TableSurvives | src/d1_migration_additive.rs:439-564 | For all i <= j every table of state i is in state j, with equal foreign keys, extended by exactly the additions aimed at it in between |
| AdditiveChain.ColumnsOnlyAppended | src/d1_migration_additive.rs:439-594 | Columns at i are a prefix of those at j, and the difference in number is the number of additions aimed at the table |
| AdditiveChain.ObjectSurvives | src/d1_migration_additive.rs:439-564 | For all i <= j every object of state i is in state j, with the same identity, and unchanged if no addition was aimed at it |
| AdditiveChain.NewTableWasCreated | src/d1_migration_additive.rs:539-554 | A table of state j that state i lacks was created by a prefix in between |
| AdditiveChain.CidsStayContiguous | src/d1_migration_additive.rs:566-594 | Column numbers counting from 0 keep counting through any additions, exactly as long as signed 64-bit numbers can count the columns |
| AdditiveChain.TableStaysContiguous | src/d1_migration_additive.rs:439-594 | For all i <= j the columns of a table of an accepted chain that count from 0 at i count from 0 at j, whenever their number is one signed 64-bit numbers can count |
| Decimal.ParsePrint | src/d1_migration_seed_rows.rs:319-346 | Decimal text is canonical and reads back as its number |
| Decimal.PrintParse | src/d1_migration_seed_rows.rs:319-346 | Canonical decimal text is the text of the number it reads as |
| SeedInsert.UnsignedExact | src/d1_migration_seed_rows.rs:323-328 | The unsigned grammar accepts exactly the canonical decimals of 0 up to the largest signed 64-bit value |
| SeedInsert.NegativeExact | src/d1_migration_seed_rows.rs:330-340 | The magnitude grammar accepts exactly the canonical decimals of the negative values, the minimum included and minus zero excluded |
| SeedInsert.SignedDecimalLen | src/d1_migration_seed_rows.rs:106-117 | Dividing down gives the length of the canonical decimal, sign included, for every signed 64-bit value |
| SeedInsert.RowStrictTotal | src/d1_migration_seed_rows.rs:62-76 | The order of rows derived from literals is a strict total order |
| SeedInsert.LiteralSound | src/d1_migration_seed_rows.rs:288-317 | An accepted literal is the text of an admitted literal, and only its tokens are consumed |
| SeedInsert.LiteralComplete | src/d1_migration_seed_rows.rs:288-317 | The text of an admitted literal is read back as it |
| SeedInsert.StatementSound | src/d1_migration_seed_rows.rs:191-286 | Every accepted token list is the print of an admitted statement |
| SeedInsert.StatementComplete | src/d1_migration_seed_rows.rs:191-286 | The print of every admitted statement reads back as that statement |
| SeedInsert.ParseColumnList | src/d1_migration_seed_rows.rs:207-228 | The column loop accepts the bounded list of canonical names without case-insensitive repetition, and stands behind its parenthesis |
| SeedInsert.ParseRowLiterals | src/d1_migration_seed_rows.rs:243-258 | The literal loop accepts exactly a full row whose bytes fit into what is left, and computes its literals and bytes |
| SeedInsert.ParseRowList | src/d1_migration_seed_rows.rs:234-269 | The row loop accepts exactly a bounded list of rows up to the end whose bytes fit in all, in the order written |
| SeedInsert.ClassifySeedInsert | src/d1_migration_seed_rows.rs:191-286 | An INSERT is accepted exactly when it is the text of an admitted statement without duplicate rows; the effect is its table, columns and sorted rows; other statements are passed over |
| SeedInsert.RowOrderIrrelevant | src/d1_migration_seed_rows.rs:273-285 | Two statements over one table and columns have the same effect exactly when their rows are permutations of each other |
| Sorting.SortIsCanonical | src/d1_migration_seed_rows.rs:644-650 | Sorted forms are equal exactly for permutations |
| Sorting.NeighboursShowDuplicates | src/d1_migration_seed_rows.rs:273-279 | Comparing neighbours of the sorted rows finds every duplicate |
| SeedState.TotalsAdd | src/d1_migration_seed_rows.rs:418-498 | A new table adds exactly its rows and bytes to the totals |
| SeedState.Ledger.InsertSeedEffect | src/d1_migration_seed_rows.rs:418-498 | An effect enters exactly when its bounds hold and its table is new up to case; the totals grow by it and the cumulative bounds hold; a refusal changes nothing |
| SeedState.ParsedRowsBounded | src/d1_migration_seed_rows.rs:418-498 | What the parser accepts always meets the closed bounds checked here |
| SeedSummary.ObservedSummary | src/d1_migration_seed_rows.rs:584-642 | The observed summary is that of all rows read column by column, or refuses extra and malformed rows |
| SeedSummary.LiteralReadsBack | src/d1_migration_seed_rows.rs:600-640 | The provider form of a literal reads back as the literal exactly when the version allows it |
| SeedSummary.RowReadsBack | src/d1_migration_seed_rows.rs:584-642 | An encoded row reads back as its own cells |
| SeedSummary.ReadThenBuild | src/d1_migration_seed_rows.rs:584-642 | An accepted row object contains exactly what was read from it, no further field |
| SeedSummary.EncodingInjective | src/d1_migration_seed_rows.rs:78-103 | Different rows have different canonical cells |
| SeedSummary.SummariesEqualIffPermuted | src/d1_migration_seed_rows.rs:504-673 | For allowed literals the observed summary equals the expected one exactly when the observed rows are a permutation of the encoded expected rows |
| BootstrapProtocol.StepSafe | src/d1_migration_lease.rs:392-421 | Every effect, failure, crash and power loss keeps the invariant of all leases of the target, their payloads, markers, receipts and dispatches |
| BootstrapProtocol.SafeThroughout | src/d1_migration_bootstrap.rs:1235-1610 | The invariant holds throughout every run of any number of bootstraps, finalizes and aborts on one target |
| BootstrapProtocol.DispatchedAtMostOnce | src/d1_migration_bootstrap.rs:1402-1511 | Over every run each lease is dispatched at most once, with a durable marker, and never beside an abort receipt |
| BootstrapProtocol.DispatchedAlone | src/d1_migration_lease.rs:3722-3879 | A rerun cannot dispatch beside an unresolved lease: at every dispatch the own evidence and marker are on the disk, every other lease of the target is out of the way so that no power loss brings it back, and if it was dispatched it was proven applied or closed by finalize |
| BootstrapProtocol.EarlierDispatchSettled | src/d1_migration_lease.rs:3722-3879 | Of any two dispatched leases the earlier one was proven applied or closed by finalize, for good |
| BootstrapProtocol.OneDispatchPerTarget | src/d1_migration_bootstrap.rs:1257-1511 | While nobody empties the database, at most one dispatch happens for the whole target, over any number of bootstraps, finalizes and aborts, failures, crashes and power losses |
| ReceiptCustody.RetiresWithExactReceipt | src/d1_migration_bootstrap_recovery.rs:1568-1643 | Finalize moves custody on only while its exact receipt is found, and it is still found afterwards; the same for abort |
| ReceiptCustody.KeptThroughCrashes | src/d1_migration_bootstrap_recovery.rs:1881-2029 | While processes crash but the machine does not lose power, custody retired by finalize or abort has its exact receipt for good |
| ReceiptCustody.CreatedReceiptDurable | src/d1_migration_lease.rs:3497-3582 | A receipt that an invocation created is durable before it goes on to retire |
| ReceiptCustody.AnchoredThroughout | src/d1_migration_lease.rs:965-1097 | Over every run with power losses: if each retirement of a lease comes after a sync of its receipt completed by the invocation that created it, the receipt is on the disk whenever the lease is retired or on its way |
| ReceiptCustody.SeenIsDisk | src/d1_migration_lease.rs:3497-3582 | What calls have returned since a receipt was created (its own sync, a sync of the directory) tells exactly what of it is on the disk |
| ReceiptCustody.ReceiptLostIffUnsynced | src/d1_migration_lease.rs:965-1097 | At any moment of any run, a power loss can cost a retired lease its receipt exactly when one of these two calls has not returned since the receipt was created |
| ReceiptCustody.FoundReceiptCanBeLost | src/d1_migration_lease.rs:3497-3507 | Every run that retires on a receipt without any completed sync since its creation can go on to lose it |
| BootstrapRecovery.NothingEverStarts | src/d1_migration_lease.rs:2358-2466 | On a target that is not recoverable no invocation ever starts or changes anything |
| BootstrapRecovery.FreeableIffRecoverable | src/d1_migration_bootstrap_recovery.rs:1266-1358 | A target with nobody running can be made free again by some sequence of invocations exactly when every lease, marker and receipt file is whole and either nothing is in the way or one lease is: with its whole receipt (of finalize only with the installed ledger), or active without a receipt and never attempted or with the installed ledger |
| BlockedTargets.CrashAfterCreate | src/d1_migration_lease.rs:3767-3790 | A run from an untouched target: a crash before the payload is written blocks the target for good |
| BlockedTargets.AbortedBroken | src/d1_migration_lease.rs:3653-3671 | A run in which the payload cannot be written and the entry is taken away: the aborted entry blocks the target for good |
| BlockedTargets.MarkerBroken | src/d1_migration_lease.rs:3008-3054 | A run in which the marker cannot be written whole: the target is blocked for good |
| BlockedTargets.CrashAfterMarker | src/d1_migration_lease.rs:3056-3085 | A run with a crash between marker and dispatch: abort is refused because of the marker, finalize because of the missing ledger, for good |
| BlockedTargets.CrashInRelease | src/d1_migration_lease.rs:477-565 | A run with a crash between the two renames of a release, after the initializer was proven applied: the target is blocked for good |
| BlockedTargets.ReceiptLost | src/d1_migration_lease.rs:928-963 | A run in which a receipt is written but not synced, the next finalize takes the found bytes without syncing them, and a power loss leaves retiring custody without a receipt: the target is blocked for good |
| BlockedTargets.ReceiptBroken | src/d1_migration_lease.rs:3376-3401 | The same with the power loss after retirement: the receipt is there but not whole, and blocks the target for good although its lease is retired |
| BootstrapAccounting.AttemptedAppend | src/d1_migration_bootstrap.rs:691-742 | Attempted calls add up over joined evidence |
| BootstrapAccounting.DecodeAccounted | src/d1_migration_bootstrap.rs:609-689 | One read reports one entry, counted exactly if its request was attempted |
| BootstrapAccounting.AgreeAccounted | src/d1_migration_bootstrap.rs:691-742 | A double read keeps calls and evidence of both reads whether they agree, differ or fail, and succeeds only on equal values |
| BootstrapAccounting.ReadStableInventory | src/d1_migration_bootstrap.rs:691-742 | Calls reported are the entries shown as attempted and the requests sent; success takes two reads |
| BootstrapAccounting.ReadStableEmptyLedger | src/d1_migration_bootstrap.rs:844-912 | The same for the ledger, and success means the ledger is empty |
| BootstrapAccounting.ReadStablePostState | src/d1_migration_bootstrap.rs:914-972 | The same for the nested double reads; success takes four reads, the installed schema and an empty ledger |
| BootstrapAccounting.ReconciliationEvidence | src/d1_migration_bootstrap.rs:976-1071 | The same for the evidence after an unclear write, whatever it finds |
| BootstrapAccounting.Custody.Acquire | src/d1_migration_lease.rs:3722-3879 | Acquiring does exactly the effects the answers call for; after a failure the entry is in the way exactly when it was not written whole or could not be taken away |
| BootstrapAccounting.Custody.Settle | src/d1_migration_lease.rs:3779-3879 | Private, written, synced, read back: a failure before the payload is whole leaves the target blocked even if the entry is taken away |
| BootstrapAccounting.Custody.Abort | src/d1_migration_lease.rs:3653-3671 | Taking the entry away renames it without looking at its payload; only the rename decides where it is, not the sync |
| BootstrapAccounting.Custody.Release | src/d1_migration_lease.rs:477-565 | Releasing does exactly the effects the answers call for; after a failure the evidence still blocks the target exactly unless both ways back failed |
| BootstrapAccounting.Custody.Retire | src/d1_migration_lease.rs:530-565 | The second rename of a release and its undoing, to the active or at least to the retiring place |
| BootstrapAccounting.OpenLease | src/d1_migration_bootstrap.rs:1219-1256 | The lease is open exactly when the target check and all effects of acquiring it succeed |
| BootstrapAccounting.CloseLease | src/d1_migration_bootstrap.rs:1549-1610 | After the proof the lease is released exactly on success, and reported as it is but for lost evidence |
| BootstrapAccounting.DispatchAndProve | src/d1_migration_bootstrap.rs:1438-1610 | From the dispatch on, calls reported are the attempted reads and at most one mutation, and are the requests sent; the lease is released exactly on success |
| BootstrapAccounting.HoldLease | src/d1_migration_bootstrap.rs:1257-1610 | With the lease open: no write without the marker, no release once dispatched except on success, and a plan mismatch releases the lease |
| BootstrapAccounting.ExecuteBootstrap | src/d1_migration_bootstrap.rs:1115-1610 | On every result path calls reported are the attempted reads shown and the mutations, at most one, and are exactly the requests sent; nothing is written on a dry run or a plan mismatch; success means six reads and a proven state; a write implies that target check, acquisition, two validations and the attempt marker all succeeded before; what is reported of the lease is true of the directory exactly unless acquiring failed on an entry not written whole or not taken away, or releasing failed with both ways back, and is left open only after a failed validation |
| BootstrapAccounting.LeaseLeftUnreported | src/d1_migration_bootstrap.rs:1235-1256 | A concrete invocation that fails after creating its entry: the entry blocks the target and is reported as not retained, with the advice to start over |
| BootstrapAccounting.BrokenEntryUnreported | src/d1_migration_lease.rs:3706-3720 | A concrete invocation that cannot write its payload and takes the entry away: the aborted entry blocks every later invocation and is reported as not retained |
| BootstrapAccounting.LeaseGoneReportedRetained | src/d1_migration_lease.rs:3673-3704 | A concrete invocation whose release fails with both ways back: nothing blocks the target and the lease is reported as retained |

## Left out

- HTTP and provider clients, tool registration, result wording and hints: only the counters and flags the properties use are kept.
- SQLite and the SQL text of queries (catalog, inventory, seed select, ledger authority): the model starts from the typed rows they return. That SQLite causes no writes beyond foreign-key actions, AUTOINCREMENT and triggers is the source's premise, not proved here.
- SHA-256 and JSON encoding: digests are their content; encodings are parameters assumed injective or invertible.
- The SQL tokenizer (`src/d1_migration_reconciliation.rs`): grammars start from tokens. Number words may therefore also stand for tokens the tokenizer would not produce.
- The stable observation frames of the catalog (`src/d1_catalog_evidence.rs:541-748`): page caps, completeness and metadata checks; the model starts from the accepted rows.
- The derivation of the identities of an attempt (`src/d1_dml_attempt_custody.rs:463-545`): the binding is a parameter of every operation.
- The transition functions of custody update a local copy of the restored state; they are modelled as functions on values, since no caller sees the copy between its updates.
- The order in which ordered maps and sets are walked in graph derivation and in the prefix transition check: any order is allowed, so when several errors apply the model does not say which one is reported.
- The leading number of a path segment: an arbitrary total function from segments to numbers or nothing, in place of floating-point parsing.
- Ledger parsing, authority schema forms, ledger classification and write-result validation of manifests: single-pass checks.
- Affinity checks of seed literals against declared column types (`src/d1_migration_seed_rows.rs:352-416`): a table lookup.
- Plan-family selection and completed replay in `src/d1_migration_terminal.rs`: its receipt-then-retire discipline is that of `BootstrapProtocol`, its argument checks are left out.
- Descriptors, permissions, path binding and namespace audits of the lease directory: a lease operation in `BootstrapProtocol` either takes effect or fails; what reached the disk is modelled, how it is guarded against tampering is not.
- Other users of the target guard (migration families, curated writes): in `BootstrapProtocol` only bootstrap, finalize and abort work on a target.
- Everybody else at the database, including an initializer that takes effect late: `BootstrapProtocol` has one step that sets the database to anything; `OneDispatchPerTarget` excludes only emptying it, recovery excludes it altogether.
- Other targets of one lease root: the directory audit of the source covers them too, so a file that blocks one target in the model blocks all targets of the root in the source.
- Wording of failures in `BootstrapAccounting`: codes, phases and hints other than the outcome, the counters, the evidence and whether the lease is retained.
