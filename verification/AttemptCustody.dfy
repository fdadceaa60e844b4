/**
 * Custody of one DML execution attempt (src/d1_dml_attempt_custody.rs): the
 * durable state, its derived phase, and the operations that propose successors.
 * The JSON codec is a parameter; only that decoding undoes encoding is used.
 */
module AttemptCustody {
  import opened Prelude

  const CUSTODY_VERSION: nat := 1
  const OPERATION := "d1_dml_attempt_custody"
  const STATE_BYTE_CAP: nat := 16 * 1024

  datatype Phase = Prepared | DispatchReserved | ReconciliationRequired | TerminalApplied | TerminalNotApplied

  datatype Ambiguity =
    | DispatchReplay
    | TransportUncertain
    | ResponseMissing
    | ResponseIncomplete
    | ResponseMalformed
    | ResponseContradictory

  datatype ProviderClass = SucceededChanged | SucceededUnchanged | RejectedTerminal

  datatype ReadbackClass = ExpectedStateObserved | ExpectedStateAbsent

  datatype Outcome = Applied | NotApplied

  datatype ProviderRecord = ProviderRecord(
    version: nat, attemptBinding: string, providerRequestId: string, classification: ProviderClass, evidence: string)

  datatype ReadbackRecord = ReadbackRecord(
    version: nat, attemptBinding: string, classification: ReadbackClass, readbackPlan: string, evidence: string)

  /** The digests that tie a state to one target, plan, composition and set of identities. */
  datatype Binding = Binding(
    targetKey: string,
    executePlan: string,
    composition: string,
    compositionReceipt: string,
    operationId: string,
    executionAttemptId: string,
    providerRequestId: string,
    attemptBinding: string)

  datatype State = State(
    version: nat,
    operation: string,
    binding: Binding,
    phase: Phase,
    dispatchReservations: nat,
    ambiguity: Option<Ambiguity>,
    provider: Option<ProviderRecord>,
    readback: Option<ReadbackRecord>,
    terminal: Option<Outcome>)

  datatype Transition =
    | PreparedFresh
    | ExactReplay
    | DispatchReservationPrepared
    | DispatchReplayQuarantinePrepared
    | AmbiguityRecorded
    | ProviderAssertionRecorded
    | ProviderAssertionReplay
    | ReadbackAssertionRecorded
    | ReadbackAssertionReplay

  datatype RetryDecision = DispatchNotYetCrossed | DoNotRedispatchSameAttempt | TerminalReplayOnly

  /** What an operation hands to the durable layer; `expected` is set only on the proposal to reserve. */
  datatype Product = Product(
    state: State,
    bytes: Bytes,
    transition: Transition,
    retry: RetryDecision,
    expected: Option<Bytes>,
    exactReplay: bool)

  datatype Refusal =
    | RestoredStateRequired
    | RestoredStateTooLarge
    | RestoredStateMalformed
    | RestoredStateNonCanonical
    | RestoredStateUnsupported
    | RestoredStateContradictory
    | ReplayConflict
    | TransitionBeforeDispatch
    | AmbiguityConflict
    | EvidenceDigestInvalid
    | EvidenceConflict
    | StateLimitExceeded

  datatype Codec = Codec(encode: State -> Bytes, decode: Bytes -> Option<State>)

  // ---- Validity ----

  predicate ValidSha256(s: string) {
    |s| == 64 && forall i :: 0 <= i < |s| ==> '0' <= s[i] <= '9' || 'a' <= s[i] <= 'f'
  }

  predicate DigestsValid(b: Binding) {
    && ValidSha256(b.targetKey) && ValidSha256(b.executePlan) && ValidSha256(b.composition)
    && ValidSha256(b.compositionReceipt) && ValidSha256(b.operationId) && ValidSha256(b.executionAttemptId)
    && ValidSha256(b.providerRequestId) && ValidSha256(b.attemptBinding)
  }

  predicate ProviderRecordValid(s: State) {
    match s.provider
    case None => true
    case Some(a) => a.version == CUSTODY_VERSION && a.attemptBinding == s.binding.attemptBinding
                    && a.providerRequestId == s.binding.providerRequestId && ValidSha256(a.evidence)
  }

  predicate ReadbackRecordValid(s: State) {
    match s.readback
    case None => true
    case Some(a) => a.version == CUSTODY_VERSION && a.attemptBinding == s.binding.attemptBinding
                    && ValidSha256(a.readbackPlan) && ValidSha256(a.evidence)
  }

  /** What a provider answer and an independent readback conclude together. */
  function Conclude(p: ProviderClass, r: ReadbackClass): Option<Outcome> {
    match (p, r)
    case (SucceededChanged, ExpectedStateObserved) => Some(Applied)
    case (SucceededUnchanged, ExpectedStateObserved) => Some(Applied)
    case (RejectedTerminal, ExpectedStateAbsent) => Some(NotApplied)
    case _ => None
  }

  /** The phase is a function of the durable evidence; contradictory evidence has none. */
  function DerivePhase(s: State): Result<(Phase, Option<Outcome>), Refusal> {
    if s.dispatchReservations > 1 then Err(RestoredStateContradictory)
    else if s.dispatchReservations == 0 then
      if s.ambiguity.Some? || s.provider.Some? || s.readback.Some? || s.terminal.Some?
        then Err(RestoredStateContradictory)
      else Ok((Prepared, None))
    else
      var outcome := if s.provider.Some? && s.readback.Some?
                     then Conclude(s.provider.value.classification, s.readback.value.classification) else None;
      var contradictory := s.provider.Some? && s.readback.Some? && outcome.None?;
      match outcome
      case Some(Applied) => Ok((TerminalApplied, outcome))
      case Some(NotApplied) => Ok((TerminalNotApplied, outcome))
      case None => Ok((if s.ambiguity.Some? || contradictory then ReconciliationRequired
                       else DispatchReserved, outcome))
  }

  function ValidateState(s: State): Result<(), Refusal> {
    if s.version != CUSTODY_VERSION || s.operation != OPERATION then Err(RestoredStateUnsupported)
    else if !DigestsValid(s.binding) || !ProviderRecordValid(s) || !ReadbackRecordValid(s)
      then Err(RestoredStateContradictory)
    else
      match DerivePhase(s)
      case Err(e) => Err(e)
      case Ok((phase, terminal)) =>
        if s.phase != phase || s.terminal != terminal then Err(RestoredStateContradictory) else Ok(())
  }

  predicate Valid(s: State) {
    ValidateState(s).Ok?
  }

  ghost predicate Lawful(codec: Codec) {
    && (forall s :: codec.decode(codec.encode(s)) == Some(s))
    && (forall s :: |codec.encode(s)| > 0)
    && (forall s :: Valid(s) ==> |codec.encode(s)| <= STATE_BYTE_CAP)
  }

  // ---- Restoring and emitting ----

  function CanonicalBytes(codec: Codec, s: State): Result<Bytes, Refusal> {
    var bytes := codec.encode(s);
    if |bytes| > STATE_BYTE_CAP then Err(StateLimitExceeded) else Ok(bytes)
  }

  function Restore(codec: Codec, bytes: Bytes, binding: Binding): Result<State, Refusal> {
    if bytes == [] then Err(RestoredStateRequired)
    else if |bytes| > STATE_BYTE_CAP then Err(RestoredStateTooLarge)
    else
      match codec.decode(bytes)
      case None => Err(RestoredStateMalformed)
      case Some(s) =>
        match CanonicalBytes(codec, s)
        case Err(e) => Err(e)
        case Ok(canonical) =>
          if canonical != bytes then Err(RestoredStateNonCanonical)
          else
            match ValidateState(s)
            case Err(e) => Err(e)
            case Ok(_) => if s.binding != binding then Err(ReplayConflict) else Ok(s)
  }

  function Refresh(s: State): Result<State, Refusal> {
    match DerivePhase(s)
    case Err(e) => Err(e)
    case Ok((phase, terminal)) =>
      var refreshed := s.(phase := phase, terminal := terminal);
      match ValidateState(refreshed)
      case Err(e) => Err(e)
      case Ok(_) => Ok(refreshed)
  }

  function RetryOf(phase: Phase): RetryDecision {
    match phase
    case Prepared => DispatchNotYetCrossed
    case DispatchReserved => DoNotRedispatchSameAttempt
    case ReconciliationRequired => DoNotRedispatchSameAttempt
    case TerminalApplied => TerminalReplayOnly
    case TerminalNotApplied => TerminalReplayOnly
  }

  function Emit(codec: Codec, s: State, transition: Transition, expected: Option<Bytes>,
                exactReplay: bool): Result<Product, Refusal> {
    match ValidateState(s)
    case Err(e) => Err(e)
    case Ok(_) =>
      match CanonicalBytes(codec, s)
      case Err(e) => Err(e)
      case Ok(bytes) => Ok(Product(s, bytes, transition, RetryOf(s.phase), expected, exactReplay))
  }

  function EmitRefreshed(codec: Codec, s: State, transition: Transition,
                         expected: Option<Bytes>): Result<Product, Refusal> {
    match Refresh(s)
    case Err(e) => Err(e)
    case Ok(refreshed) => Emit(codec, refreshed, transition, expected, false)
  }

  // ---- Operations ----

  function Fresh(binding: Binding): State {
    State(CUSTODY_VERSION, OPERATION, binding, Prepared, 0, None, None, None, None)
  }

  function Prepare(codec: Codec, binding: Binding, restored: Option<Bytes>): Result<Product, Refusal> {
    match restored
    case None => Emit(codec, Fresh(binding), PreparedFresh, None, false)
    case Some(bytes) =>
      match Restore(codec, bytes, binding)
      case Err(e) => Err(e)
      case Ok(s) => Emit(codec, s, ExactReplay, None, true)
  }

  datatype Op =
    | Replay
    | Reserve
    | RecordAmbiguity(ambiguity: Ambiguity)
    | RecordProvider(provider: ProviderClass, evidence: string)
    | RecordReadback(readback: ReadbackClass, plan: string, proof: string)

  function ReserveDispatch(codec: Codec, s: State, prior: Bytes): Result<Product, Refusal> {
    match s.phase
    case Prepared => EmitRefreshed(codec, s.(dispatchReservations := 1), DispatchReservationPrepared, Some(prior))
    case DispatchReserved =>
      EmitRefreshed(codec, s.(ambiguity := Some(DispatchReplay)), DispatchReplayQuarantinePrepared, None)
    case _ => Emit(codec, s, ExactReplay, None, true)
  }

  function NoteAmbiguity(codec: Codec, s: State, ambiguity: Ambiguity): Result<Product, Refusal> {
    if s.dispatchReservations != 1 then Err(TransitionBeforeDispatch)
    else if s.ambiguity.Some? then
      if s.ambiguity.value != ambiguity then Err(AmbiguityConflict) else Emit(codec, s, ExactReplay, None, true)
    else if s.terminal.Some? then Err(AmbiguityConflict)
    else EmitRefreshed(codec, s.(ambiguity := Some(ambiguity)), AmbiguityRecorded, None)
  }

  function NoteProvider(codec: Codec, s: State, classification: ProviderClass,
                        evidence: string): Result<Product, Refusal> {
    if s.dispatchReservations != 1 then Err(TransitionBeforeDispatch)
    else if !ValidSha256(evidence) then Err(EvidenceDigestInvalid)
    else
      var candidate := ProviderRecord(CUSTODY_VERSION, s.binding.attemptBinding, s.binding.providerRequestId,
                                      classification, evidence);
      if s.provider.Some? then
        if s.provider.value != candidate then Err(EvidenceConflict)
          else Emit(codec, s, ProviderAssertionReplay, None, true)
      else EmitRefreshed(codec, s.(provider := Some(candidate)), ProviderAssertionRecorded, None)
  }

  function NoteReadback(codec: Codec, s: State, classification: ReadbackClass, plan: string,
                        evidence: string): Result<Product, Refusal> {
    if s.dispatchReservations != 1 then Err(TransitionBeforeDispatch)
    else if !ValidSha256(plan) || !ValidSha256(evidence) then Err(EvidenceDigestInvalid)
    else
      var candidate := ReadbackRecord(CUSTODY_VERSION, s.binding.attemptBinding, classification, plan, evidence);
      if s.readback.Some? then
        if s.readback.value != candidate then Err(EvidenceConflict)
          else Emit(codec, s, ReadbackAssertionReplay, None, true)
      else EmitRefreshed(codec, s.(readback := Some(candidate)), ReadbackAssertionRecorded, None)
  }

  /** Any operation on the bytes read from the durable store. */
  function Apply(codec: Codec, binding: Binding, bytes: Bytes, op: Op): Result<Product, Refusal> {
    match Restore(codec, bytes, binding)
    case Err(e) => Err(e)
    case Ok(s) =>
      match op
      case Replay => Prepare(codec, binding, Some(bytes))
      case Reserve => ReserveDispatch(codec, s, bytes)
      case RecordAmbiguity(a) => NoteAmbiguity(codec, s, a)
      case RecordProvider(c, evidence) => NoteProvider(codec, s, c, evidence)
      case RecordReadback(c, plan, evidence) => NoteReadback(codec, s, c, plan, evidence)
  }

  // ---- One step ----

  ghost predicate Restorable(codec: Codec, bytes: Bytes, binding: Binding) {
    Restore(codec, bytes, binding).Ok?
  }

  /** Every emitted product can be restored under the identities it was emitted for, to the same state. */
  lemma EmittedRestores(codec: Codec, s: State, transition: Transition, expected: Option<Bytes>, exactReplay: bool)
    requires Lawful(codec) && Valid(s)
    ensures Emit(codec, s, transition, expected, exactReplay).Ok?
    ensures Restore(codec, Emit(codec, s, transition, expected, exactReplay).value.bytes, s.binding) == Ok(s)
  {
    assert codec.decode(codec.encode(s)) == Some(s);
  }

  /** Restored bytes are the encoding of the state they restore to. */
  lemma RestoredIsEncoded(codec: Codec, bytes: Bytes, binding: Binding)
    requires Restorable(codec, bytes, binding)
    ensures var s := Restore(codec, bytes, binding).value; Valid(s) && s.binding == binding && bytes == codec.encode(s)
  {
  }

  /** Nothing recorded is ever taken back or replaced. */
  predicate Grows(s: State, t: State) {
    && t.binding == s.binding
    && s.dispatchReservations <= t.dispatchReservations
    && (s.ambiguity.Some? ==> t.ambiguity == s.ambiguity)
    && (s.provider.Some? ==> t.provider == s.provider)
    && (s.readback.Some? ==> t.readback == s.readback)
    && (s.terminal.Some? ==> t.terminal == s.terminal)
  }

  function RetryRank(d: RetryDecision): nat {
    match d
    case DispatchNotYetCrossed => 0
    case DoNotRedispatchSameAttempt => 1
    case TerminalReplayOnly => 2
  }

  predicate ContradictoryPair(s: State) {
    s.provider.Some? && s.readback.Some?
        && Conclude(s.provider.value.classification, s.readback.value.classification).None?
  }

  predicate IsTerminal(phase: Phase) {
    phase == TerminalApplied || phase == TerminalNotApplied
  }

  /** Between valid states, growing evidence orders the phases. */
  lemma GrowthIsForward(s: State, t: State)
    requires Valid(s) && Valid(t) && Grows(s, t)
    ensures RetryRank(RetryOf(s.phase)) <= RetryRank(RetryOf(t.phase))
    ensures IsTerminal(s.phase) ==> t.phase == s.phase && t.terminal == s.terminal && s.terminal.Some?
    ensures ContradictoryPair(s) ==> ContradictoryPair(t) && t.phase == ReconciliationRequired
    ensures IsTerminal(t.phase) ==> t.provider.Some? && t.readback.Some? && t.dispatchReservations == 1
  {
  }

  lemma StepGrows(codec: Codec, binding: Binding, bytes: Bytes, op: Op)
    requires Lawful(codec) && Apply(codec, binding, bytes, op).Ok?
    ensures var p := Apply(codec, binding, bytes, op).value;
            && Valid(p.state) && Grows(Restore(codec, bytes, binding).value, p.state)
            && Restore(codec, p.bytes, binding) == Ok(p.state)
            && p.retry == RetryOf(p.state.phase)
  {
    RestoredIsEncoded(codec, bytes, binding);
    var p := Apply(codec, binding, bytes, op).value;
    EmittedRestores(codec, p.state, p.transition, p.expected, p.exactReplay);
  }

  // ---- Whole runs ----

  /** The durable bytes after one attempted operation; a refused one changes nothing. */
  function Next(codec: Codec, binding: Binding, bytes: Bytes, op: Op): Bytes {
    match Apply(codec, binding, bytes, op)
    case Err(_) => bytes
    case Ok(p) => p.bytes
  }

  function Run(codec: Codec, binding: Binding, bytes: Bytes, ops: seq<Op>): Bytes
    decreases |ops|
  {
    if ops == [] then bytes else Run(codec, binding, Next(codec, binding, bytes, ops[0]), ops[1..])
  }

  lemma NextGrows(codec: Codec, binding: Binding, bytes: Bytes, op: Op)
    requires Lawful(codec) && Restorable(codec, bytes, binding)
    ensures Restorable(codec, Next(codec, binding, bytes, op), binding)
    ensures Grows(Restore(codec, bytes, binding).value, Restore(codec, Next(codec, binding, bytes, op), binding).value)
  {
    if Apply(codec, binding, bytes, op).Ok? { StepGrows(codec, binding, bytes, op); }
  }

  lemma {:induction false} RunGrows(codec: Codec, binding: Binding, bytes: Bytes, ops: seq<Op>)
    requires Lawful(codec) && Restorable(codec, bytes, binding)
    ensures Restorable(codec, Run(codec, binding, bytes, ops), binding)
    ensures Grows(Restore(codec, bytes, binding).value, Restore(codec, Run(codec, binding, bytes, ops), binding).value)
    decreases |ops|
  {
    if ops != [] {
      NextGrows(codec, binding, bytes, ops[0]);
      RunGrows(codec, binding, Next(codec, binding, bytes, ops[0]), ops[1..]);
    }
  }

  /**
   * Over any sequence of operations: the state stays valid, evidence only grows,
   * the retry decision never moves back, a terminal phase keeps its outcome, and
   * a contradictory pair of assertions never becomes terminal.
   */
  lemma RunIsSafe(codec: Codec, binding: Binding, bytes: Bytes, ops: seq<Op>)
    requires Lawful(codec) && Restorable(codec, bytes, binding)
    ensures Restorable(codec, Run(codec, binding, bytes, ops), binding)
    ensures var s := Restore(codec, bytes, binding).value;
            var t := Restore(codec, Run(codec, binding, bytes, ops), binding).value;
            && Valid(t) && Grows(s, t)
            && RetryRank(RetryOf(s.phase)) <= RetryRank(RetryOf(t.phase))
            && (IsTerminal(s.phase) ==> t.phase == s.phase && t.terminal == s.terminal)
            && (ContradictoryPair(s) ==> t.phase == ReconciliationRequired)
  {
    RunGrows(codec, binding, bytes, ops);
    RestoredIsEncoded(codec, bytes, binding);
    RestoredIsEncoded(codec, Run(codec, binding, bytes, ops), binding);
    GrowthIsForward(Restore(codec, bytes, binding).value,
                    Restore(codec, Run(codec, binding, bytes, ops), binding).value);
  }

  // ---- Confluence and replay ----

  /** The state one assertion leaves behind, refused or not. */
  function AfterProvider(s: State, c: ProviderClass, evidence: string): State {
    if s.dispatchReservations != 1 || !ValidSha256(evidence) || s.provider.Some? then s
    else
      var t := s.(provider := Some(ProviderRecord(CUSTODY_VERSION, s.binding.attemptBinding,
                                                  s.binding.providerRequestId, c, evidence)));
      Derived(t)
  }

  function AfterReadback(s: State, c: ReadbackClass, plan: string, evidence: string): State {
    if s.dispatchReservations != 1 || !ValidSha256(plan) || !ValidSha256(evidence) || s.readback.Some? then s
    else Derived(s.(readback := Some(ReadbackRecord(CUSTODY_VERSION, s.binding.attemptBinding, c, plan, evidence))))
  }

  function Derived(t: State): State {
    match DerivePhase(t)
    case Err(_) => t
    case Ok((phase, terminal)) => t.(phase := phase, terminal := terminal)
  }

  lemma ProviderStep(codec: Codec, binding: Binding, bytes: Bytes, c: ProviderClass, evidence: string)
    requires Lawful(codec) && Restorable(codec, bytes, binding)
    ensures var s := Restore(codec, bytes, binding).value;
            var t := AfterProvider(s, c, evidence);
            && Next(codec, binding, bytes, RecordProvider(c, evidence)) == codec.encode(t)
            && Restore(codec, codec.encode(t), binding) == Ok(t)
  {
    RestoredIsEncoded(codec, bytes, binding);
    var t := AfterProvider(Restore(codec, bytes, binding).value, c, evidence);
    EmittedRestores(codec, t, ProviderAssertionRecorded, None, false);
  }

  lemma ReadbackStep(codec: Codec, binding: Binding, bytes: Bytes, c: ReadbackClass, plan: string, evidence: string)
    requires Lawful(codec) && Restorable(codec, bytes, binding)
    ensures var s := Restore(codec, bytes, binding).value;
            var t := AfterReadback(s, c, plan, evidence);
            && Next(codec, binding, bytes, RecordReadback(c, plan, evidence)) == codec.encode(t)
            && Restore(codec, codec.encode(t), binding) == Ok(t)
  {
    RestoredIsEncoded(codec, bytes, binding);
    var t := AfterReadback(Restore(codec, bytes, binding).value, c, plan, evidence);
    EmittedRestores(codec, t, ReadbackAssertionRecorded, None, false);
  }

  /** Provider and readback assertions leave the same bytes in either order. */
  lemma AssertionsCommute(codec: Codec, binding: Binding, bytes: Bytes,
                          c: ProviderClass, evidence: string, d: ReadbackClass, plan: string, proof: string)
    requires Lawful(codec) && Restorable(codec, bytes, binding)
    ensures Run(codec, binding, bytes, [RecordProvider(c, evidence), RecordReadback(d, plan, proof)])
         == Run(codec, binding, bytes, [RecordReadback(d, plan, proof), RecordProvider(c, evidence)])
  {
    var s := Restore(codec, bytes, binding).value;
    var p, r := RecordProvider(c, evidence), RecordReadback(d, plan, proof);
    ProviderStep(codec, binding, bytes, c, evidence);
    ReadbackStep(codec, binding, codec.encode(AfterProvider(s, c, evidence)), d, plan, proof);
    ReadbackStep(codec, binding, bytes, d, plan, proof);
    ProviderStep(codec, binding, codec.encode(AfterReadback(s, d, plan, proof)), c, evidence);
    RunTwo(codec, binding, bytes, p, r);
    RunTwo(codec, binding, bytes, r, p);
  }

  lemma RunTwo(codec: Codec, binding: Binding, bytes: Bytes, a: Op, b: Op)
    ensures Run(codec, binding, bytes, [a, b]) == Next(codec, binding, Next(codec, binding, bytes, a), b)
  {
    var after := Next(codec, binding, bytes, a);
    assert [a, b][1..] == [b];
    assert Run(codec, binding, after, [b]) == Run(codec, binding, Next(codec, binding, after, b), [b][1..]);
  }

  /** Recording the same evidence again is accepted as a replay and changes nothing. */
  lemma RecordersIdempotent(codec: Codec, binding: Binding, bytes: Bytes, op: Op)
    requires Lawful(codec) && !op.Replay? && !op.Reserve? && Apply(codec, binding, bytes, op).Ok?
    ensures var p := Apply(codec, binding, bytes, op).value;
            var again := Apply(codec, binding, p.bytes, op);
            again.Ok? && again.value.bytes == p.bytes && again.value.exactReplay
  {
    StepGrows(codec, binding, bytes, op);
    var p := Apply(codec, binding, bytes, op).value;
    EmittedRestores(codec, p.state, ExactReplay, None, true);
  }

  /** Reserving over and over: the second time quarantines the attempt, and from then on nothing changes. */
  lemma ReserveSettles(codec: Codec, binding: Binding, bytes: Bytes)
    requires Lawful(codec) && Restorable(codec, bytes, binding)
             && Restore(codec, bytes, binding).value.phase == Prepared
    ensures var once := Next(codec, binding, bytes, Reserve);
            var twice := Next(codec, binding, once, Reserve);
            && Restorable(codec, once, binding) && Restore(codec, once, binding).value.phase == DispatchReserved
            && Restorable(codec, twice, binding) && Restore(codec, twice, binding).value.phase == ReconciliationRequired
            && Next(codec, binding, twice, Reserve) == twice
  {
    RestoredIsEncoded(codec, bytes, binding);
    StepGrows(codec, binding, bytes, Reserve);
    var once := Next(codec, binding, bytes, Reserve);
    StepGrows(codec, binding, once, Reserve);
    RestoredIsEncoded(codec, Next(codec, binding, once, Reserve), binding);
  }

  /** Bytes emitted under one set of identities are refused under any other. */
  lemma OtherIdentitiesRefused(codec: Codec, binding: Binding, other: Binding, bytes: Bytes)
    requires Restorable(codec, bytes, binding)
    ensures Restore(codec, bytes, other) ==
            (if other == binding then Restore(codec, bytes, binding) else Err(ReplayConflict))
  {
  }
}
