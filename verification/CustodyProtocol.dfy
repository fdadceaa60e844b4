/**
 * Attempt custody as a protocol: one durable cell and any number of callers that
 * read it, propose, compare and exchange, dispatch, write evidence back, and
 * crash at any point. The transition functions are those of AttemptCustody; the
 * cell does what the header of src/d1_dml_attempt_custody.rs asks of it.
 */
module CustodyProtocol {
  import opened Prelude
  import opened AttemptCustody

  datatype Caller =
    | Idle
    | Holding(bytes: Bytes)
    | Proposing(expected: Bytes, successor: Bytes)
    | MayDispatch

  datatype World = World(cell: Option<Bytes>, callers: seq<Caller>, dispatches: nat)

  /** `writes` says which products may be written over whatever the cell holds now. */
  datatype Config = Config(codec: Codec, binding: Binding, writes: Product -> bool)

  /** A reservation is only ever proposed; any other product may be written if the adapter allows it. */
  predicate MayOverwrite(writes: Product -> bool, p: Product) {
    p.expected.None? && writes(p)
  }

  /** What replaying the preparation emits while the attempt is not reserved. */
  function ReplayProduct(g: Config): Product {
    var prepared := Fresh(g.binding);
    Product(prepared, g.codec.encode(prepared), ExactReplay, RetryOf(prepared.phase), None, true)
  }

  /** The adapter never writes a replay of the preparation over the cell. */
  predicate RefusesReplay(g: Config) {
    !g.writes(ReplayProduct(g))
  }

  ghost predicate Configured(g: Config) {
    Lawful(g.codec) && DigestsValid(g.binding)
  }

  ghost predicate Initial(w: World) {
    w.cell.None? && w.dispatches == 0 && forall i :: 0 <= i < |w.callers| ==> w.callers[i] == Idle
  }

  datatype Step =
    | Create
    | Read(i: nat)
    | Propose(i: nat)
    | CompareExchange(i: nat)
    | Dispatch(i: nat)
    | Overwrite(i: nat, op: Op)
    | Crash(i: nat)

  /** The cell is created once, with the newly prepared product. */
  ghost predicate CreateStep(g: Config, w: World, v: World) {
    && w.cell.None?
    && Prepare(g.codec, g.binding, None).Ok?
    && v == w.(cell := Some(Prepare(g.codec, g.binding, None).value.bytes))
  }

  ghost predicate CallerStep(g: Config, w: World, v: World, i: nat, step: Step)
    requires i < |w.callers|
  {
    match step
    case Create => false
    case Read(_) => w.cell.Some? && v == w.(callers := w.callers[i := Holding(w.cell.value)])
    case Propose(_) =>
      && w.callers[i].Holding?
      && var r := Apply(g.codec, g.binding, w.callers[i].bytes, Reserve);
      && r.Ok? && r.value.expected.Some?
      && v == w.(callers := w.callers[i := Proposing(r.value.expected.value, r.value.bytes)])
    case CompareExchange(_) =>
      && w.callers[i].Proposing?
      && v == (if w.cell == Some(w.callers[i].expected)
               then w.(cell := Some(w.callers[i].successor), callers := w.callers[i := MayDispatch])
               else w.(callers := w.callers[i := Idle]))
    case Dispatch(_) =>
      w.callers[i] == MayDispatch && v == w.(callers := w.callers[i := Idle], dispatches := w.dispatches + 1)
    case Overwrite(_, op) =>
      && w.callers[i].Holding?
      && var r := Apply(g.codec, g.binding, w.callers[i].bytes, op);
      && r.Ok? && MayOverwrite(g.writes, r.value)
      && v == w.(cell := Some(r.value.bytes))
    case Crash(_) => v == w.(callers := w.callers[i := Idle])
  }

  ghost predicate Transits(g: Config, w: World, v: World, step: Step) {
    match step
    case Create => CreateStep(g, w, v)
    case _ => step.i < |w.callers| && CallerStep(g, w, v, step.i, step)
  }

  ghost predicate Execution(g: Config, ws: seq<World>, steps: seq<Step>) {
    && |ws| == |steps| + 1
    && Initial(ws[0])
    && forall k :: 0 <= k < |steps| ==> Transits(g, ws[k], ws[k + 1], steps[k])
  }

  // ---- At most one dispatch ----

  /** Stored bytes of this attempt, with or without the dispatch reserved. */
  ghost predicate Stored(g: Config, bytes: Bytes, reserved: bool) {
    && Restorable(g.codec, bytes, g.binding)
    && (Restore(g.codec, bytes, g.binding).value.dispatchReservations == 1 <==> reserved)
  }

  ghost predicate CellReserved(g: Config, w: World) {
    w.cell.Some? && Stored(g, w.cell.value, true)
  }

  ghost predicate CallerOk(g: Config, w: World, c: Caller) {
    match c
    case Idle => true
    case Holding(bytes) =>
      Restorable(g.codec, bytes, g.binding) && (Stored(g, bytes, true) ==> CellReserved(g, w))
    case Proposing(expected, successor) => Stored(g, expected, false) && Stored(g, successor, true)
    case MayDispatch => CellReserved(g, w) && w.dispatches == 0
  }

  ghost predicate Safe(g: Config, w: World) {
    && (w.cell.Some? ==> Restorable(g.codec, w.cell.value, g.binding))
    && (forall i :: 0 <= i < |w.callers| ==> CallerOk(g, w, w.callers[i]))
    && (forall i, j :: 0 <= i < j < |w.callers| ==> w.callers[i] != MayDispatch || w.callers[j] != MayDispatch)
    && w.dispatches <= 1
    && (w.dispatches == 1 ==> CellReserved(g, w))
  }

  /** What a proposal is: from exact unreserved bytes to a reserved successor. */
  lemma ProposalReserves(g: Config, bytes: Bytes)
    requires Configured(g) && Apply(g.codec, g.binding, bytes, Reserve).Ok?
    requires Apply(g.codec, g.binding, bytes, Reserve).value.expected.Some?
    ensures var p := Apply(g.codec, g.binding, bytes, Reserve).value;
            p.expected == Some(bytes) && Stored(g, bytes, false) && Stored(g, p.bytes, true)
  {
    StepGrows(g.codec, g.binding, bytes, Reserve);
    RestoredIsEncoded(g.codec, bytes, g.binding);
  }

  /** Without a reservation there is no evidence, so an attempt has one unreserved state. */
  lemma UnreservedIsFresh(s: State)
    requires Valid(s) && s.dispatchReservations != 1
    ensures s == Fresh(s.binding)
  {
  }

  /**
   * Of all products of all operations, the replay of the preparation is the one unreserved product that is no
   * proposal.
   */
  lemma OnlyReplayIsUnreserved(g: Config, bytes: Bytes, op: Op)
    requires Configured(g) && Apply(g.codec, g.binding, bytes, op).Ok?
    requires Apply(g.codec, g.binding, bytes, op).value.expected.None?
    ensures var p := Apply(g.codec, g.binding, bytes, op).value;
            p.state.dispatchReservations == 1 || p == ReplayProduct(g)
  {
    var p := Apply(g.codec, g.binding, bytes, op).value;
    StepGrows(g.codec, g.binding, bytes, op);
    RestoredIsEncoded(g.codec, bytes, g.binding);
    if p.state.dispatchReservations != 1 {
      UnreservedIsFresh(p.state);
      UnreservedIsFresh(Restore(g.codec, bytes, g.binding).value);
    }
  }

  /**
   * Unless the replay may be written, a product that overwrites the cell keeps one reservation, and so did the bytes
   * it came from.
   */
  lemma OverwriteKeepsReservation(g: Config, bytes: Bytes, op: Op)
    requires Configured(g) && RefusesReplay(g)
    requires Apply(g.codec, g.binding, bytes, op).Ok?
             && MayOverwrite(g.writes, Apply(g.codec, g.binding, bytes, op).value)
    ensures Stored(g, Apply(g.codec, g.binding, bytes, op).value.bytes, true) && Stored(g, bytes, true)
  {
    OnlyReplayIsUnreserved(g, bytes, op);
    StepGrows(g.codec, g.binding, bytes, op);
    RestoredIsEncoded(g.codec, bytes, g.binding);
  }

  lemma SafeInitially(g: Config, w: World)
    requires Initial(w)
    ensures Safe(g, w)
  {
  }

  lemma SafeAfterCreate(g: Config, w: World, v: World)
    requires Configured(g) && Safe(g, w) && CreateStep(g, w, v)
    ensures Safe(g, v)
  {
    EmittedRestores(g.codec, Fresh(g.binding), PreparedFresh, None, false);
    forall i | 0 <= i < |v.callers| ensures CallerOk(g, v, v.callers[i]) {
      assert CallerOk(g, w, w.callers[i]);
    }
  }

  lemma SafeAfterCallerStep(g: Config, w: World, v: World, i: nat, step: Step)
    requires Configured(g) && RefusesReplay(g) && Safe(g, w) && i < |w.callers| && CallerStep(g, w, v, i, step)
    ensures Safe(g, v)
  {
    assert CallerOk(g, w, w.callers[i]);
    if step.Propose? { ProposalReserves(g, w.callers[i].bytes); }
    if step.Overwrite? { OverwriteKeepsReservation(g, w.callers[i].bytes, step.op); }
    assert CellReserved(g, w) ==> CellReserved(g, v);
    forall k | 0 <= k < |v.callers| ensures CallerOk(g, v, v.callers[k]) {
      assert CallerOk(g, w, w.callers[k]);
    }
  }

  lemma {:induction false} SafeThroughout(g: Config, ws: seq<World>, steps: seq<Step>, k: nat)
    requires Configured(g) && RefusesReplay(g) && Execution(g, ws, steps) && k < |ws|
    ensures Safe(g, ws[k])
  {
    if k == 0 {
      SafeInitially(g, ws[0]);
    } else {
      SafeThroughout(g, ws, steps, k - 1);
      assert Transits(g, ws[k - 1], ws[k - 1 + 1], steps[k - 1]);
      if steps[k - 1].Create? {
        SafeAfterCreate(g, ws[k - 1], ws[k]);
      } else {
        SafeAfterCallerStep(g, ws[k - 1], ws[k], steps[k - 1].i, steps[k - 1]);
      }
    }
  }

  ghost predicate AtMostOneDispatch(g: Config) {
    forall ws: seq<World>, steps :: Execution(g, ws, steps) ==> ws[|steps|].dispatches <= 1
  }

  // ---- Why the replay must not be written ----

  /** Two callers; the second replays the prepared bytes it read over the reserved cell. */
  ghost function ReplayRun(g: Config): (seq<World>, seq<Step>) {
    var prepared := g.codec.encode(Fresh(g.binding));
    var reserved := Next(g.codec, g.binding, prepared, Reserve);
    ([World(None, [Idle, Idle], 0),
      World(Some(prepared), [Idle, Idle], 0),
      World(Some(prepared), [Idle, Holding(prepared)], 0),
      World(Some(prepared), [Holding(prepared), Holding(prepared)], 0),
      World(Some(prepared), [Proposing(prepared, reserved), Holding(prepared)], 0),
      World(Some(reserved), [MayDispatch, Holding(prepared)], 0),
      World(Some(reserved), [Idle, Holding(prepared)], 1),
      World(Some(prepared), [Idle, Holding(prepared)], 1),
      World(Some(prepared), [Idle, Proposing(prepared, reserved)], 1),
      World(Some(reserved), [Idle, MayDispatch], 1),
      World(Some(reserved), [Idle, Idle], 2)],
     [Create, Read(1), Read(0), Propose(0), CompareExchange(0), Dispatch(0),
      Overwrite(1, Replay), Propose(1), CompareExchange(1), Dispatch(1)])
  }

  lemma FreshProposal(g: Config)
    requires Configured(g)
    ensures var prepared := g.codec.encode(Fresh(g.binding));
            && Prepare(g.codec, g.binding, None).Ok? && Prepare(g.codec, g.binding, None).value.bytes == prepared
            && (var r := Apply(g.codec, g.binding, prepared, Reserve);
                r.Ok? && r.value.expected == Some(prepared)
                    && r.value.bytes == Next(g.codec, g.binding, prepared, Reserve))
            && (var r := Apply(g.codec, g.binding, prepared, Replay);
                r.Ok? && r.value == ReplayProduct(g) && r.value.bytes == prepared)
  {
    EmittedRestores(g.codec, Fresh(g.binding), PreparedFresh, None, false);
    var reserved := Fresh(g.binding).(dispatchReservations := 1, phase := DispatchReserved);
    EmittedRestores(g.codec, reserved, DispatchReservationPrepared, Some(g.codec.encode(Fresh(g.binding))), false);
  }

  lemma ReplayRunStep(g: Config, k: nat)
    requires Configured(g) && g.writes(ReplayProduct(g)) && k < 10
    ensures Transits(g, ReplayRun(g).0[k], ReplayRun(g).0[k + 1], ReplayRun(g).1[k])
  {
    FreshProposal(g);
    var w, v := ReplayRun(g).0[k], ReplayRun(g).0[k + 1];
    assert w.callers[0 := v.callers[0]][1 := v.callers[1]] == v.callers;
  }

  /** Writing the replay over the cell lets one attempt be dispatched twice. */
  lemma ReplayRunDispatchesTwice(g: Config)
    requires Configured(g) && !RefusesReplay(g)
    ensures Execution(g, ReplayRun(g).0, ReplayRun(g).1)
    ensures ReplayRun(g).0[10].dispatches == 2
  {
    forall k: nat | 0 <= k < 10
      ensures Transits(g, ReplayRun(g).0[k], ReplayRun(g).0[k + 1], ReplayRun(g).1[k])
    {
      ReplayRunStep(g, k);
    }
  }

  /** Whatever else is written blindly, at most one dispatch over every run holds exactly when the replay is not. */
  lemma OneDispatchIffReplayRefused(g: Config)
    requires Configured(g)
    ensures AtMostOneDispatch(g) <==> RefusesReplay(g)
  {
    if RefusesReplay(g) {
      forall ws: seq<World>, steps | Execution(g, ws, steps) ensures ws[|steps|].dispatches <= 1 {
        SafeThroughout(g, ws, steps, |steps|);
      }
    } else {
      ReplayRunDispatchesTwice(g);
      var run := ReplayRun(g);
      assert Execution(g, run.0, run.1) && run.0[|run.1|].dispatches == 2;
    }
  }
}
