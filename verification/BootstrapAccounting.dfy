/**
 * Call accounting of one bootstrap invocation (src/d1_migration_bootstrap.rs).
 * Answers of the provider and of the custody directory are parameters; every
 * combination of them is covered.
 */
module BootstrapAccounting {
  import opened Prelude
  import opened LeasePlaces

  datatype InventoryState = Empty | CanonicalLedger | Conflicting

  datatype Inventory = Inventory(state: InventoryState, objects: seq<Bytes>)

  /** One read as it is reported: its phase, and whether the request left this machine. */
  datatype Evidence = Evidence(phase: string, attempted: bool, decoded: bool)

  datatype ReadAnswer<V> = Answered(attempted: bool, value: Option<V>) | Unavailable(attempted: bool)

  datatype WriteAnswer = Acknowledged(attempted: bool, proven: bool) | Failed(attempted: bool)

  datatype StableRead<V> = StableRead(value: V, calls: nat, evidence: seq<Evidence>)

  datatype ReadFailure = ReadFailure(code: string, calls: nat, evidence: seq<Evidence>)

  type ReadResult<V> = Result<StableRead<V>, ReadFailure>

  datatype PostState = PostState(inventory: Inventory, ledger: seq<Bytes>)

  datatype Outcome = NotDispatched | Unknown | AcknowledgedUnproven | AppliedProven

  datatype Report = Report(
    ok: bool,
    outcome: Outcome,
    providerCalls: nat,
    providerMutations: nat,
    evidence: seq<Evidence>,
    leaseRetained: Option<bool>)

  function One(b: bool): nat {
    if b then 1 else 0
  }

  /** The entries whose request was attempted. */
  function Attempted(es: seq<Evidence>): nat {
    if es == [] then 0 else Attempted(es[..|es| - 1]) + One(es[|es| - 1].attempted)
  }

  lemma {:induction false} AttemptedAppend(a: seq<Evidence>, b: seq<Evidence>)
    ensures Attempted(a + b) == Attempted(a) + Attempted(b)
  {
    if b == [] {
      assert a + b == a;
    } else {
      assert (a + b)[..|a + b| - 1] == a + b[..|b| - 1];
      AttemptedAppend(a, b[..|b| - 1]);
    }
  }

  /** The operator is told that nothing was dispatched and a fresh dry run may follow. */
  predicate Blocked(r: Report) {
    !r.ok && r.providerMutations == 0 && r.leaseRetained != Some(true)
  }

  /** The provider, with the requests that really left this machine counted. */
  class Provider {
    const inventories: nat -> ReadAnswer<Inventory>
    const ledgers: nat -> ReadAnswer<seq<Bytes>>
    const write: WriteAnswer
    var asked: nat
    var sent: nat
    var written: nat

    constructor (inventories: nat -> ReadAnswer<Inventory>, ledgers: nat -> ReadAnswer<seq<Bytes>>, write: WriteAnswer)
      ensures sent == 0 && written == 0
    {
      this.inventories, this.ledgers, this.write := inventories, ledgers, write;
      asked, sent, written := 0, 0, 0;
    }

    method QueryInventory() returns (a: ReadAnswer<Inventory>)
      modifies this
      ensures sent == old(sent) + One(a.attempted) && written == old(written)
    {
      a := inventories(asked);
      asked, sent := asked + 1, sent + One(a.attempted);
    }

    method QueryLedger() returns (a: ReadAnswer<seq<Bytes>>)
      modifies this
      ensures sent == old(sent) + One(a.attempted) && written == old(written)
    {
      a := ledgers(asked);
      asked, sent := asked + 1, sent + One(a.attempted);
    }

    method ExecuteInitializer() returns (a: WriteAnswer)
      modifies this
      ensures sent == old(sent) + One(a.attempted) && written == old(written) + One(a.attempted)
    {
      a := write;
      sent, written := sent + One(a.attempted), written + One(a.attempted);
    }
  }

  /** The effects an invocation has on the custody directory, each of which may fail. */
  datatype CustodyOp =
    | CheckTarget
    | CreateEntry
    | IdentifyEntry
    | SecureEntry
    | WriteEntry
    | SyncPayload
    | SyncEntry
    | ReadBack
    | AbortRename
    | AbortSync
    | Revalidate
    | RecordAttempt
    | RenameRetiring
    | SyncRetiring
    | RenameRetired
    | SyncRetired
    | RestoreActive
    | RestoreRetiring

  /** One effect, and whether it succeeded. */
  datatype Done = Done(op: CustodyOp, ok: bool)

  /** The lease file of this invocation: its name, and whether its payload is whole. */
  datatype Entry = Entry(place: Place, whole: bool)

  /**
   * The entry keeps other invocations of the target out: under its active or retiring name, and under any name while
   * its payload is not whole, since every invocation reads all lease files first.
   */
  predicate InTheWay(e: Entry) {
    Blocking(e.place) || (e.place != Absent && !e.whole)
  }

  /** What an effect does to the entry. */
  function Changed(e: Entry, d: Done): Entry {
    if !d.ok then e
    else
      match d.op
      case CreateEntry => Entry(Active, false)
      case WriteEntry => e.(whole := true)
      case AbortRename => e.(place := Aborted)
      case RenameRetiring => e.(place := Retiring)
      case RenameRetired => e.(place := Retired)
      case RestoreActive => e.(place := Active)
      case RestoreRetiring => e.(place := Retiring)
      case _ => e
  }

  function EntryAfter(log: seq<Done>): Entry {
    if log == [] then Entry(Absent, false) else Changed(EntryAfter(log[..|log| - 1]), log[|log| - 1])
  }

  /**
   * What acquiring does from the `at`-th effect on: create and identify the entry, settle it, or take it away again.
   */
  function Acquiring(answers: nat -> bool, at: nat): seq<Done> {
    if !answers(at) then [Done(CreateEntry, false)]
    else if !answers(at + 1) then [Done(CreateEntry, true), Done(IdentifyEntry, false)]
    else [Done(CreateEntry, true), Done(IdentifyEntry, true)] + Settling(answers, at + 2)
  }

  /** Make the entry private, write and sync its payload, sync the directory, and read everything back. */
  function Settling(answers: nat -> bool, at: nat): seq<Done> {
    if !answers(at) then [Done(SecureEntry, false)] + Aborting(answers, at + 1)
    else if !answers(at + 1) then [Done(SecureEntry, true), Done(WriteEntry, false)] + Aborting(answers, at + 2)
    else [Done(SecureEntry, true), Done(WriteEntry, true)] + Anchoring(answers, at + 2)
  }

  function Anchoring(answers: nat -> bool, at: nat): seq<Done> {
    if !answers(at) then [Done(SyncPayload, false)] + Aborting(answers, at + 1)
    else if !answers(at + 1) then [Done(SyncPayload, true), Done(SyncEntry, false)] + Aborting(answers, at + 2)
    else if !answers(at + 2) then
      [Done(SyncPayload, true), Done(SyncEntry, true), Done(ReadBack, false)] + Aborting(answers, at + 3)
    else [Done(SyncPayload, true), Done(SyncEntry, true), Done(ReadBack, true)]
  }

  /** Taking the entry away looks neither at its payload nor, once it is renamed, at anything else. */
  function Aborting(answers: nat -> bool, at: nat): seq<Done> {
    if !answers(at) then [Done(AbortRename, false)] else [Done(AbortRename, true), Done(AbortSync, answers(at + 1))]
  }

  const ACQUIRED: seq<Done> :=
    [Done(CreateEntry, true), Done(IdentifyEntry, true), Done(SecureEntry, true), Done(WriteEntry, true),
     Done(SyncPayload, true), Done(SyncEntry, true), Done(ReadBack, true)]

  /** What releasing does: two renames, each synced; when a sync fails the evidence is put back as far as possible. */
  function Releasing(answers: nat -> bool, at: nat): seq<Done> {
    if !answers(at) then [Done(Revalidate, false)]
    else if !answers(at + 1) then [Done(Revalidate, true), Done(RenameRetiring, false)]
    else if !answers(at + 2) then
      [Done(Revalidate, true), Done(RenameRetiring, true), Done(SyncRetiring, false),
       Done(RestoreActive, answers(at + 3))]
    else [Done(Revalidate, true), Done(RenameRetiring, true), Done(SyncRetiring, true)] + Retirement(answers, at + 3)
  }

  /** The second rename of a release; if its sync fails, back to the active or at least to the retiring place. */
  function Retirement(answers: nat -> bool, at: nat): seq<Done> {
    if !answers(at) then [Done(RenameRetired, false)]
    else if answers(at + 1) then [Done(RenameRetired, true), Done(SyncRetired, true)]
    else if answers(at + 2) then [Done(RenameRetired, true), Done(SyncRetired, false), Done(RestoreActive, true)]
    else
      [Done(RenameRetired, true), Done(SyncRetired, false), Done(RestoreActive, false),
       Done(RestoreRetiring, answers(at + 3))]
  }

  /** Acquiring failed with an entry that was not written whole, or that could not be taken away. */
  predicate EntryLeft(log: seq<Done>) {
    || Done(IdentifyEntry, false) in log || Done(SecureEntry, false) in log || Done(WriteEntry, false) in log
    || Done(AbortRename, false) in log
  }

  lemma LeftByAbort(before: seq<Done>, aborting: seq<Done>)
    requires !EntryLeft(before)
    ensures EntryLeft(before + aborting) <==> EntryLeft(aborting)
  {
  }

  /** The evidence was renamed for good although releasing failed, and it could not be put back. */
  predicate EvidenceGone(log: seq<Done>) {
    Done(RestoreRetiring, false) in log
  }

  /** The custody directory, with what was done to it. */
  class Custody {
    const answers: nat -> bool
    var log: seq<Done>
    var entry: Entry

    ghost predicate Valid()
      reads this
    {
      entry == EntryAfter(log)
    }

    constructor (answers: nat -> bool)
      ensures Valid() && log == [] && this.answers == answers
    {
      this.answers := answers;
      log, entry := [], Entry(Absent, false);
    }

    method Perform(op: CustodyOp) returns (ok: bool)
      requires Valid()
      modifies this
      ensures Valid() && log == old(log) + [Done(op, ok)] && ok == answers(|old(log)|)
      ensures entry == Changed(old(entry), Done(op, ok))
    {
      ok := answers(|log|);
      ghost var before := log;
      log, entry := log + [Done(op, ok)], Changed(entry, Done(op, ok));
      assert log[..|log| - 1] == before;
    }

    lemma Untouched()
      requires Valid() && log == []
      ensures entry == Entry(Absent, false)
    {
    }

    method Acquire() returns (ok: bool)
      requires Valid() && entry == Entry(Absent, false)
      modifies this
      ensures Valid() && log == old(log) + Acquiring(answers, |old(log)|)
      ensures ok <==> Acquiring(answers, |old(log)|) == ACQUIRED
      ensures if ok then entry == Entry(Active, true) else InTheWay(entry) <==>
                EntryLeft(Acquiring(answers, |old(log)|))
    {
      hide EntryAfter, Settling;
      ok := Perform(CreateEntry);
      if !ok {
        return;
      }
      ok := Perform(IdentifyEntry);
      if !ok {
        return;
      }
      ok := Settle();
    }

    method Settle() returns (ok: bool)
      requires Valid() && entry == Entry(Active, false)
      modifies this
      ensures Valid() && log == old(log) + Settling(answers, |old(log)|)
      ensures ok <==> Settling(answers, |old(log)|) == ACQUIRED[2..]
      ensures if ok then entry == Entry(Active, true) else InTheWay(entry) <==> EntryLeft(Settling(answers, |old(log)|))
    {
      hide EntryAfter, Anchoring;
      ghost var all := Settling(answers, |log|);
      ok := Perform(SecureEntry);
      if !ok {
        Abort();
        assert all[0] == Done(SecureEntry, false);
        return;
      }
      ok := Perform(WriteEntry);
      if !ok {
        Abort();
        assert all[1] == Done(WriteEntry, false);
        return;
      }
      ok := Anchor();
    }

    method Anchor() returns (ok: bool)
      requires Valid() && entry == Entry(Active, true)
      modifies this
      ensures Valid() && log == old(log) + Anchoring(answers, |old(log)|)
      ensures ok <==> Anchoring(answers, |old(log)|) == ACQUIRED[4..]
      ensures if ok then entry == Entry(Active, true) else InTheWay(entry) <==>
                EntryLeft(Anchoring(answers, |old(log)|))
    {
      hide EntryAfter, Aborting;
      ghost var all := Anchoring(answers, |log|);
      ok := Perform(SyncPayload);
      if !ok {
        assert all[0] == Done(SyncPayload, false);
        LeftByAbort([Done(SyncPayload, false)], Aborting(answers, |log|));
        Abort();
        return;
      }
      ok := Perform(SyncEntry);
      if !ok {
        assert all[1] == Done(SyncEntry, false);
        LeftByAbort([Done(SyncPayload, true), Done(SyncEntry, false)], Aborting(answers, |log|));
        Abort();
        return;
      }
      ok := Perform(ReadBack);
      if !ok {
        assert all[2] == Done(ReadBack, false);
        LeftByAbort([Done(SyncPayload, true), Done(SyncEntry, true), Done(ReadBack, false)], Aborting(answers, |log|));
        Abort();
      }
    }

    method Abort()
      requires Valid() && entry.place == Active
      modifies this
      ensures Valid() && log == old(log) + Aborting(answers, |old(log)|)
      ensures entry == Entry(if EntryLeft(Aborting(answers, |old(log)|)) then Active else Aborted, old(entry.whole))
    {
      hide EntryAfter;
      var renamed := Perform(AbortRename);
      if renamed {
        var _ := Perform(AbortSync);
      }
    }

    method Release() returns (ok: bool)
      requires Valid() && entry == Entry(Active, true)
      modifies this
      ensures Valid() && log == old(log) + Releasing(answers, |old(log)|)
      ensures ok <==> Done(SyncRetired, true) in Releasing(answers, |old(log)|)
      ensures if ok then entry == Entry(Retired, true) else InTheWay(entry) <==>
                !EvidenceGone(Releasing(answers, |old(log)|))
    {
      hide EntryAfter;
      ok := Perform(Revalidate);
      if !ok {
        return;
      }
      ok := Perform(RenameRetiring);
      if !ok {
        return;
      }
      ok := Perform(SyncRetiring);
      if !ok {
        var _ := Perform(RestoreActive);
        return;
      }
      ok := Retire();
    }

    method Retire() returns (ok: bool)
      requires Valid() && entry == Entry(Retiring, true)
      modifies this
      ensures Valid() && log == old(log) + Retirement(answers, |old(log)|)
      ensures ok <==> Done(SyncRetired, true) in Retirement(answers, |old(log)|)
      ensures if ok then entry == Entry(Retired, true) else InTheWay(entry) <==>
                !EvidenceGone(Retirement(answers, |old(log)|))
    {
      hide EntryAfter;
      ok := Perform(RenameRetired);
      if !ok {
        return;
      }
      ok := Perform(SyncRetired);
      if !ok {
        var restored := Perform(RestoreActive);
        if !restored {
          var _ := Perform(RestoreRetiring);
        }
      }
    }
  }

  function CallsOf<V>(r: ReadResult<V>): nat {
    match r case Ok(read) => read.calls case Err(failure) => failure.calls
  }

  function EvidenceOf<V>(r: ReadResult<V>): seq<Evidence> {
    match r case Ok(read) => read.evidence case Err(failure) => failure.evidence
  }

  /** Calls counted are calls shown. */
  predicate Accounted<V>(r: ReadResult<V>) {
    CallsOf(r) == Attempted(EvidenceOf(r))
  }

  lemma OneEntry(e: Evidence)
    ensures Attempted([e]) == One(e.attempted)
  {
    assert [e][..0] == [];
  }

  /** One answer, decoded or refused, with its one piece of evidence. */
  function Decode<V>(phase: string, a: ReadAnswer<V>): ReadResult<V> {
    match a
    case Answered(attempted, Some(v)) => Ok(StableRead(v, One(attempted), [Evidence(phase, attempted, true)]))
    case Answered(attempted, None) => Err(ReadFailure("malformed", One(attempted), [Evidence(phase, attempted, false)]))
    case Unavailable(attempted) => Err(ReadFailure("unavailable", One(attempted), [Evidence(phase, attempted, false)]))
  }

  lemma DecodeAccounted<V>(phase: string, a: ReadAnswer<V>)
    ensures Accounted(Decode(phase, a)) && CallsOf(Decode(phase, a)) == One(a.attempted)
            && |EvidenceOf(Decode(phase, a))| == 1
  {
    OneEntry(EvidenceOf(Decode(phase, a))[0]);
  }

  /** Two reads have to agree; the calls and evidence of both are kept either way. */
  function Agree<V(==)>(first: StableRead<V>, second: ReadResult<V>, code: string): ReadResult<V> {
    match second
    case Err(failure) => Err(ReadFailure(failure.code, first.calls + failure.calls, first.evidence + failure.evidence))
    case Ok(again) =>
      if first.value != again.value
        then Err(ReadFailure(code, first.calls + again.calls, first.evidence + again.evidence))
      else Ok(StableRead(first.value, first.calls + again.calls, first.evidence + again.evidence))
  }

  lemma AgreeAccounted<V>(first: StableRead<V>, second: ReadResult<V>, code: string)
    requires Accounted(Ok(first)) && Accounted(second)
    ensures Accounted(Agree(first, second, code))
            && CallsOf(Agree(first, second, code)) == first.calls + CallsOf(second)
    ensures |EvidenceOf(Agree(first, second, code))| == |first.evidence| + |EvidenceOf(second)|
    ensures Agree(first, second, code).Ok? ==> second.Ok? && second.value.value == first.value
  {
    AttemptedAppend(first.evidence, EvidenceOf(second));
  }

  method ReadInventoryOnce(p: Provider, phase: string) returns (r: ReadResult<Inventory>)
    modifies p
    ensures Accounted(r) && p.sent == old(p.sent) + CallsOf(r) && p.written == old(p.written) && |EvidenceOf(r)| == 1
  {
    var a := p.QueryInventory();
    DecodeAccounted(phase, a);
    r := Decode(phase, a);
  }

  method ReadStableInventory(p: Provider, window: string) returns (r: ReadResult<Inventory>)
    modifies p
    ensures Accounted(r) && p.sent == old(p.sent) + CallsOf(r) && p.written == old(p.written)
    ensures r.Ok? ==> |r.value.evidence| == 2
  {
    var first := ReadInventoryOnce(p, window + ".inventory.first");
    if first.Err? {
      return first;
    }
    var second := ReadInventoryOnce(p, window + ".inventory.second");
    AgreeAccounted(first.value, second, "inventory_unstable");
    r := Agree(first.value, second, "inventory_unstable");
  }

  method ReadLedgerOnce(p: Provider, phase: string) returns (r: ReadResult<seq<Bytes>>)
    modifies p
    ensures Accounted(r) && p.sent == old(p.sent) + CallsOf(r) && p.written == old(p.written) && |EvidenceOf(r)| == 1
  {
    var a := p.QueryLedger();
    DecodeAccounted(phase, a);
    r := Decode(phase, a);
  }

  method ReadStableEmptyLedger(p: Provider, window: string) returns (r: ReadResult<seq<Bytes>>)
    modifies p
    ensures Accounted(r) && p.sent == old(p.sent) + CallsOf(r) && p.written == old(p.written)
    ensures r.Ok? ==> |r.value.evidence| == 2 && r.value.value == []
  {
    var first := ReadLedgerOnce(p, window + ".ledger.first");
    if first.Err? {
      return first;
    }
    var second := ReadLedgerOnce(p, window + ".ledger.second");
    AgreeAccounted(first.value, second, "ledger_unstable");
    r := Agree(first.value, second, "ledger_unstable");
    if r.Ok? && r.value.value != [] {
      r := Err(ReadFailure("ledger_not_empty", r.value.calls, r.value.evidence));
    }
  }

  method ReadStablePostState(p: Provider) returns (r: ReadResult<PostState>)
    modifies p
    ensures Accounted(r) && p.sent == old(p.sent) + CallsOf(r) && p.written == old(p.written)
    ensures r.Ok? ==>
              && |r.value.evidence| == 4
              && r.value.value.inventory.state == CanonicalLedger && r.value.value.ledger == []
  {
    var inventory := ReadStableInventory(p, "post_write_proof");
    if inventory.Err? {
      return Err(inventory.error);
    }
    var seen := inventory.value;
    if seen.value.state != CanonicalLedger {
      return Err(ReadFailure("post_schema_invalid", seen.calls, seen.evidence));
    }
    var ledger := ReadStableEmptyLedger(p, "post_write_proof");
    AttemptedAppend(seen.evidence, EvidenceOf(ledger));
    if ledger.Err? {
      return Err(ReadFailure(ledger.error.code, ledger.error.calls + seen.calls,
                             seen.evidence + ledger.error.evidence));
    }
    return Ok(StableRead(PostState(seen.value, ledger.value.value), seen.calls + ledger.value.calls,
                         seen.evidence + ledger.value.evidence));
  }

  /** Evidence after an unclear write; whatever it finds, its calls are accounted for. */
  method ReconciliationEvidence(p: Provider) returns (calls: nat, evidence: seq<Evidence>)
    modifies p
    ensures calls == Attempted(evidence) && p.sent == old(p.sent) + calls && p.written == old(p.written)
  {
    var inventory := ReadStableInventory(p, "ambiguous_write_reconciliation");
    calls, evidence := CallsOf(inventory), EvidenceOf(inventory);
    if inventory.Ok? && inventory.value.value.state == CanonicalLedger {
      var ledger := ReadStableEmptyLedger(p, "ambiguous_write_reconciliation");
      AttemptedAppend(evidence, EvidenceOf(ledger));
      calls, evidence := calls + CallsOf(ledger), evidence + EvidenceOf(ledger);
    }
  }

  /** Calls reported are the reads shown as attempted and the mutations, of which there is at most one. */
  predicate Balanced(r: Report) {
    r.providerCalls == Attempted(r.evidence) + r.providerMutations && r.providerMutations <= 1
  }

  /** Reading the target until it is known to be empty. */
  method Preflight(p: Provider, window: string) returns (empty: bool, calls: nat, evidence: seq<Evidence>)
    modifies p
    ensures calls == Attempted(evidence) && p.sent == old(p.sent) + calls && p.written == old(p.written)
    ensures empty ==> |evidence| == 2
  {
    var inventory := ReadStableInventory(p, window);
    calls, evidence := CallsOf(inventory), EvidenceOf(inventory);
    empty := inventory.Ok? && inventory.value.value.state == Empty;
  }

  /** The target is free and the lease is acquired. */
  predicate Opens(answers: nat -> bool) {
    answers(0) && Acquiring(answers, 1) == ACQUIRED
  }

  /** The effects on custody up to the acquired lease, or up to the failure to acquire it. */
  function Opening(answers: nat -> bool): seq<Done> {
    if !answers(0) then [Done(CheckTarget, false)] else [Done(CheckTarget, true)] + Acquiring(answers, 1)
  }

  const OPENED: seq<Done> := [Done(CheckTarget, true)] + ACQUIRED

  /** What has to be done before the initializer may be sent. */
  const BEFORE_DISPATCH: seq<Done> :=
    OPENED + [Done(Revalidate, true), Done(Revalidate, true), Done(RecordAttempt, true)]

  /**
   * What is reported of the lease is true of the directory, unless acquiring left an entry behind or releasing lost
   * it, and then it is false. It is left open only when the lease could not be validated.
   */
  predicate LeaseTold(r: Report, log: seq<Done>, entry: Entry) {
    match r.leaseRetained
    case Some(retained) => retained == InTheWay(entry) <==> !EntryLeft(log) && !EvidenceGone(log)
    case None => log != [] && log[|log| - 1] == Done(Revalidate, false)
  }

  /** A lease held and nothing gone wrong with it so far. */
  predicate Sound(log: seq<Done>, entry: Entry) {
    entry == Entry(Active, true) && !EntryLeft(log) && !EvidenceGone(log) && Done(SyncRetired, true) !in log
  }

  /** Releasing after a sound log: what went wrong is what went wrong in releasing. */
  lemma SoundThenReleasing(log: seq<Done>, answers: nat -> bool, at: nat)
    requires !EntryLeft(log) && !EvidenceGone(log) && Done(SyncRetired, true) !in log
    ensures var all := log + Releasing(answers, at);
            && !EntryLeft(all) && (EvidenceGone(all) <==> EvidenceGone(Releasing(answers, at)))
            && (Done(SyncRetired, true) in all <==> Done(SyncRetired, true) in Releasing(answers, at))
    ensures Done(SyncRetired, true) in Releasing(answers, at) ==> !EvidenceGone(Releasing(answers, at))
  {
    var all, releasing := log + Releasing(answers, at), Releasing(answers, at);
    assert forall d :: d in all <==> d in log || d in releasing;
  }

  /** A lease given up before any dispatch; a failure to give it up is reported as a retained lease. */
  method GiveUp(c: Custody, calls: nat, evidence: seq<Evidence>) returns (r: Report)
    requires calls == Attempted(evidence) && c.Valid() && Sound(c.log, c.entry)
    modifies c
    ensures Balanced(r) && !r.ok && r.outcome == NotDispatched && r.providerCalls == calls && r.providerMutations == 0
    ensures r.evidence == evidence && r.leaseRetained.Some? && LeaseTold(r, c.log, c.entry)
    ensures c.Valid() && c.log == old(c.log) + Releasing(c.answers, |old(c.log)|)
    ensures r.leaseRetained == Some(Done(SyncRetired, true) !in Releasing(c.answers, |old(c.log)|))
  {
    hide EntryAfter, Releasing, EntryLeft, EvidenceGone;
    SoundThenReleasing(c.log, c.answers, |c.log|);
    var released := c.Release();
    r := Report(false, NotDispatched, calls, 0, evidence, Some(!released));
  }

  /** A lease kept after a failure; whether it is still there is reported only if it can be told. */
  method Keep(c: Custody, outcome: Outcome, calls: nat, mutations: nat, evidence: seq<Evidence>) returns (r: Report)
    requires c.Valid() && Sound(c.log, c.entry)
    modifies c
    ensures !r.ok && r.outcome == outcome && r.providerCalls == calls && r.providerMutations == mutations
    ensures r.evidence == evidence && LeaseTold(r, c.log, c.entry)
    ensures exists still :: c.log == old(c.log) + [Done(Revalidate, still)]
    ensures c.Valid() && c.entry == Entry(Active, true)
  {
    var still := c.Perform(Revalidate);
    r := Report(false, outcome, calls, mutations, evidence, if still then Some(true) else None);
  }

  /** From the dispatch on. */
  method DispatchAndProve(p: Provider, c: Custody, calls: nat, evidence: seq<Evidence>) returns (r: Report)
    requires calls == Attempted(evidence) && p as object != c as object
    requires c.Valid() && Sound(c.log, c.entry)
    modifies p, c
    ensures Balanced(r) && p.written == old(p.written) + r.providerMutations
    ensures p.sent == old(p.sent) + r.providerCalls - calls
    ensures r.ok ==> r.outcome == AppliedProven && |r.evidence| == |evidence| + 4
    ensures r.outcome != NotDispatched && LeaseTold(r, c.log, c.entry)
    ensures c.Valid() && old(c.log) <= c.log && (r.ok <==> Done(SyncRetired, true) in c.log)
  {
    var write := p.ExecuteInitializer();
    var mutations := One(write.attempted);
    if write.Failed? || !write.proven {
      var moreCalls, moreEvidence := ReconciliationEvidence(p);
      AttemptedAppend(evidence, moreEvidence);
      r := Keep(c, Unknown, calls + mutations + moreCalls, mutations, evidence + moreEvidence);
      return;
    }
    var post := ReadStablePostState(p);
    AttemptedAppend(evidence, EvidenceOf(post));
    var total, shown := calls + mutations + CallsOf(post), evidence + EvidenceOf(post);
    if post.Err? {
      r := Keep(c, AcknowledgedUnproven, total, mutations, shown);
      return;
    }
    r := CloseLease(c, total, mutations, shown);
  }

  /** The outcome is proven; what is left is to release the lease. */
  method CloseLease(c: Custody, calls: nat, mutations: nat, evidence: seq<Evidence>) returns (r: Report)
    requires c.Valid() && Sound(c.log, c.entry)
    modifies c
    ensures r.outcome == AppliedProven && r.providerCalls == calls && r.providerMutations == mutations
    ensures r.evidence == evidence && LeaseTold(r, c.log, c.entry)
    ensures c.Valid() && old(c.log) <= c.log && (r.ok <==> Done(SyncRetired, true) in c.log)
  {
    hide EntryAfter;
    var valid := c.Perform(Revalidate);
    if !valid {
      return Report(false, AppliedProven, calls, mutations, evidence, None);
    }
    hide Releasing, EntryLeft, EvidenceGone;
    SoundThenReleasing(c.log, c.answers, |c.log|);
    var released := c.Release();
    if !released {
      return Report(false, AppliedProven, calls, mutations, evidence, Some(true));
    }
    return Report(true, AppliedProven, calls, mutations, evidence, Some(false));
  }

  /** Acquiring neither releases anything nor, when it succeeds, leaves anything behind. */
  lemma AcquiringOnly(answers: nat -> bool, at: nat)
    ensures !EvidenceGone(Acquiring(answers, at)) && Done(SyncRetired, true) !in Acquiring(answers, at)
    ensures !EntryLeft(ACQUIRED) && !EvidenceGone(ACQUIRED)
  {
  }

  /** Look whether the target is free, and acquire its lease. */
  method OpenLease(c: Custody) returns (ok: bool)
    requires c.Valid() && c.log == []
    modifies c
    ensures c.Valid() && c.log == Opening(c.answers) && (ok <==> Opens(c.answers))
    ensures ok ==> c.log == OPENED && Sound(c.log, c.entry)
    ensures !EvidenceGone(c.log) && Done(SyncRetired, true) !in c.log
    ensures !ok ==> (InTheWay(c.entry) <==> EntryLeft(c.log))
  {
    hide EntryAfter, Acquiring;
    AcquiringOnly(c.answers, 1);
    c.Untouched();
    ok := c.Perform(CheckTarget);
    if ok {
      ok := c.Acquire();
    }
  }

  /** Acquired, and read as empty or not: release unless both the target and the plan are as approved. */
  method HoldLease(p: Provider, c: Custody, planMatches: bool) returns (r: Report)
    requires p as object != c as object
    requires c.Valid() && c.log == OPENED && Sound(c.log, c.entry)
    modifies p, c
    ensures Balanced(r) && p.sent == old(p.sent) + r.providerCalls && p.written == old(p.written) + r.providerMutations
    ensures !planMatches || r.outcome == NotDispatched ==> r.providerMutations == 0
    ensures r.ok ==> planMatches && |r.evidence| == 6 && r.outcome == AppliedProven
    ensures p.written > old(p.written) ==> BEFORE_DISPATCH <= c.log
    ensures c.Valid() && LeaseTold(r, c.log, c.entry)
    ensures Done(SyncRetired, true) in c.log ==> r.ok || r.outcome == NotDispatched
    ensures !planMatches && c.answers(|OPENED|) ==>
              && c.log == OPENED + [Done(Revalidate, true)] + Releasing(c.answers, |OPENED| + 1)
              && r.leaseRetained == Some(Done(SyncRetired, true) !in Releasing(c.answers, |OPENED| + 1))
  {
    var valid := c.Perform(Revalidate);
    if !valid {
      return Report(false, NotDispatched, 0, 0, [], None);
    }
    var empty, calls, evidence := Preflight(p, "live_predispatch");
    if !empty || !planMatches {
      r := GiveUp(c, calls, evidence);
      return;
    }
    valid := c.Perform(Revalidate);
    if !valid {
      return Report(false, NotDispatched, calls, 0, evidence, None);
    }
    var recorded := c.Perform(RecordAttempt);
    if !recorded {
      r := Keep(c, NotDispatched, calls, 0, evidence);
      return;
    }
    r := DispatchAndProve(p, c, calls, evidence);
  }

  /** The whole invocation. `planMatches` says whether the approved digest is the one computed here. */
  method ExecuteBootstrap(p: Provider, c: Custody, dryRun: bool, planMatches: bool) returns (r: Report)
    requires p as object != c as object && c.Valid() && c.log == []
    modifies p, c
    ensures Balanced(r)
    ensures p.sent == old(p.sent) + r.providerCalls && p.written == old(p.written) + r.providerMutations
    ensures dryRun || !planMatches || r.outcome == NotDispatched ==> r.providerMutations == 0
    ensures r.ok ==>
              if dryRun then |r.evidence| == 2 && r.outcome == NotDispatched
              else planMatches && |r.evidence| == 6 && r.outcome == AppliedProven
    ensures Blocked(r) ==> p.written == old(p.written)
    ensures p.written > old(p.written) ==> BEFORE_DISPATCH <= c.log
    ensures c.Valid() && LeaseTold(r, c.log, c.entry) && (dryRun ==> c.log == [])
    ensures !dryRun && Done(SyncRetired, true) in c.log ==> r.ok || r.outcome == NotDispatched
    ensures !dryRun && !Opens(c.answers) ==> c.log == Opening(c.answers) && !r.ok && r.leaseRetained == Some(false)
    ensures !dryRun && !planMatches && Opens(c.answers) && c.answers(|OPENED|) ==>
              && c.log == OPENED + [Done(Revalidate, true)] + Releasing(c.answers, |OPENED| + 1)
              && r.leaseRetained == Some(Done(SyncRetired, true) !in Releasing(c.answers, |OPENED| + 1))
  {
    if dryRun {
      c.Untouched();
      var empty, calls, evidence := Preflight(p, "dry_run_preflight");
      return Report(empty, NotDispatched, calls, 0, evidence, Some(false));
    }
    var acquired := OpenLease(c);
    if !acquired {
      return Report(false, NotDispatched, 0, 0, [], Some(false));
    }
    r := HoldLease(p, c, planMatches);
  }

  // ---- Reports that are not true of the directory ----

  /**
   * Creating the entry succeeds and telling its identity fails: the entry blocks the target, reported as not
   * retained.
   */
  method LeaseLeftUnreported(p: Provider) returns (r: Report, c: Custody)
    modifies p
    ensures !r.ok && Blocked(r) && r.leaseRetained == Some(false) && InTheWay(c.entry)
  {
    var answers := (n: nat) => n < 2;
    c := new Custody(answers);
    assert Opening(answers) == [Done(CheckTarget, true), Done(CreateEntry, true), Done(IdentifyEntry, false)];
    r := ExecuteBootstrap(p, c, false, true);
  }

  /**
   * Writing the payload fails and taking the entry away succeeds: the entry is aborted and not whole, so every later
   * invocation of the target is refused, and it is reported as not retained.
   */
  method BrokenEntryUnreported(p: Provider) returns (r: Report, c: Custody)
    modifies p
    ensures !r.ok && Blocked(r) && r.leaseRetained == Some(false)
    ensures c.entry == Entry(Aborted, false) && InTheWay(c.entry)
  {
    var answers := (n: nat) => n != 4;
    c := new Custody(answers);
    r := ExecuteBootstrap(p, c, false, true);
    BrokenEntry(answers);
  }

  lemma BrokenEntry(answers: nat -> bool)
    requires forall n :: answers(n) <==> n != 4
    ensures !Opens(answers) && EntryAfter(Opening(answers)) == Entry(Aborted, false)
  {
    var log := Opening(answers);
    assert Settling(answers, 3) ==
           [Done(SecureEntry, true), Done(WriteEntry, false), Done(AbortRename, true), Done(AbortSync, true)];
    assert log == [Done(CheckTarget, true), Done(CreateEntry, true), Done(IdentifyEntry, true), Done(SecureEntry, true),
                   Done(WriteEntry, false), Done(AbortRename, true), Done(AbortSync, true)];
    var created := [Done(CheckTarget, true), Done(CreateEntry, true)];
    assert created[..1] == [Done(CheckTarget, true)] && [Done(CheckTarget, true)][..0] == [];
    var identified := OneMore(created, Done(IdentifyEntry, true));
    var secured := OneMore(identified, Done(SecureEntry, true));
    var failed := OneMore(secured, Done(WriteEntry, false));
    var renamed := OneMore(failed, Done(AbortRename, true));
    var all := OneMore(renamed, Done(AbortSync, true));
    assert all == log;
  }

  lemma OneMore(log: seq<Done>, d: Done) returns (more: seq<Done>)
    ensures more == log + [d] && EntryAfter(more) == Changed(EntryAfter(log), d)
  {
    more := log + [d];
    assert more[..|log|] == log;
  }

  /** The last sync of a release and both ways back fail: nothing blocks the target, reported as retained. */
  method LeaseGoneReportedRetained(p: Provider) returns (r: Report, c: Custody)
    modifies p
    ensures !r.ok && r.leaseRetained == Some(true) && !InTheWay(c.entry)
  {
    var answers := (n: nat) => n < 13;
    c := new Custody(answers);
    r := ExecuteBootstrap(p, c, false, false);
    var released := Releasing(answers, |OPENED| + 1);
    assert released[|released| - 1] == Done(RestoreRetiring, false);
    assert c.log[|c.log| - 1] == Done(RestoreRetiring, false);
  }
}
