/**
 * Runs of bootstrap, finalize and abort from an untouched target, each of which ends with nobody running and the
 * target blocked for good (src/d1_migration_lease.rs, src/d1_migration_bootstrap_recovery.rs).
 */
module BlockedTargets {
  import opened Prelude
  import opened LeasePlaces
  import opened BootstrapProtocol
  import opened ReceiptCustody
  import opened BootstrapRecovery

  /** A run that ends with nobody running and no way to make the target free again. */
  ghost predicate Blocked(ws: seq<World>, steps: seq<Step>) {
    Execution(ws, steps) && ws[0].db == Empty && ws[|steps|].proc == Nobody && !CanFree(ws[|steps|])
  }

  /** A run on one lease, with the database as it is now. */
  ghost predicate OneLease(ws: seq<World>, steps: seq<Step>, l: Lease, db: Database, proc: Proc) {
    Execution(ws, steps) && ws[0].db == Empty && ws[|steps|] == World([l], db, proc)
  }

  lemma GoesOn(ws: seq<World>, steps: seq<Step>, l: Lease, db: Database, proc: Proc, step: Step)
    returns (vs: seq<World>, more: seq<Step>)
    requires OneLease(ws, steps, l, db, proc) && EffectOf(World([l], db, proc), step).Some? && IsEffect(step)
    ensures var e := EffectOf(World([l], db, proc), step).value; OneLease(vs, more, e.lease, e.db, e.proc)
  {
    var e := EffectOf(World([l], db, proc), step).value;
    vs, more := GoesOnTo(ws, steps, step, World([e.lease], e.db, e.proc));
  }

  lemma Crashes(ws: seq<World>, steps: seq<Step>, l: Lease, db: Database, proc: Proc)
    returns (vs: seq<World>, more: seq<Step>)
    requires OneLease(ws, steps, l, db, proc)
    ensures OneLease(vs, more, l, db, Nobody)
  {
    vs, more := GoesOnTo(ws, steps, Crash, World([l], db, Nobody));
  }

  lemma Starts(ws: seq<World>, steps: seq<Step>, l: Lease, db: Database, k: Kind)
    returns (vs: seq<World>, more: seq<Step>)
    requires OneLease(ws, steps, l, db, Nobody) && LeaseWhole(l) && MayStart(l, k) && ReadsAsNeeded(db, k)
    ensures OneLease(vs, more, l, db, Term(0, k, Checked))
  {
    vs, more := GoesOnTo(ws, steps, TermStart(k, 0), World([l], db, Term(0, k, Checked)));
  }

  lemma LosesPower(ws: seq<World>, steps: seq<Step>, l: Lease, db: Database, proc: Proc)
    returns (vs: seq<World>, more: seq<Step>)
    requires OneLease(ws, steps, l, db, proc) && LeastOf(l).place != Active
    ensures OneLease(vs, more, LeastOf(l), db, Nobody)
  {
    var after := WorstLoss(ws[|steps|]);
    SafeThroughout(ws, steps, |steps|);
    WorstLossFollows(ws[|steps|]);
    assert after == World([LeastOf(l)], db, Nobody);
    vs, more := GoesOnTo(ws, steps, PowerLoss(after), after);
  }

  lemma BlockedWith(ws: seq<World>, steps: seq<Step>, l: Lease, db: Database)
    requires OneLease(ws, steps, l, db, Nobody)
    requires !LeaseWhole(l) || (Blocking(l.place) && !Completable(l, db))
    ensures Blocked(ws, steps)
  {
    var w := ws[|steps|];
    SafeThroughout(ws, steps, |steps|);
    FreeableIffRecoverable(w);
    assert w.leases[0] == l;
  }

  // ---- Bootstrap ----

  /** The entry is created. */
  lemma EntryCreated() returns (ws: seq<World>, steps: seq<Step>)
    ensures OneLease(ws, steps, NewLease(), Empty, Boot(0, Creating))
  {
    ws, steps := [World([], Empty, Nobody)], [];
    ws, steps := GoesOnTo(ws, steps, BootStart, World([NewLease()], Empty, Boot(0, Creating)));
  }

  function HeldLease(): Lease {
    Lease(Active, {Active}, Payload(true, true), NoDoc, NoDoc, 0, false, None)
  }

  lemma LeaseHeld() returns (ws: seq<World>, steps: seq<Step>)
    ensures OneLease(ws, steps, HeldLease(), Empty, Boot(0, Holding))
  {
    ws, steps := EntryCreated();
    var l := NewLease();
    ws, steps := GoesOn(ws, steps, l, Empty, Boot(0, Creating), BootWrite);
    ws, steps := GoesOn(ws, steps, l.(payload := Payload(true, true)), Empty, Boot(0, Written), BootCreated);
  }

  function MarkedLease(): Lease {
    HeldLease().(marker := Doc((), true, true, true))
  }

  lemma MarkerOpened() returns (ws: seq<World>, steps: seq<Step>)
    ensures OneLease(ws, steps, HeldLease().(marker := Doc((), false, false, false)), Empty, Boot(0, MarkerOpen))
  {
    ws, steps := LeaseHeld();
    ws, steps := GoesOn(ws, steps, HeldLease(), Empty, Boot(0, Holding), ReadEmpty);
    ws, steps := GoesOn(ws, steps, HeldLease(), Empty, Boot(0, Clear), MarkerCreate);
  }

  lemma MarkerDurable() returns (ws: seq<World>, steps: seq<Step>)
    ensures OneLease(ws, steps, MarkedLease(), Empty, Boot(0, MayDispatch))
  {
    ws, steps := MarkerOpened();
    var l := HeldLease();
    ws, steps := GoesOn(ws, steps, l.(marker := Doc((), false, false, false)), Empty, Boot(0, MarkerOpen), MarkerWrite);
    ws, steps := GoesOn(ws, steps, l.(marker := Doc((), true, true, false)), Empty, Boot(0, MarkerWritten), MarkerSync);
  }

  function SentLease(): Lease {
    MarkedLease().(dispatches := 1)
  }

  lemma InitializerApplied() returns (ws: seq<World>, steps: seq<Step>)
    ensures OneLease(ws, steps, SentLease(), Installed, Boot(0, Sent))
  {
    ws, steps := MarkerDurable();
    ws, steps := GoesOn(ws, steps, MarkedLease(), Empty, Boot(0, MayDispatch), Send(true));
  }

  /** A crash before the payload is written leaves an entry no invocation reads. */
  lemma CrashAfterCreate() returns (ws: seq<World>, steps: seq<Step>)
    ensures Blocked(ws, steps) && ws[|steps|].leases == [NewLease()]
  {
    ws, steps := EntryCreated();
    ws, steps := Crashes(ws, steps, NewLease(), Empty, Boot(0, Creating));
    BlockedWith(ws, steps, NewLease(), Empty);
  }

  /** Taking away an entry whose payload could not be written leaves an aborted entry no invocation reads. */
  lemma AbortedBroken() returns (ws: seq<World>, steps: seq<Step>)
    ensures Blocked(ws, steps) && ws[|steps|].leases != [] && ws[|steps|].leases[0].place == Aborted
  {
    ws, steps := EntryCreated();
    ws, steps := GoesOn(ws, steps, NewLease(), Empty, Boot(0, Creating), BootCreateFails(false, Aborted, true));
    BlockedWith(ws, steps, ws[|steps|].leases[0], Empty);
  }

  /** A marker that could not be written whole. */
  lemma MarkerBroken() returns (ws: seq<World>, steps: seq<Step>)
    ensures Blocked(ws, steps) && ws[|steps|].leases == [HeldLease().(marker := Doc((), false, false, false))]
  {
    ws, steps := MarkerOpened();
    var l := HeldLease().(marker := Doc((), false, false, false));
    ws, steps := GoesOn(ws, steps, l, Empty, Boot(0, MarkerOpen), MarkerWriteFails(false));
    BlockedWith(ws, steps, l, Empty);
  }

  /** A crash between the marker and the dispatch: abort is refused, and finalize has no ledger to prove. */
  lemma CrashAfterMarker() returns (ws: seq<World>, steps: seq<Step>)
    ensures Blocked(ws, steps) && ws[|steps|].leases == [MarkedLease()] && ws[|steps|].db == Empty
  {
    ws, steps := MarkerDurable();
    ws, steps := Crashes(ws, steps, MarkedLease(), Empty, Boot(0, MayDispatch));
    BlockedWith(ws, steps, MarkedLease(), Empty);
  }

  /** A crash between the two renames of a release, after the initializer was proven applied. */
  lemma CrashInRelease() returns (ws: seq<World>, steps: seq<Step>)
    ensures Blocked(ws, steps) && ws[|steps|].db == Installed
    ensures |ws[|steps|].leases| == 1 && ws[|steps|].leases[0].proven && ws[|steps|].leases[0].place == Retiring
  {
    ws, steps := InitializerApplied();
    ws, steps := GoesOn(ws, steps, SentLease(), Installed, Boot(0, Sent), Prove);
    var l := SentLease().(proven := true);
    ws, steps := GoesOn(ws, steps, l, Installed, Boot(0, Proven), ReleaseBegin);
    l := Rename(l, Retiring);
    ws, steps := Crashes(ws, steps, l, Installed, Boot(0, ReleasingRetiring));
    BlockedWith(ws, steps, l, Installed);
  }

  // ---- Finalize on a receipt it did not sync ----

  function UnsyncedLease(): Lease {
    SentLease().(receipt := Doc(Finalize, true, false, false))
  }

  /** A finalize that writes its receipt and fails to sync it. */
  lemma FinalizeWithoutSync() returns (ws: seq<World>, steps: seq<Step>)
    ensures OneLease(ws, steps, UnsyncedLease(), Installed, Nobody)
  {
    ws, steps := InitializerApplied();
    ws, steps := Crashes(ws, steps, SentLease(), Installed, Boot(0, Sent));
    ws, steps := Starts(ws, steps, SentLease(), Installed, Finalize);
    ws, steps := GoesOn(ws, steps, SentLease(), Installed, Term(0, Finalize, Checked), ReceiptCreate);
    var l := SentLease().(receipt := Doc(Finalize, false, false, false));
    ws, steps := GoesOn(ws, steps, l, Installed, Term(0, Finalize, ReceiptOpen), ReceiptWriteFails(true));
  }

  function RetiringUnsynced(): Lease {
    Rename(UnsyncedLease(), Retiring).(retirer := Some(Finalize))
  }

  /** A second finalize that finds that receipt, does not sync it, and begins to retire. */
  lemma RetireWithoutSync() returns (ws: seq<World>, steps: seq<Step>)
    ensures OneLease(ws, steps, RetiringUnsynced(), Installed, Term(0, Finalize, EnteringRetiring))
  {
    ws, steps := FinalizeWithoutSync();
    ws, steps := Starts(ws, steps, UnsyncedLease(), Installed, Finalize);
    ws, steps := GoesOn(ws, steps, UnsyncedLease(), Installed, Term(0, Finalize, Checked), ReceiptFound);
    ws, steps := GoesOn(ws, steps, UnsyncedLease(), Installed, Term(0, Finalize, ReceiptReady), RetireBegin);
  }

  /** Power is lost while it retires: the receipt is gone, and retiring evidence without it is refused. */
  lemma ReceiptLost() returns (ws: seq<World>, steps: seq<Step>)
    ensures Blocked(ws, steps) && |ws[|steps|].leases| == 1
    ensures var l := ws[|steps|].leases[0]; l.place == Retiring && l.retirer == Some(Finalize) && l.receipt == NoDoc
  {
    ws, steps := RetireWithoutSync();
    ws, steps := LosesPower(ws, steps, RetiringUnsynced(), Installed, Term(0, Finalize, EnteringRetiring));
    BlockedWith(ws, steps, LeastOf(RetiringUnsynced()), Installed);
  }

  /** Power is lost after it has retired: the receipt is there but not whole, and everything beside it is refused. */
  lemma ReceiptBroken() returns (ws: seq<World>, steps: seq<Step>)
    ensures Blocked(ws, steps) && |ws[|steps|].leases| == 1
    ensures var l := ws[|steps|].leases[0]; l.place == Retired && l.receipt.Doc? && !l.receipt.full
  {
    ws, steps := RetireWithoutSync();
    var l := RetiringUnsynced();
    ws, steps := GoesOn(ws, steps, l, Installed, Term(0, Finalize, EnteringRetiring), RetireEnd);
    l := Rename(Synced(l), Retired);
    ws, steps := GoesOn(ws, steps, l, Installed, Term(0, Finalize, EnteringRetired), RetireSynced);
    ws, steps := LosesPower(ws, steps, Synced(l), Installed, Nobody);
    BlockedWith(ws, steps, LeastOf(Synced(l)), Installed);
  }
}
