/**
 * The terminal receipt of a lease through crashes and power losses
 * (src/d1_migration_bootstrap_recovery.rs, src/d1_migration_lease.rs).
 */
module ReceiptCustody {
  import opened Prelude
  import opened LeasePlaces
  import opened BootstrapProtocol

  // ---- The receipt ----

  /** The lease leaves its place because of a receipt. */
  predicate Retires(w: World, step: Step, id: nat) {
    w.proc.Term? && w.proc.id == id && (step == RetireBegin || step == RetireEnd)
  }

  /** Finalize and abort move a lease on only while a reader finds their exact receipt. */
  lemma RetiresWithExactReceipt(ws: seq<World>, steps: seq<Step>, i: nat, id: nat)
    requires Execution(ws, steps) && i < |steps| && Retires(ws[i], steps[i], id)
    ensures id < |ws[i].leases| == |ws[i + 1].leases|
    ensures ReceiptExact(ws[i].leases[id], ws[i].proc.kind) && ReceiptExact(ws[i + 1].leases[id], ws[i].proc.kind)
  {
    SafeThroughout(ws, steps, i);
    assert Transits(ws[i], ws[i + 1], steps[i]);
  }

  /** A lease that was moved on because of a receipt still has it. */
  predicate ReceiptKept(l: Lease) {
    l.retirer.Some? ==> ReceiptExact(l, l.retirer.value)
  }

  lemma StepKeeps(w: World, v: World, step: Step)
    requires Safe(w) && Transits(w, v, step) && !step.PowerLoss?
    requires forall i :: 0 <= i < |w.leases| ==> ReceiptKept(w.leases[i])
    ensures forall i :: 0 <= i < |v.leases| ==> ReceiptKept(v.leases[i])
  {
  }

  /** While only processes crash, a lease retired by finalize or abort keeps its exact receipt for good. */
  lemma {:induction false} KeptThroughCrashes(ws: seq<World>, steps: seq<Step>, i: nat)
    requires Execution(ws, steps) && i < |ws|
    requires forall j :: 0 <= j < i ==> !steps[j].PowerLoss?
    ensures forall id :: 0 <= id < |ws[i].leases| ==> ReceiptKept(ws[i].leases[id])
  {
    if i > 0 {
      hide Safe, Transits;
      KeptThroughCrashes(ws, steps, i - 1);
      SafeThroughout(ws, steps, i - 1);
      assert Transits(ws[i - 1], ws[i], steps[i - 1]);
      StepKeeps(ws[i - 1], ws[i], steps[i - 1]);
    }
  }

  // ---- With power losses: receipts synced by who created them ----

  /** The invocation on lease `id` created its receipt and saw it synced. */
  predicate SyncsReceipt(w: World, step: Step, id: nat) {
    w.proc.Term? && w.proc.id == id && step == ReceiptSync
  }

  lemma DurableStays(w: World, v: World, step: Step, id: nat)
    requires Safe(w) && Transits(w, v, step) && id < |w.leases| && Durable(w.leases[id].receipt)
    ensures id < |v.leases| && v.leases[id].receipt == w.leases[id].receipt
  {
    if step.PowerLoss? { assert LeaseMayRemain(w.leases[id], v.leases[id]); }
  }

  lemma {:induction false} SyncedReceiptStays(ws: seq<World>, steps: seq<Step>, i: nat, j: nat, id: nat)
    requires Execution(ws, steps) && i < j < |ws| && SyncsReceipt(ws[i], steps[i], id)
    ensures id < |ws[j].leases| && Durable(ws[j].leases[id].receipt)
  {
    SafeThroughout(ws, steps, j - 1);
    assert Transits(ws[j - 1], ws[j], steps[j - 1]);
    if i < j - 1 {
      SyncedReceiptStays(ws, steps, i, j - 1, id);
      DurableStays(ws[j - 1], ws[j], steps[j - 1], id);
    }
  }

  /** Each retirement of the lease comes after a completed sync of its receipt by the invocation that created it. */
  ghost predicate RetiresAfterSync(ws: seq<World>, steps: seq<Step>, id: nat)
    requires |ws| == |steps| + 1
  {
    forall j {:trigger Retires(ws[j], steps[j], id)} ::
      0 <= j < |steps| && Retires(ws[j], steps[j], id) ==> exists i :: 0 <= i < j && SyncsReceipt(ws[i], steps[i], id)
  }

  /** The receipt of a lease that was moved on because of it is on the disk. */
  predicate Anchored(l: Lease) {
    l.retirer.Some? ==> Durable(l.receipt) && l.receipt.what == l.retirer.value
  }

  lemma StepAnchors(w: World, v: World, step: Step, id: nat)
    requires Safe(w) && Transits(w, v, step) && id < |v.leases|
    requires id < |w.leases| ==> Anchored(w.leases[id]) && (Retires(w, step, id) ==> Durable(w.leases[id].receipt))
    ensures Anchored(v.leases[id])
  {
    hide BootEffect, TermEffect, NamesUnique, EarlierQuiet, OthersClear, Audited, Admits, Free;
    if step.PowerLoss? {
      assert LeaseMayRemain(w.leases[id], v.leases[id]);
    } else if EffectOf(w, step).Some? && id == w.proc.id {
      assert LeaseOk(w.leases[id]);
      if w.proc.Boot? {
        BootRetiresNothing(w.leases[id], w.db, step, id, w.proc.bootPc);
      } else {
        TermAnchors(w.leases[id], w.db, step, id, w.proc.kind, w.proc.pc);
      }
    }
  }

  lemma BootRetiresNothing(l: Lease, db: Database, step: Step, id: nat, pc: BootPc)
    requires BootEffect(l, db, step, id, pc).Some?
    ensures BootEffect(l, db, step, id, pc).value.lease.retirer == l.retirer
  {
  }

  lemma TermAnchors(l: Lease, db: Database, step: Step, id: nat, k: Kind, pc: TermPc)
    requires LeaseOk(l) && TermOk(l, k, pc) && TermEffect(l, db, step, id, k, pc).Some? && Anchored(l)
    requires step in {RetireBegin, RetireEnd} ==> Durable(l.receipt)
    ensures Anchored(TermEffect(l, db, step, id, k, pc).value.lease)
  {
  }

  lemma RetiresOnDurable(ws: seq<World>, steps: seq<Step>, id: nat, j: nat)
    requires Execution(ws, steps) && RetiresAfterSync(ws, steps, id) && j < |steps| && Retires(ws[j], steps[j], id)
    ensures id < |ws[j].leases| && Durable(ws[j].leases[id].receipt)
  {
    var i :| 0 <= i < j && SyncsReceipt(ws[i], steps[i], id);
    SyncedReceiptStays(ws, steps, i, j, id);
  }

  /**
   * Whatever fails, crashes or loses power: a lease retired only after such a sync has its receipt on the disk
   * throughout.
   */
  lemma {:induction false} AnchoredThroughout(ws: seq<World>, steps: seq<Step>, id: nat, i: nat)
    requires Execution(ws, steps) && RetiresAfterSync(ws, steps, id) && i < |ws|
    ensures id < |ws[i].leases| ==> Anchored(ws[i].leases[id])
  {
    if i > 0 && id < |ws[i].leases| {
      hide Safe, Transits, Anchored, Durable, RetiresAfterSync;
      AnchoredThroughout(ws, steps, id, i - 1);
      SafeThroughout(ws, steps, i - 1);
      assert Transits(ws[i - 1], ws[i], steps[i - 1]);
      if Retires(ws[i - 1], steps[i - 1], id) { RetiresOnDurable(ws, steps, id, i - 1); }
      StepAnchors(ws[i - 1], ws[i], steps[i - 1], id);
    }
  }

  // ---- With power losses: exactly which receipts can be lost ----

  /** What calls have returned about a receipt since it was created: its content was synced, a directory was synced. */
  datatype Seen = Seen(content: bool, entry: bool)

  /** A receipt found after a power loss is one the disk held. */
  function SeenNext(seen: Seen, proc: Proc, step: Step, id: nat): Seen {
    if step.PowerLoss? then Seen(true, true)
    else if proc.Term? && proc.id == id && step == ReceiptCreate then Seen(false, false)
    else if proc.Term? && proc.id == id && step == ReceiptWrite then Seen(true, seen.entry)
    else if Syncs(proc, step) then Seen(seen.content, true)
    else seen
  }

  function SeenOf(ws: seq<World>, steps: seq<Step>, id: nat, i: nat): Seen
    requires i <= |steps| <= |ws|
  {
    if i == 0 then Seen(false, false) else SeenNext(SeenOf(ws, steps, id, i - 1), ws[i - 1].proc, steps[i - 1], id)
  }

  predicate SeenMatches(l: Lease, seen: Seen) {
    l.receipt.Doc? ==> l.receipt.contentSynced == seen.content && l.receipt.entrySynced == seen.entry
  }

  /** The retiring step of an invocation leaves the lease with its receipt, and in its name. */
  lemma RetiredBy(w: World, v: World, step: Step, id: nat)
    requires Safe(w) && Transits(w, v, step) && Retires(w, step, id)
    ensures id < |v.leases| && v.leases[id].retirer.Some? && ReceiptKept(v.leases[id])
  {
  }

  lemma SeenStep(w: World, v: World, step: Step, id: nat, seen: Seen)
    requires Transits(w, v, step) && id < |v.leases|
    requires id < |w.leases| ==> SeenMatches(w.leases[id], seen)
    ensures SeenMatches(v.leases[id], SeenNext(seen, w.proc, step, id))
  {
    hide BootEffect, TermEffect;
    if step.PowerLoss? {
      assert LeaseMayRemain(w.leases[id], v.leases[id]);
    } else if EffectOf(w, step).Some? && id == w.proc.id {
      if w.proc.Boot? {
        BootSeen(w.leases[id], w.db, step, id, w.proc.bootPc, seen);
      } else {
        TermSeen(w.leases[id], w.db, step, id, w.proc.kind, w.proc.pc, seen);
      }
    }
  }

  lemma BootSeen(l: Lease, db: Database, step: Step, id: nat, pc: BootPc, seen: Seen)
    requires BootEffect(l, db, step, id, pc).Some? && SeenMatches(l, seen)
    ensures SeenMatches(BootEffect(l, db, step, id, pc).value.lease, SeenNext(seen, Boot(id, pc), step, id))
  {
  }

  lemma TermSeen(l: Lease, db: Database, step: Step, id: nat, k: Kind, pc: TermPc, seen: Seen)
    requires TermEffect(l, db, step, id, k, pc).Some? && SeenMatches(l, seen)
    ensures SeenMatches(TermEffect(l, db, step, id, k, pc).value.lease, SeenNext(seen, Term(id, k, pc), step, id))
  {
  }

  /** The calls that returned tell exactly what of a receipt is on the disk. */
  lemma {:induction false} SeenIsDisk(ws: seq<World>, steps: seq<Step>, id: nat, i: nat)
    requires Execution(ws, steps) && i < |ws| && id < |ws[i].leases|
    ensures SeenMatches(ws[i].leases[id], SeenOf(ws, steps, id, i))
  {
    if i > 0 {
      hide Transits, SeenMatches;
      assert Transits(ws[i - 1], ws[i], steps[i - 1]);
      if id < |ws[i - 1].leases| { SeenIsDisk(ws, steps, id, i - 1); }
      SeenStep(ws[i - 1], ws[i], steps[i - 1], id, SeenOf(ws, steps, id, i - 1));
    }
  }

  /** The least a power loss may leave of a file. */
  function Remains<T>(d: Doc<T>): Doc<T> {
    if d.NoDoc? || !d.entrySynced then NoDoc else Doc(d.what, d.full && d.contentSynced, true, true)
  }

  function LeastOf(l: Lease): Lease {
    l.(may := {l.place}, payload := Payload(l.payload.full && l.payload.synced, true), marker := Remains(l.marker),
       receipt := Remains(l.receipt))
  }

  function WorstLoss(w: World): World {
    World(seq(|w.leases|, i requires 0 <= i < |w.leases| => LeastOf(w.leases[i])), w.db, Nobody)
  }

  lemma WorstLossFollows(w: World)
    requires Safe(w)
    ensures MayFollowPowerLoss(w, WorstLoss(w))
  {
    forall i | 0 <= i < |w.leases| ensures LeaseMayRemain(w.leases[i], WorstLoss(w).leases[i]) {
      assert LeaseOk(w.leases[i]);
    }
  }

  /** The run can go on with a power loss that costs the retired lease its receipt. */
  ghost predicate CanLoseReceipt(ws: seq<World>, steps: seq<Step>, id: nat) {
    exists after: World :: Execution(ws + [after], steps + [PowerLoss(after)]) && id < |after.leases|
        && !ReceiptKept(after.leases[id])
  }

  lemma PowerLossContinues(ws: seq<World>, steps: seq<Step>, after: World)
    requires Execution(ws, steps)
    ensures Execution(ws + [after], steps + [PowerLoss(after)]) <==> MayFollowPowerLoss(ws[|steps|], after)
  {
    var vs, more := ws + [after], steps + [PowerLoss(after)];
    assert more[|steps|] == PowerLoss(after) && vs[|steps|] == ws[|steps|] && vs[|steps| + 1] == after;
    if MayFollowPowerLoss(ws[|steps|], after) {
      vs, more := GoesOnTo(ws, steps, PowerLoss(after), after);
    }
  }

  /**
   * At any moment of any run, the receipt of a retired lease can be lost exactly when, since it was created,
   * its own sync or a sync of the directory has not returned.
   */
  lemma ReceiptLostIffUnsynced(ws: seq<World>, steps: seq<Step>, id: nat)
    requires Execution(ws, steps) && id < |ws[|steps|].leases|
    requires ws[|steps|].leases[id].retirer.Some? && ReceiptKept(ws[|steps|].leases[id])
    ensures CanLoseReceipt(ws, steps, id) <==> SeenOf(ws, steps, id, |steps|) != Seen(true, true)
  {
    var w := ws[|steps|];
    SafeThroughout(ws, steps, |steps|);
    SeenIsDisk(ws, steps, id, |steps|);
    if SeenOf(ws, steps, id, |steps|) == Seen(true, true) {
      forall after: World | Execution(ws + [after], steps + [PowerLoss(after)]) && id < |after.leases|
        ensures ReceiptKept(after.leases[id])
      {
        PowerLossContinues(ws, steps, after);
        assert LeaseMayRemain(w.leases[id], after.leases[id]);
      }
    } else {
      WorstLossFollows(w);
      PowerLossContinues(ws, steps, WorstLoss(w));
      assert LeaseOk(w.leases[id]) && !ReceiptKept(WorstLoss(w).leases[id]);
    }
  }

  predicate CreatesReceipt(w: World, step: Step, id: nat) {
    w.proc.Term? && w.proc.id == id && step == ReceiptCreate
  }

  /** From step `i` to step `j` no sync of the directory succeeded and no power was lost. */
  ghost predicate NothingSynced(ws: seq<World>, steps: seq<Step>, i: nat, j: nat)
    requires |steps| <= |ws|
  {
    forall n :: i <= n < j && n < |steps| ==> !steps[n].PowerLoss? && !Syncs(ws[n].proc, steps[n])
  }

  lemma {:induction false} EntryStaysUnsynced(ws: seq<World>, steps: seq<Step>, id: nat, c: nat, i: nat)
    requires c < i <= |steps| <= |ws| && CreatesReceipt(ws[c], steps[c], id) && NothingSynced(ws, steps, c, i)
    ensures !SeenOf(ws, steps, id, i).entry
  {
    if c < i - 1 { EntryStaysUnsynced(ws, steps, id, c, i - 1); }
    assert !steps[i - 1].PowerLoss? && !Syncs(ws[i - 1].proc, steps[i - 1]);
  }

  lemma RetiredAtEnd(ws: seq<World>, steps: seq<Step>, id: nat)
    requires Execution(ws, steps) && steps != [] && Retires(ws[|steps| - 1], steps[|steps| - 1], id)
    ensures id < |ws[|steps|].leases| && ws[|steps|].leases[id].retirer.Some? && ReceiptKept(ws[|steps|].leases[id])
  {
    var n := |steps| - 1;
    SafeThroughout(ws, steps, n);
    assert Transits(ws[n], ws[n + 1], steps[n]);
    RetiredBy(ws[n], ws[n + 1], steps[n], id);
  }

  /** A retirement on a receipt that was only found, never synced since its creation, can lose it. */
  lemma FoundReceiptCanBeLost(ws: seq<World>, steps: seq<Step>, id: nat, c: nat)
    requires Execution(ws, steps) && c < |steps| && CreatesReceipt(ws[c], steps[c], id)
    requires Retires(ws[|steps| - 1], steps[|steps| - 1], id) && NothingSynced(ws, steps, c, |steps|)
    ensures CanLoseReceipt(ws, steps, id)
  {
    RetiredAtEnd(ws, steps, id);
    EntryStaysUnsynced(ws, steps, id, c, |steps|);
    ReceiptLostIffUnsynced(ws, steps, id);
  }

  /** A receipt this invocation created is durable when it is ready; one it found may not be. */
  lemma CreatedReceiptDurable(w: World, v: World, id: nat)
    requires Safe(w) && Transits(w, v, ReceiptSync) && w.proc.Term? && w.proc.id == id
    ensures id < |v.leases| && Durable(v.leases[id].receipt) && v.proc == Term(id, w.proc.kind, ReceiptReady)
  {
  }
}
