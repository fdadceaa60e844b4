/**
 * Which left-behind evidence finalize and abort can resolve, and runs that leave evidence they cannot
 * (src/d1_migration_bootstrap_recovery.rs, src/d1_migration_lease.rs).
 */
module BootstrapRecovery {
  import opened Prelude
  import opened LeasePlaces
  import opened BootstrapProtocol
  import opened ReceiptCustody

  /** Only invocations, and crashes of theirs: no power loss, and nobody else at the database. */
  predicate ByInvocation(step: Step) {
    !step.PowerLoss? && !step.External?
  }

  ghost predicate Recovery(ws: seq<World>, steps: seq<Step>) {
    && |ws| == |steps| + 1
    && forall i {:trigger steps[i]} :: 0 <= i < |steps| ==>
         ByInvocation(steps[i]) && Transits(ws[i], ws[i + 1], steps[i])
  }

  /** Some sequence of invocations makes the target free for a new bootstrap. */
  ghost predicate CanFree(w: World) {
    exists ws: seq<World>, steps: seq<Step> :: Recovery(ws, steps) && ws[0] == w && Free(ws[|steps|])
  }

  /** What a caller finds of a lease in the way: how far its own operations got, and what the database holds now. */
  predicate Completable(l: Lease, db: Database) {
    if l.receipt.Doc? then l.receipt.what == Finalize ==> db == Installed
    else l.place == Active && (l.marker == NoDoc || db == Installed)
  }

  /** Every file of the target is whole, and either nothing is in the way or one lease that can be completed. */
  predicate Recoverable(w: World) {
    && Audited(w)
    && (OthersClear(w, |w.leases|)
        || exists id :: 0 <= id < |w.leases| && OthersClear(w, id) && Completable(w.leases[id], w.db))
  }

  // ---- Otherwise nothing starts ----

  lemma NothingStarts(w: World, v: World, step: Step)
    requires Safe(w) && w.proc == Nobody && !Recoverable(w) && ByInvocation(step) && Transits(w, v, step)
    ensures v == w
  {
  }

  lemma {:induction false} NothingEverStarts(ws: seq<World>, steps: seq<Step>, i: nat)
    requires Recovery(ws, steps) && i < |ws|
    requires Safe(ws[0]) && ws[0].proc == Nobody && !Recoverable(ws[0])
    ensures ws[i] == ws[0]
  {
    if i > 0 {
      hide Transits, Safe, Recoverable;
      NothingEverStarts(ws, steps, i - 1);
      assert ByInvocation(steps[i - 1]) && Transits(ws[i - 1], ws[i], steps[i - 1]);
      NothingStarts(ws[i - 1], ws[i], steps[i - 1]);
    }
  }

  // ---- One lease that can be completed is ----

  /** The world after one effect of the running invocation. */
  function Following(w: World, step: Step): World
    requires EffectOf(w, step).Some?
  {
    var e, synced := EffectOf(w, step).value, Syncs(w.proc, step);
    World(seq(|w.leases|, i requires 0 <= i < |w.leases| =>
                if i == w.proc.id then e.lease else Beside(w.leases[i], synced)), e.db, e.proc)
  }

  predicate IsEffect(step: Step) {
    ByInvocation(step) && !step.Crash? && !step.BootStart? && !step.TermStart?
  }

  lemma FollowingTransits(w: World, step: Step)
    requires EffectOf(w, step).Some? && IsEffect(step)
    ensures Transits(w, Following(w, step), step)
  {
    hide BootEffect, TermEffect;
  }

  lemma Extends(ws: seq<World>, steps: seq<Step>, step: Step) returns (vs: seq<World>, more: seq<Step>)
    requires Recovery(ws, steps) && EffectOf(ws[|steps|], step).Some? && IsEffect(step)
    ensures Recovery(vs, more) && vs[0] == ws[0] && vs[|more|] == Following(ws[|steps|], step)
  {
    hide Transits, Following;
    vs, more := ws + [Following(ws[|steps|], step)], steps + [step];
    FollowingTransits(ws[|steps|], step);
    forall i | 0 <= i < |more| ensures ByInvocation(more[i]) && Transits(vs[i], vs[i + 1], more[i]) {
      if i < |steps| { assert ByInvocation(steps[i]) && Transits(ws[i], ws[i + 1], steps[i]); }
    }
  }

  /** Nothing but lease `id` is in the way, and every file but its receipt is whole. */
  predicate OnlyIn(w: World, id: nat) {
    && id < |w.leases| && OthersClear(w, id)
    && (forall i :: 0 <= i < |w.leases| && i != id ==> LeaseWhole(w.leases[i]))
    && w.leases[id].payload.full && (w.leases[id].marker.Doc? ==> w.leases[id].marker.full)
  }

  lemma FollowingKeeps(w: World, step: Step, id: nat)
    requires OnlyIn(w, id) && w.proc.Term? && w.proc.id == id && EffectOf(w, step).Some?
    ensures OnlyIn(Following(w, step), id)
  {
  }

  lemma Retirement(ws: seq<World>, steps: seq<Step>, id: nat, k: Kind)
    requires Recovery(ws, steps) && ws[|steps|].proc == Term(id, k, ReceiptReady) && OnlyIn(ws[|steps|], id)
    requires var w := ws[|steps|]; Blocking(w.leases[id].place) && MayRetire(w.leases[id], k) && ReadsAsNeeded(w.db, k)
    ensures CanFree(ws[0])
  {
    hide BootEffect, OnlyIn, CanFree;
    var vs, more := ws, steps;
    FirstOf(ws[|steps|], id);
    if ws[|steps|].leases[id].place == Active {
      FollowingKeeps(vs[|more|], RetireBegin, id);
      vs, more := Extends(vs, more, RetireBegin);
      FirstOf(vs[|more|], id);
    }
    LastRename(vs, more, id);
  }

  /** The second rename, and the last sync. */
  lemma LastRename(ws: seq<World>, steps: seq<Step>, id: nat)
    requires Recovery(ws, steps) && ws[|steps|].proc.Term? && ws[|steps|].proc.id == id && OnlyIn(ws[|steps|], id)
    requires EffectOf(ws[|steps|], RetireEnd).Some?
    requires ws[|steps|].leases[id].receipt.Doc? && ws[|steps|].leases[id].receipt.full
    ensures CanFree(ws[0])
  {
    hide BootEffect, OnlyIn, CanFree;
    var vs, more := ws, steps;
    FirstOf(ws[|steps|], id);
    FollowingKeeps(vs[|more|], RetireEnd, id);
    vs, more := Extends(vs, more, RetireEnd);
    FirstOf(vs[|more|], id);
    FollowingKeeps(vs[|more|], RetireSynced, id);
    vs, more := Extends(vs, more, RetireSynced);
    NowFree(vs[|more|], id);
    FreedBy(vs, more);
  }

  lemma FreedBy(ws: seq<World>, steps: seq<Step>)
    requires Recovery(ws, steps) && Free(ws[|steps|])
    ensures CanFree(ws[0])
  {
  }

  lemma FirstOf(w: World, id: nat)
    requires OnlyIn(w, id)
    ensures id < |w.leases|
  {
  }

  lemma NowFree(w: World, id: nat)
    requires OnlyIn(w, id) && w.proc == Nobody && !Blocking(w.leases[id].place)
    requires w.leases[id].receipt.Doc? ==> w.leases[id].receipt.full
    ensures Free(w)
  {
  }

  lemma Completion(w: World, id: nat)
    requires Safe(w) && w.proc == Nobody && Audited(w) && id < |w.leases| && Blocking(w.leases[id].place)
    requires OthersClear(w, id) && Completable(w.leases[id], w.db)
    ensures CanFree(w)
  {
    hide BootEffect, CanFree, Safe, Audited, OthersClear;
    var l := w.leases[id];
    var k := KindFor(w, id);
    var ws, steps := [w, w.(proc := Term(id, k, Checked))], [TermStart(k, id)];
    assert Recovery(ws, steps);
    FirstOf(ws[1], id);
    if l.receipt.Doc? {
      FollowingKeeps(ws[1], ReceiptFound, id);
      ws, steps := Extends(ws, steps, ReceiptFound);
      Retirement(ws, steps, id, k);
    } else {
      NewReceipt(ws, steps, id, k);
    }
  }

  lemma NewReceipt(ws: seq<World>, steps: seq<Step>, id: nat, k: Kind)
    requires Recovery(ws, steps) && ws[|steps|].proc == Term(id, k, Checked) && OnlyIn(ws[|steps|], id)
    requires var l := ws[|steps|].leases[id];
             l.receipt.NoDoc? && l.place == Active && ReadsAsNeeded(ws[|steps|].db, k)
                 && (k == Abort ==> l.marker == NoDoc)
    ensures CanFree(ws[0])
  {
    hide BootEffect, OnlyIn, CanFree;
    var vs, more := ws, steps;
    FirstOf(ws[|steps|], id);
    FollowingKeeps(vs[|more|], ReceiptCreate, id);
    vs, more := Extends(vs, more, ReceiptCreate);
    FirstOf(vs[|more|], id);
    FollowingKeeps(vs[|more|], ReceiptWrite, id);
    vs, more := Extends(vs, more, ReceiptWrite);
    FirstOf(vs[|more|], id);
    FollowingKeeps(vs[|more|], ReceiptSync, id);
    vs, more := Extends(vs, more, ReceiptSync);
    Retirement(vs, more, id, k);
  }

  /** Which invocation completes the lease: the one its receipt names, finalize after an attempt, or else abort. */
  lemma KindFor(w: World, id: nat) returns (k: Kind)
    requires Safe(w) && w.proc == Nobody && Audited(w) && id < |w.leases| && Blocking(w.leases[id].place)
    requires OthersClear(w, id) && Completable(w.leases[id], w.db)
    ensures Transits(w, w.(proc := Term(id, k, Checked)), TermStart(k, id))
            && OnlyIn(w.(proc := Term(id, k, Checked)), id)
    ensures ReadsAsNeeded(w.db, k) && (k == Abort ==> w.leases[id].marker == NoDoc)
    ensures w.leases[id].receipt.Doc? ==> ReceiptExact(w.leases[id], k)
    ensures w.leases[id].receipt.NoDoc? ==> w.leases[id].place == Active
  {
    var l := w.leases[id];
    assert LeaseOk(l) && LeaseWhole(l);
    k := if l.receipt.Doc? then l.receipt.what else if l.marker.Doc? then Finalize else Abort;
  }

  /**
   * A target with nobody running can be made free again exactly when every file in its directory is whole and
   * either nothing is in the way or a single lease with its receipt, with the installed ledger, or never attempted.
   */
  lemma FreeableIffRecoverable(w: World)
    requires Safe(w) && w.proc == Nobody
    ensures CanFree(w) <==> Recoverable(w)
  {
    if Recoverable(w) {
      if OthersClear(w, |w.leases|) {
        assert Recovery([w], []);
      } else {
        var id :| 0 <= id < |w.leases| && OthersClear(w, id) && Completable(w.leases[id], w.db);
        Completion(w, id);
      }
    } else {
      forall ws: seq<World>, steps: seq<Step> | Recovery(ws, steps) && ws[0] == w ensures ws[|steps|] == w {
        NothingEverStarts(ws, steps, |steps|);
      }
    }
  }
}
