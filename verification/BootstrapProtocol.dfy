/**
 * Bootstrap, finalize and abort on the leases of one target, effect by effect
 * (src/d1_migration_bootstrap.rs, src/d1_migration_bootstrap_recovery.rs,
 * src/d1_migration_lease.rs). One invocation at a time holds the target guard; it
 * can fail or crash between any two effects, and the machine can lose power.
 */
module BootstrapProtocol {
  import opened Prelude
  import opened LeasePlaces

  datatype Kind = Finalize | Abort

  /** What a read of the target database finds: nothing, the empty canonical ledger only, or anything else. */
  datatype Database = Empty | Installed | Conflicting

  /** The content of a lease file: whether all of it is written, and whether it reached the disk. */
  datatype Payload = Payload(full: bool, synced: bool)

  /** A create-only file: whether all of it is written, and what of it reached the disk. */
  datatype Doc<T> = NoDoc | Doc(what: T, full: bool, contentSynced: bool, entrySynced: bool)

  /**
   * `may` are the places where the lease may be found after a power loss. `proven` says that its
   * initializer was proven applied, `retirer` who moved it out of the active place with a receipt.
   */
  datatype Lease = Lease(
    place: Place,
    may: set<Place>,
    payload: Payload,
    marker: Doc<()>,
    receipt: Doc<Kind>,
    dispatches: nat,
    proven: bool,
    retirer: Option<Kind>)

  datatype BootPc =
    | Creating
    | Written
    | Holding
    | Clear
    | MarkerOpen
    | MarkerWritten
    | MayDispatch
    | Sent
    | Proven
    | ReleasingRetiring
    | ReleasingRetired

  datatype TermPc = Checked | ReceiptOpen | ReceiptWritten | ReceiptReady | EnteringRetiring | EnteringRetired

  /** The invocation that holds the guard, and the lease it works on. */
  datatype Proc = Nobody | Boot(id: nat, bootPc: BootPc) | Term(id: nat, kind: Kind, pc: TermPc)

  /** All leases of one target, oldest first, and its database. */
  datatype World = World(leases: seq<Lease>, db: Database, proc: Proc)

  datatype Step =
    | BootStart
    | BootWrite
    | BootCreated
    | BootCreateFails(full: bool, left: Place, synced: bool)
    | ReadEmpty
    | MarkerCreate
    | MarkerWrite
    | MarkerWriteFails(full: bool)
    | MarkerSync
    | Send(applied: bool)
    | Prove
    | ReleaseBegin
    | ReleaseMiddle
    | ReleaseEnd
    | ReleaseFails(left: Place)
    | TermStart(kind: Kind, id: nat)
    | ReceiptFound
    | ReceiptCreate
    | ReceiptWrite
    | ReceiptWriteFails(full: bool)
    | ReceiptSync
    | RetireBegin
    | RetireEnd
    | RetireSynced
    | Crash
    | PowerLoss(after: World)
    | External(db: Database)

  // ---- One lease ----

  predicate Durable<T>(d: Doc<T>) {
    d.Doc? && d.full && d.contentSynced && d.entrySynced
  }

  /** The exact receipt of `k` is what a reader finds. */
  predicate ReceiptExact(l: Lease, k: Kind) {
    l.receipt.Doc? && l.receipt.full && l.receipt.what == k
  }

  function EntrySynced<T>(d: Doc<T>): Doc<T> {
    if d.Doc? then d.(entrySynced := true) else d
  }

  /** A lease after a successful sync of the custody directory. */
  function Synced(l: Lease): Lease {
    l.(may := {l.place}, marker := EntrySynced(l.marker), receipt := EntrySynced(l.receipt))
  }

  /** A rename of the lease that is not synced yet. */
  function Rename(l: Lease, to: Place): Lease {
    l.(place := to, may := l.may + {to})
  }

  /** What a step does to the lease of its invocation and to the database, and how the invocation goes on. */
  datatype Effect = Effect(lease: Lease, db: Database, proc: Proc)

  /**
   * The lease after a failed creation: what is written of it, where its entry is, and whether taking it away was
   * synced.
   */
  function FailedCreation(l: Lease, pc: BootPc, full: bool, left: Place, synced: bool): Option<Lease> {
    if left !in {Aborted, Active} || (synced && left != Aborted) then None
    else
      var written := if pc == Creating then l.(payload := Payload(full, false)) else l;
      var renamed := Rename(written, left);
      Some(if synced then Synced(renamed) else renamed)
  }

  /** One effect of bootstrap on its lease; `None` if it is not at this point. */
  function BootEffect(l: Lease, db: Database, step: Step, id: nat, pc: BootPc): Option<Effect> {
    match (step, pc)
    case (BootWrite, Creating) => Some(Effect(l.(payload := Payload(true, true)), db, Boot(id, Written)))
    case (BootCreated, Written) => Some(Effect(Synced(l), db, Boot(id, Holding)))
    case (BootCreateFails(full, left, synced), _) =>
      if pc in {Creating, Written} then
        match FailedCreation(l, pc, full, left, synced)
        case None => None
        case Some(m) => Some(Effect(m, db, Nobody))
      else None
    case (ReadEmpty, Holding) => if db == Empty then Some(Effect(l, db, Boot(id, Clear))) else None
    case (MarkerCreate, Clear) =>
      if l.marker.Doc? then None
      else Some(Effect(l.(marker := Doc((), false, false, false)), db, Boot(id, MarkerOpen)))
    case (MarkerWrite, MarkerOpen) =>
      if l.marker.NoDoc? then None
      else Some(Effect(l.(marker := l.marker.(full := true, contentSynced := true)), db, Boot(id, MarkerWritten)))
    case (MarkerWriteFails(full), MarkerOpen) =>
      if l.marker.NoDoc? then None else Some(Effect(l.(marker := l.marker.(full := full)), db, Nobody))
    case (MarkerSync, MarkerWritten) => Some(Effect(Synced(l), db, Boot(id, MayDispatch)))
    case (Send(applied), MayDispatch) =>
      Some(Effect(l.(dispatches := l.dispatches + 1), if applied && db == Empty then Installed else db, Boot(id, Sent)))
    case (Prove, Sent) => if db == Installed then Some(Effect(l.(proven := true), db, Boot(id, Proven))) else None
    case (ReleaseBegin, _) =>
      if pc in {Holding, Clear, Proven} then Some(Effect(Rename(l, Retiring), db, Boot(id, ReleasingRetiring)))
        else None
    case (ReleaseMiddle, ReleasingRetiring) => Some(Effect(Rename(Synced(l), Retired), db, Boot(id, ReleasingRetired)))
    case (ReleaseEnd, ReleasingRetired) => Some(Effect(Synced(l), db, Nobody))
    case (ReleaseFails(left), _) =>
      if pc in {ReleasingRetiring, ReleasingRetired} && left in {Active, Retiring, l.place}
      then Some(Effect(Rename(l, left), db, Nobody)) else None
    case _ => None
  }

  /** One effect of finalize or abort on its lease. */
  function TermEffect(l: Lease, db: Database, step: Step, id: nat, k: Kind, pc: TermPc): Option<Effect> {
    match (step, pc)
    case (ReceiptFound, Checked) =>
      if ReceiptExact(l, k) && ReadsAsNeeded(db, k) then Some(Effect(l, db, Term(id, k, ReceiptReady))) else None
    case (ReceiptCreate, Checked) =>
      if l.receipt.Doc? || !ReadsAsNeeded(db, k) then None
      else Some(Effect(l.(receipt := Doc(k, false, false, false)), db, Term(id, k, ReceiptOpen)))
    case (ReceiptWrite, ReceiptOpen) =>
      if l.receipt.NoDoc? then None
      else Some(Effect(l.(receipt := l.receipt.(full := true, contentSynced := true)), db, Term(id, k, ReceiptWritten)))
    case (ReceiptWriteFails(full), ReceiptOpen) =>
      if l.receipt.NoDoc? then None else Some(Effect(l.(receipt := l.receipt.(full := full)), db, Nobody))
    case (ReceiptSync, ReceiptWritten) => Some(Effect(Synced(l), db, Term(id, k, ReceiptReady)))
    case (RetireBegin, ReceiptReady) =>
      if MayRetire(l, k) && ReadsAsNeeded(db, k) && l.place == Active
      then Some(Effect(Rename(l, Retiring).(retirer := Some(k)), db, Term(id, k, EnteringRetiring))) else None
    case (RetireEnd, ReceiptReady) =>
      if MayRetire(l, k) && ReadsAsNeeded(db, k) && l.place == Retiring
      then Some(Effect(Rename(l, Retired).(retirer := Some(k)), db, Term(id, k, EnteringRetired))) else None
    case (RetireEnd, EnteringRetiring) =>
      Some(Effect(Rename(Synced(l), Retired), db, Term(id, k, EnteringRetired)))
    case (RetireSynced, EnteringRetired) => Some(Effect(Synced(l), db, Nobody))
    case _ => None
  }

  /** Finalize proves the installed ledger again before each of its effects; abort reads nothing. */
  predicate ReadsAsNeeded(db: Database, k: Kind) {
    k == Finalize ==> db == Installed
  }

  predicate MayRetire(l: Lease, k: Kind) {
    ReceiptExact(l, k) && (k == Abort ==> l.marker == NoDoc)
  }

  /** Finalize or abort passes its first checks of the lease. */
  predicate MayStart(l: Lease, k: Kind) {
    && Blocking(l.place)
    && (l.receipt == NoDoc || ReceiptExact(l, k))
    && (l.place == Retiring ==> ReceiptExact(l, k))
    && (k == Abort ==> l.marker == NoDoc)
  }

  // ---- The target ----

  /** No lease other than `id` is in the way. */
  predicate OthersClear(w: World, id: nat) {
    forall i :: 0 <= i < |w.leases| && i != id ==> !Blocking(w.leases[i].place)
  }

  predicate LeaseWhole(l: Lease) {
    && (l.place != Absent ==> l.payload.full)
    && (l.marker.Doc? ==> l.marker.full)
    && (l.receipt.Doc? ==> l.receipt.full)
  }

  /** Every invocation reads the whole custody directory first and refuses it for any file that is not whole. */
  predicate Audited(w: World) {
    forall i :: 0 <= i < |w.leases| ==> LeaseWhole(w.leases[i])
  }

  /** A new bootstrap may start. */
  predicate Free(w: World) {
    w.proc == Nobody && Audited(w) && OthersClear(w, |w.leases|)
  }

  /** Finalize or abort may start on a lease. */
  predicate Admits(w: World, k: Kind, id: nat) {
    && w.proc == Nobody && id < |w.leases|
    && Audited(w) && OthersClear(w, id) && MayStart(w.leases[id], k) && ReadsAsNeeded(w.db, k)
  }

  /** The effect of the running invocation, if this step is one. */
  function EffectOf(w: World, step: Step): Option<Effect> {
    match w.proc
    case Nobody => None
    case Boot(id, pc) => if id < |w.leases| then BootEffect(w.leases[id], w.db, step, id, pc) else None
    case Term(id, k, pc) => if id < |w.leases| then TermEffect(w.leases[id], w.db, step, id, k, pc) else None
  }

  /** Whether the step is, or begins with, a successful sync of the custody directory. */
  predicate Syncs(proc: Proc, step: Step) {
    || step in {BootCreated, MarkerSync, ReleaseMiddle, ReleaseEnd, ReceiptSync, RetireSynced}
    || (step.BootCreateFails? && step.synced)
    || (step == RetireEnd && proc.Term? && proc.pc == EnteringRetiring)
  }

  function Beside(l: Lease, synced: bool): Lease {
    if synced then Synced(l) else l
  }

  function NewLease(): Lease {
    Lease(Active, {Absent, Active}, Payload(false, false), NoDoc, NoDoc, 0, false, None)
  }

  /** What a power loss may leave of a file. */
  predicate MayRemain<T(==)>(before: Doc<T>, after: Doc<T>) {
    match before
    case NoDoc => after == NoDoc
    case Doc(what, full, contentSynced, entrySynced) =>
      || (after == NoDoc && !entrySynced)
      || (after.Doc? && after.what == what && after.contentSynced && after.entrySynced
          && (after.full ==> full) && (contentSynced ==> after.full == full))
  }

  /** What a power loss may leave of a lease; back at the active place it is as if never retired. */
  predicate LeaseMayRemain(l: Lease, m: Lease) {
    && m.place in l.may && m.may == {m.place}
    && m.payload.synced && (m.payload.full ==> l.payload.full) && (l.payload.synced ==> m.payload == l.payload)
    && MayRemain(l.marker, m.marker) && MayRemain(l.receipt, m.receipt)
    && m.dispatches == l.dispatches && m.proven == l.proven
    && m.retirer == if m.place == Active then None else l.retirer
  }

  /** The active and the retiring place each hold one lease at most. */
  predicate NamesUnique(ls: seq<Lease>) {
    forall i, j :: 0 <= i < j < |ls| && Blocking(ls[i].place) ==> ls[i].place != ls[j].place
  }

  predicate MayFollowPowerLoss(w: World, v: World) {
    && |v.leases| == |w.leases| && v.db == w.db && v.proc == Nobody && NamesUnique(v.leases)
    && forall i :: 0 <= i < |w.leases| ==> LeaseMayRemain(w.leases[i], v.leases[i])
  }

  predicate Transits(w: World, v: World, step: Step) {
    match step
    case Crash => v == w.(proc := Nobody)
    case PowerLoss(after) => v == after && MayFollowPowerLoss(w, v)
    case External(db) => v == w.(db := db)
    case BootStart => Free(w) && v == World(w.leases + [NewLease()], w.db, Boot(|w.leases|, Creating))
    case TermStart(k, id) => Admits(w, k, id) && v == w.(proc := Term(id, k, Checked))
    case _ =>
      match EffectOf(w, step)
      case None => false
      case Some(e) =>
        && v.db == e.db && v.proc == e.proc && |v.leases| == |w.leases| && v.leases[w.proc.id] == e.lease
        && forall i :: 0 <= i < |w.leases| && i != w.proc.id ==>
             v.leases[i] == Beside(w.leases[i], Syncs(w.proc, step))
  }

  predicate Initial(w: World) {
    w.leases == [] && w.proc == Nobody
  }

  ghost predicate Execution(ws: seq<World>, steps: seq<Step>) {
    && |ws| == |steps| + 1 && Initial(ws[0])
    && forall i {:trigger steps[i]} :: 0 <= i < |steps| ==> Transits(ws[i], ws[i + 1], steps[i])
  }

  /** A run goes on with one more step. */
  lemma GoesOnTo(ws: seq<World>, steps: seq<Step>, step: Step, w: World) returns (vs: seq<World>, more: seq<Step>)
    requires Execution(ws, steps) && Transits(ws[|steps|], w, step)
    ensures Execution(vs, more) && more == steps + [step] && vs == ws + [w] && vs[|more|] == w
  {
    hide Transits;
    vs, more := ws + [w], steps + [step];
    forall i | 0 <= i < |more| ensures Transits(vs[i], vs[i + 1], more[i]) {
      if i < |steps| { assert Transits(ws[i], ws[i + 1], steps[i]); }
    }
  }

  // ---- What every step keeps ----

  /** The place where the lease is found is a place no power loss can take back, and it blocks nobody. */
  predicate Quiet(l: Lease) {
    !Blocking(l.place) && l.may == {l.place}
  }

  /** Its dispatch ended with proof, or finalize closed it. */
  predicate Settled(l: Lease) {
    l.proven || l.retirer == Some(Finalize)
  }

  predicate LeaseOk(l: Lease) {
    && l.place in l.may
    && l.dispatches <= 1
    && (l.dispatches == 1 ==> Durable(l.marker))
    && (l.receipt.Doc? && l.receipt.what == Abort ==> l.marker == NoDoc)
    && (l.place == Active ==> l.retirer.None?)
    && (l.dispatches == 1 && !(l.may <= {Active, Retiring}) ==> Settled(l))
  }

  /** The lease evidence is where it is, and whole, whatever happens. */
  predicate Evident(l: Lease) {
    l.place == Active && l.may == {Active} && l.payload == Payload(true, true)
  }

  predicate BootOk(l: Lease, pc: BootPc) {
    && l.receipt == NoDoc && l.retirer.None?
    && (pc in {Creating, Written, Holding, Clear} ==> l.marker == NoDoc)
    && (pc in {Creating, Written, Holding, Clear, MarkerOpen, MarkerWritten, MayDispatch} ==> l.dispatches == 0)
    && (pc in {Creating, Written, Holding, Clear, MarkerOpen, MarkerWritten, MayDispatch} ==> !l.proven)
    && (pc == MarkerWritten ==> l.marker.Doc? && l.marker.full && l.marker.contentSynced)
    && (pc == MayDispatch ==> Durable(l.marker))
    && (pc in {Proven, ReleasingRetiring, ReleasingRetired} ==> l.dispatches == 1 ==> l.proven)
    && match pc
       case Creating => l.place == Active && l.may == {Absent, Active}
       case Written => l.place == Active && l.may == {Absent, Active} && l.payload == Payload(true, true)
       case ReleasingRetiring => l.place == Retiring
       case ReleasingRetired => l.place == Retired
       case _ => Evident(l)
  }

  predicate TermOk(l: Lease, k: Kind, pc: TermPc) {
    && (k == Abort ==> l.marker == NoDoc)
    && match pc
       case Checked => MayStart(l, k)
       case ReceiptOpen => l.place == Active && l.receipt.Doc? && l.receipt.what == k && !l.receipt.full
       case ReceiptWritten =>
         l.place == Active && l.receipt.Doc? && l.receipt.what == k && l.receipt.full && l.receipt.contentSynced
       case ReceiptReady => Blocking(l.place) && ReceiptExact(l, k)
       case EnteringRetiring => l.place == Retiring && l.retirer == Some(k) && ReceiptExact(l, k)
       case EnteringRetired => l.place == Retired && l.retirer == Some(k) && ReceiptExact(l, k)
  }

  predicate ProcOk(w: World) {
    match w.proc
    case Nobody => true
    case Boot(id, pc) =>
      && id == |w.leases| - 1 && BootOk(w.leases[id], pc) && OthersClear(w, id)
      && (pc !in {Creating, Written} ==> forall i :: 0 <= i < id ==> Quiet(w.leases[i]))
    case Term(id, k, pc) =>
      && id < |w.leases| && TermOk(w.leases[id], k, pc) && OthersClear(w, id)
      && forall i :: id < i < |w.leases| ==> w.leases[i].dispatches == 0
  }

  /** Behind a lease that was dispatched, all earlier ones are out of the way for good. */
  predicate EarlierQuiet(ls: seq<Lease>) {
    forall i, j :: 0 <= i < j < |ls| && ls[j].dispatches == 1 ==> Quiet(ls[i])
  }

  predicate Safe(w: World) {
    && (forall i :: 0 <= i < |w.leases| ==> LeaseOk(w.leases[i]))
    && NamesUnique(w.leases) && EarlierQuiet(w.leases) && ProcOk(w)
  }

  lemma BootEffectSafe(l: Lease, db: Database, step: Step, id: nat, pc: BootPc)
    requires LeaseOk(l) && BootOk(l, pc) && BootEffect(l, db, step, id, pc).Some?
    ensures var e := BootEffect(l, db, step, id, pc).value;
            && LeaseOk(e.lease)
            && (e.proc == Nobody || (e.proc.Boot? && e.proc.id == id && BootOk(e.lease, e.proc.bootPc)))
            && (e.proc.Boot? ==> e.proc.bootPc != Creating)
            && (pc in {Creating, Written} && e.proc.Boot? && e.proc.bootPc != Written ==> Syncs(Boot(id, pc), step))
            && (e.proc.Boot? && e.proc.bootPc == Written ==> pc == Creating)
            && (e.lease.dispatches == 1 ==> pc !in {Creating, Written})
  {
  }

  lemma TermEffectSafe(l: Lease, db: Database, step: Step, id: nat, k: Kind, pc: TermPc)
    requires LeaseOk(l) && TermOk(l, k, pc) && TermEffect(l, db, step, id, k, pc).Some?
    ensures var e := TermEffect(l, db, step, id, k, pc).value;
            && LeaseOk(e.lease)
            && (e.proc == Nobody
                || (e.proc.Term? && e.proc.id == id && e.proc.kind == k && TermOk(e.lease, k, e.proc.pc)))
            && e.lease.dispatches == l.dispatches
  {
  }

  lemma SyncKeeps(l: Lease)
    requires LeaseOk(l)
    ensures LeaseOk(Synced(l)) && (!Blocking(l.place) ==> Quiet(Synced(l)))
  {
  }

  lemma EffectSafe(w: World, v: World, step: Step)
    requires Safe(w) && Transits(w, v, step) && EffectOf(w, step).Some?
    ensures Safe(v)
  {
    var id, synced := w.proc.id, Syncs(w.proc, step);
    if w.proc.Boot? {
      BootEffectSafe(w.leases[id], w.db, step, id, w.proc.bootPc);
    } else {
      TermEffectSafe(w.leases[id], w.db, step, id, w.proc.kind, w.proc.pc);
    }
    forall i | 0 <= i < |v.leases|
      ensures LeaseOk(v.leases[i])
      ensures i != id ==>
                && v.leases[i] == Beside(w.leases[i], synced) && !Blocking(v.leases[i].place)
                && (synced || Quiet(w.leases[i]) ==> Quiet(v.leases[i]))
    {
      if i != id { SyncKeeps(w.leases[i]); }
    }
  }

  lemma PowerLossSafe(w: World, v: World)
    requires Safe(w) && MayFollowPowerLoss(w, v)
    ensures Safe(v)
  {
    forall i | 0 <= i < |v.leases|
      ensures LeaseOk(v.leases[i]) && (Quiet(w.leases[i]) ==> Quiet(v.leases[i]))
              && v.leases[i].dispatches == w.leases[i].dispatches
    {
      assert LeaseMayRemain(w.leases[i], v.leases[i]);
    }
  }

  lemma CrashSafe(w: World, v: World)
    requires Safe(w) && v == w.(proc := Nobody)
    ensures Safe(v)
  {
  }

  lemma ExternalSafe(w: World, v: World, db: Database)
    requires Safe(w) && v == w.(db := db)
    ensures Safe(v)
  {
  }

  lemma BootStartSafe(w: World, v: World)
    requires Safe(w) && Transits(w, v, BootStart)
    ensures Safe(v)
  {
  }

  lemma TermStartSafe(w: World, v: World, step: Step)
    requires Safe(w) && step.TermStart? && Transits(w, v, step)
    ensures Safe(v)
  {
    assert !Quiet(w.leases[step.id]);
  }

  lemma StepSafe(w: World, v: World, step: Step)
    requires Safe(w) && Transits(w, v, step)
    ensures Safe(v)
  {
    hide Safe, EffectOf;
    if step.Crash? {
      CrashSafe(w, v);
    } else if step.PowerLoss? {
      PowerLossSafe(w, v);
    } else if step.External? {
      ExternalSafe(w, v, step.db);
    } else if step.BootStart? {
      BootStartSafe(w, v);
    } else if step.TermStart? {
      TermStartSafe(w, v, step);
    } else {
      EffectSafe(w, v, step);
    }
  }

  lemma {:induction false} SafeThroughout(ws: seq<World>, steps: seq<Step>, i: nat)
    requires Execution(ws, steps) && i < |ws|
    ensures Safe(ws[i])
  {
    if i > 0 {
      hide Safe, Transits;
      SafeThroughout(ws, steps, i - 1);
      assert Transits(ws[i - 1], ws[i], steps[i - 1]);
      StepSafe(ws[i - 1], ws[i], steps[i - 1]);
    }
  }

  // ---- The dispatch ----

  /** Over every run, power losses included: one dispatch per lease at most, never beside an abort receipt. */
  lemma DispatchedAtMostOnce(ws: seq<World>, steps: seq<Step>, i: nat, id: nat)
    requires Execution(ws, steps) && i < |ws| && id < |ws[i].leases|
    ensures var l := ws[i].leases[id];
            && l.dispatches <= 1
            && (l.dispatches == 1 ==> Durable(l.marker) && !(l.receipt.Doc? && l.receipt.what == Abort))
  {
    SafeThroughout(ws, steps, i);
  }

  /**
   * Reruns are kept out by the custody directory alone: a dispatch happens with its own evidence and marker on the
   * disk, while every other lease of the target is out of the way for good and, if it was dispatched, settled.
   */
  lemma DispatchedAlone(ws: seq<World>, steps: seq<Step>, i: nat)
    requires Execution(ws, steps) && i < |steps| && steps[i].Send?
    ensures ws[i].proc.Boot? && ws[i].proc.id < |ws[i].leases|
    ensures var l := ws[i].leases[ws[i].proc.id];
            Evident(l) && Durable(l.marker) && l.dispatches == 0 && l.receipt == NoDoc
    ensures forall j :: 0 <= j < |ws[i].leases| && j != ws[i].proc.id ==>
              Quiet(ws[i].leases[j]) && (ws[i].leases[j].dispatches == 1 ==> Settled(ws[i].leases[j]))
  {
    SafeThroughout(ws, steps, i);
    assert Transits(ws[i], ws[i + 1], steps[i]);
  }

  /** Of two dispatched leases the earlier one was proven applied or closed by finalize, and stays so. */
  lemma EarlierDispatchSettled(ws: seq<World>, steps: seq<Step>, i: nat, a: nat, b: nat)
    requires Execution(ws, steps) && i < |ws| && a < b < |ws[i].leases|
    requires ws[i].leases[a].dispatches == 1 && ws[i].leases[b].dispatches == 1
    ensures Settled(ws[i].leases[a]) && Quiet(ws[i].leases[a])
  {
    SafeThroughout(ws, steps, i);
  }

  // ---- One dispatch for the whole target ----

  /** No lease but `id` was dispatched. */
  predicate OthersUnsent(ls: seq<Lease>, id: nat) {
    forall i :: 0 <= i < |ls| && i != id ==> ls[i].dispatches == 0
  }

  /**
   * A settled dispatch left its mark in the database, and a bootstrap that read it as empty is the first to dispatch.
   */
  predicate Spent(w: World) {
    && (forall i :: 0 <= i < |w.leases| && w.leases[i].dispatches == 1 && Settled(w.leases[i]) ==> w.db != Empty)
    && (w.proc.Boot? && w.proc.bootPc !in {Creating, Written, Holding, ReleasingRetiring, ReleasingRetired} ==>
          OthersUnsent(w.leases, w.proc.id))
    && forall i, j :: 0 <= i < j < |w.leases| && w.leases[i].dispatches == 1 ==> w.leases[j].dispatches == 0
  }

  /** What one effect means for the dispatches of its own lease. */
  lemma EffectSpends(w: World, step: Step)
    requires Safe(w) && Spent(w) && EffectOf(w, step).Some?
    ensures var l, e := w.leases[w.proc.id], EffectOf(w, step).value;
            && (w.db != Empty ==> e.db != Empty) && (e.proc != Nobody ==> e.proc.id == w.proc.id)
            && (e.lease.dispatches == l.dispatches || (step.Send? && OthersUnsent(w.leases, w.proc.id)))
            && (e.lease.dispatches == 1 && Settled(e.lease) ==> (l.dispatches == 1 && Settled(l)) || e.db != Empty)
            && (e.proc.Boot? && e.proc.bootPc !in {Creating, Written, Holding, ReleasingRetiring, ReleasingRetired} ==>
                  OthersUnsent(w.leases, w.proc.id))
  {
    if step.ReadEmpty? {
      forall i | 0 <= i < |w.leases| && i != w.proc.id ensures w.leases[i].dispatches == 0 {
        assert LeaseOk(w.leases[i]) && Quiet(w.leases[i]);
      }
    }
  }

  lemma PowerLossSpends(w: World, v: World)
    requires Spent(w) && MayFollowPowerLoss(w, v)
    ensures Spent(v)
  {
    forall i | 0 <= i < |v.leases|
      ensures v.leases[i].dispatches == w.leases[i].dispatches && (Settled(v.leases[i]) ==> Settled(w.leases[i]))
    {
      assert LeaseMayRemain(w.leases[i], v.leases[i]);
    }
  }

  lemma StartSpends(w: World, v: World, step: Step)
    requires Spent(w) && Transits(w, v, step) && step != External(Empty)
    requires step.Crash? || step.External? || step.BootStart? || step.TermStart?
    ensures Spent(v)
  {
  }

  lemma StepSpends(w: World, v: World, step: Step)
    requires Safe(w) && Spent(w) && Transits(w, v, step) && step != External(Empty)
    ensures Spent(v)
  {
    hide BootEffect, TermEffect, Safe;
    if step.PowerLoss? {
      PowerLossSpends(w, v);
    } else if step.Crash? || step.External? || step.BootStart? || step.TermStart? {
      StartSpends(w, v, step);
    } else {
      EffectSpends(w, step);
      var id, synced := w.proc.id, Syncs(w.proc, step);
      forall i | 0 <= i < |v.leases| && i != id
        ensures v.leases[i].dispatches == w.leases[i].dispatches && (Settled(v.leases[i]) <==> Settled(w.leases[i]))
      {
        assert v.leases[i] == Beside(w.leases[i], synced);
      }
      assert v.leases[id] == EffectOf(w, step).value.lease;
    }
  }

  /**
   * While nobody empties the database, at most one dispatch happens for the whole target, over any number of
   * bootstraps, finalizes and aborts, crashes and power losses.
   */
  lemma {:induction false} OneDispatchPerTarget(ws: seq<World>, steps: seq<Step>, i: nat)
    requires Execution(ws, steps) && i < |ws|
    requires forall j :: 0 <= j < i ==> steps[j] != External(Empty)
    ensures Spent(ws[i])
    ensures forall a, b :: 0 <= a < b < |ws[i].leases| ==>
              ws[i].leases[a].dispatches + ws[i].leases[b].dispatches <= 1
  {
    SafeThroughout(ws, steps, i);
    if i > 0 {
      OneDispatchPerTarget(ws, steps, i - 1);
      SafeThroughout(ws, steps, i - 1);
      assert Transits(ws[i - 1], ws[i], steps[i - 1]);
      StepSpends(ws[i - 1], ws[i], steps[i - 1]);
    }
    forall a, b | 0 <= a < b < |ws[i].leases| ensures ws[i].leases[a].dispatches + ws[i].leases[b].dispatches <= 1 {
      assert LeaseOk(ws[i].leases[a]) && LeaseOk(ws[i].leases[b]);
    }
  }
}
