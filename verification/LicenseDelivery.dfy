/**
 Licence deliveries running side by side.

 Any number of workers deliver any orders. Each delivery is one database transaction that
 locks its order row, reads the order, looks for a licence the order already holds, picks a
 free one skipping locked rows, sends it, and publishes all its writes in one final commit.
 Every point between two statements is a point where other workers, administrators and
 crashes may act. The atomic `Deliver` of `LicensePool` is the specification.
 */
module LicenseDelivery {
  import opened Common
  import opened LicensePool

  /**
   How far a delivery transaction has come, with what it has read but not yet published. A pick
   remembers the rows it skipped; one that found nothing also how many rows there were.
   */
  datatype Phase =
    | Locked
    | Checked
    | Missing
    | Empty(skipped: set<nat>, seen: nat)
    | Chosen(lid: nat, picked: bool, skipped: set<nat>)
    | Attempted(lid: nat, picked: bool, skipped: set<nat>, sent: bool)
  {
    predicate HasLicense() {
      Chosen? || Attempted?
    }

    /** The licence row this transaction picked from the pool and holds locked. */
    predicate Locks(id: nat) {
      HasLicense() && picked && lid == id
    }
  }

  datatype Txn = Txn(oid: nat, phase: Phase)

  /** Committed tables, open transactions, and two histories: answers given and licences sent. */
  datatype System = System(
    db: Db,
    txns: map<nat, Txn>,
    reports: seq<(nat, Report)>,
    sends: seq<(nat, nat)>)

  datatype AdminOp =
    | NewOrder(product: nat, isLicenseProduct: bool, user: nat)
    | MoveOrder(oid: nat, status: OrderStatus)
    | Import(product: nat)
    | BreakLicense(lid: nat)
    | BlockLicense(lid: nat)
    | ReplaceLicense(oid: nat, chosen: Option<nat>, sent: bool)

  datatype Step =
    | Lock(w: nat, oid: nat)
    | ReadOrder(w: nat)
    | FindActive(w: nat)
    | Pick(w: nat)
    | Send(w: nat, ok: bool)
    | Commit(w: nat)
    | Crash(w: nat)
    | CrashReplacement(oid: nat, chosen: Option<nat>)
    | Admin(op: AdminOp)

  // ---------------------------------------------------------------------------
  // The interleaved machine
  // ---------------------------------------------------------------------------

  function RowLocked(s: System): (r: set<nat>)
    ensures forall id :: id in r <==> exists w :: w in s.txns && s.txns[w].phase.Locks(id)
  {
    set w | w in s.txns && s.txns[w].phase.HasLicense() && s.txns[w].phase.picked :: s.txns[w].phase.lid
  }

  predicate OrderLocked(s: System, oid: nat) {
    exists w :: w in s.txns && s.txns[w].oid == oid
  }

  function AdminApply(db: Db, op: AdminOp, hidden: set<nat>): Db {
    match op
    case NewOrder(p, isLicense, user) =>
      db.(orders := db.orders + [Order(p, isLicense, user, PendingPayment, None, None)])
    case MoveOrder(oid, status) =>
      if oid < |db.orders| && !db.orders[oid].status.Paid() && status != Delivered
      then db.(orders := db.orders[oid := db.orders[oid].(status := status)])
      else db
    case Import(p) => db.(licenses := db.licenses + [License(p, Available, None, None, None)])
    case BreakLicense(lid) => MarkBroken(db, lid)
    case BlockLicense(lid) => Block(db, lid).0
    case ReplaceLicense(oid, chosen, sent) => Replace(db, oid, chosen, hidden, sent).0
  }

  /** Administrators act on a licence or order only while no delivery is holding it. */
  predicate AdminEnabled(s: System, op: AdminOp) {
    match op
    case BreakLicense(lid) => LicenseIdle(s, lid)
    case BlockLicense(lid) => LicenseIdle(s, lid)
    case ReplaceLicense(oid, chosen, _) =>
      !OrderLocked(s, oid) && (chosen.Some? ==> chosen.value !in RowLocked(s))
    case _ => true
  }

  predicate LicenseIdle(s: System, lid: nat) {
    && lid !in RowLocked(s)
    && (lid < |s.db.licenses| && s.db.licenses[lid].order.Some? ==> !OrderLocked(s, s.db.licenses[lid].order.value))
  }

  function AdminSends(db: Db, op: AdminOp, hidden: set<nat>): seq<(nat, nat)> {
    if op.ReplaceLicense? then
      var report := Replace(db, op.oid, op.chosen, hidden, op.sent).1;
      if report.Ok? && op.sent then [(report.value.replacement, op.oid)] else []
    else []
  }

  /** What a replacement has sent when it dies before its commit. */
  function LostSends(s: System, oid: nat, chosen: Option<nat>): seq<(nat, nat)> {
    var op := ReplaceLicense(oid, chosen, true);
    if AdminEnabled(s, op) then AdminSends(s.db, op, RowLocked(s)) else []
  }

  function Advance(s: System, w: nat, phase: Phase): System
    requires w in s.txns
  {
    s.(txns := s.txns[w := s.txns[w].(phase := phase)])
  }

  /** Ends a transaction with an answer, publishing `db`. */
  function Close(s: System, w: nat, db: Db, report: Report): System
    requires w in s.txns
  {
    s.(db := db, txns := s.txns - {w}, reports := s.reports + [(s.txns[w].oid, report)])
  }

  /** What a delivery that has finished its work publishes. */
  function Publish(db: Db, t: Txn): (Db, Report)
    requires t.oid < |db.orders|
    requires t.phase.Attempted? ==> t.phase.lid < |db.licenses|
  {
    if t.phase.Attempted? then
      Finish(if t.phase.picked then ReserveFor(db, t.oid, t.phase.lid) else db, t.oid, t.phase.lid, t.phase.sent)
    else
      (FlagNoStock(db, t.oid), Ok(OutOfStock))
  }

  /** One step of the system. A step that is not enabled leaves everything as it is. */
  function Next(s: System, step: Step): System {
    match step
    case Lock(w, oid) =>
      if w in s.txns || OrderLocked(s, oid) then s else s.(txns := s.txns[w := Txn(oid, Locked)])
    case ReadOrder(w) =>
      if w !in s.txns || s.txns[w].phase != Locked then s
      else
        var answer := Precheck(s.db, s.txns[w].oid);
        if answer.Some? then Close(s, w, s.db, answer.value) else Advance(s, w, Checked)
    case FindActive(w) =>
      if w !in s.txns || s.txns[w].phase != Checked then s
      else
        var active := ActiveLicense(s.db.licenses, s.txns[w].oid);
        Advance(s, w, if active.Some? then Chosen(active.value, false, {}) else Missing)
    case Pick(w) =>
      if w !in s.txns || s.txns[w].phase != Missing || s.txns[w].oid >= |s.db.orders| then s
      else
        var hidden := RowLocked(s);
        var free := FirstFree(s.db.licenses, s.db.orders[s.txns[w].oid].product, hidden);
        Advance(s, w, if free.Some? then Chosen(free.value, true, hidden) else Empty(hidden, |s.db.licenses|))
    case Send(w, ok) =>
      if w !in s.txns || !s.txns[w].phase.Chosen? then s
      else
        var t := s.txns[w];
        var sends := if ok then s.sends + [(t.phase.lid, t.oid)] else s.sends;
        Advance(s, w, Attempted(t.phase.lid, t.phase.picked, t.phase.skipped, ok)).(sends := sends)
    case Commit(w) =>
      if w !in s.txns || !CanPublish(s.db, s.txns[w]) then s
      else
        var (db, report) := Publish(s.db, s.txns[w]);
        Close(s, w, db, report)
    case Crash(w) => s.(txns := s.txns - {w})
    case CrashReplacement(oid, chosen) => s.(sends := s.sends + LostSends(s, oid, chosen))
    case Admin(op) =>
      if !AdminEnabled(s, op) then s
      else s.(db := AdminApply(s.db, op, RowLocked(s)), sends := s.sends + AdminSends(s.db, op, RowLocked(s)))
  }

  predicate CanPublish(db: Db, t: Txn) {
    t.oid < |db.orders| && (t.phase.Empty? || (t.phase.Attempted? && t.phase.lid < |db.licenses|))
  }

  function Run(s: System, steps: seq<Step>): System
    decreases |steps|
  {
    if steps == [] then s else Run(Next(s, steps[0]), steps[1..])
  }

  // ---------------------------------------------------------------------------
  // The invariant
  // ---------------------------------------------------------------------------

  /** What a transaction has read is still true of the committed tables. */
  ghost predicate ReadsHold(db: Db, t: Txn) {
    match t.phase
    case Locked => true
    case Checked => Precheck(db, t.oid).None?
    case Missing => Precheck(db, t.oid).None? && ActiveLicense(db.licenses, t.oid).None?
    case Empty(skipped, seen) =>
      && Precheck(db, t.oid).None? && ActiveLicense(db.licenses, t.oid).None?
      && seen <= |db.licenses|
      && forall i :: 0 <= i < seen && db.licenses[i].FreeFor(db.orders[t.oid].product) ==> i in skipped
    case _ =>
      && Precheck(db, t.oid).None?
      && (if t.phase.picked then
            && ActiveLicense(db.licenses, t.oid).None?
            && FirstFree(db.licenses, db.orders[t.oid].product, t.phase.skipped) == Some(t.phase.lid)
          else
            ActiveLicense(db.licenses, t.oid) == Some(t.phase.lid))
  }

  /** Locks exclude: no two transactions share an order, or a licence they picked. */
  ghost predicate Exclusive(txns: map<nat, Txn>) {
    forall v, w :: v in txns && w in txns && v != w ==>
      && txns[v].oid != txns[w].oid
      && (txns[v].phase.HasLicense() && txns[v].phase.picked ==> !txns[w].phase.Locks(txns[v].phase.lid))
  }

  ghost predicate Inv(s: System) {
    && Safe(s.db)
    && Exclusive(s.txns)
    && forall w :: w in s.txns ==> ReadsHold(s.db, s.txns[w])
  }

  /** A system at rest: nothing in progress, no history. */
  function Start(db: Db): (s: System)
    requires Safe(db)
    ensures Inv(s) && AllTracked(s) && SalesOnce(Seen(s))
  {
    System(db, map[], [], [])
  }

  /** The tables moved from `db` to `db'` without touching what transaction `t` depends on. */
  ghost predicate Undisturbed(db: Db, db': Db, t: Txn) {
    && (t.oid < |db.orders| ==> t.oid < |db'.orders| && (t.phase.Locked? || db'.orders[t.oid] == db.orders[t.oid]))
    && |db.licenses| <= |db'.licenses|
    && (forall i :: 0 <= i < |db'.licenses| ==>
          && (db'.licenses[i].HeldBy(t.oid) <==> i < |db.licenses| && db.licenses[i].HeldBy(t.oid))
          && (i < |db.licenses| && db'.licenses[i].status == Available ==> db'.licenses[i] == db.licenses[i]))
    && (t.phase.HasLicense() && t.phase.picked && t.phase.lid < |db.licenses| ==>
          db'.licenses[t.phase.lid] == db.licenses[t.phase.lid])
  }

  lemma ReadsStable(db: Db, db': Db, t: Txn)
    requires ReadsHold(db, t) && Undisturbed(db, db', t)
    ensures ReadsHold(db', t)
  {
    var now := ActiveLicense(db'.licenses, t.oid);
    var before := ActiveLicense(db.licenses, t.oid);
    assert now.Some? ==> db.licenses[now.value].HeldBy(t.oid);
    assert before.Some? ==> db'.licenses[before.value].HeldBy(t.oid);
    assert now == before;
    if t.phase.HasLicense() && t.phase.picked {
      var free := FirstFree(db'.licenses, db'.orders[t.oid].product, t.phase.skipped);
      assert db'.licenses[t.phase.lid].FreeFor(db'.orders[t.oid].product);
      assert forall j :: 0 <= j < t.phase.lid && db'.licenses[j].status == Available ==>
               db.licenses[j] == db'.licenses[j];
      assert free.Some?;
    }
  }

  lemma AdminKeepsSafe(db: Db, op: AdminOp, hidden: set<nat>)
    requires Safe(db)
    ensures Safe(AdminApply(db, op, hidden)) && Kept(db, AdminApply(db, op, hidden))
  {
    if op.ReplaceLicense? {
      hide Replace, Safe, Kept;
      ReplaceSafe(db, op.oid, op.chosen, hidden, op.sent);
    }
  }

  lemma AdminUndisturbing(s: System, op: AdminOp, w: nat)
    requires Inv(s) && AdminEnabled(s, op) && w in s.txns
    ensures Undisturbed(s.db, AdminApply(s.db, op, RowLocked(s)), s.txns[w])
  {
    match op
    case ReplaceLicense(oid, chosen, sent) => ReplaceUndisturbing(s, oid, chosen, sent, w);
    case BreakLicense(lid) => RetireUndisturbing(s, op, lid, w);
    case BlockLicense(lid) => RetireUndisturbing(s, op, lid, w);
    case _ => PlainUndisturbing(s, op, w);
  }

  lemma PlainUndisturbing(s: System, op: AdminOp, w: nat)
    requires Inv(s) && w in s.txns && (op.NewOrder? || op.MoveOrder? || op.Import?)
    ensures Undisturbed(s.db, AdminApply(s.db, op, RowLocked(s)), s.txns[w])
  {
    assert ReadsHold(s.db, s.txns[w]);
    assert forall i :: 0 <= i < |s.db.licenses| ==> RowSafe(s.db.licenses[i], s.db.orders);
  }

  lemma RetireUndisturbing(s: System, op: AdminOp, lid: nat, w: nat)
    requires Inv(s) && AdminEnabled(s, op) && w in s.txns
    requires op == BreakLicense(lid) || op == BlockLicense(lid)
    ensures Undisturbed(s.db, AdminApply(s.db, op, RowLocked(s)), s.txns[w])
  {
    assert ReadsHold(s.db, s.txns[w]);
    assert lid < |s.db.licenses| ==> RowSafe(s.db.licenses[lid], s.db.orders);
    assert s.txns[w].phase.HasLicense() ==> s.txns[w].phase.picked ==> s.txns[w].phase.Locks(s.txns[w].phase.lid);
  }

  /** A replacement touches its order, the licence it retires and the free one it takes. */
  lemma ReplaceTouches(db: Db, oid: nat, chosen: Option<nat>, hidden: set<nat>, sent: bool, i: nat)
    requires i < |db.licenses|
    ensures var after := Replace(db, oid, chosen, hidden, sent).0;
            && |after.licenses| == |db.licenses| && |after.orders| == |db.orders|
            && (forall o :: 0 <= o < |db.orders| && o != oid ==> after.orders[o] == db.orders[o])
            && (after.licenses[i] != db.licenses[i] ==>
                  && after.licenses[i].order == Some(oid) && after.licenses[i].status != Available
                  && (|| db.licenses[i].HeldBy(oid)
                      || (db.licenses[i].status == Available && (i !in hidden || chosen == Some(i)))))
  {
  }

  lemma ReplaceUndisturbing(s: System, oid: nat, chosen: Option<nat>, sent: bool, w: nat)
    requires Inv(s) && AdminEnabled(s, ReplaceLicense(oid, chosen, sent)) && w in s.txns
    ensures Undisturbed(s.db, Replace(s.db, oid, chosen, RowLocked(s), sent).0, s.txns[w])
  {
    hide Replace;
    var t := s.txns[w];
    var after := Replace(s.db, oid, chosen, RowLocked(s), sent).0;
    assert ReadsHold(s.db, t);
    assert t.phase.HasLicense() ==> t.phase.picked ==> t.phase.Locks(t.phase.lid);
    if s.db.licenses == [] {
      assert after == s.db by { NothingToReplace(s.db, oid, chosen, RowLocked(s), sent); }
    } else {
      ReplaceTouches(s.db, oid, chosen, RowLocked(s), sent, 0);
    }
    forall i | 0 <= i < |s.db.licenses|
      ensures after.licenses[i].HeldBy(t.oid) <==> s.db.licenses[i].HeldBy(t.oid)
      ensures after.licenses[i].status == Available ==> after.licenses[i] == s.db.licenses[i]
      ensures t.phase.HasLicense() && t.phase.picked && t.phase.lid == i ==> after.licenses[i] == s.db.licenses[i]
    {
      ReplaceTouches(s.db, oid, chosen, RowLocked(s), sent, i);
    }
  }

  lemma NothingToReplace(db: Db, oid: nat, chosen: Option<nat>, hidden: set<nat>, sent: bool)
    requires db.licenses == []
    ensures Replace(db, oid, chosen, hidden, sent).0 == db
  {
  }

  lemma AdminKeepsInv(s: System, op: AdminOp)
    requires Inv(s) && AdminEnabled(s, op)
    ensures Inv(Next(s, Admin(op)))
  {
    AdminKeepsSafe(s.db, op, RowLocked(s));
    forall w | w in s.txns
      ensures ReadsHold(AdminApply(s.db, op, RowLocked(s)), s.txns[w])
    {
      AdminUndisturbing(s, op, w);
      ReadsStable(s.db, AdminApply(s.db, op, RowLocked(s)), s.txns[w]);
    }
  }

  /** A commit publishes exactly what the atomic delivery would have done at that moment. */
  lemma CommitIsDeliver(db: Db, t: Txn)
    requires ReadsHold(db, t) && CanPublish(db, t)
    ensures Publish(db, t) == Deliver(db, t.oid, Hidden(db, t), t.phase.Attempted? && t.phase.sent)
  {
  }

  function Between(lo: nat, hi: nat): (ids: set<nat>)
    ensures forall id :: id in ids <==> lo <= id < hi
  {
    if lo >= hi then {} else Between(lo, hi - 1) + {hi - 1}
  }

  /** The rows the picking query of a transaction did not see: those it skipped, and later ones. */
  function Hidden(db: Db, t: Txn): set<nat> {
    if t.phase.Empty? then t.phase.skipped + Between(t.phase.seen, |db.licenses|)
    else if t.phase.HasLicense() && t.phase.picked then t.phase.skipped
    else {}
  }

  lemma CommitKeepsInv(s: System, w: nat)
    requires Inv(s) && w in s.txns && CanPublish(s.db, s.txns[w])
    ensures Inv(Next(s, Commit(w))) && Kept(s.db, Next(s, Commit(w)).db)
  {
    hide Publish, Deliver, Undisturbed, Safe, Kept;
    var t := s.txns[w];
    var db := Publish(s.db, t).0;
    CommitIsDeliver(s.db, t);
    DeliverSafe(s.db, t.oid, Hidden(s.db, t), t.phase.Attempted? && t.phase.sent);
    forall v | v in s.txns && v != w
      ensures ReadsHold(db, s.txns[v])
    {
      CommitUndisturbing(s, w, v);
      ReadsStable(s.db, db, s.txns[v]);
    }
  }

  lemma CommitUndisturbing(s: System, w: nat, v: nat)
    requires Inv(s) && w in s.txns && v in s.txns && v != w && CanPublish(s.db, s.txns[w])
    ensures Undisturbed(s.db, Publish(s.db, s.txns[w]).0, s.txns[v])
  {
    assert ReadsHold(s.db, s.txns[w]) && ReadsHold(s.db, s.txns[v]);
  }

  lemma AdvanceKeepsInv(s: System, w: nat, phase: Phase)
    requires Inv(s) && w in s.txns
    requires ReadsHold(s.db, s.txns[w].(phase := phase))
    requires phase.HasLicense() && phase.picked ==>
               forall v :: v in s.txns && v != w ==> !s.txns[v].phase.Locks(phase.lid)
    ensures Inv(Advance(s, w, phase))
  {
    var after := Advance(s, w, phase);
    forall u, v | u in after.txns && v in after.txns && u != v
      ensures && after.txns[u].oid != after.txns[v].oid
              && (after.txns[u].phase.HasLicense() && after.txns[u].phase.picked ==>
                    !after.txns[v].phase.Locks(after.txns[u].phase.lid))
    {
      assert s.txns[u].oid != s.txns[v].oid;
    }
  }

  lemma PickKeepsInv(s: System, w: nat)
    requires Inv(s) && w in s.txns && s.txns[w].phase == Missing
    ensures Inv(Next(s, Pick(w)))
  {
    assert ReadsHold(s.db, s.txns[w]);
    var hidden := RowLocked(s);
    var free := FirstFree(s.db.licenses, s.db.orders[s.txns[w].oid].product, hidden);
    AdvanceKeepsInv(s, w, if free.Some? then Chosen(free.value, true, hidden) else Empty(hidden, |s.db.licenses|));
  }

  lemma OwnStepKeepsInv(s: System, w: nat, step: Step)
    requires Inv(s) && w in s.txns
    requires step == ReadOrder(w) || step == FindActive(w) || (step.Send? && step.w == w)
    ensures Inv(Next(s, step)) && Next(s, step).db == s.db
  {
    var t := s.txns[w];
    assert ReadsHold(s.db, t);
    match step
    case ReadOrder(_) => if t.phase.Locked? && Precheck(s.db, t.oid).None? { AdvanceKeepsInv(s, w, Checked); }
    case FindActive(_) =>
      if t.phase.Checked? {
        var active := ActiveLicense(s.db.licenses, t.oid);
        AdvanceKeepsInv(s, w, if active.Some? then Chosen(active.value, false, {}) else Missing);
      }
    case Send(_, ok) =>
      if t.phase.Chosen? {
        if t.phase.picked { assert t.phase.Locks(t.phase.lid); }
        AdvanceKeepsInv(s, w, Attempted(t.phase.lid, t.phase.picked, t.phase.skipped, ok));
      }
  }

  lemma StepKeepsInv(s: System, step: Step)
    requires Inv(s)
    ensures Inv(Next(s, step)) && Kept(s.db, Next(s, step).db)
  {
    match step
    case Commit(w) => if w in s.txns && CanPublish(s.db, s.txns[w]) { CommitKeepsInv(s, w); }
    case Admin(op) =>
      if AdminEnabled(s, op) {
        AdminKeepsInv(s, op);
        AdminKeepsSafe(s.db, op, RowLocked(s));
      }
    case Pick(w) => if w in s.txns && s.txns[w].phase == Missing { PickKeepsInv(s, w); }
    case ReadOrder(w) => if w in s.txns { OwnStepKeepsInv(s, w, step); }
    case FindActive(w) => if w in s.txns { OwnStepKeepsInv(s, w, step); }
    case Send(w, _) => if w in s.txns { OwnStepKeepsInv(s, w, step); }
    case Lock(_, _) =>
    case Crash(_) =>
    case CrashReplacement(_, _) =>
  }

  /**
   Safety over whole runs: however deliveries, administrators and crashes interleave, the
   committed tables stay safe, and nothing once written is undone.
   */
  lemma {:induction false} RunKeepsSafe(s: System, steps: seq<Step>)
    requires Inv(s)
    ensures Inv(Run(s, steps)) && Safe(Run(s, steps).db)
    ensures Kept(s.db, Run(s, steps).db)
    decreases |steps|
  {
    if steps == [] {
    } else {
      StepKeepsInv(s, steps[0]);
      RunKeepsSafe(Next(s, steps[0]), steps[1..]);
      KeptTransitive(s.db, Next(s, steps[0]).db, Run(s, steps).db);
    }
  }

  // ---------------------------------------------------------------------------
  // Serializability
  // ---------------------------------------------------------------------------

  datatype AtomicOp =
    | DeliverWhole(oid: nat, hidden: set<nat>, sent: bool)
    | AdminWhole(op: AdminOp, hidden: set<nat>)

  /** Tables and answers of a shop in which every delivery happens in one piece. */
  datatype Serial = Serial(db: Db, reports: seq<(nat, Report)>)

  function SerialStep(a: Serial, op: AtomicOp): Serial {
    match op
    case DeliverWhole(oid, hidden, sent) =>
      var (db, report) := Deliver(a.db, oid, hidden, sent);
      Serial(db, a.reports + [(oid, report)])
    case AdminWhole(op, hidden) => a.(db := AdminApply(a.db, op, hidden))
  }

  function SerialRun(a: Serial, ops: seq<AtomicOp>): Serial
    decreases |ops|
  {
    if ops == [] then a else SerialRun(SerialStep(a, ops[0]), ops[1..])
  }

  /** The atomic operation a step stands for: none, unless it answers, publishes or administers. */
  function Effect(s: System, step: Step): seq<AtomicOp> {
    match step
    case ReadOrder(w) =>
      if w in s.txns && s.txns[w].phase == Locked && Precheck(s.db, s.txns[w].oid).Some?
      then [DeliverWhole(s.txns[w].oid, {}, false)] else []
    case Commit(w) =>
      if w in s.txns && CanPublish(s.db, s.txns[w])
      then [DeliverWhole(s.txns[w].oid, Hidden(s.db, s.txns[w]), s.txns[w].phase.Attempted? && s.txns[w].phase.sent)]
      else []
    case Admin(op) => if AdminEnabled(s, op) then [AdminWhole(op, RowLocked(s))] else []
    case _ => []
  }

  function Effects(s: System, steps: seq<Step>): seq<AtomicOp>
    decreases |steps|
  {
    if steps == [] then [] else Effect(s, steps[0]) + Effects(Next(s, steps[0]), steps[1..])
  }

  function Seen(s: System): Serial {
    Serial(s.db, s.reports)
  }

  lemma StepIsSerial(s: System, step: Step)
    requires Inv(s)
    ensures Seen(Next(s, step)) == SerialRun(Seen(s), Effect(s, step))
  {
    match step
    case Commit(w) =>
      if w in s.txns && CanPublish(s.db, s.txns[w]) {
        assert ReadsHold(s.db, s.txns[w]);
        CommitIsDeliver(s.db, s.txns[w]);
      }
    case _ =>
  }

  lemma {:induction false} SerialRunAppend(a: Serial, xs: seq<AtomicOp>, ys: seq<AtomicOp>)
    ensures SerialRun(a, xs + ys) == SerialRun(SerialRun(a, xs), ys)
    decreases |xs|
  {
    if xs == [] {
      assert xs + ys == ys;
    } else {
      assert (xs + ys)[1..] == xs[1..] + ys;
      SerialRunAppend(SerialStep(a, xs[0]), xs[1..], ys);
    }
  }

  /**
   Every interleaved run is equivalent to a serial one: the committed tables and the answers
   given are those of whole deliveries executed one after the other, in commit order.
   */
  lemma {:induction false} RunIsSerial(s: System, steps: seq<Step>)
    requires Inv(s)
    ensures Seen(Run(s, steps)) == SerialRun(Seen(s), Effects(s, steps))
    decreases |steps|
  {
    if steps == [] {
    } else {
      StepIsSerial(s, steps[0]);
      StepKeepsInv(s, steps[0]);
      RunIsSerial(Next(s, steps[0]), steps[1..]);
      SerialRunAppend(Seen(s), Effect(s, steps[0]), Effects(Next(s, steps[0]), steps[1..]));
    }
  }

  // ---------------------------------------------------------------------------
  // What a pick may miss
  // ---------------------------------------------------------------------------

  lemma {:induction false} RunLast(s: System, steps: seq<Step>)
    requires steps != []
    ensures Run(s, steps) == Next(Run(s, steps[..|steps| - 1]), steps[|steps| - 1])
    decreases |steps|
  {
    hide Next;
    if |steps| == 1 {
      assert steps[1..] == [];
    } else {
      RunLast(Next(s, steps[0]), steps[1..]);
      assert steps[1..][..|steps[1..]| - 1] == steps[..|steps| - 1][1..];
    }
  }

  /** The transaction has made its picking query. */
  predicate HasPicked(t: Txn) {
    t.phase.Empty? || (t.phase.HasLicense() && t.phase.picked)
  }

  /** Transaction `t` of worker `w` made its pick in `s`, and missed only what others had locked there. */
  ghost predicate PickedIn(s: System, w: nat, t: Txn)
    requires HasPicked(t)
  {
    && w in s.txns && s.txns[w] == Txn(t.oid, Missing)
    && t.phase.skipped == RowLocked(s)
    && (t.phase.Empty? ==> t.phase.seen == |s.db.licenses|)
  }

  /** A picked transaction has just picked, or had picked before with the same result. */
  lemma PickOrigin(s: System, step: Step, w: nat)
    requires w in Next(s, step).txns && HasPicked(Next(s, step).txns[w])
    ensures var t := Next(s, step).txns[w];
            || (step == Pick(w) && PickedIn(s, w, t))
            || (w in s.txns && HasPicked(s.txns[w]) && s.txns[w].oid == t.oid
                && s.txns[w].phase.skipped == t.phase.skipped
                && s.txns[w].phase.Empty? == t.phase.Empty?
                && (t.phase.Empty? ==> s.txns[w].phase.seen == t.phase.seen))
  {
    hide RowLocked, Publish, AdminApply, FirstFree, ActiveLicense;
  }

  ghost predicate PickedAt(s: System, steps: seq<Step>, j: nat, w: nat, t: Txn)
    requires HasPicked(t)
  {
    j < |steps| && steps[j] == Pick(w) && PickedIn(Run(s, steps[..j]), w, t)
  }

  lemma {:induction false} PickWasMade(s: System, steps: seq<Step>, w: nat)
    requires s.txns == map[]
    requires w in Run(s, steps).txns && HasPicked(Run(s, steps).txns[w])
    ensures exists j: nat :: PickedAt(s, steps, j, w, Run(s, steps).txns[w])
    decreases |steps|
  {
    if steps == [] {
    } else {
      var n := |steps| - 1;
      var init := steps[..n];
      RunLast(s, steps);
      PickOrigin(Run(s, init), steps[n], w);
      var t := Run(s, steps).txns[w];
      hide Run, Next, RowLocked;
      if steps[n] == Pick(w) && PickedIn(Run(s, init), w, t) {
        assert PickedAt(s, steps, n, w, t);
      } else {
        PickWasMade(s, init, w);
        var j: nat :| PickedAt(s, init, j, w, Run(s, init).txns[w]);
        assert init[..j] == steps[..j] && init[j] == steps[j];
        assert PickedAt(s, steps, j, w, t);
      }
    }
  }

  /** Another worker holds the row. */
  predicate LockedByOther(s: System, w: nat, id: nat) {
    exists v :: v in s.txns && v != w && s.txns[v].phase.Locks(id)
  }

  /**
   The serial deliveries of `RunIsSerial` do not look away: whatever row one of them does not
   see was locked by another worker when the pick was made, or was inserted after it.
   */
  lemma HiddenRowsWereLocked(s: System, steps: seq<Step>, w: nat)
    requires s.txns == map[]
    requires w in Run(s, steps).txns && HasPicked(Run(s, steps).txns[w])
    ensures exists j: nat :: j < |steps| && steps[j] == Pick(w) &&
              forall id :: id in Hidden(Run(s, steps).db, Run(s, steps).txns[w]) ==>
                LockedByOther(Run(s, steps[..j]), w, id) || id >= |Run(s, steps[..j]).db.licenses|
  {
    PickWasMade(s, steps, w);
    hide Run;
    var t := Run(s, steps).txns[w];
    var j: nat :| PickedAt(s, steps, j, w, t);
    var picking := Run(s, steps[..j]);
    forall id | id in Hidden(Run(s, steps).db, t)
      ensures LockedByOther(picking, w, id) || id >= |picking.db.licenses|
    {
      if id in RowLocked(picking) {
        var v :| v in picking.txns && picking.txns[v].phase.Locks(id);
        assert v != w;
      }
    }
  }

  /**
   An order is only told that stock ran out if, when its delivery looked, every licence of the
   product that is still free was locked by another worker, or had not been inserted yet.
   */
  lemma OutOfStockIsHonest(s: System, steps: seq<Step>, w: nat)
    requires Inv(s) && s.txns == map[]
    requires w in Run(s, steps).txns && Run(s, steps).txns[w].phase.Empty?
    ensures var now := Run(s, steps);
            && now.txns[w].oid < |now.db.orders|
            && exists j: nat :: j < |steps| && steps[j] == Pick(w) &&
                 forall id :: 0 <= id < |now.db.licenses|
                              && now.db.licenses[id].FreeFor(now.db.orders[now.txns[w].oid].product) ==>
                   LockedByOther(Run(s, steps[..j]), w, id) || id >= |Run(s, steps[..j]).db.licenses|
  {
    RunKeepsSafe(s, steps);
    HiddenRowsWereLocked(s, steps, w);
    hide Run;
    var now := Run(s, steps);
    assert ReadsHold(now.db, now.txns[w]);
    var j: nat :| j < |steps| && steps[j] == Pick(w) &&
                  forall id :: id in Hidden(now.db, now.txns[w]) ==>
                    LockedByOther(Run(s, steps[..j]), w, id) || id >= |Run(s, steps[..j]).db.licenses|;
    forall id | 0 <= id < |now.db.licenses| && now.db.licenses[id].FreeFor(now.db.orders[now.txns[w].oid].product)
      ensures id in Hidden(now.db, now.txns[w])
    {
    }
  }

  // ---------------------------------------------------------------------------
  // One sale per order
  // ---------------------------------------------------------------------------

  predicate IsSale(r: (nat, Report)) {
    r.1.Ok? && r.1.value.Sale?
  }

  /** Reported sales are of delivered orders, and no order was reported sold twice. */
  ghost predicate SalesOnce(a: Serial) {
    && (forall i :: 0 <= i < |a.reports| && IsSale(a.reports[i]) ==>
          a.reports[i].0 < |a.db.orders| && a.db.orders[a.reports[i].0].status == Delivered)
    && (forall i, j :: 0 <= i < j < |a.reports| && IsSale(a.reports[i]) && IsSale(a.reports[j]) ==>
          a.reports[i].0 != a.reports[j].0)
  }

  lemma SerialStepSalesOnce(a: Serial, op: AtomicOp)
    requires Safe(a.db) && SalesOnce(a)
    ensures Safe(SerialStep(a, op).db) && SalesOnce(SerialStep(a, op))
  {
    SerialStepSafe(a, op);
  }

  lemma {:induction false} SerialRunSalesOnce(a: Serial, ops: seq<AtomicOp>)
    requires Safe(a.db) && SalesOnce(a)
    ensures SalesOnce(SerialRun(a, ops))
    decreases |ops|
  {
    if ops == [] {
    } else {
      SerialStepSalesOnce(a, ops[0]);
      SerialRunSalesOnce(SerialStep(a, ops[0]), ops[1..]);
    }
  }

  /** Delivery is idempotent per order: over any run, an order is reported sold at most once. */
  lemma AtMostOneSalePerOrder(s: System, steps: seq<Step>)
    requires Inv(s) && SalesOnce(Seen(s))
    ensures SalesOnce(Seen(Run(s, steps)))
  {
    RunIsSerial(s, steps);
    SerialRunSalesOnce(Seen(s), Effects(s, steps));
  }

  /** The order has been delivered. */
  predicate IsDelivered(a: Serial, oid: nat) {
    oid < |a.db.orders| && a.db.orders[oid].status == Delivered
  }

  ghost predicate SaleReported(from: nat, a: Serial, oid: nat) {
    exists k :: from <= k < |a.reports| && a.reports[k].0 == oid && IsSale(a.reports[k])
  }

  /** Answers are only added, and every order delivered since has one that reports its sale. */
  ghost predicate SoldSince(a: Serial, b: Serial) {
    && a.reports <= b.reports
    && forall oid: nat :: IsDelivered(b, oid) && !IsDelivered(a, oid) ==> SaleReported(|a.reports|, b, oid)
  }

  lemma SerialStepSells(a: Serial, op: AtomicOp)
    requires Safe(a.db)
    ensures SoldSince(a, SerialStep(a, op))
  {
    match op
    case DeliverWhole(oid, hidden, sent) =>
      OnlySalesDeliver(a.db, oid, hidden, sent);
      var after := SerialStep(a, op);
      forall o: nat | IsDelivered(after, o) && !IsDelivered(a, o)
        ensures SaleReported(|a.reports|, after, o)
      {
        assert after.reports[|a.reports|].0 == o && IsSale(after.reports[|a.reports|]);
      }
    case AdminWhole(_, _) =>
  }

  lemma SoldSinceTransitive(a: Serial, b: Serial, c: Serial)
    requires SoldSince(a, b) && SoldSince(b, c)
    ensures SoldSince(a, c)
  {
    forall oid: nat | IsDelivered(c, oid) && !IsDelivered(a, oid)
      ensures SaleReported(|a.reports|, c, oid)
    {
      if IsDelivered(b, oid) {
        var k :| |a.reports| <= k < |b.reports| && b.reports[k].0 == oid && IsSale(b.reports[k]);
        assert c.reports[k] == b.reports[k];
      }
    }
  }

  lemma {:induction false} SerialRunSells(a: Serial, ops: seq<AtomicOp>)
    requires Safe(a.db)
    ensures SoldSince(a, SerialRun(a, ops))
    decreases |ops|
  {
    if ops == [] {
    } else {
      SerialStepSells(a, ops[0]);
      SerialStepSafe(a, ops[0]);
      hide SerialStep, SoldSince;
      SerialRunSells(SerialStep(a, ops[0]), ops[1..]);
      SoldSinceTransitive(a, SerialStep(a, ops[0]), SerialRun(a, ops));
    }
  }

  lemma SerialStepSafe(a: Serial, op: AtomicOp)
    requires Safe(a.db)
    ensures Safe(SerialStep(a, op).db)
  {
    match op
    case DeliverWhole(oid, hidden, sent) => DeliverSafe(a.db, oid, hidden, sent);
    case AdminWhole(op, hidden) => AdminKeepsSafe(a.db, op, hidden);
  }

  /** In any run, every order that came to be delivered was answered with the sale of a licence to it. */
  lemma DeliveredOrdersWereSold(s: System, steps: seq<Step>)
    requires Inv(s)
    ensures SoldSince(Seen(s), Seen(Run(s, steps)))
  {
    RunIsSerial(s, steps);
    hide SoldSince, Run, SerialRun, Effects;
    SerialRunSells(Seen(s), Effects(s, steps));
  }

  // ---------------------------------------------------------------------------
  // Whose eyes saw a licence
  // ---------------------------------------------------------------------------

  /** The send is on record: the licence belongs to the order, or is about to. */
  ghost predicate Tracked(s: System, send: (nat, nat)) {
    || (send.0 < |s.db.licenses| && s.db.licenses[send.0].order == Some(send.1))
    || exists w :: w in s.txns && InFlight(s.txns[w], send)
  }

  /** The licence was picked and sent for the order, and nothing of that is committed yet. */
  predicate InFlight(t: Txn, send: (nat, nat)) {
    t.phase.Attempted? && t.phase.picked && t.phase.sent && t.phase.lid == send.0 && t.oid == send.1
  }

  ghost predicate AllTracked(s: System) {
    && (forall i :: 0 <= i < |s.sends| ==> Tracked(s, s.sends[i]))
    && (forall w :: w in s.txns && s.txns[w].phase.Attempted? && s.txns[w].phase.sent ==>
          (s.txns[w].phase.lid, s.txns[w].oid) in s.sends)
  }

  /** A delivery or replacement dies after the buyer received a fresh licence and before the commit. */
  predicate CrashAfterSend(s: System, step: Step) {
    || (step.Crash? && step.w in s.txns && FreshlySent(s.txns[step.w].phase))
    || (step.CrashReplacement? && LostSends(s, step.oid, step.chosen) != [])
  }

  predicate FreshlySent(phase: Phase) {
    phase.Attempted? && phase.picked && phase.sent
  }

  /** A crash after the send is the one step that loses track of who received a licence. */
  lemma TrackedUnlessCrash(s: System, step: Step)
    requires Inv(s) && AllTracked(s)
    ensures AllTracked(Next(s, step)) <==> !CrashAfterSend(s, step)
  {
    StepKeepsInv(s, step);
    if CrashAfterSend(s, step) {
      if step.Crash? {
        LostTrack(s, step.w);
      } else {
        LostReplacement(s, step.oid, step.chosen);
      }
    } else {
      forall i | 0 <= i < |s.sends|
        ensures Tracked(Next(s, step), s.sends[i])
      {
        StaysTracked(s, step, s.sends[i]);
      }
      NewSendsTracked(s, step);
    }
  }

  lemma LostTrack(s: System, w: nat)
    requires Inv(s) && AllTracked(s) && CrashAfterSend(s, Crash(w))
    ensures !AllTracked(Next(s, Crash(w)))
  {
    var t := s.txns[w];
    var send := (t.phase.lid, t.oid);
    var after := Next(s, Crash(w));
    assert ReadsHold(s.db, t);
    assert RowSafe(s.db.licenses[t.phase.lid], s.db.orders);
    assert forall v :: v in after.txns ==> !InFlight(after.txns[v], send);
    assert !Tracked(after, send);
    assert send in after.sends;
  }

  lemma ReplacementIsFree(s: System, oid: nat, chosen: Option<nat>, send: (nat, nat))
    requires Inv(s) && send in LostSends(s, oid, chosen)
    ensures send.1 == oid && !OrderLocked(s, oid)
    ensures send.0 < |s.db.licenses| && s.db.licenses[send.0].status == Available
  {
  }

  lemma LostReplacement(s: System, oid: nat, chosen: Option<nat>)
    requires Inv(s) && LostSends(s, oid, chosen) != []
    ensures !AllTracked(Next(s, CrashReplacement(oid, chosen)))
  {
    var send := LostSends(s, oid, chosen)[0];
    var after := Next(s, CrashReplacement(oid, chosen));
    ReplacementIsFree(s, oid, chosen, send);
    hide LostSends;
    assert RowSafe(s.db.licenses[send.0], s.db.orders);
    assert !Tracked(after, send);
    assert send in after.sends;
  }

  lemma StaysTracked(s: System, step: Step, send: (nat, nat))
    requires Inv(s) && AllTracked(s) && !CrashAfterSend(s, step) && Tracked(s, send)
    ensures Tracked(Next(s, step), send)
  {
    if send.0 < |s.db.licenses| && s.db.licenses[send.0].order == Some(send.1) {
      hide Next, Inv, AllTracked;
      StepKeepsInv(s, step);
      assert LicenseKept(s.db.licenses[send.0], Next(s, step).db.licenses[send.0]);
    } else {
      var w :| w in s.txns && InFlight(s.txns[w], send);
      FlightStaysTracked(s, step, send, w);
    }
  }

  lemma FlightStaysTracked(s: System, step: Step, send: (nat, nat), w: nat)
    requires Inv(s) && AllTracked(s) && !CrashAfterSend(s, step)
    requires w in s.txns && InFlight(s.txns[w], send)
    ensures Tracked(Next(s, step), send)
  {
    var after := Next(s, step);
    if w in after.txns {
      assert InFlight(after.txns[w], send);
    } else {
      assert step == Commit(w);
      assert ReadsHold(s.db, s.txns[w]);
      assert after.db.licenses[send.0].order == Some(send.1);
    }
  }

  lemma NewSendsTracked(s: System, step: Step)
    requires Inv(s) && AllTracked(s) && !CrashAfterSend(s, step)
    requires forall i :: 0 <= i < |s.sends| ==> Tracked(Next(s, step), s.sends[i])
    ensures AllTracked(Next(s, step))
  {
    match step
    case Send(w, ok) =>
      if w in s.txns && s.txns[w].phase.Chosen? && ok {
        SentIsTracked(s, w);
      }
    case Admin(op) =>
      if AdminEnabled(s, op) && op.ReplaceLicense? {
        ReplacementIsTracked(s, op);
      }
    case _ =>
  }

  lemma SentIsTracked(s: System, w: nat)
    requires Inv(s) && w in s.txns && s.txns[w].phase.Chosen?
    ensures var after := Next(s, Send(w, true));
            var send := (s.txns[w].phase.lid, s.txns[w].oid);
            after.sends == s.sends + [send] && Tracked(after, send)
  {
    var after := Next(s, Send(w, true));
    var send := (s.txns[w].phase.lid, s.txns[w].oid);
    assert ReadsHold(s.db, s.txns[w]);
    assert s.txns[w].phase.picked ==> InFlight(after.txns[w], send);
  }

  lemma ReplacementIsTracked(s: System, op: AdminOp)
    requires Inv(s) && op.ReplaceLicense? && AdminEnabled(s, op)
    ensures var after := Next(s, Admin(op));
            forall k :: |s.sends| <= k < |after.sends| ==> Tracked(after, after.sends[k])
  {
  }

  /** While track is kept, a licence's credentials went to one order only. */
  lemma TrackedMeansOneBuyer(s: System, i: nat, j: nat)
    requires Inv(s) && AllTracked(s)
    requires i < |s.sends| && j < |s.sends| && s.sends[i].0 == s.sends[j].0
    ensures s.sends[i].1 == s.sends[j].1
  {
    var a, b := s.sends[i], s.sends[j];
    assert Tracked(s, a) && Tracked(s, b);
    forall w | w in s.txns && s.txns[w].phase.Attempted? && s.txns[w].phase.picked && s.txns[w].phase.lid == a.0
      ensures a.0 < |s.db.licenses| && s.db.licenses[a.0].order.None?
    {
      assert ReadsHold(s.db, s.txns[w]);
      assert RowSafe(s.db.licenses[a.0], s.db.orders);
    }
  }

  /** No worker of the run dies between a send and its commit. */
  predicate NoCrashAfterSend(s: System, steps: seq<Step>)
    decreases |steps|
  {
    steps == [] || (!CrashAfterSend(s, steps[0]) && NoCrashAfterSend(Next(s, steps[0]), steps[1..]))
  }

  lemma {:induction false} RunTracked(s: System, steps: seq<Step>)
    requires Inv(s) && AllTracked(s) && NoCrashAfterSend(s, steps)
    ensures Inv(Run(s, steps)) && AllTracked(Run(s, steps))
    decreases |steps|
  {
    if steps == [] {
    } else {
      StepKeepsInv(s, steps[0]);
      TrackedUnlessCrash(s, steps[0]);
      RunTracked(Next(s, steps[0]), steps[1..]);
    }
  }

  /**
   A licence is never shown to the buyers of two orders, in any run in which no worker dies
   between sending and committing.
   */
  lemma OneBuyerPerLicense(s: System, steps: seq<Step>)
    requires Inv(s) && AllTracked(s) && NoCrashAfterSend(s, steps)
    ensures var sends := Run(s, steps).sends;
            forall i, j :: 0 <= i < |sends| && 0 <= j < |sends| && sends[i].0 == sends[j].0 ==> sends[i].1 == sends[j].1
  {
    RunTracked(s, steps);
    var after := Run(s, steps);
    forall i, j | 0 <= i < |after.sends| && 0 <= j < |after.sends| && after.sends[i].0 == after.sends[j].0
      ensures after.sends[i].1 == after.sends[j].1
    {
      TrackedMeansOneBuyer(after, i, j);
    }
  }

  /** The five statements of a delivery up to and including its send. */
  function UpToSend(w: nat, oid: nat): seq<Step> {
    [Lock(w, oid), ReadOrder(w), FindActive(w), Pick(w), Send(w, true)]
  }

  lemma RunStep(s: System, step: Step, rest: seq<Step>)
    ensures Run(s, [step] + rest) == Run(Next(s, step), rest)
  {
    assert ([step] + rest)[1..] == rest;
  }

  lemma RunFive(s: System, a: Step, b: Step, c: Step, d: Step, e: Step)
    ensures Run(s, [a, b, c, d, e]) == Next(Next(Next(Next(Next(s, a), b), c), d), e)
  {
    assert [a, b, c, d, e] == [a] + ([b] + ([c] + ([d] + ([e] + []))));
    RunStep(s, a, [b] + ([c] + ([d] + ([e] + []))));
    RunStep(Next(s, a), b, [c] + ([d] + ([e] + [])));
    RunStep(Next(Next(s, a), b), c, [d] + ([e] + []));
    RunStep(Next(Next(Next(s, a), b), c), d, [e] + []);
    RunStep(Next(Next(Next(Next(s, a), b), c), d), e, []);
  }

  /** A delivery that has not picked locks no licence. */
  lemma NothingPickedYet(s: System, w: nat, oid: nat)
    requires w !in s.txns
    ensures RowLocked(s.(txns := s.txns[w := Txn(oid, Missing)])) == RowLocked(s)
  {
    var missing := s.(txns := s.txns[w := Txn(oid, Missing)]);
    forall id
      ensures id in RowLocked(missing) <==> id in RowLocked(s)
    {
      if id in RowLocked(s) {
        var v :| v in s.txns && s.txns[v].phase.Locks(id);
        assert missing.txns[v].phase.Locks(id);
      }
      if id in RowLocked(missing) {
        var v :| v in missing.txns && missing.txns[v].phase.Locks(id);
        assert s.txns[v].phase.Locks(id);
      }
    }
  }

  lemma PickIsSent(s: System, w: nat, oid: nat, lid: nat)
    requires w !in s.txns && !OrderLocked(s, oid)
    requires Precheck(s.db, oid).None? && ActiveLicense(s.db.licenses, oid).None?
    requires FirstFree(s.db.licenses, s.db.orders[oid].product, RowLocked(s)) == Some(lid)
    ensures Run(s, UpToSend(w, oid)) ==
            s.(txns := s.txns[w := Txn(oid, Attempted(lid, true, RowLocked(s), true))], sends := s.sends + [(lid, oid)])
  {
    var missing := Next(Next(Next(s, Lock(w, oid)), ReadOrder(w)), FindActive(w));
    assert missing == s.(txns := s.txns[w := Txn(oid, Missing)]);
    NothingPickedYet(s, w, oid);
    RunFive(s, Lock(w, oid), ReadOrder(w), FindActive(w), Pick(w), Send(w, true));
  }

  // ---------------------------------------------------------------------------
  // A delivery that is left alone goes through
  // ---------------------------------------------------------------------------

  /** The statements of one delivery, first to last; those it does not get to do nothing. */
  function WholeDelivery(w: nat, oid: nat, ok: bool): seq<Step> {
    [Lock(w, oid)] + ([ReadOrder(w)] + ([FindActive(w)] + ([Pick(w)] + ([Send(w, ok)] + ([Commit(w)] + [])))))
  }

  lemma RunWhole(s: System, w: nat, oid: nat, ok: bool)
    ensures Run(s, WholeDelivery(w, oid, ok)) ==
            var chosen := Next(Next(Next(Next(s, Lock(w, oid)), ReadOrder(w)), FindActive(w)), Pick(w));
            Next(Next(chosen, Send(w, ok)), Commit(w))
  {
    hide Next;
    RunStep(s, Lock(w, oid), WholeDelivery(w, oid, ok)[1..]);
    var locked := Next(s, Lock(w, oid));
    RunStep(locked, ReadOrder(w), WholeDelivery(w, oid, ok)[2..]);
    var read := Next(locked, ReadOrder(w));
    RunStep(read, FindActive(w), WholeDelivery(w, oid, ok)[3..]);
    var found := Next(read, FindActive(w));
    RunStep(found, Pick(w), WholeDelivery(w, oid, ok)[4..]);
    var picked := Next(found, Pick(w));
    RunStep(picked, Send(w, ok), WholeDelivery(w, oid, ok)[5..]);
    RunStep(Next(picked, Send(w, ok)), Commit(w), []);
  }

  lemma AnsweredAtOnce(s: System, w: nat, oid: nat, ok: bool)
    requires w !in s.txns && !OrderLocked(s, oid) && Precheck(s.db, oid).Some?
    ensures Run(s, WholeDelivery(w, oid, ok)) == s.(reports := s.reports + [(oid, Precheck(s.db, oid).value)])
  {
    hide Precheck, ActiveLicense, FirstFree, RowLocked, Publish, AdminApply, Run;
    RunWhole(s, w, oid, ok);
    var locked := Next(s, Lock(w, oid));
    assert locked.txns - {w} == s.txns;
    assert Next(locked, ReadOrder(w)) == s.(reports := s.reports + [(oid, Precheck(s.db, oid).value)]);
  }

  /** Up to the choice of a licence nothing but the worker's own transaction has changed. */
  lemma ChoosesAlone(s: System, w: nat, oid: nat)
    requires w !in s.txns && !OrderLocked(s, oid) && Precheck(s.db, oid).None?
    ensures var active := ActiveLicense(s.db.licenses, oid);
            var free := FirstFree(s.db.licenses, s.db.orders[oid].product, RowLocked(s));
            var phase :=
              if active.Some? then Chosen(active.value, false, {})
              else if free.Some? then Chosen(free.value, true, RowLocked(s))
              else Empty(RowLocked(s), |s.db.licenses|);
            Next(Next(Next(Next(s, Lock(w, oid)), ReadOrder(w)), FindActive(w)), Pick(w)) ==
            s.(txns := s.txns[w := Txn(oid, phase)])
  {
    NothingPickedYet(s, w, oid);
    hide Precheck, ActiveLicense, FirstFree, RowLocked;
    var checked := Next(Next(s, Lock(w, oid)), ReadOrder(w));
    assert checked == s.(txns := s.txns[w := Txn(oid, Checked)]);
    var found := Next(checked, FindActive(w));
    if ActiveLicense(s.db.licenses, oid).None? {
      assert found == s.(txns := s.txns[w := Txn(oid, Missing)]);
    }
  }

  /**
   A delivery of an order nobody else is delivering goes through: left alone it answers and
   publishes what one whole delivery would, which sees every licence no other worker has locked.
   */
  lemma LoneDelivery(s: System, w: nat, oid: nat, ok: bool)
    requires w !in s.txns && !OrderLocked(s, oid)
    ensures var after := Run(s, WholeDelivery(w, oid, ok));
            var (db, report) := Deliver(s.db, oid, RowLocked(s), ok);
            after.db == db && after.reports == s.reports + [(oid, report)] && after.txns == s.txns
  {
    if Precheck(s.db, oid).Some? {
      AnsweredAtOnce(s, w, oid, ok);
    } else {
      RunWhole(s, w, oid, ok);
      ChoosesAlone(s, w, oid);
      hide Precheck, ActiveLicense, FirstFree, RowLocked, Run;
      var chosen := Next(Next(Next(Next(s, Lock(w, oid)), ReadOrder(w)), FindActive(w)), Pick(w));
      assert chosen.txns - {w} == s.txns;
      PublishesAlone(chosen, w, ok);
    }
  }

  lemma PublishesAlone(s: System, w: nat, ok: bool)
    requires w in s.txns && s.txns[w].oid < |s.db.orders|
    requires s.txns[w].phase.Empty? || (s.txns[w].phase.Chosen? && s.txns[w].phase.lid < |s.db.licenses|)
    ensures var after := Next(Next(s, Send(w, ok)), Commit(w));
            var t := s.txns[w];
            var (db, report) :=
              if t.phase.Chosen? then
                var lid := t.phase.lid;
                Finish(if t.phase.picked then ReserveFor(s.db, t.oid, lid) else s.db, t.oid, lid, ok)
              else (FlagNoStock(s.db, t.oid), Ok(OutOfStock));
            after.db == db && after.reports == s.reports + [(t.oid, report)] && after.txns == s.txns - {w}
  {
    hide Finish, ReserveFor, FlagNoStock;
    assert s.txns[w := s.txns[w].(phase := Attempted(0, false, {}, ok))] - {w} == s.txns - {w};
  }

  /**
   With such a crash the promise fails: the licence the dead worker sent is free again, and
   the next order of that product which finds it first receives the same credentials.
   */
  lemma CrashAfterSendIsResold(s: System, w: nat, oid: nat)
    requires Inv(s) && AllTracked(s) && CrashAfterSend(s, Crash(w))
    requires var after := Next(s, Crash(w));
             && !OrderLocked(after, oid)
             && oid != s.txns[w].oid
             && Precheck(after.db, oid).None?
             && ActiveLicense(after.db.licenses, oid).None?
             && FirstFree(after.db.licenses, after.db.orders[oid].product, RowLocked(after)) ==
                Some(s.txns[w].phase.lid)
    ensures var sends := Run(s, [Crash(w)] + UpToSend(w, oid)).sends;
            (s.txns[w].phase.lid, s.txns[w].oid) in sends && (s.txns[w].phase.lid, oid) in sends
  {
    hide Inv, Precheck, ActiveLicense, FirstFree, Run;
    RunStep(s, Crash(w), UpToSend(w, oid));
    PickIsSent(Next(s, Crash(w)), w, oid, s.txns[w].phase.lid);
  }

  lemma {:induction false} RunAppend(s: System, xs: seq<Step>, ys: seq<Step>)
    ensures Run(s, xs + ys) == Run(Run(s, xs), ys)
    decreases |xs|
  {
    hide Next;
    if xs == [] {
      assert xs + ys == ys;
    } else {
      assert (xs + ys)[1..] == xs[1..] + ys;
      RunAppend(Next(s, xs[0]), xs[1..], ys);
    }
  }

  /** From rest, a delivery that dies after its send and the next delivery of the product send one licence twice. */
  lemma CrashedThenResold(s: System, first: nat, second: nat, lid: nat)
    requires s.txns == map[] && first != second
    requires Precheck(s.db, first).None? && ActiveLicense(s.db.licenses, first).None?
    requires Precheck(s.db, second).None? && ActiveLicense(s.db.licenses, second).None?
    requires FirstFree(s.db.licenses, s.db.orders[first].product, {}) == Some(lid)
    requires FirstFree(s.db.licenses, s.db.orders[second].product, {}) == Some(lid)
    ensures CrashAfterSend(Run(s, UpToSend(0, first)), Crash(0))
    ensures Run(s, UpToSend(0, first) + ([Crash(0)] + UpToSend(0, second))).sends ==
            s.sends + [(lid, first), (lid, second)]
  {
    NothingLocked(s);
    PickIsSent(s, 0, first, lid);
    var sent := Run(s, UpToSend(0, first));
    var crashed := Next(sent, Crash(0));
    assert crashed == s.(sends := s.sends + [(lid, first)]);
    NothingLocked(crashed);
    hide Run, UpToSend, Precheck, ActiveLicense, FirstFree;
    RunAppend(s, UpToSend(0, first), [Crash(0)] + UpToSend(0, second));
    RunStep(sent, Crash(0), UpToSend(0, second));
    PickIsSent(crashed, 0, second, lid);
  }

  lemma NothingLocked(s: System)
    requires s.txns == map[]
    ensures RowLocked(s) == {} && forall oid :: !OrderLocked(s, oid)
  {
  }

  /** A shop with two paid orders of one product and a single licence. */
  function TwoOrdersOneLicense(): Db {
    var paid := Order(0, true, 0, Approved, None, None);
    Db([paid, paid.(user := 1)], [License(0, Available, None, None, None)])
  }

  /** So both buyers may be sent the only licence of a shop that started at rest. */
  lemma OneLicenseTwoBuyers()
    ensures Safe(TwoOrdersOneLicense())
    ensures CrashAfterSend(Run(Start(TwoOrdersOneLicense()), UpToSend(0, 0)), Crash(0))
    ensures Run(Start(TwoOrdersOneLicense()), UpToSend(0, 0) + ([Crash(0)] + UpToSend(0, 1))).sends == [(0, 0), (0, 1)]
  {
    OneFreeLicense(TwoOrdersOneLicense().licenses);
    assert Safe(TwoOrdersOneLicense());
    hide Run, UpToSend, ActiveLicense, FirstFree;
    CrashedThenResold(Start(TwoOrdersOneLicense()), 0, 1, 0);
  }

  lemma OneFreeLicense(ls: seq<License>)
    requires |ls| == 1 && ls[0].FreeFor(0)
    ensures forall oid :: ActiveLicense(ls, oid).None?
    ensures FirstFree(ls, 0, {}) == Some(0)
  {
    assert ls[..0] == [];
  }
}
