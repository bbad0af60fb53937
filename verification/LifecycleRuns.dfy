/** What holds over every run of the service lifecycle, read off its audit log. */
module LifecycleRuns {
  import opened Common
  import opened Renewal
  import opened ServiceLifecycle

  // ---------------------------------------------------------------------------
  // Reading the log
  // ---------------------------------------------------------------------------

  datatype Measure =
    | GigabytesGranted | DaysGranted | Actions | ExpiryWarnings | TrafficWarnings | LostExpiryStamps | LostTrafficStamps
    | Disables | Enables | TrafficResets

  function Weight(e: Event, m: Measure): int {
    match m
    case GigabytesGranted => if e.Applied? && e.change.AddTraffic? then e.change.gb else 0
    case DaysGranted => if e.Applied? && e.change.Renew? then e.change.days else 0
    case Actions => if e.Applied? then 1 else 0
    case ExpiryWarnings => if e.ExpiryWarned? then 1 else 0
    case TrafficWarnings => if e.TrafficWarned? then 1 else 0
    case LostExpiryStamps => if e.ExpiryWarned? && !e.stamped then 1 else 0
    case LostTrafficStamps => if e.TrafficWarned? && !e.stamped then 1 else 0
    case Disables => if e.AutoDisabled? then 1 else 0
    case Enables => if e.Enabled? then 1 else 0
    case TrafficResets => if e.TrafficReset? then 1 else 0
  }

  /** How much of a measure the log holds for one service. */
  function Tally(log: seq<Entry>, sid: nat, m: Measure): int {
    if log == [] then 0
    else
      var last := log[|log| - 1];
      Tally(log[..|log| - 1], sid, m) + (if last.sid == sid then Weight(last.event, m) else 0)
  }

  /** The renewals of one service, in order. */
  function Renewals(log: seq<Entry>, sid: nat): seq<Renewed> {
    if log == [] then []
    else
      var last := log[|log| - 1];
      Renewals(log[..|log| - 1], sid)
      + (if last.sid == sid && last.event.Applied? && last.event.change.Renew?
         then [Renewed(last.event.at, last.event.change.days)] else [])
  }

  /** The order an entry carried out, if it carried one out. */
  function OrderOf(e: Entry): Option<nat> {
    if e.event.Applied? then e.event.order else None
  }

  lemma TallyGrows(log: seq<Entry>, e: Entry, sid: nat, m: Measure)
    ensures Tally(log + [e], sid, m) == Tally(log, sid, m) + (if e.sid == sid then Weight(e.event, m) else 0)
  {
    assert (log + [e])[..|log|] == log;
  }

  lemma RenewalsGrow(log: seq<Entry>, e: Entry, sid: nat)
    ensures if e.sid == sid && e.event.Applied? && e.event.change.Renew?
            then Renewals(log + [e], sid) == Renewals(log, sid) + [Renewed(e.event.at, e.event.change.days)]
            else Renewals(log + [e], sid) == Renewals(log, sid)
  {
    assert (log + [e])[..|log|] == log;
  }

  // ---------------------------------------------------------------------------
  // Quota, expiry and one-shot stamps
  // ---------------------------------------------------------------------------

  function Armed(stamp: Option<int>): int {
    if stamp.None? then 1 else 0
  }

  /** The quota of a row is its start plus the grants; unlimited stays unlimited. */
  predicate QuotaAccounted(s0: Service, s: Service, log: seq<Entry>, sid: nat) {
    && (s0.total > 0 ==> s.total == s0.total + Gigabytes(Tally(log, sid, GigabytesGranted)) && s.total > 0)
    && (s0.total <= 0 ==> s.total <= 0)
  }

  /** The expiry of a row is the fold of its renewals. */
  predicate ExpiryAccounted(s0: Service, s: Service, log: seq<Entry>, sid: nat) {
    s.expireAt == RenewAll(s0.expireAt, Renewals(log, sid))
  }

  /** A stamp that is set blocks the next shot; only the listed events clear it, or lose it. */
  predicate ShotsAccounted(s0: Service, s: Service, log: seq<Entry>, sid: nat) {
    && Tally(log, sid, ExpiryWarnings) + Armed(s.expiryWarnedAt)
       <= Armed(s0.expiryWarnedAt) + Tally(log, sid, Actions) + Tally(log, sid, LostExpiryStamps)
    && Tally(log, sid, TrafficWarnings) + Armed(s.trafficWarnedAt)
       <= Armed(s0.trafficWarnedAt) + Tally(log, sid, Actions) + Tally(log, sid, TrafficResets)
          + Tally(log, sid, LostTrafficStamps)
    && Tally(log, sid, Disables) + Armed(s.disabledAt)
       <= Armed(s0.disabledAt) + Tally(log, sid, Actions) + Tally(log, sid, Enables)
  }

  /** The row `s`, begun as `s0`, is what the log says it should be. */
  predicate Accounted(s0: Service, s: Service, log: seq<Entry>, sid: nat) {
    && QuotaAccounted(s0, s, log, sid)
    && ExpiryAccounted(s0, s, log, sid)
    && ShotsAccounted(s0, s, log, sid)
  }

  ghost predicate AllAccounted(w0: World, w: World) {
    && |w.services| == |w0.services|
    && forall sid :: 0 <= sid < |w.services| ==> Accounted(w0.services[sid], w.services[sid], w.log, sid)
  }

  lemma RenewAllGrows(start: Option<int>, rs: seq<Renewed>, r: Renewed)
    ensures RenewAll(start, rs + [r]) == Some(RenewedExpiry(RenewAll(start, rs), r.at, r.days))
  {
    assert (rs + [r])[..|rs|] == rs;
  }

  /** How a row may move, with the event logged for it: the only ways quota, expiry and stamps change. */
  predicate Moves(s: Service, s': Service, e: Option<Event>) {
    if e.None? || !e.value.Applied? then
      && s'.total == s.total && s'.expireAt == s.expireAt
      && Armed(s'.expiryWarnedAt) <=
         Armed(s.expiryWarnedAt) - Fires(e, ExpiryWarnings) + Fires(e, LostExpiryStamps)
      && Armed(s'.trafficWarnedAt) <=
         Armed(s.trafficWarnedAt) - Fires(e, TrafficWarnings) + Fires(e, TrafficResets) + Fires(e, LostTrafficStamps)
      && Armed(s'.disabledAt) <= Armed(s.disabledAt) - Fires(e, Disables) + Fires(e, Enables)
    else
      && Positive(e.value.change)
      && s'.total == Target(s, e.value.change, e.value.at).total
      && s'.expireAt == Target(s, e.value.change, e.value.at).expireAt
  }

  function Fires(e: Option<Event>, m: Measure): int {
    if e.Some? then Weight(e.value, m) else 0
  }

  function Logged(log: seq<Entry>, sid: nat, e: Option<Event>): seq<Entry> {
    if e.Some? then log + [Entry(sid, e.value)] else log
  }

  /** The measures the bounds on warnings and disables speak of. */
  predicate IsShot(m: Measure) {
    !m.GigabytesGranted? && !m.DaysGranted?
  }

  lemma ShotsGrow(log: seq<Entry>, e: Entry, sid: nat)
    ensures forall m :: IsShot(m) ==>
              Tally(log + [e], sid, m) == Tally(log, sid, m) + (if e.sid == sid then Weight(e.event, m) else 0)
  {
    forall m | IsShot(m)
      ensures Tally(log + [e], sid, m) == Tally(log, sid, m) + (if e.sid == sid then Weight(e.event, m) else 0)
    {
      TallyGrows(log, e, sid, m);
    }
  }

  lemma MoveKeepsQuota(s0: Service, s: Service, s': Service, log: seq<Entry>, sid: nat, e: Option<Event>)
    requires QuotaAccounted(s0, s, log, sid) && Moves(s, s', e)
    ensures QuotaAccounted(s0, s', Logged(log, sid, e), sid)
  {
    if e.Some? {
      TallyGrows(log, Entry(sid, e.value), sid, GigabytesGranted);
    }
  }

  lemma MoveKeepsExpiry(s0: Service, s: Service, s': Service, log: seq<Entry>, sid: nat, e: Option<Event>)
    requires ExpiryAccounted(s0, s, log, sid) && Moves(s, s', e)
    ensures ExpiryAccounted(s0, s', Logged(log, sid, e), sid)
  {
    if e.Some? {
      RenewalsGrow(log, Entry(sid, e.value), sid);
      if e.value.Applied? && e.value.change.Renew? {
        RenewAllGrows(s0.expireAt, Renewals(log, sid), Renewed(e.value.at, e.value.change.days));
      }
    }
  }

  lemma MoveKeepsShots(s0: Service, s: Service, s': Service, log: seq<Entry>, sid: nat, e: Option<Event>)
    requires ShotsAccounted(s0, s, log, sid) && Moves(s, s', e)
    ensures ShotsAccounted(s0, s', Logged(log, sid, e), sid)
  {
    hide Tally, Target;
    if e.Some? {
      ShotsGrow(log, Entry(sid, e.value), sid);
    }
  }

  lemma OthersAccounted(s0: Service, s: Service, log: seq<Entry>, sid: nat, other: nat, e: Option<Event>)
    requires Accounted(s0, s, log, sid) && other != sid
    ensures Accounted(s0, s, Logged(log, other, e), sid)
  {
    if e.Some? {
      ShotsGrow(log, Entry(other, e.value), sid);
      TallyGrows(log, Entry(other, e.value), sid, GigabytesGranted);
      RenewalsGrow(log, Entry(other, e.value), sid);
    }
  }

  /** The row a step works on, and the event it logs. */
  function Focus(w: World, op: Op): (nat, Option<Event>)
    requires w.Valid()
  {
    match op
    case Grant(sid, change, now, answer) =>
      (sid, if sid < |w.services| && w.services[sid].status != Deleted && Positive(change) && answer.Done?
            then Some(Applied(change, now, None)) else None)
    case Deliver(oid, plan, now, answer) =>
      var attempt := Attempt(w, oid, plan);
      if attempt.None? then (0, None)
      else (attempt.value.0, if answer.Done? then Some(Applied(attempt.value.1, now, Some(oid))) else None)
    case SweepRow(sid, q, _, answer) =>
      (sid, if sid >= |w.services| || !Matches(w.services[sid], q) then None
            else match q
              case ToDisable(_) => if answer.Done? then Some(AutoDisabled) else None
              case ExpiringSoon(_, _) => Some(ExpiryWarned(true))
              case TrafficHigh(_) => Some(TrafficWarned(true))
              case _ => None)
    case CrashWarning(sid, q) =>
      (sid, if sid >= |w.services| || !Warns(q) || !Matches(w.services[sid], q) then None
            else Some(if q.ExpiringSoon? then ExpiryWarned(false) else TrafficWarned(false)))
    case SetEnabled(sid, enable, _, answer) =>
      (sid, if sid < |w.services| && enable && answer.Done? then Some(Enabled) else None)
    case ResetTraffic(sid, _, answer) => (sid, if sid < |w.services| && answer.Done? then Some(TrafficReset) else None)
    case Sync(sid, _, _) => (sid, None)
    case _ => (0, None)
  }

  ghost predicate StepFocused(w: World, op: Op)
    requires w.Valid()
  {
    var (sid, e) := Focus(w, op);
    var after := Step(w, op);
    && after.log == Logged(w.log, sid, e)
    && (forall k :: 0 <= k < |w.services| && k != sid ==> after.services[k] == w.services[k])
    && (sid < |w.services| ==> Moves(w.services[sid], after.services[sid], e))
  }

  lemma AdminMoves(w: World, op: Op)
    requires w.Valid() && op.Grant?
    ensures StepFocused(w, op)
  {
  }

  lemma DeliverMoves(w: World, op: Op)
    requires w.Valid() && op.Deliver?
    ensures StepFocused(w, op)
  {
  }

  lemma SweepMoves(w: World, op: Op)
    requires w.Valid() && op.SweepRow?
    ensures StepFocused(w, op)
  {
  }

  lemma EnableMoves(w: World, op: Op)
    requires w.Valid() && op.SetEnabled?
    ensures StepFocused(w, op)
  {
  }

  lemma UsageMoves(w: World, op: Op)
    requires w.Valid() && (op.ResetTraffic? || op.Sync?)
    ensures StepFocused(w, op)
  {
  }

  lemma CrashMoves(w: World, op: Op)
    requires w.Valid() && (op.CrashDelivery? || op.CrashWarning?)
    ensures StepFocused(w, op)
  {
  }

  lemma OrderMoves(w: World, op: Op)
    requires w.Valid() && (op.Place? || op.Pay?)
    ensures StepFocused(w, op)
  {
  }

  lemma StepMoves(w: World, op: Op)
    requires w.Valid()
    ensures StepFocused(w, op)
  {
    hide StepFocused;
    match op
    case Grant(_, _, _, _) => AdminMoves(w, op);
    case Deliver(_, _, _, _) => DeliverMoves(w, op);
    case SweepRow(_, _, _, _) => SweepMoves(w, op);
    case CrashDelivery(_, _, _) => CrashMoves(w, op);
    case CrashWarning(_, _) => CrashMoves(w, op);
    case Place(_, _, _) => OrderMoves(w, op);
    case Pay(_) => OrderMoves(w, op);
    case SetEnabled(_, _, _, _) => EnableMoves(w, op);
    case _ => UsageMoves(w, op);
  }

  lemma StepAccounted(s0: Service, w: World, op: Op, k: nat)
    requires w.Valid() && k < |w.services| && Accounted(s0, w.services[k], w.log, k)
    ensures Accounted(s0, Step(w, op).services[k], Step(w, op).log, k)
  {
    StepMoves(w, op);
    StepValid(w, op);
    hide Step, Focus, Moves, QuotaAccounted, ExpiryAccounted, ShotsAccounted;
    var (sid, e) := Focus(w, op);
    if k == sid {
      MoveKeepsQuota(s0, w.services[k], Step(w, op).services[k], w.log, k, e);
      MoveKeepsExpiry(s0, w.services[k], Step(w, op).services[k], w.log, k, e);
      MoveKeepsShots(s0, w.services[k], Step(w, op).services[k], w.log, k, e);
    } else {
      OthersAccounted(s0, w.services[k], w.log, k, sid, e);
    }
  }

  /**
   Over every run, with any panel answers: a limited quota is its start plus the gigabytes of
   the successful grants, an unlimited one stays unlimited, the expiry is the fold of the
   successful renewals, and warnings and automatic disables come at most once, plus once for
   every event that re-arms them and, for warnings, every stamp a crash lost.
   */
  lemma {:induction false} RunAccounted(w0: World, ops: seq<Op>)
    requires w0.Valid() && w0.log == []
    ensures AllAccounted(w0, Run(w0, ops))
    decreases |ops|
  {
    if ops == [] {
    } else {
      var before := Run(w0, ops[..|ops| - 1]);
      RunAccounted(w0, ops[..|ops| - 1]);
      forall k | 0 <= k < |before.services|
        ensures Accounted(w0.services[k], Run(w0, ops).services[k], Run(w0, ops).log, k)
      {
        StepAccounted(w0.services[k], before, ops[|ops| - 1], k);
      }
    }
  }

  // ---------------------------------------------------------------------------
  // Warnings sent twice
  // ---------------------------------------------------------------------------

  /** The step sends a warning about the service. */
  predicate SendsWarning(w: World, op: Op, sid: nat)
    requires w.Valid()
  {
    var (s, e) := Focus(w, op);
    s == sid && e.Some? && (e.value.ExpiryWarned? || e.value.TrafficWarned?)
  }

  /** A warning can be sent again at once, by the same sweep, if and only if the worker died before the commit. */
  lemma WarnedAgainIff(w: World, op: Op, sid: nat)
    requires w.Valid() && sid < |w.services| && SendsWarning(w, op, sid)
    ensures (op.SweepRow? || op.CrashWarning?) && Matches(w.services[sid], op.query)
    ensures Matches(Step(w, op).services[sid], op.query) <==> op.CrashWarning?
  {
  }

  lemma CrashFreeStep(w: World, op: Op)
    requires w.Valid() && !op.CrashWarning?
    ensures var e := Focus(w, op).1;
            e.Some? && (e.value.ExpiryWarned? || e.value.TrafficWarned?) ==> e.value.stamped
  {
  }

  /** Without such a crash no stamp is lost, and warnings are bounded by what re-arms them alone. */
  lemma {:induction false} NoStampLost(w0: World, ops: seq<Op>, sid: nat)
    requires w0.Valid() && w0.log == []
    requires forall k :: 0 <= k < |ops| ==> !ops[k].CrashWarning?
    ensures Tally(Run(w0, ops).log, sid, LostExpiryStamps) == Tally(Run(w0, ops).log, sid, LostTrafficStamps) == 0
    decreases |ops|
  {
    if ops == [] {
    } else {
      var n := |ops| - 1;
      var before := Run(w0, ops[..n]);
      NoStampLost(w0, ops[..n], sid);
      StepMoves(before, ops[n]);
      CrashFreeStep(before, ops[n]);
      hide Step, Focus, Moves, Run;
      var (s, e) := Focus(before, ops[n]);
      if e.Some? {
        TallyGrows(before.log, Entry(s, e.value), sid, LostExpiryStamps);
        TallyGrows(before.log, Entry(s, e.value), sid, LostTrafficStamps);
      }
    }
  }

  /** A service that runs out at 10, with a warning due from now on. */
  function RunningOut(): World {
    World([Service(0, Active, Some(10), 0, 0, None, None, None, None, None)], [Client(0, 0, true)], [], [])
  }

  function WarnDieWarn(q: Query): seq<Op> {
    [CrashWarning(0, q)] + [SweepRow(0, q, 0, Done)]
  }

  lemma TwoSteps(w: World, a: Op, b: Op)
    requires w.Valid() && Step(w, a).Valid()
    ensures Run(w, [a] + [b]) == Step(Step(w, a), b)
  {
    hide Step;
    assert ([a] + [b])[..1] == [a] && [a][..0] == [];
    assert Run(w, [a]) == Step(w, a);
  }

  /** Two sweeps, the first of which dies before its commit, warn the owner twice, with nothing re-armed. */
  lemma WarnedTwice()
    ensures var w := Run(RunningOut(), WarnDieWarn(ExpiringSoon(0, 20)));
            && w.log == [Entry(0, ExpiryWarned(false)), Entry(0, ExpiryWarned(true))]
            && |w.services| == 1 && w.services[0].expireAt == Some(10)
  {
    var q := ExpiringSoon(0, 20);
    TwoSteps(RunningOut(), CrashWarning(0, q), SweepRow(0, q, 0, Done));
    hide Run;
  }

  // ---------------------------------------------------------------------------
  // Orders are applied exactly once
  // ---------------------------------------------------------------------------

  predicate IsDelivered(w: World, oid: nat) {
    oid < |w.orders| && w.orders[oid].status == OrderStatus.Delivered
  }

  predicate Applies(e: Entry, oid: nat) {
    OrderOf(e) == Some(oid)
  }

  /** The entry does what the order asked for, to the service it named. */
  predicate Fulfils(e: Entry, o: ActionOrder) {
    && e.event.Applied? && o.target == Some(e.sid)
    && o.action == Some(if e.event.change.Renew? then ExtendTime else ExtendTraffic)
  }

  /** Since `w0`, each newly delivered order was applied by exactly one entry, and no other order by any. */
  ghost predicate AppliedOnce(w0: World, w: World) {
    && |w0.orders| <= |w.orders|
    && (forall oid :: 0 <= oid < |w0.orders| && IsDelivered(w0, oid) ==> IsDelivered(w, oid))
    && (forall i, oid: nat :: 0 <= i < |w.log| && Applies(w.log[i], oid) ==>
          IsDelivered(w, oid) && !IsDelivered(w0, oid) && Fulfils(w.log[i], w.orders[oid]))
    && (forall i, j, oid: nat :: 0 <= i < j < |w.log| && Applies(w.log[i], oid) ==> !Applies(w.log[j], oid))
    && (forall oid :: 0 <= oid < |w.orders| && IsDelivered(w, oid) && !IsDelivered(w0, oid) ==>
          exists i :: 0 <= i < |w.log| && Applies(w.log[i], oid))
  }

  /** No order is delivered or taken back, and only entries without an order are logged. */
  ghost predicate Quiet(w: World, after: World) {
    && |w.orders| <= |after.orders|
    && (forall o: nat :: o < |w.orders| && IsDelivered(w, o) ==> after.orders[o] == w.orders[o])
    && (forall o: nat :: IsDelivered(after, o) ==> IsDelivered(w, o))
    && w.log <= after.log
    && (forall i :: |w.log| <= i < |after.log| ==> OrderOf(after.log[i]).None?)
  }

  lemma QuietAppliedOnce(w0: World, w: World, after: World)
    requires AppliedOnce(w0, w) && Quiet(w, after)
    ensures AppliedOnce(w0, after)
  {
    hide Fulfils;
    forall i, oid: nat | 0 <= i < |after.log| && Applies(after.log[i], oid)
      ensures i < |w.log| && Applies(w.log[i], oid) && IsDelivered(w, oid) && after.log[i] == w.log[i]
      ensures IsDelivered(after, oid) && !IsDelivered(w0, oid) && Fulfils(after.log[i], after.orders[oid])
    {
      assert i < |w.log|;
      assert w.log[i] == after.log[i];
      assert Applies(w.log[i], oid) && IsDelivered(w, oid);
      assert after.orders[oid] == w.orders[oid];
    }
    forall oid: nat | oid < |w0.orders| && IsDelivered(w0, oid)
      ensures IsDelivered(after, oid)
    {
      assert IsDelivered(w, oid);
    }
    forall i, j, oid: nat | 0 <= i < j < |after.log| && Applies(after.log[i], oid)
      ensures !Applies(after.log[j], oid)
    {
      assert i < |w.log| && Applies(w.log[i], oid);
      assert j < |w.log| ==> after.log[j] == w.log[j];
    }
    forall oid | 0 <= oid < |after.orders| && IsDelivered(after, oid) && !IsDelivered(w0, oid)
      ensures exists i :: 0 <= i < |after.log| && Applies(after.log[i], oid)
    {
      assert IsDelivered(w, oid);
      var i :| 0 <= i < |w.log| && Applies(w.log[i], oid);
      assert Applies(after.log[i], oid);
    }
  }

  /** Steps that are no delivery log no order and deliver none. */
  lemma OtherStepIsQuiet(w: World, op: Op)
    requires w.Valid() && !op.Deliver?
    ensures Quiet(w, Step(w, op))
  {
  }

  /** A delivery attempt is quiet, or delivers its order and logs that, once. */
  lemma DeliverIsQuietOrOnce(w: World, oid: nat, plan: Plan, now: int, answer: PanelAnswer)
    requires w.Valid()
    ensures var after := DeliverAction(w, oid, plan, now, answer).0;
            || Quiet(w, after)
            || (&& oid < |w.orders| && !IsDelivered(w, oid) && IsDelivered(after, oid)
                && after.orders == w.orders[oid := after.orders[oid]]
                && |after.log| == |w.log| + 1 && w.log <= after.log
                && Applies(after.log[|w.log|], oid) && Fulfils(after.log[|w.log|], after.orders[oid]))
  {
  }

  lemma DeliveredAppliedOnce(w0: World, w: World, oid: nat, after: World)
    requires AppliedOnce(w0, w)
    requires oid < |w.orders| && !IsDelivered(w, oid) && IsDelivered(after, oid)
    requires after.orders == w.orders[oid := after.orders[oid]]
    requires |after.log| == |w.log| + 1 && w.log <= after.log
    requires Applies(after.log[|w.log|], oid) && Fulfils(after.log[|w.log|], after.orders[oid])
    ensures AppliedOnce(w0, after)
  {
    hide Fulfils;
    var n := |w.log|;
    forall i, o: nat | 0 <= i < n && Applies(after.log[i], o)
      ensures Applies(w.log[i], o) && IsDelivered(w, o) && o != oid && after.log[i] == w.log[i]
    {
      assert w.log[i] == after.log[i];
    }
    forall i, j, o: nat | 0 <= i < j < |after.log| && Applies(after.log[i], o)
      ensures !Applies(after.log[j], o)
    {
      assert Applies(w.log[i], o);
      assert j < n ==> after.log[j] == w.log[j];
    }
    forall i, o: nat | 0 <= i < |after.log| && Applies(after.log[i], o)
      ensures IsDelivered(after, o) && !IsDelivered(w0, o) && Fulfils(after.log[i], after.orders[o])
    {
      assert i == n ==> o == oid && !IsDelivered(w, oid);
      assert i < n ==> Applies(w.log[i], o) && IsDelivered(w, o) && o != oid;
    }
    forall o | 0 <= o < |after.orders| && IsDelivered(after, o) && !IsDelivered(w0, o)
      ensures exists i :: 0 <= i < |after.log| && Applies(after.log[i], o)
    {
      if o == oid {
        assert Applies(after.log[n], o);
      } else {
        assert IsDelivered(w, o);
        var i :| 0 <= i < n && Applies(w.log[i], o);
        assert Applies(after.log[i], o);
      }
    }
  }

  /** However often a paid action order is retried, it is applied once if delivered, else never. */
  lemma {:induction false} RunAppliesOnce(w0: World, ops: seq<Op>)
    requires w0.Valid() && w0.log == []
    ensures AppliedOnce(w0, Run(w0, ops))
    decreases |ops|
  {
    if ops == [] {
      assert AppliedOnce(w0, w0);
    } else {
      var before := Run(w0, ops[..|ops| - 1]);
      RunAppliesOnce(w0, ops[..|ops| - 1]);
      var last := ops[|ops| - 1];
      hide AppliedOnce, Quiet, Fulfils;
      if last.Deliver? {
        DeliverIsQuietOrOnce(before, last.oid, last.plan, last.now, last.answer);
        var after := DeliverAction(before, last.oid, last.plan, last.now, last.answer).0;
        if Quiet(before, after) {
          QuietAppliedOnce(w0, before, after);
        } else {
          DeliveredAppliedOnce(w0, before, last.oid, after);
        }
      } else {
        OtherStepIsQuiet(before, last);
        QuietAppliedOnce(w0, before, Step(before, last));
      }
    }
  }

  /** Some confirmed delivery of the run made this entry: its order, its product's days or gigabytes, its moment. */
  ghost predicate MadeByDelivery(w0: World, ops: seq<Op>, e: Entry)
    requires w0.Valid()
  {
    exists k: nat :: k < |ops| && DeliveredAt(Run(w0, ops[..k]), ops[k], e)
  }

  predicate DeliveredAt(w: World, op: Op, e: Entry) {
    && op.Deliver? && op.answer.Done?
    && op.oid < |w.orders|
    && var o := w.orders[op.oid];
       && o.status.AwaitingDelivery() && o.action.Some? && o.target == Some(e.sid)
       && var change := if o.action == Some(ExtendTime) then Renew(op.plan.days) else AddTraffic(op.plan.gb);
          e.event == Applied(change, op.now, Some(op.oid))
  }

  lemma NewEntryDelivered(w: World, op: Op)
    requires w.Valid()
    ensures w.log <= Step(w, op).log
    ensures forall i :: |w.log| <= i < |Step(w, op).log| && OrderOf(Step(w, op).log[i]).Some? ==>
              DeliveredAt(w, op, Step(w, op).log[i])
  {
    StepMoves(w, op);
    hide Step, Moves;
  }

  /** Every order is carried out with the days or gigabytes its product had when it was delivered. */
  lemma {:induction false} RunAppliesPlans(w0: World, ops: seq<Op>)
    requires w0.Valid() && w0.log == []
    ensures forall i :: 0 <= i < |Run(w0, ops).log| && OrderOf(Run(w0, ops).log[i]).Some? ==>
              MadeByDelivery(w0, ops, Run(w0, ops).log[i])
    decreases |ops|
  {
    if ops == [] {
    } else {
      var n := |ops| - 1;
      var before, after := Run(w0, ops[..n]), Run(w0, ops);
      RunAppliesPlans(w0, ops[..n]);
      NewEntryDelivered(before, ops[n]);
      forall i | 0 <= i < |after.log| && OrderOf(after.log[i]).Some?
        ensures MadeByDelivery(w0, ops, after.log[i])
      {
        if i < |before.log| {
          assert after.log[i] == before.log[i];
          var k: nat :| k < n && DeliveredAt(Run(w0, ops[..n][..k]), ops[..n][k], after.log[i]);
          assert ops[..n][..k] == ops[..k];
        }
      }
    }
  }

  // ---------------------------------------------------------------------------
  // What a quota is made of
  // ---------------------------------------------------------------------------

  /** What is sold: gigabytes and days. */
  predicate IsSold(m: Measure) {
    m.GigabytesGranted? || m.DaysGranted?
  }

  /** What an entry added to a service for an order, or for none. */
  function Brought(e: Entry, sid: nat, m: Measure, order: Option<nat>): int {
    if e.sid == sid && e.event.Applied? && e.event.order == order then Weight(e.event, m) else 0
  }

  /** All that was logged for a service under one order, or under none. */
  function Gained(log: seq<Entry>, sid: nat, m: Measure, order: Option<nat>): int {
    if log == [] then 0
    else Gained(log[..|log| - 1], sid, m, order) + Brought(log[|log| - 1], sid, m, order)
  }

  function ByOrder(log: seq<Entry>, sid: nat, m: Measure): nat -> int {
    (oid: nat) => Gained(log, sid, m, Some(oid))
  }

  lemma GainedGrows(log: seq<Entry>, e: Entry, sid: nat, m: Measure, order: Option<nat>)
    ensures Gained(log + [e], sid, m, order) == Gained(log, sid, m, order) + Brought(e, sid, m, order)
  {
    assert (log + [e])[..|log|] == log;
  }

  lemma ByOrderGrows(log: seq<Entry>, e: Entry, sid: nat, m: Measure, n: nat)
    requires IsSold(m) && (OrderOf(e).Some? ==> OrderOf(e).value < n)
    ensures Sum(n, ByOrder(log + [e], sid, m)) + Gained(log + [e], sid, m, None) ==
            Sum(n, ByOrder(log, sid, m)) + Gained(log, sid, m, None)
            + (if e.sid == sid then Weight(e.event, m) else 0)
  {
    forall oid: nat {
      GainedGrows(log, e, sid, m, Some(oid));
    }
    GainedGrows(log, e, sid, m, None);
    var key := if OrderOf(e).Some? then OrderOf(e).value else n;
    SumChanges(n, ByOrder(log, sid, m), ByOrder(log + [e], sid, m), key, Brought(e, sid, m, OrderOf(e)));
  }

  /** What a service was granted is what its orders brought, order by order, and what was granted by hand. */
  lemma {:induction false} TallyByOrder(log: seq<Entry>, sid: nat, m: Measure, n: nat)
    requires IsSold(m)
    requires forall i :: 0 <= i < |log| && OrderOf(log[i]).Some? ==> OrderOf(log[i]).value < n
    ensures Tally(log, sid, m) == Sum(n, ByOrder(log, sid, m)) + Gained(log, sid, m, None)
  {
    if log == [] {
      SumOfNothing(n, ByOrder([], sid, m));
    } else {
      var last := |log| - 1;
      TallyByOrder(log[..last], sid, m, n);
      ByOrderGrows(log[..last], log[last], sid, m, n);
      assert log[..last] + [log[last]] == log;
    }
  }

  lemma {:induction false} NotGained(log: seq<Entry>, sid: nat, m: Measure, oid: nat)
    requires forall i :: 0 <= i < |log| ==> !Applies(log[i], oid)
    ensures Gained(log, sid, m, Some(oid)) == 0
  {
    if log == [] {
    } else {
      NotGained(log[..|log| - 1], sid, m, oid);
    }
  }

  /** An order that was applied once brought what that entry says. */
  lemma {:induction false} GainedOnce(log: seq<Entry>, sid: nat, m: Measure, oid: nat, i: nat)
    requires i < |log| && forall j :: 0 <= j < |log| ==> (Applies(log[j], oid) <==> j == i)
    ensures Gained(log, sid, m, Some(oid)) == Brought(log[i], sid, m, Some(oid))
  {
    var n := |log| - 1;
    if i == n {
      NotGained(log[..n], sid, m, oid);
    } else {
      GainedOnce(log[..n], sid, m, oid, i);
    }
  }

  /** A step of the run delivered the order, and with it so many gigabytes and days to the service. */
  ghost predicate DeliveredWith(w0: World, ops: seq<Op>, oid: nat, sid: nat, gb: int, days: int)
    requires w0.Valid()
  {
    exists k: nat :: k < |ops| && Delivers(Run(w0, ops[..k]), ops[k], oid, sid, gb, days)
  }

  predicate Delivers(w: World, op: Op, oid: nat, sid: nat, gb: int, days: int) {
    && op.Deliver? && op.oid == oid && op.answer.Done?
    && oid < |w.orders| && w.orders[oid].status.AwaitingDelivery()
    && var mine := w.orders[oid].target == Some(sid);
       && gb == (if mine && w.orders[oid].action == Some(ExtendTraffic) then op.plan.gb else 0)
       && days == (if mine && w.orders[oid].action == Some(ExtendTime) then op.plan.days else 0)
  }

  /** What a run delivered for an order, it delivered in one step. */
  lemma OrderBrings(w0: World, ops: seq<Op>, oid: nat, sid: nat)
    requires w0.Valid() && w0.log == []
    ensures var w := Run(w0, ops);
            var gb, days := Gained(w.log, sid, GigabytesGranted, Some(oid)), Gained(w.log, sid, DaysGranted, Some(oid));
            if IsDelivered(w, oid) && !IsDelivered(w0, oid) then DeliveredWith(w0, ops, oid, sid, gb, days)
            else gb == days == 0
  {
    var w := Run(w0, ops);
    RunAppliesOnce(w0, ops);
    RunAppliesPlans(w0, ops);
    if IsDelivered(w, oid) && !IsDelivered(w0, oid) {
      var i :| 0 <= i < |w.log| && Applies(w.log[i], oid);
      hide Run, Fulfils;
      GainedOnce(w.log, sid, GigabytesGranted, oid, i);
      GainedOnce(w.log, sid, DaysGranted, oid, i);
      var k: nat :| k < |ops| && DeliveredAt(Run(w0, ops[..k]), ops[k], w.log[i]);
      EntryBrings(Run(w0, ops[..k]), ops[k], w.log[i], oid, sid);
    } else {
      NotGained(w.log, sid, GigabytesGranted, oid);
      NotGained(w.log, sid, DaysGranted, oid);
    }
  }

  lemma EntryBrings(w: World, op: Op, e: Entry, oid: nat, sid: nat)
    requires DeliveredAt(w, op, e) && Applies(e, oid)
    ensures var gb, days := Brought(e, sid, GigabytesGranted, Some(oid)), Brought(e, sid, DaysGranted, Some(oid));
            Delivers(w, op, oid, sid, gb, days)
  {
    assert op.oid == oid && (w.orders[oid].target == Some(sid) <==> e.sid == sid);
    match w.orders[oid].action.value
    case ExtendTime =>
    case ExtendTraffic =>
  }

  /** Each order brought what its product had in the one step that delivered it, or nothing. */
  ghost predicate OrdersBring(w0: World, ops: seq<Op>, sid: nat)
    requires w0.Valid()
  {
    var w := Run(w0, ops);
    forall oid: nat ::
      var gb, days := ByOrder(w.log, sid, GigabytesGranted)(oid), ByOrder(w.log, sid, DaysGranted)(oid);
      if IsDelivered(w, oid) && !IsDelivered(w0, oid) then DeliveredWith(w0, ops, oid, sid, gb, days)
      else gb == days == 0
  }

  lemma LoggedOrdersExist(w0: World, w: World)
    requires AppliedOnce(w0, w)
    ensures forall i :: 0 <= i < |w.log| && OrderOf(w.log[i]).Some? ==> OrderOf(w.log[i]).value < |w.orders|
  {
    hide Fulfils;
    forall i | 0 <= i < |w.log| && OrderOf(w.log[i]).Some?
      ensures OrderOf(w.log[i]).value < |w.orders|
    {
      assert Applies(w.log[i], OrderOf(w.log[i]).value);
      assert IsDelivered(w, OrderOf(w.log[i]).value);
    }
  }

  lemma QuotaIsSum(w0: World, w: World, sid: nat)
    requires AllAccounted(w0, w) && AppliedOnce(w0, w)
    requires sid < |w0.services| && w0.services[sid].total > 0
    ensures w.services[sid].total == w0.services[sid].total
              + 1_073_741_824 * (Sum(|w.orders|, ByOrder(w.log, sid, GigabytesGranted))
                                 + Gained(w.log, sid, GigabytesGranted, None))
  {
    LoggedOrdersExist(w0, w);
    assert Accounted(w0.services[sid], w.services[sid], w.log, sid);
    hide Sum, Gained, Tally, ExpiryAccounted, ShotsAccounted, AppliedOnce, AllAccounted;
    TallyByOrder(w.log, sid, GigabytesGranted, |w.orders|);
  }

  /**
   Over every run a limited quota is its start, plus for each order the run delivered the
   gigabytes its product had in the one step that delivered it, plus what was granted by hand.
   */
  lemma QuotaExplained(w0: World, ops: seq<Op>, sid: nat)
    requires w0.Valid() && w0.log == []
    requires sid < |w0.services| && w0.services[sid].total > 0
    ensures var w := Run(w0, ops);
            w.services[sid].total == w0.services[sid].total
              + 1_073_741_824 * (Sum(|w.orders|, ByOrder(w.log, sid, GigabytesGranted))
                                 + Gained(w.log, sid, GigabytesGranted, None))
    ensures OrdersBring(w0, ops, sid)
  {
    hide Run, AllAccounted, AppliedOnce, DeliveredWith, IsDelivered;
    RunAccounted(w0, ops);
    RunAppliesOnce(w0, ops);
    QuotaIsSum(w0, Run(w0, ops), sid);
    forall oid: nat {
      OrderBrings(w0, ops, oid, sid);
    }
  }

  lemma {:induction false} DaysAreBought(log: seq<Entry>, sid: nat)
    ensures Bought(Renewals(log, sid)) == 86_400_000_000 * Tally(log, sid, DaysGranted)
  {
    if log == [] {
    } else {
      var n := |log| - 1;
      DaysAreBought(log[..n], sid);
      var rs := Renewals(log, sid);
      assert rs != Renewals(log[..n], sid) ==> rs[..|rs| - 1] == Renewals(log[..n], sid);
    }
  }

  /** At each renewal of the service, what it had bought before reached that moment. */
  ghost predicate NeverLapsed(start: int, rs: seq<Renewed>) {
    forall j :: 0 <= j < |rs| ==> rs[j].at <= start + Bought(rs[..j])
  }

  lemma TimeIsSum(w0: World, w: World, sid: nat)
    requires AllAccounted(w0, w) && AppliedOnce(w0, w)
    requires sid < |w0.services| && w0.services[sid].expireAt.Some?
    ensures w.services[sid].expireAt.Some?
    ensures var start, rs := w0.services[sid].expireAt.value, Renewals(w.log, sid);
            var sold := start + 86_400_000_000 * (Sum(|w.orders|, ByOrder(w.log, sid, DaysGranted))
                                                  + Gained(w.log, sid, DaysGranted, None));
            && w.services[sid].expireAt.value >= sold
            && (w.services[sid].expireAt.value == sold <==> NeverLapsed(start, rs))
  {
    LoggedOrdersExist(w0, w);
    assert Accounted(w0.services[sid], w.services[sid], w.log, sid);
    hide Sum, Gained, Tally, QuotaAccounted, ShotsAccounted, AppliedOnce, AllAccounted, Renewals, RenewAll, Bought;
    TallyByOrder(w.log, sid, DaysGranted, |w.orders|);
    DaysAreBought(w.log, sid);
    AdditiveIffNeverLapsed(w0.services[sid].expireAt.value, Renewals(w.log, sid));
  }

  /**
   Over every run an expiry is at least its start plus, for each renewal order the run
   delivered, the days its product had in the one step that delivered it, plus those granted
   by hand; and it is exactly that if and only if the service never lapsed before a renewal.
   */
  lemma TimeExplained(w0: World, ops: seq<Op>, sid: nat)
    requires w0.Valid() && w0.log == []
    requires sid < |w0.services| && w0.services[sid].expireAt.Some?
    ensures var w := Run(w0, ops);
            var start := w0.services[sid].expireAt.value;
            var sold := start + 86_400_000_000 * (Sum(|w.orders|, ByOrder(w.log, sid, DaysGranted))
                                                  + Gained(w.log, sid, DaysGranted, None));
            && w.services[sid].expireAt.Some? && w.services[sid].expireAt.value >= sold
            && (w.services[sid].expireAt.value == sold <==> NeverLapsed(start, Renewals(w.log, sid)))
    ensures OrdersBring(w0, ops, sid)
  {
    hide Run, AllAccounted, AppliedOnce, DeliveredWith, IsDelivered, NeverLapsed;
    RunAccounted(w0, ops);
    RunAppliesOnce(w0, ops);
    TimeIsSum(w0, Run(w0, ops), sid);
    forall oid: nat {
      OrderBrings(w0, ops, oid, sid);
    }
  }

  // ---------------------------------------------------------------------------
  // The panel's copy
  // ---------------------------------------------------------------------------

  /** The panel has the expiry and quota of the row. */
  predicate InSync(c: Client, s: Service) {
    c.expiryMs == ExpiryMs(s.expireAt) && c.total == s.total
  }

  /** The change a step pushes to the panel for a service, with its moment, if the step gets as far as the panel. */
  function Pushed(w: World, op: Op, sid: nat): Option<(Change, int)> {
    match op
    case Grant(s, change, now, _) =>
      if s == sid && s < |w.services| && w.services[s].status != Deleted && Positive(change)
      then Some((change, now)) else None
    case Deliver(oid, plan, now, _) => PushedFor(Attempt(w, oid, plan), now, sid)
    case CrashDelivery(oid, plan, now) => PushedFor(Attempt(w, oid, plan), now, sid)
    case _ => None
  }

  function PushedFor(attempt: Option<(nat, Change)>, now: int, sid: nat): Option<(Change, int)> {
    if attempt.Some? && attempt.value.0 == sid then Some((attempt.value.1, now)) else None
  }

  /** The push reached the panel, and the local tables were never told. */
  predicate LandedUnconfirmed(op: Op) {
    match op
    case Grant(_, _, _, answer) => answer.Failure? && answer.landed
    case Deliver(_, _, _, answer) => answer.Failure? && answer.landed
    case CrashDelivery(_, _, _) => true
    case _ => false
  }

  /** The step wrote the service's client on the panel, confirmed or not. */
  predicate Reaches(w: World, op: Op, sid: nat) {
    match op
    case Grant(_, _, _, answer) => Pushed(w, op, sid).Some? && Lands(answer)
    case Deliver(_, _, _, answer) => Pushed(w, op, sid).Some? && Lands(answer)
    case CrashDelivery(_, _, _) => Pushed(w, op, sid).Some?
    case SweepRow(s, q, _, answer) =>
      s == sid && s < |w.services| && Matches(w.services[s], q) && q.ToDisable? && Lands(answer)
    case SetEnabled(s, _, _, answer) => s == sid && s < |w.services| && Lands(answer)
    case _ => false
  }

  /**
   What one step means for a service: if nothing reached the panel, client and terms are as before;
   otherwise the client says what the row says, or just the one change that was pushed and not confirmed.
   */
  ghost predicate StepTracked(w: World, op: Op, sid: nat)
    requires w.Valid() && sid < |w.services|
  {
    StepValid(w, op);
    var before, after := w.services[sid], Step(w, op).services[sid];
    var client := Step(w, op).panel[sid];
    if !Reaches(w, op, sid) then
      client == w.panel[sid] && SameTerms(before, after)
    else
      || InSync(client, after)
      || (&& Pushed(w, op, sid).Some? && LandedUnconfirmed(op) && SameTerms(before, after)
          && var (change, now) := Pushed(w, op, sid).value;
             InSync(client, Target(after, change, now)))
  }

  /** Expiry and quota are the same. */
  predicate SameTerms(s: Service, s': Service) {
    s'.expireAt == s.expireAt && s'.total == s.total
  }

  lemma GrantTracked(w: World, op: Op, sid: nat)
    requires w.Valid() && sid < |w.services| && op.Grant?
    ensures StepTracked(w, op, sid)
  {
  }

  lemma DeliveryTracked(w: World, op: Op, sid: nat)
    requires w.Valid() && sid < |w.services| && (op.Deliver? || op.CrashDelivery?)
    ensures StepTracked(w, op, sid)
  {
  }

  lemma OtherStepTracked(w: World, op: Op, sid: nat)
    requires w.Valid() && sid < |w.services| && !op.Grant? && !op.Deliver? && !op.CrashDelivery?
    ensures StepTracked(w, op, sid)
  {
  }

  lemma StepTracks(w: World, op: Op, sid: nat)
    requires w.Valid() && sid < |w.services|
    ensures StepTracked(w, op, sid)
  {
    hide StepTracked;
    if op.Grant? {
      GrantTracked(w, op, sid);
    } else if op.Deliver? || op.CrashDelivery? {
      DeliveryTracked(w, op, sid);
    } else {
      OtherStepTracked(w, op, sid);
    }
  }

  /** After step `k` nothing reached the panel for the service. */
  ghost predicate QuietSince(w0: World, ops: seq<Op>, sid: nat, k: nat)
    requires w0.Valid()
  {
    forall j :: k < j < |ops| ==> !Reaches(Before(w0, ops, j), ops[j], sid)
  }

  /** The world in which step `j` of a run was taken. */
  ghost function Before(w0: World, ops: seq<Op>, j: nat): (w: World)
    requires w0.Valid() && j <= |ops|
    ensures w.Valid() && |w.services| == |w0.services|
  {
    Run(w0, ops[..j])
  }

  lemma BeforeInit(w0: World, ops: seq<Op>, j: nat)
    requires w0.Valid() && j < |ops|
    ensures Before(w0, ops[..|ops| - 1], j) == Before(w0, ops, j)
  {
    hide Run;
    assert ops[..|ops| - 1][..j] == ops[..j];
  }

  lemma BeforeLast(w0: World, ops: seq<Op>)
    requires w0.Valid() && ops != []
    ensures Run(w0, ops) == Step(Before(w0, ops, |ops| - 1), ops[|ops| - 1])
    ensures Run(w0, ops[..|ops| - 1]) == Before(w0, ops, |ops| - 1)
  {
    hide Step;
  }

  lemma StaysQuiet(w0: World, ops: seq<Op>, sid: nat, k: nat)
    requires w0.Valid() && ops != [] && QuietSince(w0, ops[..|ops| - 1], sid, k)
    requires !Reaches(Before(w0, ops, |ops| - 1), ops[|ops| - 1], sid)
    ensures QuietSince(w0, ops, sid, k)
  {
    hide Before, Reaches;
    forall j | k < j < |ops|
      ensures !Reaches(Before(w0, ops, j), ops[j], sid)
    {
      if j < |ops| - 1 {
        BeforeInit(w0, ops, j);
        assert ops[..|ops| - 1][j] == ops[j];
      }
    }
  }

  /**
   Step `k` of the run was an attempt on the service whose write landed unconfirmed, nothing
   reached the panel for it since, and the client is exactly that one attempt ahead of the row.
   */
  ghost predicate AheadByStep(w0: World, ops: seq<Op>, sid: nat, k: nat)
    requires w0.Valid() && sid < |w0.services| && k < |ops|
  {
    var pushed := Pushed(Before(w0, ops, k), ops[k], sid);
    && LandedUnconfirmed(ops[k]) && pushed.Some?
    && QuietSince(w0, ops, sid, k)
    && AheadBy(Run(w0, ops), sid, pushed.value)
  }

  predicate AheadBy(w: World, sid: nat, pushed: (Change, int))
    requires sid < |w.services| && sid < |w.panel|
  {
    InSync(w.panel[sid], Target(w.services[sid], pushed.0, pushed.1))
  }

  lemma QuietStepKeepsLead(w: World, op: Op, sid: nat, pushed: (Change, int))
    requires w.Valid() && sid < |w.services| && !Reaches(w, op, sid) && AheadBy(w, sid, pushed)
    ensures AheadBy(Step(w, op), sid, pushed)
  {
    hide Step, Reaches;
    QuietStep(w, op, sid);
  }

  lemma StaysAhead(w0: World, ops: seq<Op>, sid: nat, k: nat)
    requires w0.Valid() && sid < |w0.services| && ops != [] && k < |ops| - 1
    requires AheadByStep(w0, ops[..|ops| - 1], sid, k)
    requires !Reaches(Before(w0, ops, |ops| - 1), ops[|ops| - 1], sid)
    ensures AheadByStep(w0, ops, sid, k)
  {
    hide Run, Before, Step, Reaches, Pushed, LandedUnconfirmed, AheadBy, QuietSince;
    var n := |ops| - 1;
    StaysQuiet(w0, ops, sid, k);
    BeforeLast(w0, ops);
    BeforeInit(w0, ops, k);
    assert ops[..n][k] == ops[k];
    QuietStepKeepsLead(Before(w0, ops, n), ops[n], sid, Pushed(Before(w0, ops, k), ops[k], sid).value);
  }

  lemma QuietStep(w: World, op: Op, sid: nat)
    requires w.Valid() && sid < |w.services| && !Reaches(w, op, sid)
    ensures Step(w, op).panel[sid] == w.panel[sid] && SameTerms(w.services[sid], Step(w, op).services[sid])
  {
    StepTracks(w, op, sid);
  }

  /**
   Failed attempts never stack. If panel and row agreed at the start, then after any run they
   agree, or the panel is ahead by exactly one attempt of that run: its last write that landed,
   unconfirmed, computed from the terms the row still has.
   */
  lemma {:induction false} RunTracks(w0: World, ops: seq<Op>, sid: nat)
    requires w0.Valid() && sid < |w0.services| && InSync(w0.panel[sid], w0.services[sid])
    ensures var w := Run(w0, ops);
            || InSync(w.panel[sid], w.services[sid])
            || exists k: nat :: k < |ops| && AheadByStep(w0, ops, sid, k)
    decreases |ops|
  {
    if ops == [] {
    } else {
      var n := |ops| - 1;
      var before := Before(w0, ops, n);
      RunTracks(w0, ops[..n], sid);
      BeforeLast(w0, ops);
      StepTracks(before, ops[n], sid);
      hide Run, Before, Step, Reaches, Pushed;
      if Reaches(before, ops[n], sid) {
        if !InSync(Run(w0, ops).panel[sid], Run(w0, ops).services[sid]) {
          assert AheadByStep(w0, ops, sid, n);
        }
      } else if !InSync(before.panel[sid], before.services[sid]) {
        var k: nat :| k < n && AheadByStep(w0, ops[..n], sid, k);
        StaysAhead(w0, ops, sid, k);
      }
    }
  }

  /** In particular, of two attempts in a row that landed unconfirmed only the second is on the panel. */
  lemma SecondAttemptReplacesFirst(w: World, sid: nat, first: Change, second: Change, t1: int, t2: int)
    requires w.Valid() && sid < |w.services| && w.services[sid].status != Deleted
    requires Positive(first) && Positive(second)
    ensures var lost := Failure(true, false);
            var after := Step(Step(w, Grant(sid, first, t1, lost)), Grant(sid, second, t2, lost));
            after.services == w.services && InSync(after.panel[sid], Target(w.services[sid], second, t2))
  {
  }

  /** A delivery that reports success leaves panel and row equal; one that reports failure leaves the row alone. */
  lemma DeliveryAgrees(w: World, oid: nat, plan: Plan, now: int, answer: PanelAnswer)
    requires w.Valid()
    ensures var (after, r) := DeliverAction(w, oid, plan, now, answer);
            if r == Ok(HandedOver) then
              && oid < |w.orders| && w.orders[oid].target.Some?
              && var sid := w.orders[oid].target.value;
                 && sid < |after.services|
                 && InSync(after.panel[sid], after.services[sid])
                 && after.panel[sid].enabled
            else after.services == w.services && after.log == w.log
  {
  }

  /**
   The status a confirmed change computes is settled: at that moment neither marking sweep would
   move the row, a usage sync with the same reading changes nothing, and only a row in force is active.
   */
  lemma ChangeIsSettled(s: Service, now: int)
    ensures var r := Recomputed(s, now);
            && !Matches(r, PastExpiry(now)) && !Matches(r, QuotaReached)
            && Synced(r, r.used, now) == r
            && (r.status == Active <==> !IsExpired(s.expireAt, now) && !IsOverQuota(s))
  {
    assert Synced(Recomputed(s, now), s.used, now) == Recomputed(s, now);
  }
}
