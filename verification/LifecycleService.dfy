/** The lifecycle operations and worker sweeps in place, over the rows they update. */
module LifecycleService {
  import opened Common
  import opened Renewal
  import opened ServiceLifecycle
  import opened LifecycleRuns
  import opened LifecycleSweeps

  class LifecycleTables {
    var services: seq<Service>
    var panel: seq<Client>
    var orders: seq<ActionOrder>
    var log: seq<Entry>

    constructor (services: seq<Service>, panel: seq<Client>)
      requires |services| == |panel|
      ensures Snapshot() == World(services, panel, [], []) && Valid()
    {
      this.services, this.panel, this.orders, this.log := services, panel, [], [];
    }

    function Snapshot(): World
      reads this
    {
      World(services, panel, orders, log)
    }

    ghost predicate Valid()
      reads this
    {
      Snapshot().Valid()
    }

    /** Writes a change to the panel; the row and the log follow only a confirmed write. */
    method Push(sid: nat, change: Change, now: int, order: Option<nat>, answer: PanelAnswer)
      requires Valid() && sid < |services|
      modifies this`services, this`panel, this`log
      ensures Snapshot() == ApplyChange(old(Snapshot()), sid, change, now, order, answer)
      ensures if answer.Done? then InSync(panel[sid], services[sid]) else services == old(services) && log == old(log)
    {
      var row := services[sid];
      match change {
        case Renew(days) => row := row.(expireAt := Some(RenewedExpiry(row.expireAt, now, days)));
        case AddTraffic(gb) => row := row.(total := AddedTotal(row.total, gb));
      }
      if Lands(answer) {
        panel := panel[sid := ClientFor(row, true)];
      }
      if answer.Done? {
        row := row.(disabledAt := None);
        if IsExpired(row.expireAt, now) {
          row := row.(status := Expired);
          row := row.(expiredAt := Stamp(row.expiredAt, now));
        } else if IsOverQuota(row) {
          row := row.(status := OverQuota);
          row := row.(overQuotaAt := Stamp(row.overQuotaAt, now));
          row := row.(expiryWarnedAt := None);
        } else {
          row := row.(status := Active);
          row := row.(expiredAt := None, overQuotaAt := None, expiryWarnedAt := None, trafficWarnedAt := None);
        }
        services := services[sid := row];
        log := log + [Entry(sid, Applied(change, now, order))];
      }
    }

    /** An administrator extends a service or grows its quota. */
    method GrantChange(sid: nat, change: Change, now: int, answer: PanelAnswer) returns (r: Result<Service, Refusal>)
      requires Valid()
      modifies this`services, this`panel, this`log
      ensures (Snapshot(), r) == AdminChange(old(Snapshot()), sid, change, now, answer)
      ensures if r.Ok? then sid < |services| && r.value == services[sid] && InSync(panel[sid], services[sid])
              else services == old(services) && log == old(log)
    {
      if sid >= |services| {
        return Err(NoService);
      }
      if services[sid].status == Deleted {
        return Err(IsDeleted);
      }
      if !Positive(change) {
        return Err(BadAmount);
      }
      Push(sid, change, now, None, answer);
      if !answer.Done? {
        return Err(PanelRefused);
      }
      return Ok(services[sid]);
    }

    /** Records that a paid action could not be delivered; the order stays retryable. */
    method Fail(oid: nat, reason: ActionError)
      requires oid < |orders|
      modifies this`orders
      ensures Snapshot() == FailAction(old(Snapshot()), oid, reason)
      ensures old(orders[oid].status.AwaitingDelivery()) ==>
                orders[oid].status.AwaitingDelivery() && orders[oid].error == Some(reason)
    {
      var order := orders[oid];
      if order.status == Approved {
        order := order.(status := ProvisioningPending);
      }
      orders := orders[oid := order.(error := Some(reason))];
    }

    /** Delivers a paid renew or add-traffic order. */
    method ApplyServiceActionForOrder(oid: nat, plan: Plan, now: int, answer: PanelAnswer)
      returns (r: Result<Delivery, Refusal>)
      requires Valid()
      modifies this
      ensures (Snapshot(), r) == DeliverAction(old(Snapshot()), oid, plan, now, answer)
      ensures if r == Ok(HandedOver) then
                && oid < |orders| && orders[oid].target.Some? && orders[oid].target.value < |services|
                && orders[oid].status == OrderStatus.Delivered
                && InSync(panel[orders[oid].target.value], services[orders[oid].target.value])
              else services == old(services) && log == old(log)
    {
      if oid >= |orders| {
        return Err(NoOrder);
      }
      var order := orders[oid];
      if !plan.v2ray {
        return Err(NotV2Ray);
      }
      if order.action.None? {
        return Err(NotAction);
      }
      if !order.status.Paid() {
        return Err(NotPaid);
      }
      if order.status == OrderStatus.Delivered {
        return Ok(AlreadyDone);
      }
      var obstacle := Obstacle(Snapshot(), order, plan);
      if obstacle.Some? {
        Fail(oid, obstacle.value);
        return Ok(Refused(obstacle.value));
      }
      Push(order.target.value, ChangeOf(order.action.value, plan), now, Some(oid), answer);
      if !answer.Done? {
        var reason := if answer.verify then VerifyFailed else PanelError;
        Fail(oid, reason);
        return Ok(Refused(reason));
      }
      orders := orders[oid := order.(status := OrderStatus.Delivered, error := None)];
      return Ok(HandedOver);
    }

    /** One row of a sweep. */
    method SweepOne(sid: nat, q: Query, now: int, answer: PanelAnswer)
      requires Valid() && sid < |services|
      modifies this`services, this`panel, this`log
      ensures Snapshot() == Sweep(old(Snapshot()), sid, q, now, answer)
    {
      var row := services[sid];
      match q {
        case PastExpiry(_) => row := row.(status := Expired, expiredAt := Stamp(row.expiredAt, now));
        case QuotaReached => row := row.(status := OverQuota, overQuotaAt := Stamp(row.overQuotaAt, now));
        case ToDisable(_) =>
          if Lands(answer) {
            panel := panel[sid := ClientFor(row, false)];
          }
          if !answer.Done? {
            return;
          }
          row := row.(disabledAt := Some(now));
          log := log + [Entry(sid, AutoDisabled)];
        case ExpiringSoon(_, _) =>
          row := row.(expiryWarnedAt := Some(now));
          log := log + [Entry(sid, ExpiryWarned(true))];
        case TrafficHigh(_) =>
          row := row.(trafficWarnedAt := Some(now));
          log := log + [Entry(sid, TrafficWarned(true))];
      }
      services := services[sid := row];
    }

    /** The rows a sweep works on. */
    method SelectBatch(q: Query, limit: nat) returns (batch: seq<nat>)
      ensures IsBatch(services, q, limit, batch)
    {
      batch := [];
      var sid := 0;
      while sid < |services| && |batch| < limit
        invariant 0 <= sid <= |services| && |batch| <= limit
        invariant forall k :: 0 <= k < |batch| ==> batch[k] < sid && Matches(services[batch[k]], q)
        invariant forall j, k :: 0 <= j < k < |batch| ==> batch[j] != batch[k]
        invariant forall i :: 0 <= i < sid && Matches(services[i], q) ==> i in batch
      {
        if Matches(services[sid], q) {
          batch := batch + [sid];
        }
        sid := sid + 1;
      }
    }

    /**
     A sweep over at most `limit` rows, each handled on its own so that one panel failure does
     not stop the others; a sweep that fails itself stops part way. It is a run of single steps
     over the first rows of a batch the query may return.
     */
    method SweepBatch(q: Query, limit: nat, now: int, answers: nat -> PanelAnswer, stop: Option<Stop>)
      returns (batch: seq<nat>, done: nat)
      requires Valid()
      modifies this`services, this`panel, this`log
      ensures IsBatch(old(services), q, limit, batch) && done == Reached(|batch|, stop)
      ensures Valid() && Snapshot() == Run(old(Snapshot()), SweepOps(batch[..done], q, now, answers))
    {
      batch := SelectBatch(q, limit);
      done := Reached(|batch|, stop);
      ghost var before := Snapshot();
      for k := 0 to done
        invariant Valid()
        invariant Snapshot() == Run(before, SweepOps(batch[..k], q, now, answers))
      {
        SweepRunNext(before, batch, k, q, now, answers);
        SweepOne(batch[k], q, now, answers(batch[k]));
      }
    }

    /** Warnings whose stamps are lost because the sweep dies before its one commit. */
    method WarnInVain(batch: seq<nat>, q: Query) returns (ghost ops: seq<Op>)
      requires Valid() && Warns(q)
      requires forall k :: 0 <= k < |batch| ==> batch[k] < |services| && Matches(services[batch[k]], q)
      modifies this`log
      ensures Snapshot() == Run(old(Snapshot()), ops)
      ensures |ops| == |batch| && forall k :: 0 <= k < |ops| ==> ops[k] == CrashWarning(batch[k], q)
    {
      ops := [];
      for k := 0 to |batch|
        invariant Snapshot() == Run(old(Snapshot()), ops)
        invariant |ops| == k && forall j :: 0 <= j < k ==> ops[j] == CrashWarning(batch[j], q)
      {
        RunGrows(old(Snapshot()), ops, CrashWarning(batch[k], q));
        ops := ops + [CrashWarning(batch[k], q)];
        log := log + [Entry(batch[k], if q.ExpiringSoon? then ExpiryWarned(false) else TrafficWarned(false))];
      }
    }

    /** Marks every row the query finds - past expiry, or quota used up - and reports how many. */
    method MarkServices(q: Query, now: int) returns (count: nat, ghost ops: seq<Op>)
      requires Valid() && (q.PastExpiry? || q.QuotaReached?)
      modifies this`services, this`panel, this`log
      ensures Valid() && Snapshot() == Run(old(Snapshot()), ops) && AllWorkerOps(ops)
      ensures |services| == |old(services)| && panel == old(panel) && log == old(log)
      ensures forall sid :: 0 <= sid < |services| ==>
                services[sid] == Marked(old(services)[sid], q, now) && !Matches(services[sid], q)
      ensures count == |Matching(old(services), q)|
      ensures forall k :: 0 <= k < |ops| ==> ops[k] == SweepRow(ops[k].sid, q, now, Done)
    {
      ghost var before := Snapshot();
      hide Run, Step, SweepOps, IsBatch, Matches, Marked, Matching;
      var batch, done := SweepBatch(q, |services| + 1, now, _ => Done, None);
      assert batch[..done] == batch;
      WholeBatchMarks(before, batch, |before.services| + 1, q, now, _ => Done);
      ops := SweepOps(batch, q, now, _ => Done);
      SweepOpsAre(batch, q, now, _ => Done);
      count := |batch|;
    }

    /**
     A limited sweep that warns or disables, and may fail part way. Disables are committed one by
     one, the stamps of warnings at the end. Unless it fails or its limit is too small it handles
     every row it is after, and it touches no other.
     */
    method SweepSome(q: Query, limit: nat, now: int, answers: nat -> PanelAnswer, stop: Option<Stop>)
      returns (ghost ops: seq<Op>)
      requires Valid() && (q.ToDisable? || Warns(q))
      modifies this`services, this`panel, this`log
      ensures Valid() && Snapshot() == Run(old(Snapshot()), ops)
      ensures |ops| <= limit && AllWorkerOps(ops)
      ensures stop.Some? ==> |ops| <= stop.value.rows
      ensures forall k :: 0 <= k < |ops| ==>
                ops[k] == if stop.Some? && !stop.value.kept && Warns(q) then CrashWarning(ops[k].sid, q)
                          else SweepRow(ops[k].sid, q, now, answers(ops[k].sid))
      ensures Swept(old(Snapshot()), Snapshot(), q, limit, now, true, answers, stop)
    {
      hide Run, SweepOps, Matches, Marked, Clears, RowsSwept, HandledRow;
      if stop.Some? && !stop.value.kept && Warns(q) {
        var batch := SelectBatch(q, limit);
        ops := WarnInVain(batch[..Reached(|batch|, stop)], q);
        UntouchedIsHandled(services, panel, q, now, true, answers);
      } else {
        ghost var before := Snapshot();
        var batch, done := SweepBatch(q, limit, now, answers, stop);
        SweepRunRows(before, batch[..done], q, now, answers);
        SweptIsHandled(before, Snapshot(), batch, done, q, limit, now, answers, stop);
        ops := SweepOps(batch[..done], q, now, answers);
        SweepOpsAre(batch[..done], q, now, answers);
      }
    }

    /** Takes fresh usage from the panel for the services that are due, one by one; unreadable ones are skipped. */
    method RefreshDueServices(due: seq<nat>, readings: nat -> Option<int>, now: int, stop: Option<Stop>)
      returns (ghost ops: seq<Op>)
      requires Valid()
      modifies this`services
      ensures Valid() && Snapshot() == Run(old(Snapshot()), ops)
      ensures |ops| == Reached(|due|, stop) && AllWorkerOps(ops)
      ensures forall k :: 0 <= k < |ops| ==> ops[k] == Sync(due[k], readings(due[k]), now)
      ensures |services| == |old(services)|
      ensures forall k :: 0 <= k < |ops| && due[k] < |services| && readings(due[k]).Some? ==>
                services[due[k]].used == readings(due[k]).value
      ensures forall sid :: 0 <= sid < |services| && sid !in due ==> services[sid] == old(services)[sid]
      ensures forall sid :: 0 <= sid < |services| && !Overrun(old(services)[sid], now) ==> !Overrun(services[sid], now)
    {
      hide Synced, Overrun, Run;
      ops := [];
      NoOps(Snapshot());
      for k := 0 to Reached(|due|, stop)
        invariant Valid() && Snapshot() == Run(old(Snapshot()), ops)
        invariant |ops| == k && forall j :: 0 <= j < k ==> ops[j] == Sync(due[j], readings(due[j]), now)
        invariant |services| == |old(services)|
        invariant forall j :: 0 <= j < k && due[j] < |services| && readings(due[j]).Some? ==>
                    services[due[j]].used == readings(due[j]).value
        invariant forall i :: 0 <= i < |services| && i !in due ==> services[i] == old(services)[i]
        invariant forall i :: 0 <= i < |services| && !Overrun(old(services)[i], now) ==> !Overrun(services[i], now)
      {
        var sid := due[k];
        RunGrows(old(Snapshot()), ops, Sync(sid, readings(sid), now));
        ops := ops + [Sync(sid, readings(sid), now)];
        if sid < |services| && readings(sid).Some? {
          SyncKeeps(services[sid], readings(sid).value, now);
          services := services[sid := Synced(services[sid], readings(sid).value, now)];
        }
      }
    }

    /**
     One worker pass. Any of its eight steps may fail without stopping the others: a marking as
     a whole, a refresh or a limited sweep after some of its rows. The first `half` of its steps
     mark and refresh, the others disable and warn, as the settings allow and only where due.
     */
    method LifecycleTick(
      now: int, settings: Settings, fails: Failures,
      due: seq<nat>, readings: nat -> Option<int>, answers: nat -> PanelAnswer)
      returns (ghost ops: seq<Op>, ghost half: nat)
      requires Valid()
      modifies this`services, this`panel, this`log
      ensures Valid() && Snapshot() == Run(old(Snapshot()), ops) && AllWorkerOps(ops) && half <= |ops|
      ensures forall k :: 0 <= k < half ==> MarkStep(ops[k], now)
      ensures forall k :: half <= k < |ops| ==> CareStep(ops[k], now, settings)
      ensures |services| == |old(services)|
      ensures forall sid :: 0 <= sid < |services| ==> SameTerms(old(services)[sid], services[sid])
      ensures MarkExpired !in fails ==>
                forall sid :: 0 <= sid < |services| ==> !Overrun(services[sid], now)
      ensures MarkQuotaAgain !in fails ==>
                forall sid :: 0 <= sid < |services| ==> !(services[sid].status == Active && IsOverQuota(services[sid]))
      ensures MarkQuota !in fails ==>
                forall sid :: 0 <= sid < |services| && sid !in due ==>
                  !(services[sid].status == Active && IsOverQuota(services[sid]))
      ensures Refresh !in fails ==>
                forall sid :: sid in due && sid < |services| && readings(sid).Some? ==>
                  services[sid].used == readings(sid).value
      ensures var mid := Run(old(Snapshot()), ops[..half]);
              AllCaredFor(mid, Snapshot(), now, settings, ReachOf(mid.services, now, settings, fails), answers)
    {
      hide Run, CareStep, MarkStep;
      ops := MarkAndRefresh(now, fails, due, readings);
      half := |ops|;
      ghost var mid := Snapshot();
      ghost var first := ops;
      ghost var more := DisableAndWarn(now, settings, fails, answers);
      CareStepsAreWork(more, now, settings);
      RunsOn(old(Snapshot()), ops, more);
      ops := ops + more;
      assert ops[..half] == first;
      forall sid | 0 <= sid < |services|
        ensures SameTerms(old(services)[sid], services[sid])
        ensures CaredFor(mid.services[sid], mid.panel[sid], services[sid], panel[sid], now, settings,
                         ReachOf(mid.services, now, settings, fails), answers(sid))
      {
        WorkersKeepTerms(old(Snapshot()), ops, sid);
      }
    }

    /** The first half of a pass: marking, refreshing, and marking again on the fresh usage. */
    method MarkAndRefresh(now: int, fails: Failures, due: seq<nat>, readings: nat -> Option<int>)
      returns (ghost ops: seq<Op>)
      requires Valid()
      modifies this`services, this`panel, this`log
      ensures Valid() && Snapshot() == Run(old(Snapshot()), ops) && AllWorkerOps(ops)
      ensures forall k :: 0 <= k < |ops| ==> MarkStep(ops[k], now)
      ensures |services| == |old(services)|
      ensures MarkExpired !in fails ==> forall sid :: 0 <= sid < |services| ==> !Overrun(services[sid], now)
      ensures MarkQuotaAgain !in fails ==>
                forall sid :: 0 <= sid < |services| ==> !(services[sid].status == Active && IsOverQuota(services[sid]))
      ensures MarkQuota !in fails ==>
                forall sid :: 0 <= sid < |services| && sid !in due ==>
                  !(services[sid].status == Active && IsOverQuota(services[sid]))
      ensures Refresh !in fails ==>
                forall sid :: sid in due && sid < |services| && readings(sid).Some? ==>
                  services[sid].used == readings(sid).value
    {
      hide Run, WorkerOp, AllWorkerOps, Marked, Matching;
      ops := [];
      ghost var more := [];
      ghost var start := Snapshot();
      NoOps(start);
      var n: nat;
      if MarkExpired !in fails {
        n, more := MarkServices(PastExpiry(now), now);
        RunsOn(start, ops, more);
        ops := ops + more;
      }
      if MarkQuota !in fails {
        n, more := MarkFull(now);
        RunsOn(start, ops, more);
        ops := ops + more;
      }
      more := RefreshDueServices(due, readings, now, StopOf(fails, Refresh));
      RunsOn(start, ops, more);
      ops := ops + more;
      if MarkQuotaAgain !in fails {
        n, more := MarkFull(now);
        RunsOn(start, ops, more);
        ops := ops + more;
      }
    }

    /** Marks the services whose quota is used up. */
    method MarkFull(now: int) returns (count: nat, ghost ops: seq<Op>)
      requires Valid()
      modifies this`services, this`panel, this`log
      ensures Valid() && Snapshot() == Run(old(Snapshot()), ops) && AllWorkerOps(ops)
      ensures forall k :: 0 <= k < |ops| ==> MarkStep(ops[k], now)
      ensures |services| == |old(services)|
      ensures forall sid :: 0 <= sid < |services| ==>
                && services[sid].used == old(services)[sid].used
                && !(services[sid].status == Active && IsOverQuota(services[sid]))
                && (!Overrun(old(services)[sid], now) ==> !Overrun(services[sid], now))
    {
      hide Run;
      count, ops := MarkServices(QuotaReached, now);
    }

    /** The second half of a pass: automatic disables and one-shot warnings, as the settings allow. */
    method DisableAndWarn(now: int, settings: Settings, fails: Failures, answers: nat -> PanelAnswer)
      returns (ghost ops: seq<Op>)
      requires Valid()
      modifies this`services, this`panel, this`log
      ensures Valid() && Snapshot() == Run(old(Snapshot()), ops)
      ensures forall k :: 0 <= k < |ops| ==> CareStep(ops[k], now, settings)
      ensures AllCaredFor(old(Snapshot()), Snapshot(), now, settings,
                          ReachOf(old(services), now, settings, fails), answers)
    {
      hide Run, AllWorkerOps, Matches, Marked, Matching, HandledRow;
      ghost var start := Snapshot();
      var soon, high := SoonQuery(now, settings), TrafficHigh(settings.warningPercent);
      ghost var a := SweepIf(settings.disableExpired, ToDisable(Expired), 50, now, settings, answers,
                             StopOf(fails, DisableExpired));
      ghost var one := Snapshot();
      ghost var b := SweepIf(settings.disableOverQuota, ToDisable(OverQuota), 50, now, settings, answers,
                             StopOf(fails, DisableQuota));
      ghost var two := Snapshot();
      ghost var c := SweepIf(settings.warningDays > 0, soon, 100, now, settings, answers, StopOf(fails, WarnExpiry));
      ghost var three := Snapshot();
      ghost var d := SweepIf(0 < settings.warningPercent < 100, high, 100, now, settings, answers,
                             StopOf(fails, WarnTraffic));
      FourParts(start, a, b, c, d);
      FourHandled(start, one, two, three, Snapshot(), now, settings, fails, answers);
      ops := a + b + c + d;
    }

    /** A limited sweep, if the settings ask for it. */
    method SweepIf(
      on: bool, q: Query, limit: nat, now: int, settings: Settings, answers: nat -> PanelAnswer, stop: Option<Stop>)
      returns (ghost ops: seq<Op>)
      requires Valid() && (q.ToDisable? || Warns(q)) && (on ==> CareQuery(q, now, settings))
      modifies this`services, this`panel, this`log
      ensures Valid() && Snapshot() == Run(old(Snapshot()), ops)
      ensures forall k :: 0 <= k < |ops| ==> CareStep(ops[k], now, settings)
      ensures Swept(old(Snapshot()), Snapshot(), q, limit, now, on, answers, stop)
    {
      hide Run, Matches, Marked, CareQuery;
      ops := [];
      NoOps(Snapshot());
      if on {
        ops := SweepSome(q, limit, now, answers, stop);
      }
    }
  }
}
