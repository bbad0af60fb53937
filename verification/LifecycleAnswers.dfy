/** What each call of the service lifecycle answers, and what it leaves behind. */
module LifecycleAnswers {
  import opened Common
  import opened ServiceLifecycle

  /** The later of a moment and an expiry, if there is one. */
  function Later(expiry: Option<int>, now: int): (r: int)
    ensures r >= now && (expiry.Some? ==> r >= expiry.value)
    ensures r == now || expiry == Some(r)
  {
    if expiry.Some? && now < expiry.value then expiry.value else now
  }

  // ---------------------------------------------------------------------------
  // Paid actions
  // ---------------------------------------------------------------------------

  /** The order can be carried out on its service with what its product has to give. */
  predicate Deliverable(w: World, oid: nat, plan: Plan) {
    && plan.v2ray && oid < |w.orders|
    && var o := w.orders[oid];
       && o.status in {Approved, ProvisioningPending} && o.action.Some?
       && o.target.Some? && o.target.value < |w.services|
       && w.services[o.target.value].user == o.user
       && w.services[o.target.value].status != Deleted
       && match o.action.value
          case ExtendTime => plan.days > 0
          case ExtendTraffic => plan.gb > 0
  }

  /**
   An action is handed over exactly if its order can be carried out and the panel confirms;
   it is refused for good reason only if the order is missing, unpaid or of another kind.
   */
  lemma ActionAnswers(w: World, oid: nat, plan: Plan, now: int, answer: PanelAnswer)
    requires w.Valid()
    ensures var (after, r) := DeliverAction(w, oid, plan, now, answer);
            && (r == Ok(HandedOver) <==> Deliverable(w, oid, plan) && answer.Done?)
            && (r.Ok? <==>
                  && oid < |w.orders| && plan.v2ray && w.orders[oid].action.Some?
                  && w.orders[oid].status in {Approved, ProvisioningPending, OrderStatus.Delivered})
            && (r == Err(NoOrder) <==> oid >= |w.orders|)
            && (r == Err(NotV2Ray) <==> oid < |w.orders| && !plan.v2ray)
            && (r == Err(NotAction) <==> oid < |w.orders| && plan.v2ray && w.orders[oid].action.None?)
            && (r == Err(NotPaid) <==>
                  && oid < |w.orders| && plan.v2ray && w.orders[oid].action.Some?
                  && w.orders[oid].status !in {Approved, ProvisioningPending, OrderStatus.Delivered})
            && (r == Ok(AlreadyDone) <==> r.Ok? && w.orders[oid].status == OrderStatus.Delivered)
            && (r.Err? || r == Ok(AlreadyDone) ==> after == w)
  {
  }

  /** Why an order that can be tried is not carried out; it stays as it was but for that, ready for another try. */
  lemma ActionFailures(w: World, oid: nat, plan: Plan, now: int, answer: PanelAnswer)
    requires w.Valid()
    requires oid < |w.orders| && w.orders[oid].status.AwaitingDelivery()
    requires plan.v2ray && w.orders[oid].action.Some?
    ensures var (after, r) := DeliverAction(w, oid, plan, now, answer);
            var o := w.orders[oid];
            && (r != Ok(HandedOver) ==>
                  && r.Ok? && r.value.Refused?
                  && after.services == w.services && after.log == w.log
                  && after.orders == w.orders[oid := o.(status := ProvisioningPending, error := Some(r.value.reason))]
                  && (!Deliverable(w, oid, plan) ==> after.panel == w.panel)
                  && (Deliverable(w, oid, plan) ==>
                        r.value.reason == if answer.verify then VerifyFailed else PanelError)
                  && (r.value.reason == ServiceMissing <==> o.target.None? || o.target.value >= |w.services|)
                  && (r.value.reason == NotOwner <==>
                        o.target.Some? && o.target.value < |w.services| && w.services[o.target.value].user != o.user)
                  && (r.value.reason == ServiceDeleted ==> w.services[o.target.value].status == Deleted)
                  && (r.value.reason == NoDuration ==> o.action == Some(ExtendTime) && plan.days <= 0)
                  && (r.value.reason == NoTraffic ==> o.action == Some(ExtendTraffic) && plan.gb <= 0)
                  && (r.value.reason in {VerifyFailed, PanelError} ==> Deliverable(w, oid, plan)))
  {
  }

  /** What a confirmed write leaves: the client on, with the row's terms, and the order's neighbours untouched. */
  predicate OnlyServiceChanged(w: World, after: World, sid: nat)
    requires w.Valid() && after.Valid() && sid < |w.services| && |after.services| == |w.services|
  {
    && (forall k :: 0 <= k < |w.services| && k != sid ==>
          after.services[k] == w.services[k] && after.panel[k] == w.panel[k])
    && after.panel[sid].enabled
    && after.panel[sid].total == after.services[sid].total
    && after.panel[sid].expiryMs ==
       (if after.services[sid].expireAt.Some? then after.services[sid].expireAt.value / 1000 else 0)
  }

  /** A service whose time was extended by some days: never expired, and in force unless its quota is used up. */
  predicate Extended(s: Service, after: Service, days: int, now: int) {
    && after.expireAt == Some(Later(s.expireAt, now) + days * 24 * 3600 * 1_000_000)
    && after.total == s.total && after.used == s.used && after.user == s.user
    && after.status == (if s.total > 0 && s.used >= s.total then OverQuota else Active)
    && after.disabledAt.None? && after.expiryWarnedAt.None?
    && (after.status == Active ==> after.expiredAt.None? && after.overQuotaAt.None? && after.trafficWarnedAt.None?)
    && (after.status == OverQuota ==>
          && after.overQuotaAt == (if s.overQuotaAt.Some? then s.overQuotaAt else Some(now))
          && after.expiredAt == s.expiredAt && after.trafficWarnedAt == s.trafficWarnedAt)
  }

  /** A service with some more gigabytes: unlimited stays unlimited, and what has run out stays so. */
  predicate Enlarged(s: Service, after: Service, gb: int, now: int) {
    && after.total == (if s.total > 0 then s.total + gb * 1024 * 1024 * 1024 else 0)
    && after.expireAt == s.expireAt && after.used == s.used && after.user == s.user
    && after.disabledAt.None?
    && (if s.expireAt.Some? && s.expireAt.value < now then
          && after.status == Expired && after.expiredAt == (if s.expiredAt.Some? then s.expiredAt else Some(now))
          && after.overQuotaAt == s.overQuotaAt
          && after.expiryWarnedAt == s.expiryWarnedAt && after.trafficWarnedAt == s.trafficWarnedAt
        else if after.total > 0 && s.used >= after.total then
          && after.status == OverQuota
          && after.overQuotaAt == (if s.overQuotaAt.Some? then s.overQuotaAt else Some(now))
          && after.expiredAt == s.expiredAt
          && after.expiryWarnedAt.None? && after.trafficWarnedAt == s.trafficWarnedAt
        else
          && after.status == Active && after.expiredAt.None? && after.overQuotaAt.None?
          && after.expiryWarnedAt.None? && after.trafficWarnedAt.None?)
  }

  /** A handed-over order gives its service the days, or the gigabytes, its product sells. */
  lemma HandedOverMeans(w: World, oid: nat, plan: Plan, now: int, answer: PanelAnswer)
    requires w.Valid() && DeliverAction(w, oid, plan, now, answer).1 == Ok(HandedOver)
    ensures var after := DeliverAction(w, oid, plan, now, answer).0;
            var o := w.orders[oid];
            var sid := o.target.value;
            && after.Valid() && |after.services| == |w.services|
            && after.orders == w.orders[oid := o.(status := OrderStatus.Delivered, error := None)]
            && OnlyServiceChanged(w, after, sid)
            && match o.action.value
               case ExtendTime =>
                 && Extended(w.services[sid], after.services[sid], plan.days, now)
                 && after.log == w.log + [Entry(sid, Applied(Renew(plan.days), now, Some(oid)))]
               case ExtendTraffic =>
                 && Enlarged(w.services[sid], after.services[sid], plan.gb, now)
                 && after.log == w.log + [Entry(sid, Applied(AddTraffic(plan.gb), now, Some(oid)))]
  {
    match w.orders[oid].action.value
    case ExtendTime =>
    case ExtendTraffic =>
  }

  /** An administrator's grant goes to any service there is that is not deleted, and changes it as an order would. */
  lemma GrantMeans(w: World, sid: nat, change: Change, now: int, answer: PanelAnswer)
    requires w.Valid()
    ensures var (after, r) := AdminChange(w, sid, change, now, answer);
            var amount := match change case Renew(days) => days case AddTraffic(gb) => gb;
            && (r.Ok? <==> sid < |w.services| && w.services[sid].status != Deleted && amount > 0 && answer.Done?)
            && (r == Err(NoService) <==> sid >= |w.services|)
            && (r == Err(IsDeleted) <==> sid < |w.services| && w.services[sid].status == Deleted)
            && (r == Err(BadAmount) <==> sid < |w.services| && w.services[sid].status != Deleted && amount <= 0)
            && (r.Err? ==> after.services == w.services && after.log == w.log)
            && (r.Err? && r.error != PanelRefused ==> after == w)
            && after.orders == w.orders
            && (r.Ok? ==>
                  && |after.services| == |w.services| && after.Valid() && r.value == after.services[sid]
                  && OnlyServiceChanged(w, after, sid)
                  && after.log == w.log + [Entry(sid, Applied(change, now, None))]
                  && match change
                     case Renew(days) => Extended(w.services[sid], after.services[sid], days, now)
                     case AddTraffic(gb) => Enlarged(w.services[sid], after.services[sid], gb, now))
  {
    match change
    case Renew(_) =>
    case AddTraffic(_) =>
  }

  // ---------------------------------------------------------------------------
  // Switching, resetting and syncing
  // ---------------------------------------------------------------------------

  /** A client is switched on the panel first; switched on again, an expired service stays expired. */
  lemma SwitchingMeans(w: World, sid: nat, enable: bool, now: int)
    requires w.Valid() && sid < |w.services|
    ensures var after := Step(w, SetEnabled(sid, enable, now, Done));
            var s := w.services[sid];
            var expired := s.expireAt.Some? && s.expireAt.value < now;
            && after.panel == w.panel[sid := Client(after.panel[sid].expiryMs, s.total, enable)]
            && after.panel[sid].expiryMs == (if s.expireAt.Some? then s.expireAt.value / 1000 else 0)
            && after.services == w.services[sid :=
                 if !enable then s.(status := Disabled, disabledAt := Some(now))
                 else s.(status := if expired then Expired else Active, disabledAt := None)]
            && after.orders == w.orders
            && after.log == if enable then w.log + [Entry(sid, Enabled)] else w.log
  {
  }

  /** Unconfirmed, neither switching nor resetting changes a row. */
  lemma UnconfirmedChangesNothing(w: World, sid: nat, enable: bool, now: int, landed: bool, verify: bool)
    requires w.Valid()
    ensures var answer := Failure(landed, verify);
            var switched := Step(w, SetEnabled(sid, enable, now, answer));
            && switched.services == w.services && switched.orders == w.orders && switched.log == w.log
            && (!landed ==> switched.panel == w.panel)
            && Step(w, ResetTraffic(sid, now, answer)) == w
  {
  }

  /** Resetting the usage lifts an over-quota state, and re-arms the traffic warning. */
  lemma ResettingMeans(w: World, sid: nat, now: int)
    requires w.Valid() && sid < |w.services|
    ensures var after := Step(w, ResetTraffic(sid, now, Done));
            var s, r := w.services[sid], after.services[sid];
            var expired := s.expireAt.Some? && s.expireAt.value < now;
            && |after.services| == |w.services|
            && (forall k :: 0 <= k < |w.services| && k != sid ==> after.services[k] == w.services[k])
            && r == s.(used := 0, trafficWarnedAt := None, status := r.status, overQuotaAt := r.overQuotaAt)
            && (s.status != OverQuota ==> r.status == s.status && r.overQuotaAt == s.overQuotaAt)
            && (s.status == OverQuota ==> r.overQuotaAt.None? && r.status == if expired then Expired else Active)
            && after.panel == w.panel && after.orders == w.orders && after.log == w.log + [Entry(sid, TrafficReset)]
  {
  }

  /**
   A usage reading replaces the old one and moves only services that count as active or over
   quota: to expired if their time is up, else to what the new reading says.
   */
  lemma SyncingMeans(s: Service, used: int, now: int)
    ensures var r := Synced(s, used, now);
            var running := s.status == Active || s.status == OverQuota;
            var expired := s.expireAt.Some? && s.expireAt.value < now;
            var full := s.total > 0 && used >= s.total;
            && r == s.(used := used, status := r.status, expiredAt := r.expiredAt, overQuotaAt := r.overQuotaAt)
            && r.status ==
               (if !running then s.status else if expired then Expired else if full then OverQuota else Active)
            && r.expiredAt == (if running && expired && s.expiredAt.None? then Some(now) else s.expiredAt)
            && r.overQuotaAt ==
               (if !running || expired || r.status == s.status then s.overQuotaAt
                else if full && s.overQuotaAt.None? then Some(now)
                else if full then s.overQuotaAt else None)
  {
  }

  /** An unreadable service is left as it is. */
  lemma UnreadableIsSkipped(w: World, sid: nat, now: int)
    requires w.Valid()
    ensures Step(w, Sync(sid, None, now)) == w
  {
  }

  // ---------------------------------------------------------------------------
  // Sweeps
  // ---------------------------------------------------------------------------

  /** Which rows each sweep is after, in terms of time left, quota used, and what was done before. */
  lemma SweepsLookFor(s: Service, now: int, horizon: int, percent: int, status: ServiceStatus)
    ensures Matches(s, PastExpiry(now)) <==> s.status == Active && s.expireAt.Some? && s.expireAt.value < now
    ensures Matches(s, QuotaReached) <==> s.status == Active && s.total > 0 && s.used >= s.total
    ensures Matches(s, ToDisable(status)) <==> s.status == status && s.disabledAt.None?
    ensures Matches(s, ExpiringSoon(now, horizon)) <==>
              && s.status == Active && s.expiryWarnedAt.None?
              && s.expireAt.Some? && now < s.expireAt.value && s.expireAt.value <= horizon
    ensures Matches(s, TrafficHigh(percent)) <==>
              && s.status == Active && s.trafficWarnedAt.None?
              && s.total > 0 && s.used < s.total && s.total * percent <= s.used * 100
  {
  }

  /** What a sweep makes of a row it found, once the panel confirmed: the one stamp or status it is about. */
  lemma SweptRow(w: World, sid: nat, q: Query, now: int)
    requires w.Valid() && sid < |w.services| && Matches(w.services[sid], q)
    ensures var after := Step(w, SweepRow(sid, q, now, Done));
            var s := w.services[sid];
            var (row, event) :=
              match q
              case PastExpiry(_) =>
                (s.(status := Expired, expiredAt := if s.expiredAt.Some? then s.expiredAt else Some(now)), None)
              case QuotaReached =>
                (s.(status := OverQuota, overQuotaAt := if s.overQuotaAt.Some? then s.overQuotaAt else Some(now)), None)
              case ToDisable(_) => (s.(disabledAt := Some(now)), Some(AutoDisabled))
              case ExpiringSoon(_, _) => (s.(expiryWarnedAt := Some(now)), Some(ExpiryWarned(true)))
              case TrafficHigh(_) => (s.(trafficWarnedAt := Some(now)), Some(TrafficWarned(true)));
            && after.services == w.services[sid := row]
            && after.log == (if event.Some? then w.log + [Entry(sid, event.value)] else w.log)
            && after.orders == w.orders
            && (if q.ToDisable? then
                  && after.panel == w.panel[sid := after.panel[sid]]
                  && !after.panel[sid].enabled && after.panel[sid].total == s.total
                  && after.panel[sid].expiryMs == (if s.expireAt.Some? then s.expireAt.value / 1000 else 0)
                else after.panel == w.panel)
  {
  }
}
