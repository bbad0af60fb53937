/**
 The V2Ray service lifecycle: what one renewal, traffic purchase, usage sync or sweep does to
 the local rows, the remote panel and the audit log, and what holds over every run of them.

 A row's id is its position. The panel answers each write with success, or with an error that
 may come before or after the write took effect.
 */
module ServiceLifecycle {
  import opened Common
  import opened Renewal

  datatype ServiceStatus = Provisioning | Active | Disabled | Expired | OverQuota | Deleted | SetupFailed

  /** Totals are bytes, zero meaning unlimited; the stamps say when something last happened. */
  datatype Service = Service(
    user: nat,
    status: ServiceStatus,
    expireAt: Option<int>,
    total: int,
    used: int,
    expiredAt: Option<int>,
    overQuotaAt: Option<int>,
    disabledAt: Option<int>,
    expiryWarnedAt: Option<int>,
    trafficWarnedAt: Option<int>)

  /** The panel's own copy of a client. */
  datatype Client = Client(expiryMs: int, total: int, enabled: bool)

  datatype Change = Renew(days: int) | AddTraffic(gb: int)

  datatype ActionError = ServiceMissing | NotOwner | ServiceDeleted | NoDuration | NoTraffic | VerifyFailed | PanelError

  datatype Action = ExtendTime | ExtendTraffic

  datatype ActionOrder = ActionOrder(
    user: nat, action: Option<Action>, target: Option<nat>, status: OrderStatus, error: Option<ActionError>)

  /** The product as the delivery reads it. */
  datatype Plan = Plan(v2ray: bool, days: int, gb: int)

  datatype PanelAnswer = Done | Failure(landed: bool, verify: bool)

  /** For a warning, whether the row was stamped with it. */
  datatype Event =
    | Applied(change: Change, at: int, order: Option<nat>)
    | ExpiryWarned(stamped: bool)
    | TrafficWarned(stamped: bool)
    | AutoDisabled
    | Enabled
    | TrafficReset

  datatype Entry = Entry(sid: nat, event: Event)

  datatype World = World(services: seq<Service>, panel: seq<Client>, orders: seq<ActionOrder>, log: seq<Entry>)
  {
    ghost predicate Valid() {
      |services| == |panel|
    }
  }

  datatype Refusal = NoService | IsDeleted | BadAmount | PanelRefused | NoOrder | NotV2Ray | NotAction | NotPaid

  // ---------------------------------------------------------------------------
  // Field arithmetic
  // ---------------------------------------------------------------------------

  function Gigabytes(gb: int): int {
    gb * 1_073_741_824
  }

  /** New quota; unlimited stays unlimited. */
  function AddedTotal(total: int, gb: int): int {
    if total <= 0 then 0 else total + Gigabytes(gb)
  }

  function ExpiryMs(expiry: Option<int>): int {
    if expiry.Some? then expiry.value / 1000 else 0
  }

  predicate IsExpired(expiry: Option<int>, now: int) {
    expiry.Some? && expiry.value < now
  }

  predicate IsOverQuota(s: Service) {
    s.total > 0 && s.used >= s.total
  }

  function Stamp(earlier: Option<int>, now: int): Option<int> {
    if earlier.Some? then earlier else Some(now)
  }

  /** Status and stamps after a renewal or traffic purchase took effect. */
  function Recomputed(s: Service, now: int): Service {
    var s := s.(disabledAt := None);
    if IsExpired(s.expireAt, now) then
      s.(status := Expired, expiredAt := Stamp(s.expiredAt, now))
    else if IsOverQuota(s) then
      s.(status := OverQuota, overQuotaAt := Stamp(s.overQuotaAt, now), expiryWarnedAt := None)
    else
      s.(status := Active, expiredAt := None, overQuotaAt := None, expiryWarnedAt := None, trafficWarnedAt := None)
  }

  /** The row with the expiry or quota a change asks for, and nothing else touched. */
  function Target(s: Service, change: Change, now: int): Service {
    match change
    case Renew(days) => s.(expireAt := Some(RenewedExpiry(s.expireAt, now, days)))
    case AddTraffic(gb) => s.(total := AddedTotal(s.total, gb))
  }

  /** What a panel update for a row writes: always the full, absolute values. */
  function ClientFor(s: Service, enabled: bool): Client {
    Client(ExpiryMs(s.expireAt), s.total, enabled)
  }

  // ---------------------------------------------------------------------------
  // Steps
  // ---------------------------------------------------------------------------

  predicate Lands(answer: PanelAnswer) {
    answer.Done? || answer.landed
  }

  function Write(w: World, sid: nat, client: Client, answer: PanelAnswer): World
    requires w.Valid() && sid < |w.services|
  {
    if Lands(answer) then w.(panel := w.panel[sid := client]) else w
  }

  function SetRow(w: World, sid: nat, row: Service): World
    requires sid < |w.services|
  {
    w.(services := w.services[sid := row])
  }

  function Log(w: World, sid: nat, event: Event): World {
    w.(log := w.log + [Entry(sid, event)])
  }

  /** Pushes a change to the panel and, only if the panel confirms, applies it locally. */
  function ApplyChange(w: World, sid: nat, change: Change, now: int, order: Option<nat>, answer: PanelAnswer): World
    requires w.Valid() && sid < |w.services|
  {
    var target := Target(w.services[sid], change, now);
    var written := Write(w, sid, ClientFor(target, true), answer);
    if answer.Done? then Log(SetRow(written, sid, Recomputed(target, now)), sid, Applied(change, now, order))
    else written
  }

  predicate Positive(change: Change) {
    match change
    case Renew(days) => days > 0
    case AddTraffic(gb) => gb > 0
  }

  /** An administrator's renewal or traffic grant. */
  function AdminChange(w: World, sid: nat, change: Change, now: int, answer: PanelAnswer)
    : (World, Result<Service, Refusal>)
    requires w.Valid()
  {
    if sid >= |w.services| then (w, Err(NoService))
    else if w.services[sid].status == Deleted then (w, Err(IsDeleted))
    else if !Positive(change) then (w, Err(BadAmount))
    else
      var after := ApplyChange(w, sid, change, now, None, answer);
      (after, if answer.Done? then Ok(after.services[sid]) else Err(PanelRefused))
  }

  function ChangeOf(action: Action, plan: Plan): Change {
    match action
    case ExtendTime => Renew(plan.days)
    case ExtendTraffic => AddTraffic(plan.gb)
  }

  /** Why a paid action order cannot even be tried. */
  function Obstacle(w: World, order: ActionOrder, plan: Plan): Option<ActionError>
    requires order.action.Some?
  {
    if order.target.None? || order.target.value >= |w.services| then Some(ServiceMissing)
    else
      var s := w.services[order.target.value];
      if s.user != order.user then Some(NotOwner)
      else if s.status == Deleted then Some(ServiceDeleted)
      else if order.action.value.ExtendTime? && plan.days <= 0 then Some(NoDuration)
      else if order.action.value.ExtendTraffic? && plan.gb <= 0 then Some(NoTraffic)
      else None
  }

  datatype Delivery = AlreadyDone | HandedOver | Refused(reason: ActionError)

  function FailAction(w: World, oid: nat, reason: ActionError): World
    requires oid < |w.orders|
  {
    var o := w.orders[oid];
    var status := if o.status == Approved then ProvisioningPending else o.status;
    w.(orders := w.orders[oid := o.(status := status, error := Some(reason))])
  }

  /** Delivery of a paid renew or add-traffic order, under the order's lock. */
  function DeliverAction(w: World, oid: nat, plan: Plan, now: int, answer: PanelAnswer)
    : (World, Result<Delivery, Refusal>)
    requires w.Valid()
  {
    if oid >= |w.orders| then (w, Err(NoOrder))
    else
      var o := w.orders[oid];
      if !plan.v2ray then (w, Err(NotV2Ray))
      else if o.action.None? then (w, Err(NotAction))
      else if !o.status.Paid() then (w, Err(NotPaid))
      else if o.status == OrderStatus.Delivered then (w, Ok(AlreadyDone))
      else
        var obstacle := Obstacle(w, o, plan);
        if obstacle.Some? then (FailAction(w, oid, obstacle.value), Ok(Refused(obstacle.value)))
        else
          var after := ApplyChange(w, o.target.value, ChangeOf(o.action.value, plan), now, Some(oid), answer);
          if answer.Done? then
            (after.(orders := after.orders[oid := o.(status := OrderStatus.Delivered, error := None)]), Ok(HandedOver))
          else
            var reason := if answer.verify then VerifyFailed else PanelError;
            (FailAction(after, oid, reason), Ok(Refused(reason)))
  }

  /** The service a delivery would push to the panel, with the change: none if it stops before. */
  function Attempt(w: World, oid: nat, plan: Plan): Option<(nat, Change)> {
    if oid >= |w.orders| then None
    else
      var o := w.orders[oid];
      if plan.v2ray && o.action.Some? && o.status.AwaitingDelivery() && Obstacle(w, o, plan).None?
      then Some((o.target.value, ChangeOf(o.action.value, plan))) else None
  }

  /** A delivery whose worker dies between the panel's confirmation and the commit: only the panel changed. */
  function CrashAfterPush(w: World, oid: nat, plan: Plan, now: int): World
    requires w.Valid()
  {
    var attempt := Attempt(w, oid, plan);
    if attempt.None? then w
    else
      var (sid, change) := attempt.value;
      w.(panel := w.panel[sid := ClientFor(Target(w.services[sid], change, now), true)])
  }

  /** Which rows a sweep is looking for. */
  datatype Query =
    | PastExpiry(now: int)
    | QuotaReached
    | ToDisable(status: ServiceStatus)
    | ExpiringSoon(now: int, horizon: int)
    | TrafficHigh(percent: int)

  predicate Matches(s: Service, q: Query) {
    match q
    case PastExpiry(now) => s.status == Active && IsExpired(s.expireAt, now)
    case QuotaReached => s.status == Active && IsOverQuota(s)
    case ToDisable(status) => s.status == status && s.disabledAt.None?
    case ExpiringSoon(now, horizon) =>
      && s.status == Active && s.expiryWarnedAt.None?
      && s.expireAt.Some? && now < s.expireAt.value <= horizon
    case TrafficHigh(percent) =>
      && s.status == Active && s.trafficWarnedAt.None?
      && s.total > 0 && s.used < s.total && s.used * 100 >= s.total * percent
  }

  /** The one step of a sweep on one row it found. */
  function Sweep(w: World, sid: nat, q: Query, now: int, answer: PanelAnswer): World
    requires w.Valid() && sid < |w.services|
  {
    var s := w.services[sid];
    match q
    case PastExpiry(_) => SetRow(w, sid, s.(status := Expired, expiredAt := Stamp(s.expiredAt, now)))
    case QuotaReached => SetRow(w, sid, s.(status := OverQuota, overQuotaAt := Stamp(s.overQuotaAt, now)))
    case ToDisable(_) =>
      var written := Write(w, sid, ClientFor(s, false), answer);
      if answer.Done? then Log(SetRow(written, sid, s.(disabledAt := Some(now))), sid, AutoDisabled) else written
    case ExpiringSoon(_, _) => Log(SetRow(w, sid, s.(expiryWarnedAt := Some(now))), sid, ExpiryWarned(true))
    case TrafficHigh(_) => Log(SetRow(w, sid, s.(trafficWarnedAt := Some(now))), sid, TrafficWarned(true))
  }

  /** The two sweeps that write to owners. */
  predicate Warns(q: Query) {
    q.ExpiringSoon? || q.TrafficHigh?
  }

  /** A warning whose sweep dies before its one commit: the owner has it, the row does not say so. */
  function CrashAfterWarning(w: World, sid: nat, q: Query): World {
    if sid < |w.services| && Warns(q) && Matches(w.services[sid], q)
    then Log(w, sid, if q.ExpiringSoon? then ExpiryWarned(false) else TrafficWarned(false)) else w
  }

  /** What a sweep that goes through makes of a row, found or not. */
  function Marked(s: Service, q: Query, now: int): Service {
    if !Matches(s, q) then s
    else
      match q
      case PastExpiry(_) => s.(status := Expired, expiredAt := Stamp(s.expiredAt, now))
      case QuotaReached => s.(status := OverQuota, overQuotaAt := Stamp(s.overQuotaAt, now))
      case ToDisable(_) => s.(disabledAt := Some(now))
      case ExpiringSoon(_, _) => s.(expiryWarnedAt := Some(now))
      case TrafficHigh(_) => s.(trafficWarnedAt := Some(now))
  }

  /** Fresh usage from the panel, with the status it implies. */
  function Synced(s: Service, used: int, now: int): Service {
    var s := s.(used := used);
    if s.status == Active || s.status == OverQuota then
      if IsExpired(s.expireAt, now) then s.(status := Expired, expiredAt := Stamp(s.expiredAt, now))
      else if s.status == Active && IsOverQuota(s) then
        s.(status := OverQuota, overQuotaAt := Stamp(s.overQuotaAt, now))
      else if s.status == OverQuota && !IsOverQuota(s) then s.(status := Active, overQuotaAt := None)
      else s
    else s
  }

  datatype Op =
    | Grant(sid: nat, change: Change, now: int, answer: PanelAnswer)
    | Deliver(oid: nat, plan: Plan, now: int, answer: PanelAnswer)
    | CrashDelivery(oid: nat, plan: Plan, now: int)
    | Place(user: nat, action: Option<Action>, target: Option<nat>)
    | Pay(oid: nat)
    | SweepRow(sid: nat, query: Query, now: int, answer: PanelAnswer)
    | CrashWarning(sid: nat, query: Query)
    | Sync(sid: nat, reading: Option<int>, now: int)
    | SetEnabled(sid: nat, enable: bool, now: int, answer: PanelAnswer)
    | ResetTraffic(sid: nat, now: int, answer: PanelAnswer)

  function Step(w: World, op: Op): World
    requires w.Valid()
  {
    match op
    case Grant(sid, change, now, answer) => AdminChange(w, sid, change, now, answer).0
    case Deliver(oid, plan, now, answer) => DeliverAction(w, oid, plan, now, answer).0
    case CrashDelivery(oid, plan, now) => CrashAfterPush(w, oid, plan, now)
    case Place(user, action, target) =>
      w.(orders := w.orders + [ActionOrder(user, action, target, PendingPayment, None)])
    case Pay(oid) =>
      if oid < |w.orders| && !w.orders[oid].status.Paid()
      then w.(orders := w.orders[oid := w.orders[oid].(status := Approved)]) else w
    case SweepRow(sid, q, now, answer) =>
      if sid < |w.services| && Matches(w.services[sid], q) then Sweep(w, sid, q, now, answer) else w
    case CrashWarning(sid, q) => CrashAfterWarning(w, sid, q)
    case Sync(sid, reading, now) =>
      if sid < |w.services| && reading.Some?
      then SetRow(w, sid, Synced(w.services[sid], reading.value, now)) else w
    case SetEnabled(sid, enable, now, answer) =>
      if sid >= |w.services| then w
      else
        var s := w.services[sid];
        var written := Write(w, sid, ClientFor(s, enable), answer);
        if !answer.Done? then written
        else if enable then
          var status := if IsExpired(s.expireAt, now) then Expired else Active;
          Log(SetRow(written, sid, s.(status := status, disabledAt := None)), sid, Enabled)
        else SetRow(written, sid, s.(status := Disabled, disabledAt := Some(now)))
    case ResetTraffic(sid, now, answer) =>
      if sid >= |w.services| || !answer.Done? then w
      else
        var s := w.services[sid].(used := 0, trafficWarnedAt := None);
        var s' := if s.status == OverQuota
                  then s.(status := if IsExpired(s.expireAt, now) then Expired else Active, overQuotaAt := None)
                  else s;
        Log(SetRow(w, sid, s'), sid, TrafficReset)
  }

  lemma StepValid(w: World, op: Op)
    requires w.Valid()
    ensures Step(w, op).Valid() && |Step(w, op).services| == |w.services|
  {
  }

  ghost function Run(w: World, ops: seq<Op>): (r: World)
    requires w.Valid()
    ensures r.Valid() && |r.services| == |w.services|
    decreases |ops|
  {
    if ops == [] then w
    else
      StepValid(Run(w, ops[..|ops| - 1]), ops[|ops| - 1]);
      Step(Run(w, ops[..|ops| - 1]), ops[|ops| - 1])
  }
}
