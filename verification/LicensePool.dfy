/**
 The licence pool: what one call of each licence operation does to the tables.

 Tables are sequences of rows; a row's id is its position. `LicenseTables` is the
 in-place form of the service; the functions above it say what each call means, and
 `LicenseDelivery` runs deliveries interleaved against these meanings.
 */
module LicensePool {
  import opened Common

  datatype LicenseStatus = Available | Reserved | Sold | Blocked | Broken | Replaced

  datatype License = License(
    product: nat,
    status: LicenseStatus,
    order: Option<nat>,
    buyer: Option<nat>,
    replacedBy: Option<nat>)
  {
    /** The licence currently counts as handed (or about to be handed) to the order. */
    predicate HeldBy(oid: nat) {
      order == Some(oid) && (status == Reserved || status == Sold)
    }

    predicate FreeFor(p: nat) {
      product == p && status == Available
    }
  }

  datatype DeliveryError = NoStock | SendFailed

  datatype Order = Order(
    product: nat,
    isLicenseProduct: bool,
    user: nat,
    status: OrderStatus,
    deliveryError: Option<DeliveryError>,
    payload: Option<nat>)

  datatype Db = Db(orders: seq<Order>, licenses: seq<License>)

  /** What a delivery, redelivery or replacement reports to its caller. */
  datatype Outcome =
    | Already(held: Option<nat>)
    | Sale(lid: nat)
    | OutOfStock
    | NotSent(lid: nat)
    | Resent(lid: nat)
    | Swapped(retired: nat, replacement: nat, sent: bool)

  datatype Refusal =
    | OrderNotFound | NotLicenseOrder | NotApproved | NotDelivered
    | NoDeliverableLicense | NewNotAvailable | NoLicenseAvailable | AlreadySold

  type Report = Result<Outcome, Refusal>

  // ---------------------------------------------------------------------------
  // Queries
  // ---------------------------------------------------------------------------

  /** The reserved or sold licence of an order with the highest id. */
  function ActiveLicense(ls: seq<License>, oid: nat): (r: Option<nat>)
    ensures r.Some? ==> r.value < |ls| && ls[r.value].HeldBy(oid)
    ensures r.Some? ==> forall j :: r.value < j < |ls| ==> !ls[j].HeldBy(oid)
    ensures r.None? ==> forall j :: 0 <= j < |ls| ==> !ls[j].HeldBy(oid)
  {
    if ls == [] then None
    else if ls[|ls| - 1].HeldBy(oid) then Some(|ls| - 1)
    else ActiveLicense(ls[..|ls| - 1], oid)
  }

  /** The available licence of a product with the lowest id, among the rows not `hidden`. */
  function FirstFree(ls: seq<License>, p: nat, hidden: set<nat>): (r: Option<nat>)
    ensures r.Some? ==> r.value < |ls| && ls[r.value].FreeFor(p) && r.value !in hidden
    ensures r.Some? ==> forall j :: 0 <= j < r.value && ls[j].FreeFor(p) ==> j in hidden
    ensures r.None? ==> forall j :: 0 <= j < |ls| && ls[j].FreeFor(p) ==> j in hidden
  {
    if ls == [] then None
    else
      var earlier := FirstFree(ls[..|ls| - 1], p, hidden);
      if earlier.Some? then earlier
      else if ls[|ls| - 1].FreeFor(p) && |ls| - 1 !in hidden then Some(|ls| - 1)
      else None
  }

  // ---------------------------------------------------------------------------
  // Operations
  // ---------------------------------------------------------------------------

  function Reserve(l: License, oid: nat, user: nat): License {
    l.(status := Reserved, order := Some(oid), buyer := Some(user))
  }

  /** The end of a delivery, once the licence `lid` is chosen and the send was tried. */
  function Finish(db: Db, oid: nat, lid: nat, sent: bool): (Db, Report)
    requires oid < |db.orders| && lid < |db.licenses|
  {
    var o := db.orders[oid];
    if !sent then
      (db.(orders := db.orders[oid := o.(deliveryError := Some(SendFailed))]), Ok(NotSent(lid)))
    else
      (Db(db.orders[oid := o.(status := Delivered, deliveryError := None, payload := Some(lid))],
          db.licenses[lid := db.licenses[lid].(status := Sold)]),
       Ok(Sale(lid)))
  }

  /** The answer of a delivery that has nothing to do, or `None` when it has to go on. */
  function Precheck(db: Db, oid: nat): (r: Option<Report>)
    ensures r.None? ==> oid < |db.orders| && db.orders[oid].status.AwaitingDelivery()
  {
    if oid >= |db.orders| then Some(Err(OrderNotFound))
    else
      var o := db.orders[oid];
      if !o.isLicenseProduct then Some(Err(NotLicenseOrder))
      else if o.status == Delivered then Some(Ok(Already(ActiveLicense(db.licenses, oid))))
      else if !o.status.AwaitingDelivery() then Some(Err(NotApproved))
      else None
  }

  function ReserveFor(db: Db, oid: nat, lid: nat): Db
    requires oid < |db.orders| && lid < |db.licenses|
  {
    db.(licenses := db.licenses[lid := Reserve(db.licenses[lid], oid, db.orders[oid].user)])
  }

  function FlagNoStock(db: Db, oid: nat): Db
    requires oid < |db.orders|
  {
    db.(orders := db.orders[oid := db.orders[oid].(deliveryError := Some(NoStock))])
  }

  /**
   Delivery of one order as a single step. `hidden` are the licence rows the picking
   query does not see: those other transactions hold locked, or have yet to insert.
   */
  function Deliver(db: Db, oid: nat, hidden: set<nat>, sent: bool): (Db, Report) {
    match Precheck(db, oid)
    case Some(answer) => (db, answer)
    case None =>
      match ActiveLicense(db.licenses, oid)
      case Some(lid) => Finish(db, oid, lid, sent)
      case None =>
        match FirstFree(db.licenses, db.orders[oid].product, hidden)
        case None => (FlagNoStock(db, oid), Ok(OutOfStock))
        case Some(lid) => Finish(ReserveFor(db, oid, lid), oid, lid, sent)
  }

  /** Re-sending: a sold licence is only sent again, a stranded reserved one is delivered. */
  function Redeliver(db: Db, oid: nat, hidden: set<nat>, sent: bool): (Db, Report) {
    match ActiveLicense(db.licenses, oid)
    case None => (db, Err(NoDeliverableLicense))
    case Some(lid) =>
      if db.licenses[lid].status == Reserved then Deliver(db, oid, hidden, sent)
      else (db, Ok(if sent then Resent(lid) else NotSent(lid)))
  }

  /** Swaps the sold licence of a delivered order for `chosen`, or for the first free one. */
  function Replace(db: Db, oid: nat, chosen: Option<nat>, hidden: set<nat>, sent: bool): (Db, Report) {
    if oid >= |db.orders| then (db, Err(OrderNotFound))
    else
      var o := db.orders[oid];
      if o.status != Delivered then (db, Err(NotDelivered))
      else
        var active := ActiveLicense(db.licenses, oid);
        if active.None? || db.licenses[active.value].status != Sold then (db, Err(NoDeliverableLicense))
        else
          var pick :=
            if chosen.None? then FirstFree(db.licenses, o.product, hidden)
            else if chosen.value < |db.licenses| && db.licenses[chosen.value].FreeFor(o.product) then chosen
            else None;
          if pick.None? then (db, Err(if chosen.None? then NoLicenseAvailable else NewNotAvailable))
          else
            var incoming := Reserve(db.licenses[pick.value], oid, o.user).(status := Sold);
            var retired := db.licenses[active.value].(status := Replaced, replacedBy := pick);
            (Db(db.orders[oid := o.(payload := pick)],
                db.licenses[pick.value := incoming][active.value := retired]),
             Ok(Swapped(active.value, pick.value, sent)))
  }

  /** The stand-alone reservation helper: it does not look at what the order already holds. */
  function ReserveAvailable(db: Db, p: nat, oid: nat, user: nat, hidden: set<nat>): (Db, Result<nat, Refusal>) {
    match FirstFree(db.licenses, p, hidden)
    case None => (db, Err(NoLicenseAvailable))
    case Some(lid) =>
      (db.(licenses := db.licenses[lid := Reserve(db.licenses[lid], oid, user)]), Ok(lid))
  }

  function MarkBroken(db: Db, lid: nat): Db {
    if lid < |db.licenses| then db.(licenses := db.licenses[lid := db.licenses[lid].(status := Broken)]) else db
  }

  function Block(db: Db, lid: nat): (Db, Result<bool, Refusal>) {
    if lid >= |db.licenses| then (db, Ok(false))
    else if db.licenses[lid].status == Sold then (db, Err(AlreadySold))
    else (db.(licenses := db.licenses[lid := db.licenses[lid].(status := Blocked)]), Ok(true))
  }

  // ---------------------------------------------------------------------------
  // Safety of the tables
  // ---------------------------------------------------------------------------

  predicate Clash(a: License, b: License) {
    a.order.Some? && a.HeldBy(a.order.value) && b.HeldBy(a.order.value)
  }

  /** No order holds two licences. */
  ghost predicate OneLicensePerOrder(ls: seq<License>) {
    forall i, j :: 0 <= i < j < |ls| ==> !Clash(ls[i], ls[j])
  }

  ghost predicate RowSafe(l: License, orders: seq<Order>) {
    && (l.status == Available ==> l.order.None?)
    && (l.status == Reserved || l.status == Sold ==>
          && l.order.Some?
          && l.order.value < |orders|
          && var o := orders[l.order.value];
             && l.product == o.product
             && l.buyer == Some(o.user)
             && (if l.status == Sold then o.status == Delivered else o.status.AwaitingDelivery()))
  }

  /**
   The safety of the licence pool: nobody holds two licences, a free licence was never
   given away, a held one fits its order and its buyer, is sold exactly when that order is
   delivered, and is still only reserved while the order waits for delivery.
   */
  ghost predicate Safe(db: Db) {
    && OneLicensePerOrder(db.licenses)
    && forall i :: 0 <= i < |db.licenses| ==> RowSafe(db.licenses[i], db.orders)
  }

  predicate LicenseKept(a: License, b: License) {
    && b.product == a.product
    && (a.order.Some? ==> b.order == a.order)
    && (b.status == Available ==> a == b)
  }

  predicate OrderKept(a: Order, b: Order) {
    && b.product == a.product
    && b.user == a.user
    && b.isLicenseProduct == a.isLicenseProduct
    && (a.status.AwaitingDelivery() ==> b.status.Paid())
    && (a.status == Delivered ==> b.status == Delivered)
  }

  /**
   What no step may undo: rows stay, a licence's order is never rewritten, no licence
   becomes available again, and a delivered order stays delivered.
   */
  ghost predicate Kept(a: Db, b: Db) {
    && |a.orders| <= |b.orders|
    && |a.licenses| <= |b.licenses|
    && (forall i :: 0 <= i < |a.licenses| ==> LicenseKept(a.licenses[i], b.licenses[i]))
    && (forall i :: 0 <= i < |a.orders| ==> OrderKept(a.orders[i], b.orders[i]))
  }

  lemma KeptTransitive(a: Db, b: Db, c: Db)
    requires Kept(a, b) && Kept(b, c)
    ensures Kept(a, c)
  {
  }

  lemma OnlyHolder(ls: seq<License>, oid: nat, i: nat, j: nat)
    requires OneLicensePerOrder(ls)
    requires i < |ls| && j < |ls|
    ensures ls[i].HeldBy(oid) && ls[j].HeldBy(oid) ==> i == j
  {
    assert i < j ==> !Clash(ls[i], ls[j]);
    assert j < i ==> !Clash(ls[j], ls[i]);
  }

  /** In safe tables the query finds the one licence an order holds. */
  lemma HolderIsActive(ls: seq<License>, oid: nat, lid: nat)
    requires OneLicensePerOrder(ls)
    requires lid < |ls| && ls[lid].HeldBy(oid)
    ensures ActiveLicense(ls, oid) == Some(lid)
  {
    OnlyHolder(ls, oid, lid, ActiveLicense(ls, oid).value);
  }

  lemma ReserveSafe(db: Db, oid: nat, lid: nat)
    requires Safe(db)
    requires oid < |db.orders| && db.orders[oid].status.AwaitingDelivery()
    requires ActiveLicense(db.licenses, oid).None?
    requires lid < |db.licenses| && db.licenses[lid].FreeFor(db.orders[oid].product)
    ensures Safe(ReserveFor(db, oid, lid)) && Kept(db, ReserveFor(db, oid, lid))
  {
  }

  lemma FinishSafe(db: Db, oid: nat, lid: nat, sent: bool)
    requires Safe(db)
    requires oid < |db.orders| && db.orders[oid].status.AwaitingDelivery()
    requires lid < |db.licenses| && db.licenses[lid].HeldBy(oid)
    ensures Safe(Finish(db, oid, lid, sent).0)
    ensures Kept(db, Finish(db, oid, lid, sent).0)
  {
    var after := Finish(db, oid, lid, sent).0;
    forall i | 0 <= i < |db.licenses|
      ensures RowSafe(after.licenses[i], after.orders)
    {
      assert RowSafe(db.licenses[i], db.orders);
      OnlyHolder(db.licenses, oid, i, lid);
    }
  }

  lemma DeliverSafe(db: Db, oid: nat, hidden: set<nat>, sent: bool)
    requires Safe(db)
    ensures Safe(Deliver(db, oid, hidden, sent).0)
    ensures Kept(db, Deliver(db, oid, hidden, sent).0)
  {
    if Precheck(db, oid).None? {
      var active := ActiveLicense(db.licenses, oid);
      var free := FirstFree(db.licenses, db.orders[oid].product, hidden);
      if active.Some? {
        FinishSafe(db, oid, active.value, sent);
      } else if free.Some? {
        var reserved := ReserveFor(db, oid, free.value);
        ReserveSafe(db, oid, free.value);
        FinishSafe(reserved, oid, free.value, sent);
        KeptTransitive(db, reserved, Finish(reserved, oid, free.value, sent).0);
      }
    }
  }

  lemma ReplaceSafe(db: Db, oid: nat, chosen: Option<nat>, hidden: set<nat>, sent: bool)
    requires Safe(db)
    ensures Safe(Replace(db, oid, chosen, hidden, sent).0)
    ensures Kept(db, Replace(db, oid, chosen, hidden, sent).0)
  {
    var (after, report) := Replace(db, oid, chosen, hidden, sent);
    if report.Ok? {
      forall i, j | 0 <= i < j < |after.licenses|
        ensures !Clash(after.licenses[i], after.licenses[j])
      {
        assert !Clash(db.licenses[i], db.licenses[j]);
        // `retired` was the only holder, so the incoming licence now is.
        OnlyHolder(db.licenses, oid, i, report.value.retired);
        OnlyHolder(db.licenses, oid, j, report.value.retired);
      }
    }
  }

  // ---------------------------------------------------------------------------
  // What the answers mean
  // ---------------------------------------------------------------------------

  /** The row is handed to the order, with nothing else about it changed. */
  predicate HandedTo(before: License, after: License, status: LicenseStatus, oid: nat, user: nat) {
    after == License(before.product, status, Some(oid), Some(user), before.replacedBy)
  }

  /** A delivery goes through exactly for a paid licence order; a refusal or repetition changes nothing. */
  lemma DeliveryAccepts(db: Db, oid: nat, hidden: set<nat>, sent: bool)
    ensures var (after, report) := Deliver(db, oid, hidden, sent);
            && (report.Ok? <==>
                  && oid < |db.orders| && db.orders[oid].isLicenseProduct
                  && db.orders[oid].status in {Approved, ProvisioningPending, Delivered})
            && (report == Err(OrderNotFound) <==> oid >= |db.orders|)
            && (report == Err(NotLicenseOrder) <==> oid < |db.orders| && !db.orders[oid].isLicenseProduct)
            && (report == Err(NotApproved) <==>
                  oid < |db.orders| && db.orders[oid].isLicenseProduct && !db.orders[oid].status.Paid())
            && (report.Ok? && report.value.Already? <==> report.Ok? && db.orders[oid].status == Delivered)
            && (report.Ok? && report.value.Already? ==>
                  report.value.held == ActiveLicense(db.licenses, oid))
            && (report.Err? || report.value.Already? ==> after == db)
  {
  }

  /** Some licence can be had for the order: one it holds, or a free one in sight. */
  ghost predicate InReach(db: Db, oid: nat, hidden: set<nat>, lid: nat)
    requires oid < |db.orders|
  {
    && lid < |db.licenses|
    && (|| db.licenses[lid].HeldBy(oid)
        || (db.licenses[lid].FreeFor(db.orders[oid].product) && lid !in hidden))
  }

  /** "Out of stock" means that nothing is in reach, and changes nothing but the note of it. */
  lemma OutOfStockMeans(db: Db, oid: nat, hidden: set<nat>, sent: bool)
    requires oid < |db.orders| && db.orders[oid].isLicenseProduct && db.orders[oid].status.AwaitingDelivery()
    ensures var (after, report) := Deliver(db, oid, hidden, sent);
            && (report == Ok(OutOfStock) <==> forall lid :: !InReach(db, oid, hidden, lid))
            && (report == Ok(OutOfStock) ==>
                  && after.licenses == db.licenses
                  && after.orders == db.orders[oid := db.orders[oid].(deliveryError := Some(NoStock))])
  {
    var active := ActiveLicense(db.licenses, oid);
    var free := FirstFree(db.licenses, db.orders[oid].product, hidden);
    if active.Some? {
      assert InReach(db, oid, hidden, active.value);
    } else if free.Some? {
      assert InReach(db, oid, hidden, free.value);
    }
  }

  /**
   With a licence in reach the order gets one: the one it holds, or the first free one. If it
   was sent it is sold and the order delivered, else it is kept for the order, which stays as
   it was but for the note. No other row changes.
   */
  lemma InReachIsHandedOver(db: Db, oid: nat, hidden: set<nat>, sent: bool, any: nat)
    requires Safe(db)
    requires oid < |db.orders| && db.orders[oid].isLicenseProduct && db.orders[oid].status.AwaitingDelivery()
    requires InReach(db, oid, hidden, any)
    ensures var (after, report) := Deliver(db, oid, hidden, sent);
            && report.Ok? && (report.value.Sale? || report.value.NotSent?)
            && var lid, o := report.value.lid, db.orders[oid];
               && report == Ok(if sent then Sale(lid) else NotSent(lid))
               && InReach(db, oid, hidden, lid) && |after.licenses| == |db.licenses|
               && (db.licenses[lid].HeldBy(oid)
                   || forall i: nat :: InReach(db, oid, hidden, i) ==> lid <= i && !db.licenses[i].HeldBy(oid))
               && HandedTo(db.licenses[lid], after.licenses[lid], if sent then Sold else Reserved, oid, o.user)
               && (forall i :: 0 <= i < |db.licenses| && i != lid ==> after.licenses[i] == db.licenses[i])
               && after.orders == db.orders[oid :=
                    if sent then o.(status := Delivered, deliveryError := None, payload := Some(lid))
                    else o.(deliveryError := Some(SendFailed))]
  {
    var active := ActiveLicense(db.licenses, oid);
    var free := FirstFree(db.licenses, db.orders[oid].product, hidden);
    if active.Some? {
      assert RowSafe(db.licenses[active.value], db.orders);
    } else {
      assert free.Some?;
    }
  }

  /** An order changes its status in a delivery only by being sold a licence, which is then its own. */
  lemma OnlySalesDeliver(db: Db, oid: nat, hidden: set<nat>, sent: bool)
    requires Safe(db)
    ensures var (after, report) := Deliver(db, oid, hidden, sent);
            && |after.orders| == |db.orders|
            && (forall i :: 0 <= i < |db.orders| && after.orders[i].status != db.orders[i].status ==>
                  && i == oid && report.Ok? && report.value.Sale?
                  && report.value.lid < |after.licenses|
                  && after.licenses[report.value.lid].status == Sold
                  && after.licenses[report.value.lid].order == Some(oid))
            && (report.Ok? && report.value.Sale? ==> sent)
  {
  }

  /** Re-sending needs a licence the order holds; a sold one is only sent again. */
  lemma RedeliveryMeans(db: Db, oid: nat, hidden: set<nat>, sent: bool)
    ensures var (after, report) := Redeliver(db, oid, hidden, sent);
            var active := ActiveLicense(db.licenses, oid);
            && (report == Err(NoDeliverableLicense) <==> active.None?)
            && (active.Some? && db.licenses[active.value].status == Sold ==>
                  after == db && report == Ok(if sent then Resent(active.value) else NotSent(active.value)))
            && (active.None? ==> after == db)
            && (active.Some? && db.licenses[active.value].status == Reserved ==>
                  (after, report) == Deliver(db, oid, hidden, sent))
  {
  }

  /** The licence a replacement would take: the chosen one if it fits, or the first free one. */
  ghost predicate Replacement(db: Db, oid: nat, chosen: Option<nat>, hidden: set<nat>, lid: nat)
    requires oid < |db.orders|
  {
    && lid < |db.licenses| && db.licenses[lid].FreeFor(db.orders[oid].product)
    && match chosen
       case Some(id) => lid == id
       case None =>
         lid !in hidden
         && forall j :: 0 <= j < lid && db.licenses[j].FreeFor(db.orders[oid].product) ==> j in hidden
  }

  /**
   A replacement goes through exactly for a delivered order that holds a sold licence while one
   is to be had, the chosen one if one was chosen. Then the order holds the new licence, the
   old one names it as its successor, and nothing else changed; a refusal changes nothing.
   */
  lemma ReplacementMeans(db: Db, oid: nat, chosen: Option<nat>, hidden: set<nat>, sent: bool)
    requires Safe(db)
    ensures var (after, report) := Replace(db, oid, chosen, hidden, sent);
            var active := ActiveLicense(db.licenses, oid);
            && (report.Err? ==> after == db)
            && (report.Ok? <==>
                  && oid < |db.orders| && db.orders[oid].status == Delivered && active.Some?
                  && exists lid :: Replacement(db, oid, chosen, hidden, lid))
            && (report.Ok? ==>
                  && report.value == Swapped(active.value, report.value.replacement, sent)
                  && var incoming, retired := report.value.replacement, active.value;
                     && Replacement(db, oid, chosen, hidden, incoming)
                     && ActiveLicense(after.licenses, oid) == Some(incoming)
                     && HandedTo(db.licenses[incoming], after.licenses[incoming], Sold, oid, db.orders[oid].user)
                     && after.licenses[retired] ==
                        db.licenses[retired].(status := Replaced, replacedBy := Some(incoming))
                     && (forall i :: 0 <= i < |db.licenses| && i != incoming && i != retired ==>
                           after.licenses[i] == db.licenses[i])
                     && after.orders == db.orders[oid := db.orders[oid].(payload := Some(incoming))])
  {
    var (after, report) := Replace(db, oid, chosen, hidden, sent);
    var active := ActiveLicense(db.licenses, oid);
    if active.Some? {
      assert RowSafe(db.licenses[active.value], db.orders);
    }
    if report.Ok? {
      ReplaceSafe(db, oid, chosen, hidden, sent);
      HolderIsActive(after.licenses, oid, report.value.replacement);
      assert Replacement(db, oid, chosen, hidden, report.value.replacement);
    }
  }

  /** Why a replacement is refused: no such order, not delivered, nothing sold to it, or nothing to replace it with. */
  lemma ReplacementRefusals(db: Db, oid: nat, chosen: Option<nat>, hidden: set<nat>, sent: bool)
    ensures var report := Replace(db, oid, chosen, hidden, sent).1;
            var delivered := oid < |db.orders| && db.orders[oid].status == Delivered;
            var active := ActiveLicense(db.licenses, oid);
            var sold := delivered && active.Some? && db.licenses[active.value].status == Sold;
            && (report == Err(OrderNotFound) <==> oid >= |db.orders|)
            && (report == Err(NotDelivered) <==> oid < |db.orders| && !delivered)
            && (report == Err(NoDeliverableLicense) <==> delivered && !sold)
            && (sold && report.Err? ==> report == Err(if chosen.None? then NoLicenseAvailable else NewNotAvailable))
  {
  }

  /** The reservation helper takes the first free licence in sight, for whomever it is asked. */
  lemma ReservationMeans(db: Db, p: nat, oid: nat, user: nat, hidden: set<nat>)
    ensures var (after, r) := ReserveAvailable(db, p, oid, user, hidden);
            && (r.Ok? ==> FirstFree(db.licenses, p, hidden) == Some(r.value))
            && (r.Err? ==> FirstFree(db.licenses, p, hidden).None? && r == Err(NoLicenseAvailable))
            && after.orders == db.orders && |after.licenses| == |db.licenses|
            && forall i :: 0 <= i < |db.licenses| ==>
                 if r == Ok(i) then HandedTo(db.licenses[i], after.licenses[i], Reserved, oid, user)
                 else after.licenses[i] == db.licenses[i]
  {
  }

  /** Retiring a licence changes its status alone; a sold one can be broken but not blocked. */
  lemma RetiringMeans(db: Db, lid: nat)
    ensures var broken := MarkBroken(db, lid);
            var (blocked, r) := Block(db, lid);
            && broken.orders == blocked.orders == db.orders
            && |broken.licenses| == |blocked.licenses| == |db.licenses|
            && (r == Err(AlreadySold) <==> lid < |db.licenses| && db.licenses[lid].status == Sold)
            && (r == Ok(false) <==> lid >= |db.licenses|)
            && forall i :: 0 <= i < |db.licenses| ==>
                 && broken.licenses[i] == (if i == lid then db.licenses[i].(status := Broken) else db.licenses[i])
                 && blocked.licenses[i] ==
                    (if i == lid && db.licenses[i].status != Sold then db.licenses[i].(status := Blocked)
                     else db.licenses[i])
  {
  }

  /** A report of a sale is truthful: the order is delivered and holds exactly that licence, sold. */
  lemma SaleIsFinal(db: Db, oid: nat, hidden: set<nat>, sent: bool)
    requires Safe(db)
    ensures var (after, report) := Deliver(db, oid, hidden, sent);
            report.Ok? && report.value.Sale? ==>
              && sent
              && oid < |after.orders| && after.orders[oid].status == Delivered
              && ActiveLicense(after.licenses, oid) == Some(report.value.lid)
              && after.licenses[report.value.lid].status == Sold
              && after.licenses[report.value.lid].buyer == Some(after.orders[oid].user)
  {
    var (after, report) := Deliver(db, oid, hidden, sent);
    if report.Ok? && report.value.Sale? {
      DeliverSafe(db, oid, hidden, sent);
      HolderIsActive(after.licenses, oid, report.value.lid);
    }
  }

  /** A failed send is recoverable: re-sending later ends exactly where a first-time success would have. */
  lemma RedeliveryRecovers(db: Db, oid: nat, hidden: set<nat>, later: set<nat>)
    requires Safe(db)
    ensures var (after, report) := Deliver(db, oid, hidden, false);
            report.Ok? && report.value.NotSent? ==>
              Redeliver(after, oid, later, true) == Deliver(db, oid, hidden, true)
  {
    var (after, report) := Deliver(db, oid, hidden, false);
    if report.Ok? && report.value.NotSent? {
      DeliverSafe(db, oid, hidden, false);
      HolderIsActive(after.licenses, oid, report.value.lid);
      RecoveredIsDelivered(db, oid, hidden, later, report.value.lid);
    }
  }

  lemma RecoveredIsDelivered(db: Db, oid: nat, hidden: set<nat>, later: set<nat>, lid: nat)
    requires Safe(db)
    requires var (after, report) := Deliver(db, oid, hidden, false);
             report == Ok(NotSent(lid)) && ActiveLicense(after.licenses, oid) == Some(lid)
    ensures Redeliver(Deliver(db, oid, hidden, false).0, oid, later, true) == Deliver(db, oid, hidden, true)
  {
    hide ActiveLicense, FirstFree;
    assert forall i :: 0 <= i < |db.licenses| ==> RowSafe(db.licenses[i], db.orders);
    var after := Deliver(db, oid, hidden, false).0;
    assert after.licenses[lid].status == Reserved;
    assert Redeliver(after, oid, later, true) == Finish(after, oid, lid, true);
    var held := if ActiveLicense(db.licenses, oid).Some? then db else ReserveFor(db, oid, lid);
    assert Deliver(db, oid, hidden, true) == Finish(held, oid, lid, true);
    assert Finish(after, oid, lid, true).0.orders == Finish(held, oid, lid, true).0.orders;
  }

  /** Once sold, delivering or re-sending again only repeats the same licence and changes no row. */
  lemma SoldStaysPut(db: Db, oid: nat, hidden: set<nat>, later: set<nat>, sent: bool)
    requires Safe(db)
    ensures var (after, report) := Deliver(db, oid, hidden, true);
            report.Ok? && report.value.Sale? ==>
              && Deliver(after, oid, later, sent) == (after, Ok(Already(Some(report.value.lid))))
              && Redeliver(after, oid, later, sent) ==
                 (after, Ok(if sent then Resent(report.value.lid) else NotSent(report.value.lid)))
  {
    SaleIsFinal(db, oid, hidden, true);
  }

  /**
   The stand-alone reservation helper is safe exactly for an order that waits for delivery,
   fits the product and the buyer, and holds nothing yet: it is the caller who must know.
   */
  lemma ReserveAvailableSafeIff(db: Db, p: nat, oid: nat, user: nat, hidden: set<nat>)
    requires Safe(db)
    requires FirstFree(db.licenses, p, hidden).Some?
    ensures Safe(ReserveAvailable(db, p, oid, user, hidden).0) <==>
            && oid < |db.orders|
            && db.orders[oid].status.AwaitingDelivery()
            && db.orders[oid].product == p
            && db.orders[oid].user == user
            && ActiveLicense(db.licenses, oid).None?
  {
    var lid := FirstFree(db.licenses, p, hidden).value;
    var after := ReserveAvailable(db, p, oid, user, hidden).0;
    assert after.licenses[lid].HeldBy(oid);
    var active := ActiveLicense(db.licenses, oid);
    if active.Some? {
      assert after.licenses[active.value].HeldBy(oid);
      assert Clash(after.licenses[active.value], after.licenses[lid]);
      assert Clash(after.licenses[lid], after.licenses[active.value]);
    } else if oid < |db.orders| && db.orders[oid].status.AwaitingDelivery()
              && db.orders[oid].product == p && db.orders[oid].user == user {
      ReserveSafe(db, oid, lid);
    } else {
      assert !RowSafe(after.licenses[lid], after.orders);
    }
  }
}
