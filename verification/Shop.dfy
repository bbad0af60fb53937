/**
 Orders, their payments, invoices and coupons: what each service call does to the coupled
 status fields.

 Rows are positions in sequences. An order has at most one payment, kept beside it.
 */
module Shop {
  import opened Common
  import opened Discounts

  datatype PaymentStatus =
    | Pending | ReceiptSubmitted | PayApproved | PayRejected | PayFailed | PayExpired | PayCancelled

  datatype InvoiceStatus = Unpaid | InvoicePaid | InvoiceExpired

  datatype Order = Order(
    user: nat, product: nat, kind: ProductKind, action: ActionKind,
    amount: int, discount: int, final: int, coupon: Option<nat>, status: OrderStatus)

  datatype Payment = Payment(status: PaymentStatus, amount: int, invoice: Option<nat>)

  datatype Invoice = Invoice(order: nat, status: InvoiceStatus, amount: int, discount: int, final: int)

  datatype Usage = Usage(coupon: nat, order: nat, user: nat, discount: int)

  datatype Tables = Tables(
    orders: seq<Order>,
    payments: seq<Option<Payment>>,
    invoices: seq<Invoice>,
    coupons: seq<Coupon>,
    usages: seq<Usage>)

  datatype Refusal =
    | NoOrder | NotYours | NotReceivable | NoPayment | AlreadySubmitted | BadFile
    | NotReviewable | ReasonRequired | NotApprovable | CannotReject
    | InvalidPrice | NoInvoice | NotPayable | MethodUnavailable | AlreadyPaying
    | WalletDisabled | Insufficient | Locked | CouponRefused(why: CouponError)
    | MethodUnsupported | ProductUnavailable | SalesDisabled | CardDisabled
    | BadAction | ActionMismatch | NoTargetService | NotYourService | ServiceDeleted
    | RequiresService | Misconfigured | InboundInvalid | NoNumber

  /** What a call reports when it is not refused. */
  datatype Answer = Changed | AlreadyDone | Nothing

  type Outcome = Result<Answer, Refusal>

  function PaymentOf(t: Tables, oid: nat): Option<Payment> {
    if oid < |t.payments| then t.payments[oid] else None
  }

  /** Orders and payments are parallel. */
  predicate Wide(t: Tables) {
    |t.payments| == |t.orders|
  }

  // ---------------------------------------------------------------------------
  // Small writes
  // ---------------------------------------------------------------------------

  function SetOrder(t: Tables, oid: nat, o: Order): Tables
    requires oid < |t.orders|
  {
    t.(orders := t.orders[oid := o])
  }

  function SetPayment(t: Tables, oid: nat, p: Payment): Tables
    requires oid < |t.payments|
  {
    t.(payments := t.payments[oid := Some(p)])
  }

  /** Moves an order and its payment together. */
  function MoveBoth(t: Tables, oid: nat, status: OrderStatus, payment: PaymentStatus): Tables
    requires Wide(t) && oid < |t.orders| && t.payments[oid].Some?
  {
    SetPayment(SetOrder(t, oid, t.orders[oid].(status := status)), oid, t.payments[oid].value.(status := payment))
  }

  function MarkInvoicePaid(t: Tables, iid: Option<nat>): Tables {
    if iid.Some? && iid.value < |t.invoices| && t.invoices[iid.value].status == Unpaid
    then t.(invoices := t.invoices[iid.value := t.invoices[iid.value].(status := InvoicePaid)])
    else t
  }

  // ---------------------------------------------------------------------------
  // Orders, payments, invoices
  // ---------------------------------------------------------------------------

  /** A product as ordering reads it; `bound` and `inboundValid` are about its panel server and inbound. */
  datatype Ware = Ware(
    active: bool, hidden: bool, kind: ProductKind, price: int,
    forService: bool, action: ActionKind, bound: bool, inboundValid: bool)

  datatype PayMethod = CardToCard | FromWallet | OtherMethod

  datatype ShopSettings = ShopSettings(sales: bool, card: bool, wallet: bool)

  /** The service a renewal or traffic order names. */
  datatype Target = Unselected | Missing | Service(owner: nat, deleted: bool)

  /** What is asked for: something new, or an action on a service. */
  datatype Asked = Plain | OnService(action: ActionKind, target: Target)

  datatype Request = Request(way: PayMethod, ware: Option<Ware>, settings: ShopSettings, asked: Asked)

  /** Why an order cannot be placed, if it cannot. */
  function OrderRefusal(user: nat, q: Request): Option<Refusal> {
    if q.way == OtherMethod then Some(MethodUnsupported)
    else if q.ware.None? || !q.ware.value.active || q.ware.value.hidden then Some(ProductUnavailable)
    else if !q.settings.sales then Some(SalesDisabled)
    else if q.way == CardToCard && !q.settings.card then Some(CardDisabled)
    else if q.way == FromWallet && !q.settings.wallet then Some(WalletDisabled)
    else if q.ware.value.price <= 0 then Some(InvalidPrice)
    else
      match q.asked
      case OnService(action, target) => ActionRefusal(user, q.ware.value, action, target)
      case Plain =>
        if q.ware.value.forService then Some(RequiresService)
        else if q.ware.value.kind == V2RayProduct && !q.ware.value.bound then Some(Misconfigured)
        else if q.ware.value.kind == V2RayProduct && !q.ware.value.inboundValid then Some(InboundInvalid)
        else None
  }

  function ActionRefusal(user: nat, ware: Ware, action: ActionKind, target: Target): Option<Refusal> {
    if action == NewPurchase then Some(BadAction)
    else if ware.kind != V2RayProduct || !ware.forService || ware.action != action then Some(ActionMismatch)
    else
      match target
      case Unselected => Some(NoTargetService)
      case Missing => Some(NotYourService)
      case Service(owner, deleted) =>
        if owner != user then Some(NotYourService) else if deleted then Some(ServiceDeleted) else None
  }

  /** What must be true of a product and a request for the shop to sell. */
  predicate Sellable(user: nat, q: Request) {
    && q.ware.Some?
    && var w := q.ware.value;
       && w.active && !w.hidden && w.price > 0 && q.settings.sales
       && ((q.way == CardToCard && q.settings.card) || (q.way == FromWallet && q.settings.wallet))
       && (q.asked.Plain? ==> !w.forService && (w.kind == V2RayProduct ==> w.bound && w.inboundValid))
       && (q.asked.OnService? ==>
             && q.asked.action != NewPurchase
             && w.kind == V2RayProduct && w.forService && w.action == q.asked.action
             && q.asked.target == Service(user, false))
  }

  /** Exactly the sellable requests are accepted: nobody pays for a product or service that cannot be delivered to. */
  lemma AcceptedIffSellable(user: nat, q: Request)
    ensures OrderRefusal(user, q).None? <==> Sellable(user, q)
  {
  }

  /** A new order; `numbered` is whether one of five order numbers was free. */
  function CreateOrder(t: Tables, user: nat, product: nat, q: Request, numbered: bool): (Tables, Outcome) {
    var refusal := OrderRefusal(user, q);
    if refusal.Some? then (t, Err(refusal.value))
    else if !numbered then (t, Err(NoNumber))
    else
      var action := if q.asked.OnService? then q.asked.action else NewPurchase;
      var price := q.ware.value.price;
      var o := Order(user, product, q.ware.value.kind, action, price, 0, price, None, PendingPayment);
      (t.(orders := t.orders + [o], payments := t.payments + [None]), Ok(Changed))
  }

  /** The payment row of a fresh order; an order that has one keeps it. */
  function CreatePayment(t: Tables, oid: nat): Tables
    requires Wide(t)
  {
    if oid < |t.orders| && t.payments[oid].None?
    then SetPayment(t, oid, Payment(Pending, t.orders[oid].final, None)) else t
  }

  /** The latest invoice of an order. */
  function LatestInvoice(invoices: seq<Invoice>, oid: nat): (r: Option<nat>)
    ensures r.Some? ==> r.value < |invoices| && invoices[r.value].order == oid
    ensures r.Some? ==> forall i :: r.value < i < |invoices| ==> invoices[i].order != oid
    ensures r.None? ==> forall i :: 0 <= i < |invoices| ==> invoices[i].order != oid
  {
    if invoices == [] then None
    else if invoices[|invoices| - 1].order == oid then Some(|invoices| - 1)
    else LatestInvoice(invoices[..|invoices| - 1], oid)
  }

  /** Opens the invoice of an order, or brings the amounts of the open one up to date. */
  function CreateInvoice(t: Tables, oid: nat): Tables {
    if oid >= |t.orders| then t
    else
      var o := t.orders[oid];
      var open := LatestInvoice(t.invoices, oid);
      if open.Some? && t.invoices[open.value].status == Unpaid then
        var updated := t.invoices[open.value].(amount := o.amount, discount := o.discount, final := o.final);
        t.(invoices := t.invoices[open.value := updated])
      else t.(invoices := t.invoices + [Invoice(oid, Unpaid, o.amount, o.discount, o.final)])
  }

  /** Ties the order's payment to the invoice it is to settle. */
  function StartPayment(t: Tables, iid: nat, methodActive: bool): (Tables, Outcome)
    requires Wide(t)
  {
    if iid >= |t.invoices| then (t, Err(NoInvoice))
    else
      var inv := t.invoices[iid];
      if inv.status != Unpaid then (t, Err(NotPayable))
      else if !methodActive then (t, Err(MethodUnavailable))
      else if inv.order >= |t.orders| then (t, Err(NoOrder))
      else
        var p := t.payments[inv.order];
        if p.Some? && p.value.status != Pending then (t, Err(AlreadyPaying))
        else (SetPayment(t, inv.order, Payment(Pending, inv.final, Some(iid))), Ok(Changed))
  }

  // ---------------------------------------------------------------------------
  // Receipts
  // ---------------------------------------------------------------------------

  function SubmitReceipt(t: Tables, oid: nat, user: nat, fileOk: bool): (Tables, Outcome)
    requires Wide(t)
  {
    if oid >= |t.orders| then (t, Err(NoOrder))
    else if t.orders[oid].user != user then (t, Err(NotYours))
    else if t.orders[oid].status != PendingPayment then (t, Err(NotReceivable))
    else if t.payments[oid].None? then (t, Err(NoPayment))
    else if t.payments[oid].value.status != Pending then (t, Err(AlreadySubmitted))
    else if !fileOk then (t, Err(BadFile))
    else (MoveBoth(t, oid, WaitingAdmin, ReceiptSubmitted), Ok(Changed))
  }

  /** The only state in which a receipt may be approved, rejected or deleted. */
  predicate Reviewable(t: Tables, oid: nat) {
    && Wide(t) && oid < |t.orders|
    && t.orders[oid].status == WaitingAdmin
    && t.payments[oid].Some? && t.payments[oid].value.status == ReceiptSubmitted
  }

  function ReviewRefusal(t: Tables, oid: nat): Refusal {
    if oid >= |t.orders| then NoOrder else NotReviewable
  }

  function DeleteReceipt(t: Tables, oid: nat): (Tables, Outcome) {
    if !Reviewable(t, oid) then (t, Err(ReviewRefusal(t, oid)))
    else (MoveBoth(t, oid, PendingPayment, Pending), Ok(Changed))
  }

  /** Approves a receipt and consumes the coupon, unless recording the usage fails. */
  function ApproveReceipt(t: Tables, oid: nat, recorded: bool): (Tables, Outcome) {
    if !Reviewable(t, oid) then (t, Err(ReviewRefusal(t, oid)))
    else
      var paid := MoveBoth(t, oid, Approved, PayApproved);
      (if recorded then RecordUsage(paid, oid).0 else paid, Ok(Changed))
  }

  function RejectReceipt(t: Tables, oid: nat, reasonGiven: bool): (Tables, Outcome) {
    if !reasonGiven then (t, Err(ReasonRequired))
    else if !Reviewable(t, oid) then (t, Err(ReviewRefusal(t, oid)))
    else (MoveBoth(t, oid, Rejected, PayRejected), Ok(Changed))
  }

  /** Approval by payment row: settles the linked invoice as well. */
  function ApprovePayment(t: Tables, oid: nat, recorded: bool): (Tables, Outcome) {
    if PaymentOf(t, oid).None? then (t, Err(NoPayment))
    else
      var p := PaymentOf(t, oid).value;
      if p.status == PayApproved then (t, Ok(AlreadyDone))
      else if p.status in {PayRejected, PayExpired, PayCancelled, PayFailed} then (t, Err(NotApprovable))
      else
        var (after, r) := ApproveReceipt(t, oid, recorded);
        if r.Err? then (t, r) else (MarkInvoicePaid(after, p.invoice), r)
  }

  function RejectPayment(t: Tables, oid: nat, reasonGiven: bool): (Tables, Outcome) {
    if !reasonGiven then (t, Err(ReasonRequired))
    else if PaymentOf(t, oid).None? then (t, Err(NoPayment))
    else if PaymentOf(t, oid).value.status == PayRejected then (t, Ok(AlreadyDone))
    else if PaymentOf(t, oid).value.status == PayApproved then (t, Err(CannotReject))
    else RejectReceipt(t, oid, reasonGiven)
  }

  function Cancel(t: Tables, oid: nat, user: Option<nat>): (Tables, Outcome) {
    if oid >= |t.orders| then (t, Ok(Nothing))
    else
      var o := t.orders[oid];
      if user.Some? && o.user != user.value then (t, Err(NotYours))
      else if o.status != PendingPayment && o.status != WaitingAdmin then (t, Ok(AlreadyDone))
      else (SetOrder(t, oid, o.(status := Cancelled)), Ok(Changed))
  }

  /** The result of a delivery attempt on a paid order. */
  function RecordDelivery(t: Tables, oid: nat, delivered: bool): Tables {
    if oid < |t.orders| && t.orders[oid].status.AwaitingDelivery()
    then SetOrder(t, oid, t.orders[oid].(status := if delivered then Delivered else ProvisioningPending)) else t
  }

  // ---------------------------------------------------------------------------
  // Wallet payment
  // ---------------------------------------------------------------------------

  /** Charges the wallet for an order; `funds` says whether the balance suffices. */
  function PayWithWallet(t: Tables, oid: nat, user: nat, enabled: bool, funds: bool, recorded: bool): (Tables, Outcome)
    requires Wide(t)
  {
    if !enabled then (t, Err(WalletDisabled))
    else if oid >= |t.orders| then (t, Err(NoOrder))
    else if t.orders[oid].user != user then (t, Err(NotYours))
    else if !Chargeable(t, oid) then (t, Ok(AlreadyDone))
    else if !funds then (t, Err(Insufficient))
    else
      var paid := MoveBoth(CreatePayment(t, oid), oid, Approved, PayApproved);
      (if recorded then RecordUsage(paid, oid).0 else paid, Ok(Changed))
  }

  predicate Chargeable(t: Tables, oid: nat) {
    && Wide(t) && oid < |t.orders|
    && t.orders[oid].status == PendingPayment
    && (t.payments[oid].None? || t.payments[oid].value.status == Pending)
  }

  /** Settles an invoice from the wallet. */
  function PayInvoiceWithWallet(t: Tables, iid: nat, user: nat, enabled: bool, funds: bool, recorded: bool)
    : (Tables, Outcome)
    requires Wide(t)
  {
    if iid >= |t.invoices| then (t, Err(NoInvoice))
    else
      var oid := t.invoices[iid].order;
      if oid >= |t.orders| then (t, Err(NoOrder))
      else if t.orders[oid].user != user then (t, Err(NotYours))
      else if t.invoices[iid].status == InvoicePaid then (t, Ok(AlreadyDone))
      else if t.invoices[iid].status != Unpaid then (t, Err(NotPayable))
      else
        var (after, r) := PayWithWallet(t, oid, user, enabled, funds, recorded);
        if r.Err? then (t, r)
        else
          var settled := MarkInvoicePaid(after, Some(iid));
          (if oid < |settled.payments| && settled.payments[oid].Some?
           then SetPayment(settled, oid, settled.payments[oid].value.(invoice := Some(iid)))
           else settled, r)
  }

  // ---------------------------------------------------------------------------
  // Coupons
  // ---------------------------------------------------------------------------

  function UserUses(usages: seq<Usage>, cid: nat, user: nat): nat {
    if usages == [] then 0
    else
      var last := usages[|usages| - 1];
      UserUses(usages[..|usages| - 1], cid, user) + (if last.coupon == cid && last.user == user then 1 else 0)
  }

  function ApplyCoupon(t: Tables, oid: nat, code: Option<nat>, user: nat, enabled: bool, now: int): (Tables, Outcome) {
    if oid >= |t.orders| then (t, Err(NoOrder))
    else if t.orders[oid].user != user then (t, Err(NotYours))
    else if t.orders[oid].status != PendingPayment then (t, Err(Locked))
    else
      var o := t.orders[oid];
      var found := code.Some? && code.value < |t.coupons|;
      var checked := Validate(enabled, if found then Some(t.coupons[code.value]) else None, now,
                              if found then UserUses(t.usages, code.value, user) else 0,
                              o.product, o.kind, o.action, o.amount);
      match checked
      case Err(why) => (t, Err(CouponRefused(why)))
      case Ok(discount) =>
        var final := if o.amount - discount < 0 then 0 else o.amount - discount;
        (SetOrder(t, oid, o.(coupon := code, discount := discount, final := final)), Ok(Changed))
  }

  function RemoveCoupon(t: Tables, oid: nat, user: nat): (Tables, Outcome) {
    if oid >= |t.orders| then (t, Err(NoOrder))
    else if t.orders[oid].user != user then (t, Err(NotYours))
    else if t.orders[oid].status != PendingPayment then (t, Err(Locked))
    else if t.orders[oid].coupon.None? then (t, Ok(Nothing))
    else
      var o := t.orders[oid];
      (SetOrder(t, oid, o.(coupon := None, discount := 0, final := o.amount)), Ok(Changed))
  }

  predicate HasUsage(usages: seq<Usage>, cid: nat, oid: nat) {
    exists k :: 0 <= k < |usages| && usages[k].coupon == cid && usages[k].order == oid
  }

  /** Consumes the coupon of a paid order, once. */
  function RecordUsage(t: Tables, oid: nat): (Tables, bool) {
    if oid >= |t.orders| || t.orders[oid].coupon.None? then (t, false)
    else
      var o := t.orders[oid];
      var cid := o.coupon.value;
      if cid >= |t.coupons| || HasUsage(t.usages, cid, oid) then (t, false)
      else
        var c := t.coupons[cid];
        (t.(usages := t.usages + [Usage(cid, oid, o.user, o.discount)],
            coupons := t.coupons[cid := c.(usedCount := c.usedCount + 1)]), true)
  }

  /** A new coupon starts unused; an edited one keeps its count. */
  function SaveCoupon(t: Tables, cid: Option<nat>, fields: Coupon): Tables {
    if !WellFormed(fields) then t
    else if cid.None? then t.(coupons := t.coupons + [fields.(usedCount := 0)])
    else if cid.value < |t.coupons| then
      t.(coupons := t.coupons[cid.value := fields.(usedCount := t.coupons[cid.value].usedCount)])
    else t
  }

  // ---------------------------------------------------------------------------
  // Expiry sweeps; `stale` are the rows older than the cutoff
  // ---------------------------------------------------------------------------

  function ExpiredPayment(p: Option<Payment>): Option<Payment> {
    if p.Some? && p.value.status == Pending then Some(p.value.(status := PayExpired)) else p
  }

  function ExpirePayments(t: Tables, stale: set<nat>): Tables {
    t.(payments := seq(|t.payments|, i requires 0 <= i < |t.payments| =>
         if i in stale then ExpiredPayment(t.payments[i]) else t.payments[i]))
  }

  /** The payments an expiry sweep finds. */
  function StalePayments(payments: seq<Option<Payment>>, stale: set<nat>): set<nat> {
    set i | 0 <= i < |payments| && payments[i].Some? && payments[i].value.status == Pending && i in stale
  }

  /** The invoices an expiry sweep finds. */
  function StaleInvoices(invoices: seq<Invoice>, stale: set<nat>): set<nat> {
    set i | 0 <= i < |invoices| && invoices[i].status == Unpaid && i in stale
  }

  function ExpiredInvoice(inv: Invoice): Invoice {
    if inv.status == Unpaid then inv.(status := InvoiceExpired) else inv
  }

  function ExpireInvoices(t: Tables, stale: set<nat>): Tables {
    t.(invoices := seq(|t.invoices|, i requires 0 <= i < |t.invoices| =>
         if i in stale then ExpiredInvoice(t.invoices[i]) else t.invoices[i]))
  }
}
