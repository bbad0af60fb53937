/** What each call of the shop answers, and what it leaves behind. */
module ShopAnswers {
  import opened Common
  import opened Discounts
  import opened Shop
  import Runs = ShopRuns

  // ---------------------------------------------------------------------------
  // Ordering
  // ---------------------------------------------------------------------------

  /** A sellable request that can be numbered becomes one more order, unpaid, at the full price. */
  lemma OrderingMeans(t: Tables, user: nat, product: nat, q: Request, numbered: bool)
    requires Wide(t)
    ensures var (after, r) := CreateOrder(t, user, product, q, numbered);
            && (r == Ok(Changed) <==> Sellable(user, q) && numbered)
            && (r == Err(NoNumber) <==> Sellable(user, q) && !numbered)
            && (r != Ok(Changed) ==> r.Err? && after == t)
            && (r == Ok(Changed) ==>
                  && |after.orders| == |t.orders| + 1 && t.orders <= after.orders
                  && after.payments == t.payments + [None]
                  && after.invoices == t.invoices && after.coupons == t.coupons && after.usages == t.usages
                  && var o := after.orders[|t.orders|];
                     && o.user == user && o.product == product && o.kind == q.ware.value.kind
                     && o.action == (match q.asked case Plain => NewPurchase case OnService(a, _) => a)
                     && o.amount == o.final == q.ware.value.price && o.discount == 0 && o.coupon.None?
                     && o.status == PendingPayment)
  {
    AcceptedIffSellable(user, q);
  }

  /** A refusal names something that is really in the way. */
  lemma OrderRefusalIsTrue(user: nat, q: Request)
    ensures var r := OrderRefusal(user, q);
            r.Some? ==>
              match r.value
              case MethodUnsupported => q.way == OtherMethod
              case ProductUnavailable => q.ware.None? || !q.ware.value.active || q.ware.value.hidden
              case SalesDisabled => !q.settings.sales
              case CardDisabled => q.way == CardToCard && !q.settings.card
              case WalletDisabled => q.way == FromWallet && !q.settings.wallet
              case InvalidPrice => q.ware.Some? && q.ware.value.price <= 0
              case BadAction => q.asked.OnService? && q.asked.action == NewPurchase
              case ActionMismatch =>
                && q.asked.OnService? && q.ware.Some?
                && var w := q.ware.value;
                   w.kind != V2RayProduct || !w.forService || w.action != q.asked.action
              case NoTargetService => q.asked.OnService? && q.asked.target == Unselected
              case NotYourService =>
                && q.asked.OnService? && !q.asked.target.Unselected?
                && forall gone :: q.asked.target != Service(user, gone)
              case ServiceDeleted => q.asked == OnService(q.asked.action, Service(user, true))
              case RequiresService => q.asked.Plain? && q.ware.Some? && q.ware.value.forService
              case Misconfigured =>
                q.asked.Plain? && q.ware.Some? && q.ware.value.kind == V2RayProduct && !q.ware.value.bound
              case InboundInvalid =>
                q.asked.Plain? && q.ware.Some? && q.ware.value.kind == V2RayProduct && !q.ware.value.inboundValid
              case _ => false
  {
  }

  // ---------------------------------------------------------------------------
  // Payments and invoices
  // ---------------------------------------------------------------------------

  /** Only the payment row of one order changed. */
  predicate OnlyPayment(t: Tables, after: Tables, oid: nat, p: Payment)
    requires Wide(t) && oid < |t.orders|
  {
    after == t.(payments := t.payments[oid := Some(p)])
  }

  /** A fresh order gets a pending payment of its price; an order that has one keeps it. */
  lemma OpeningMeans(t: Tables, oid: nat)
    requires Wide(t)
    ensures var after := CreatePayment(t, oid);
            if oid < |t.orders| && t.payments[oid].None?
            then OnlyPayment(t, after, oid, Payment(Pending, t.orders[oid].final, None))
            else after == t
  {
  }

  /** The unpaid invoice is brought up to date, or one is added; it then asks for what the order costs. */
  lemma InvoicingMeans(t: Tables, oid: nat)
    requires oid < |t.orders|
    ensures var after := CreateInvoice(t, oid);
            var before, latest := LatestInvoice(t.invoices, oid), LatestInvoice(after.invoices, oid);
            var refreshed := before.Some? && t.invoices[before.value].status == Unpaid;
            && latest.Some?
            && (if refreshed then latest == before && |after.invoices| == |t.invoices|
                else latest == Some(|t.invoices|) && |after.invoices| == |t.invoices| + 1)
            && (forall i :: 0 <= i < |t.invoices| && i != latest.value ==> after.invoices[i] == t.invoices[i])
            && after.invoices[latest.value] ==
               Invoice(oid, Unpaid, t.orders[oid].amount, t.orders[oid].discount, t.orders[oid].final)
            && after == t.(invoices := after.invoices)
  {
    var after := CreateInvoice(t, oid);
    var latest := LatestInvoice(after.invoices, oid);
    var before := LatestInvoice(t.invoices, oid);
    if before.Some? && t.invoices[before.value].status == Unpaid {
      assert after.invoices[before.value].order == oid;
      assert forall i :: before.value < i < |t.invoices| ==> after.invoices[i].order != oid;
    } else {
      assert after.invoices[|t.invoices|].order == oid;
    }
  }

  /** A payment is tied to an unpaid invoice, for its amount, unless the order's payment has gone further already. */
  lemma StartingMeans(t: Tables, iid: nat, methodActive: bool)
    requires Wide(t)
    ensures var (after, r) := StartPayment(t, iid, methodActive);
            && (r == Ok(Changed) <==>
                  && iid < |t.invoices| && t.invoices[iid].status == Unpaid && methodActive
                  && t.invoices[iid].order < |t.orders|
                  && (match t.payments[t.invoices[iid].order] case None => true case Some(p) => p.status == Pending))
            && (r == Ok(Changed) ==>
                  OnlyPayment(t, after, t.invoices[iid].order, Payment(Pending, t.invoices[iid].final, Some(iid))))
            && (r != Ok(Changed) ==> r.Err? && after == t)
            && (r == Err(NoInvoice) <==> iid >= |t.invoices|)
            && (r == Err(NotPayable) <==> iid < |t.invoices| && t.invoices[iid].status != Unpaid)
            && (r == Err(MethodUnavailable) <==>
                  iid < |t.invoices| && t.invoices[iid].status == Unpaid && !methodActive)
            && (r == Err(NoOrder) <==>
                  && iid < |t.invoices| && t.invoices[iid].status == Unpaid && methodActive
                  && t.invoices[iid].order >= |t.orders|)
            && (r.Err? ==> r.error in {NoInvoice, NotPayable, MethodUnavailable, NoOrder, AlreadyPaying})
  {
  }

  // ---------------------------------------------------------------------------
  // Receipts
  // ---------------------------------------------------------------------------

  /** The order and its payment took these statuses, and nothing else changed. */
  predicate BothMoved(t: Tables, after: Tables, oid: nat, status: OrderStatus, pay: PaymentStatus)
    requires Wide(t) && oid < |t.orders|
  {
    && t.payments[oid].Some?
    && after == t.(orders := t.orders[oid := t.orders[oid].(status := status)],
                   payments := t.payments[oid := Some(t.payments[oid].value.(status := pay))])
  }

  /** The order waits for an administrator, and so does its payment. */
  predicate InReview(t: Tables, oid: nat)
    requires Wide(t)
  {
    && oid < |t.orders| && t.orders[oid].status == WaitingAdmin
    && t.payments[oid].Some? && t.payments[oid].value.status == ReceiptSubmitted
  }

  /** A receipt is taken for the buyer's own open order with its pending payment, and puts both up for review. */
  lemma SubmittingMeans(t: Tables, oid: nat, user: nat, fileOk: bool)
    requires Wide(t)
    ensures var (after, r) := SubmitReceipt(t, oid, user, fileOk);
            && (r == Ok(Changed) <==>
                  && oid < |t.orders| && t.orders[oid].user == user && t.orders[oid].status == PendingPayment
                  && t.payments[oid].Some? && t.payments[oid].value.status == Pending && fileOk)
            && (r == Ok(Changed) ==> BothMoved(t, after, oid, WaitingAdmin, ReceiptSubmitted))
            && (r != Ok(Changed) ==> r.Err? && after == t)
            && (r == Err(NoOrder) <==> oid >= |t.orders|)
            && (r == Err(NotYours) <==> oid < |t.orders| && t.orders[oid].user != user)
            && (r.Err? && oid < |t.orders| && t.orders[oid].user == user ==>
                  match r.error
                  case NotReceivable => t.orders[oid].status != PendingPayment
                  case NoPayment => t.payments[oid].None?
                  case AlreadySubmitted => t.payments[oid].Some? && t.payments[oid].value.status != Pending
                  case BadFile => !fileOk
                  case _ => false)
  {
  }

  /** A receipt in review can be discarded, which reopens order and payment. */
  lemma DiscardingMeans(t: Tables, oid: nat)
    requires Wide(t)
    ensures var (after, r) := DeleteReceipt(t, oid);
            && (r == Ok(Changed) <==> InReview(t, oid))
            && (r == Ok(Changed) ==> BothMoved(t, after, oid, PendingPayment, Pending))
            && (r != Ok(Changed) ==> after == t && r == Err(if oid < |t.orders| then NotReviewable else NoOrder))
  {
  }

  /** A rejection needs a reason and a receipt in review; then order and payment are rejected. */
  lemma RejectingMeans(t: Tables, oid: nat, reason: bool)
    requires Wide(t)
    ensures var (after, r) := RejectReceipt(t, oid, reason);
            && (r == Ok(Changed) <==> reason && InReview(t, oid))
            && (r == Ok(Changed) ==> BothMoved(t, after, oid, Rejected, PayRejected))
            && (r != Ok(Changed) ==> after == t)
            && (r == Err(ReasonRequired) <==> !reason)
            && (r != Ok(Changed) && reason ==> r == Err(if oid < |t.orders| then NotReviewable else NoOrder))
  {
  }

  /** The order's coupon has been consumed for it. */
  ghost predicate Consumed(t: Tables, oid: nat) {
    && oid < |t.orders| && t.orders[oid].coupon.Some?
    && exists u :: u in t.usages && u.order == oid && t.orders[oid].coupon == Some(u.coupon)
  }

  /** There is a coupon on the order still to be consumed. */
  ghost predicate ToConsume(t: Tables, oid: nat) {
    && oid < |t.orders| && t.orders[oid].coupon.Some? && t.orders[oid].coupon.value < |t.coupons|
    && !Consumed(t, oid)
  }

  /** One more use of the order's coupon: a usage row, with the order's buyer and discount, and a count. */
  predicate OneMoreUse(t: Tables, after: Tables, oid: nat)
    requires oid < |t.orders| && t.orders[oid].coupon.Some? && t.orders[oid].coupon.value < |t.coupons|
  {
    var o := t.orders[oid];
    var cid := o.coupon.value;
    && after.usages == t.usages + [Usage(cid, oid, o.user, o.discount)]
    && after.coupons == t.coupons[cid := t.coupons[cid].(usedCount := 1 + t.coupons[cid].usedCount)]
  }

  /** A coupon is consumed exactly if it is there and was not consumed for this order before. */
  lemma ConsumingMeans(t: Tables, oid: nat)
    ensures var (after, recorded) := RecordUsage(t, oid);
            && (recorded <==> ToConsume(t, oid))
            && (recorded ==> OneMoreUse(t, after, oid) && Consumed(after, oid))
            && after == t.(usages := after.usages, coupons := after.coupons)
            && (!recorded ==> after == t)
  {
    var (after, recorded) := RecordUsage(t, oid);
    if recorded {
      assert after.usages[|t.usages|] in after.usages;
    }
    if oid < |t.orders| && t.orders[oid].coupon.Some? && HasUsage(t.usages, t.orders[oid].coupon.value, oid) {
      var k :| 0 <= k < |t.usages| && t.usages[k].coupon == t.orders[oid].coupon.value && t.usages[k].order == oid;
      assert t.usages[k] in t.usages;
    }
  }

  /** An approval of a receipt in review approves order and payment, and consumes the coupon unless that fails. */
  lemma ApprovingMeans(t: Tables, oid: nat, recorded: bool)
    requires Wide(t)
    ensures var (after, r) := ApproveReceipt(t, oid, recorded);
            && (r == Ok(Changed) <==> InReview(t, oid))
            && (r != Ok(Changed) ==> after == t && r == Err(if oid < |t.orders| then NotReviewable else NoOrder))
            && (r == Ok(Changed) ==>
                  && BothMoved(t, after.(usages := t.usages, coupons := t.coupons), oid, Approved, PayApproved)
                  && (if recorded && ToConsume(t, oid) then OneMoreUse(t, after, oid)
                      else after.usages == t.usages && after.coupons == t.coupons))
  {
    if Reviewable(t, oid) {
      var paid := MoveBoth(t, oid, Approved, PayApproved);
      ConsumingMeans(paid, oid);
      assert Consumed(paid, oid) <==> Consumed(t, oid);
      hide RecordUsage;
    }
  }

  /** Approving by payment approves the receipt and settles the invoice the payment names, if it is open. */
  lemma ApprovingByPaymentMeans(t: Tables, oid: nat, recorded: bool)
    requires Wide(t)
    ensures var (after, r) := ApprovePayment(t, oid, recorded);
            var (approved, verdict) := ApproveReceipt(t, oid, recorded);
            var named := oid < |t.payments| && t.payments[oid].Some?;
            && (r == Err(NoPayment) <==> !named)
            && (r == Ok(AlreadyDone) <==> named && t.payments[oid].value.status == PayApproved)
            && (r == Err(NotApprovable) <==>
                  named && t.payments[oid].value.status in {PayRejected, PayExpired, PayCancelled, PayFailed})
            && (r == Err(NotReviewable) <==>
                  named && t.payments[oid].value.status in {Pending, ReceiptSubmitted} && !InReview(t, oid))
            && (r == Ok(Changed) <==> InReview(t, oid))
            && (r != Ok(Changed) ==> after == t)
            && (r == Ok(Changed) ==>
                  && verdict == Ok(Changed) && after == approved.(invoices := after.invoices)
                  && |after.invoices| == |t.invoices|
                  && forall i :: 0 <= i < |t.invoices| ==>
                       after.invoices[i] ==
                       if t.payments[oid].value.invoice == Some(i) && t.invoices[i].status == Unpaid
                       then t.invoices[i].(status := InvoicePaid) else t.invoices[i])
  {
    ApprovingMeans(t, oid, recorded);
    hide ApproveReceipt;
  }

  /** Rejecting by payment rejects the receipt; a rejected one stays so, and an approved one cannot be rejected. */
  lemma RejectingByPaymentMeans(t: Tables, oid: nat, reason: bool)
    requires Wide(t)
    ensures var (after, r) := RejectPayment(t, oid, reason);
            var named := oid < |t.payments| && t.payments[oid].Some?;
            && (r == Err(ReasonRequired) <==> !reason)
            && (r == Err(NoPayment) <==> reason && !named)
            && (r == Ok(AlreadyDone) <==> reason && named && t.payments[oid].value.status == PayRejected)
            && (r == Err(CannotReject) <==> reason && named && t.payments[oid].value.status == PayApproved)
            && (r == Ok(Changed) <==> reason && InReview(t, oid))
            && (r == Ok(Changed) || r == Ok(AlreadyDone)
                || (r.Err? && r.error in {ReasonRequired, NoPayment, CannotReject, NotReviewable}))
            && (r == Ok(Changed) ==> BothMoved(t, after, oid, Rejected, PayRejected))
            && (r != Ok(Changed) ==> after == t)
  {
    RejectingMeans(t, oid, reason);
    hide RejectReceipt;
  }

  /** An unpaid order, open or in review, can be cancelled by its owner or an administrator; nothing else changes. */
  lemma CancellingMeans(t: Tables, oid: nat, owner: Option<nat>)
    ensures var (after, r) := Cancel(t, oid, owner);
            var mine := oid < |t.orders| && (owner.None? || owner == Some(t.orders[oid].user));
            && (r == Ok(Nothing) <==> oid >= |t.orders|)
            && (r == Err(NotYours) <==> oid < |t.orders| && !mine)
            && (r == Ok(Changed) <==> mine && t.orders[oid].status in {PendingPayment, WaitingAdmin})
            && after == (if r == Ok(Changed) then t.(orders := t.orders[oid := t.orders[oid].(status := Cancelled)])
                         else t)
  {
  }

  /** A delivery attempt on a paid order ends delivered, or waiting for another try. */
  lemma DeliveryIsRecorded(t: Tables, oid: nat, delivered: bool)
    ensures var after := RecordDelivery(t, oid, delivered);
            if oid < |t.orders| && t.orders[oid].status in {Approved, ProvisioningPending} then
              var status := if delivered then Delivered else ProvisioningPending;
              after == t.(orders := t.orders[oid := t.orders[oid].(status := status)])
            else after == t
  {
  }

  // ---------------------------------------------------------------------------
  // Wallet payment
  // ---------------------------------------------------------------------------

  /** The order is still to be paid, and no payment of it has gone further than pending. */
  predicate StillToPay(t: Tables, oid: nat)
    requires Wide(t)
  {
    && oid < |t.orders| && t.orders[oid].status == PendingPayment
    && match t.payments[oid] case None => true case Some(p) => p.status == Pending
  }

  /** The order's payment, or one of its price. */
  function PaymentToMake(t: Tables, oid: nat): Payment
    requires Wide(t) && oid < |t.orders|
  {
    match t.payments[oid]
    case None => Payment(Pending, t.orders[oid].final, None)
    case Some(p) => p
  }

  /** A wallet payment of the buyer's own order that is still to pay approves order and payment, funds allowing. */
  lemma WalletPayingMeans(t: Tables, oid: nat, user: nat, enabled: bool, funds: bool, recorded: bool)
    requires Wide(t)
    ensures var (after, r) := PayWithWallet(t, oid, user, enabled, funds, recorded);
            var mine := enabled && oid < |t.orders| && t.orders[oid].user == user;
            && (r == Ok(Changed) <==> mine && StillToPay(t, oid) && funds)
            && (r == Ok(AlreadyDone) <==> mine && !StillToPay(t, oid))
            && (r == Err(Insufficient) <==> mine && StillToPay(t, oid) && !funds)
            && (r == Err(WalletDisabled) <==> !enabled)
            && (r == Err(NoOrder) <==> enabled && oid >= |t.orders|)
            && (r == Err(NotYours) <==> enabled && oid < |t.orders| && t.orders[oid].user != user)
            && (r != Ok(Changed) ==> after == t)
            && (r == Ok(Changed) ==>
                  && after.orders == t.orders[oid := t.orders[oid].(status := Approved)]
                  && after.payments == t.payments[oid := Some(PaymentToMake(t, oid).(status := PayApproved))]
                  && after.invoices == t.invoices
                  && (if recorded && ToConsume(t, oid) then OneMoreUse(t, after, oid)
                      else after.usages == t.usages && after.coupons == t.coupons))
  {
    if enabled && Chargeable(t, oid) && t.orders[oid].user == user && funds {
      var paid := MoveBoth(CreatePayment(t, oid), oid, Approved, PayApproved);
      assert paid.payments == t.payments[oid := Some(PaymentToMake(t, oid).(status := PayApproved))];
      ConsumingMeans(paid, oid);
      assert Consumed(paid, oid) <==> Consumed(t, oid);
      hide RecordUsage;
    }
  }

  /** Settling the buyer's open invoice pays its order and marks it paid, whether or not anything was charged. */
  lemma WalletSettlingMeans(t: Tables, iid: nat, user: nat, enabled: bool, funds: bool, recorded: bool)
    requires Wide(t)
    ensures var (after, r) := PayInvoiceWithWallet(t, iid, user, enabled, funds, recorded);
            var known := iid < |t.invoices| && t.invoices[iid].order < |t.orders|;
            var mine := known && t.orders[t.invoices[iid].order].user == user;
            && (r == Err(NoInvoice) <==> iid >= |t.invoices|)
            && (r == Err(NoOrder) <==> iid < |t.invoices| && !known)
            && (r == Err(NotYours) <==> known && !mine)
            && (mine && t.invoices[iid].status == InvoicePaid ==> r == Ok(AlreadyDone) && after == t)
            && (r == Err(NotPayable) <==> mine && t.invoices[iid].status == InvoiceExpired)
            && (r.Err? ==> after == t)
            && (mine && t.invoices[iid].status == Unpaid ==>
                  && var oid := t.invoices[iid].order;
                     && var (paid, answer) := PayWithWallet(t, oid, user, enabled, funds, recorded);
                        && r == answer
                        && (answer.Ok? ==>
                              && after == paid.(invoices := after.invoices, payments := after.payments)
                              && after.invoices == t.invoices[iid := t.invoices[iid].(status := InvoicePaid)]
                              && |after.payments| == |paid.payments|
                              && forall k :: 0 <= k < |paid.payments| ==>
                                   after.payments[k] == if k == oid && paid.payments[k].Some?
                                                        then Some(paid.payments[k].value.(invoice := Some(iid)))
                                                        else paid.payments[k]))
  {
    if iid < |t.invoices| && t.invoices[iid].order < |t.orders| {
      WalletPayingMeans(t, t.invoices[iid].order, user, enabled, funds, recorded);
      WalletAnswersOnly(t, t.invoices[iid].order, user, enabled, funds, recorded);
    }
    hide PayWithWallet;
  }

  lemma WalletAnswersOnly(t: Tables, oid: nat, user: nat, enabled: bool, funds: bool, recorded: bool)
    requires Wide(t)
    ensures var r := PayWithWallet(t, oid, user, enabled, funds, recorded).1;
            r in {Ok(Changed), Ok(AlreadyDone), Err(WalletDisabled), Err(NoOrder), Err(NotYours), Err(Insufficient)}
    ensures Wide(PayWithWallet(t, oid, user, enabled, funds, recorded).0)
    ensures |PayWithWallet(t, oid, user, enabled, funds, recorded).0.orders| == |t.orders|
    ensures PayWithWallet(t, oid, user, enabled, funds, recorded).0.invoices == t.invoices
  {
  }

  // ---------------------------------------------------------------------------
  // Coupons
  // ---------------------------------------------------------------------------

  /** All that is asked of a coupon for an order. */
  predicate Fits(c: Coupon, now: int, uses: nat, product: nat, kind: ProductKind, action: ActionKind, amount: int) {
    && c.active
    && (c.startsAt.Some? ==> c.startsAt.value <= now)
    && (c.expiresAt.Some? ==> now <= c.expiresAt.value)
    && (c.limit.Some? ==> c.usedCount < c.limit.value)
    && (c.perUser.Some? ==> uses < c.perUser.value)
    && (c.minOrder == 0 || c.minOrder <= amount)
    && (c.product.Some? ==> c.product.value == product)
    && (c.kind.Some? ==> c.kind.value == kind)
    && (c.action.Some? ==> c.action.value == action)
  }

  /** A coupon is accepted exactly if it fits, and a refusal names something it does not fit. */
  lemma ValidatingMeans(
    enabled: bool, coupon: Option<Coupon>, now: int, uses: nat,
    product: nat, kind: ProductKind, action: ActionKind, amount: int)
    ensures var r := Validate(enabled, coupon, now, uses, product, kind, action, amount);
            && (r.Ok? <==> enabled && coupon.Some? && Fits(coupon.value, now, uses, product, kind, action, amount))
            && (r.Ok? ==> r.value == Discount(coupon.value, amount))
            && (r == Err(Disabled) <==> !enabled)
            && (r == Err(NotFound) <==> enabled && coupon.None?)
            && (r.Err? && enabled && coupon.Some? ==>
                  && var c := coupon.value;
                     match r.error
                     case Inactive => !c.active
                     case NotStarted => c.startsAt.Some? && now < c.startsAt.value
                     case HasExpired => c.expiresAt.Some? && c.expiresAt.value < now
                     case LimitReached => c.limit.Some? && c.limit.value <= c.usedCount
                     case UserLimitReached => c.perUser.Some? && c.perUser.value <= uses
                     case BelowMinimum => amount < c.minOrder
                     case ProductNotAllowed => c.product.Some? && c.product.value != product
                     case KindNotAllowed => c.kind.Some? && c.kind.value != kind
                     case ActionNotAllowed => c.action.Some? && c.action.value != action
                     case _ => false)
  {
  }

  /** How often a user has used a coupon: the usage rows that say so. */
  lemma {:induction false} UsesAreCounted(usages: seq<Usage>, cid: nat, user: nat)
    ensures UserUses(usages, cid, user) ==
            |set k | 0 <= k < |usages| && usages[k].coupon == cid && usages[k].user == user|
  {
    var mine := set k | 0 <= k < |usages| && usages[k].coupon == cid && usages[k].user == user;
    if usages == [] {
      assert mine == {};
    } else {
      var n := |usages| - 1;
      var rest := usages[..n];
      UsesAreCounted(rest, cid, user);
      var earlier := set k | 0 <= k < |rest| && rest[k].coupon == cid && rest[k].user == user;
      if usages[n].coupon == cid && usages[n].user == user {
        assert mine == earlier + {n};
      } else {
        assert mine == earlier;
      }
    }
  }

  /** The coupon a code names, and how often the user has used it. */
  function Named(t: Tables, code: Option<nat>): Option<Coupon> {
    if code.Some? && code.value < |t.coupons| then Some(t.coupons[code.value]) else None
  }

  /**
   A fitting coupon put on the buyer's own open order sets coupon and discount, and takes the
   discount off the price; a refusal changes nothing.
   */
  lemma ApplyingMeans(t: Tables, oid: nat, code: Option<nat>, user: nat, enabled: bool, now: int)
    requires oid < |t.orders| ==> t.orders[oid].amount >= 0
    ensures var (after, r) := ApplyCoupon(t, oid, code, user, enabled, now);
            var mine := oid < |t.orders| && t.orders[oid].user == user;
            && (r == Err(NoOrder) <==> oid >= |t.orders|)
            && (r == Err(NotYours) <==> oid < |t.orders| && !mine)
            && (r == Err(Locked) <==> mine && t.orders[oid].status != PendingPayment)
            && (r == Ok(Changed) <==>
                  && mine && t.orders[oid].status == PendingPayment && enabled && Named(t, code).Some?
                  && var o := t.orders[oid];
                     var uses := UserUses(t.usages, code.value, user);
                     Fits(Named(t, code).value, now, uses, o.product, o.kind, o.action, o.amount))
            && (r != Ok(Changed) ==> r.Err? && after == t)
            && (r == Ok(Changed) ==>
                  && var o := t.orders[oid];
                     var d := Discount(Named(t, code).value, o.amount);
                     after == t.(orders := t.orders[oid := o.(coupon := code, discount := d, final := o.amount - d)]))
  {
    if oid < |t.orders| {
      var o := t.orders[oid];
      var uses := if Named(t, code).Some? then UserUses(t.usages, code.value, user) else 0;
      ValidatingMeans(enabled, Named(t, code), now, uses, o.product, o.kind, o.action, o.amount);
      if Named(t, code).Some? {
        DiscountBounds(Named(t, code).value, o.amount);
      }
      hide Validate, Discount, Fits, UserUses;
    }
  }

  /** Taking the coupon off the buyer's own open order restores the full price. */
  lemma DroppingMeans(t: Tables, oid: nat, user: nat)
    ensures var (after, r) := RemoveCoupon(t, oid, user);
            var mine := oid < |t.orders| && t.orders[oid].user == user;
            && (r == Err(NoOrder) <==> oid >= |t.orders|)
            && (r == Err(NotYours) <==> oid < |t.orders| && !mine)
            && (r == Err(Locked) <==> mine && t.orders[oid].status != PendingPayment)
            && (r == Ok(Nothing) <==> mine && t.orders[oid].status == PendingPayment && t.orders[oid].coupon.None?)
            && (r == Ok(Changed) <==> mine && t.orders[oid].status == PendingPayment && t.orders[oid].coupon.Some?)
            && (r != Ok(Changed) ==> after == t)
            && (r == Ok(Changed) ==>
                  && var o := t.orders[oid];
                     after == t.(orders := t.orders[oid := o.(coupon := None, discount := 0, final := o.amount)]))
  {
  }

  /** Coupons are saved only with a percentage of 1 to 100 or a positive amount; their count is never overwritten. */
  lemma SavingMeans(t: Tables, cid: Option<nat>, fields: Coupon)
    ensures var after := SaveCoupon(t, cid, fields);
            var sane := if fields.percent then 1 <= fields.value <= 100 else 0 < fields.value;
            && after == t.(coupons := after.coupons)
            && (!sane || (cid.Some? && cid.value >= |t.coupons|) ==> after == t)
            && (sane && cid.None? ==> after.coupons == t.coupons + [fields.(usedCount := 0)])
            && (sane && cid.Some? && cid.value < |t.coupons| ==>
                  after.coupons == t.coupons[cid.value := fields.(usedCount := t.coupons[cid.value].usedCount)])
  {
  }

  // ---------------------------------------------------------------------------
  // Expiry
  // ---------------------------------------------------------------------------

  /** Of the stale rows exactly the pending payments and the unpaid invoices expire, and nothing else changes. */
  lemma ExpiringMeans(t: Tables, stale: set<nat>)
    ensures var pays, invs := ExpirePayments(t, stale), ExpireInvoices(t, stale);
            && pays == t.(payments := pays.payments) && invs == t.(invoices := invs.invoices)
            && |pays.payments| == |t.payments| && |invs.invoices| == |t.invoices|
            && (forall i :: 0 <= i < |t.payments| ==>
                  if i in stale && t.payments[i].Some? && t.payments[i].value.status == Pending
                  then pays.payments[i] == Some(t.payments[i].value.(status := PayExpired))
                  else pays.payments[i] == t.payments[i])
            && (forall i :: 0 <= i < |t.invoices| ==>
                  if i in stale && t.invoices[i].status == Unpaid
                  then invs.invoices[i] == t.invoices[i].(status := InvoiceExpired)
                  else invs.invoices[i] == t.invoices[i])
  {
  }

  // ---------------------------------------------------------------------------
  // How an order gets where it is
  // ---------------------------------------------------------------------------

  /** The step says yes to the order: an administrator to its receipt, or the wallet to its price. */
  predicate SaysYes(t: Tables, op: Runs.Op, oid: nat)
    requires Wide(t)
  {
    match op
    case Approve(o, _) => o == oid && InReview(t, oid)
    case ApproveByPayment(o, _) => o == oid && InReview(t, oid)
    case WalletPay(o, user, enabled, funds, _) =>
      o == oid && StillToPay(t, oid) && t.orders[oid].user == user && enabled && funds
    case WalletPayInvoice(iid, user, enabled, funds, _) =>
      && iid < |t.invoices| && t.invoices[iid].order == oid && t.invoices[iid].status == Unpaid
      && StillToPay(t, oid) && t.orders[oid].user == user && enabled && funds
    case _ => false
  }

  /** Which step may take an order to a status. */
  predicate Leads(t: Tables, op: Runs.Op, oid: nat, status: OrderStatus)
    requires Wide(t) && oid < |t.orders|
  {
    match status
    case Approved => SaysYes(t, op, oid)
    case Rejected => op == Runs.Reject(oid, true) && InReview(t, oid)
    case Cancelled => op.CancelOrder? && op.oid == oid
    case WaitingAdmin => op.Submit? && op.oid == oid
    case PendingPayment => op.Delete? && op.oid == oid && InReview(t, oid)
    case Delivered => op == Runs.Deliver(oid, true) && t.orders[oid].status.AwaitingDelivery()
    case ProvisioningPending => op == Runs.Deliver(oid, false) && t.orders[oid].status.AwaitingDelivery()
    case Failed => false
  }

  /** An order changes its status only in the call that is for it. */
  lemma StatusMoves(t: Tables, op: Runs.Op, oid: nat)
    requires Wide(t) && oid < |t.orders|
    ensures |t.orders| <= |Runs.Step(t, op).orders|
    ensures var status := Runs.Step(t, op).orders[oid].status;
            status != t.orders[oid].status ==> Leads(t, op, oid, status)
  {
    match op
    case Approve(o, recorded) => ApprovingMeans(t, o, recorded);
    case ApproveByPayment(o, recorded) =>
      ApprovingMeans(t, o, recorded);
      ApprovingByPaymentMeans(t, o, recorded);
    case Reject(o, reason) => RejectingByPaymentMeans(t, o, reason);
    case WalletPay(o, user, enabled, funds, recorded) => WalletPayingMeans(t, o, user, enabled, funds, recorded);
    case WalletPayInvoice(iid, user, enabled, funds, recorded) => SettlingMoves(t, op, oid);
    case _ => OtherStatusMoves(t, op, oid);
  }

  lemma SettlingMoves(t: Tables, op: Runs.Op, oid: nat)
    requires Wide(t) && oid < |t.orders| && op.WalletPayInvoice?
    ensures |t.orders| <= |Runs.Step(t, op).orders|
    ensures var status := Runs.Step(t, op).orders[oid].status;
            status != t.orders[oid].status ==> Leads(t, op, oid, status)
  {
    WalletSettlingMeans(t, op.iid, op.user, op.enabled, op.funds, op.recorded);
    if op.iid < |t.invoices| && t.invoices[op.iid].order < |t.orders| {
      WalletPayingMeans(t, t.invoices[op.iid].order, op.user, op.enabled, op.funds, op.recorded);
      WalletAnswersOnly(t, t.invoices[op.iid].order, op.user, op.enabled, op.funds, op.recorded);
    }
    hide PayWithWallet, PayInvoiceWithWallet;
  }

  lemma OtherStatusMoves(t: Tables, op: Runs.Op, oid: nat)
    requires Wide(t) && oid < |t.orders|
    requires !op.Approve? && !op.ApproveByPayment? && !op.Reject? && !op.WalletPay? && !op.WalletPayInvoice?
    ensures |t.orders| <= |Runs.Step(t, op).orders|
    ensures var status := Runs.Step(t, op).orders[oid].status;
            status != t.orders[oid].status ==> Leads(t, op, oid, status)
  {
  }

  /** At some step of the run the order was said yes to. */
  ghost predicate WasApproved(t: Tables, ops: seq<Runs.Op>, oid: nat)
    requires Wide(t)
    decreases |ops|
  {
    ops != [] && (SaysYes(t, ops[0], oid) || WasApproved(Runs.Step(t, ops[0]), ops[1..], oid))
  }

  /** Over every run, goods go out only for orders whose receipt was approved, or whose price the wallet paid. */
  lemma {:induction false} PaidWasApproved(t: Tables, ops: seq<Runs.Op>, oid: nat)
    requires Wide(t) && oid < |t.orders| && !t.orders[oid].status.Paid()
    ensures |t.orders| <= |Runs.Run(t, ops).orders|
    ensures Runs.Run(t, ops).orders[oid].status in {Approved, ProvisioningPending, Delivered} ==>
              WasApproved(t, ops, oid)
    decreases |ops|
  {
    hide SaysYes, Runs.Step;
    if ops == [] {
    } else {
      var next := Runs.Step(t, ops[0]);
      StatusMoves(t, ops[0], oid);
      if next.orders[oid].status.Paid() {
        OrdersRemain(next, ops[1..]);
      } else {
        PaidWasApproved(next, ops[1..], oid);
      }
    }
  }

  lemma {:induction false} OrdersRemain(t: Tables, ops: seq<Runs.Op>)
    requires Wide(t)
    ensures |t.orders| <= |Runs.Run(t, ops).orders|
    decreases |ops|
  {
    hide Runs.Step;
    if ops == [] {
    } else {
      if t.orders != [] {
        StatusMoves(t, ops[0], 0);
      }
      OrdersRemain(Runs.Step(t, ops[0]), ops[1..]);
    }
  }
}
