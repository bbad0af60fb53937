/** The shop's calls in place, over the tables they update. */
module ShopService {
  import opened Common
  import opened Discounts
  import opened Shop
  import Runs = ShopRuns

  class ShopTables {
    var orders: seq<Order>
    var payments: seq<Option<Payment>>
    var invoices: seq<Invoice>
    var coupons: seq<Coupon>
    var usages: seq<Usage>

    constructor ()
      ensures Snapshot() == Tables([], [], [], [], [])
    {
      orders, payments, invoices, coupons, usages := [], [], [], [], [];
    }

    function Snapshot(): Tables
      reads this
    {
      Tables(orders, payments, invoices, coupons, usages)
    }

    ghost predicate Valid()
      reads this
    {
      Wide(Snapshot())
    }

    /** Places an order at the product's price, retrying while the drawn order number is taken. */
    method CreateOrder(user: nat, product: nat, q: Request, taken: nat -> bool) returns (r: Outcome)
      requires Valid()
      modifies this`orders, this`payments
      ensures (Snapshot(), r) ==
              Shop.CreateOrder(old(Snapshot()), user, product, q, exists k :: 0 <= k < 5 && !taken(k))
      ensures r.Ok? ==>
                && Sellable(user, q)
                && |orders| == |old(orders)| + 1 && orders[|orders| - 1].final == q.ware.value.price
      ensures Valid()
      ensures old(Runs.Inv(Snapshot())) ==> Runs.Inv(Snapshot()) && Runs.Kept(old(Snapshot()), Snapshot())
    {
      hide Runs.Inv, Runs.Kept;
      ghost var before := Snapshot();
      if Runs.Inv(before) {
        Runs.StepSound(before, Runs.Create(user, product, q, exists k :: 0 <= k < 5 && !taken(k)));
      }
      AcceptedIffSellable(user, q);
      var refusal := OrderRefusal(user, q);
      if refusal.Some? {
        return Err(refusal.value);
      }
      var action := if q.asked.OnService? then q.asked.action else NewPurchase;
      var price := q.ware.value.price;
      var discount := 0;
      var final := price - discount;
      for attempt := 0 to 5
        invariant orders == old(orders) && payments == old(payments)
        invariant forall k :: 0 <= k < attempt ==> taken(k)
      {
        if taken(attempt) {
          continue;
        }
        var kind := q.ware.value.kind;
        orders := orders + [Order(user, product, kind, action, price, discount, final, None, PendingPayment)];
        payments := payments + [None];
        return Ok(Changed);
      }
      return Err(NoNumber);
    }

    /** Opens the order's invoice, or refreshes the amounts of the one still unpaid. */
    method CreateProductInvoice(oid: nat) returns (iid: nat)
      requires Valid() && oid < |orders|
      modifies this`invoices
      ensures Snapshot() == CreateInvoice(old(Snapshot()), oid)
      ensures iid < |invoices| && LatestInvoice(invoices, oid) == Some(iid) && invoices[iid].status == Unpaid
      ensures invoices[iid].final == orders[oid].final
      ensures old(Runs.Inv(Snapshot())) ==> Runs.Inv(Snapshot()) && Runs.Kept(old(Snapshot()), Snapshot())
    {
      hide Runs.Inv, Runs.Kept;
      ghost var before := Snapshot();
      if Runs.Inv(before) {
        Runs.StepSound(before, Runs.OpenInvoice(oid));
      }
      var order := orders[oid];
      var existing := LatestInvoice(invoices, oid);
      if existing.Some? && invoices[existing.value].status == Unpaid {
        iid := existing.value;
        var inv := invoices[iid].(amount := order.amount);
        inv := inv.(discount := order.discount);
        inv := inv.(final := order.final);
        invoices := invoices[iid := inv];
        LatestStays(old(invoices), iid, inv);
      } else {
        iid := |invoices|;
        invoices := invoices + [Invoice(oid, Unpaid, order.amount, order.discount, order.final)];
      }
    }

    /** Creates or adopts the payment that is to settle an invoice. */
    method CreatePayment(iid: nat, methodActive: bool) returns (r: Outcome)
      requires Valid()
      modifies this`payments
      ensures (Snapshot(), r) == StartPayment(old(Snapshot()), iid, methodActive)
      ensures old(Runs.Inv(Snapshot())) ==> Runs.Inv(Snapshot()) && Runs.Kept(old(Snapshot()), Snapshot())
    {
      hide Runs.Inv, Runs.Kept;
      ghost var before := Snapshot();
      if Runs.Inv(before) {
        Runs.StepSound(before, Runs.Start(iid, methodActive));
      }
      if iid >= |invoices| {
        return Err(NoInvoice);
      }
      var inv := invoices[iid];
      if inv.status != Unpaid {
        return Err(NotPayable);
      }
      if !methodActive {
        return Err(MethodUnavailable);
      }
      if inv.order >= |orders| {
        return Err(NoOrder);
      }
      var found := payments[inv.order];
      if found.Some? && found.value.status != Pending {
        return Err(AlreadyPaying);
      }
      var payment := if found.Some? then found.value else Payment(Pending, inv.final, None);
      payment := payment.(invoice := Some(iid));
      payment := payment.(amount := inv.final);
      payments := payments[inv.order := Some(payment)];
      return Ok(Changed);
    }

    /** Stores a receipt and puts the order in the review queue. */
    method SubmitReceipt(oid: nat, user: nat, fileOk: bool) returns (r: Outcome)
      requires Valid()
      modifies this`orders, this`payments
      ensures (Snapshot(), r) == Shop.SubmitReceipt(old(Snapshot()), oid, user, fileOk)
      ensures old(Runs.Inv(Snapshot())) ==> Runs.Inv(Snapshot()) && Runs.Kept(old(Snapshot()), Snapshot())
    {
      hide Runs.Inv, Runs.Kept;
      ghost var before := Snapshot();
      if Runs.Inv(before) {
        Runs.StepSound(before, Runs.Submit(oid, user, fileOk));
      }
      if oid >= |orders| {
        return Err(NoOrder);
      }
      var order := orders[oid];
      if order.user != user {
        return Err(NotYours);
      }
      if order.status != PendingPayment {
        return Err(NotReceivable);
      }
      if payments[oid].None? {
        return Err(NoPayment);
      }
      var payment := payments[oid].value;
      if payment.status != Pending {
        return Err(AlreadySubmitted);
      }
      if !fileOk {
        return Err(BadFile);
      }
      payments := payments[oid := Some(payment.(status := ReceiptSubmitted))];
      orders := orders[oid := order.(status := WaitingAdmin)];
      return Ok(Changed);
    }

    /** Discards a submitted receipt so that another can be sent. */
    method DeleteReceipt(oid: nat) returns (r: Outcome)
      requires Valid()
      modifies this`orders, this`payments
      ensures (Snapshot(), r) == Shop.DeleteReceipt(old(Snapshot()), oid)
      ensures old(Runs.Inv(Snapshot())) ==> Runs.Inv(Snapshot()) && Runs.Kept(old(Snapshot()), Snapshot())
    {
      hide Runs.Inv, Runs.Kept;
      ghost var before := Snapshot();
      if Runs.Inv(before) {
        Runs.StepSound(before, Runs.Delete(oid));
      }
      if !Reviewable(Snapshot(), oid) {
        return Err(ReviewRefusal(Snapshot(), oid));
      }
      payments := payments[oid := Some(payments[oid].value.(status := Pending))];
      orders := orders[oid := orders[oid].(status := PendingPayment)];
      return Ok(Changed);
    }

    /** Bumps the coupon's count and writes the usage row, once per order. */
    method RecordUsage(oid: nat) returns (recorded: bool)
      modifies this`coupons, this`usages
      ensures (Snapshot(), recorded) == Shop.RecordUsage(old(Snapshot()), oid)
      ensures old(Runs.Inv(Snapshot())) && oid < |orders| && orders[oid].status.Paid() ==>
                Runs.Inv(Snapshot()) && Runs.Kept(old(Snapshot()), Snapshot())
    {
      hide Runs.Inv, Runs.Kept;
      ghost var before := Snapshot();
      if Runs.Inv(before) && oid < |orders| && orders[oid].status.Paid() {
        Runs.RecordUsageSound(before, oid);
      }
      if oid >= |orders| || orders[oid].coupon.None? {
        return false;
      }
      var order := orders[oid];
      var cid := order.coupon.value;
      if cid >= |coupons| || HasUsage(usages, cid, oid) {
        return false;
      }
      usages := usages + [Usage(cid, oid, order.user, order.discount)];
      coupons := coupons[cid := coupons[cid].(usedCount := coupons[cid].usedCount + 1)];
      return true;
    }

    /** Approves a receipt; `recording` is false when writing the coupon usage raises. */
    method ApproveReceipt(oid: nat, recording: bool) returns (r: Outcome)
      requires Valid()
      modifies this
      ensures (Snapshot(), r) == Shop.ApproveReceipt(old(Snapshot()), oid, recording)
      ensures old(Runs.Inv(Snapshot())) ==> Runs.Inv(Snapshot()) && Runs.Kept(old(Snapshot()), Snapshot())
    {
      hide Runs.Inv, Runs.Kept;
      ghost var before := Snapshot();
      if Runs.Inv(before) {
        Runs.StepSound(before, Runs.Approve(oid, recording));
      }
      if !Reviewable(Snapshot(), oid) {
        return Err(ReviewRefusal(Snapshot(), oid));
      }
      payments := payments[oid := Some(payments[oid].value.(status := PayApproved))];
      orders := orders[oid := orders[oid].(status := Approved)];
      if recording {
        var recorded := RecordUsage(oid);
      }
      return Ok(Changed);
    }

    method RejectReceipt(oid: nat, reasonGiven: bool) returns (r: Outcome)
      requires Valid()
      modifies this`orders, this`payments
      ensures (Snapshot(), r) == Shop.RejectReceipt(old(Snapshot()), oid, reasonGiven)
      ensures old(Runs.Inv(Snapshot())) ==> Runs.Inv(Snapshot()) && Runs.Kept(old(Snapshot()), Snapshot())
    {
      hide Runs.Inv, Runs.Kept;
      ghost var before := Snapshot();
      if Runs.Inv(before) {
        Runs.RejectReceiptSound(before, oid, reasonGiven);
      }
      if !reasonGiven {
        return Err(ReasonRequired);
      }
      if !Reviewable(Snapshot(), oid) {
        return Err(ReviewRefusal(Snapshot(), oid));
      }
      payments := payments[oid := Some(payments[oid].value.(status := PayRejected))];
      orders := orders[oid := orders[oid].(status := Rejected)];
      return Ok(Changed);
    }

    method MarkInvoicePaid(iid: Option<nat>)
      modifies this`invoices
      ensures Snapshot() == Shop.MarkInvoicePaid(old(Snapshot()), iid)
      ensures old(Runs.Inv(Snapshot())) ==> Runs.Inv(Snapshot()) && Runs.Kept(old(Snapshot()), Snapshot())
    {
      hide Runs.Inv, Runs.Kept;
      ghost var before := Snapshot();
      if Runs.Inv(before) {
        Runs.MarkInvoiceSound(before, iid);
      }
      if iid.Some? && iid.value < |invoices| && invoices[iid.value].status == Unpaid {
        invoices := invoices[iid.value := invoices[iid.value].(status := InvoicePaid)];
      }
    }

    /** Approves by payment row, settling the linked invoice. */
    method ApprovePayment(oid: nat, recording: bool) returns (r: Outcome)
      requires Valid()
      modifies this
      ensures (Snapshot(), r) == Shop.ApprovePayment(old(Snapshot()), oid, recording)
      ensures old(Runs.Inv(Snapshot())) ==> Runs.Inv(Snapshot()) && Runs.Kept(old(Snapshot()), Snapshot())
    {
      hide Runs.Inv, Runs.Kept;
      ghost var before := Snapshot();
      if Runs.Inv(before) {
        Runs.StepSound(before, Runs.ApproveByPayment(oid, recording));
      }
      var payment := PaymentOf(Snapshot(), oid);
      if payment.None? {
        return Err(NoPayment);
      }
      if payment.value.status == PayApproved {
        return Ok(AlreadyDone);
      }
      if payment.value.status in {PayRejected, PayExpired, PayCancelled, PayFailed} {
        return Err(NotApprovable);
      }
      r := ApproveReceipt(oid, recording);
      if r.Ok? {
        MarkInvoicePaid(payment.value.invoice);
      }
    }

    method RejectPayment(oid: nat, reasonGiven: bool) returns (r: Outcome)
      requires Valid()
      modifies this`orders, this`payments
      ensures (Snapshot(), r) == Shop.RejectPayment(old(Snapshot()), oid, reasonGiven)
      ensures old(Runs.Inv(Snapshot())) ==> Runs.Inv(Snapshot()) && Runs.Kept(old(Snapshot()), Snapshot())
    {
      hide Runs.Inv, Runs.Kept;
      ghost var before := Snapshot();
      if Runs.Inv(before) {
        Runs.StepSound(before, Runs.Reject(oid, reasonGiven));
      }
      if !reasonGiven {
        return Err(ReasonRequired);
      }
      var payment := PaymentOf(Snapshot(), oid);
      if payment.None? {
        return Err(NoPayment);
      }
      if payment.value.status == PayRejected {
        return Ok(AlreadyDone);
      }
      if payment.value.status == PayApproved {
        return Err(CannotReject);
      }
      r := RejectReceipt(oid, reasonGiven);
    }

    method CancelOrder(oid: nat, owner: Option<nat>) returns (r: Outcome)
      modifies this`orders
      ensures (Snapshot(), r) == Cancel(old(Snapshot()), oid, owner)
      ensures old(Runs.Inv(Snapshot())) ==> Runs.Inv(Snapshot()) && Runs.Kept(old(Snapshot()), Snapshot())
    {
      hide Runs.Inv, Runs.Kept;
      ghost var before := Snapshot();
      if Runs.Inv(before) {
        Runs.StepSound(before, Runs.CancelOrder(oid, owner));
      }
      if oid >= |orders| {
        return Ok(Nothing);
      }
      var order := orders[oid];
      if owner.Some? && order.user != owner.value {
        return Err(NotYours);
      }
      if order.status != PendingPayment && order.status != WaitingAdmin {
        return Ok(AlreadyDone);
      }
      orders := orders[oid := order.(status := Cancelled)];
      return Ok(Changed);
    }

    /** Attaches a valid coupon to a pending order and recomputes what is to be paid. */
    method ApplyCouponToOrder(oid: nat, code: Option<nat>, user: nat, enabled: bool, now: int) returns (r: Outcome)
      modifies this`orders
      ensures (Snapshot(), r) == ApplyCoupon(old(Snapshot()), oid, code, user, enabled, now)
      ensures old(Runs.Inv(Snapshot())) ==> Runs.Inv(Snapshot()) && Runs.Kept(old(Snapshot()), Snapshot())
    {
      hide Runs.Inv, Runs.Kept;
      ghost var before := Snapshot();
      if Runs.Inv(before) {
        Runs.StepSound(before, Runs.UseCoupon(oid, code, user, enabled, now));
      }
      if oid >= |orders| {
        return Err(NoOrder);
      }
      var order := orders[oid];
      if order.user != user {
        return Err(NotYours);
      }
      if order.status != PendingPayment {
        return Err(Locked);
      }
      var coupon, uses := None, 0;
      if code.Some? && code.value < |coupons| {
        coupon, uses := Some(coupons[code.value]), UserUses(usages, code.value, user);
      }
      var checked := Validate(enabled, coupon, now, uses, order.product, order.kind, order.action, order.amount);
      if checked.Err? {
        return Err(CouponRefused(checked.error));
      }
      order := order.(coupon := code, discount := checked.value);
      order := order.(final := if order.amount - order.discount < 0 then 0 else order.amount - order.discount);
      orders := orders[oid := order];
      return Ok(Changed);
    }

    /** Detaches the coupon of a pending order. */
    method RemoveCouponFromOrder(oid: nat, user: nat) returns (r: Outcome)
      modifies this`orders
      ensures (Snapshot(), r) == RemoveCoupon(old(Snapshot()), oid, user)
      ensures old(Runs.Inv(Snapshot())) ==> Runs.Inv(Snapshot()) && Runs.Kept(old(Snapshot()), Snapshot())
    {
      hide Runs.Inv, Runs.Kept;
      ghost var before := Snapshot();
      if Runs.Inv(before) {
        Runs.StepSound(before, Runs.DropCoupon(oid, user));
      }
      if oid >= |orders| {
        return Err(NoOrder);
      }
      var order := orders[oid];
      if order.user != user {
        return Err(NotYours);
      }
      if order.status != PendingPayment {
        return Err(Locked);
      }
      if order.coupon.None? {
        return Ok(Nothing);
      }
      order := order.(coupon := None, discount := 0);
      orders := orders[oid := order.(final := order.amount)];
      return Ok(Changed);
    }

    /** Expires the pending payments among the stale rows. */
    method ExpireOldPendingPayments(stale: set<nat>) returns (count: nat)
      modifies this`payments
      ensures Snapshot() == ExpirePayments(old(Snapshot()), stale)
      ensures count == |StalePayments(old(payments), stale)|
      ensures forall i :: 0 <= i < |payments| && i in stale && payments[i].Some? ==> payments[i].value.status != Pending
      ensures old(Runs.Inv(Snapshot())) ==> Runs.Inv(Snapshot()) && Runs.Kept(old(Snapshot()), Snapshot())
    {
      hide Runs.Inv, Runs.Kept;
      ghost var before := Snapshot();
      if Runs.Inv(before) {
        Runs.StepSound(before, Runs.AgePayments(stale));
      }
      count := 0;
      for i := 0 to |payments|
        invariant |payments| == |old(payments)|
        invariant count == |StalePayments(old(payments)[..i], stale)|
        invariant forall k :: 0 <= k < i ==>
                    payments[k] == if k in stale then ExpiredPayment(old(payments)[k]) else old(payments)[k]
        invariant forall k :: i <= k < |payments| ==> payments[k] == old(payments)[k]
      {
        OneMorePayment(old(payments), i, stale);
        if i in stale && payments[i].Some? && payments[i].value.status == Pending {
          payments := payments[i := Some(payments[i].value.(status := PayExpired))];
          count := count + 1;
        }
      }
      assert old(payments)[..|payments|] == old(payments);
    }

    /** Expires the unpaid invoices among the stale rows. */
    method ExpireOldUnpaidInvoices(stale: set<nat>) returns (count: nat)
      modifies this`invoices
      ensures Snapshot() == ExpireInvoices(old(Snapshot()), stale)
      ensures count == |StaleInvoices(old(invoices), stale)|
      ensures forall i :: 0 <= i < |invoices| && i in stale ==> invoices[i].status != Unpaid
      ensures old(Runs.Inv(Snapshot())) ==> Runs.Inv(Snapshot()) && Runs.Kept(old(Snapshot()), Snapshot())
    {
      hide Runs.Inv, Runs.Kept;
      ghost var before := Snapshot();
      if Runs.Inv(before) {
        Runs.StepSound(before, Runs.AgeInvoices(stale));
      }
      count := 0;
      for i := 0 to |invoices|
        invariant |invoices| == |old(invoices)|
        invariant count == |StaleInvoices(old(invoices)[..i], stale)|
        invariant forall k :: 0 <= k < i ==>
                    invoices[k] == if k in stale then ExpiredInvoice(old(invoices)[k]) else old(invoices)[k]
        invariant forall k :: i <= k < |invoices| ==> invoices[k] == old(invoices)[k]
      {
        OneMoreInvoice(old(invoices), i, stale);
        if i in stale && invoices[i].status == Unpaid {
          invoices := invoices[i := invoices[i].(status := InvoiceExpired)];
          count := count + 1;
        }
      }
      assert old(invoices)[..|invoices|] == old(invoices);
    }
  }

  lemma OneMorePayment(payments: seq<Option<Payment>>, i: nat, stale: set<nat>)
    requires i < |payments|
    ensures |StalePayments(payments[..i + 1], stale)| ==
            |StalePayments(payments[..i], stale)|
            + (if i in stale && payments[i].Some? && payments[i].value.status == Pending then 1 else 0)
  {
    var now, later := StalePayments(payments[..i], stale), StalePayments(payments[..i + 1], stale);
    assert i !in now && forall k :: k in later && k != i ==> k in now;
    assert later == now || later == now + {i};
  }

  lemma OneMoreInvoice(invoices: seq<Invoice>, i: nat, stale: set<nat>)
    requires i < |invoices|
    ensures |StaleInvoices(invoices[..i + 1], stale)| ==
            |StaleInvoices(invoices[..i], stale)| + (if i in stale && invoices[i].status == Unpaid then 1 else 0)
  {
    var now, later := StaleInvoices(invoices[..i], stale), StaleInvoices(invoices[..i + 1], stale);
    assert i !in now && forall k :: k in later && k != i ==> k in now;
    assert later == now || later == now + {i};
  }

  /** Changing the latest invoice of an order, but not its order, leaves it the latest. */
  lemma {:induction false} LatestStays(invoices: seq<Invoice>, iid: nat, inv: Invoice)
    requires iid < |invoices| && inv.order == invoices[iid].order
    requires LatestInvoice(invoices, inv.order) == Some(iid)
    ensures LatestInvoice(invoices[iid := inv], inv.order) == Some(iid)
  {
    if iid == |invoices| - 1 {
    } else {
      var init := invoices[..|invoices| - 1];
      assert invoices[iid := inv][..|invoices| - 1] == init[iid := inv];
      LatestStays(init, iid, inv);
    }
  }
}
