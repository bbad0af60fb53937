/** What holds over every run of the shop: coupled statuses, money fields, coupon accounting. */
module ShopRuns {
  import opened Common
  import opened Discounts
  import opened Shop

  datatype Op =
    | Create(user: nat, product: nat, request: Request, numbered: bool)
    | OpenPayment(oid: nat)
    | OpenInvoice(oid: nat)
    | Start(iid: nat, methodActive: bool)
    | Submit(oid: nat, user: nat, fileOk: bool)
    | Delete(oid: nat)
    | Approve(oid: nat, recorded: bool)
    | ApproveByPayment(oid: nat, recorded: bool)
    | Reject(oid: nat, reasonGiven: bool)
    | CancelOrder(oid: nat, owner: Option<nat>)
    | Deliver(oid: nat, delivered: bool)
    | WalletPay(oid: nat, user: nat, enabled: bool, funds: bool, recorded: bool)
    | WalletPayInvoice(iid: nat, user: nat, enabled: bool, funds: bool, recorded: bool)
    | UseCoupon(oid: nat, code: Option<nat>, user: nat, enabled: bool, now: int)
    | DropCoupon(oid: nat, user: nat)
    | EditCoupon(cid: Option<nat>, fields: Coupon)
    | AgePayments(stale: set<nat>)
    | AgeInvoices(stale: set<nat>)

  function Step(t: Tables, op: Op): (r: Tables)
    requires Wide(t)
    ensures Wide(r)
  {
    match op
    case Create(user, product, request, numbered) => CreateOrder(t, user, product, request, numbered).0
    case OpenPayment(oid) => CreatePayment(t, oid)
    case OpenInvoice(oid) => CreateInvoice(t, oid)
    case Start(iid, methodActive) => StartPayment(t, iid, methodActive).0
    case Submit(oid, user, fileOk) => SubmitReceipt(t, oid, user, fileOk).0
    case Delete(oid) => DeleteReceipt(t, oid).0
    case Approve(oid, recorded) => ApproveReceipt(t, oid, recorded).0
    case ApproveByPayment(oid, recorded) => ApprovePayment(t, oid, recorded).0
    case Reject(oid, reasonGiven) => RejectPayment(t, oid, reasonGiven).0
    case CancelOrder(oid, owner) => Cancel(t, oid, owner).0
    case Deliver(oid, delivered) => RecordDelivery(t, oid, delivered)
    case WalletPay(oid, user, enabled, funds, recorded) => PayWithWallet(t, oid, user, enabled, funds, recorded).0
    case WalletPayInvoice(iid, user, enabled, funds, recorded) =>
      PayInvoiceWithWallet(t, iid, user, enabled, funds, recorded).0
    case UseCoupon(oid, code, user, enabled, now) => ApplyCoupon(t, oid, code, user, enabled, now).0
    case DropCoupon(oid, user) => RemoveCoupon(t, oid, user).0
    case EditCoupon(cid, fields) => SaveCoupon(t, cid, fields)
    case AgePayments(stale) => ExpirePayments(t, stale)
    case AgeInvoices(stale) => ExpireInvoices(t, stale)
  }

  function Run(t: Tables, ops: seq<Op>): (r: Tables)
    requires Wide(t)
    ensures Wide(r)
    decreases |ops|
  {
    if ops == [] then t else Run(Step(t, ops[0]), ops[1..])
  }

  // ---------------------------------------------------------------------------
  // The coupled invariant
  // ---------------------------------------------------------------------------

  /** Which payment an order status goes with. */
  predicate Coupled(status: OrderStatus, p: Option<Payment>) {
    && status != Failed
    && (status == WaitingAdmin ==> p.Some? && p.value.status == ReceiptSubmitted)
    && (status.Paid() <==> p.Some? && p.value.status == PayApproved)
    && (status == Rejected <==> p.Some? && p.value.status == PayRejected)
    && (p.Some? && p.value.status == ReceiptSubmitted ==> status == WaitingAdmin || status == Cancelled)
    && (p.Some? ==> p.value.status != PayFailed && p.value.status != PayCancelled)
  }

  predicate MoneyAdds(o: Order) {
    && o.amount > 0
    && 0 <= o.discount <= o.amount
    && o.final == o.amount - o.discount
    && (o.coupon.None? ==> o.discount == 0)
  }

  /** The invoice a payment names is one of its own order's. */
  predicate InvoiceLinked(t: Tables, oid: nat)
    requires Wide(t) && oid < |t.orders|
  {
    var p := t.payments[oid];
    p.Some? && p.value.invoice.Some? ==>
      p.value.invoice.value < |t.invoices| && t.invoices[p.value.invoice.value].order == oid
  }

  ghost predicate OrdersSound(t: Tables)
    requires Wide(t)
  {
    forall oid :: 0 <= oid < |t.orders| ==>
      && Coupled(t.orders[oid].status, t.payments[oid])
      && MoneyAdds(t.orders[oid])
      && InvoiceLinked(t, oid)
  }

  function UsesOf(usages: seq<Usage>, cid: nat): nat {
    if usages == [] then 0
    else UsesOf(usages[..|usages| - 1], cid) + (if usages[|usages| - 1].coupon == cid then 1 else 0)
  }

  /** A usage row repeats what its paid order says. */
  predicate UsageSound(t: Tables, u: Usage) {
    && u.order < |t.orders| && u.coupon < |t.coupons|
    && var o := t.orders[u.order];
       o.status.Paid() && o.coupon == Some(u.coupon) && u.discount == o.discount && u.user == o.user
  }

  ghost predicate UsagesSound(t: Tables) {
    && (forall k :: 0 <= k < |t.usages| ==> UsageSound(t, t.usages[k]))
    && (forall j, k :: 0 <= j < k < |t.usages| ==> t.usages[j].order != t.usages[k].order)
    && (forall c :: 0 <= c < |t.coupons| ==> t.coupons[c].usedCount == UsesOf(t.usages, c))
  }

  ghost predicate Inv(t: Tables) {
    Wide(t) && OrdersSound(t) && UsagesSound(t)
  }

  // ---------------------------------------------------------------------------
  // What is final
  // ---------------------------------------------------------------------------

  predicate OrderKept(a: Order, b: Order) {
    && a.user == b.user && a.amount == b.amount
    && (a.status.Paid() ==> b.status.Paid())
    && (a.status == Delivered ==> b.status == Delivered)
    && (a.status == Rejected ==> b.status == Rejected)
    && (a.status == Cancelled ==> b.status == Cancelled)
    && (a.status.Paid() ==> a.coupon == b.coupon && a.discount == b.discount && a.final == b.final)
  }

  predicate PaymentKept(a: Option<Payment>, b: Option<Payment>) {
    a.Some? ==>
      && b.Some?
      && (a.value.status == PayApproved ==> b.value.status == PayApproved && b.value.amount == a.value.amount)
      && (a.value.status == PayRejected ==> b.value.status == PayRejected)
      && (a.value.status == PayExpired ==> b.value.status == PayExpired)
  }

  /** Paid orders, settled or expired documents and usage rows are never taken back. */
  ghost predicate Kept(a: Tables, b: Tables) {
    && Wide(a) && Wide(b)
    && |a.orders| <= |b.orders| && |a.invoices| <= |b.invoices| && |a.coupons| <= |b.coupons|
    && (forall i :: 0 <= i < |a.orders| ==>
          OrderKept(a.orders[i], b.orders[i]) && PaymentKept(a.payments[i], b.payments[i]))
    && (forall i :: 0 <= i < |a.invoices| ==>
          && b.invoices[i].order == a.invoices[i].order
          && (a.invoices[i].status != Unpaid ==> b.invoices[i].status == a.invoices[i].status))
    && a.usages <= b.usages
  }

  lemma KeptTransitive(a: Tables, b: Tables, c: Tables)
    requires Kept(a, b) && Kept(b, c)
    ensures Kept(a, c)
  {
    forall i | 0 <= i < |a.orders|
      ensures OrderKept(a.orders[i], c.orders[i]) && PaymentKept(a.payments[i], c.payments[i])
    {
      assert OrderKept(a.orders[i], b.orders[i]) && OrderKept(b.orders[i], c.orders[i]);
    }
  }

  /** Replaces one order row and its payment row. */
  function Put(t: Tables, oid: nat, o: Order, p: Option<Payment>): Tables
    requires Wide(t) && oid < |t.orders|
  {
    t.(orders := t.orders[oid := o], payments := t.payments[oid := p])
  }

  /** A change of one order and its payment is sound if the new pair is, and undoes nothing final. */
  lemma PutSound(t: Tables, oid: nat, o: Order, p: Option<Payment>)
    requires Inv(t) && oid < |t.orders|
    requires Coupled(o.status, p) && MoneyAdds(o)
    requires p.Some? && p.value.invoice.Some? ==>
               p.value.invoice.value < |t.invoices| && t.invoices[p.value.invoice.value].order == oid
    requires OrderKept(t.orders[oid], o) && PaymentKept(t.payments[oid], p)
    ensures Inv(Put(t, oid, o, p)) && Kept(t, Put(t, oid, o, p))
  {
    var after := Put(t, oid, o, p);
    forall i | 0 <= i < |after.orders|
      ensures Coupled(after.orders[i].status, after.payments[i]) && MoneyAdds(after.orders[i])
      ensures InvoiceLinked(after, i)
    {
      assert InvoiceLinked(t, i);
    }
    forall k | 0 <= k < |after.usages|
      ensures UsageSound(after, after.usages[k])
    {
      assert UsageSound(t, t.usages[k]);
    }
  }

  lemma RecordUsageSound(t: Tables, oid: nat)
    requires Inv(t) && oid < |t.orders| && t.orders[oid].status.Paid()
    ensures Inv(RecordUsage(t, oid).0) && Kept(t, RecordUsage(t, oid).0)
  {
    var (after, recorded) := RecordUsage(t, oid);
    if recorded {
      var cid := t.orders[oid].coupon.value;
      assert after.usages[..|t.usages|] == t.usages;
      forall k | 0 <= k < |t.usages|
        ensures t.usages[k].order != oid
      {
        assert UsageSound(t, t.usages[k]);
      }
      forall k | 0 <= k < |after.usages|
        ensures UsageSound(after, after.usages[k])
      {
        assert k < |t.usages| ==> after.usages[k] == t.usages[k];
        assert k < |t.usages| ==> UsageSound(t, t.usages[k]);
      }
      forall i | 0 <= i < |after.orders|
        ensures InvoiceLinked(after, i)
      {
        assert InvoiceLinked(t, i);
      }
    }
  }

  /** The move to paid, with or without its coupon usage on record. */
  lemma PaidSound(t: Tables, oid: nat, recorded: bool)
    requires Inv(t) && oid < |t.orders| && t.payments[oid].Some?
    requires t.orders[oid].status == PendingPayment || t.orders[oid].status == WaitingAdmin
    requires t.payments[oid].value.status == Pending || t.payments[oid].value.status == ReceiptSubmitted
    ensures var paid := MoveBoth(t, oid, Approved, PayApproved);
            var after := if recorded then RecordUsage(paid, oid).0 else paid;
            Inv(after) && Kept(t, after)
  {
    var paid := MoveBoth(t, oid, Approved, PayApproved);
    assert InvoiceLinked(t, oid);
    PutSound(t, oid, paid.orders[oid], paid.payments[oid]);
    if recorded {
      RecordUsageSound(paid, oid);
      KeptTransitive(t, paid, RecordUsage(paid, oid).0);
    }
  }

  lemma MarkInvoiceSound(t: Tables, iid: Option<nat>)
    requires Inv(t)
    ensures Inv(MarkInvoicePaid(t, iid)) && Kept(t, MarkInvoicePaid(t, iid))
  {
    forall i | 0 <= i < |t.orders|
      ensures InvoiceLinked(MarkInvoicePaid(t, iid), i)
    {
      assert InvoiceLinked(t, i);
    }
    assert forall k :: 0 <= k < |t.usages| ==> UsageSound(t, t.usages[k]);
  }

  lemma ApproveSound(t: Tables, oid: nat, recorded: bool)
    requires Inv(t)
    ensures Inv(ApproveReceipt(t, oid, recorded).0) && Kept(t, ApproveReceipt(t, oid, recorded).0)
    ensures Inv(ApprovePayment(t, oid, recorded).0) && Kept(t, ApprovePayment(t, oid, recorded).0)
  {
    if Reviewable(t, oid) {
      PaidSound(t, oid, recorded);
      var after := ApproveReceipt(t, oid, recorded).0;
      MarkInvoiceSound(after, t.payments[oid].value.invoice);
      KeptTransitive(t, after, MarkInvoicePaid(after, t.payments[oid].value.invoice));
    }
  }

  lemma RejectReceiptSound(t: Tables, oid: nat, reasonGiven: bool)
    requires Inv(t)
    ensures Inv(RejectReceipt(t, oid, reasonGiven).0) && Kept(t, RejectReceipt(t, oid, reasonGiven).0)
  {
    KeptReflexive(t);
    if Reviewable(t, oid) && reasonGiven {
      SingleSound(t, Reject(oid, reasonGiven));
      assert RejectReceipt(t, oid, reasonGiven) == RejectPayment(t, oid, reasonGiven);
    }
  }

  lemma CreatePaymentSound(t: Tables, oid: nat)
    requires Inv(t)
    ensures Inv(CreatePayment(t, oid)) && Kept(t, CreatePayment(t, oid))
  {
    if oid < |t.orders| && t.payments[oid].None? {
      PutSound(t, oid, t.orders[oid], Some(Payment(Pending, t.orders[oid].final, None)));
    }
  }

  lemma WalletSound(t: Tables, oid: nat, user: nat, enabled: bool, funds: bool, recorded: bool)
    requires Inv(t)
    ensures var after := PayWithWallet(t, oid, user, enabled, funds, recorded).0;
            Inv(after) && Kept(t, after)
  {
    if Chargeable(t, oid) {
      CreatePaymentSound(t, oid);
      var withRow := CreatePayment(t, oid);
      PaidSound(withRow, oid, recorded);
      var paid := MoveBoth(withRow, oid, Approved, PayApproved);
      KeptTransitive(t, withRow, if recorded then RecordUsage(paid, oid).0 else paid);
    }
  }

  /** The order's payment, if it has one, now names the invoice. */
  function Link(t: Tables, iid: nat): Tables
    requires Wide(t) && iid < |t.invoices|
  {
    var oid := t.invoices[iid].order;
    if oid < |t.payments| && t.payments[oid].Some? then
      SetPayment(t, oid, t.payments[oid].value.(invoice := Some(iid)))
    else t
  }

  lemma LinkSound(t: Tables, iid: nat)
    requires Inv(t) && iid < |t.invoices|
    ensures Inv(Link(t, iid)) && Kept(t, Link(t, iid))
  {
    hide MoneyAdds;
    var oid := t.invoices[iid].order;
    if oid < |t.payments| && t.payments[oid].Some? {
      PutSound(t, oid, t.orders[oid], Some(t.payments[oid].value.(invoice := Some(iid))));
      assert Link(t, iid) == Put(t, oid, t.orders[oid], Some(t.payments[oid].value.(invoice := Some(iid))));
    } else {
      KeptReflexive(t);
    }
  }

  lemma KeptInvoice(a: Tables, b: Tables, iid: nat)
    requires Kept(a, b) && iid < |a.invoices|
    ensures iid < |b.invoices| && b.invoices[iid].order == a.invoices[iid].order
  {
  }

  lemma WalletInvoiceSound(t: Tables, iid: nat, user: nat, enabled: bool, funds: bool, recorded: bool)
    requires Inv(t)
    ensures var after := PayInvoiceWithWallet(t, iid, user, enabled, funds, recorded).0;
            Inv(after) && Kept(t, after)
  {
    if iid < |t.invoices| {
      var oid := t.invoices[iid].order;
      var (paid, r) := PayWithWallet(t, oid, user, enabled, funds, recorded);
      hide PayWithWallet, Inv, Kept;
      KeptReflexive(t);
      WalletSound(t, oid, user, enabled, funds, recorded);
      if r.Ok? && t.invoices[iid].status == Unpaid {
        MarkInvoiceSound(paid, Some(iid));
        var settled := MarkInvoicePaid(paid, Some(iid));
        KeptTransitive(t, paid, settled);
        KeptInvoice(t, settled, iid);
        LinkSound(settled, iid);
        KeptTransitive(t, settled, Link(settled, iid));
      }
    }
  }

  lemma UseCouponSound(t: Tables, oid: nat, code: Option<nat>, user: nat, enabled: bool, now: int)
    requires Inv(t)
    ensures var after := ApplyCoupon(t, oid, code, user, enabled, now).0;
            Inv(after) && Kept(t, after)
  {
    var after := ApplyCoupon(t, oid, code, user, enabled, now).0;
    if after != t {
      DiscountBounds(t.coupons[code.value], t.orders[oid].amount);
      assert InvoiceLinked(t, oid);
      PutSound(t, oid, after.orders[oid], t.payments[oid]);
    }
  }

  lemma {:induction false} UnknownUnused(usages: seq<Usage>, cid: nat)
    requires forall k :: 0 <= k < |usages| ==> usages[k].coupon != cid
    ensures UsesOf(usages, cid) == 0
  {
    if usages == [] {
    } else {
      UnknownUnused(usages[..|usages| - 1], cid);
    }
  }

  lemma SaveCouponSound(t: Tables, cid: Option<nat>, fields: Coupon)
    requires Inv(t)
    ensures Inv(SaveCoupon(t, cid, fields)) && Kept(t, SaveCoupon(t, cid, fields))
  {
    var after := SaveCoupon(t, cid, fields);
    forall k | 0 <= k < |t.usages|
      ensures UsageSound(after, t.usages[k]) && t.usages[k].coupon < |t.coupons|
    {
      assert UsageSound(t, t.usages[k]);
    }
    forall i | 0 <= i < |t.orders|
      ensures InvoiceLinked(after, i)
    {
      assert InvoiceLinked(t, i);
    }
    UnknownUnused(t.usages, |t.coupons|);
  }

  lemma NewOrderSound(t: Tables, op: Op)
    requires Inv(t) && op.Create?
    ensures Inv(Step(t, op)) && Kept(t, Step(t, op))
  {
    var after := Step(t, op);
    forall i | 0 <= i < |after.orders|
      ensures Coupled(after.orders[i].status, after.payments[i]) && MoneyAdds(after.orders[i])
      ensures InvoiceLinked(after, i)
    {
      assert i < |t.orders| ==> InvoiceLinked(t, i);
    }
    assert forall k :: 0 <= k < |t.usages| ==> UsageSound(t, t.usages[k]);
  }

  lemma NewInvoiceSound(t: Tables, oid: nat)
    requires Inv(t)
    ensures Inv(CreateInvoice(t, oid)) && Kept(t, CreateInvoice(t, oid))
  {
    var after := CreateInvoice(t, oid);
    forall i | 0 <= i < |t.orders|
      ensures InvoiceLinked(after, i)
    {
      assert InvoiceLinked(t, i);
    }
    assert forall k :: 0 <= k < |t.usages| ==> UsageSound(t, t.usages[k]);
  }

  lemma AgingSound(t: Tables, op: Op)
    requires Inv(t) && (op.AgePayments? || op.AgeInvoices?)
    ensures Inv(Step(t, op)) && Kept(t, Step(t, op))
  {
    var after := Step(t, op);
    forall i | 0 <= i < |after.orders|
      ensures Coupled(after.orders[i].status, after.payments[i]) && InvoiceLinked(after, i)
      ensures PaymentKept(t.payments[i], after.payments[i])
    {
      assert InvoiceLinked(t, i);
    }
    assert forall k :: 0 <= k < |t.usages| ==> UsageSound(t, t.usages[k]);
  }

  /** A call that touches one order and its payment, soundly. */
  ghost predicate PutsOne(t: Tables, after: Tables, oid: nat)
    requires Inv(t) && Wide(after)
  {
    && oid < |t.orders| && |after.orders| == |t.orders|
    && after == Put(t, oid, after.orders[oid], after.payments[oid])
    && Coupled(after.orders[oid].status, after.payments[oid]) && MoneyAdds(after.orders[oid])
    && OrderKept(t.orders[oid], after.orders[oid]) && PaymentKept(t.payments[oid], after.payments[oid])
    && InvoiceLinked(after, oid)
  }

  lemma PutsOneSound(t: Tables, after: Tables, oid: nat)
    requires Inv(t) && Wide(after) && PutsOne(t, after, oid)
    ensures Inv(after) && Kept(t, after)
  {
    hide Coupled, MoneyAdds, OrderKept, PaymentKept, Inv, Kept;
    PutSound(t, oid, after.orders[oid], after.payments[oid]);
  }

  lemma ReceiptPutsOne(t: Tables, op: Op)
    requires Inv(t) && (op.Submit? || op.Delete? || op.Reject?)
    ensures Step(t, op) == t || PutsOne(t, Step(t, op), op.oid)
  {
    assert op.oid < |t.orders| ==> InvoiceLinked(t, op.oid);
  }

  lemma OrderCallPutsOne(t: Tables, op: Op)
    requires Inv(t) && (op.CancelOrder? || op.Deliver? || op.DropCoupon?)
    ensures Step(t, op) == t || PutsOne(t, Step(t, op), op.oid)
  {
    assert op.oid < |t.orders| ==> InvoiceLinked(t, op.oid);
  }

  lemma StartPutsOne(t: Tables, op: Op)
    requires Inv(t) && op.Start?
    ensures Step(t, op) == t || (op.iid < |t.invoices| && PutsOne(t, Step(t, op), t.invoices[op.iid].order))
  {
    assert op.iid < |t.invoices| && t.invoices[op.iid].order < |t.orders| ==>
             InvoiceLinked(t, t.invoices[op.iid].order);
  }

  lemma KeptReflexive(t: Tables)
    requires Inv(t)
    ensures Kept(t, t)
  {
  }

  /** Calls that touch one order and its payment. */
  lemma SingleSound(t: Tables, op: Op)
    requires Inv(t)
    requires op.Start? || op.Submit? || op.Delete? || op.Reject? || op.CancelOrder? || op.Deliver? || op.DropCoupon?
    ensures Inv(Step(t, op)) && Kept(t, Step(t, op))
  {
    hide Step, Inv, Kept, PutsOne;
    KeptReflexive(t);
    if op.Start? {
      StartPutsOne(t, op);
    } else if op.Submit? || op.Delete? || op.Reject? {
      ReceiptPutsOne(t, op);
    } else {
      OrderCallPutsOne(t, op);
    }
    if Step(t, op) != t {
      PutsOneSound(t, Step(t, op), if op.Start? then t.invoices[op.iid].order else op.oid);
    }
  }

  lemma StepSound(t: Tables, op: Op)
    requires Inv(t)
    ensures Inv(Step(t, op)) && Kept(t, Step(t, op))
  {
    hide Inv, Kept, ApproveReceipt, ApprovePayment, PayWithWallet, PayInvoiceWithWallet, ApplyCoupon, SaveCoupon;
    match op
    case Create(_, _, _, _) => NewOrderSound(t, op);
    case OpenInvoice(oid) => NewInvoiceSound(t, oid);
    case OpenPayment(oid) => CreatePaymentSound(t, oid);
    case Approve(oid, recorded) => ApproveSound(t, oid, recorded);
    case ApproveByPayment(oid, recorded) => ApproveSound(t, oid, recorded);
    case WalletPay(oid, user, enabled, funds, recorded) => WalletSound(t, oid, user, enabled, funds, recorded);
    case WalletPayInvoice(iid, user, enabled, funds, recorded) =>
      WalletInvoiceSound(t, iid, user, enabled, funds, recorded);
    case UseCoupon(oid, code, user, enabled, now) => UseCouponSound(t, oid, code, user, enabled, now);
    case EditCoupon(cid, fields) => SaveCouponSound(t, cid, fields);
    case AgePayments(_) => AgingSound(t, op);
    case AgeInvoices(_) => AgingSound(t, op);
    case _ => SingleSound(t, op);
  }

  /**
   Over every run of the shop: order and payment statuses stay coupled, money fields add up,
   every coupon's count equals its usage rows, an order has at most one, with the discount the
   order carries, and nothing paid, settled or expired is taken back.
   */
  lemma {:induction false} RunSound(t: Tables, ops: seq<Op>)
    requires Inv(t)
    ensures Inv(Run(t, ops)) && Kept(t, Run(t, ops))
    decreases |ops|
  {
    if ops == [] {
    } else {
      StepSound(t, ops[0]);
      RunSound(Step(t, ops[0]), ops[1..]);
      KeptTransitive(t, Step(t, ops[0]), Run(t, ops));
    }
  }

  // ---------------------------------------------------------------------------
  // Consequences
  // ---------------------------------------------------------------------------

  /** A consumed coupon is on record for good, with the discount its order still carries. */
  lemma UsageIsForever(t: Tables, ops: seq<Op>, k: nat)
    requires Inv(t) && k < |t.usages|
    ensures var later := Run(t, ops);
            && k < |later.usages| && later.usages[k] == t.usages[k]
            && t.usages[k].order < |later.orders|
            && later.orders[t.usages[k].order].coupon == Some(t.usages[k].coupon)
            && later.orders[t.usages[k].order].discount == t.usages[k].discount
  {
    RunSound(t, ops);
    assert UsageSound(Run(t, ops), Run(t, ops).usages[k]);
  }

  /** Once a payment has expired its order can never be paid: it stays unpaid or is cancelled. */
  lemma ExpiredPaymentStrandsOrder(t: Tables, ops: seq<Op>, oid: nat)
    requires Inv(t) && oid < |t.orders|
    requires t.payments[oid].Some? && t.payments[oid].value.status == PayExpired
    ensures var later := Run(t, ops);
            && oid < |later.orders| && later.payments[oid].Some? && later.payments[oid].value.status == PayExpired
            && (later.orders[oid].status == PendingPayment || later.orders[oid].status == Cancelled)
  {
    RunSound(t, ops);
    var later := Run(t, ops);
    assert PaymentKept(t.payments[oid], later.payments[oid]);
    assert Coupled(later.orders[oid].status, later.payments[oid]);
  }

  /** Payments and invoices never ask for less than nothing. */
  ghost predicate AmountsSane(t: Tables) {
    && (forall i :: 0 <= i < |t.payments| && t.payments[i].Some? ==> t.payments[i].value.amount >= 0)
    && (forall i :: 0 <= i < |t.invoices| ==> t.invoices[i].final >= 0)
  }

  lemma OpeningKeepsAmounts(t: Tables, op: Op)
    requires Inv(t) && AmountsSane(t) && (op.OpenPayment? || op.OpenInvoice? || op.Start?)
    ensures AmountsSane(Step(t, op))
  {
    assert forall i :: 0 <= i < |t.orders| ==> MoneyAdds(t.orders[i]);
  }

  lemma WalletKeepsAmounts(t: Tables, oid: nat, user: nat, enabled: bool, funds: bool, recorded: bool)
    requires Inv(t) && AmountsSane(t)
    ensures AmountsSane(PayWithWallet(t, oid, user, enabled, funds, recorded).0)
  {
    assert oid < |t.orders| ==> MoneyAdds(t.orders[oid]);
  }

  lemma SettlingKeepsAmounts(t: Tables, iid: nat, user: nat, enabled: bool, funds: bool, recorded: bool)
    requires Inv(t) && AmountsSane(t)
    ensures AmountsSane(PayInvoiceWithWallet(t, iid, user, enabled, funds, recorded).0)
  {
    if iid < |t.invoices| {
      WalletKeepsAmounts(t, t.invoices[iid].order, user, enabled, funds, recorded);
    }
    hide PayWithWallet;
  }

  lemma ApprovingKeepsAmounts(t: Tables, op: Op)
    requires Inv(t) && AmountsSane(t) && (op.Approve? || op.ApproveByPayment? || op.Reject?)
    ensures AmountsSane(Step(t, op))
  {
  }

  lemma OtherStepKeepsAmounts(t: Tables, op: Op)
    requires Inv(t) && AmountsSane(t)
    requires !op.OpenPayment? && !op.OpenInvoice? && !op.Start? && !op.WalletPay? && !op.WalletPayInvoice?
    requires !op.Approve? && !op.ApproveByPayment? && !op.Reject?
    ensures AmountsSane(Step(t, op))
  {
  }

  lemma StepKeepsAmounts(t: Tables, op: Op)
    requires Inv(t) && AmountsSane(t)
    ensures AmountsSane(Step(t, op))
  {
    hide AmountsSane, PayWithWallet, PayInvoiceWithWallet;
    match op
    case WalletPay(oid, user, enabled, funds, recorded) => WalletKeepsAmounts(t, oid, user, enabled, funds, recorded);
    case WalletPayInvoice(iid, user, enabled, funds, recorded) =>
      SettlingKeepsAmounts(t, iid, user, enabled, funds, recorded);
    case OpenPayment(_) => OpeningKeepsAmounts(t, op);
    case OpenInvoice(_) => OpeningKeepsAmounts(t, op);
    case Start(_, _) => OpeningKeepsAmounts(t, op);
    case Approve(_, _) => ApprovingKeepsAmounts(t, op);
    case ApproveByPayment(_, _) => ApprovingKeepsAmounts(t, op);
    case Reject(_, _) => ApprovingKeepsAmounts(t, op);
    case _ => OtherStepKeepsAmounts(t, op);
  }

  /** An order has at most one unpaid invoice, and that is its latest. */
  ghost predicate OneOpenInvoice(t: Tables) {
    forall i, j :: 0 <= i < j < |t.invoices| && t.invoices[i].order == t.invoices[j].order ==>
      t.invoices[i].status != Unpaid
  }

  lemma OnlyOpeningAddsInvoices(t: Tables, op: Op)
    requires Wide(t) && !op.OpenInvoice?
    ensures |Step(t, op).invoices| == |t.invoices|
  {
  }

  lemma OpeningKeepsOne(t: Tables, oid: nat)
    requires OneOpenInvoice(t)
    ensures OneOpenInvoice(CreateInvoice(t, oid))
  {
  }

  /** However often a checkout is opened again, an order never has two unpaid invoices. */
  lemma {:induction false} RunKeepsOneOpenInvoice(t: Tables, ops: seq<Op>)
    requires Inv(t) && OneOpenInvoice(t)
    ensures OneOpenInvoice(Run(t, ops))
    decreases |ops|
  {
    hide Inv, Step;
    if ops == [] {
    } else {
      StepSound(t, ops[0]);
      StepKeepsOneOpenInvoice(t, ops[0]);
      RunKeepsOneOpenInvoice(Step(t, ops[0]), ops[1..]);
    }
  }

  lemma StepKeepsOneOpenInvoice(t: Tables, op: Op)
    requires Inv(t) && OneOpenInvoice(t)
    ensures OneOpenInvoice(Step(t, op))
  {
    StepSound(t, op);
    if op.OpenInvoice? {
      OpeningKeepsOne(t, op.oid);
    } else {
      OnlyOpeningAddsInvoices(t, op);
      SettledStaysOne(t, Step(t, op));
    }
  }

  lemma SettledStaysOne(a: Tables, b: Tables)
    requires Kept(a, b) && |a.invoices| == |b.invoices| && OneOpenInvoice(a)
    ensures OneOpenInvoice(b)
  {
  }

  ghost predicate PaidAfter(t: Tables, ops: seq<Op>, oid: nat)
    requires Wide(t)
  {
    oid < |Run(t, ops).orders| && Run(t, ops).orders[oid].status.Paid()
  }

  /** Some course of events ends with the order paid. */
  ghost predicate CanBePaid(t: Tables, oid: nat)
    requires Wide(t)
  {
    exists ops :: PaidAfter(t, ops, oid)
  }

  predicate HasExpired(p: Option<Payment>) {
    p.Some? && p.value.status == PayExpired
  }

  lemma OneStepRun(t: Tables, op: Op)
    requires Wide(t)
    ensures Run(t, [op]) == Step(t, op)
  {
    hide Step;
    assert [op][1..] == [];
  }

  /**
   An order can still get paid, by some course of events, if and only if it is paid already, or
   it is open and its payment has not expired.
   */
  lemma CanBePaidIff(t: Tables, oid: nat)
    requires Inv(t) && oid < |t.orders|
    ensures var o := t.orders[oid];
            CanBePaid(t, oid) <==>
            || o.status.Paid()
            || ((o.status == PendingPayment || o.status == WaitingAdmin) && !HasExpired(t.payments[oid]))
  {
    var o := t.orders[oid];
    assert Coupled(o.status, t.payments[oid]);
    if o.status.Paid() {
      assert PaidAfter(t, [], oid);
    } else if o.status == PendingPayment && !HasExpired(t.payments[oid]) {
      OneStepRun(t, WalletPay(oid, o.user, true, true, false));
      assert PaidAfter(t, [WalletPay(oid, o.user, true, true, false)], oid);
    } else if o.status == WaitingAdmin {
      OneStepRun(t, Approve(oid, false));
      assert PaidAfter(t, [Approve(oid, false)], oid);
    } else {
      forall ops
        ensures !PaidAfter(t, ops, oid)
      {
        ClosedStaysUnpaid(t, ops, oid);
      }
    }
  }

  lemma ClosedStaysUnpaid(t: Tables, ops: seq<Op>, oid: nat)
    requires Inv(t) && oid < |t.orders|
    requires t.orders[oid].status == Rejected || t.orders[oid].status == Cancelled || HasExpired(t.payments[oid])
    ensures !PaidAfter(t, ops, oid)
  {
    hide Run;
    RunSound(t, ops);
    var later := Run(t, ops);
    assert OrderKept(t.orders[oid], later.orders[oid]) && PaymentKept(t.payments[oid], later.payments[oid]);
    assert Coupled(later.orders[oid].status, later.payments[oid]);
  }

  // ---------------------------------------------------------------------------
  // The failing cases happen
  // ---------------------------------------------------------------------------

  const NOTHING := Tables([], [], [], [], [])

  /** An ordinary request for a licence that costs ten. */
  function SomeRequest(): Request {
    Request(CardToCard, Some(Ware(true, false, LicenseProduct, 10, false, NewPurchase, false, false)),
            ShopSettings(true, true, true), Plain)
  }

  lemma ThreeStepRun(t: Tables, a: Op, b: Op, c: Op)
    requires Wide(t)
    ensures Run(t, [a, b, c]) == Step(Step(Step(t, a), b), c)
  {
    hide Step;
    assert [a, b, c][1..] == [b, c] && [b, c][1..] == [c];
    OneStepRun(Step(Step(t, a), b), c);
  }

  /** A customer orders, opens a payment, and lets it grow old. */
  function OrderPayWait(): seq<Op> {
    [Create(0, 0, SomeRequest(), true), OpenPayment(0), AgePayments({0})]
  }

  /** A customer orders, opens the invoice, and cancels. */
  function OrderInvoiceCancel(): seq<Op> {
    [Create(0, 0, SomeRequest(), true), OpenInvoice(0), CancelOrder(0, None)]
  }

  /** One open order whose payment has expired. */
  function OpenWithExpiredPayment(): Tables {
    Tables([Order(0, 0, LicenseProduct, NewPurchase, 10, 0, 10, None, PendingPayment)],
           [Some(Payment(PayExpired, 10, None))], [], [], [])
  }

  lemma OpenWithExpiredPaymentHappens()
    ensures Run(NOTHING, OrderPayWait()) ==
            OpenWithExpiredPayment()
  {
    var first := Create(0, 0, SomeRequest(), true);
    ThreeStepRun(NOTHING, first, OpenPayment(0), AgePayments({0}));
    hide Run;
    var ordered := Step(NOTHING, first);
    assert ordered.orders == [Order(0, 0, LicenseProduct, NewPurchase, 10, 0, 10, None, PendingPayment)];
    assert ordered.payments == [None];
    var paying := Step(ordered, OpenPayment(0));
    assert paying == ordered.(payments := [Some(Payment(Pending, 10, None))]);
    assert Step(paying, AgePayments({0})).payments == [Some(Payment(PayExpired, 10, None))];
  }

  /** From an empty shop: a payment that is opened and grows old leaves an order nobody can pay. */
  lemma StrandedOrderHappens()
    ensures var t := Run(NOTHING, OrderPayWait());
            Inv(t) && |t.orders| == 1 && t.orders[0].status == PendingPayment && !CanBePaid(t, 0)
  {
    hide Run, Inv, CanBePaid, OrderPayWait;
    EmptyShopIsSound();
    RunSound(NOTHING, OrderPayWait());
    OpenWithExpiredPaymentHappens();
    CanBePaidIff(OpenWithExpiredPayment(), 0);
  }

  /** One cancelled order, with its invoice still open. */
  function CancelledWithOpenInvoice(): Tables {
    Tables([Order(0, 0, LicenseProduct, NewPurchase, 10, 0, 10, None, Cancelled)], [None],
           [Invoice(0, Unpaid, 10, 0, 10)], [], [])
  }

  lemma CancelledWithOpenInvoiceHappens()
    ensures Run(NOTHING, OrderInvoiceCancel()) ==
            CancelledWithOpenInvoice()
  {
    var first := Create(0, 0, SomeRequest(), true);
    ThreeStepRun(NOTHING, first, OpenInvoice(0), CancelOrder(0, None));
    hide Run;
    var ordered := Step(NOTHING, first);
    assert ordered.orders == [Order(0, 0, LicenseProduct, NewPurchase, 10, 0, 10, None, PendingPayment)];
    assert ordered.payments == [None];
    var invoiced := Step(ordered, OpenInvoice(0));
    assert invoiced == ordered.(invoices := [Invoice(0, Unpaid, 10, 0, 10)]);
  }

  /** From an empty shop: a cancelled order's open invoice is marked paid by a wallet that charges nothing. */
  lemma SettlingForNothingHappens()
    ensures var t := Run(NOTHING, OrderInvoiceCancel());
            var settle := WalletPayInvoice(0, 0, true, true, true);
            && Inv(t) && Backed(t) && SettlesForNothing(t, settle)
            && !Backed(Step(t, settle)) && Step(t, settle).orders == t.orders
  {
    hide Run, Inv, Backed, SettlesForNothing, Step, OrderInvoiceCancel;
    EmptyShopIsSound();
    RunSound(NOTHING, OrderInvoiceCancel());
    CancelledWithOpenInvoiceHappens();
    SettlesCancelled();
    BackedUnlessSettledForNothing(CancelledWithOpenInvoice(), WalletPayInvoice(0, 0, true, true, true));
  }

  lemma EmptyShopIsSound()
    ensures Inv(NOTHING)
  {
  }

  lemma SettlesCancelled()
    ensures var t, settle := CancelledWithOpenInvoice(), WalletPayInvoice(0, 0, true, true, true);
            && Backed(t) && SettlesForNothing(t, settle) && Step(t, settle).orders == t.orders
  {
  }

  /** Deleting a receipt is the exact inverse of submitting it. */
  lemma DeleteUndoesSubmit(t: Tables, oid: nat, user: nat, fileOk: bool)
    requires Wide(t)
    ensures var (after, r) := SubmitReceipt(t, oid, user, fileOk);
            r.Ok? ==> DeleteReceipt(after, oid) == (t, Ok(Changed))
  {
    var (after, r) := SubmitReceipt(t, oid, user, fileOk);
    if r.Ok? {
      var back := DeleteReceipt(after, oid).0;
      assert back.orders == t.orders;
      assert back.payments == t.payments;
    }
  }

  /** Approving a second time, or consuming a coupon a second time, changes nothing. */
  lemma ApprovalIsIdempotent(t: Tables, oid: nat, recorded: bool, again: bool)
    requires Inv(t)
    ensures var (after, r) := ApprovePayment(t, oid, recorded);
            r.Ok? ==> ApprovePayment(after, oid, again) == (after, Ok(AlreadyDone))
    ensures RecordUsage(RecordUsage(t, oid).0, oid) == (RecordUsage(t, oid).0, false)
  {
    var (after, recordedNow) := RecordUsage(t, oid);
    if recordedNow {
      assert after.usages[|t.usages|].order == oid;
    }
  }

  /** A paid invoice is backed by an approved payment of its order. */
  ghost predicate Backed(t: Tables)
    requires Wide(t)
  {
    forall i :: 0 <= i < |t.invoices| && t.invoices[i].status == InvoicePaid ==>
      t.invoices[i].order < |t.orders| && IsApproved(t.payments[t.invoices[i].order])
  }

  predicate IsApproved(p: Option<Payment>) {
    p.Some? && p.value.status == PayApproved
  }

  /** An open invoice is sent to the wallet although its order can no longer be charged, and was not paid. */
  predicate SettlesForNothing(t: Tables, op: Op)
    requires Wide(t)
  {
    && op.WalletPayInvoice? && op.enabled
    && op.iid < |t.invoices| && t.invoices[op.iid].status == Unpaid
    && t.invoices[op.iid].order < |t.orders|
    && t.orders[t.invoices[op.iid].order].user == op.user
    && !Chargeable(t, t.invoices[op.iid].order)
    && !IsApproved(t.payments[t.invoices[op.iid].order])
  }

  /**
   Settling an invoice from the wallet marks it paid even when the wallet call reports that
   there was nothing to charge. That is the only way an invoice gets paid without a payment.
   */
  lemma BackedUnlessSettledForNothing(t: Tables, op: Op)
    requires Inv(t) && Backed(t)
    ensures Backed(Step(t, op)) <==> !SettlesForNothing(t, op)
  {
    StepSound(t, op);
    var after := Step(t, op);
    if SettlesForNothing(t, op) {
      assert after.invoices[op.iid].status == InvoicePaid;
      assert !IsApproved(after.payments[after.invoices[op.iid].order]);
    } else {
      forall i | 0 <= i < |after.invoices| && after.invoices[i].status == InvoicePaid
        ensures after.invoices[i].order < |after.orders| && IsApproved(after.payments[after.invoices[i].order])
      {
        PaidInvoiceBacked(t, op, i);
      }
    }
  }

  predicate NewlyPaid(t: Tables, after: Tables, i: nat) {
    && i < |after.invoices| && after.invoices[i].status == InvoicePaid
    && !(i < |t.invoices| && t.invoices[i].status == InvoicePaid)
  }

  lemma OthersPayNoInvoice(t: Tables, op: Op, i: nat)
    requires Wide(t) && !op.ApproveByPayment? && !op.WalletPayInvoice?
    ensures !NewlyPaid(t, Step(t, op), i)
  {
  }

  lemma ApprovalPaysItsInvoice(t: Tables, oid: nat, recorded: bool, i: nat)
    requires Inv(t) && NewlyPaid(t, ApprovePayment(t, oid, recorded).0, i)
    ensures i < |t.invoices| && t.invoices[i].order == oid
    ensures oid < |t.orders| && IsApproved(ApprovePayment(t, oid, recorded).0.payments[oid])
  {
    assert InvoiceLinked(t, oid);
  }

  /** What a wallet call says about the order: charged and approved, or left alone because it could not be charged. */
  lemma WalletAnswers(t: Tables, oid: nat, user: nat, enabled: bool, funds: bool, recorded: bool)
    requires Wide(t)
    ensures var (after, r) := PayWithWallet(t, oid, user, enabled, funds, recorded);
            && after.invoices == t.invoices
            && (r == Ok(Changed) ==> oid < |after.payments| && IsApproved(after.payments[oid]))
            && (r.Ok? && r != Ok(Changed) ==> enabled && after == t && !Chargeable(t, oid))
  {
  }

  lemma WalletPaysItsInvoice(t: Tables, op: Op, i: nat)
    requires Inv(t) && op.WalletPayInvoice? && !SettlesForNothing(t, op) && NewlyPaid(t, Step(t, op), i)
    ensures i == op.iid && i < |t.invoices| && t.invoices[i].order < |t.orders|
    ensures IsApproved(Step(t, op).payments[t.invoices[i].order])
  {
    if op.iid < |t.invoices| {
      WalletAnswers(t, t.invoices[op.iid].order, op.user, op.enabled, op.funds, op.recorded);
    }
    hide PayWithWallet, Chargeable, Inv;
  }

  lemma PaidInvoiceBacked(t: Tables, op: Op, i: nat)
    requires Inv(t) && Backed(t) && Inv(Step(t, op)) && Kept(t, Step(t, op))
    requires !SettlesForNothing(t, op)
    requires i < |Step(t, op).invoices| && Step(t, op).invoices[i].status == InvoicePaid
    ensures var after := Step(t, op);
            after.invoices[i].order < |after.orders| && IsApproved(after.payments[after.invoices[i].order])
  {
    var after := Step(t, op);
    if NewlyPaid(t, after, i) {
      match op
      case ApproveByPayment(oid, recorded) => ApprovalPaysItsInvoice(t, oid, recorded, i);
      case WalletPayInvoice(_, _, _, _, _) => WalletPaysItsInvoice(t, op, i);
      case _ => OthersPayNoInvoice(t, op, i);
    } else {
      assert PaymentKept(t.payments[t.invoices[i].order], after.payments[t.invoices[i].order]);
    }
  }
}
