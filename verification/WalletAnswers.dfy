/** What each wallet call on orders and top-ups answers, and what it leaves behind. */
module WalletAnswers {
  import opened Common
  import opened Discounts
  import opened Shop
  import opened ShopAnswers
  import opened Wallet
  import Ledger
  import Money = LedgerAnswers

  /** The buyer can be charged for the order, and has the money. */
  predicate Payable(w: World, oid: nat, user: nat)
    requires Wide(w.shop)
  {
    && user < |w.bank.users| && StillToPay(w.shop, oid) && w.shop.orders[oid].user == user
    && w.bank.users[user].balance >= w.shop.orders[oid].final
  }

  /** The price of the order went from the buyer's wallet, with the row that says so. */
  ghost predicate Charged(w: World, after: World, oid: nat, user: nat)
    requires oid < |w.shop.orders|
  {
    && Money.Moves(w.bank, after.bank, user, -w.shop.orders[oid].final, Ledger.Charge(oid))
    && after.bank.rewards == w.bank.rewards && after.bank.sales == SalesOf(after.shop)
    && after.refunded == w.refunded && after.topups == w.topups
  }

  /**
   A wallet payment approves the buyer's own order that is still to pay, and takes its price,
   exactly if the wallet holds it; otherwise nothing is taken and no order moves.
   */
  lemma PayingMeans(w: World, oid: nat, user: nat, enabled: bool, recorded: bool)
    requires Wide(w.shop) && w.bank.sales == SalesOf(w.shop)
    ensures var (after, r) := PayOrder(w, oid, user, enabled, recorded);
            && (r == Ok(Changed) <==> enabled && Payable(w, oid, user))
            && (r == Ok(Changed) ==>
                  && Charged(w, after, oid, user)
                  && after.shop == PayWithWallet(w.shop, oid, user, true, true, recorded).0
                  && after.shop.orders == w.shop.orders[oid := w.shop.orders[oid].(status := Approved)])
            && (r != Ok(Changed) ==> after == w)
            && (r == Err(ShopSays(WalletDisabled)) <==> !enabled)
            && (r == Err(NoUser) <==> enabled && user >= |w.bank.users|)
            && (r == Err(ShopSays(NoOrder)) <==> enabled && user < |w.bank.users| && oid >= |w.shop.orders|)
            && (r == Err(ShopSays(Insufficient)) <==>
                  && enabled && user < |w.bank.users| && StillToPay(w.shop, oid) && w.shop.orders[oid].user == user
                  && w.bank.users[user].balance < w.shop.orders[oid].final)
            && (r == Ok(AlreadyDone) <==>
                  && enabled && user < |w.bank.users| && oid < |w.shop.orders| && w.shop.orders[oid].user == user
                  && !StillToPay(w.shop, oid))
  {
    WalletPayingMeans(w.shop, oid, user, true, CanAfford(w, user, oid), recorded);
    WalletAnswersOnly(w.shop, oid, user, true, CanAfford(w, user, oid), recorded);
    hide PayWithWallet;
  }

  /** Settling the buyer's open invoice charges exactly if its order can be charged, and marks it paid either way. */
  lemma SettlingMeans(w: World, iid: nat, user: nat, enabled: bool, recorded: bool)
    requires Wide(w.shop) && iid < |w.shop.invoices| && w.shop.invoices[iid].order < |w.shop.orders|
    ensures var (after, r) := PayInvoice(w, iid, user, enabled, recorded);
            var oid := w.shop.invoices[iid].order;
            var mine := w.shop.orders[oid].user == user && user < |w.bank.users|;
            var open := w.shop.invoices[iid].status == Unpaid && mine;
            && (r == Ok(Changed) <==> open && enabled && Payable(w, oid, user))
            && (r == Ok(Changed) ==> Charged(w, after, oid, user))
            && (r != Ok(Changed) ==> after.bank.users == w.bank.users && after.bank.ledger == w.bank.ledger)
            && (r.Err? ==> after == w)
            && (open && r.Ok? ==>
                  after.shop.invoices == w.shop.invoices[iid := w.shop.invoices[iid].(status := InvoicePaid)])
  {
    var oid := w.shop.invoices[iid].order;
    WalletPayingMeans(w.shop, oid, user, enabled, CanAfford(w, user, oid), recorded);
    WalletAnswersOnly(w.shop, oid, user, enabled, CanAfford(w, user, oid), recorded);
    WalletSettlingMeans(w.shop, iid, user, enabled, CanAfford(w, user, oid), recorded);
    hide PayWithWallet, PayInvoiceWithWallet;
  }

  /** Without the invoice or the user nothing is settled. */
  lemma SettlingNeeds(w: World, iid: nat, user: nat, enabled: bool, recorded: bool)
    requires Wide(w.shop)
    ensures var (after, r) := PayInvoice(w, iid, user, enabled, recorded);
            && (iid >= |w.shop.invoices| ==> r == Err(ShopSays(NoInvoice)) && after == w)
            && (iid < |w.shop.invoices| && user >= |w.bank.users| ==> r == Err(NoUser) && after == w)
  {
  }

  /** What there is to give back for an order: what its payment says, or else its price. */
  function Due(t: Tables, oid: nat): int
    requires Wide(t) && oid < |t.orders|
  {
    match t.payments[oid]
    case Some(p) => p.amount
    case None => t.orders[oid].final
  }

  /** An order that was paid for is refunded once, with a reason, what its payment says, to its buyer. */
  lemma RefundingMeans(w: World, oid: nat, reason: bool)
    requires Wide(w.shop)
    ensures var (after, r) := RefundOrder(w, oid, reason);
            var known := oid < |w.shop.orders|;
            && (r == Err(NoReason) <==> !reason)
            && (r == Err(NoOrderHere) <==> reason && !known)
            && (r == Err(AlreadyRefunded) <==> reason && known && oid in w.refunded)
            && (r.Ok? <==>
                  && reason && known && oid !in w.refunded
                  && w.shop.orders[oid].status in {Approved, ProvisioningPending, Delivered, Failed}
                  && Due(w.shop, oid) > 0 && w.shop.orders[oid].user < |w.bank.users|
                  && w.bank.users[w.shop.orders[oid].user].balance + Due(w.shop, oid) >= 0)
            && (r.Err? && reason && known && oid !in w.refunded ==>
                  match r.error
                  case NotRefundable =>
                    w.shop.orders[oid].status !in {Approved, ProvisioningPending, Delivered, Failed}
                  case NothingToRefund => Due(w.shop, oid) <= 0
                  case NoUser => w.shop.orders[oid].user >= |w.bank.users|
                  case WouldGoNegative =>
                    && w.shop.orders[oid].user < |w.bank.users|
                    && w.bank.users[w.shop.orders[oid].user].balance + Due(w.shop, oid) < 0
                  case _ => false)
            && (r.Ok? ==>
                  && r == Ok(Changed) && after.refunded == w.refunded + {oid}
                  && Money.Moves(w.bank, after.bank, w.shop.orders[oid].user, Due(w.shop, oid), Ledger.Refund(oid))
                  && after.bank.rewards == w.bank.rewards && after.bank.sales == w.bank.sales
                  && after.shop == w.shop && after.topups == w.topups)
            && (r.Err? ==> after == w)
  {
  }

  /** The top-up can be credited: it waits for review, is worth something, and its owner is there to credit. */
  predicate Acceptable(w: World, tid: nat) {
    && tid < |w.topups| && w.topups[tid].status == TopSubmitted
    && w.topups[tid].amount + w.topups[tid].bonus > 0
    && w.topups[tid].user < |w.bank.users|
    && w.bank.users[w.topups[tid].user].balance + w.topups[tid].amount + w.topups[tid].bonus >= 0
  }

  /** Amount and bonus of the top-up were credited. */
  ghost predicate Credited(w: World, after: World, tid: nat)
    requires tid < |w.topups|
  {
    var p := w.topups[tid];
    && Money.Moves(w.bank, after.bank, p.user, p.amount + p.bonus, Ledger.TopUp(tid))
    && after.bank.rewards == w.bank.rewards && after.bank.sales == w.bank.sales
    && after.shop == w.shop && after.refunded == w.refunded
  }

  /** An approval credits amount and bonus of an acceptable top-up and marks it; a second one does nothing. */
  lemma ToppingUpMeans(w: World, tid: nat)
    ensures var (after, r) := ApproveTopup(w, tid);
            && (r == Err(NoTopup) <==> tid >= |w.topups|)
            && (r == Ok(AlreadyDone) <==> tid < |w.topups| && w.topups[tid].status == TopApproved)
            && (r == Ok(Changed) <==> Acceptable(w, tid))
            && (r == Ok(Changed) ==>
                  Credited(w, after, tid) && after.topups == w.topups[tid := w.topups[tid].(status := TopApproved)])
            && (r != Ok(Changed) ==> after == w)
            && (r == Err(NoLongerApprovable) <==>
                  tid < |w.topups| && w.topups[tid].status in {TopRejected, TopExpired})
            && (r == Err(NotSubmitted) <==> tid < |w.topups| && w.topups[tid].status == TopPending)
            && (r.Err? && tid < |w.topups| && w.topups[tid].status == TopSubmitted ==>
                  var p := w.topups[tid];
                  match r.error
                  case BadAmount => p.amount + p.bonus <= 0
                  case NoUser => p.user >= |w.bank.users|
                  case WouldGoNegative =>
                    p.user < |w.bank.users| && w.bank.users[p.user].balance + p.amount + p.bonus < 0
                  case _ => false)
  {
  }

  /** If the worker dies in between, the credit of an acceptable top-up is all that is left. */
  lemma DyingMeans(w: World, tid: nat)
    ensures var after := DieAfterCredit(w, tid);
            if Acceptable(w, tid) then Credited(w, after, tid) && after.topups == w.topups else after == w
  {
  }

  /** A top-up in review is rejected with a reason; one that was approved cannot be. */
  lemma TurningDownMeans(w: World, tid: nat, reason: bool)
    ensures var (after, r) := RejectTopup(w, tid, reason);
            var known := tid < |w.topups|;
            && (r == Err(NoReason) <==> !reason)
            && (r == Err(NoTopup) <==> reason && !known)
            && (r == Ok(AlreadyDone) <==> reason && known && w.topups[tid].status == TopRejected)
            && (r == Err(ApprovedAlready) <==> reason && known && w.topups[tid].status == TopApproved)
            && (r == Err(NotSubmitted) <==> reason && known && w.topups[tid].status in {TopPending, TopExpired})
            && (r == Ok(Changed) <==> reason && known && w.topups[tid].status == TopSubmitted)
            && after == (if r == Ok(Changed) then w.(topups := w.topups[tid := w.topups[tid].(status := TopRejected)])
                         else w)
  {
  }

  /** The referral service sees an order as delivered exactly if the shop does, with its buyer and price. */
  lemma SalesMean(t: Tables, oid: nat)
    requires oid < |t.orders|
    ensures |SalesOf(t)| == |t.orders|
    ensures var sale, o := SalesOf(t)[oid], t.orders[oid];
            && sale.user == o.user && sale.final == o.final
            && (sale.delivered <==> o.status == Delivered)
  {
  }
}
