/** Wallet payments, refunds and top-up reviews in place, over the tables they update. */
module WalletService {
  import opened Common
  import opened Shop
  import opened ShopAnswers
  import opened Wallet
  import opened WalletRuns
  import Ledger

  class WalletTables {
    var shop: Tables
    var users: seq<Ledger.User>
    var ledger: seq<Ledger.Tx>
    var rewards: seq<Ledger.Reward>
    var refunded: set<nat>
    var topups: seq<Topup>

    constructor ()
      ensures Snapshot() == NOBODY && Valid() && Sound(Snapshot())
    {
      shop, users, ledger, rewards, refunded, topups := NOBODY.shop, [], [], [], {}, [];
      new;
      NobodyIsSound();
      assert SalesOf(NOBODY.shop) == [];
    }

    function Snapshot(): World
      reads this
    {
      World(shop, Ledger.Bank(users, ledger, SalesOf(shop), rewards), refunded, topups)
    }

    ghost predicate Valid()
      reads this
    {
      Wide(shop)
    }

    /** The locked read-modify-write of one balance, with its ledger row: refused if it would end below zero. */
    method RecordTx(user: nat, amount: int, kind: Ledger.TxKind) returns (ok: bool)
      requires Valid() && Known(Snapshot(), user)
      modifies this`users, this`ledger
      ensures ok <==> old(users)[user].balance + amount >= 0
      ensures Snapshot() == if ok then Book(old(Snapshot()), user, amount, kind) else old(Snapshot())
    {
      var before := users[user].balance;
      var after := before + amount;
      if after < 0 {
        return false;
      }
      users := users[user := users[user].(balance := after)];
      ledger := ledger + [Ledger.Tx(user, amount, before, after, kind)];
      ok := true;
    }

    /** Charges the wallet for an order and approves order and payment; a second call charges nothing. */
    method PayOrderWithWallet(oid: nat, user: nat, enabled: bool, recorded: bool) returns (r: Wallet.Outcome)
      requires Valid()
      modifies this`shop, this`users, this`ledger
      ensures Valid() && (Snapshot(), r) == PayOrder(old(Snapshot()), oid, user, enabled, recorded)
      ensures old(Sound(Snapshot())) ==> Sound(Snapshot())
    {
      ghost var start := Snapshot();
      PayKeeps(start, oid, user, enabled, recorded);
      WalletPayingMeans(shop, oid, user, true, CanAfford(start, user, oid), recorded);
      WalletAnswersOnly(shop, oid, user, true, CanAfford(start, user, oid), recorded);
      hide PayWithWallet, RecordUsage, Sound;
      if !enabled {
        return Err(ShopSays(WalletDisabled));
      }
      if user >= |users| {
        return Err(NoUser);
      }
      if oid >= |shop.orders| {
        return Err(ShopSays(NoOrder));
      }
      var order, payment := shop.orders[oid], shop.payments[oid];
      if order.user != user {
        return Err(ShopSays(NotYours));
      }
      if order.status != PendingPayment || (payment.Some? && payment.value.status != Pending) {
        return Ok(AlreadyDone);
      }
      if users[user].balance < order.final {
        return Err(ShopSays(Insufficient));
      }
      ChargedShop(shop, oid, user, recorded);
      if payment.None? {
        payment := Some(Payment(Pending, order.final, None));
      }
      var charged := RecordTx(user, -order.final, Ledger.Charge(oid));
      payment := Some(payment.value.(status := PayApproved));
      order := order.(status := Approved);
      shop := shop.(orders := shop.orders[oid := order], payments := shop.payments[oid := payment]);
      if recorded {
        shop := RecordUsage(shop, oid).0;
      }
      r := Ok(Changed);
    }

    /** Gives the money of a paid order back, once. */
    method RefundOrderToWallet(oid: nat, reasonGiven: bool) returns (r: Wallet.Outcome)
      requires Valid()
      modifies this`users, this`ledger, this`refunded
      ensures Valid() && (Snapshot(), r) == RefundOrder(old(Snapshot()), oid, reasonGiven)
      ensures old(Sound(Snapshot())) ==> Sound(Snapshot())
    {
      RefundKeeps(Snapshot(), oid, reasonGiven);
      if !reasonGiven {
        return Err(NoReason);
      }
      if oid >= |shop.orders| {
        return Err(NoOrderHere);
      }
      if oid in refunded {
        return Err(AlreadyRefunded);
      }
      var order, payment := shop.orders[oid], shop.payments[oid];
      if !order.status.Paid() && order.status != Failed {
        return Err(NotRefundable);
      }
      var amount := if payment.Some? then payment.value.amount else order.final;
      if amount <= 0 {
        return Err(NothingToRefund);
      }
      if order.user >= |users| {
        return Err(NoUser);
      }
      var credited := RecordTx(order.user, amount, Ledger.Refund(oid));
      if !credited {
        return Err(WouldGoNegative);
      }
      refunded := refunded + {oid};
      r := Ok(Changed);
    }

    /**
     Approves a top-up: the credit is committed first, the approval after it. If the worker
     `dies` in between, the credit alone remains, and the tables are sound only if nothing was
     credited.
     */
    method ApproveTopupPayment(tid: nat, dies: bool) returns (r: Wallet.Outcome)
      requires Valid()
      modifies this`users, this`ledger, this`topups
      ensures Valid()
      ensures if dies then Snapshot() == DieAfterCredit(old(Snapshot()), tid)
              else (Snapshot(), r) == ApproveTopup(old(Snapshot()), tid)
      ensures old(Sound(Snapshot())) ==>
                (Sound(Snapshot()) <==> !(dies && old(TopupRefusal(Snapshot(), tid)).None?))
    {
      ghost var start := Snapshot();
      ApprovalKeeps(start, tid, dies);
      if tid >= |topups| {
        return Err(NoTopup);
      }
      var topup := topups[tid];
      if topup.status == TopApproved {
        return Ok(AlreadyDone);
      }
      if topup.status == TopRejected || topup.status == TopExpired {
        return Err(NoLongerApprovable);
      }
      if topup.status != TopSubmitted {
        return Err(NotSubmitted);
      }
      var credit := topup.amount + topup.bonus;
      if credit <= 0 {
        return Err(BadAmount);
      }
      if topup.user >= |users| {
        return Err(NoUser);
      }
      var credited := RecordTx(topup.user, credit, Ledger.TopUp(tid));
      if !credited {
        return Err(WouldGoNegative);
      }
      r := Ok(Changed);
      if dies {
        return;
      }
      topups := topups[tid := topup.(status := TopApproved)];
    }

    method RejectTopupPayment(tid: nat, reasonGiven: bool) returns (r: Wallet.Outcome)
      requires Valid()
      modifies this`topups
      ensures Valid() && (Snapshot(), r) == RejectTopup(old(Snapshot()), tid, reasonGiven)
      ensures old(Sound(Snapshot())) ==> Sound(Snapshot())
    {
      RejectionKeeps(Snapshot(), tid, reasonGiven);
      if !reasonGiven {
        return Err(NoReason);
      }
      if tid >= |topups| {
        return Err(NoTopup);
      }
      var topup := topups[tid];
      if topup.status == TopRejected {
        return Ok(AlreadyDone);
      }
      if topup.status == TopApproved {
        return Err(ApprovedAlready);
      }
      if topup.status != TopSubmitted {
        return Err(NotSubmitted);
      }
      topups := topups[tid := topup.(status := TopRejected)];
      r := Ok(Changed);
    }
  }

  /** What a wallet payment writes to the shop's tables. */
  lemma ChargedShop(t: Tables, oid: nat, user: nat, recorded: bool)
    requires Chargeable(t, oid) && t.orders[oid].user == user
    ensures var o := t.orders[oid];
            var p := if t.payments[oid].Some? then t.payments[oid].value else Payment(Pending, o.final, None);
            var paid := t.(orders := t.orders[oid := o.(status := Approved)],
                           payments := t.payments[oid := Some(p.(status := PayApproved))]);
            PayWithWallet(t, oid, user, true, true, recorded) ==
            (if recorded then RecordUsage(paid, oid).0 else paid, Ok(Changed))
  {
    hide RecordUsage;
    if t.payments[oid].None? {
      var p := Payment(Pending, t.orders[oid].final, None);
      var q := Some(p.(status := PayApproved));
      assert t.payments[oid := Some(p)][oid := q] == t.payments[oid := q];
    }
  }

  lemma PayKeeps(w: World, oid: nat, user: nat, enabled: bool, recorded: bool)
    requires Wide(w.shop)
    ensures Wide(PayOrder(w, oid, user, enabled, recorded).0.shop)
    ensures Sound(w) ==> Sound(PayOrder(w, oid, user, enabled, recorded).0)
  {
    hide PayOrder, Sound;
    assert Step(w, PayOp(oid, user, enabled, recorded)) == PayOrder(w, oid, user, enabled, recorded).0;
    if Sound(w) {
      StepSoundIff(w, PayOp(oid, user, enabled, recorded));
    }
  }

  lemma RefundKeeps(w: World, oid: nat, reasonGiven: bool)
    requires Wide(w.shop)
    ensures Sound(w) ==> Sound(RefundOrder(w, oid, reasonGiven).0)
  {
    hide RefundOrder, Sound;
    assert Step(w, RefundOp(oid, reasonGiven)) == RefundOrder(w, oid, reasonGiven).0;
    if Sound(w) {
      StepSoundIff(w, RefundOp(oid, reasonGiven));
    }
  }

  lemma ApprovalKeeps(w: World, tid: nat, dies: bool)
    requires Wide(w.shop)
    ensures Sound(w) ==>
              (Sound(if dies then DieAfterCredit(w, tid) else ApproveTopup(w, tid).0) <==>
               !(dies && TopupRefusal(w, tid).None?))
  {
    hide ApproveTopup, DieAfterCredit, TopupRefusal, Sound;
    var op := if dies then CreditAndDieOp(tid) else ApproveOp(tid);
    assert Step(w, op) == if dies then DieAfterCredit(w, tid) else ApproveTopup(w, tid).0;
    if Sound(w) {
      StepSoundIff(w, op);
    }
  }

  lemma RejectionKeeps(w: World, tid: nat, reasonGiven: bool)
    requires Wide(w.shop)
    ensures Sound(w) ==> Sound(RejectTopup(w, tid, reasonGiven).0)
  {
    hide RejectTopup, Sound;
    assert Step(w, RejectOp(tid, reasonGiven)) == RejectTopup(w, tid, reasonGiven).0;
    if Sound(w) {
      StepSoundIff(w, RejectOp(tid, reasonGiven));
    }
  }
}
