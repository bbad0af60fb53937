/**
 Whole runs of shop, wallet and referrals: how often a top-up is credited, what every balance is
 made of, and when a refund undoes a charge.
 */
module WalletRuns {
  import opened Common
  import opened Discounts
  import opened Shop
  import opened Wallet
  import Ledger
  import Runs = ShopRuns

  // ---------------------------------------------------------------------------
  // Every step books at most one row
  // ---------------------------------------------------------------------------

  /** What a call does to the bank: nothing but new sales, or one row booked besides. */
  ghost predicate BooksAtMost(w: World, after: World, user: nat, amount: int, kind: Ledger.TxKind) {
    || (after.bank.users == w.bank.users && after.bank.ledger == w.bank.ledger && after.bank.rewards == w.bank.rewards)
    || (Known(w, user) && after.bank == Ledger.Record(w.bank.(sales := after.bank.sales), user, amount, kind))
  }

  lemma PayBooks(w: World, op: Op) returns (user: nat, amount: int, kind: Ledger.TxKind)
    requires Wide(w.shop) && (op.PayOp? || op.PayInvoiceOp?)
    ensures BooksAtMost(w, Step(w, op), user, amount, kind) && kind.Charge?
    ensures Step(w, op).topups == w.topups
  {
    hide PayWithWallet, PayInvoiceWithWallet;
    var oid := if op.PayOp? then op.oid else if op.iid < |w.shop.invoices| then w.shop.invoices[op.iid].order else 0;
    user, kind := op.user, Ledger.Charge(oid);
    amount := if oid < |w.shop.orders| then -w.shop.orders[oid].final else 0;
    if oid >= |w.shop.orders| {
      NoSuchOrder(w.shop, oid, op);
    }
  }

  /** Without the order nothing is charged. */
  lemma NoSuchOrder(t: Tables, oid: nat, op: Op)
    requires Wide(t) && oid >= |t.orders| && (op.PayOp? || op.PayInvoiceOp?)
    requires op.PayOp? ==> op.oid == oid
    requires op.PayInvoiceOp? && op.iid < |t.invoices| ==> t.invoices[op.iid].order == oid
    ensures op.PayOp? ==> forall funds :: PayWithWallet(t, oid, op.user, true, funds, op.recorded).1.Err?
    ensures op.PayInvoiceOp? ==>
              forall funds :: PayInvoiceWithWallet(t, op.iid, op.user, op.enabled, funds, op.recorded).1.Err?
  {
  }

  lemma StepBooks(w: World, op: Op) returns (user: nat, amount: int, kind: Ledger.TxKind)
    requires Wide(w.shop) && !op.Account?
    ensures BooksAtMost(w, Step(w, op), user, amount, kind)
    ensures kind.TopUp? <==> (op.ApproveOp? || op.CreditAndDieOp?)
  {
    user, amount, kind := 0, 0, Ledger.Adjustment;
    match op
    case PayOp(_, _, _, _) => user, amount, kind := PayBooks(w, op);
    case PayInvoiceOp(_, _, _, _) => user, amount, kind := PayBooks(w, op);
    case RefundOp(oid, _) =>
      if oid < |w.shop.orders| {
        user, amount, kind := w.shop.orders[oid].user, Refundable(w.shop, oid), Ledger.Refund(oid);
      }
    case ApproveOp(tid) =>
      kind := Ledger.TopUp(tid);
      if tid < |w.topups| {
        user, amount := w.topups[tid].user, Credit(w.topups[tid]);
      }
    case CreditAndDieOp(tid) =>
      kind := Ledger.TopUp(tid);
      if tid < |w.topups| {
        user, amount := w.topups[tid].user, Credit(w.topups[tid]);
      }
    case ShopCall(call) => hide Runs.Step;
    case _ =>
  }

  // ---------------------------------------------------------------------------
  // Top-ups: credited once, unless a worker dies between the two commits
  // ---------------------------------------------------------------------------

  function Approvals(w: World, tid: nat): nat {
    if tid < |w.topups| && w.topups[tid].status == TopApproved then 1 else 0
  }

  /** The worker dies after a credit that has been committed. */
  predicate CreditedThenCrashed(w: World, op: Op) {
    op.CreditAndDieOp? && TopupRefusal(w, op.tid).None?
  }

  function Crashed(w: World, op: Op, tid: nat): nat {
    if CreditedThenCrashed(w, op) && op.tid == tid then 1 else 0
  }

  /** How often that happens to a top-up in a run. */
  function Crashes(w: World, ops: seq<Op>, tid: nat): nat
    requires Wide(w.shop)
    decreases |ops|
  {
    if ops == [] then 0
    else
      var n := |ops| - 1;
      Crashes(w, ops[..n], tid) + Crashed(Run(w, ops[..n]), ops[n], tid)
  }

  /** How much more often a top-up was credited than approved. */
  function Excess(w: World, tid: nat): int {
    Ledger.Times(w.bank.ledger, Ledger.TopUp(tid)) - Approvals(w, tid)
  }

  /** A top-up is credited once if it is approved, and never otherwise. */
  ghost predicate TopupsSound(w: World) {
    forall tid: nat :: Excess(w, tid) == 0
  }

  ghost predicate Sound(w: World) {
    Base(w) && TopupsSound(w)
  }

  lemma AccountCounts(w: World, act: Ledger.Op, tid: nat)
    requires Wide(w.shop)
    ensures Excess(Step(w, Account(act)), tid) == Excess(w, tid)
  {
    if !act.SaleOp? {
      Ledger.StepShape(w.bank, act);
      hide Ledger.Step, Ledger.Times;
      var after := Ledger.Step(w.bank, act);
      if after.ledger != w.bank.ledger {
        var tx := after.ledger[|w.bank.ledger|];
        assert after.ledger == w.bank.ledger + [tx];
        Ledger.LedgerGrows(w.bank.ledger, tx);
      }
    }
  }

  /** A credit counts once more; marking the approval counts once less. */
  lemma CreditCounts(w: World, tid: nat, any: nat)
    requires TopupRefusal(w, tid).None?
    ensures Excess(CreditTopup(w, tid), any) == Excess(w, any) + (if any == tid then 1 else 0)
  {
    var p := w.topups[tid];
    var balance := w.bank.users[p.user].balance;
    Ledger.LedgerGrows(w.bank.ledger, Ledger.Tx(p.user, Credit(p), balance, balance + Credit(p), Ledger.TopUp(tid)));
    hide Ledger.Times;
  }

  lemma MarkCounts(w: World, tid: nat, any: nat)
    requires tid < |w.topups| && w.topups[tid].status != TopApproved
    ensures Excess(SetTopup(w, tid, TopApproved), any) == Excess(w, any) - (if any == tid then 1 else 0)
  {
    hide Ledger.Times;
  }

  lemma TopupCounts(w: World, op: Op, tid: nat)
    requires Wide(w.shop) && (op.ApproveOp? || op.CreditAndDieOp?)
    ensures Excess(Step(w, op), tid) == Excess(w, tid) + Crashed(w, op, tid)
  {
    hide Excess;
    if TopupRefusal(w, op.tid).None? {
      CreditCounts(w, op.tid, tid);
      MarkCounts(CreditTopup(w, op.tid), op.tid, tid);
    }
  }

  lemma OtherCounts(w: World, op: Op, tid: nat)
    requires Wide(w.shop) && !op.Account? && !op.ApproveOp? && !op.CreditAndDieOp?
    ensures Excess(Step(w, op), tid) == Excess(w, tid)
  {
    var user, amount, kind := StepBooks(w, op);
    var balance := if Known(w, user) then w.bank.users[user].balance else 0;
    Ledger.LedgerGrows(w.bank.ledger, Ledger.Tx(user, amount, balance, balance + amount, kind));
    ApprovalsStay(w, op, tid);
    hide Step, Ledger.Times, Approvals;
  }

  lemma ApprovalsStay(w: World, op: Op, tid: nat)
    requires Wide(w.shop) && !op.Account? && !op.ApproveOp? && !op.CreditAndDieOp?
    ensures Approvals(Step(w, op), tid) == Approvals(w, tid)
  {
    hide Runs.Step, PayWithWallet, PayInvoiceWithWallet;
  }

  lemma StepCounts(w: World, op: Op, tid: nat)
    requires Wide(w.shop)
    ensures Excess(Step(w, op), tid) == Excess(w, tid) + Crashed(w, op, tid)
  {
    hide Step;
    if op.Account? {
      AccountCounts(w, op.act, tid);
    } else if op.ApproveOp? || op.CreditAndDieOp? {
      TopupCounts(w, op, tid);
    } else {
      OtherCounts(w, op, tid);
    }
  }

  /**
   A step keeps every top-up credited exactly as often as it is approved, if and only if it is
   not a worker dying after the credit of an approval that would have gone through.
   */
  lemma StepSoundIff(w: World, op: Op)
    requires Sound(w)
    ensures Sound(Step(w, op)) <==> !CreditedThenCrashed(w, op)
  {
    StepKeepsBase(w, op);
    hide Step, Base, Ledger.Times;
    forall tid: nat
      ensures Excess(Step(w, op), tid) == Crashed(w, op, tid)
    {
      StepCounts(w, op, tid);
    }
    if CreditedThenCrashed(w, op) {
      assert Crashed(w, op, op.tid) == 1;
    }
  }

  /**
   Over every run, crashes included: a top-up was credited once more than it is approved for
   each time a worker died after its credit.
   */
  lemma {:induction false} RunCounts(w: World, ops: seq<Op>, tid: nat)
    requires Wide(w.shop)
    ensures Excess(Run(w, ops), tid) == Excess(w, tid) + Crashes(w, ops, tid)
    decreases |ops|
  {
    hide Step, Excess;
    if ops == [] {
    } else {
      RunCounts(w, ops[..|ops| - 1], tid);
      StepCounts(Run(w, ops[..|ops| - 1]), ops[|ops| - 1], tid);
    }
  }

  /** No worker died between a top-up's credit and its approval. */
  ghost predicate CrashFree(w: World, ops: seq<Op>)
    requires Wide(w.shop)
  {
    forall tid: nat :: Crashes(w, ops, tid) == 0
  }

  lemma TopupsSoundIff(w: World, ops: seq<Op>)
    requires Wide(w.shop) && TopupsSound(w)
    ensures TopupsSound(Run(w, ops)) <==> CrashFree(w, ops)
  {
    hide Step, Run, Crashes, Excess;
    var after := Run(w, ops);
    if TopupsSound(after) {
      forall tid: nat
        ensures Crashes(w, ops, tid) == 0
      {
        RunCounts(w, ops, tid);
        assert Excess(w, tid) == 0 == Excess(after, tid);
      }
    } else {
      var tid: nat :| Excess(after, tid) != 0;
      RunCounts(w, ops, tid);
      assert Excess(w, tid) == 0;
    }
  }

  /** A run ends sound if and only if no worker died after a credit in it. */
  lemma RunSoundIff(w: World, ops: seq<Op>)
    requires Sound(w)
    ensures Sound(Run(w, ops)) <==> CrashFree(w, ops)
  {
    hide Run, CrashFree, TopupsSound;
    RunKeepsBase(w, ops);
    TopupsSoundIff(w, ops);
  }

  /** A credit that a crash left unmarked is given again by the next approval. */
  lemma CrashedCreditIsRepeated(w: World, tid: nat)
    requires Wide(w.shop) && CreditedThenCrashed(w, CreditAndDieOp(tid))
    ensures var user, credit := w.topups[tid].user, Credit(w.topups[tid]);
            var died := Step(w, CreditAndDieOp(tid));
            var again := ApproveTopup(died, tid);
            && again.1 == Ok(Changed)
            && |again.0.bank.users| == |w.bank.users|
            && again.0.bank.users[user].balance == w.bank.users[user].balance + 2 * credit
  {
  }

  // ---------------------------------------------------------------------------
  // Balances
  // ---------------------------------------------------------------------------

  lemma MovedShopConserves(b0: Ledger.Bank, b: Ledger.Bank, after: Ledger.Bank)
    requires Ledger.Conserved(b0, b) && after.users == b.users && after.ledger == b.ledger
    ensures Ledger.Conserved(b0, after)
  {
  }

  lemma StepConserves(b0: Ledger.Bank, w: World, op: Op)
    requires Wide(w.shop) && Ledger.Conserved(b0, w.bank)
    ensures Ledger.Conserved(b0, Step(w, op).bank)
  {
    if op.Account? {
      if !op.act.SaleOp? {
        Ledger.StepConserves(b0, w.bank, op.act);
      }
    } else {
      var user, amount, kind := StepBooks(w, op);
      hide Step, Ledger.Conserved;
      var after := Step(w, op).bank;
      MovedShopConserves(b0, w.bank, w.bank.(sales := after.sales));
      if after.users == w.bank.users && after.ledger == w.bank.ledger {
        MovedShopConserves(b0, w.bank, after);
      } else {
        Ledger.RecordConserves(b0, w.bank.(sales := after.sales), user, amount, kind);
      }
    }
  }

  /** Money is conserved over every run of shop, wallet and referrals together, crashes included. */
  lemma {:induction false} RunConserves(w0: World, ops: seq<Op>)
    requires Wide(w0.shop) && w0.bank.ledger == []
    ensures Ledger.Conserved(w0.bank, Run(w0, ops).bank)
    decreases |ops|
  {
    hide Step;
    if ops == [] {
    } else {
      RunConserves(w0, ops[..|ops| - 1]);
      StepConserves(w0.bank, Run(w0, ops[..|ops| - 1]), ops[|ops| - 1]);
    }
  }

  /** What the ledger booked for a user under one heading. */
  function Flow(ledger: seq<Ledger.Tx>, user: nat, kind: Ledger.TxKind): int {
    if ledger == [] then 0
    else
      var last := ledger[|ledger| - 1];
      Flow(ledger[..|ledger| - 1], user, kind) + (if last.user == user && last.kind == kind then last.amount else 0)
  }

  /** The headings one after the other: charges by order, refunds by order, top-ups by request. */
  function Charging(): nat -> Ledger.TxKind { (oid: nat) => Ledger.Charge(oid) }

  function Refunding(): nat -> Ledger.TxKind { (oid: nat) => Ledger.Refund(oid) }

  function ToppingUp(): nat -> Ledger.TxKind { (tid: nat) => Ledger.TopUp(tid) }

  function Flows(ledger: seq<Ledger.Tx>, user: nat, headings: nat -> Ledger.TxKind): nat -> int {
    (i: nat) => Flow(ledger, user, headings(i))
  }

  /** The headings a row may have, given how many orders and top-ups there are. */
  predicate InRange(kind: Ledger.TxKind, orders: nat, topups: nat) {
    && (PerOrder(kind) ==> kind.order < orders)
    && (kind.TopUp? ==> kind.topup < topups)
  }

  lemma FlowsGrow(ledger: seq<Ledger.Tx>, tx: Ledger.Tx, user: nat, headings: nat -> Ledger.TxKind, n: nat, k: nat)
    requires forall i: nat :: i < n ==> (headings(i) == tx.kind <==> i == k)
    ensures Sum(n, Flows(ledger + [tx], user, headings)) ==
            Sum(n, Flows(ledger, user, headings)) + (if k < n && tx.user == user then tx.amount else 0)
  {
    assert (ledger + [tx])[..|ledger|] == ledger;
    SumChanges(n, Flows(ledger, user, headings), Flows(ledger + [tx], user, headings), k,
               if tx.user == user then tx.amount else 0);
  }

  /** What an administrator booked for a user by hand. */
  function Adjusted(ledger: seq<Ledger.Tx>, user: nat): int {
    Flow(ledger, user, Ledger.Adjustment)
  }

  /** All that was booked for a user, heading by heading. */
  function ByHeading(ledger: seq<Ledger.Tx>, user: nat, orders: nat, topups: nat): int {
    Sum(orders, Flows(ledger, user, Charging())) + Sum(orders, Flows(ledger, user, Refunding()))
    + Sum(topups, Flows(ledger, user, ToppingUp())) + Ledger.RewardMoney(ledger, user) + Adjusted(ledger, user)
  }

  lemma ByHeadingGrows(ledger: seq<Ledger.Tx>, tx: Ledger.Tx, user: nat, orders: nat, topups: nat)
    requires InRange(tx.kind, orders, topups)
    ensures ByHeading(ledger + [tx], user, orders, topups) ==
            ByHeading(ledger, user, orders, topups) + (if tx.user == user then tx.amount else 0)
  {
    var kind := tx.kind;
    FlowsGrow(ledger, tx, user, Charging(), orders, if kind.Charge? then kind.order else orders);
    FlowsGrow(ledger, tx, user, Refunding(), orders, if kind.Refund? then kind.order else orders);
    FlowsGrow(ledger, tx, user, ToppingUp(), topups, if kind.TopUp? then kind.topup else topups);
    Ledger.RewardMoneyGrows(ledger, tx, user);
    assert (ledger + [tx])[..|ledger|] == ledger;
    hide Sum, Ledger.RewardMoney;
  }

  /** Every row falls under exactly one heading. */
  lemma {:induction false} MovedByHeading(ledger: seq<Ledger.Tx>, user: nat, orders: nat, topups: nat)
    requires forall k :: 0 <= k < |ledger| ==> InRange(ledger[k].kind, orders, topups)
    ensures Ledger.Moved(ledger, user) == ByHeading(ledger, user, orders, topups)
  {
    if ledger == [] {
      NothingByHeading(user, orders, topups);
    } else {
      var n := |ledger| - 1;
      assert ledger[..n] + [ledger[n]] == ledger;
      hide ByHeading;
      MovedByHeading(ledger[..n], user, orders, topups);
      ByHeadingGrows(ledger[..n], ledger[n], user, orders, topups);
    }
  }

  lemma NothingByHeading(user: nat, orders: nat, topups: nat)
    ensures ByHeading([], user, orders, topups) == 0
  {
    NoFlows(user, Charging(), orders);
    NoFlows(user, Refunding(), orders);
    NoFlows(user, ToppingUp(), topups);
    hide Sum;
  }

  lemma NoFlows(user: nat, headings: nat -> Ledger.TxKind, n: nat)
    ensures Sum(n, Flows([], user, headings)) == 0
  {
    forall i: nat | i < n
      ensures Flows([], user, headings)(i) == 0
    {
      assert Flow([], user, headings(i)) == 0;
    }
    SumOfNothing(n, Flows([], user, headings));
  }

  /** Rows under one heading that are all alike add up to so many times their amount. */
  lemma {:induction false} FlowOfSame(ledger: seq<Ledger.Tx>, user: nat, kind: Ledger.TxKind, owner: nat, amount: int)
    requires forall k :: 0 <= k < |ledger| && ledger[k].kind == kind ==>
               ledger[k].user == owner && ledger[k].amount == amount
    ensures Flow(ledger, user, kind) == if user == owner then Ledger.Times(ledger, kind) * amount else 0
  {
    if ledger == [] {
    } else {
      FlowOfSame(ledger[..|ledger| - 1], user, kind, owner, amount);
    }
  }

  /** What the orders of a user cost whose price was taken from the wallet. */
  function ChargedPrices(w: World, user: nat): nat -> int {
    (oid: nat) =>
      if oid < |w.shop.orders| && w.shop.orders[oid].user == user && Booked(w.bank.ledger, Ledger.Charge(oid))
      then w.shop.orders[oid].final else 0
  }

  /** What was paid for the orders of a user that are marked refunded. */
  function RefundedPayments(w: World, user: nat): nat -> int
    requires Wide(w.shop)
  {
    (oid: nat) =>
      if oid in w.refunded && oid < |w.shop.orders| && w.shop.orders[oid].user == user && w.shop.payments[oid].Some?
      then w.shop.payments[oid].value.amount else 0
  }

  /** What a user's top-ups are worth: once for the approval, once more for each crash. */
  function TopupCredits(w0: World, ops: seq<Op>, user: nat): nat -> int
    requires Wide(w0.shop)
  {
    var w := Run(w0, ops);
    (tid: nat) =>
      if tid < |w.topups| && w.topups[tid].user == user
      then (Approvals(w, tid) + Crashes(w0, ops, tid)) * Credit(w.topups[tid]) else 0
  }

  lemma OnceCounts(w: World, kind: Ledger.TxKind)
    requires Base(w) && PerOrder(kind)
    ensures Ledger.Times(w.bank.ledger, kind) == if Booked(w.bank.ledger, kind) then 1 else 0
    ensures kind.Refund? ==> (Booked(w.bank.ledger, kind) <==> kind.order in w.refunded)
  {
    assert Wide(w.shop);
    hide ShopSound, Ledger.Sound, Ledger.Times;
    if kind.Refund? && kind.order !in w.refunded {
      NeverBooked(w, kind);
    }
  }

  lemma ChargeFlow(w: World, user: nat, oid: nat)
    requires Base(w) && oid < |w.shop.orders|
    ensures Flow(w.bank.ledger, user, Ledger.Charge(oid)) == -ChargedPrices(w, user)(oid)
  {
    OnceCounts(w, Ledger.Charge(oid));
    assert forall k :: 0 <= k < |w.bank.ledger| ==> RowSound(w, w.bank.ledger[k]);
    hide Base, Flow, Ledger.Times;
    FlowOfSame(w.bank.ledger, user, Ledger.Charge(oid), w.shop.orders[oid].user, -w.shop.orders[oid].final);
  }

  lemma RefundFlow(w: World, user: nat, oid: nat)
    requires Base(w) && oid < |w.shop.orders|
    ensures Flow(w.bank.ledger, user, Ledger.Refund(oid)) == RefundedPayments(w, user)(oid)
  {
    OnceCounts(w, Ledger.Refund(oid));
    assert forall k :: 0 <= k < |w.bank.ledger| ==> RowSound(w, w.bank.ledger[k]);
    var paid := if w.shop.payments[oid].Some? then w.shop.payments[oid].value.amount else 0;
    hide Base, Flow, Ledger.Times;
    FlowOfSame(w.bank.ledger, user, Ledger.Refund(oid), w.shop.orders[oid].user, paid);
  }

  lemma TopupFlow(w0: World, ops: seq<Op>, user: nat, tid: nat)
    requires Sound(w0) && tid < |Run(w0, ops).topups|
    ensures Flow(Run(w0, ops).bank.ledger, user, Ledger.TopUp(tid)) == TopupCredits(w0, ops, user)(tid)
  {
    var w := Run(w0, ops);
    RunCounts(w0, ops, tid);
    RunKeepsBase(w0, ops);
    assert Excess(w0, tid) == 0;
    assert forall k :: 0 <= k < |w.bank.ledger| ==> RowSound(w, w.bank.ledger[k]);
    hide Base, Sound, Flow, Ledger.Times, Run, Crashes;
    FlowOfSame(w.bank.ledger, user, Ledger.TopUp(tid), w.topups[tid].user, Credit(w.topups[tid]));
  }

  /**
   Over every run of shop, wallet and referrals together, crashes included: a balance is its
   opening, less the price of each order it was charged for, plus the payments of the refunded
   orders, the credit of each approved top-up and of each crash after one, the rewards paid to
   its owner, and what an administrator adjusted by hand.
   */
  lemma BalanceExplained(w0: World, ops: seq<Op>, user: nat)
    requires Sound(w0) && w0.bank.ledger == []
    requires user < |Run(w0, ops).bank.users|
    ensures var w := Run(w0, ops);
            var orders := |w.shop.orders|;
            w.bank.users[user].balance ==
            Ledger.Opening(w0.bank, user) - Sum(orders, ChargedPrices(w, user)) + Sum(orders, RefundedPayments(w, user))
            + Sum(|w.topups|, TopupCredits(w0, ops, user)) + Ledger.PaidOut(w.bank.rewards, user)
            + Adjusted(w.bank.ledger, user)
  {
    var w := Run(w0, ops);
    var ledger, orders, topups := w.bank.ledger, |w.shop.orders|, |w.topups|;
    RunConserves(w0, ops);
    RunKeepsBase(w0, ops);
    RowsInRange(w);
    forall oid: nat | oid < orders
      ensures Flows(ledger, user, Charging())(oid) == -ChargedPrices(w, user)(oid)
      ensures Flows(ledger, user, Refunding())(oid) == RefundedPayments(w, user)(oid)
    {
      ChargeFlow(w, user, oid);
      RefundFlow(w, user, oid);
    }
    forall tid: nat | tid < topups
      ensures Flows(ledger, user, ToppingUp())(tid) == TopupCredits(w0, ops, user)(tid)
    {
      TopupFlow(w0, ops, user, tid);
    }
    hide Run, Sound, ShopSound, LedgerSound, Sum;
    SumNegates(orders, ChargedPrices(w, user), Flows(ledger, user, Charging()));
    SumAgrees(orders, RefundedPayments(w, user), Flows(ledger, user, Refunding()));
    SumAgrees(topups, TopupCredits(w0, ops, user), Flows(ledger, user, ToppingUp()));
    MovedByHeading(ledger, user, orders, topups);
  }

  lemma RowsInRange(w: World)
    requires Base(w)
    ensures forall k :: 0 <= k < |w.bank.ledger| ==> InRange(w.bank.ledger[k].kind, |w.shop.orders|, |w.topups|)
  {
    forall k | 0 <= k < |w.bank.ledger|
      ensures InRange(w.bank.ledger[k].kind, |w.shop.orders|, |w.topups|)
    {
      assert RowSound(w, w.bank.ledger[k]);
    }
  }

  predicate NeverAllowed(ops: seq<Op>) {
    forall k :: 0 <= k < |ops| && ops[k].Account? && ops[k].act.AdjustOp? ==> !ops[k].act.allowNegative
  }

  lemma PayStaysNonNegative(w: World, op: Op)
    requires Runs.Inv(w.shop) && Ledger.NobodyNegative(w.bank) && (op.PayOp? || op.PayInvoiceOp?)
    ensures Ledger.NobodyNegative(Step(w, op).bank)
  {
    if op.PayOp? {
      ChargedOrder(w.shop, op.oid, op.user, true, CanAfford(w, op.user, op.oid), op.recorded);
    } else if op.iid < |w.shop.invoices| {
      var oid := w.shop.invoices[op.iid].order;
      SettledOrder(w.shop, op.iid, op.user, op.enabled, CanAfford(w, op.user, oid), op.recorded);
    }
    hide PayWithWallet, PayInvoiceWithWallet, Runs.Inv;
  }

  lemma StepStaysNonNegative(w: World, op: Op)
    requires Runs.Inv(w.shop) && Ledger.NobodyNegative(w.bank)
    requires op.Account? && op.act.AdjustOp? ==> !op.act.allowNegative
    ensures Ledger.NobodyNegative(Step(w, op).bank)
  {
    if op.PayOp? || op.PayInvoiceOp? {
      PayStaysNonNegative(w, op);
    } else {
      hide Runs.Step, Runs.OrdersSound, Runs.UsagesSound;
    }
  }

  /** Nothing overdraws: without the explicit permission no balance falls below zero. */
  lemma {:induction false} RunStaysNonNegative(w: World, ops: seq<Op>)
    requires Base(w) && Ledger.NobodyNegative(w.bank) && NeverAllowed(ops)
    ensures Ledger.NobodyNegative(Run(w, ops).bank)
    decreases |ops|
  {
    hide Step, Ledger.NobodyNegative;
    if ops == [] {
    } else {
      RunKeepsBase(w, ops[..|ops| - 1]);
      RunStaysNonNegative(w, ops[..|ops| - 1]);
      StepStaysNonNegative(Run(w, ops[..|ops| - 1]), ops[|ops| - 1]);
    }
  }

  // ---------------------------------------------------------------------------
  // Charging and refunding
  // ---------------------------------------------------------------------------

  /** The payment row records the price the order has now. */
  predicate AmountIsCurrent(t: Tables, oid: nat)
    requires Wide(t) && oid < |t.orders|
  {
    t.payments[oid].Some? ==> t.payments[oid].value.amount == t.orders[oid].final
  }

  /** Charging keeps the amount of an existing payment row. */
  lemma ChargeKeepsAmount(t: Tables, oid: nat, user: nat, recorded: bool)
    requires Wide(t) && Chargeable(t, oid) && t.orders[oid].user == user
    ensures var (after, r) := PayWithWallet(t, oid, user, true, true, recorded);
            && r == Ok(Changed) && oid < |after.orders|
            && after.orders[oid] == t.orders[oid].(status := Approved)
            && Refundable(after, oid) == Refundable(t, oid)
  {
  }

  /**
   A refund gives back what a wallet payment took, so that everybody's balance is as before, if
   and only if the payment row, when there was one, recorded the price the order had when it was
   charged.
   */
  lemma RefundUndoesChargeIff(w: World, oid: nat, recorded: bool)
    requires Base(w) && Chargeable(w.shop, oid) && oid !in w.refunded
    requires CanAfford(w, w.shop.orders[oid].user, oid)
    ensures var paid := PayOrder(w, oid, w.shop.orders[oid].user, true, recorded).0;
            RefundOrder(paid, oid, true).0.bank.users == w.bank.users <==> AmountIsCurrent(w.shop, oid)
  {
    var user, price := w.shop.orders[oid].user, w.shop.orders[oid].final;
    assert Runs.MoneyAdds(w.shop.orders[oid]);
    assert w.shop.payments[oid].Some? ==> w.shop.payments[oid].value.amount >= 0;
    UsersAfterBoth(w, oid, recorded);
    hide PayOrder, RefundOrder, Base, Runs.MoneyAdds, CanAfford;
    var back := RefundOrder(PayOrder(w, oid, user, true, recorded).0, oid, true).0;
    assert back.bank.users[user].balance == w.bank.users[user].balance - price + Refundable(w.shop, oid);
    if Refundable(w.shop, oid) == price {
      assert back.bank.users == w.bank.users;
    }
  }

  lemma UsersAfterBoth(w: World, oid: nat, recorded: bool)
    requires Wide(w.shop) && Chargeable(w.shop, oid) && oid !in w.refunded
    requires CanAfford(w, w.shop.orders[oid].user, oid) && Refundable(w.shop, oid) >= 0
    ensures var user := w.shop.orders[oid].user;
            var u := w.bank.users[user];
            RefundOrder(PayOrder(w, oid, user, true, recorded).0, oid, true).0.bank.users ==
            w.bank.users[user := u.(balance := u.balance - w.shop.orders[oid].final + Refundable(w.shop, oid))]
  {
    var user := w.shop.orders[oid].user;
    var u := w.bank.users[user];
    ChargeKeepsAmount(w.shop, oid, user, recorded);
    hide PayWithWallet;
    assert PayOrder(w, oid, user, true, recorded).0.bank.users ==
           w.bank.users[user := u.(balance := u.balance - w.shop.orders[oid].final)];
  }

  // ---------------------------------------------------------------------------
  // Runs from nothing
  // ---------------------------------------------------------------------------

  const NOBODY := World(Runs.NOTHING, Ledger.Bank([], [], [], []), {}, [])

  lemma NobodyIsSound()
    ensures Sound(NOBODY)
  {
  }

  lemma {:induction false} StepsTo(w: World, ops: seq<Op>, op: Op, mid: World, after: World)
    requires Wide(w.shop) && Run(w, ops) == mid && Step(mid, op) == after
    ensures Run(w, ops + [op]) == after
  {
    hide Step;
    assert (ops + [op])[..|ops|] == ops;
  }

  /** One user, who has joined. */
  function Joined(shop: Tables): World {
    World(shop, Ledger.Bank([Ledger.User(0, None)], [], SalesOf(shop), []), {}, [])
  }

  lemma NobodyJoins()
    ensures Run(NOBODY, [Account(Ledger.JoinOp)]) == Joined(Runs.NOTHING)
  {
    assert [Account(Ledger.JoinOp)][..0] == [];
    assert SalesOf(Runs.NOTHING) == [];
  }

  // ---------------------------------------------------------------------------
  // A top-up credited twice
  // ---------------------------------------------------------------------------

  /** A user joins and asks for a hundred, with a bonus of ten; the approval dies after its credit and is repeated. */
  function ApprovedAfterCrash(): seq<Op> {
    [Account(Ledger.JoinOp)] + [RequestOp(0, 100, 10)] + [SubmitOp(0)] + [CreditAndDieOp(0)] + [ApproveOp(0)]
  }

  function Asked(status: TopupStatus): World {
    Joined(Runs.NOTHING).(topups := [Topup(0, 100, 10, status)])
  }

  function Topped(times: nat, ledger: seq<Ledger.Tx>, status: TopupStatus): World {
    Asked(status).(bank := Joined(Runs.NOTHING).bank.(users := [Ledger.User(times * 110, None)], ledger := ledger))
  }

  /** From nothing: one top-up of a hundred and ten, approved once, leaves two hundred and twenty in the wallet. */
  lemma TopupCreditedTwice()
    ensures var w := Run(NOBODY, ApprovedAfterCrash());
            && !Sound(w) && w.topups == [Topup(0, 100, 10, TopApproved)]
            && |w.bank.users| == 1 && w.bank.users[0].balance == 220
  {
    var first := Ledger.Tx(0, 110, 0, 110, Ledger.TopUp(0));
    var second := Ledger.Tx(0, 110, 110, 220, Ledger.TopUp(0));
    NobodyJoins();
    TopupSteps();
    hide Run, Step;
    var ops := [Account(Ledger.JoinOp)];
    StepsTo(NOBODY, ops, RequestOp(0, 100, 10), Joined(Runs.NOTHING), Asked(TopPending));
    ops := ops + [RequestOp(0, 100, 10)];
    StepsTo(NOBODY, ops, SubmitOp(0), Asked(TopPending), Asked(TopSubmitted));
    ops := ops + [SubmitOp(0)];
    StepsTo(NOBODY, ops, CreditAndDieOp(0), Asked(TopSubmitted), Topped(1, [first], TopSubmitted));
    ops := ops + [CreditAndDieOp(0)];
    StepsTo(NOBODY, ops, ApproveOp(0), Topped(1, [first], TopSubmitted), Topped(2, [first, second], TopApproved));
    CountedTwice(first, second);
  }

  lemma TopupSteps()
    ensures var first := Ledger.Tx(0, 110, 0, 110, Ledger.TopUp(0));
            var second := Ledger.Tx(0, 110, 110, 220, Ledger.TopUp(0));
            && Step(Joined(Runs.NOTHING), RequestOp(0, 100, 10)) == Asked(TopPending)
            && Step(Asked(TopPending), SubmitOp(0)) == Asked(TopSubmitted)
            && Step(Asked(TopSubmitted), CreditAndDieOp(0)) == Topped(1, [first], TopSubmitted)
            && Step(Topped(1, [first], TopSubmitted), ApproveOp(0)) == Topped(2, [first, second], TopApproved)
  {
  }

  lemma CountedTwice(first: Ledger.Tx, second: Ledger.Tx)
    requires first.kind == second.kind == Ledger.TopUp(0)
    ensures !Sound(Topped(2, [first, second], TopApproved))
  {
    Ledger.LedgerGrows([], first);
    Ledger.LedgerGrows([first], second);
    assert [] + [first] == [first] && [first] + [second] == [first, second];
    assert Ledger.Times([first, second], Ledger.TopUp(0)) == 2;
    assert Excess(Topped(2, [first, second], TopApproved), 0) == 1;
  }

  // ---------------------------------------------------------------------------
  // A refund of more than was charged
  // ---------------------------------------------------------------------------

  function FourOff(): Coupon {
    Coupon(false, 4, None, 0, None, None, None, None, None, true, None, None, 0)
  }

  function SixGiven(): Ledger.Op {
    Ledger.AdjustOp(0, 6, false)
  }

  /** A customer joins, orders for ten, opens the payment, then uses a coupon of four, and is given six. */
  function CouponAfterPayment(): seq<Op> {
    [Account(Ledger.JoinOp)] + [ShopCall(Runs.Create(0, 0, Runs.SomeRequest(), true))]
    + [ShopCall(Runs.OpenPayment(0))] + [ShopCall(Runs.EditCoupon(None, FourOff()))]
    + [ShopCall(Runs.UseCoupon(0, Some(0), 0, true, 0))] + [Account(SixGiven())]
  }

  const TEN := Order(0, 0, LicenseProduct, NewPurchase, 10, 0, 10, None, PendingPayment)

  const SIX := TEN.(discount := 4, final := 6, coupon := Some(0))

  /** One order, its payment row, and the coupons there are. */
  function OneOrder(o: Order, p: Option<Payment>, coupons: seq<Coupon>): Tables {
    Tables([o], [p], [], coupons, [])
  }

  const PAY_TEN := Some(Payment(Pending, 10, None))

  /** The order now costs six, its payment row still says ten. */
  function StaleAmount(): World {
    var w := Joined(OneOrder(SIX, PAY_TEN, [FourOff()]));
    w.(bank := w.bank.(users := [Ledger.User(6, None)], ledger := [Ledger.Tx(0, 6, 0, 6, Ledger.Adjustment)]))
  }

  /** What one shop call does once the customer has joined. */
  lemma ShopStep(t: Tables, call: Runs.Op, after: Tables)
    requires Wide(t) && Runs.Step(t, call) == after
    requires !call.WalletPay? && !call.WalletPayInvoice? && (call.Create? ==> call.user == 0)
    ensures Step(Joined(t), ShopCall(call)) == Joined(after)
  {
    hide Runs.Step;
  }

  lemma CouponUsed()
    ensures Runs.Step(OneOrder(TEN, PAY_TEN, [FourOff()]), Runs.UseCoupon(0, Some(0), 0, true, 0)) ==
            OneOrder(SIX, PAY_TEN, [FourOff()])
  {
    assert Validate(true, Some(FourOff()), 0, 0, 0, LicenseProduct, NewPurchase, 10) == Ok(4);
  }

  lemma OrderTaken()
    ensures Runs.Step(Runs.NOTHING, Runs.Create(0, 0, Runs.SomeRequest(), true)) == OneOrder(TEN, None, [])
  {
  }

  lemma PaymentOpened()
    ensures Runs.Step(OneOrder(TEN, None, []), Runs.OpenPayment(0)) == OneOrder(TEN, PAY_TEN, [])
  {
  }

  lemma CouponMade()
    ensures Runs.Step(OneOrder(TEN, PAY_TEN, []), Runs.EditCoupon(None, FourOff())) ==
            OneOrder(TEN, PAY_TEN, [FourOff()])
  {
  }

  lemma StaleAmountHappens()
    ensures Run(NOBODY, CouponAfterPayment()) == StaleAmount()
  {
    NobodyJoins();
    OrderTaken();
    PaymentOpened();
    CouponMade();
    CouponUsed();
    SixArrive();
    hide Run, Step, Runs.Step, Joined;
    var bare, paying := OneOrder(TEN, None, []), OneOrder(TEN, PAY_TEN, []);
    var couponed := OneOrder(TEN, PAY_TEN, [FourOff()]);
    var ops := [Account(Ledger.JoinOp)];
    ShopStep(Runs.NOTHING, Runs.Create(0, 0, Runs.SomeRequest(), true), bare);
    StepsTo(NOBODY, ops, ShopCall(Runs.Create(0, 0, Runs.SomeRequest(), true)), Joined(Runs.NOTHING), Joined(bare));
    ops := ops + [ShopCall(Runs.Create(0, 0, Runs.SomeRequest(), true))];
    ShopStep(bare, Runs.OpenPayment(0), paying);
    StepsTo(NOBODY, ops, ShopCall(Runs.OpenPayment(0)), Joined(bare), Joined(paying));
    ops := ops + [ShopCall(Runs.OpenPayment(0))];
    ShopStep(paying, Runs.EditCoupon(None, FourOff()), couponed);
    StepsTo(NOBODY, ops, ShopCall(Runs.EditCoupon(None, FourOff())), Joined(paying), Joined(couponed));
    ops := ops + [ShopCall(Runs.EditCoupon(None, FourOff()))];
    ShopStep(couponed, Runs.UseCoupon(0, Some(0), 0, true, 0), OneOrder(SIX, PAY_TEN, [FourOff()]));
    StepsTo(NOBODY, ops, ShopCall(Runs.UseCoupon(0, Some(0), 0, true, 0)), Joined(couponed),
            Joined(OneOrder(SIX, PAY_TEN, [FourOff()])));
    ops := ops + [ShopCall(Runs.UseCoupon(0, Some(0), 0, true, 0))];
    StepsTo(NOBODY, ops, Account(SixGiven()), Joined(OneOrder(SIX, PAY_TEN, [FourOff()])), StaleAmount());
  }

  lemma SixArrive()
    ensures Step(Joined(OneOrder(SIX, PAY_TEN, [FourOff()])), Account(SixGiven())) == StaleAmount()
  {
  }

  /** From nothing: an order charged at six is refunded ten, so its buyer ends with four more than was ever paid in. */
  lemma RefundMayExceedCharge()
    ensures Run(NOBODY, CouponAfterPayment()) == StaleAmount() && Base(StaleAmount())
    ensures var w := StaleAmount();
            var paid := PayOrder(w, 0, 0, true, false);
            var back := RefundOrder(paid.0, 0, true);
            && !AmountIsCurrent(w.shop, 0)
            && paid.1 == Ok(Changed) && back.1 == Ok(Changed)
            && w.bank.users == [Ledger.User(6, None)] && back.0.bank.users == [Ledger.User(10, None)]
  {
    hide Run, CouponAfterPayment;
    NobodyIsSound();
    RunKeepsBase(NOBODY, CouponAfterPayment());
    StaleAmountHappens();
    StaleAmountRefunds();
  }

  lemma StaleAmountRefunds()
    ensures var w := StaleAmount();
            var paid := PayOrder(w, 0, 0, true, false);
            var back := RefundOrder(paid.0, 0, true);
            && !AmountIsCurrent(w.shop, 0)
            && paid.1 == Ok(Changed) && back.1 == Ok(Changed) && back.0.bank.users == [Ledger.User(10, None)]
  {
    var w := StaleAmount();
    ChargeKeepsAmount(w.shop, 0, 0, false);
    UsersAfterBoth(w, 0, false);
    hide PayWithWallet;
  }
}
