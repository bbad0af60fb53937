/**
 Money between the shop, the wallet and referrals: charging orders, refunding them, crediting
 top-ups and paying rewards, all on the balances and the one ledger of `Ledger`.
 */
module Wallet {
  import opened Common
  import opened Discounts
  import opened Shop
  import Ledger
  import Runs = ShopRuns

  datatype TopupStatus = TopPending | TopSubmitted | TopApproved | TopRejected | TopExpired

  datatype Topup = Topup(user: nat, amount: int, bonus: int, status: TopupStatus)

  datatype World = World(shop: Tables, bank: Ledger.Bank, refunded: set<nat>, topups: seq<Topup>)

  datatype Problem =
    | ShopSays(why: Refusal) | NoUser | NoOrderHere | NoReason | AlreadyRefunded | NotRefundable | NothingToRefund
    | NoTopup | NotSubmitted | NoLongerApprovable | ApprovedAlready | BadAmount | WouldGoNegative

  type Outcome = Result<Answer, Problem>

  /** The orders as the referral service sees them. */
  function SalesOf(t: Tables): (sales: seq<Ledger.Sale>)
    ensures |sales| == |t.orders|
    ensures forall i :: 0 <= i < |sales| ==>
              sales[i] == Ledger.Sale(t.orders[i].user, t.orders[i].final, t.orders[i].status == Delivered)
  {
    seq(|t.orders|, i requires 0 <= i < |t.orders| =>
      Ledger.Sale(t.orders[i].user, t.orders[i].final, t.orders[i].status == Delivered))
  }

  // ---------------------------------------------------------------------------
  // Calls
  // ---------------------------------------------------------------------------

  function SetShop(w: World, t: Tables): World {
    w.(shop := t, bank := w.bank.(sales := SalesOf(t)))
  }

  predicate Known(w: World, user: nat) {
    user < |w.bank.users|
  }

  /** Changes a balance and books the change. */
  function Book(w: World, user: nat, amount: int, kind: Ledger.TxKind): World
    requires Known(w, user)
  {
    w.(bank := Ledger.Record(w.bank, user, amount, kind))
  }

  predicate CanAfford(w: World, user: nat, oid: nat) {
    Known(w, user) && oid < |w.shop.orders| && w.bank.users[user].balance >= w.shop.orders[oid].final
  }

  /** What is left of a wallet payment once the shop has answered. */
  function Paying(w: World, t: Tables, r: Shop.Outcome, oid: nat, user: nat): World
    requires r == Ok(Changed) ==> Known(w, user) && oid < |w.shop.orders|
  {
    if r == Ok(Changed) then Book(SetShop(w, t), user, -w.shop.orders[oid].final, Ledger.Charge(oid))
    else if r.Ok? then SetShop(w, t) else w
  }

  function Reported(r: Shop.Outcome): Outcome {
    match r
    case Ok(answer) => Ok(answer)
    case Err(why) => Err(ShopSays(why))
  }

  /** Charges the wallet for an order and approves it, unless there is nothing to charge. */
  function PayOrder(w: World, oid: nat, user: nat, enabled: bool, recorded: bool): (World, Outcome)
    requires Wide(w.shop)
  {
    if !enabled then (w, Err(ShopSays(WalletDisabled)))
    else if !Known(w, user) then (w, Err(NoUser))
    else
      var (t, r) := PayWithWallet(w.shop, oid, user, true, CanAfford(w, user, oid), recorded);
      (Paying(w, t, r, oid, user), Reported(r))
  }

  /** Settles an invoice from the wallet. */
  function PayInvoice(w: World, iid: nat, user: nat, enabled: bool, recorded: bool): (World, Outcome)
    requires Wide(w.shop)
  {
    if iid >= |w.shop.invoices| then (w, Err(ShopSays(NoInvoice)))
    else if !Known(w, user) then (w, Err(NoUser))
    else
      var oid := w.shop.invoices[iid].order;
      var (t, r) := PayInvoiceWithWallet(w.shop, iid, user, enabled, CanAfford(w, user, oid), recorded);
      (Paying(w, t, r, oid, user), Reported(r))
  }

  /** What a refund would give back: the amount of the payment row, or the order's price without one. */
  function Refundable(t: Tables, oid: nat): int
    requires Wide(t) && oid < |t.orders|
  {
    if t.payments[oid].Some? then t.payments[oid].value.amount else t.orders[oid].final
  }

  /** Gives a paid order's money back, once. */
  function RefundOrder(w: World, oid: nat, reasonGiven: bool): (World, Outcome)
    requires Wide(w.shop)
  {
    if !reasonGiven then (w, Err(NoReason))
    else if oid >= |w.shop.orders| then (w, Err(NoOrderHere))
    else if oid in w.refunded then (w, Err(AlreadyRefunded))
    else
      var o := w.shop.orders[oid];
      var amount := Refundable(w.shop, oid);
      if !o.status.Paid() && o.status != Failed then (w, Err(NotRefundable))
      else if amount <= 0 then (w, Err(NothingToRefund))
      else if !Known(w, o.user) then (w, Err(NoUser))
      else if w.bank.users[o.user].balance + amount < 0 then (w, Err(WouldGoNegative))
      else (Book(w.(refunded := w.refunded + {oid}), o.user, amount, Ledger.Refund(oid)), Ok(Changed))
  }

  function SetTopup(w: World, tid: nat, status: TopupStatus): World
    requires tid < |w.topups|
  {
    w.(topups := w.topups[tid := w.topups[tid].(status := status)])
  }

  function Credit(p: Topup): int {
    p.amount + p.bonus
  }

  /** Why a top-up cannot be credited now, if it cannot. */
  function TopupRefusal(w: World, tid: nat): Option<Problem> {
    if tid >= |w.topups| then Some(NoTopup)
    else
      var p := w.topups[tid];
      if p.status == TopRejected || p.status == TopExpired then Some(NoLongerApprovable)
      else if p.status != TopSubmitted then Some(NotSubmitted)
      else if Credit(p) <= 0 then Some(BadAmount)
      else if !Known(w, p.user) then Some(NoUser)
      else if w.bank.users[p.user].balance + Credit(p) < 0 then Some(WouldGoNegative)
      else None
  }

  /** The first half of an approval, which commits by itself: the wallet is credited. */
  function CreditTopup(w: World, tid: nat): World
    requires TopupRefusal(w, tid).None?
  {
    Book(w, w.topups[tid].user, Credit(w.topups[tid]), Ledger.TopUp(tid))
  }

  /** Credits a submitted top-up with its gateway bonus, then marks it approved. */
  function ApproveTopup(w: World, tid: nat): (World, Outcome) {
    if tid < |w.topups| && w.topups[tid].status == TopApproved then (w, Ok(AlreadyDone))
    else
      var refusal := TopupRefusal(w, tid);
      if refusal.Some? then (w, Err(refusal.value))
      else (SetTopup(CreditTopup(w, tid), tid, TopApproved), Ok(Changed))
  }

  /** An approval whose worker dies between its two commits. */
  function DieAfterCredit(w: World, tid: nat): World {
    if TopupRefusal(w, tid).None? then CreditTopup(w, tid) else w
  }

  function RejectTopup(w: World, tid: nat, reasonGiven: bool): (World, Outcome) {
    if !reasonGiven then (w, Err(NoReason))
    else if tid >= |w.topups| then (w, Err(NoTopup))
    else if w.topups[tid].status == TopRejected then (w, Ok(AlreadyDone))
    else if w.topups[tid].status == TopApproved then (w, Err(ApprovedAlready))
    else if w.topups[tid].status != TopSubmitted then (w, Err(NotSubmitted))
    else (SetTopup(w, tid, TopRejected), Ok(Changed))
  }

  datatype Op =
    | ShopCall(call: Runs.Op)
    | PayOp(oid: nat, user: nat, enabled: bool, recorded: bool)
    | PayInvoiceOp(iid: nat, user: nat, enabled: bool, recorded: bool)
    | RefundOp(oid: nat, reasonGiven: bool)
    | RequestOp(user: nat, amount: int, bonus: int)
    | SubmitOp(tid: nat)
    | ExpireOp(tid: nat)
    | ApproveOp(tid: nat)
    | CreditAndDieOp(tid: nat)
    | RejectOp(tid: nat, reasonGiven: bool)
    | Account(act: Ledger.Op)

  /** Shop calls that move no money, and orders only of users there are. */
  predicate Plainly(w: World, call: Runs.Op) {
    !call.WalletPay? && !call.WalletPayInvoice? && (call.Create? ==> Known(w, call.user))
  }

  function Step(w: World, op: Op): (r: World)
    requires Wide(w.shop)
    ensures Wide(r.shop)
  {
    match op
    case ShopCall(call) => if Plainly(w, call) then SetShop(w, Runs.Step(w.shop, call)) else w
    case PayOp(oid, user, enabled, recorded) => PayOrder(w, oid, user, enabled, recorded).0
    case PayInvoiceOp(iid, user, enabled, recorded) => PayInvoice(w, iid, user, enabled, recorded).0
    case RefundOp(oid, reasonGiven) => RefundOrder(w, oid, reasonGiven).0
    case RequestOp(user, amount, bonus) => w.(topups := w.topups + [Topup(user, amount, bonus, TopPending)])
    case SubmitOp(tid) =>
      if tid < |w.topups| && w.topups[tid].status == TopPending then SetTopup(w, tid, TopSubmitted) else w
    case ExpireOp(tid) =>
      if tid < |w.topups| && w.topups[tid].status == TopPending then SetTopup(w, tid, TopExpired) else w
    case ApproveOp(tid) => ApproveTopup(w, tid).0
    case CreditAndDieOp(tid) => DieAfterCredit(w, tid)
    case RejectOp(tid, reasonGiven) => RejectTopup(w, tid, reasonGiven).0
    case Account(act) => if act.SaleOp? then w else w.(bank := Ledger.Step(w.bank, act))
  }

  function Run(w: World, ops: seq<Op>): (r: World)
    requires Wide(w.shop)
    ensures Wide(r.shop)
    decreases |ops|
  {
    if ops == [] then w else Step(Run(w, ops[..|ops| - 1]), ops[|ops| - 1])
  }

  // ---------------------------------------------------------------------------
  // Orders: every charge and refund has its reason, once
  // ---------------------------------------------------------------------------

  /** Booked for an order, of which there may be one only. */
  predicate PerOrder(kind: Ledger.TxKind) {
    kind.Charge? || kind.Refund?
  }

  /** A ledger row is what its kind says, for the right user and the right amount. */
  predicate RowSound(w: World, tx: Ledger.Tx)
    requires Wide(w.shop)
  {
    && Known(w, tx.user)
    && match tx.kind
       case Charge(oid) =>
         && oid < |w.shop.orders| && w.shop.orders[oid].status.Paid()
         && tx.user == w.shop.orders[oid].user && tx.amount == -w.shop.orders[oid].final
       case Refund(oid) =>
         && oid in w.refunded && oid < |w.shop.orders| && w.shop.orders[oid].status.Paid()
         && tx.user == w.shop.orders[oid].user && w.shop.payments[oid].Some?
         && tx.amount == w.shop.payments[oid].value.amount > 0
       case TopUp(tid) =>
         tid < |w.topups| && tx.user == w.topups[tid].user && tx.amount == Credit(w.topups[tid])
       case _ => true
  }

  predicate Booked(ledger: seq<Ledger.Tx>, kind: Ledger.TxKind) {
    Ledger.Times(ledger, kind) > 0
  }

  /** No order is charged or refunded twice. */
  ghost predicate EachOnce(ledger: seq<Ledger.Tx>) {
    forall kind :: PerOrder(kind) ==> Ledger.Times(ledger, kind) <= 1
  }

  ghost predicate ShopSound(w: World) {
    && Runs.Inv(w.shop) && Runs.AmountsSane(w.shop)
    && w.bank.sales == SalesOf(w.shop)
    && (forall oid :: 0 <= oid < |w.shop.orders| ==> Known(w, w.shop.orders[oid].user))
  }

  ghost predicate LedgerSound(w: World)
    requires Wide(w.shop)
  {
    && (forall k :: 0 <= k < |w.bank.ledger| ==> RowSound(w, w.bank.ledger[k]))
    && EachOnce(w.bank.ledger)
    && (forall oid :: oid in w.refunded ==> Booked(w.bank.ledger, Ledger.Refund(oid)))
  }

  /** What holds whatever happens, crashes included. */
  ghost predicate Base(w: World) {
    ShopSound(w) && LedgerSound(w) && Ledger.Sound(w.bank)
  }

  /** What may change around the ledger without touching what it says. */
  ghost predicate Grown(w: World, w': World) {
    && Runs.Kept(w.shop, w'.shop) && |w.bank.users| <= |w'.bank.users|
    && w.refunded <= w'.refunded && |w.topups| <= |w'.topups|
    && forall tid :: 0 <= tid < |w.topups| ==> w'.topups[tid] == w.topups[tid].(status := w'.topups[tid].status)
  }

  lemma RowStaysSound(w: World, w': World, tx: Ledger.Tx)
    requires Runs.Inv(w.shop) && Grown(w, w') && RowSound(w, tx)
    ensures RowSound(w', tx)
  {
    if PerOrder(tx.kind) {
      var oid := tx.kind.order;
      assert Runs.OrderKept(w.shop.orders[oid], w'.shop.orders[oid]);
      assert Runs.PaymentKept(w.shop.payments[oid], w'.shop.payments[oid]);
      assert tx.kind.Refund? ==> Runs.Coupled(w.shop.orders[oid].status, w.shop.payments[oid]);
    }
  }

  function Rows(tx: Option<Ledger.Tx>): seq<Ledger.Tx> {
    if tx.Some? then [tx.value] else []
  }

  /** At most one row was booked, a sound one, and nothing else was marked that needs a row. */
  ghost predicate Books(w: World, w': World, tx: Option<Ledger.Tx>)
    requires Wide(w'.shop)
  {
    && w'.bank.ledger == w.bank.ledger + Rows(tx)
    && (tx.Some? ==> RowSound(w', tx.value))
    && (tx.Some? && PerOrder(tx.value.kind) ==> !Booked(w.bank.ledger, tx.value.kind))
    && (forall oid :: oid in w'.refunded ==> oid in w.refunded || (tx.Some? && tx.value.kind == Ledger.Refund(oid)))
  }

  lemma StaysOnce(ledger: seq<Ledger.Tx>, tx: Ledger.Tx)
    requires EachOnce(ledger) && (PerOrder(tx.kind) ==> !Booked(ledger, tx.kind))
    ensures EachOnce(ledger + [tx]) && Booked(ledger + [tx], tx.kind)
    ensures forall kind :: Booked(ledger, kind) ==> Booked(ledger + [tx], kind)
  {
    Ledger.LedgerGrows(ledger, tx);
  }

  /** The step every call amounts to for the ledger. */
  lemma BooksKeepsLedger(w: World, w': World, tx: Option<Ledger.Tx>)
    requires Runs.Inv(w.shop) && Grown(w, w') && LedgerSound(w) && Books(w, w', tx)
    ensures LedgerSound(w')
  {
    assert Wide(w'.shop);
    hide Grown, RowSound, EachOnce, Booked, Runs.OrdersSound, Runs.UsagesSound, Runs.Kept;
    if tx.Some? {
      StaysOnce(w.bank.ledger, tx.value);
    } else {
      assert w'.bank.ledger == w.bank.ledger;
    }
    forall k | 0 <= k < |w'.bank.ledger|
      ensures RowSound(w', w'.bank.ledger[k])
    {
      if k < |w.bank.ledger| {
        RowStaysSound(w, w', w.bank.ledger[k]);
      }
    }
  }

  lemma NeverBooked(w: World, kind: Ledger.TxKind)
    requires Wide(w.shop) && LedgerSound(w) && PerOrder(kind)
    requires kind.Charge? ==> kind.order < |w.shop.orders| && !w.shop.orders[kind.order].status.Paid()
    requires kind.Refund? ==> kind.order !in w.refunded
    ensures !Booked(w.bank.ledger, kind)
  {
    forall k | 0 <= k < |w.bank.ledger|
      ensures w.bank.ledger[k].kind != kind
    {
      assert RowSound(w, w.bank.ledger[k]);
    }
    Ledger.UnknownNeverBooked(w.bank.ledger, kind);
  }

  // ---------------------------------------------------------------------------
  // What each call does to the ledger
  // ---------------------------------------------------------------------------

  /** What a wallet payment does to the order it charges. */
  lemma ChargedOrder(t: Tables, oid: nat, user: nat, enabled: bool, funds: bool, recorded: bool)
    requires Runs.Inv(t)
    ensures var (after, r) := PayWithWallet(t, oid, user, enabled, funds, recorded);
            Charges(t, after, r, oid, user, funds)
  {
  }

  lemma SettledOrder(t: Tables, iid: nat, user: nat, enabled: bool, funds: bool, recorded: bool)
    requires Runs.Inv(t) && iid < |t.invoices|
    ensures var (after, r) := PayInvoiceWithWallet(t, iid, user, enabled, funds, recorded);
            Charges(t, after, r, t.invoices[iid].order, user, funds)
  {
    hide PayWithWallet;
    ChargedOrder(t, t.invoices[iid].order, user, enabled, funds, recorded);
  }

  /** An answer of "changed" means: the order was open, its buyer could pay, and it is approved now. */
  predicate Charges(t: Tables, after: Tables, r: Shop.Outcome, oid: nat, user: nat, funds: bool) {
    && |after.orders| == |t.orders|
    && (r == Ok(Changed) ==>
          && funds && oid < |t.orders| && !t.orders[oid].status.Paid() && t.orders[oid].user == user
          && after.orders[oid] == t.orders[oid].(status := Approved))
  }

  /** A sound shop after a call that adds no order. */
  lemma ShopMoves(w: World, t: Tables)
    requires Base(w) && Runs.Inv(t) && Runs.AmountsSane(t) && Runs.Kept(w.shop, t)
    requires forall oid :: |w.shop.orders| <= oid < |t.orders| ==> Known(w, t.orders[oid].user)
    ensures ShopSound(SetShop(w, t)) && Grown(w, SetShop(w, t)) && Ledger.Sound(SetShop(w, t).bank)
  {
    hide Runs.Inv, Runs.AmountsSane, LedgerSound, Ledger.Sound;
    forall oid | 0 <= oid < |w.shop.orders|
      ensures t.orders[oid].user == w.shop.orders[oid].user
      ensures w.shop.orders[oid].status == Delivered ==> t.orders[oid].status == Delivered
    {
      assert Runs.OrderKept(w.shop.orders[oid], t.orders[oid]);
    }
    Ledger.SalesMayGrow(w.bank, SalesOf(t));
  }

  /** A shop that moved, with nothing booked. */
  lemma QuietlyKeepsBase(w: World, t: Tables)
    requires Base(w) && Runs.Inv(t) && Runs.AmountsSane(t) && Runs.Kept(w.shop, t)
    requires forall oid :: |w.shop.orders| <= oid < |t.orders| ==> Known(w, t.orders[oid].user)
    ensures Base(SetShop(w, t))
  {
    ShopMoves(w, t);
    hide Runs.Inv, Runs.AmountsSane, Runs.Kept, Grown, Ledger.Sound, LedgerSound;
    NoRowBooked(w, SetShop(w, t));
    BooksKeepsLedger(w, SetShop(w, t), None);
  }

  /** The charge of an order that has just become paid. */
  lemma ChargeKeepsBase(w: World, t: Tables, oid: nat, user: nat, funds: bool)
    requires Base(w) && Runs.Inv(t) && Runs.AmountsSane(t) && Runs.Kept(w.shop, t)
    requires Charges(w.shop, t, Ok(Changed), oid, user, funds)
    ensures Known(w, user) && Base(Book(SetShop(w, t), user, -w.shop.orders[oid].final, Ledger.Charge(oid)))
  {
    ShopMoves(w, t);
    assert Wide(w.shop);
    hide Runs.Inv, Runs.AmountsSane, Runs.Kept, Grown, Ledger.Sound, LedgerSound, Booked;
    var amount := -w.shop.orders[oid].final;
    NeverBooked(w, Ledger.Charge(oid));
    Ledger.RecordKeepsSound(SetShop(w, t).bank, user, amount, Ledger.Charge(oid));
    BookKeepsBase(w, SetShop(w, t), user, amount, Ledger.Charge(oid));
  }

  lemma PayingKeepsBase(w: World, t: Tables, r: Shop.Outcome, oid: nat, user: nat, funds: bool)
    requires Base(w) && Runs.Inv(t) && Runs.AmountsSane(t) && Runs.Kept(w.shop, t)
    requires Charges(w.shop, t, r, oid, user, funds)
    ensures r == Ok(Changed) ==> Known(w, user)
    ensures Base(Paying(w, t, r, oid, user))
  {
    hide Base, Runs.Inv, Runs.AmountsSane, Runs.Kept;
    if r == Ok(Changed) {
      ChargeKeepsBase(w, t, oid, user, funds);
    } else if r.Ok? {
      QuietlyKeepsBase(w, t);
    }
  }

  lemma NoRowBooked(w: World, w': World)
    requires Wide(w'.shop) && w'.bank.ledger == w.bank.ledger && w'.refunded == w.refunded
    ensures Books(w, w', None)
  {
  }

  /** Booking one row that is sound and, for an order, the first of its kind. */
  lemma BookKeepsBase(w: World, w': World, user: nat, amount: int, kind: Ledger.TxKind)
    requires Runs.Inv(w.shop) && LedgerSound(w) && Grown(w, w') && ShopSound(w')
    requires w'.bank.ledger == w.bank.ledger && Known(w', user)
    requires Ledger.Sound(Book(w', user, amount, kind).bank)
    requires PerOrder(kind) ==> !Booked(w.bank.ledger, kind)
    requires forall before, after :: RowSound(w', Ledger.Tx(user, amount, before, after, kind))
    requires forall oid :: oid in w'.refunded ==> oid in w.refunded || kind == Ledger.Refund(oid)
    ensures Base(Book(w', user, amount, kind))
  {
    var balance := w'.bank.users[user].balance;
    var tx := Ledger.Tx(user, amount, balance, balance + amount, kind);
    var after := Book(w', user, amount, kind);
    assert RowSound(w', tx);
    assert RowSound(after, tx);
    GrownOn(w, w', after);
    hide LedgerSound, Grown, Booked, Ledger.Sound, Runs.Inv, Runs.AmountsSane, RowSound;
    assert Books(w, after, Some(tx));
    BooksKeepsLedger(w, after, Some(tx));
  }

  lemma GrownOn(w: World, w': World, after: World)
    requires Grown(w, w') && after.shop == w'.shop && after.refunded == w'.refunded && after.topups == w'.topups
    requires |w'.bank.users| <= |after.bank.users|
    ensures Grown(w, after)
  {
    hide Runs.Kept;
  }

  lemma GrownSelf(w: World)
    requires ShopSound(w)
    ensures Grown(w, w)
  {
    Runs.KeptReflexive(w.shop);
    hide Runs.Inv, Runs.Kept, Runs.AmountsSane;
  }

  lemma PayKeepsBase(w: World, oid: nat, user: nat, enabled: bool, recorded: bool)
    requires Base(w)
    ensures Base(PayOrder(w, oid, user, enabled, recorded).0)
  {
    assert Runs.Inv(w.shop) && Runs.AmountsSane(w.shop);
    hide Base, Runs.Inv, Runs.AmountsSane, Runs.Kept, PayWithWallet, Paying, Charges, CanAfford;
    if enabled && Known(w, user) {
      var funds := CanAfford(w, user, oid);
      var (t, r) := PayWithWallet(w.shop, oid, user, true, funds, recorded);
      Runs.WalletSound(w.shop, oid, user, true, funds, recorded);
      Runs.WalletKeepsAmounts(w.shop, oid, user, true, funds, recorded);
      ChargedOrder(w.shop, oid, user, true, funds, recorded);
      PayingKeepsBase(w, t, r, oid, user, funds);
    }
  }

  lemma PayInvoiceKeepsBase(w: World, iid: nat, user: nat, enabled: bool, recorded: bool)
    requires Base(w)
    ensures Base(PayInvoice(w, iid, user, enabled, recorded).0)
  {
    assert Runs.Inv(w.shop) && Runs.AmountsSane(w.shop);
    hide Base, Runs.Inv, Runs.AmountsSane, Runs.Kept, PayInvoiceWithWallet, Paying, Charges, CanAfford;
    if Known(w, user) && iid < |w.shop.invoices| {
      var oid := w.shop.invoices[iid].order;
      var funds := CanAfford(w, user, oid);
      var (t, r) := PayInvoiceWithWallet(w.shop, iid, user, enabled, funds, recorded);
      Runs.WalletInvoiceSound(w.shop, iid, user, enabled, funds, recorded);
      Runs.SettlingKeepsAmounts(w.shop, iid, user, enabled, funds, recorded);
      SettledOrder(w.shop, iid, user, enabled, funds, recorded);
      PayingKeepsBase(w, t, r, oid, user, funds);
    }
  }

  lemma RefundKeepsBase(w: World, oid: nat, reasonGiven: bool)
    requires Base(w)
    ensures Base(RefundOrder(w, oid, reasonGiven).0)
  {
    if RefundOrder(w, oid, reasonGiven).1.Ok? {
      var user, amount := w.shop.orders[oid].user, Refundable(w.shop, oid);
      var w' := w.(refunded := w.refunded + {oid});
      assert Runs.Coupled(w.shop.orders[oid].status, w.shop.payments[oid]);
      GrownSelf(w);
      NeverBooked(w, Ledger.Refund(oid));
      Ledger.RecordKeepsSound(w.bank, user, amount, Ledger.Refund(oid));
      hide LedgerSound, Ledger.Sound, Runs.Inv, Runs.AmountsSane, Runs.Kept, Booked;
      BookKeepsBase(w, w', user, amount, Ledger.Refund(oid));
    }
  }

  lemma CreditKeepsBase(w: World, tid: nat)
    requires Base(w) && TopupRefusal(w, tid).None?
    ensures Base(CreditTopup(w, tid))
  {
    var p := w.topups[tid];
    GrownSelf(w);
    Ledger.RecordKeepsSound(w.bank, p.user, Credit(p), Ledger.TopUp(tid));
    hide LedgerSound, Ledger.Sound, Grown, Runs.Inv, Runs.AmountsSane, Runs.Kept, Booked;
    BookKeepsBase(w, w, p.user, Credit(p), Ledger.TopUp(tid));
  }

  /** Top-up requests may come and change status; the ledger does not care. */
  lemma TopupsMove(w: World, w': World)
    requires Base(w) && w'.shop == w.shop && w'.bank == w.bank && w'.refunded == w.refunded && |w.topups| <= |w'.topups|
    requires forall tid :: 0 <= tid < |w.topups| ==> w'.topups[tid] == w.topups[tid].(status := w'.topups[tid].status)
    ensures Base(w')
  {
    Runs.KeptReflexive(w.shop);
    hide LedgerSound, Ledger.Sound, Runs.Inv, Runs.AmountsSane, Runs.Kept;
    NoRowBooked(w, w');
    BooksKeepsLedger(w, w', None);
  }

  lemma ApproveKeepsBase(w: World, tid: nat)
    requires Base(w)
    ensures Base(ApproveTopup(w, tid).0)
  {
    if ApproveTopup(w, tid).1 == Ok(Changed) {
      hide Base, TopupRefusal;
      CreditKeepsBase(w, tid);
      TopupsMove(CreditTopup(w, tid), SetTopup(CreditTopup(w, tid), tid, TopApproved));
    }
  }

  lemma CallKeepsBase(w: World, call: Runs.Op)
    requires Base(w) && Plainly(w, call)
    ensures Base(SetShop(w, Runs.Step(w.shop, call)))
  {
    Runs.StepSound(w.shop, call);
    Runs.StepKeepsAmounts(w.shop, call);
    NewOrdersAreTheirs(w.shop, call);
    hide Base, Runs.Step, Runs.Inv, Runs.AmountsSane, Runs.Kept;
    QuietlyKeepsBase(w, Runs.Step(w.shop, call));
  }

  lemma OnlyCreatingAddsOrders(t: Tables, call: Runs.Op)
    requires Wide(t) && !call.Create?
    ensures |Runs.Step(t, call).orders| == |t.orders|
  {
  }

  lemma NewOrdersAreTheirs(t: Tables, call: Runs.Op)
    requires Wide(t)
    ensures forall oid :: |t.orders| <= oid < |Runs.Step(t, call).orders| ==>
              call.Create? && Runs.Step(t, call).orders[oid].user == call.user
  {
    if call.Create? {
      assert Runs.Step(t, call) == CreateOrder(t, call.user, call.product, call.request, call.numbered).0;
    } else {
      OnlyCreatingAddsOrders(t, call);
    }
  }

  lemma ActKeepsBase(w: World, act: Ledger.Op)
    requires Base(w) && !act.SaleOp?
    ensures Base(w.(bank := Ledger.Step(w.bank, act)))
  {
    var w' := w.(bank := Ledger.Step(w.bank, act));
    Ledger.StepKeepsSound(w.bank, act);
    Ledger.StepShape(w.bank, act);
    GrownSelf(w);
    GrownOn(w, w, w');
    hide Ledger.Step, Ledger.Sound, Runs.Inv, Runs.AmountsSane, Grown, LedgerSound;
    var n := |w.bank.ledger|;
    if w'.bank.ledger == w.bank.ledger {
      NoRowBooked(w, w');
      BooksKeepsLedger(w, w', None);
    } else {
      var tx := w'.bank.ledger[n];
      assert w'.bank.ledger == w.bank.ledger + Rows(Some(tx));
      BooksKeepsLedger(w, w', Some(tx));
    }
  }

  lemma StepKeepsBase(w: World, op: Op)
    requires Base(w)
    ensures Base(Step(w, op))
  {
    assert Wide(w.shop);
    hide Base, PayOrder, PayInvoice, RefundOrder, ApproveTopup;
    match op
    case ShopCall(call) => if Plainly(w, call) { CallKeepsBase(w, call); }
    case PayOp(oid, user, enabled, recorded) => PayKeepsBase(w, oid, user, enabled, recorded);
    case PayInvoiceOp(iid, user, enabled, recorded) => PayInvoiceKeepsBase(w, iid, user, enabled, recorded);
    case RefundOp(oid, reasonGiven) => RefundKeepsBase(w, oid, reasonGiven);
    case ApproveOp(tid) => ApproveKeepsBase(w, tid);
    case CreditAndDieOp(tid) => if TopupRefusal(w, tid).None? { CreditKeepsBase(w, tid); }
    case Account(act) => if !act.SaleOp? { ActKeepsBase(w, act); }
    case _ => TopupsMove(w, Step(w, op));
  }

  /**
   Over every run, crashes included: an order is charged at most once, only if it is paid, to its
   buyer and by its final price; it is refunded at most once and exactly if it is marked so; and
   rewards stay credited exactly if paid.
   */
  lemma {:induction false} RunKeepsBase(w: World, ops: seq<Op>)
    requires Base(w)
    ensures Base(Run(w, ops))
    decreases |ops|
  {
    hide Step;
    if ops == [] {
    } else {
      RunKeepsBase(w, ops[..|ops| - 1]);
      StepKeepsBase(Run(w, ops[..|ops| - 1]), ops[|ops| - 1]);
    }
  }
}
