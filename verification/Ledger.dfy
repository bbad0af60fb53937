/**
 Wallets, their ledger, and referral rewards: what each call does, and what every run keeps.

 Each call runs under the row lock its service takes, so a call is one step. Rows are
 positions in sequences.
 */
module Ledger {
  import opened Common

  /** Why a balance changed; charges, refunds and top-ups are booked by `Wallet`. */
  datatype TxKind = Adjustment | RewardFor(rid: nat) | Charge(order: nat) | Refund(order: nat) | TopUp(topup: nat)

  datatype Tx = Tx(user: nat, amount: int, before: int, after: int, kind: TxKind)

  datatype User = User(balance: int, referrer: Option<nat>)

  datatype RewardStatus = RewardPending | RewardApproved | RewardRejected | RewardPaid | RewardCancelled

  datatype Reward = Reward(referrer: nat, referred: nat, order: nat, amount: int, status: RewardStatus)

  /** An order as the reward logic sees it. */
  datatype Sale = Sale(user: nat, final: int, delivered: bool)

  datatype Bank = Bank(users: seq<User>, ledger: seq<Tx>, sales: seq<Sale>, rewards: seq<Reward>)

  datatype Settings = Settings(
    referrals: bool, rewardsOn: bool, percent: bool, value: int,
    needsApproval: bool, firstOrderOnly: bool, minOrder: int)

  datatype Refusal =
    | ZeroAmount | NoUser | WouldGoNegative | NoReward | NotPayable | ReasonRequired | AlreadyPaid

  // ---------------------------------------------------------------------------
  // Calls
  // ---------------------------------------------------------------------------

  /** The locked read-modify-write of one balance, with its ledger row. */
  function Record(b: Bank, user: nat, amount: int, kind: TxKind): Bank
    requires user < |b.users|
  {
    var u := b.users[user];
    b.(users := b.users[user := u.(balance := u.balance + amount)],
       ledger := b.ledger + [Tx(user, amount, u.balance, u.balance + amount, kind)])
  }

  function Adjust(b: Bank, user: nat, amount: int, allowNegative: bool): (Bank, Result<int, Refusal>) {
    if amount == 0 then (b, Err(ZeroAmount))
    else if user >= |b.users| then (b, Err(NoUser))
    else if b.users[user].balance + amount < 0 && !allowNegative then (b, Err(WouldGoNegative))
    else (Record(b, user, amount, Adjustment), Ok(b.users[user].balance + amount))
  }

  /** Attaches a referrer once; `code` is the user the referral code belongs to. */
  function Register(b: Bank, referred: nat, code: Option<nat>, on: bool): (Bank, Option<nat>) {
    if !on || referred >= |b.users| || code.None? || code.value >= |b.users| then (b, None)
    else if b.users[referred].referrer.Some? || code.value == referred then (b, None)
    else (b.(users := b.users[referred := b.users[referred].(referrer := code)]), code)
  }

  function RewardAmount(percent: bool, value: int, base: int): int {
    var amount := if percent then base * value / 100 else value;
    if amount < 0 then 0 else amount
  }

  /** Credits a reward to its referrer, unless it is paid already. */
  function Pay(b: Bank, rid: nat): (Bank, Result<bool, Refusal>)
    requires rid < |b.rewards|
  {
    var r := b.rewards[rid];
    if r.status == RewardPaid then (b, Ok(false))
    else if r.referrer >= |b.users| then (b, Err(NoUser))
    else if b.users[r.referrer].balance + r.amount < 0 then (b, Err(WouldGoNegative))
    else
      var credited := Record(b, r.referrer, r.amount, RewardFor(rid));
      (credited.(rewards := b.rewards[rid := r.(status := RewardPaid)]), Ok(true))
  }

  predicate HasRewardForOrder(b: Bank, oid: nat) {
    exists k :: 0 <= k < |b.rewards| && b.rewards[k].order == oid
  }

  predicate HasPriorReward(b: Bank, user: nat) {
    exists k :: 0 <= k < |b.rewards| && b.rewards[k].referred == user
  }

  /** The reward a delivered order earns its buyer's referrer, if it earns one. */
  function Earned(b: Bank, oid: nat, s: Settings): Option<Reward> {
    if !s.referrals || !s.rewardsOn || oid >= |b.sales| || !b.sales[oid].delivered then None
    else
      var sale := b.sales[oid];
      if sale.user >= |b.users| || b.users[sale.user].referrer.None? then None
      else
        var referrer := b.users[sale.user].referrer.value;
        var amount := RewardAmount(s.percent, s.value, sale.final);
        if referrer == sale.user || HasRewardForOrder(b, oid) then None
        else if s.firstOrderOnly && HasPriorReward(b, sale.user) then None
        else if sale.final < s.minOrder || amount <= 0 then None
        else Some(Reward(referrer, sale.user, oid, amount, RewardPending))
  }

  /** Mints the reward of an order and pays it, unless an administrator has to approve it. */
  function CreateReward(b: Bank, oid: nat, s: Settings): (Bank, Option<nat>) {
    var reward := Earned(b, oid, s);
    if reward.None? then (b, None)
    else
      var minted := b.(rewards := b.rewards + [reward.value]);
      (if s.needsApproval then minted else Pay(minted, |b.rewards|).0, Some(|b.rewards|))
  }

  function ApproveReward(b: Bank, rid: nat): (Bank, Result<bool, Refusal>) {
    if rid >= |b.rewards| then (b, Err(NoReward))
    else if b.rewards[rid].status == RewardPaid then (b, Ok(false))
    else if b.rewards[rid].status != RewardPending && b.rewards[rid].status != RewardApproved then (b, Err(NotPayable))
    else Pay(b, rid)
  }

  function RejectReward(b: Bank, rid: nat, reasonGiven: bool): (Bank, Result<bool, Refusal>) {
    if !reasonGiven then (b, Err(ReasonRequired))
    else if rid >= |b.rewards| then (b, Err(NoReward))
    else if b.rewards[rid].status == RewardPaid then (b, Err(AlreadyPaid))
    else (b.(rewards := b.rewards[rid := b.rewards[rid].(status := RewardRejected)]), Ok(true))
  }

  datatype Op =
    | AdjustOp(user: nat, amount: int, allowNegative: bool)
    | RegisterOp(referred: nat, code: Option<nat>, on: bool)
    | CreateOp(oid: nat, settings: Settings)
    | ApproveOp(rid: nat)
    | RejectOp(rid: nat, reasonGiven: bool)
    | SaleOp(sale: Sale)
    | JoinOp

  function Step(b: Bank, op: Op): Bank {
    match op
    case AdjustOp(user, amount, allowNegative) => Adjust(b, user, amount, allowNegative).0
    case RegisterOp(referred, code, on) => Register(b, referred, code, on).0
    case CreateOp(oid, settings) => CreateReward(b, oid, settings).0
    case ApproveOp(rid) => ApproveReward(b, rid).0
    case RejectOp(rid, reasonGiven) => RejectReward(b, rid, reasonGiven).0
    case SaleOp(sale) => b.(sales := b.sales + [sale])
    case JoinOp => b.(users := b.users + [User(0, None)])
  }

  function Run(b: Bank, ops: seq<Op>): Bank
    decreases |ops|
  {
    if ops == [] then b else Step(Run(b, ops[..|ops| - 1]), ops[|ops| - 1])
  }

  // ---------------------------------------------------------------------------
  // The ledger
  // ---------------------------------------------------------------------------

  /** What the ledger moved on one user's balance. */
  function Moved(ledger: seq<Tx>, user: nat): int {
    if ledger == [] then 0
    else
      var last := ledger[|ledger| - 1];
      Moved(ledger[..|ledger| - 1], user) + (if last.user == user then last.amount else 0)
  }

  /** How often something was booked. */
  function Times(ledger: seq<Tx>, kind: TxKind): nat {
    if ledger == [] then 0
    else Times(ledger[..|ledger| - 1], kind) + (if ledger[|ledger| - 1].kind == kind then 1 else 0)
  }

  /** A user's balance at the start; one who joined later starts at zero. */
  function Opening(b0: Bank, user: nat): int {
    if user < |b0.users| then b0.users[user].balance else 0
  }

  lemma LedgerGrows(ledger: seq<Tx>, tx: Tx)
    ensures forall user: nat ::
              Moved(ledger + [tx], user) == Moved(ledger, user) + (if tx.user == user then tx.amount else 0)
    ensures forall kind :: Times(ledger + [tx], kind) == Times(ledger, kind) + (if tx.kind == kind then 1 else 0)
  {
    assert (ledger + [tx])[..|ledger|] == ledger;
  }

  /** Each row starts from what the rows before it left, and ends where its amount takes it. */
  ghost predicate Chained(b0: Bank, ledger: seq<Tx>) {
    forall k :: 0 <= k < |ledger| ==>
      && ledger[k].before == Opening(b0, ledger[k].user) + Moved(ledger[..k], ledger[k].user)
      && ledger[k].after == ledger[k].before + ledger[k].amount
  }

  /** Balances are their opening plus all that was booked. */
  ghost predicate Conserved(b0: Bank, b: Bank) {
    && |b0.users| <= |b.users|
    && (forall k :: 0 <= k < |b.ledger| ==> b.ledger[k].user < |b.users|)
    && (forall user :: 0 <= user < |b.users| ==> b.users[user].balance == Opening(b0, user) + Moved(b.ledger, user))
    && Chained(b0, b.ledger)
  }

  lemma {:induction false} StrangersMoveNothing(ledger: seq<Tx>, user: nat)
    requires forall k :: 0 <= k < |ledger| ==> ledger[k].user != user
    ensures Moved(ledger, user) == 0
  {
    if ledger == [] {
    } else {
      StrangersMoveNothing(ledger[..|ledger| - 1], user);
    }
  }

  lemma RecordConserves(b0: Bank, b: Bank, user: nat, amount: int, kind: TxKind)
    requires Conserved(b0, b) && user < |b.users|
    ensures Conserved(b0, Record(b, user, amount, kind))
  {
    var after := Record(b, user, amount, kind);
    LedgerGrows(b.ledger, after.ledger[|b.ledger|]);
    forall k | 0 <= k < |after.ledger|
      ensures after.ledger[..k] == if k < |b.ledger| then b.ledger[..k] else b.ledger
    {
    }
  }

  lemma PayConserves(b0: Bank, b: Bank, rid: nat)
    requires Conserved(b0, b) && rid < |b.rewards|
    ensures Conserved(b0, Pay(b, rid).0)
  {
    if b.rewards[rid].referrer < |b.users| {
      RecordConserves(b0, b, b.rewards[rid].referrer, b.rewards[rid].amount, RewardFor(rid));
    }
  }

  lemma CreateConserves(b0: Bank, b: Bank, oid: nat, s: Settings)
    requires Conserved(b0, b)
    ensures Conserved(b0, CreateReward(b, oid, s).0)
  {
    var reward := Earned(b, oid, s);
    if reward.Some? {
      PayConserves(b0, b.(rewards := b.rewards + [reward.value]), |b.rewards|);
    }
  }

  lemma JoinConserves(b0: Bank, b: Bank)
    requires Conserved(b0, b)
    ensures Conserved(b0, Step(b, JoinOp))
  {
    StrangersMoveNothing(b.ledger, |b.users|);
  }

  lemma StepConserves(b0: Bank, b: Bank, op: Op)
    requires Conserved(b0, b)
    ensures Conserved(b0, Step(b, op))
  {
    match op
    case AdjustOp(user, amount, _) => if user < |b.users| { RecordConserves(b0, b, user, amount, Adjustment); }
    case CreateOp(oid, s) => CreateConserves(b0, b, oid, s);
    case ApproveOp(rid) => if rid < |b.rewards| { PayConserves(b0, b, rid); }
    case JoinOp => JoinConserves(b0, b);
    case _ =>
  }

  /**
   Money is conserved over every run: each balance is its opening plus the sum of its ledger
   rows, and the rows chain without a gap.
   */
  lemma {:induction false} RunConserves(b0: Bank, ops: seq<Op>)
    requires b0.ledger == []
    ensures Conserved(b0, Run(b0, ops))
    decreases |ops|
  {
    if ops == [] {
    } else {
      RunConserves(b0, ops[..|ops| - 1]);
      StepConserves(b0, Run(b0, ops[..|ops| - 1]), ops[|ops| - 1]);
    }
  }

  lemma {:induction false} MovedBetween(ledger: seq<Tx>, i: nat, j: nat)
    requires i < j <= |ledger|
    requires forall k :: i < k < j ==> ledger[k].user != ledger[i].user
    ensures Moved(ledger[..j], ledger[i].user) == Moved(ledger[..i], ledger[i].user) + ledger[i].amount
    decreases j
  {
    assert ledger[..j][..j - 1] == ledger[..j - 1];
    if i == j - 1 {
    } else {
      MovedBetween(ledger, i, j - 1);
    }
  }

  /** Consecutive rows of one user meet: the one ends where the next begins. */
  lemma ConsecutiveRowsMeet(b0: Bank, ops: seq<Op>, i: nat, j: nat)
    requires b0.ledger == []
    requires i < j < |Run(b0, ops).ledger|
    requires Run(b0, ops).ledger[i].user == Run(b0, ops).ledger[j].user
    requires forall k :: i < k < j ==> Run(b0, ops).ledger[k].user != Run(b0, ops).ledger[i].user
    ensures Run(b0, ops).ledger[i].after == Run(b0, ops).ledger[j].before
  {
    RunConserves(b0, ops);
    MovedBetween(Run(b0, ops).ledger, i, j);
  }

  ghost predicate NobodyNegative(b: Bank) {
    forall user :: 0 <= user < |b.users| ==> b.users[user].balance >= 0
  }

  predicate NeverAllowed(ops: seq<Op>) {
    forall k :: 0 <= k < |ops| && ops[k].AdjustOp? ==> !ops[k].allowNegative
  }

  /** Without the explicit permission, no balance ever falls below zero. */
  lemma {:induction false} RunStaysNonNegative(b: Bank, ops: seq<Op>)
    requires NobodyNegative(b) && NeverAllowed(ops)
    ensures NobodyNegative(Run(b, ops))
    decreases |ops|
  {
    if ops == [] {
    } else {
      RunStaysNonNegative(b, ops[..|ops| - 1]);
    }
  }

  // ---------------------------------------------------------------------------
  // Rewards
  // ---------------------------------------------------------------------------

  /** A reward row: positive, for another user's order, credited exactly if it is paid. */
  ghost predicate RewardSound(b: Bank, rid: nat)
    requires rid < |b.rewards|
  {
    var r := b.rewards[rid];
    && r.amount > 0 && r.referrer != r.referred
    && r.referred < |b.users| && b.users[r.referred].referrer == Some(r.referrer)
    && r.order < |b.sales| && b.sales[r.order].user == r.referred && b.sales[r.order].delivered
    && Times(b.ledger, RewardFor(rid)) == (if r.status == RewardPaid then 1 else 0)
  }

  /** A credit row pays the reward it names, to its referrer, in full. */
  predicate CreditSound(b: Bank, tx: Tx) {
    tx.kind.RewardFor? ==>
      && tx.kind.rid < |b.rewards|
      && tx.user == b.rewards[tx.kind.rid].referrer && tx.amount == b.rewards[tx.kind.rid].amount
  }

  ghost predicate RewardsSound(b: Bank) {
    && (forall rid :: 0 <= rid < |b.rewards| ==> RewardSound(b, rid))
    && (forall k :: 0 <= k < |b.ledger| ==> CreditSound(b, b.ledger[k]))
    && (forall i, j :: 0 <= i < j < |b.rewards| ==> b.rewards[i].order != b.rewards[j].order)
  }

  lemma {:induction false} UnknownNeverBooked(ledger: seq<Tx>, kind: TxKind)
    requires forall k :: 0 <= k < |ledger| ==> ledger[k].kind != kind
    ensures Times(ledger, kind) == 0
  {
    if ledger == [] {
    } else {
      UnknownNeverBooked(ledger[..|ledger| - 1], kind);
    }
  }

  lemma PaySound(b: Bank, rid: nat)
    requires RewardsSound(b) && rid < |b.rewards|
    ensures RewardsSound(Pay(b, rid).0)
  {
    var (after, paid) := Pay(b, rid);
    if paid == Ok(true) {
      LedgerGrows(b.ledger, after.ledger[|b.ledger|]);
      assert RewardSound(b, rid);
      forall k | 0 <= k < |after.rewards|
        ensures RewardSound(after, k)
      {
        assert RewardSound(b, k);
      }
      forall k | 0 <= k < |after.ledger|
        ensures CreditSound(after, after.ledger[k])
      {
        assert k < |b.ledger| ==> after.ledger[k] == b.ledger[k];
        assert k < |b.ledger| ==> CreditSound(b, b.ledger[k]);
      }
    }
  }

  lemma MintSound(b: Bank, oid: nat, s: Settings)
    requires RewardsSound(b) && Earned(b, oid, s).Some?
    ensures RewardsSound(b.(rewards := b.rewards + [Earned(b, oid, s).value]))
  {
    var minted := b.(rewards := b.rewards + [Earned(b, oid, s).value]);
    forall k | 0 <= k < |b.ledger|
      ensures CreditSound(minted, b.ledger[k]) && b.ledger[k].kind != RewardFor(|b.rewards|)
    {
      assert CreditSound(b, b.ledger[k]);
    }
    UnknownNeverBooked(b.ledger, RewardFor(|b.rewards|));
    forall rid | 0 <= rid < |minted.rewards|
      ensures RewardSound(minted, rid)
    {
      assert rid < |b.rewards| ==> RewardSound(b, rid);
    }
  }

  /** Booking anything but a reward. */
  lemma RecordSound(b: Bank, user: nat, amount: int, kind: TxKind)
    requires RewardsSound(b) && user < |b.users| && !kind.RewardFor?
    ensures RewardsSound(Record(b, user, amount, kind))
  {
    var after := Record(b, user, amount, kind);
    LedgerGrows(b.ledger, after.ledger[|b.ledger|]);
    forall rid | 0 <= rid < |after.rewards|
      ensures RewardSound(after, rid)
    {
      assert RewardSound(b, rid);
    }
    forall k | 0 <= k < |after.ledger|
      ensures CreditSound(after, after.ledger[k])
    {
      assert k < |b.ledger| ==> after.ledger[k] == b.ledger[k] && CreditSound(b, b.ledger[k]);
    }
  }

  /** Calls that book nothing. */
  lemma QuietSound(b: Bank, op: Op)
    requires RewardsSound(b) && (op.RegisterOp? || op.RejectOp? || op.SaleOp? || op.JoinOp?)
    ensures RewardsSound(Step(b, op))
  {
    var after := Step(b, op);
    forall rid | 0 <= rid < |after.rewards|
      ensures RewardSound(after, rid)
    {
      assert RewardSound(b, rid);
    }
    assert forall k :: 0 <= k < |b.ledger| ==> CreditSound(b, b.ledger[k]);
  }

  lemma StepRewards(b: Bank, op: Op)
    requires RewardsSound(b)
    ensures RewardsSound(Step(b, op))
  {
    match op
    case CreateOp(oid, s) =>
      if Earned(b, oid, s).Some? {
        MintSound(b, oid, s);
        PaySound(b.(rewards := b.rewards + [Earned(b, oid, s).value]), |b.rewards|);
      }
    case ApproveOp(rid) => if rid < |b.rewards| { PaySound(b, rid); }
    case AdjustOp(user, amount, _) => if user < |b.users| { RecordSound(b, user, amount, Adjustment); }
    case _ => QuietSound(b, op);
  }

  /**
   Over every run: a reward is credited once if it is paid and never otherwise, in full and to
   the referrer the buyer registered with, and no order earns two.
   */
  lemma {:induction false} RunRewards(b: Bank, ops: seq<Op>)
    requires RewardsSound(b)
    ensures RewardsSound(Run(b, ops))
    decreases |ops|
  {
    if ops == [] {
    } else {
      RunRewards(b, ops[..|ops| - 1]);
      StepRewards(Run(b, ops[..|ops| - 1]), ops[|ops| - 1]);
    }
  }

  ghost predicate OnePerBuyer(b: Bank) {
    forall i, j :: 0 <= i < j < |b.rewards| ==> b.rewards[i].referred != b.rewards[j].referred
  }

  predicate FirstOrdersOnly(ops: seq<Op>) {
    forall k :: 0 <= k < |ops| && ops[k].CreateOp? ==> ops[k].settings.firstOrderOnly
  }

  /** While only first orders are rewarded, a buyer earns at most one reward. */
  lemma {:induction false} RunOnePerBuyer(b: Bank, ops: seq<Op>)
    requires OnePerBuyer(b) && FirstOrdersOnly(ops)
    ensures OnePerBuyer(Run(b, ops))
    decreases |ops|
  {
    if ops == [] {
    } else {
      RunOnePerBuyer(b, ops[..|ops| - 1]);
    }
  }

  predicate Settled(s: RewardStatus) {
    s == RewardPaid || s == RewardRejected
  }

  /** A paid or rejected reward keeps its verdict, and no registered referrer is ever replaced. */
  lemma {:induction false} VerdictsAreFinal(b: Bank, ops: seq<Op>)
    ensures |b.rewards| <= |Run(b, ops).rewards| && |b.users| <= |Run(b, ops).users|
    ensures forall rid :: 0 <= rid < |b.rewards| && Settled(b.rewards[rid].status) ==>
              Run(b, ops).rewards[rid] == b.rewards[rid]
    ensures forall u :: 0 <= u < |b.users| && b.users[u].referrer.Some? ==>
              Run(b, ops).users[u].referrer == b.users[u].referrer
    decreases |ops|
  {
    if ops == [] {
    } else {
      VerdictsAreFinal(b, ops[..|ops| - 1]);
    }
  }

  // ---------------------------------------------------------------------------
  // What referrals cost
  // ---------------------------------------------------------------------------

  /** A percentage reward is the whole part of its share of the price, and no more than the price. */
  lemma RewardIsItsShare(value: int, base: int)
    requires 0 <= value <= 100 && base >= 0
    ensures var r := RewardAmount(true, value, base);
            0 <= r <= base && 100 * r <= base * value < 100 * r + 100
  {
    assert 0 <= base * value <= base * 100;
  }

  /** What the ledger credited to a user for referrals. */
  function RewardMoney(ledger: seq<Tx>, user: nat): int {
    if ledger == [] then 0
    else
      var last := ledger[|ledger| - 1];
      RewardMoney(ledger[..|ledger| - 1], user) + (if last.user == user && last.kind.RewardFor? then last.amount else 0)
  }

  function PaidTo(r: Reward, user: nat): int {
    if r.referrer == user && r.status == RewardPaid then r.amount else 0
  }

  /** What the reward table says was paid to a user. */
  function PaidOut(rewards: seq<Reward>, user: nat): int {
    if rewards == [] then 0
    else PaidOut(rewards[..|rewards| - 1], user) + PaidTo(rewards[|rewards| - 1], user)
  }

  ghost predicate BooksAgree(b: Bank) {
    forall user :: RewardMoney(b.ledger, user) == PaidOut(b.rewards, user)
  }

  lemma {:induction false} PaidOutChange(rewards: seq<Reward>, rid: nat, r: Reward, user: nat)
    requires rid < |rewards|
    ensures PaidOut(rewards[rid := r], user) == PaidOut(rewards, user) - PaidTo(rewards[rid], user) + PaidTo(r, user)
  {
    var n := |rewards| - 1;
    if rid < n {
      PaidOutChange(rewards[..n], rid, r, user);
      assert rewards[rid := r][..n] == rewards[..n][rid := r];
    } else {
      assert rewards[rid := r][..n] == rewards[..n];
    }
  }

  lemma RewardMoneyGrows(ledger: seq<Tx>, tx: Tx, user: nat)
    ensures RewardMoney(ledger + [tx], user) ==
            RewardMoney(ledger, user) + (if tx.user == user && tx.kind.RewardFor? then tx.amount else 0)
  {
    assert (ledger + [tx])[..|ledger|] == ledger;
  }

  lemma PayAgrees(b: Bank, rid: nat)
    requires BooksAgree(b) && rid < |b.rewards|
    ensures BooksAgree(Pay(b, rid).0)
  {
    hide RewardMoney, PaidOut;
    var after := Pay(b, rid).0;
    var r := b.rewards[rid];
    forall user: nat
      ensures RewardMoney(after.ledger, user) == PaidOut(after.rewards, user)
    {
      PaidOutChange(b.rewards, rid, r.(status := RewardPaid), user);
      if r.referrer < |b.users| {
        var u := b.users[r.referrer];
        RewardMoneyGrows(b.ledger, Tx(r.referrer, r.amount, u.balance, u.balance + r.amount, RewardFor(rid)), user);
      }
    }
  }

  lemma MintAgrees(b: Bank, reward: Reward)
    requires BooksAgree(b) && reward.status == RewardPending
    ensures BooksAgree(b.(rewards := b.rewards + [reward]))
  {
    assert (b.rewards + [reward])[..|b.rewards|] == b.rewards;
  }

  lemma RecordAgrees(b: Bank, user: nat, amount: int, kind: TxKind)
    requires BooksAgree(b) && user < |b.users| && !kind.RewardFor?
    ensures BooksAgree(Record(b, user, amount, kind))
  {
    var u := b.users[user];
    forall anyone: nat
      ensures RewardMoney(Record(b, user, amount, kind).ledger, anyone) == RewardMoney(b.ledger, anyone)
    {
      RewardMoneyGrows(b.ledger, Tx(user, amount, u.balance, u.balance + amount, kind), anyone);
    }
  }

  lemma RejectAgrees(b: Bank, rid: nat, reasonGiven: bool)
    requires BooksAgree(b)
    ensures BooksAgree(RejectReward(b, rid, reasonGiven).0)
  {
    if rid < |b.rewards| {
      forall user: nat {
        PaidOutChange(b.rewards, rid, b.rewards[rid].(status := RewardRejected), user);
      }
    }
  }

  lemma StepAgrees(b: Bank, op: Op)
    requires BooksAgree(b)
    ensures BooksAgree(Step(b, op))
  {
    hide BooksAgree, Pay, RejectReward, Earned;
    match op
    case AdjustOp(user, amount, allowNegative) => if user < |b.users| { RecordAgrees(b, user, amount, Adjustment); }
    case CreateOp(oid, s) =>
      var reward := Earned(b, oid, s);
      if reward.Some? {
        EarnedIsPending(b, oid, s);
        MintAgrees(b, reward.value);
        PayAgrees(b.(rewards := b.rewards + [reward.value]), |b.rewards|);
      }
    case ApproveOp(rid) => if rid < |b.rewards| { PayAgrees(b, rid); }
    case RejectOp(rid, reasonGiven) => RejectAgrees(b, rid, reasonGiven);
    case _ => OtherTablesAgree(b, op);
  }

  lemma EarnedIsPending(b: Bank, oid: nat, s: Settings)
    ensures Earned(b, oid, s).Some? ==> Earned(b, oid, s).value.status == RewardPending
  {
  }

  lemma OtherTablesAgree(b: Bank, op: Op)
    requires BooksAgree(b) && (op.RegisterOp? || op.SaleOp? || op.JoinOp?)
    ensures BooksAgree(Step(b, op))
  {
  }

  /** Over every run, what the ledger credited for referrals is what the reward table says was paid, user by user. */
  lemma {:induction false} RunBooksAgree(b: Bank, ops: seq<Op>)
    requires BooksAgree(b)
    ensures BooksAgree(Run(b, ops))
    decreases |ops|
  {
    if ops == [] {
    } else {
      RunBooksAgree(b, ops[..|ops| - 1]);
      StepAgrees(Run(b, ops[..|ops| - 1]), ops[|ops| - 1]);
    }
  }

  /** What was booked for a user apart from rewards. */
  function OtherMoney(ledger: seq<Tx>, user: nat): int {
    if ledger == [] then 0
    else
      var last := ledger[|ledger| - 1];
      OtherMoney(ledger[..|ledger| - 1], user) + (if last.user == user && !last.kind.RewardFor? then last.amount else 0)
  }

  lemma {:induction false} MovedSplits(ledger: seq<Tx>, user: nat)
    ensures Moved(ledger, user) == OtherMoney(ledger, user) + RewardMoney(ledger, user)
  {
    if ledger == [] {
    } else {
      MovedSplits(ledger[..|ledger| - 1], user);
    }
  }

  /** Every balance is its opening, plus what else was booked, plus exactly the rewards paid to its owner. */
  lemma BalanceExplained(b0: Bank, ops: seq<Op>, user: nat)
    requires b0.ledger == [] && BooksAgree(b0)
    requires user < |Run(b0, ops).users|
    ensures var b := Run(b0, ops);
            b.users[user].balance == Opening(b0, user) + OtherMoney(b.ledger, user) + PaidOut(b.rewards, user)
  {
    RunConserves(b0, ops);
    RunBooksAgree(b0, ops);
    MovedSplits(Run(b0, ops).ledger, user);
  }

  /** The reward table and the ledger tell the same story. */
  ghost predicate Sound(b: Bank) {
    RewardsSound(b) && BooksAgree(b)
  }

  lemma StepKeepsSound(b: Bank, op: Op)
    requires Sound(b)
    ensures Sound(Step(b, op))
  {
    StepRewards(b, op);
    StepAgrees(b, op);
  }

  lemma PayKeepsSound(b: Bank, rid: nat)
    requires Sound(b) && rid < |b.rewards|
    ensures Sound(Pay(b, rid).0)
  {
    PaySound(b, rid);
    PayAgrees(b, rid);
  }

  /** Later sales, and deliveries of earlier ones, leave every reward as sound as it was. */
  lemma SalesMayGrow(b: Bank, sales: seq<Sale>)
    requires Sound(b) && |b.sales| <= |sales|
    requires forall i :: 0 <= i < |b.sales| ==>
               sales[i].user == b.sales[i].user && (b.sales[i].delivered ==> sales[i].delivered)
    ensures Sound(b.(sales := sales))
  {
    var after := b.(sales := sales);
    forall rid | 0 <= rid < |b.rewards|
      ensures RewardSound(after, rid)
    {
      assert RewardSound(b, rid);
    }
    forall k | 0 <= k < |b.ledger|
      ensures CreditSound(after, b.ledger[k])
    {
      assert CreditSound(b, b.ledger[k]);
    }
  }

  lemma RecordKeepsSound(b: Bank, user: nat, amount: int, kind: TxKind)
    requires Sound(b) && user < |b.users| && !kind.RewardFor?
    ensures Sound(Record(b, user, amount, kind))
  {
    RecordSound(b, user, amount, kind);
    RecordAgrees(b, user, amount, kind);
  }

  /** What a call may do to the tables others read: one more row of its own kind, or one more user. */
  lemma StepShape(b: Bank, op: Op)
    requires !op.SaleOp?
    ensures var after := Step(b, op);
            && after.sales == b.sales && |b.users| <= |after.users|
            && (after.ledger == b.ledger
                || (&& |after.ledger| == |b.ledger| + 1 && b.ledger <= after.ledger
                    && var tx := after.ledger[|b.ledger|];
                       tx.user < |after.users| && (tx.kind.Adjustment? || tx.kind.RewardFor?)))
  {
  }
}
