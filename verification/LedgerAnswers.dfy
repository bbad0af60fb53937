/** What each call on balances and referral rewards answers, and what it leaves behind. */
module LedgerAnswers {
  import opened Common
  import opened Ledger

  // ---------------------------------------------------------------------------
  // Balances
  // ---------------------------------------------------------------------------

  /** One user's balance moved by an amount, with the ledger row that says so, and no other user's. */
  predicate Moves(b: Bank, after: Bank, user: nat, amount: int, kind: TxKind) {
    && user < |b.users| && |after.users| == |b.users|
    && after.users[user].balance == b.users[user].balance + amount
    && after.users[user].referrer == b.users[user].referrer
    && (forall i :: 0 <= i < |b.users| && i != user ==> after.users[i] == b.users[i])
    && after.ledger == b.ledger + [Tx(user, amount, b.users[user].balance, after.users[user].balance, kind)]
  }

  /** An adjustment goes through for anything but zero, on any user there is, and below zero only if allowed. */
  lemma AdjustingMeans(b: Bank, user: nat, amount: int, allowNegative: bool)
    ensures var (after, r) := Adjust(b, user, amount, allowNegative);
            var known := user < |b.users|;
            && (r.Ok? <==> amount != 0 && known && (allowNegative || b.users[user].balance + amount >= 0))
            && (r == Err(ZeroAmount) <==> amount == 0)
            && (r == Err(NoUser) <==> amount != 0 && !known)
            && (r.Ok? ==> Moves(b, after, user, amount, Adjustment) && r.value == after.users[user].balance)
            && (r.Err? ==> after == b)
            && after.sales == b.sales && after.rewards == b.rewards
  {
  }

  // ---------------------------------------------------------------------------
  // Referrers
  // ---------------------------------------------------------------------------

  /** A referrer is attached exactly to a user who has none yet, by a valid code that is not the user's own. */
  lemma RegisteringMeans(b: Bank, referred: nat, code: Option<nat>, on: bool)
    ensures var (after, r) := Register(b, referred, code, on);
            && (r.Some? <==>
                  && on && referred < |b.users| && b.users[referred].referrer.None?
                  && code.Some? && code.value < |b.users| && code.value != referred)
            && (r.Some? ==>
                  r == code && after == b.(users := b.users[referred := User(b.users[referred].balance, code)]))
            && (r.None? ==> after == b)
  {
  }

  // ---------------------------------------------------------------------------
  // Rewards
  // ---------------------------------------------------------------------------

  /** A percentage reward is rounded down; neither kind is ever negative. */
  lemma RewardAmountMeans(percent: bool, value: int, base: int)
    ensures var r := RewardAmount(percent, value, base);
            && (percent && base * value >= 0 ==> 100 * r <= base * value < 100 * r + 100)
            && (percent && base * value < 0 ==> r == 0)
            && (!percent ==> r == if value > 0 then value else 0)
  {
  }

  /** The order is worth a reward to its buyer's referrer. */
  ghost predicate Qualifies(b: Bank, oid: nat, s: Settings) {
    && s.referrals && s.rewardsOn
    && oid < |b.sales| && b.sales[oid].delivered && s.minOrder <= b.sales[oid].final
    && RewardAmount(s.percent, s.value, b.sales[oid].final) > 0
    && var buyer := b.sales[oid].user;
       && buyer < |b.users| && b.users[buyer].referrer.Some? && b.users[buyer].referrer.value != buyer
       && (forall k :: 0 <= k < |b.rewards| ==> b.rewards[k].order != oid)
       && (s.firstOrderOnly ==> forall k :: 0 <= k < |b.rewards| ==> b.rewards[k].referred != buyer)
  }

  /** The reward is credited to its referrer and marked paid, and nothing else changed. */
  predicate PaidOff(b: Bank, after: Bank, rid: nat) {
    && rid < |b.rewards|
    && Moves(b, after, b.rewards[rid].referrer, b.rewards[rid].amount, RewardFor(rid))
    && after.rewards == b.rewards[rid := b.rewards[rid].(status := RewardPaid)]
    && after.sales == b.sales
  }

  /** There is somebody to credit, whom the credit does not leave below zero. */
  predicate Creditable(b: Bank, rid: nat)
    requires rid < |b.rewards|
  {
    var r := b.rewards[rid];
    r.referrer < |b.users| && b.users[r.referrer].balance + r.amount >= 0
  }

  /** Paying pays once, if there is somebody to credit. */
  lemma PayingMeans(b: Bank, rid: nat)
    requires rid < |b.rewards|
    ensures var (after, r) := Pay(b, rid);
            && (r == Ok(false) <==> b.rewards[rid].status == RewardPaid)
            && (r == Ok(true) <==> b.rewards[rid].status != RewardPaid && Creditable(b, rid))
            && (r == Ok(true) ==> PaidOff(b, after, rid))
            && (r != Ok(true) ==> after == b)
            && (r == Err(NoUser) ==> b.rewards[rid].referrer >= |b.users|)
  {
  }

  /**
   A reward is minted exactly for a qualifying order, for the buyer's referrer. It waits for an
   administrator if the settings ask for one; else it is paid at once, if it can be.
   */
  lemma MintingMeans(b: Bank, oid: nat, s: Settings)
    ensures var (after, r) := CreateReward(b, oid, s);
            var rid := |b.rewards|;
            && (r.Some? <==> Qualifies(b, oid, s))
            && (r.None? ==> after == b)
            && (r.Some? ==>
                  && r.value == rid
                  && var buyer := b.sales[oid].user;
                     var amount := RewardAmount(s.percent, s.value, b.sales[oid].final);
                     var reward := Reward(b.users[buyer].referrer.value, buyer, oid, amount, RewardPending);
                     var minted := b.(rewards := b.rewards + [reward]);
                     if s.needsApproval || !Creditable(minted, rid) then after == minted
                     else PaidOff(minted, after, rid))
  {
    var reward := Earned(b, oid, s);
    if reward.Some? {
      PayingMeans(b.(rewards := b.rewards + [reward.value]), |b.rewards|);
    }
  }

  /** An administrator's approval pays a reward that waits, leaves a paid one alone, and is refused for any other. */
  lemma ApprovingMeans(b: Bank, rid: nat)
    ensures var (after, r) := ApproveReward(b, rid);
            var known := rid < |b.rewards|;
            && (r == Err(NoReward) <==> !known)
            && (r == Ok(false) <==> known && b.rewards[rid].status == RewardPaid)
            && (r == Err(NotPayable) <==> known && b.rewards[rid].status in {RewardRejected, RewardCancelled})
            && (r == Ok(true) <==>
                  known && b.rewards[rid].status in {RewardPending, RewardApproved} && Creditable(b, rid))
            && (r == Ok(true) ==> PaidOff(b, after, rid))
            && (r != Ok(true) ==> after == b)
  {
    if rid < |b.rewards| {
      PayingMeans(b, rid);
    }
  }

  /** A rejection needs a reason and a reward that is not paid; it moves no money. */
  lemma RejectingMeans(b: Bank, rid: nat, reason: bool)
    ensures var (after, r) := RejectReward(b, rid, reason);
            var known := rid < |b.rewards|;
            && (r == Err(ReasonRequired) <==> !reason)
            && (r == Err(NoReward) <==> reason && !known)
            && (r == Err(AlreadyPaid) <==> reason && known && b.rewards[rid].status == RewardPaid)
            && (r.Ok? <==> reason && known && b.rewards[rid].status != RewardPaid)
            && (r.Ok? ==> after == b.(rewards := b.rewards[rid := b.rewards[rid].(status := RewardRejected)]))
            && (r.Err? ==> after == b)
  {
  }

  // ---------------------------------------------------------------------------
  // Who lets money go
  // ---------------------------------------------------------------------------

  predicate AlwaysAsks(ops: seq<Op>) {
    forall k :: 0 <= k < |ops| && ops[k].CreateOp? ==> ops[k].settings.needsApproval
  }

  predicate IsPaid(b: Bank, rid: nat) {
    rid < |b.rewards| && b.rewards[rid].status == RewardPaid
  }

  lemma StepPays(b: Bank, op: Op, rid: nat)
    requires IsPaid(Step(b, op), rid) && !IsPaid(b, rid)
    ensures op == ApproveOp(rid) || (op.CreateOp? && !op.settings.needsApproval && rid == |b.rewards|)
  {
    match op
    case CreateOp(oid, s) => MintingMeans(b, oid, s);
    case ApproveOp(r) => ApprovingMeans(b, r);
    case RejectOp(r, reason) => RejectingMeans(b, r, reason);
    case _ =>
  }

  /** While approval is required, over every run no reward is paid that an administrator did not approve. */
  lemma {:induction false} NoPayWithoutApproval(b: Bank, ops: seq<Op>, rid: nat)
    requires AlwaysAsks(ops) && IsPaid(Run(b, ops), rid) && !IsPaid(b, rid)
    ensures ApproveOp(rid) in ops
    decreases |ops|
  {
    hide Step;
    if ops == [] {
    } else {
      var n := |ops| - 1;
      var before := Run(b, ops[..n]);
      if IsPaid(before, rid) {
        NoPayWithoutApproval(b, ops[..n], rid);
      } else {
        StepPays(before, ops[n], rid);
      }
    }
  }

  /** Every qualifying order is rewarded at once while no approval is required and its referrer is not in debt. */
  lemma RewardedAtOnce(b: Bank, oid: nat, s: Settings)
    requires Qualifies(b, oid, s) && !s.needsApproval
    requires var referrer := b.users[b.sales[oid].user].referrer.value;
             referrer < |b.users| && b.users[referrer].balance >= 0
    ensures var after := Step(b, CreateOp(oid, s));
            var referrer := b.users[b.sales[oid].user].referrer.value;
            && IsPaid(after, |b.rewards|)
            && |after.users| == |b.users|
            && after.users[referrer].balance ==
               b.users[referrer].balance + RewardAmount(s.percent, s.value, b.sales[oid].final)
  {
    MintingMeans(b, oid, s);
  }
}
