/** The wallet and referral calls in place, over the rows they lock. */
module LedgerService {
  import opened Common
  import opened Ledger

  class BankTables {
    var users: seq<User>
    var ledger: seq<Tx>
    var sales: seq<Sale>
    var rewards: seq<Reward>

    constructor (users: seq<User>)
      ensures Snapshot() == Bank(users, [], [], [])
    {
      this.users, this.ledger, this.sales, this.rewards := users, [], [], [];
    }

    function Snapshot(): Bank
      reads this
    {
      Bank(users, ledger, sales, rewards)
    }

    /** Credits or debits a wallet, recording the movement. */
    method AdjustWalletBalance(user: nat, amount: int, allowNegative: bool) returns (r: Result<int, Refusal>)
      modifies this`users, this`ledger
      ensures (Snapshot(), r) == Adjust(old(Snapshot()), user, amount, allowNegative)
      ensures old(Sound(Snapshot())) ==> Sound(Snapshot())
    {
      hide Sound;
      ghost var start := Snapshot();
      if Sound(start) {
        StepKeepsSound(start, AdjustOp(user, amount, allowNegative));
      }
      if amount == 0 {
        return Err(ZeroAmount);
      }
      if user >= |users| {
        return Err(NoUser);
      }
      var before := users[user].balance;
      var after := before + amount;
      if after < 0 && !allowNegative {
        return Err(WouldGoNegative);
      }
      users := users[user := users[user].(balance := after)];
      ledger := ledger + [Tx(user, amount, before, after, Adjustment)];
      return Ok(after);
    }

    /** Attaches a referrer to a user who has none. */
    method RegisterReferral(referred: nat, code: Option<nat>, on: bool) returns (referrer: Option<nat>)
      modifies this`users
      ensures (Snapshot(), referrer) == Register(old(Snapshot()), referred, code, on)
      ensures old(Sound(Snapshot())) ==> Sound(Snapshot())
    {
      hide Sound;
      ghost var start := Snapshot();
      if Sound(start) {
        StepKeepsSound(start, RegisterOp(referred, code, on));
      }
      if !on || referred >= |users| || code.None? || code.value >= |users| {
        return None;
      }
      if users[referred].referrer.Some? || code.value == referred {
        return None;
      }
      users := users[referred := users[referred].(referrer := code)];
      return code;
    }

    /** Credits the referrer's wallet and marks the reward paid. */
    method PayLocked(rid: nat) returns (r: Result<bool, Refusal>)
      requires rid < |rewards|
      modifies this`users, this`ledger, this`rewards
      ensures (Snapshot(), r) == Pay(old(Snapshot()), rid)
      ensures old(Sound(Snapshot())) ==> Sound(Snapshot())
    {
      hide Sound;
      ghost var start := Snapshot();
      if Sound(start) {
        PayKeepsSound(start, rid);
      }
      var reward := rewards[rid];
      if reward.status == RewardPaid {
        return Ok(false);
      }
      if reward.referrer >= |users| {
        return Err(NoUser);
      }
      var before := users[reward.referrer].balance;
      var after := before + reward.amount;
      if after < 0 {
        return Err(WouldGoNegative);
      }
      users := users[reward.referrer := users[reward.referrer].(balance := after)];
      ledger := ledger + [Tx(reward.referrer, reward.amount, before, after, RewardFor(rid))];
      rewards := rewards[rid := reward.(status := RewardPaid)];
      return Ok(true);
    }

    /** Mints the reward of a delivered order, and pays it unless it needs approval. */
    method CreateRewardForOrder(oid: nat, s: Settings) returns (minted: Option<nat>)
      modifies this`users, this`ledger, this`rewards
      ensures (Snapshot(), minted) == CreateReward(old(Snapshot()), oid, s)
      ensures old(Sound(Snapshot())) ==> Sound(Snapshot())
    {
      hide Sound;
      ghost var start := Snapshot();
      if Sound(start) {
        StepKeepsSound(start, CreateOp(oid, s));
      }
      if !s.referrals || !s.rewardsOn || oid >= |sales| || !sales[oid].delivered {
        return None;
      }
      var sale := sales[oid];
      if sale.user >= |users| || users[sale.user].referrer.None? {
        return None;
      }
      var referrer := users[sale.user].referrer.value;
      if referrer == sale.user || HasRewardForOrder(Snapshot(), oid) {
        return None;
      }
      if s.firstOrderOnly && HasPriorReward(Snapshot(), sale.user) {
        return None;
      }
      if sale.final < s.minOrder {
        return None;
      }
      var amount := RewardAmount(s.percent, s.value, sale.final);
      if amount <= 0 {
        return None;
      }
      var rid := |rewards|;
      rewards := rewards + [Reward(referrer, sale.user, oid, amount, RewardPending)];
      if !s.needsApproval {
        var paid := PayLocked(rid);
      }
      return Some(rid);
    }

    /** Pays a pending reward. */
    method ApproveReward(rid: nat) returns (r: Result<bool, Refusal>)
      modifies this`users, this`ledger, this`rewards
      ensures (Snapshot(), r) == Ledger.ApproveReward(old(Snapshot()), rid)
      ensures old(Sound(Snapshot())) ==> Sound(Snapshot())
    {
      hide Sound;
      ghost var start := Snapshot();
      if Sound(start) {
        StepKeepsSound(start, ApproveOp(rid));
      }
      if rid >= |rewards| {
        return Err(NoReward);
      }
      if rewards[rid].status == RewardPaid {
        return Ok(false);
      }
      if rewards[rid].status != RewardPending && rewards[rid].status != RewardApproved {
        return Err(NotPayable);
      }
      r := PayLocked(rid);
    }

    method RejectReward(rid: nat, reasonGiven: bool) returns (r: Result<bool, Refusal>)
      modifies this`rewards
      ensures (Snapshot(), r) == Ledger.RejectReward(old(Snapshot()), rid, reasonGiven)
      ensures old(Sound(Snapshot())) ==> Sound(Snapshot())
    {
      hide Sound;
      ghost var start := Snapshot();
      if Sound(start) {
        StepKeepsSound(start, RejectOp(rid, reasonGiven));
      }
      if !reasonGiven {
        return Err(ReasonRequired);
      }
      if rid >= |rewards| {
        return Err(NoReward);
      }
      if rewards[rid].status == RewardPaid {
        return Err(AlreadyPaid);
      }
      rewards := rewards[rid := rewards[rid].(status := RewardRejected)];
      return Ok(true);
    }
  }
}
