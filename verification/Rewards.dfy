/**
  The reflection pool of the rewards program. Fees are shared among all holders without visiting
  them: every holder keeps a fixed number of reflections, and a falling global rate makes the same
  reflections worth more tokens.
  */
module Rewards {
  import opened Machine
  import opened Staking
  import opened Token

  const INITIAL_RATE: nat := (U128_MAX - U128_MAX % NOS_TOTAL_SUPPLY) / NOS_TOTAL_SUPPLY

  datatype Totals = Totals(rate: u128, reflection: u128, xnos: u128)

  datatype Reward = Reward(reflection: u128, xnos: u128)

  type Holders = map<Pubkey, Reward>

  // ---------------------------------------------------------------- effects on the pool

  function FeeAdded(t: Totals, fee: nat): Result<Totals> {
    var pool :- ToU128(t.xnos + fee);
    var rate :- Quotient(t.reflection, pool);
    var rate' :- ToU128(rate);
    Ok(Totals(rate', t.reflection, pool))
  }

  /** The totals after a holder joins with `xnos` and a pending reward, and the holder's reflections. */
  function Joined(t: Totals, xnos: nat, pending: nat): Result<(Totals, u128)> {
    var weight :- ToU128(xnos + pending);
    var reflection :- ToU128(weight * t.rate);
    var reflections :- ToU128(t.reflection + reflection);
    var pool :- ToU128(t.xnos + xnos);
    Ok((Totals(t.rate, reflections, pool), reflection))
  }

  function Left(t: Totals, reflection: nat, xnos: nat): Result<Totals> {
    var pool :- ToU128(t.xnos - xnos);
    var reflections :- ToU128(t.reflection - reflection);
    Ok(Totals(t.rate, reflections, pool))
  }

  /** The reward a holder could claim at `rate`. */
  function Amount(r: Reward, rate: nat): Result<u128> {
    var worth :- Quotient(r.reflection, rate);
    ToU128(worth - r.xnos)
  }

  function Entered(t: Totals, xnos: nat): Result<(Totals, Reward)> {
    var (joined, reflection) :- Joined(t, xnos, 0);
    var weight :- ToU128(xnos);
    Ok((joined, Reward(reflection, weight)))
  }

  /** The pool, the holder and the payout of a claim by a holder whose stake weighs `xnos`. */
  function Claimed(t: Totals, r: Reward, xnos: u128): Result<(Totals, Reward, u64)> {
    var amount :- Amount(r, t.rate);
    if amount == 0 then Ok((t, r, 0))
    else
      var total :- ToU128(r.xnos + amount);
      var left :- Left(t, r.reflection, total);
      var (joined, reflection) :- Joined(left, xnos, 0);
      var payout :- ToU64(amount);
      Ok((joined, Reward(reflection, xnos), payout))
  }

  function Synced(t: Totals, r: Reward, xnos: u128): Result<(Totals, Reward)> {
    var left :- Left(t, r.reflection, r.xnos);
    var amount :- Amount(r, left.rate);
    var (joined, reflection) :- Joined(left, xnos, amount);
    Ok((joined, Reward(reflection, xnos)))
  }

  // ---------------------------------------------------------------- accounts and instructions

  class ReflectionAccount {
    var rate: u128
    var totalReflection: u128
    var totalXnos: u128

    constructor ()
      ensures Get() == Totals(INITIAL_RATE, 0, 0)
    {
      rate, totalReflection, totalXnos := INITIAL_RATE, 0, 0;
    }

    function Get(): Totals
      reads this
    {
      Totals(rate, totalReflection, totalXnos)
    }

    method AddFee(fee: u128) returns (r: Result<()>)
      modifies this
      ensures r.Ok? <==> FeeAdded(old(Get()), fee).Ok?
      ensures r.Ok? ==> Ok(Get()) == FeeAdded(old(Get()), fee)
    {
      totalXnos :- ToU128(totalXnos + fee);
      if totalXnos == 0 {
        return Abort;
      }
      rate :- ToU128(totalReflection / totalXnos);
      return Ok(());
    }

    method AddRewardsAccount(xnos: u128, rewardXnos: u128) returns (r: Result<u128>)
      modifies this
      ensures r.Ok? <==> Joined(old(Get()), xnos, rewardXnos).Ok?
      ensures r.Ok? ==> Ok((Get(), r.value)) == Joined(old(Get()), xnos, rewardXnos)
    {
      var weight :- ToU128(xnos + rewardXnos);
      var reflection :- ToU128(weight * rate);
      totalReflection :- ToU128(totalReflection + reflection);
      totalXnos :- ToU128(totalXnos + xnos);
      return Ok(reflection);
    }

    method RemoveRewardsAccount(reflection: u128, xnos: u128) returns (r: Result<()>)
      modifies this
      ensures r.Ok? <==> Left(old(Get()), reflection, xnos).Ok?
      ensures r.Ok? ==> Ok(Get()) == Left(old(Get()), reflection, xnos)
    {
      totalXnos :- ToU128(totalXnos - xnos);
      totalReflection :- ToU128(totalReflection - reflection);
      return Ok(());
    }
  }

  class RewardAccount {
    var reflection: u128
    var xnos: u128

    constructor ()
      ensures Get() == Reward(0, 0)
    {
      reflection, xnos := 0, 0;
    }

    function Get(): Reward
      reads this
    {
      Reward(reflection, xnos)
    }

    method Update(reflection: u128, xnos: u128)
      modifies this
      ensures Get() == Reward(reflection, xnos)
    {
      this.reflection := reflection;
      this.xnos := xnos;
    }
  }

  method EnterPool(reflection: ReflectionAccount, reward: RewardAccount, stake: StakeAccount)
    returns (r: Result<()>)
    modifies reflection, reward
    ensures r.Ok? <==> stake.timeUnstake == 0 && Entered(old(reflection.Get()), stake.xnos).Ok?
    ensures r.Ok? ==> Ok((reflection.Get(), reward.Get())) == Entered(old(reflection.Get()), stake.xnos)
  {
    if stake.timeUnstake != 0 {
      return Abort;
    }
    var reflections :- reflection.AddRewardsAccount(stake.xnos, 0);
    reward.Update(reflections, stake.xnos);
    return Ok(());
  }

  method AddFeeToPool(reflection: ReflectionAccount, bank: Bank, user: Account, vault: Account, amount: u64)
    returns (r: Result<()>)
    modifies reflection, bank
    ensures r.Ok? <==> FeeAdded(old(reflection.Get()), amount).Ok?
                       && Transferred(old(bank.balances), user, vault, amount).Ok?
    ensures r.Ok? ==> Ok(reflection.Get()) == FeeAdded(old(reflection.Get()), amount)
    ensures r.Ok? ==> Ok(bank.balances) == Transferred(old(bank.balances), user, vault, amount)
  {
    var _ :- reflection.AddFee(amount);
    r := bank.Transfer(user, vault, amount);
  }

  /** The effect of a claim on the pool, the holder and the ledger, with its account constraints. */
  function ClaimPaid(t: Totals, r: Reward, s: Stake, l: Ledger, vault: Account, user: Account)
    : Result<(Totals, Reward, Ledger)>
  {
    var _ :- Guard(user in l && vault in l && s.timeUnstake == 0 && s.xnos >= r.xnos);
    var (t', r', payout) :- Claimed(t, r, s.xnos);
    if payout == 0 then Ok((t', r', l))
    else
      var l' :- Transferred(l, vault, user, payout);
      Ok((t', r', l'))
  }

  /** Takes the pending reward out of the pool and puts the holder back in with the weight of the stake. */
  method TakeReward(reflection: ReflectionAccount, reward: RewardAccount, xnos: u128) returns (r: Result<u64>)
    modifies reflection, reward
    ensures r.Ok? <==> Claimed(old(reflection.Get()), old(reward.Get()), xnos).Ok?
    ensures r.Ok? ==> Ok((reflection.Get(), reward.Get(), r.value))
                      == Claimed(old(reflection.Get()), old(reward.Get()), xnos)
  {
    var amount :- Amount(reward.Get(), reflection.rate);
    if amount == 0 {
      return Ok(0);
    }
    var total :- ToU128(reward.xnos + amount);
    var _ :- reflection.RemoveRewardsAccount(reward.reflection, total);
    var reflections :- reflection.AddRewardsAccount(xnos, 0);
    reward.Update(reflections, xnos);
    r := ToU64(amount);
  }

  method ClaimReward(reflection: ReflectionAccount, reward: RewardAccount, stake: StakeAccount,
                     bank: Bank, vault: Account, user: Account)
    returns (r: Result<()>)
    modifies reflection, reward, bank
    ensures r.Ok? <==> ClaimPaid(old(reflection.Get()), old(reward.Get()), stake.Get(),
                                 old(bank.balances), vault, user).Ok?
    ensures r.Ok? ==> Ok((reflection.Get(), reward.Get(), bank.balances))
                      == ClaimPaid(old(reflection.Get()), old(reward.Get()), stake.Get(),
                                   old(bank.balances), vault, user)
  {
    if user !in bank.balances || vault !in bank.balances || stake.timeUnstake != 0
       || stake.xnos < reward.xnos {
      return Abort;
    }
    var payout :- TakeReward(reflection, reward, stake.xnos);
    if payout == 0 {
      return Ok(());
    }
    r := bank.Transfer(vault, user, payout);
  }

  method SyncReward(reflection: ReflectionAccount, reward: RewardAccount, stake: StakeAccount)
    returns (r: Result<()>)
    modifies reflection, reward
    ensures r.Ok? <==> stake.timeUnstake == 0
                       && Synced(old(reflection.Get()), old(reward.Get()), stake.xnos).Ok?
    ensures r.Ok? ==> Ok((reflection.Get(), reward.Get()))
                      == Synced(old(reflection.Get()), old(reward.Get()), stake.xnos)
  {
    if stake.timeUnstake != 0 {
      return Abort;
    }
    var _ :- reflection.RemoveRewardsAccount(reward.reflection, reward.xnos);
    var amount :- Amount(reward.Get(), reflection.rate);
    var reflections :- reflection.AddRewardsAccount(stake.xnos, amount);
    reward.Update(reflections, stake.xnos);
    return Ok(());
  }

  method CloseReward(reflection: ReflectionAccount, reward: RewardAccount) returns (r: Result<()>)
    modifies reflection
    ensures r.Ok? <==> Left(old(reflection.Get()), reward.reflection, reward.xnos).Ok?
    ensures r.Ok? ==> Ok(reflection.Get()) == Left(old(reflection.Get()), reward.reflection, reward.xnos)
  {
    r := reflection.RemoveRewardsAccount(reward.reflection, reward.xnos);
  }
}
