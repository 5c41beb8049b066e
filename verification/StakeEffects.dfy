/**
  What each instruction of the staking program does, from start to end: exactly when it goes through,
  and every field and balance afterwards.
  */
module StakeEffects {
  import opened Machine
  import opened MapSum
  import opened Network
  import opened Rewards
  import opened Staking
  import opened StakeRuns
  import opened Token

  /** Two weeks and a year, in seconds. */
  predicate AllowedDuration(duration: int) {
    1_209_600 <= duration <= 31_536_000
  }

  /** A stake opens for its owner's tokens, with the given amount and duration, active and weighed. */
  lemma OpenStakeExactly(w: World, k: Pubkey, amount: u64, duration: u128)
    requires Safe(w) && Sum(w.ledger) <= U64_MAX
    ensures OpenStakeTx(w, k, amount, duration).Ok?
            <==> && k !in w.stakes && AllowedDuration(duration)
                 && Wallet(k) in w.ledger && amount <= w.ledger[Wallet(k)]
    ensures OpenStakeTx(w, k, amount, duration).Ok? ==>
              var w' := OpenStakeTx(w, k, amount, duration).value;
              && w' == w.(ledger := w'.ledger, logs := w.logs[k := VaultLog(0, 0)],
                          stakes := w.stakes[k := Stake(amount, duration, 0, Weight(amount, duration))])
              && Moved(w.ledger[StakeVault(k) := 0], w'.ledger, Wallet(k), StakeVault(k), amount)
  {
    var l := w.ledger[StakeVault(k) := 0];
    OpenedExactly(amount, duration);
    if k !in w.stakes {
      SumInsert(w.ledger, StakeVault(k), 0);
      TransferGoesThrough(l, Wallet(k), StakeVault(k), amount);
    }
    if Transferred(l, Wallet(k), StakeVault(k), amount).Ok? {
      TransferMoves(l, Wallet(k), StakeVault(k), amount);
    }
  }

  lemma OpenedExactly(amount: u64, duration: u128)
    ensures Opened(amount, duration).Ok? <==> AllowedDuration(duration)
    ensures Opened(amount, duration).Ok? ==>
              Opened(amount, duration).value == Stake(amount, duration, 0, Weight(amount, duration))
  {
    if duration <= DURATION_MAX {
      WeightFits(amount, duration);
    }
  }

  lemma ToppedUpExactly(s: Stake, amount: u64)
    requires ValidStake(s)
    ensures ToppedUp(s, amount).Ok? <==> s.timeUnstake == 0 && 0 < amount && s.amount + amount <= U64_MAX
    ensures ToppedUp(s, amount).Ok? ==>
              var more := s.amount + amount;
              ToppedUp(s, amount).value == s.(amount := more, xnos := Weight(more, s.duration))
  {
    if s.amount + amount <= U64_MAX {
      WeightFits(s.amount + amount, s.duration);
    }
  }

  /** A top-up goes through for an active stake whose owner has the tokens. */
  lemma TopupExactly(w: World, k: Pubkey, amount: u64)
    requires Safe(w) && Sum(w.ledger) <= U64_MAX
    ensures TopupTx(w, k, amount).Ok?
            <==> && k in w.stakes && w.stakes[k].timeUnstake == 0 && 0 < amount
                 && w.stakes[k].amount + amount <= U64_MAX
                 && Wallet(k) in w.ledger && amount <= w.ledger[Wallet(k)]
  {
    if k in w.stakes {
      assert ValidStake(w.stakes[k]) && StakeVault(k) in w.ledger by { assert StakeInCustody(w, k); }
      ToppedUpExactly(w.stakes[k], amount);
      TransferGoesThrough(w.ledger, Wallet(k), StakeVault(k), amount);
      TopupTakesTwoSteps(w, k, amount);
    }
  }

  /** It adds the owner's tokens to the stake and to its vault, and weighs the stake anew. */
  lemma TopupAdds(w: World, k: Pubkey, amount: u64)
    requires TopupTx(w, k, amount).Ok? && ValidStake(w.stakes[k])
    ensures w.stakes[k].amount + amount <= U64_MAX
    ensures var w', s := TopupTx(w, k, amount).value, w.stakes[k];
            var more := s.amount + amount;
            && w' == w.(ledger := w'.ledger,
                        stakes := w.stakes[k := s.(amount := more, xnos := Weight(more, s.duration))])
            && Moved(w.ledger, w'.ledger, Wallet(k), StakeVault(k), amount)
  {
    TopupTakesTwoSteps(w, k, amount);
    ToppedUpExactly(w.stakes[k], amount);
  }

  lemma TopupTakesTwoSteps(w: World, k: Pubkey, amount: u64)
    requires k in w.stakes
    ensures TopupTx(w, k, amount).Ok?
            <==> ToppedUp(w.stakes[k], amount).Ok? && Transferred(w.ledger, Wallet(k), StakeVault(k), amount).Ok?
    ensures TopupTx(w, k, amount).Ok? ==>
              var w' := TopupTx(w, k, amount).value;
              && w' == w.(ledger := w'.ledger, stakes := w.stakes[k := ToppedUp(w.stakes[k], amount).value])
              && Moved(w.ledger, w'.ledger, Wallet(k), StakeVault(k), amount)
  {
    if TopupTx(w, k, amount).Ok? {
      TransferMoves(w.ledger, Wallet(k), StakeVault(k), amount);
    }
  }

  /** An extension adds to the lock of an active stake, up to a year. */
  lemma ExtendExactly(w: World, k: Pubkey, extra: u64)
    requires Safe(w)
    ensures ExtendTx(w, k, extra).Ok?
            <==> && k in w.stakes && w.stakes[k].timeUnstake == 0 && 0 < extra
                 && AllowedDuration(w.stakes[k].duration + extra)
    ensures ExtendTx(w, k, extra).Ok? ==>
              var s := w.stakes[k];
              var longer := s.duration + extra;
              ExtendTx(w, k, extra).value
              == w.(stakes := w.stakes[k := s.(duration := longer, xnos := Weight(s.amount, longer))])
  {
    if k in w.stakes {
      assert StakeInCustody(w, k);
      var s := w.stakes[k];
      if s.duration + extra <= DURATION_MAX {
        WeightFits(s.amount, s.duration + extra);
      }
    }
  }

  /** Unstaking starts the release at the clock and takes the weight, once the reward account is closed. */
  lemma UnstakeExactly(w: World, k: Pubkey)
    requires Safe(w)
    ensures UnstakeTx(w, k).Ok? <==> k in w.stakes && w.stakes[k].timeUnstake == 0 && k !in w.holders
    ensures UnstakeTx(w, k).Ok? ==>
              UnstakeTx(w, k).value
              == w.(stakes := w.stakes[k := w.stakes[k].(timeUnstake := w.clock, xnos := 0)])
  {
  }

  /** Restaking makes whatever the vault holds an active stake again. */
  lemma RestakeExactly(w: World, k: Pubkey)
    requires Safe(w)
    ensures RestakeTx(w, k).Ok? <==> k in w.stakes && w.stakes[k].timeUnstake != 0
    ensures RestakeTx(w, k).Ok? ==>
              && StakeVault(k) in w.ledger
              && var s, balance := w.stakes[k], w.ledger[StakeVault(k)];
                 RestakeTx(w, k).value
                 == w.(stakes := w.stakes[k := Stake(balance, s.duration, 0, Weight(balance, s.duration))],
                       logs := w.logs[k := VaultLog(0, 0)])
  {
    if k in w.stakes {
      assert StakeInCustody(w, k);
      WeightFits(w.ledger[StakeVault(k)], w.stakes[k].duration);
    }
  }

  /** A slash moves part of a stake, and as many of the tokens in its vault, to the slashing account. */
  lemma SlashExactly(w: World, k: Pubkey, amount: u64)
    requires Sum(w.ledger) <= U64_MAX
    requires k in w.stakes ==> ValidStake(w.stakes[k]) && StakeVault(k) in w.ledger
    ensures SlashTx(w, k, amount).Ok?
            <==> && k in w.stakes && amount <= w.stakes[k].amount && amount <= w.ledger[StakeVault(k)]
                 && SlashAccount in w.ledger
    ensures SlashTx(w, k, amount).Ok? ==>
              var w', s := SlashTx(w, k, amount).value, w.stakes[k];
              var less := s.amount - amount;
              && w' == w.(ledger := w'.ledger,
                          stakes := w.stakes[k := s.(amount := less, xnos := if s.timeUnstake == 0
                                                                             then Weight(less, s.duration) else 0)])
              && Moved(w.ledger, w'.ledger, StakeVault(k), SlashAccount, amount)
  {
    if k in w.stakes {
      SlashedValid(w.stakes[k], amount);
      TransferGoesThrough(w.ledger, StakeVault(k), SlashAccount, amount);
      if Transferred(w.ledger, StakeVault(k), SlashAccount, amount).Ok? {
        TransferMoves(w.ledger, StakeVault(k), SlashAccount, amount);
      }
    }
  }

  /** A vault closes, with its stake, only empty and strictly after the lock has elapsed. */
  lemma CloseVaultExactly(w: World, k: Pubkey)
    requires Safe(w)
    ensures k in w.stakes ==> StakeVault(k) in w.ledger
    ensures CloseVaultTx(w, k).Ok?
            <==> && k in w.stakes && w.stakes[k].timeUnstake != 0
                 && w.stakes[k].timeUnstake + w.stakes[k].duration < w.clock
                 && w.ledger[StakeVault(k)] == 0
    ensures CloseVaultTx(w, k).Ok? ==>
              CloseVaultTx(w, k).value
              == w.(ledger := w.ledger - {StakeVault(k)}, stakes := w.stakes - {k}, logs := w.logs - {k})
  {
    if k in w.stakes {
      assert StakeInCustody(w, k);
    }
  }

  /** A withdrawal pays the owner's wallet what brings the total withdrawn to the schedule and the gifts. */
  lemma WithdrawPays(w: World, k: Pubkey)
    requires Safe(w) && WithdrawTx(w, k).Ok?
    ensures k in w.stakes && k in w.logs
    ensures var paid := Vested(w.stakes[k], w.clock) + w.logs[k].gifted - w.logs[k].withdrawn;
            && 0 <= paid
            && Moved(w.ledger, WithdrawTx(w, k).value.ledger, StakeVault(k), Wallet(k), paid)
            && WithdrawTx(w, k).value.stakes == w.stakes && WithdrawTx(w, k).value.holders == w.holders
  {
    assert StakeInCustody(w, k);
    var s, balance := w.stakes[k], w.ledger[StakeVault(k)];
    WithdrawnIsVested(s, balance, w.clock);
    var amount := WithdrawAmount(s, balance, w.clock).value;
    if 0 < amount {
      TransferMoves(w.ledger, StakeVault(k), Wallet(k), amount);
    }
  }

  // ---------------------------------------------------------------- the release, end to end

  function Ticks(seconds: seq<nat>): seq<Op> {
    if seconds == [] then [] else [Tick(seconds[0])] + Ticks(seconds[1..])
  }

  function Elapsed(seconds: seq<nat>): nat {
    if seconds == [] then 0 else seconds[0] + Elapsed(seconds[1..])
  }

  lemma {:induction false} TicksPass(w: World, seconds: seq<nat>)
    requires w.clock + Elapsed(seconds) <= I64_MAX
    ensures Run(w, Ticks(seconds)) == w.(clock := w.clock + Elapsed(seconds))
    decreases |seconds|
  {
    if seconds == [] {
    } else {
      var ops := Ticks(seconds);
      assert ops[0] == Tick(seconds[0]) && ops[1..] == Ticks(seconds[1..]);
      TicksPass(Next(w, ops[0]), seconds[1..]);
    }
  }

  /**
    What a withdrawal does to the stake `s` at `end`, `d` seconds after unstaking it, with nothing
    withdrawn yet: before the lock is over it pays the linear release of the whole amount over the whole
    lock, and afterwards the full vault. A gift stops it until then.
    */
  ghost predicate Releases(s: Stake, gifted: nat, end: World, k: Pubkey, d: nat) {
    StakeVault(k) in end.ledger && GoesThroughAfter(s, gifted, end, k, d) && PaysAfter(s, end, k, d)
  }

  ghost predicate GoesThroughAfter(s: Stake, gifted: nat, end: World, k: Pubkey, d: nat)
    requires StakeVault(k) in end.ledger
  {
    WithdrawTx(end, k).Ok?
    <==> && Wallet(k) in end.ledger && end.ledger[StakeVault(k)] != 0
         && (s.duration <= d || (2 * s.amount <= U64_MAX && gifted == 0))
  }

  ghost predicate PaysAfter(s: Stake, end: World, k: Pubkey, d: nat)
    requires StakeVault(k) in end.ledger
  {
    WithdrawTx(end, k).Ok? ==>
      && (d < s.duration ==> Computable(s.amount, d))
      && Moved(end.ledger, WithdrawTx(end, k).value.ledger, StakeVault(k), Wallet(k),
               ReleasedBy(s, end.ledger[StakeVault(k)], d))
  }

  function ReleasedBy(s: Stake, balance: nat, d: nat): nat {
    if s.duration <= d then balance else if Computable(s.amount, d) then Unlocked(s.amount, s.duration, d) else 0
  }

  /** From unstaking to withdrawing, over any ticks of the clock in between. */
  lemma UnstakeThenWithdraw(w: World, k: Pubkey, seconds: seq<nat>) returns (end: World)
    requires Safe(w) && Sum(w.ledger) <= U64_MAX
    requires UnstakeTx(w, k).Ok? && w.clock + Elapsed(seconds) <= I64_MAX
    ensures k in w.stakes && k in w.logs
    ensures end == Run(UnstakeTx(w, k).value, Ticks(seconds)) && end.ledger == w.ledger
    ensures Releases(w.stakes[k], w.logs[k].gifted, end, k, Elapsed(seconds))
  {
    var u := UnstakeTx(w, k).value;
    end := Run(u, Ticks(seconds));
    assert StakeInCustody(w, k);
    UnstakeExactly(w, k);
    UnstakeSafe(w, k);
    TicksPass(u, seconds);
    ReleasesAfter(w.stakes[k], u, end, k, Elapsed(seconds));
  }

  lemma ReleasesAfter(s: Stake, u: World, end: World, k: Pubkey, d: nat)
    requires Safe(u) && Sum(u.ledger) <= U64_MAX && k in u.stakes && k in u.logs && u.logs[k].withdrawn == 0
    requires u.stakes[k].timeUnstake == u.clock && u.clock + d <= I64_MAX && end == u.(clock := u.clock + d)
    requires s.amount == u.stakes[k].amount && s.duration == u.stakes[k].duration
    ensures Releases(s, u.logs[k].gifted, end, k, d)
  {
    PoolStepSafe(u, end);
    PayableAfter(s, end, k, d);
    PaidAfter(s, end, k, d);
  }

  lemma PayableAfter(s: Stake, w: World, k: Pubkey, d: nat)
    requires Safe(w) && Sum(w.ledger) <= U64_MAX && k in w.stakes && w.stakes[k].timeUnstake == w.clock - d
    requires k in w.logs && w.logs[k].withdrawn == 0 && w.stakes[k].timeUnstake != 0
    requires s.amount == w.stakes[k].amount && s.duration == w.stakes[k].duration
    ensures StakeVault(k) in w.ledger && GoesThroughAfter(s, w.logs[k].gifted, w, k, d)
  {
    assert StakeInCustody(w, k);
    WithdrawGoesThrough(w, k);
  }

  lemma PaidAfter(s: Stake, w: World, k: Pubkey, d: nat)
    requires Safe(w) && k in w.stakes && w.stakes[k].timeUnstake == w.clock - d
    requires k in w.logs && w.logs[k].withdrawn == 0 && w.stakes[k].timeUnstake != 0
    requires s.amount == w.stakes[k].amount && s.duration == w.stakes[k].duration
    ensures StakeVault(k) in w.ledger && PaysAfter(s, w, k, d)
  {
    assert StakeVault(k) in w.ledger by { assert StakeInCustody(w, k); }
    if WithdrawTx(w, k).Ok? {
      var paid := Vested(w.stakes[k], w.clock) + w.logs[k].gifted;
      assert (d < s.duration ==> Computable(s.amount, d)) && ReleasedBy(s, w.ledger[StakeVault(k)], d) == paid by {
        assert StakeInCustody(w, k);
        WithdrawIsLogged(w, k);
        FullVaultPays(w.stakes[k], s, w.ledger[StakeVault(k)], w.logs[k].gifted, w.clock);
      }
      WithdrawPays(w, k);
    }
  }

  lemma FullVaultPays(u: Stake, s: Stake, balance: u64, gifted: nat, now: i64)
    requires u.duration <= DURATION_MAX && 0 < u.timeUnstake <= now && balance == u.amount + gifted
    requires WithdrawAmount(u, balance, now).Ok? && s.amount == u.amount && s.duration == u.duration
    ensures var d := now - u.timeUnstake;
            && (d < s.duration ==> Computable(s.amount, d))
            && ReleasedBy(s, balance, d) == Vested(u, now) + gifted
  {
    WithdrawExact(u, balance, now);
  }

  /** In numbers: of 1000 tokens unstaked at second 1_700_000_000 half is released half a lock later. */
  lemma HalfwayInNumbers()
    ensures var s := Stake(1000, 2 * DURATION_MIN, 1_700_000_000, 0);
            && WithdrawAmount(s, 1000, 1_700_000_000) == Ok(0)
            && WithdrawAmount(s, 1000, 1_700_000_000 + DURATION_MIN) == Ok(500)
  {
    var s := Stake(1000, 2 * DURATION_MIN, 1_700_000_000, 0);
    HalfwayRelease();
    WithdrawExact(s, 1000, 1_700_000_000);
    WithdrawExact(s, 1000, 1_700_000_000 + DURATION_MIN);
    UnlockedBelowSchedule(1000, 2 * DURATION_MIN, 0);
  }
}
