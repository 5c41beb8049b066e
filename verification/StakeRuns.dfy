/** What holds of stakes, their release and their link to the rewards program over whole runs. */
module StakeRuns {
  import opened Arith
  import opened Machine
  import opened MapSum
  import opened Network
  import opened Rewards
  import opened Staking
  import opened Token

  // ---------------------------------------------------------------- stake and reward weights

  /** No holder is registered with more weight than its stake has. */
  ghost predicate StakesCover(w: World) {
    forall k | k in w.holders :: k in w.stakes && w.holders[k].xnos <= w.stakes[k].xnos
  }

  /** A holder registers with, or is updated to, the weight of its stake. */
  lemma HolderWeight(w: World, op: Op, k: Pubkey)
    requires k in Next(w, op).holders && k in w.stakes
    ensures || (k in w.holders && Next(w, op).holders[k] == w.holders[k])
            || Next(w, op).holders[k].xnos == w.stakes[k].xnos
  {
  }

  /** The rewards program, transfers and the clock leave stakes alone. */
  lemma PoolStepKeepsStakes(w: World, op: Op)
    requires !OfStaking(op)
    ensures var w' := Next(w, op);
            && w'.stakes == w.stakes && w.clock <= w'.clock
            && w'.logs.Keys == w.logs.Keys
            && forall k | k in w.logs && Spares(op, k) :: w'.logs[k] == w.logs[k]
  {
    if OfRewards(op) {
      RewardsStepKeepsStakes(w, op);
    }
  }

  lemma RewardsStepKeepsStakes(w: World, op: Op)
    requires OfRewards(op)
    ensures var w' := Next(w, op);
            w'.stakes == w.stakes && w'.clock == w.clock && w'.logs == w.logs
  {
  }

  /** A staking instruction leaves every stake but its own alone. */
  lemma OtherStakeUntouched(w: World, op: Op, k: Pubkey)
    requires OfStaking(op) && op.key != k
    ensures var w' := Next(w, op);
            && w'.clock == w.clock && w'.holders == w.holders
            && (k in w'.stakes <==> k in w.stakes) && (k in w'.logs <==> k in w.logs)
            && (k in w.stakes ==> w'.stakes[k] == w.stakes[k])
            && (k in w.logs ==> w'.logs[k] == w.logs[k])
  {
  }

  /** Topping up or extending makes an active stake no lighter; a stake opens only once. */
  lemma OwnStakeGrows(w: World, op: Op, k: Pubkey)
    requires Safe(w) && k in w.stakes && Step(w, op).Ok?
    requires op.OpenStake? || op.Topup? || op.Extend?
    requires op.key == k
    ensures var w' := Next(w, op);
            && k in w'.stakes && w'.logs == w.logs && w'.clock == w.clock && w'.holders == w.holders
            && w.stakes[k].timeUnstake == w'.stakes[k].timeUnstake == 0
            && w.stakes[k].xnos <= w'.stakes[k].xnos
  {
    assert StakeInCustody(w, k);
    match op
    case Topup(_, amount) => ToppedUpHeavier(w.stakes[k], amount);
    case Extend(_, extra) => ExtendedHeavier(w.stakes[k], extra);
    case OpenStake(_, _, _) =>
  }

  /** Nothing but a slash lowers the weight of the stake behind an open reward account. */
  lemma HeldStakeWeight(w: World, op: Op, k: Pubkey)
    requires Safe(w) && k in w.holders && !op.Slash?
    ensures k in Next(w, op).stakes && w.stakes[k].xnos <= Next(w, op).stakes[k].xnos
  {
    if !OfStaking(op) {
      PoolStepKeepsStakes(w, op);
    } else if op.key != k {
      OtherStakeUntouched(w, op, k);
    } else {
      HolderPinsStake(w, k);
      if Step(w, op).Ok? && !op.Withdraw? {
        OwnStakeGrows(w, op, k);
      }
    }
  }

  /** An open reward account stops its stake from being unstaked or closed. */
  lemma HolderPinsStake(w: World, k: Pubkey)
    requires Safe(w) && k in w.holders
    ensures UnstakeTx(w, k).Abort? && CloseVaultTx(w, k).Abort? && RestakeTx(w, k).Abort?
    ensures WithdrawTx(w, k).Abort?
  {
  }

  lemma StepCovers(w: World, op: Op)
    requires Safe(w) && StakesCover(w) && !op.Slash?
    ensures StakesCover(Next(w, op))
  {
    var w' := Next(w, op);
    forall k | k in w'.holders ensures k in w'.stakes && w'.holders[k].xnos <= w'.stakes[k].xnos {
      if k in w.holders {
        HeldStakeWeight(w, op, k);
        HolderWeight(w, op, k);
      } else {
        EnterOnlyNew(w, op, k);
        HolderWeight(w, op, k);
      }
    }
  }

  lemma EnterOnlyNew(w: World, op: Op, k: Pubkey)
    requires k in Next(w, op).holders && k !in w.holders
    ensures op == Enter(k) && k in w.stakes && Next(w, op).stakes == w.stakes
  {
  }

  /** A slash leaves every holder covered exactly when it leaves the slashed stake heavy enough. */
  lemma SlashCoversExactly(w: World, k: Pubkey, amount: u64)
    requires Safe(w) && StakesCover(w) && SlashTx(w, k, amount).Ok?
    ensures k in w.stakes && amount <= w.stakes[k].amount
    ensures var s := w.stakes[k];
            StakesCover(SlashTx(w, k, amount).value)
            <==> (k in w.holders ==> w.holders[k].xnos <= Weight(s.amount - amount, s.duration))
  {
    assert StakeInCustody(w, k);
    SlashedValid(w.stakes[k], amount);
    var w' := SlashTx(w, k, amount).value;
    if k in w.holders {
      assert w'.stakes[k].xnos == Weight(w.stakes[k].amount - amount, w.stakes[k].duration);
      assert w'.holders == w.holders;
    }
  }

  /** A concrete slash that stops claims: half of a stake of 100 after its holder entered. */
  lemma SlashStopsClaim(t: Totals, l: Ledger, reflection: u128, vault: Account, user: Account)
    ensures Opened(100, DURATION_MIN).Ok?
    ensures var s := Opened(100, DURATION_MIN).value;
            && Slashed(s, 50).Ok?
            && ClaimPaid(t, Reward(reflection, s.xnos), Slashed(s, 50).value, l, vault, user).Abort?
  {
    OpenedValid(100, DURATION_MIN);
    SlashedValid(Opened(100, DURATION_MIN).value, 50);
    WeightBounds(100, DURATION_MIN);
    assert Factor(DURATION_MIN) < 2 * XNOS_PRECISION;
    QuotientAtMost(Factor(DURATION_MIN) * 50, XNOS_PRECISION, 99);
  }

  /** A slash leaves the stake of a holder as heavy as the holder is registered. */
  predicate LeavesCovered(w: World, op: Op) {
    op.Slash? && Step(w, op).Ok? && op.key in w.holders && op.key in w.stakes
      && op.amount <= w.stakes[op.key].amount ==>
      w.holders[op.key].xnos <= Weight(w.stakes[op.key].amount - op.amount, w.stakes[op.key].duration)
  }

  /** Nothing but a slash below a holder's weight can make its claims fail for a decreased stake. */
  lemma StepCoversExactly(w: World, op: Op)
    requires Safe(w) && StakesCover(w)
    ensures StakesCover(Next(w, op)) <==> LeavesCovered(w, op)
  {
    if !op.Slash? {
      StepCovers(w, op);
    } else if Step(w, op).Ok? {
      SlashCoversExactly(w, op.key, op.amount);
    }
  }

  ghost predicate CoveredAlong(w: World, ops: seq<Op>)
    decreases |ops|
  {
    StakesCover(w) && (ops != [] ==> CoveredAlong(Next(w, ops[0]), ops[1..]))
  }

  ghost predicate LeavesCoveredAlong(w: World, ops: seq<Op>)
    decreases |ops|
  {
    ops != [] ==> LeavesCovered(w, ops[0]) && LeavesCoveredAlong(Next(w, ops[0]), ops[1..])
  }

  /** A run keeps every holder covered after every step exactly when every slash in it does. */
  lemma {:induction false} RunCoversExactly(w: World, ops: seq<Op>)
    requires Safe(w) && StakesCover(w)
    ensures CoveredAlong(w, ops) <==> LeavesCoveredAlong(w, ops)
    ensures LeavesCoveredAlong(w, ops) ==> StakesCover(Run(w, ops))
    decreases |ops|
  {
    if ops == [] {
    } else {
      StepSafe(w, ops[0]);
      StepCoversExactly(w, ops[0]);
      if StakesCover(Next(w, ops[0])) {
        RunCoversExactly(Next(w, ops[0]), ops[1..]);
      }
    }
  }

  // ---------------------------------------------------------------- release on schedule

  /** Everything released to an unstaking stake by `now`. */
  function Vested(s: Stake, now: int): nat {
    var elapsed := now - s.timeUnstake;
    if elapsed >= s.duration then s.amount
    else if 0 <= elapsed && Computable(s.amount, elapsed) then Unlocked(s.amount, s.duration, elapsed)
    else 0
  }

  lemma VestedMonotone(s: Stake, now: int, later: int)
    requires s.duration <= DURATION_MAX && s.timeUnstake <= now <= later
    ensures Vested(s, now) <= Vested(s, later) <= s.amount
  {
    var elapsed, elapsed' := now - s.timeUnstake, later - s.timeUnstake;
    if elapsed' < s.duration && Computable(s.amount, elapsed') {
      UnlockedMonotone(s.amount, s.duration, elapsed', elapsed');
    }
    if elapsed < s.duration && Computable(s.amount, elapsed) {
      UnlockedMonotone(s.amount, s.duration, elapsed, elapsed);
      if elapsed' < s.duration {
        UnlockedMonotone(s.amount, s.duration, elapsed, elapsed');
      }
    }
  }

  /**
    A withdrawal that goes through now brings the total withdrawn to what the schedule has released
    by now and the gifts to the vault.
    */
  ghost predicate WithdrawsToSchedule(w: World, k: Pubkey) {
    WithdrawTx(w, k).Ok? ==>
      && k in w.stakes && k in w.logs && w.stakes[k].timeUnstake != 0
      && var w', gifted := WithdrawTx(w, k).value, w.logs[k].gifted;
         && w' == w.(ledger := w'.ledger, logs := w'.logs)
         && w'.logs == w.logs[k := VaultLog(Vested(w.stakes[k], w.clock) + gifted, gifted)]
  }

  /** So does every withdrawal, whatever was withdrawn, slashed or given before and when. */
  lemma WithdrawReachesSchedule(w: World, k: Pubkey)
    requires Safe(w)
    ensures WithdrawsToSchedule(w, k)
  {
    if WithdrawTx(w, k).Ok? {
      assert StakeInCustody(w, k);
      WithdrawIsLogged(w, k);
      WithdrawnIsVested(w.stakes[k], w.ledger[StakeVault(k)], w.clock);
    }
  }

  /** A withdrawal moves the computed amount out of the vault and logs it. */
  lemma WithdrawIsLogged(w: World, k: Pubkey)
    requires WithdrawTx(w, k).Ok? && StakeVault(k) in w.ledger && k in w.logs
    ensures k in w.stakes && w.stakes[k].timeUnstake != 0
    ensures WithdrawAmount(w.stakes[k], w.ledger[StakeVault(k)], w.clock).Ok?
    ensures var w' := WithdrawTx(w, k).value;
            var amount := WithdrawAmount(w.stakes[k], w.ledger[StakeVault(k)], w.clock).value;
            && w' == w.(ledger := w'.ledger, logs := w'.logs)
            && w'.logs == w.logs[k := w.logs[k].(withdrawn := w.logs[k].withdrawn + amount)]
  {
    var amount := WithdrawAmount(w.stakes[k], w.ledger[StakeVault(k)], w.clock).value;
    if 0 < amount {
      TransferConserves(w.ledger, StakeVault(k), Wallet(k), amount);
    }
  }

  lemma WithdrawnIsVested(s: Stake, balance: u64, now: i64)
    requires s.duration <= DURATION_MAX && 0 < s.timeUnstake <= now
    requires WithdrawAmount(s, balance, now).Ok?
    ensures WithdrawAmount(s, balance, now).value + s.amount - balance == Vested(s, now)
  {
    WithdrawExact(s, balance, now);
  }

  /**
    Exactly when a withdrawal goes through. Before the lock has elapsed the vault must hold no more
    than the staked amount and lack no more than the schedule has released.
    */
  lemma WithdrawGoesThrough(w: World, k: Pubkey)
    requires Safe(w) && Sum(w.ledger) <= U64_MAX
    requires k in w.stakes && w.stakes[k].timeUnstake != 0
    ensures StakeVault(k) in w.ledger
    ensures var s, balance := w.stakes[k], w.ledger[StakeVault(k)];
            WithdrawTx(w, k).Ok?
            <==> && Wallet(k) in w.ledger && balance != 0
                 && (|| s.duration <= w.clock - s.timeUnstake
                     || (2 * s.amount <= U64_MAX && balance <= s.amount <= balance + Vested(s, w.clock)))
  {
    assert StakeInCustody(w, k);
    var s, balance := w.stakes[k], w.ledger[StakeVault(k)];
    WithdrawExact(s, balance, w.clock);
    if Wallet(k) in w.ledger && balance != 0 && WithdrawAmount(s, balance, w.clock).Ok? {
      var amount := WithdrawAmount(s, balance, w.clock).value;
      VestedMonotone(s, w.clock, w.clock);
      TransferGoesThrough(w.ledger, StakeVault(k), Wallet(k), amount);
      if 0 < amount {
        TransferConserves(w.ledger, StakeVault(k), Wallet(k), amount);
      }
    }
  }

  /**
    Schedule independence: after any run, with withdrawals at any times, the next withdrawal makes
    the total withdrawn depend on nothing but the stake, the time and the gifts to its vault.
    */
  lemma RunThenWithdraw(w: World, ops: seq<Op>, k: Pubkey)
    requires Safe(w)
    ensures WithdrawsToSchedule(Run(w, ops), k)
  {
    RunSafe(w, ops);
    WithdrawReachesSchedule(Run(w, ops), k);
  }

  // ---------------------------------------------------------------- what keeps a stake on schedule

  /**
    The vault of stake `k` holds what it should: the whole amount of an active stake, and of an
    unstaking one no more than the amount and all that the schedule has not released.
    */
  ghost predicate OnSchedule(w: World, k: Pubkey) {
    k in w.stakes && StakeVault(k) in w.ledger ==>
      var s, balance := w.stakes[k], w.ledger[StakeVault(k)];
      if s.timeUnstake == 0 then balance == s.amount
      else balance <= s.amount <= balance + Vested(s, w.clock)
  }

  /**
    A gift to the vault of stake `k` is no more than it has withdrawn, and a slash leaves it enough
    released to cover that.
    */
  predicate KeepsSchedule(w: World, op: Op, k: Pubkey) {
    k in w.stakes && StakeVault(k) in w.ledger && Step(w, op).Ok? ==>
      var s, balance := w.stakes[k], w.ledger[StakeVault(k)];
      && (op.Send? && op.to == StakeVault(k) ==> balance + op.amount <= s.amount)
      && (op.Slash? && op.key == k && s.timeUnstake != 0 && op.amount <= s.amount ==>
            s.amount <= balance + Vested(s.(amount := s.amount - op.amount), w.clock))
  }

  /** The instruction neither slashes stake `k` nor sends an outside deposit to its vault. */
  predicate Spares(op: Op, k: Pubkey) {
    && !(op.Slash? && op.key == k)
    && !(op.Send? && op.to == StakeVault(k))
  }

  /** What the vault lacks of the amount is what was withdrawn beyond the gifts. */
  lemma ScheduleOfLog(w: World, k: Pubkey)
    requires Safe(w) && k in w.stakes
    ensures k in w.logs && StakeVault(k) in w.ledger
    ensures w.stakes[k].amount - w.ledger[StakeVault(k)] == w.logs[k].withdrawn - w.logs[k].gifted
    ensures w.stakes[k].timeUnstake == 0 ==> w.logs[k].withdrawn == 0
    ensures DURATION_MIN <= w.stakes[k].duration <= DURATION_MAX && w.stakes[k].timeUnstake <= w.clock
  {
    assert StakeInCustody(w, k);
  }

  /** Unless it is stake `k` itself being moved, an instruction leaves stake and log as they are. */
  lemma OtherStepSpares(w: World, op: Op, k: Pubkey)
    requires Safe(w) && Spares(op, k) && k in w.stakes
    requires op != Withdraw(k) && op != Unstake(k) && op != Restake(k) && op != CloseVault(k)
    ensures var w' := Next(w, op);
            && k in w'.stakes && k in w'.logs
            && w'.logs[k] == w.logs[k] && w.clock <= w'.clock
            && (w.stakes[k].timeUnstake != 0 ==> w'.stakes[k] == w.stakes[k])
            && w'.stakes[k].timeUnstake == w.stakes[k].timeUnstake
  {
    assert StakeInCustody(w, k);
    if !OfStaking(op) {
      PoolStepKeepsStakes(w, op);
    } else if op.key != k {
      OtherStakeUntouched(w, op, k);
    } else if Step(w, op).Ok? {
      OwnStakeGrows(w, op, k);
    }
  }

  lemma OtherStepOnSchedule(w: World, op: Op, k: Pubkey)
    requires Safe(w) && OnSchedule(w, k) && Spares(op, k) && k in w.stakes
    requires op != Withdraw(k) && op != Unstake(k) && op != Restake(k) && op != CloseVault(k)
    ensures OnSchedule(Next(w, op), k)
  {
    OtherStepSpares(w, op, k);
    StepSafe(w, op);
    ScheduleOfLog(w, k);
    ScheduleOfLog(Next(w, op), k);
    if w.stakes[k].timeUnstake != 0 {
      VestedMonotone(w.stakes[k], w.clock, Next(w, op).clock);
    }
  }

  lemma FreshStakeOnSchedule(w: World, op: Op, k: Pubkey)
    requires Safe(w) && k !in w.stakes
    ensures OnSchedule(Next(w, op), k)
  {
    var w' := Next(w, op);
    if !OfStaking(op) {
      PoolStepKeepsStakes(w, op);
    } else if op.key != k {
      OtherStakeUntouched(w, op, k);
    } else if k in w'.stakes {
      StepSafe(w, op);
      ScheduleOfLog(w', k);
      OnlyOpeningCreates(w, op);
    }
  }

  lemma OnlyOpeningCreates(w: World, op: Op)
    requires OfStaking(op) && op.key !in w.stakes && op.key in Next(w, op).stakes
    ensures var w' := Next(w, op);
            && w'.stakes[op.key].timeUnstake == 0
            && op.key in w'.logs && w'.logs[op.key] == VaultLog(0, 0)
  {
    assert op.OpenStake?;
  }

  lemma CycleOnSchedule(w: World, op: Op, k: Pubkey)
    requires Safe(w) && OnSchedule(w, k) && k in w.stakes && Step(w, op).Ok?
    requires op == Withdraw(k) || op == Unstake(k) || op == Restake(k) || op == CloseVault(k)
    ensures OnSchedule(Next(w, op), k)
  {
    ScheduleOfLog(w, k);
    if op == Withdraw(k) {
      WithdrawReachesSchedule(w, k);
      StepSafe(w, op);
      ScheduleOfLog(Next(w, op), k);
      VestedMonotone(w.stakes[k], w.clock, w.clock);
    }
  }

  /** A gift keeps a stake on schedule exactly when it is no more than was withdrawn. */
  lemma GiftOnSchedule(w: World, op: Op, k: Pubkey)
    requires Safe(w) && OnSchedule(w, k) && k in w.stakes && Step(w, op).Ok?
    requires op.Send? && op.to == StakeVault(k)
    ensures OnSchedule(Next(w, op), k) <==> KeepsSchedule(w, op, k)
  {
    ScheduleOfLog(w, k);
    TransferConserves(w.ledger, Wallet(op.from), StakeVault(k), op.amount);
    var w' := Next(w, op);
    assert w'.stakes == w.stakes && w'.clock == w.clock;
    assert w'.ledger[StakeVault(k)] == w.ledger[StakeVault(k)] + op.amount;
  }

  /** A slash keeps a stake on schedule exactly when it leaves enough released. */
  lemma SlashOnSchedule(w: World, op: Op, k: Pubkey)
    requires Safe(w) && OnSchedule(w, k) && k in w.stakes && Step(w, op).Ok?
    requires op.Slash? && op.key == k
    ensures OnSchedule(Next(w, op), k) <==> KeepsSchedule(w, op, k)
  {
    SlashTakesBoth(w, op, k);
    var s, s' := w.stakes[k], Next(w, op).stakes[k];
    assert Vested(s', w.clock) == Vested(s.(amount := s.amount - op.amount), w.clock);
  }

  /** A slash takes the same from the stake and from its vault. */
  lemma SlashTakesBoth(w: World, op: Op, k: Pubkey)
    requires Safe(w) && k in w.stakes && Step(w, op).Ok? && op.Slash? && op.key == k
    ensures StakeVault(k) in w.ledger && op.amount <= w.stakes[k].amount
    ensures var w' := Next(w, op);
            && w'.clock == w.clock && k in w'.stakes && StakeVault(k) in w'.ledger
            && w'.ledger[StakeVault(k)] == w.ledger[StakeVault(k)] - op.amount
            && w'.stakes[k] == w.stakes[k].(amount := w.stakes[k].amount - op.amount, xnos := w'.stakes[k].xnos)
  {
    assert StakeInCustody(w, k);
    SlashedValid(w.stakes[k], op.amount);
    TransferConserves(w.ledger, StakeVault(k), SlashAccount, op.amount);
  }

  /** Only gifts and slashes take a stake off schedule, and exactly those that the guard rules out. */
  lemma StepOnScheduleExactly(w: World, op: Op, k: Pubkey)
    requires Safe(w) && OnSchedule(w, k)
    ensures OnSchedule(Next(w, op), k) <==> KeepsSchedule(w, op, k)
  {
    if k !in w.stakes {
      FreshStakeOnSchedule(w, op, k);
    } else if Step(w, op).Ok? {
      if op == Withdraw(k) || op == Unstake(k) || op == Restake(k) || op == CloseVault(k) {
        CycleOnSchedule(w, op, k);
      } else if op.Send? && op.to == StakeVault(k) {
        GiftOnSchedule(w, op, k);
      } else if op.Slash? && op.key == k {
        SlashOnSchedule(w, op, k);
      } else {
        OtherStepOnSchedule(w, op, k);
      }
    }
  }

  ghost predicate OnScheduleAlong(w: World, ops: seq<Op>, k: Pubkey)
    decreases |ops|
  {
    OnSchedule(w, k) && (ops != [] ==> OnScheduleAlong(Next(w, ops[0]), ops[1..], k))
  }

  ghost predicate KeepsScheduleAlong(w: World, ops: seq<Op>, k: Pubkey)
    decreases |ops|
  {
    ops != [] ==> KeepsSchedule(w, ops[0], k) && KeepsScheduleAlong(Next(w, ops[0]), ops[1..], k)
  }

  /** A run keeps a stake on schedule after every step exactly when each of its gifts and slashes does. */
  lemma {:induction false} RunOnScheduleExactly(w: World, ops: seq<Op>, k: Pubkey)
    requires Safe(w) && OnSchedule(w, k)
    ensures OnScheduleAlong(w, ops, k) <==> KeepsScheduleAlong(w, ops, k)
    ensures KeepsScheduleAlong(w, ops, k) ==> OnSchedule(Run(w, ops), k)
    decreases |ops|
  {
    if ops == [] {
    } else {
      StepSafe(w, ops[0]);
      StepOnScheduleExactly(w, ops[0], k);
      if OnSchedule(Next(w, ops[0]), k) {
        RunOnScheduleExactly(Next(w, ops[0]), ops[1..], k);
      }
    }
  }

  /** After such a run nothing but an empty vault, a missing wallet or an extreme amount stops a withdrawal. */
  lemma RunNeverBlocks(w: World, ops: seq<Op>, k: Pubkey)
    requires Safe(w) && Sum(w.ledger) <= U64_MAX && OnSchedule(w, k) && KeepsScheduleAlong(w, ops, k)
    requires k in Run(w, ops).stakes && Run(w, ops).stakes[k].timeUnstake != 0
    ensures var end := Run(w, ops);
            && StakeVault(k) in end.ledger
            && var s := end.stakes[k];
               WithdrawTx(end, k).Ok?
               <==> && Wallet(k) in end.ledger && end.ledger[StakeVault(k)] != 0
                    && (2 * s.amount <= U64_MAX || s.duration <= end.clock - s.timeUnstake)
  {
    RunSafe(w, ops);
    RunOnScheduleExactly(w, ops, k);
    WithdrawGoesThrough(Run(w, ops), k);
  }

  /**
    A gift in between stops withdrawals: while no more was withdrawn than given, one more base unit
    makes every withdrawal abort until the lock has elapsed.
    */
  lemma GiftStopsWithdrawal(w: World, from: Pubkey, k: Pubkey, seconds: nat)
    requires Safe(w) && k in w.stakes && w.stakes[k].timeUnstake != 0
    requires StakeVault(k) in w.ledger && w.ledger[StakeVault(k)] == w.stakes[k].amount
    requires w.clock + seconds - w.stakes[k].timeUnstake < w.stakes[k].duration
    requires SendTx(w, from, StakeVault(k), 1).Ok?
    ensures WithdrawTx(Run(w, [Send(from, StakeVault(k), 1), Tick(seconds)]), k).Abort?
  {
    var gift := Send(from, StakeVault(k), 1);
    RunTwo(w, gift, Tick(seconds));
    GiftArrives(w, from, k);
    TickOnly(Next(w, gift), seconds);
    StepSafe(w, gift);
    StepSafe(Next(w, gift), Tick(seconds));
    OverfullVaultBlocks(Next(Next(w, gift), Tick(seconds)), k);
  }

  lemma GiftArrives(w: World, from: Pubkey, k: Pubkey)
    requires StakeVault(k) in w.ledger && SendTx(w, from, StakeVault(k), 1).Ok?
    ensures var w' := Next(w, Send(from, StakeVault(k), 1));
            && w'.stakes == w.stakes && w'.clock == w.clock
            && StakeVault(k) in w'.ledger && w'.ledger[StakeVault(k)] == w.ledger[StakeVault(k)] + 1
  {
    TransferConserves(w.ledger, Wallet(from), StakeVault(k), 1);
  }

  lemma TickOnly(w: World, seconds: nat)
    ensures var w' := Next(w, Tick(seconds));
            w' == w.(clock := w'.clock) && w.clock <= w'.clock <= w.clock + seconds
  {
  }

  lemma OverfullVaultBlocks(w: World, k: Pubkey)
    requires Safe(w) && k in w.stakes && w.stakes[k].timeUnstake != 0
    requires w.clock - w.stakes[k].timeUnstake < w.stakes[k].duration
    requires StakeVault(k) in w.ledger && w.stakes[k].amount < w.ledger[StakeVault(k)]
    ensures WithdrawTx(w, k).Abort?
  {
    assert StakeInCustody(w, k);
    WithdrawExact(w.stakes[k], w.ledger[StakeVault(k)], w.clock);
  }

  /** A concrete gift: 1 to the vault of 1000 tokens that were unstaked a day ago. */
  lemma OneUnitStopsWithdrawal()
    ensures var s := Stake(1000, DURATION_MIN, 1, 0);
            && WithdrawAmount(s, 1000, 1 + SECONDS_PER_DAY).Ok?
            && WithdrawAmount(s, 1001, 1 + SECONDS_PER_DAY).Abort?
  {
    var s := Stake(1000, DURATION_MIN, 1, 0);
    WithdrawExact(s, 1000, 1 + SECONDS_PER_DAY);
    WithdrawExact(s, 1001, 1 + SECONDS_PER_DAY);
    UnlockedBelowSchedule(1000, DURATION_MIN, SECONDS_PER_DAY);
  }

  /**
    A slash in between can stop a withdrawal: of 1000 tokens 500 are withdrawn half way, then 400 are
    slashed, and the 300 released of the remaining 600 no longer cover the 500 paid out.
    */
  lemma SlashStopsWithdrawal()
    ensures var s := Stake(1000, 2 * DURATION_MIN, 1, 0);
            && WithdrawAmount(s, 1000, 1 + DURATION_MIN) == Ok(500)
            && Slashed(s, 400).Ok?
            && WithdrawAmount(Slashed(s, 400).value, 500 - 400, 1 + DURATION_MIN).Abort?
  {
    var s := Stake(1000, 2 * DURATION_MIN, 1, 0);
    HalfwayRelease();
    WithdrawExact(s, 1000, 1 + DURATION_MIN);
    WithdrawExact(Slashed(s, 400).value, 100, 1 + DURATION_MIN);
  }

  lemma HalfwayRelease()
    ensures Computable(1000, DURATION_MIN) && Computable(600, DURATION_MIN)
    ensures Unlocked(1000, 2 * DURATION_MIN, DURATION_MIN) == 500
    ensures Unlocked(600, 2 * DURATION_MIN, DURATION_MIN) == 300
  {
    var p := 15_250_284_452_470;
    assert Precision(1000, 1_209_600) == p && Precision(600, 1_209_600) == p;
    QuotientIs(1_209_600 * p, 2_419_200, 7_625_142_226_235);
    QuotientIs(7_625_142_226_235 * 1000, p, 500);
    QuotientIs(7_625_142_226_235 * 600, p, 300);
  }

  // ---------------------------------------------------------------- what a vault holds

  /**
    Over every run: a vault holds the amount of its stake and the gifts, less what an unstaking stake
    has withdrawn; an active stake has withdrawn nothing.
    */
  lemma RunVault(w: World, ops: seq<Op>, k: Pubkey)
    requires Safe(w)
    ensures var end := Run(w, ops);
            k in end.stakes ==>
              && k in end.logs && StakeVault(k) in end.ledger
              && end.ledger[StakeVault(k)]
                 == end.stakes[k].amount + end.logs[k].gifted - end.logs[k].withdrawn
              && (end.stakes[k].timeUnstake == 0 ==> end.logs[k].withdrawn == 0)
  {
    RunSafe(w, ops);
    if k in Run(w, ops).stakes {
      assert StakeInCustody(Run(w, ops), k);
    }
  }
}
