/**
  The staking and rewards programs running side by side on one ledger. Every instruction is one
  atomic step; an aborted instruction changes nothing.
  */
module Network {
  import opened Machine
  import opened MapSum
  import opened Reflection
  import opened Rewards
  import opened Staking
  import opened Token

  /** What has moved through a stake vault besides the stake itself: a history, not program state. */
  datatype VaultLog = VaultLog(withdrawn: nat, gifted: nat)

  /**
    The chain as the two programs see it. `logs`, `feesIn`, `paidOut` and `donated` record history:
    per stake what was withdrawn since the last unstake and what outsiders sent to its vault, and
    for the rewards vault the fees, the paid rewards and what outsiders sent.
    */
  datatype World = World(
    clock: i64,
    ledger: Ledger,
    stakes: map<Pubkey, Stake>,
    logs: map<Pubkey, VaultLog>,
    totals: Totals,
    holders: Holders,
    feesIn: nat,
    paidOut: nat,
    donated: nat)

  datatype Op =
    | Tick(seconds: nat)
    | Send(from: Pubkey, to: Account, amount: u64)
    | OpenStake(key: Pubkey, amount: u64, duration: u128)
    | Topup(key: Pubkey, amount: u64)
    | Extend(key: Pubkey, extra: u64)
    | Unstake(key: Pubkey)
    | Restake(key: Pubkey)
    | Withdraw(key: Pubkey)
    | Slash(key: Pubkey, amount: u64)
    | CloseVault(key: Pubkey)
    | Enter(key: Pubkey)
    | AddFee(from: Pubkey, amount: u64)
    | Claim(key: Pubkey)
    | Sync(key: Pubkey)
    | CloseHolder(key: Pubkey)

  predicate OfRewards(op: Op) {
    op.Enter? || op.AddFee? || op.Claim? || op.Sync? || op.CloseHolder?
  }

  predicate OfStaking(op: Op) {
    || op.OpenStake? || op.Topup? || op.Extend? || op.Unstake? || op.Restake? || op.Withdraw?
    || op.Slash? || op.CloseVault?
  }

  // ---------------------------------------------------------------- steps

  function TickTx(w: World, seconds: nat): Result<World> {
    var now :- ToI64(w.clock + seconds);
    Ok(w.(clock := now))
  }

  /** Anyone may send tokens from an own wallet to any token account. */
  function SendTx(w: World, from: Pubkey, to: Account, amount: u64): Result<World> {
    var l :- Transferred(w.ledger, Wallet(from), to, amount);
    if to == RewardsVault then Ok(w.(ledger := l, donated := w.donated + amount))
    else if to.StakeVault? && to.owner in w.logs then
      var log := w.logs[to.owner];
      Ok(w.(ledger := l, logs := w.logs[to.owner := log.(gifted := log.gifted + amount)]))
    else Ok(w.(ledger := l))
  }

  function OpenStakeTx(w: World, k: Pubkey, amount: u64, duration: u128): Result<World> {
    var _ :- Guard(k !in w.stakes && StakeVault(k) !in w.ledger);
    var s :- Opened(amount, duration);
    var l :- Transferred(w.ledger[StakeVault(k) := 0], Wallet(k), StakeVault(k), amount);
    Ok(w.(ledger := l, stakes := w.stakes[k := s], logs := w.logs[k := VaultLog(0, 0)]))
  }

  function TopupTx(w: World, k: Pubkey, amount: u64): Result<World> {
    var _ :- Guard(k in w.stakes);
    var s :- ToppedUp(w.stakes[k], amount);
    var l :- Transferred(w.ledger, Wallet(k), StakeVault(k), amount);
    Ok(w.(ledger := l, stakes := w.stakes[k := s]))
  }

  function ExtendTx(w: World, k: Pubkey, extra: u64): Result<World> {
    var _ :- Guard(k in w.stakes);
    var s :- Extended(w.stakes[k], extra);
    Ok(w.(stakes := w.stakes[k := s]))
  }

  function UnstakeTx(w: World, k: Pubkey): Result<World> {
    var _ :- Guard(k in w.stakes);
    var s :- Unstaked(w.stakes[k], k !in w.holders, w.clock);
    Ok(w.(stakes := w.stakes[k := s]))
  }

  function RestakeTx(w: World, k: Pubkey): Result<World> {
    var _ :- Guard(k in w.stakes && StakeVault(k) in w.ledger);
    var s :- Restaked(w.stakes[k], w.ledger[StakeVault(k)]);
    Ok(w.(stakes := w.stakes[k := s], logs := w.logs[k := VaultLog(0, 0)]))
  }

  function WithdrawTx(w: World, k: Pubkey): Result<World> {
    var _ :- Guard(k in w.stakes);
    var l :- Withdrawn(w.stakes[k], w.ledger, StakeVault(k), Wallet(k), w.clock);
    var log := if k in w.logs then w.logs[k] else VaultLog(0, 0);
    var amount := Balance(w.ledger, StakeVault(k)) - Balance(l, StakeVault(k));
    if amount < 0 then Abort
    else Ok(w.(ledger := l, logs := w.logs[k := log.(withdrawn := log.withdrawn + amount)]))
  }

  function SlashTx(w: World, k: Pubkey, amount: u64): Result<World> {
    var _ :- Guard(k in w.stakes);
    var s :- Slashed(w.stakes[k], amount);
    var l :- Transferred(w.ledger, StakeVault(k), SlashAccount, amount);
    Ok(w.(ledger := l, stakes := w.stakes[k := s]))
  }

  function CloseVaultTx(w: World, k: Pubkey): Result<World> {
    var _ :- Guard(k in w.stakes);
    var l :- VaultClosed(w.stakes[k], w.ledger, StakeVault(k), w.clock);
    Ok(w.(ledger := l, stakes := w.stakes - {k}, logs := w.logs - {k}))
  }

  function EnterTx(w: World, k: Pubkey): Result<World> {
    var _ :- Guard(k !in w.holders && k in w.stakes && w.stakes[k].timeUnstake == 0);
    var (t, r) :- Entered(w.totals, w.stakes[k].xnos);
    Ok(w.(totals := t, holders := w.holders[k := r]))
  }

  function AddFeeTx(w: World, from: Pubkey, amount: u64): Result<World> {
    var t :- FeeAdded(w.totals, amount);
    var l :- Transferred(w.ledger, Wallet(from), RewardsVault, amount);
    Ok(w.(ledger := l, totals := t, feesIn := w.feesIn + amount))
  }

  function ClaimTx(w: World, k: Pubkey): Result<World> {
    var _ :- Guard(k in w.holders && k in w.stakes);
    var (t, r, l) :- ClaimPaid(w.totals, w.holders[k], w.stakes[k], w.ledger, RewardsVault, Wallet(k));
    var amount := Balance(w.ledger, RewardsVault) - Balance(l, RewardsVault);
    if amount < 0 then Abort
    else Ok(w.(ledger := l, totals := t, holders := w.holders[k := r], paidOut := w.paidOut + amount))
  }

  function SyncTx(w: World, k: Pubkey): Result<World> {
    var _ :- Guard(k in w.holders && k in w.stakes && w.stakes[k].timeUnstake == 0);
    var (t, r) :- Synced(w.totals, w.holders[k], w.stakes[k].xnos);
    Ok(w.(totals := t, holders := w.holders[k := r]))
  }

  function CloseHolderTx(w: World, k: Pubkey): Result<World> {
    var _ :- Guard(k in w.holders);
    var t :- Left(w.totals, w.holders[k].reflection, w.holders[k].xnos);
    Ok(w.(totals := t, holders := w.holders - {k}))
  }

  function Step(w: World, op: Op): Result<World> {
    match op
    case Tick(seconds) => TickTx(w, seconds)
    case Send(from, to, amount) => SendTx(w, from, to, amount)
    case OpenStake(k, amount, duration) => OpenStakeTx(w, k, amount, duration)
    case Topup(k, amount) => TopupTx(w, k, amount)
    case Extend(k, extra) => ExtendTx(w, k, extra)
    case Unstake(k) => UnstakeTx(w, k)
    case Restake(k) => RestakeTx(w, k)
    case Withdraw(k) => WithdrawTx(w, k)
    case Slash(k, amount) => SlashTx(w, k, amount)
    case CloseVault(k) => CloseVaultTx(w, k)
    case Enter(k) => EnterTx(w, k)
    case AddFee(from, amount) => AddFeeTx(w, from, amount)
    case Claim(k) => ClaimTx(w, k)
    case Sync(k) => SyncTx(w, k)
    case CloseHolder(k) => CloseHolderTx(w, k)
  }

  /** An aborted instruction is rolled back. */
  function Next(w: World, op: Op): World {
    match Step(w, op)
    case Ok(w') => w'
    case Abort => w
  }

  function Run(w: World, ops: seq<Op>): World
    decreases |ops|
  {
    if ops == [] then w else Run(Next(w, ops[0]), ops[1..])
  }

  lemma RunTwo(w: World, a: Op, b: Op)
    ensures Run(w, [a, b]) == Next(Next(w, a), b)
  {
    assert [a, b][1..] == [b] && [b][1..] == [];
    assert Run(Next(w, a), [b]) == Next(Next(w, a), b);
  }

  // ---------------------------------------------------------------- custody of the tokens

  ghost predicate StakeInCustody(w: World, k: Pubkey) {
    && k in w.stakes && k in w.logs && StakeVault(k) in w.ledger
    && ValidStake(w.stakes[k])
    && 0 <= w.stakes[k].timeUnstake <= w.clock
    && w.ledger[StakeVault(k)] + w.logs[k].withdrawn == w.stakes[k].amount + w.logs[k].gifted
    && (w.stakes[k].timeUnstake == 0 ==> w.logs[k].withdrawn == 0)
  }

  /**
    Every vault can be accounted for: a stake vault holds the staked amount and the gifts less the
    withdrawals, the rewards vault the fees and the donations less the rewards paid.
    */
  ghost predicate Custody(w: World) {
    && 1 <= w.clock
    && w.logs.Keys == w.stakes.Keys
    && (forall k | k in w.stakes :: StakeInCustody(w, k))
    && (forall k | StakeVault(k) in w.ledger :: k in w.stakes)
    && RewardsVault in w.ledger
    && w.ledger[RewardsVault] + w.paidOut == w.feesIn + w.donated
  }

  /** A reward account is open only while its stake exists and is active. */
  ghost predicate HoldersActive(w: World) {
    forall k | k in w.holders :: k in w.stakes && w.stakes[k].timeUnstake == 0
  }

  ghost predicate Initial(w: World) {
    && 1 <= w.clock
    && w.stakes == map[] && w.logs == map[] && w.holders == map[]
    && w.totals == Totals(INITIAL_RATE, 0, 0)
    && w.feesIn == w.paidOut == w.donated == 0
    && RewardsVault in w.ledger && w.ledger[RewardsVault] == 0
    && (forall k :: StakeVault(k) !in w.ledger)
    && Sum(w.ledger) <= U64_MAX
  }

  ghost predicate Safe(w: World) {
    Custody(w) && HoldersActive(w)
  }

  lemma SendSafe(w: World, from: Pubkey, to: Account, amount: u64)
    requires Safe(w) && SendTx(w, from, to, amount).Ok?
    ensures var w' := SendTx(w, from, to, amount).value; Safe(w') && Sum(w'.ledger) == Sum(w.ledger)
  {
    var w' := SendTx(w, from, to, amount).value;
    SendIsLogged(w, from, to, amount);
    forall k | k in w'.stakes ensures StakeInCustody(w', k) {
      assert StakeInCustody(w, k);
    }
  }

  /** What is sent to a vault is recorded as a gift or a donation, and moves nothing else. */
  lemma SendIsLogged(w: World, from: Pubkey, to: Account, amount: u64)
    requires SendTx(w, from, to, amount).Ok? && RewardsVault in w.ledger
    ensures var w' := SendTx(w, from, to, amount).value;
            && w' == w.(ledger := w'.ledger, logs := w'.logs, donated := w'.donated)
            && w'.ledger.Keys == w.ledger.Keys && w'.logs.Keys == w.logs.Keys
            && Sum(w'.ledger) == Sum(w.ledger)
            && w'.ledger[RewardsVault] - w'.donated == w.ledger[RewardsVault] - w.donated
            && forall k | k in w.logs && StakeVault(k) in w.ledger ::
                 && w'.logs[k].withdrawn == w.logs[k].withdrawn
                 && w'.ledger[StakeVault(k)] - w'.logs[k].gifted == w.ledger[StakeVault(k)] - w.logs[k].gifted
  {
    TransferConserves(w.ledger, Wallet(from), to, amount);
    assert to != Wallet(from) ==>
             Transferred(w.ledger, Wallet(from), to, amount).value[to] == w.ledger[to] + amount;
  }

  /** Safety after an instruction that touches one stake, its log and its vault. */
  lemma OneStakeSafe(w: World, w': World, k: Pubkey)
    requires Safe(w) && k in w'.stakes && k in w'.logs
    requires w' == w.(stakes := w.stakes[k := w'.stakes[k]], logs := w.logs[k := w'.logs[k]],
                      ledger := w'.ledger)
    requires w'.ledger.Keys == w.ledger.Keys + {StakeVault(k)}
    requires forall a | a in w.ledger && (a.StakeVault? || a.RewardsVault?) && a != StakeVault(k) ::
               w'.ledger[a] == w.ledger[a]
    requires StakeInCustody(w', k)
    requires k in w.holders ==> w'.stakes[k].timeUnstake == 0
    ensures Safe(w')
  {
    forall j | j in w'.stakes ensures StakeInCustody(w', j) {
      assert j != k ==> StakeInCustody(w, j);
    }
  }

  lemma OpenStakeSafe(w: World, k: Pubkey, amount: u64, duration: u128)
    requires Safe(w) && OpenStakeTx(w, k, amount, duration).Ok?
    ensures var w' := OpenStakeTx(w, k, amount, duration).value; Safe(w') && Sum(w'.ledger) == Sum(w.ledger)
  {
    var l := w.ledger[StakeVault(k) := 0];
    SumInsert(w.ledger, StakeVault(k), 0);
    TransferConserves(l, Wallet(k), StakeVault(k), amount);
    OpenedValid(amount, duration);
    OneStakeSafe(w, OpenStakeTx(w, k, amount, duration).value, k);
  }

  /** The amount of a stake changes by as much as its vault holds more or less. */
  lemma AmountMoves(w: World, k: Pubkey, s: Stake, l: Ledger)
    requires Safe(w) && k in w.stakes && ValidStake(s)
    requires s == w.stakes[k].(amount := s.amount, xnos := s.xnos)
    requires l.Keys == w.ledger.Keys
    requires StakeVault(k) in l && l[StakeVault(k)] - s.amount == w.ledger[StakeVault(k)] - w.stakes[k].amount
    requires forall a | a in l && (a.StakeVault? || a.RewardsVault?) && a != StakeVault(k) :: l[a] == w.ledger[a]
    ensures Safe(w.(ledger := l, stakes := w.stakes[k := s]))
  {
    assert StakeInCustody(w, k);
    var w' := w.(ledger := l, stakes := w.stakes[k := s]);
    assert w'.logs == w.logs[k := w'.logs[k]];
    OneStakeSafe(w, w', k);
  }

  /** A top-up adds the same amount to the stake and to its vault. */
  lemma TopupMoves(w: World, k: Pubkey, amount: u64, s: Stake)
    requires Safe(w) && k in w.stakes && w.stakes[k].timeUnstake == 0 && ValidStake(s)
    requires w.stakes[k].amount + amount <= U64_MAX
    requires s == w.stakes[k].(amount := w.stakes[k].amount + amount, xnos := s.xnos)
    requires Transferred(w.ledger, Wallet(k), StakeVault(k), amount).Ok?
    ensures var l := Transferred(w.ledger, Wallet(k), StakeVault(k), amount).value;
            && Safe(w.(ledger := l, stakes := w.stakes[k := s]))
            && Sum(l) == Sum(w.ledger)
  {
    assert StakeInCustody(w, k);
    TransferConserves(w.ledger, Wallet(k), StakeVault(k), amount);
    AmountMoves(w, k, s, Transferred(w.ledger, Wallet(k), StakeVault(k), amount).value);
  }

  lemma TopupSafe(w: World, k: Pubkey, amount: u64)
    requires Safe(w) && TopupTx(w, k, amount).Ok?
    ensures var w' := TopupTx(w, k, amount).value; Safe(w') && Sum(w'.ledger) == Sum(w.ledger)
  {
    assert StakeInCustody(w, k);
    ToppedUpHeavier(w.stakes[k], amount);
    TopupMoves(w, k, amount, ToppedUp(w.stakes[k], amount).value);
  }

  lemma ExtendSafe(w: World, k: Pubkey, extra: u64)
    requires Safe(w) && ExtendTx(w, k, extra).Ok?
    ensures var w' := ExtendTx(w, k, extra).value; Safe(w') && Sum(w'.ledger) == Sum(w.ledger)
  {
    assert StakeInCustody(w, k);
    ExtendedHeavier(w.stakes[k], extra);
    OneStakeSafe(w, ExtendTx(w, k, extra).value, k);
  }

  lemma UnstakeSafe(w: World, k: Pubkey)
    requires Safe(w) && UnstakeTx(w, k).Ok?
    ensures var w' := UnstakeTx(w, k).value; Safe(w') && Sum(w'.ledger) == Sum(w.ledger)
  {
    assert StakeInCustody(w, k);
    UnstakeCycleValid(w.stakes[k], w.clock, 0);
    OneStakeSafe(w, UnstakeTx(w, k).value, k);
  }

  lemma RestakeSafe(w: World, k: Pubkey)
    requires Safe(w) && RestakeTx(w, k).Ok?
    ensures var w' := RestakeTx(w, k).value; Safe(w') && Sum(w'.ledger) == Sum(w.ledger)
  {
    assert StakeInCustody(w, k);
    UnstakeCycleValid(w.stakes[k], w.clock, w.ledger[StakeVault(k)]);
    OneStakeSafe(w, RestakeTx(w, k).value, k);
  }

  lemma WithdrawSafe(w: World, k: Pubkey)
    requires Safe(w) && WithdrawTx(w, k).Ok?
    ensures var w' := WithdrawTx(w, k).value; Safe(w') && Sum(w'.ledger) == Sum(w.ledger)
  {
    assert StakeInCustody(w, k);
    var amount := WithdrawAmount(w.stakes[k], w.ledger[StakeVault(k)], w.clock).value;
    if 0 < amount {
      TransferConserves(w.ledger, StakeVault(k), Wallet(k), amount);
    }
    OneStakeSafe(w, WithdrawTx(w, k).value, k);
  }

  /** A slash takes the same amount from the stake and from its vault. */
  lemma SlashMoves(w: World, k: Pubkey, amount: u64, s: Stake)
    requires Safe(w) && k in w.stakes && amount <= w.stakes[k].amount && ValidStake(s)
    requires s == w.stakes[k].(amount := w.stakes[k].amount - amount, xnos := s.xnos)
    requires Transferred(w.ledger, StakeVault(k), SlashAccount, amount).Ok?
    ensures var l := Transferred(w.ledger, StakeVault(k), SlashAccount, amount).value;
            && Safe(w.(ledger := l, stakes := w.stakes[k := s]))
            && Sum(l) == Sum(w.ledger)
  {
    assert StakeInCustody(w, k);
    TransferConserves(w.ledger, StakeVault(k), SlashAccount, amount);
    AmountMoves(w, k, s, Transferred(w.ledger, StakeVault(k), SlashAccount, amount).value);
  }

  lemma SlashSafe(w: World, k: Pubkey, amount: u64)
    requires Safe(w) && SlashTx(w, k, amount).Ok?
    ensures var w' := SlashTx(w, k, amount).value; Safe(w') && Sum(w'.ledger) == Sum(w.ledger)
  {
    assert StakeInCustody(w, k);
    SlashedValid(w.stakes[k], amount);
    SlashMoves(w, k, amount, Slashed(w.stakes[k], amount).value);
  }

  lemma CloseVaultSafe(w: World, k: Pubkey)
    requires Safe(w) && CloseVaultTx(w, k).Ok?
    ensures var w' := CloseVaultTx(w, k).value;
            Safe(w') && Sum(w'.ledger) == Sum(w.ledger) && w.ledger[StakeVault(k)] == 0
  {
    SumSplit(w.ledger, StakeVault(k));
    var w' := CloseVaultTx(w, k).value;
    forall j | j in w'.stakes ensures StakeInCustody(w', j) {
      assert StakeInCustody(w, j);
    }
  }

  /** The pool's own instructions leave stakes and their vaults alone. */
  lemma PoolStepSafe(w: World, w': World)
    requires Safe(w)
    requires w'.stakes == w.stakes && w'.logs == w.logs && w.clock <= w'.clock
    requires w'.ledger.Keys == w.ledger.Keys
    requires forall a: Account | a in w.ledger && a.StakeVault? :: w'.ledger[a] == w.ledger[a]
    requires RewardsVault in w'.ledger && w'.ledger[RewardsVault] + w'.paidOut == w'.feesIn + w'.donated
    requires HoldersActive(w')
    ensures Safe(w')
  {
    forall j | j in w'.stakes ensures StakeInCustody(w', j) {
      assert StakeInCustody(w, j);
    }
  }

  lemma AddFeeSafe(w: World, from: Pubkey, amount: u64)
    requires Safe(w) && AddFeeTx(w, from, amount).Ok?
    ensures var w' := AddFeeTx(w, from, amount).value; Safe(w') && Sum(w'.ledger) == Sum(w.ledger)
  {
    TransferConserves(w.ledger, Wallet(from), RewardsVault, amount);
    PoolStepSafe(w, AddFeeTx(w, from, amount).value);
  }

  /** A claim moves its payout from the rewards vault to the holder's wallet. */
  lemma ClaimMoves(w: World, k: Pubkey)
    requires ClaimTx(w, k).Ok?
    ensures k in w.holders && k in w.stakes && w.stakes[k].timeUnstake == 0
    ensures Claimed(w.totals, w.holders[k], w.stakes[k].xnos).Ok?
    ensures var w' := ClaimTx(w, k).value;
            var (t, r, payout) := Claimed(w.totals, w.holders[k], w.stakes[k].xnos).value;
            && w' == w.(totals := t, holders := w.holders[k := r], paidOut := w.paidOut + payout,
                        ledger := w'.ledger)
            && w'.ledger.Keys == w.ledger.Keys && Sum(w'.ledger) == Sum(w.ledger)
            && RewardsVault in w.ledger && w'.ledger[RewardsVault] == w.ledger[RewardsVault] - payout
            && Wallet(k) in w.ledger && w'.ledger[Wallet(k)] == w.ledger[Wallet(k)] + payout
            && forall a: Account | a in w.ledger && a != RewardsVault && a != Wallet(k) ::
                 w'.ledger[a] == w.ledger[a]
  {
    var (_, _, payout) := Claimed(w.totals, w.holders[k], w.stakes[k].xnos).value;
    if payout != 0 {
      TransferConserves(w.ledger, RewardsVault, Wallet(k), payout);
    }
  }

  lemma ClaimSafe(w: World, k: Pubkey)
    requires Safe(w) && ClaimTx(w, k).Ok?
    ensures var w' := ClaimTx(w, k).value; Safe(w') && Sum(w'.ledger) == Sum(w.ledger)
  {
    ClaimMoves(w, k);
    PoolStepSafe(w, ClaimTx(w, k).value);
  }

  lemma PoolOnlySafe(w: World, op: Op)
    requires Safe(w) && Step(w, op).Ok? && (op.Tick? || op.Enter? || op.Sync? || op.CloseHolder?)
    ensures Safe(Next(w, op)) && Next(w, op).ledger == w.ledger
  {
    PoolStepSafe(w, Next(w, op));
  }

  /** Every instruction keeps every vault accounted for, holders active, and the tokens in total. */
  lemma StepSafe(w: World, op: Op)
    requires Safe(w)
    ensures Safe(Next(w, op)) && Sum(Next(w, op).ledger) == Sum(w.ledger)
  {
    if Step(w, op).Ok? {
      match op
      case Tick(_) => PoolOnlySafe(w, op);
      case Send(from, to, amount) => SendSafe(w, from, to, amount);
      case OpenStake(k, amount, duration) => OpenStakeSafe(w, k, amount, duration);
      case Topup(k, amount) => TopupSafe(w, k, amount);
      case Extend(k, extra) => ExtendSafe(w, k, extra);
      case Unstake(k) => UnstakeSafe(w, k);
      case Restake(k) => RestakeSafe(w, k);
      case Withdraw(k) => WithdrawSafe(w, k);
      case Slash(k, amount) => SlashSafe(w, k, amount);
      case CloseVault(k) => CloseVaultSafe(w, k);
      case Enter(_) => PoolOnlySafe(w, op);
      case AddFee(from, amount) => AddFeeSafe(w, from, amount);
      case Claim(k) => ClaimSafe(w, k);
      case Sync(_) => PoolOnlySafe(w, op);
      case CloseHolder(_) => PoolOnlySafe(w, op);
    }
  }

  /** Over every run, whatever is staked, sent, slashed or claimed. */
  lemma {:induction false} RunSafe(w: World, ops: seq<Op>)
    requires Safe(w)
    ensures Safe(Run(w, ops)) && Sum(Run(w, ops).ledger) == Sum(w.ledger)
    decreases |ops|
  {
    if ops == [] {
    } else {
      StepSafe(w, ops[0]);
      RunSafe(Next(w, ops[0]), ops[1..]);
    }
  }

  lemma InitialSafe(w: World)
    requires Initial(w)
    ensures Safe(w) && Books(w.totals, w.holders, w.feesIn - w.paidOut)
  {
    FreshBooks();
  }
}
