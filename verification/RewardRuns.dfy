/** What holds of the reflection pool over whole runs of both programs. */
module RewardRuns {
  import opened Arith
  import opened Machine
  import opened MapSum
  import opened Network
  import opened Reflection
  import opened Rewards
  import opened Sequences
  import opened Token

  ghost predicate Sound(w: World) {
    && Safe(w)
    && Sum(w.ledger) <= U64_MAX
    && w.paidOut <= w.feesIn
    && Books(w.totals, w.holders, w.feesIn - w.paidOut)
  }

  /** Every fee that goes through is sound. */
  predicate SoundOp(w: World, op: Op) {
    op.AddFee? && Step(w, op).Ok? ==> SoundFee(w.totals, op.amount)
  }

  ghost predicate SoundRun(w: World, ops: seq<Op>)
    decreases |ops|
  {
    ops != [] ==> SoundOp(w, ops[0]) && SoundRun(Next(w, ops[0]), ops[1..])
  }

  lemma InitialSound(w: World)
    requires Initial(w)
    ensures Sound(w)
  {
    InitialSafe(w);
  }

  // ---------------------------------------------------------------- one step

  /** The staking program and the clock leave the pool alone. */
  lemma StakingStepKeepsPool(w: World, op: Op)
    requires !OfRewards(op)
    ensures var w' := Next(w, op);
            && w'.totals == w.totals && w'.holders == w.holders
            && w'.feesIn == w.feesIn && w'.paidOut == w.paidOut
  {
  }

  lemma EnterStep(w: World, k: Pubkey)
    requires Sound(w) && EnterTx(w, k).Ok?
    ensures var w' := EnterTx(w, k).value;
            && Sound(w') && w'.totals.rate == w.totals.rate
            && k !in w.holders && k in w'.holders && w'.holders == w.holders[k := w'.holders[k]]
  {
    PoolOnlySafe(w, Enter(k));
    EnterKeepsBooks(w.totals, w.holders, w.feesIn - w.paidOut, k, w.stakes[k].xnos);
  }

  lemma SyncStep(w: World, k: Pubkey)
    requires Sound(w) && SyncTx(w, k).Ok?
    ensures var w' := SyncTx(w, k).value;
            && Sound(w') && w'.totals.rate == w.totals.rate
            && k in w.holders && k in w'.holders && w'.holders == w.holders[k := w'.holders[k]]
            && Pending(w'.holders[k], w.totals.rate) == Pending(w.holders[k], w.totals.rate)
  {
    PoolOnlySafe(w, Sync(k));
    SyncKeepsBooks(w.totals, w.holders, w.feesIn - w.paidOut, k, w.stakes[k].xnos);
  }

  lemma CloseHolderStep(w: World, k: Pubkey)
    requires Sound(w) && CloseHolderTx(w, k).Ok?
    ensures var w' := CloseHolderTx(w, k).value;
            Sound(w') && w'.totals.rate == w.totals.rate && w'.holders == w.holders - {k}
  {
    PoolOnlySafe(w, CloseHolder(k));
    CloseKeepsBooks(w.totals, w.holders, w.feesIn - w.paidOut, k);
  }

  /** A claim pays out the pending reward, and nothing else. */
  lemma ClaimStep(w: World, k: Pubkey)
    requires Sound(w) && ClaimTx(w, k).Ok?
    ensures k in w.holders
    ensures var w' := ClaimTx(w, k).value;
            var p := Pending(w.holders[k], w.totals.rate);
            && Sound(w') && w'.totals.rate == w.totals.rate
            && k in w'.holders && Pending(w'.holders[k], w.totals.rate) == 0
            && w' == w.(totals := w'.totals, holders := w.holders[k := w'.holders[k]],
                        paidOut := w.paidOut + p, ledger := w'.ledger)
            && w'.ledger.Keys == w.ledger.Keys
            && forall j :: Balance(w'.ledger, Wallet(j))
                           == Balance(w.ledger, Wallet(j)) + (if j == k then p else 0)
  {
    ClaimSafe(w, k);
    ClaimMoves(w, k);
    ClaimKeepsBooks(w.totals, w.holders, w.feesIn - w.paidOut, k, w.stakes[k].xnos);
  }

  /** A fee that goes through keeps the world sound, with no higher rate, exactly when it is sound. */
  lemma FeeStep(w: World, from: Pubkey, amount: u64)
    requires Sound(w) && AddFeeTx(w, from, amount).Ok?
    ensures var w' := AddFeeTx(w, from, amount).value;
            && w'.feesIn == w.feesIn + amount && w'.paidOut == w.paidOut && w'.holders == w.holders
            && (1 <= amount ==> w'.totals.rate < w.totals.rate)
            && (Sound(w') && w'.totals.rate <= w.totals.rate <==> SoundFee(w.totals, amount))
  {
    FeeWorld(w, from, amount);
    FeeKeepsBooksExactly(w.totals, w.holders, w.feesIn - w.paidOut, amount);
  }

  /** What is left to prove of a fee: the books of the totals after it. */
  lemma FeeWorld(w: World, from: Pubkey, amount: u64)
    requires Sound(w) && AddFeeTx(w, from, amount).Ok?
    ensures var w' := AddFeeTx(w, from, amount).value;
            && FeeAdded(w.totals, amount) == Ok(w'.totals)
            && w' == w.(totals := w'.totals, ledger := w'.ledger, feesIn := w.feesIn + amount)
            && (Sound(w') <==> Books(w'.totals, w.holders, w.feesIn - w.paidOut + amount))
  {
    AddFeeSafe(w, from, amount);
  }

  /** The rewards instructions that are not fees keep the world sound and the rate. */
  lemma QuietStep(w: World, op: Op)
    requires Sound(w) && OfRewards(op) && !op.AddFee?
    ensures Sound(Next(w, op)) && Next(w, op).totals.rate == w.totals.rate
  {
    if Step(w, op).Ok? {
      match op
      case Claim(k) => ClaimStep(w, k);
      case Enter(k) => EnterStep(w, k);
      case Sync(k) => SyncStep(w, k);
      case CloseHolder(k) => CloseHolderStep(w, k);
    }
  }

  /** Only fees change the rate, and they only lower it. */
  lemma StepSoundExactly(w: World, op: Op)
    requires Sound(w)
    ensures Sound(Next(w, op)) && Next(w, op).totals.rate <= w.totals.rate <==> SoundOp(w, op)
    ensures Next(w, op).totals.rate != w.totals.rate ==> op.AddFee?
    ensures op.AddFee? && 1 <= op.amount && Step(w, op).Ok? ==> Next(w, op).totals.rate < w.totals.rate
  {
    if !OfRewards(op) {
      StepSafe(w, op);
      StakingStepKeepsPool(w, op);
    } else if !op.AddFee? {
      QuietStep(w, op);
    } else if Step(w, op).Ok? {
      FeeStep(w, op.from, op.amount);
    }
  }

  // ---------------------------------------------------------------- whole runs

  /** The world is sound, and the rate has not risen, after every step. */
  ghost predicate SoundAlong(w: World, ops: seq<Op>)
    decreases |ops|
  {
    && Sound(w)
    && (ops != [] ==> Next(w, ops[0]).totals.rate <= w.totals.rate && SoundAlong(Next(w, ops[0]), ops[1..]))
  }

  /** A run keeps its books at every step exactly when every fee in it is sound. */
  lemma {:induction false} RunSoundExactly(w: World, ops: seq<Op>)
    requires Sound(w)
    ensures SoundAlong(w, ops) <==> SoundRun(w, ops)
    ensures SoundRun(w, ops) ==> Sound(Run(w, ops)) && Run(w, ops).totals.rate <= w.totals.rate
    decreases |ops|
  {
    if ops == [] {
    } else {
      StepSoundExactly(w, ops[0]);
      if Sound(Next(w, ops[0])) {
        RunSoundExactly(Next(w, ops[0]), ops[1..]);
      }
    }
  }

  /**
    Solvency: after any sound run from a fresh pool, all pending rewards together are covered by the
    vault, even leaving donations out of account.
    */
  lemma RunSolvent(w: World, ops: seq<Op>)
    requires Initial(w) && SoundRun(w, ops)
    ensures var end := Run(w, ops);
            && Sound(end)
            && Sum(Pendings(end.holders, end.totals.rate)) <= end.feesIn - end.paidOut
            && end.feesIn - end.paidOut == end.ledger[RewardsVault] - end.donated
  {
    InitialSound(w);
    RunSoundExactly(w, ops);
    var end := Run(w, ops);
    Solvent(end.totals, end.holders, end.feesIn - end.paidOut);
  }

  /** Redistribution: right after a sound fee, less than one base unit a holder is left in the pool. */
  lemma RunLeavesOnlyDust(w: World, ops: seq<Op>, from: Pubkey, amount: u64)
    requires Initial(w) && SoundRun(w, ops)
    requires AddFeeTx(Run(w, ops), from, amount).Ok? && SoundFee(Run(w, ops).totals, amount)
    ensures var end := AddFeeTx(Run(w, ops), from, amount).value;
            && Sound(end)
            && var pending := Sum(Pendings(end.holders, end.totals.rate));
               pending <= end.ledger[RewardsVault] - end.donated < pending + |end.holders|
  {
    InitialSound(w);
    RunSoundExactly(w, ops);
    FeeStepDust(Run(w, ops), from, amount);
  }

  lemma FeeStepDust(w: World, from: Pubkey, amount: u64)
    requires Sound(w) && AddFeeTx(w, from, amount).Ok? && SoundFee(w.totals, amount)
    ensures var w' := AddFeeTx(w, from, amount).value;
            && Sound(w')
            && var pending := Sum(Pendings(w'.holders, w'.totals.rate));
               pending <= w'.ledger[RewardsVault] - w'.donated < pending + |w'.holders|
  {
    FeeStep(w, from, amount);
    FeeRate(w.totals, amount);
    DustIn(AddFeeTx(w, from, amount).value);
  }

  lemma DustIn(w: World)
    requires Sound(w) && 0 < w.totals.xnos && w.totals.xnos * w.totals.rate <= w.totals.reflection
    ensures var pending := Sum(Pendings(w.holders, w.totals.rate));
            pending <= w.ledger[RewardsVault] - w.donated < pending + |w.holders|
  {
    var held := w.feesIn - w.paidOut;
    Solvent(w.totals, w.holders, held);
    DustOfBooks(w.totals, w.holders, held);
  }

  predicate Leaves(op: Op, k: Pubkey) {
    op == Claim(k) || op == CloseHolder(k)
  }

  lemma QuietStepKeepsPending(w: World, op: Op, k: Pubkey)
    requires Sound(w) && OfRewards(op) && !op.AddFee? && Step(w, op).Ok?
    requires k in w.holders && !Leaves(op, k)
    ensures var w' := Next(w, op);
            k in w'.holders && Pending(w'.holders[k], w.totals.rate) == Pending(w.holders[k], w.totals.rate)
  {
    match op
    case Claim(j) =>
      assert Next(w, op) == ClaimTx(w, j).value;
      ClaimStep(w, j);
    case Enter(j) =>
      assert Next(w, op) == EnterTx(w, j).value;
      EnterStep(w, j);
    case Sync(j) =>
      assert Next(w, op) == SyncTx(w, j).value;
      SyncStep(w, j);
    case CloseHolder(j) =>
      assert Next(w, op) == CloseHolderTx(w, j).value;
      CloseHolderStep(w, j);
  }

  /** Nobody else's instruction lowers a holder's pending reward. */
  lemma StepKeepsPending(w: World, op: Op, k: Pubkey)
    requires Sound(w) && SoundOp(w, op) && k in w.holders && !Leaves(op, k)
    ensures var w' := Next(w, op);
            && k in w'.holders && Sound(w')
            && Pending(w.holders[k], w.totals.rate) <= Pending(w'.holders[k], w'.totals.rate)
  {
    StepSoundExactly(w, op);
    if !OfRewards(op) {
      StakingStepKeepsPool(w, op);
    } else if Step(w, op).Ok? {
      if op.AddFee? {
        FeeStep(w, op.from, op.amount);
        PendingRisesAsRateFalls(w.holders[k], w.totals.rate, Next(w, op).totals.rate);
      } else {
        QuietStepKeepsPending(w, op, k);
      }
    }
  }

  /** Over a whole run: a reward not claimed or forfeited by its holder never shrinks. */
  lemma {:induction false} RunKeepsPending(w: World, ops: seq<Op>, k: Pubkey)
    requires Sound(w) && SoundRun(w, ops) && k in w.holders
    requires forall op | op in ops :: !Leaves(op, k)
    ensures var end := Run(w, ops);
            && k in end.holders && Sound(end)
            && Pending(w.holders[k], w.totals.rate) <= Pending(end.holders[k], end.totals.rate)
    decreases |ops|
  {
    if ops == [] {
    } else {
      StepKeepsPending(w, ops[0], k);
      RunKeepsPending(Next(w, ops[0]), ops[1..], k);
    }
  }

  // ---------------------------------------------------------------- instructions that must go through

  /** The account constraints of the rewards instructions, without any arithmetic. */
  predicate Allowed(w: World, op: Op) {
    match op
    case Enter(k) => k !in w.holders && k in w.stakes && w.stakes[k].timeUnstake == 0
    case AddFee(from, amount) =>
      && Wallet(from) in w.ledger && RewardsVault in w.ledger && amount <= w.ledger[Wallet(from)]
      && 0 < w.totals.xnos + amount
    case Claim(k) =>
      && k in w.holders && k in w.stakes && w.stakes[k].timeUnstake == 0
      && w.stakes[k].xnos >= w.holders[k].xnos && Wallet(k) in w.ledger && RewardsVault in w.ledger
    case Sync(k) => k in w.holders && k in w.stakes && w.stakes[k].timeUnstake == 0
    case CloseHolder(k) => k in w.holders
    case _ => false
  }

  function PendingFor(w: World, k: Pubkey): nat
    requires 0 < w.totals.rate
  {
    if k in w.holders then Pending(w.holders[k], w.totals.rate) else 0
  }

  /** What a claim adds to the weight of the pool: the growth of the stake less the payout. */
  function NetGrowth(w: World, k: Pubkey): int
    requires 0 < w.totals.rate
  {
    if k !in w.stakes || k !in w.holders || PendingFor(w, k) == 0 then 0
    else w.stakes[k].xnos - w.holders[k].xnos - PendingFor(w, k)
  }

  /** What a claim adds to the reflections of the pool. */
  function NetReflection(w: World, k: Pubkey): int
    requires 0 < w.totals.rate
  {
    if k !in w.stakes || k !in w.holders || PendingFor(w, k) == 0 then 0
    else w.stakes[k].xnos * w.totals.rate - w.holders[k].reflection
  }

  /** The weight of the pool once the instruction has gone through. */
  function PoolAfter(w: World, op: Op): int
    requires 0 < w.totals.rate
  {
    match op
    case Enter(k) => if k in w.stakes then w.totals.xnos + w.stakes[k].xnos else w.totals.xnos
    case AddFee(_, amount) => w.totals.xnos + amount
    case Claim(k) => w.totals.xnos + NetGrowth(w, k)
    case Sync(k) =>
      if k in w.stakes && k in w.holders then w.totals.xnos - w.holders[k].xnos + w.stakes[k].xnos
      else w.totals.xnos
    case CloseHolder(k) => if k in w.holders then w.totals.xnos - w.holders[k].xnos else w.totals.xnos
    case _ => w.totals.xnos
  }

  /** The reflections of the pool once the instruction has gone through. */
  function ReflectionAfter(w: World, op: Op): int
    requires 0 < w.totals.rate
  {
    match op
    case Enter(k) =>
      if k in w.stakes then w.totals.reflection + w.stakes[k].xnos * w.totals.rate else w.totals.reflection
    case Claim(k) => w.totals.reflection + NetReflection(w, k)
    case Sync(k) =>
      if k in w.stakes && k in w.holders
      then w.totals.reflection - w.holders[k].reflection
           + (w.stakes[k].xnos + PendingFor(w, k)) * w.totals.rate
      else w.totals.reflection
    case CloseHolder(k) =>
      if k in w.holders then w.totals.reflection - w.holders[k].reflection else w.totals.reflection
    case _ => w.totals.reflection
  }

  /** Both totals of the pool fit 128 bits once the instruction has gone through. */
  predicate Fits(w: World, op: Op)
    requires 0 < w.totals.rate
  {
    ReflectionAfter(w, op) <= U128_MAX && PoolAfter(w, op) <= U128_MAX
  }

  lemma ClaimTotals(w: World, k: Pubkey)
    requires Sound(w) && ClaimTx(w, k).Ok?
    ensures ClaimTx(w, k).value.totals.xnos == PoolAfter(w, Claim(k))
    ensures ClaimTx(w, k).value.totals.reflection == ReflectionAfter(w, Claim(k))
  {
    var t := ClaimTx(w, k).value.totals;
    assert Claimed(w.totals, w.holders[k], w.stakes[k].xnos).Ok?
        && t == Claimed(w.totals, w.holders[k], w.stakes[k].xnos).value.0 by { ClaimMoves(w, k); }
    assert t.xnos == PoolAfter(w, Claim(k)) && t.reflection == ReflectionAfter(w, Claim(k)) by {
      ClaimEffect(w.totals, w.holders, w.feesIn - w.paidOut, k, w.stakes[k].xnos);
    }
  }

  lemma SyncTotals(w: World, k: Pubkey)
    requires Sound(w) && SyncTx(w, k).Ok?
    ensures SyncTx(w, k).value.totals.xnos == PoolAfter(w, Sync(k))
    ensures SyncTx(w, k).value.totals.reflection == ReflectionAfter(w, Sync(k))
  {
    SyncEffect(w.totals, w.holders, w.feesIn - w.paidOut, k, w.stakes[k].xnos);
  }

  /** The pool ends exactly where `PoolAfter` and `ReflectionAfter` put it. */
  lemma TotalsAfterExactly(w: World, op: Op)
    requires Sound(w) && OfRewards(op) && Step(w, op).Ok?
    ensures Next(w, op).totals.xnos == PoolAfter(w, op)
    ensures Next(w, op).totals.reflection == ReflectionAfter(w, op)
  {
    match op
    case Claim(k) => ClaimTotals(w, k);
    case Sync(k) => SyncTotals(w, k);
    case Enter(k) => EnterTotals(w, k);
    case AddFee(_, _) =>
    case CloseHolder(_) =>
  }

  lemma EnterTotals(w: World, k: Pubkey)
    requires Sound(w) && EnterTx(w, k).Ok?
    ensures EnterTx(w, k).value.totals.xnos == PoolAfter(w, Enter(k))
    ensures EnterTx(w, k).value.totals.reflection == ReflectionAfter(w, Enter(k))
  {
  }

  /** The vault holds what a claim pays, so a claim goes through exactly when its arithmetic does. */
  lemma ClaimGoesThroughIn(w: World, k: Pubkey)
    requires Sound(w) && Allowed(w, Claim(k))
    ensures ClaimTx(w, k).Ok? <==> Fits(w, Claim(k))
  {
    var held, xnos := w.feesIn - w.paidOut, w.stakes[k].xnos;
    SumHasPart(w.ledger, RewardsVault);
    ClaimGoesThrough(w.totals, w.holders, held, k, xnos);
    if Claimed(w.totals, w.holders[k], xnos).Ok? {
      ClaimKeepsBooks(w.totals, w.holders, held, k, xnos);
      TransferGoesThrough(w.ledger, RewardsVault, Wallet(k), PendingFor(w, k));
    }
  }

  lemma FeeGoesThroughIn(w: World, from: Pubkey, amount: u64)
    requires Sound(w)
    ensures AddFeeTx(w, from, amount).Ok?
            <==> Allowed(w, AddFee(from, amount)) && Fits(w, AddFee(from, amount))
  {
    FeeGoesThrough(w.totals, amount);
    TransferGoesThrough(w.ledger, Wallet(from), RewardsVault, amount);
  }

  /**
    Exactly when a rewards instruction of a sound world goes through: its account constraints hold,
    and the totals it leaves fit 128 bits. Underflow, a division by zero and a short vault never stop it.
    */
  lemma RewardsGoThroughExactly(w: World, op: Op)
    requires Sound(w) && OfRewards(op)
    ensures Step(w, op).Ok? <==> Allowed(w, op) && Fits(w, op)
  {
    var held := w.feesIn - w.paidOut;
    if op.AddFee? {
      FeeGoesThroughIn(w, op.from, op.amount);
    } else if Allowed(w, op) {
      match op
      case Enter(k) => EnterGoesThrough(w.totals, w.stakes[k].xnos);
      case Claim(k) => ClaimGoesThroughIn(w, k);
      case Sync(k) => SyncGoesThrough(w.totals, w.holders, held, k, w.stakes[k].xnos);
      case CloseHolder(k) => CloseKeepsBooks(w.totals, w.holders, held, k);
    }
  }

  predicate HasRoom(rate: nat, pool: int) {
    rate * (pool + 1) <= U128_MAX + 1
  }

  /** The current rate fits the weight of the pool that the instruction leaves. */
  predicate LeavesRoom(w: World, op: Op)
    requires 0 < w.totals.rate
  {
    HasRoom(w.totals.rate, PoolAfter(w, op))
  }

  lemma ReturnerRoomFits(w: World, op: Op)
    requires Sound(w) && Allowed(w, op) && LeavesRoom(w, op) && (op.Claim? || op.Sync?)
    ensures Fits(w, op)
  {
    var k := op.key;
    var r, p := w.holders[k], PendingFor(w, k);
    HolderWithinTotals(w.totals, w.holders, w.feesIn - w.paidOut, k);
    if op.Sync? {
      RoomForMove(w.totals, r.reflection, r.xnos + p, w.stakes[k].xnos + p);
    } else if p != 0 {
      RoomForMove(w.totals, r.reflection, r.xnos + p, w.stakes[k].xnos);
    }
  }

  /** With exact books, the totals fit whenever the rate leaves room for the weight alone. */
  lemma RoomFits(w: World, op: Op)
    requires Sound(w) && Allowed(w, op) && LeavesRoom(w, op)
    ensures Fits(w, op)
  {
    match op
    case Enter(k) => RoomForMove(w.totals, 0, 0, w.stakes[k].xnos);
    case AddFee(_, amount) => RoomForMove(w.totals, 0, 0, amount);
    case Claim(_) => ReturnerRoomFits(w, op);
    case Sync(_) => ReturnerRoomFits(w, op);
    case CloseHolder(_) =>
  }

  /**
    While the pool an instruction leaves is below the token supply, or the rate has fallen enough for
    a larger one, nothing but its account constraints can stop it.
    */
  lemma RewardsAbortOnlyByConstraint(w: World, op: Op)
    requires Sound(w) && OfRewards(op)
    requires PoolAfter(w, op) < NOS_TOTAL_SUPPLY || LeavesRoom(w, op)
    ensures Step(w, op).Ok? <==> Allowed(w, op)
  {
    RewardsGoThroughExactly(w, op);
    if Allowed(w, op) {
      if !LeavesRoom(w, op) {
        PoolStaysWhole(w, op);
        SupplyLeavesRoom(w.totals.rate, PoolAfter(w, op));
      }
      RoomFits(w, op);
    }
  }

  lemma PoolStaysWhole(w: World, op: Op)
    requires Sound(w) && Allowed(w, op)
    ensures 0 <= PoolAfter(w, op)
  {
    if !op.Enter? && !op.AddFee? {
      HolderWithinTotals(w.totals, w.holders, w.feesIn - w.paidOut, op.key);
    }
  }

  // ---------------------------------------------------------------- claiming in any order

  function Claims(ks: seq<Pubkey>): seq<Op> {
    if ks == [] then [] else [Claim(ks[0])] + Claims(ks[1..])
  }

  ghost function PendingOf(w: World, who: set<Pubkey>): map<Pubkey, nat>
    requires 0 < w.totals.rate
  {
    map k | k in who :: PendingFor(w, k)
  }

  /** What the claims of `who` add to the pool where they add anything. */
  ghost function Growths(w: World, who: set<Pubkey>): map<Pubkey, nat>
    requires 0 < w.totals.rate
  {
    map k | k in who :: Max(0, NetGrowth(w, k))
  }

  /** One claim after the other, from these totals, both totals keep fitting 128 bits. */
  ghost predicate FitsInTurn(w: World, reflection: int, pool: int, ks: seq<Pubkey>)
    requires 0 < w.totals.rate
    decreases |ks|
  {
    ks != [] ==>
      var reflection', pool' := reflection + NetReflection(w, ks[0]), pool + NetGrowth(w, ks[0]);
      reflection' <= U128_MAX && pool' <= U128_MAX && FitsInTurn(w, reflection', pool', ks[1..])
  }

  ghost predicate AllGoThrough(w: World, ops: seq<Op>)
    decreases |ops|
  {
    ops != [] ==> Step(w, ops[0]).Ok? && AllGoThrough(Next(w, ops[0]), ops[1..])
  }

  ghost function Elements(ks: seq<Pubkey>): set<Pubkey> {
    set k | k in ks
  }

  lemma HeadAndRest(ks: seq<Pubkey>)
    requires ks != [] && Distinct(ks)
    ensures Distinct(ks[1..]) && ks[0] !in ks[1..]
    ensures Elements(ks) == {ks[0]} + Elements(ks[1..])
  {
    assert ks == [ks[0]] + ks[1..];
  }

  lemma OneMorePending(w: World, k: Pubkey, rest: set<Pubkey>)
    requires 0 < w.totals.rate && k !in rest
    ensures Sum(PendingOf(w, {k} + rest)) == PendingFor(w, k) + Sum(PendingOf(w, rest))
  {
    SumSplit(PendingOf(w, {k} + rest), k);
    assert PendingOf(w, {k} + rest) - {k} == PendingOf(w, rest);
  }

  lemma OneMoreGrowth(w: World, k: Pubkey, rest: set<Pubkey>)
    requires 0 < w.totals.rate && k !in rest
    ensures Sum(Growths(w, {k} + rest)) == Max(0, NetGrowth(w, k)) + Sum(Growths(w, rest))
  {
    SumSplit(Growths(w, {k} + rest), k);
    assert Growths(w, {k} + rest) - {k} == Growths(w, rest);
  }

  ghost predicate MayClaim(w: World, ks: seq<Pubkey>) {
    Distinct(ks) && forall k | k in ks :: Allowed(w, Claim(k))
  }

  /** Every one of `ks` received what was pending for it in `w`, and nobody else received anything. */
  ghost predicate EachPaid(w: World, end: World, ks: seq<Pubkey>)
    requires 0 < w.totals.rate
  {
    forall j :: Balance(end.ledger, Wallet(j))
                == Balance(w.ledger, Wallet(j)) + (if j in ks then PendingFor(w, j) else 0)
  }

  /** What a claim by `k` does: the others keep all they had, and `k` is paid. */
  ghost predicate Turn(w: World, w': World, k: Pubkey) {
    && 0 < w.totals.rate == w'.totals.rate && w'.stakes == w.stakes && w'.ledger.Keys == w.ledger.Keys
    && k in w'.holders && w'.holders == w.holders[k := w'.holders[k]]
    && w'.totals.reflection == w.totals.reflection + NetReflection(w, k)
    && w'.totals.xnos == w.totals.xnos + NetGrowth(w, k)
    && w'.paidOut == w.paidOut + PendingFor(w, k)
    && EachPaid(w, w', [k])
  }

  /** One claim: exactly when it goes through, and what it does. */
  lemma OneClaim(w: World, k: Pubkey)
    requires Sound(w) && Allowed(w, Claim(k))
    ensures ClaimTx(w, k).Ok? <==> Fits(w, Claim(k))
    ensures ClaimTx(w, k).Ok? ==> Sound(Next(w, Claim(k))) && Turn(w, Next(w, Claim(k)), k)
  {
    ClaimGoesThroughIn(w, k);
    if ClaimTx(w, k).Ok? {
      ClaimStep(w, k);
      ClaimTotals(w, k);
    }
  }

  lemma FirstOfClaims(w: World, ks: seq<Pubkey>)
    requires ks != []
    ensures AllGoThrough(w, Claims(ks))
            <==> ClaimTx(w, ks[0]).Ok? && AllGoThrough(Next(w, Claim(ks[0])), Claims(ks[1..]))
    ensures Run(w, Claims(ks)) == Run(Next(w, Claim(ks[0])), Claims(ks[1..]))
  {
    var ops := Claims(ks);
    assert ops[0] == Claim(ks[0]) && ops[1..] == Claims(ks[1..]);
  }

  lemma FirstMayClaim(w: World, ks: seq<Pubkey>)
    requires ks != [] && MayClaim(w, ks)
    ensures Allowed(w, Claim(ks[0])) && MayClaim(w, ks[1..]) && ks[0] !in ks[1..]
    ensures Elements(ks) == {ks[0]} + Elements(ks[1..]) && ks == [ks[0]] + ks[1..]
  {
    HeadAndRest(ks);
    assert ks[0] in ks && forall k | k in ks[1..] :: k in ks;
  }

  lemma OthersMayClaim(w: World, w': World, k: Pubkey, rest: seq<Pubkey>)
    requires Turn(w, w', k) && k !in rest && MayClaim(w, rest)
    ensures MayClaim(w', rest)
  {
  }

  lemma {:induction false} OthersFitStill(w: World, w': World, k: Pubkey, reflection: int, pool: int, ks: seq<Pubkey>)
    requires Turn(w, w', k) && k !in ks
    ensures FitsInTurn(w', reflection, pool, ks) == FitsInTurn(w, reflection, pool, ks)
    decreases |ks|
  {
    if ks == [] {
    } else {
      OthersFitStill(w, w', k, reflection + NetReflection(w, ks[0]), pool + NetGrowth(w, ks[0]), ks[1..]);
    }
  }

  /** The first of the claims in turn, and the others after it. */
  lemma FirstFits(w: World, k: Pubkey, rest: seq<Pubkey>)
    requires 0 < w.totals.rate
    ensures FitsInTurn(w, w.totals.reflection, w.totals.xnos, [k] + rest)
            <==> && Fits(w, Claim(k))
                 && FitsInTurn(w, w.totals.reflection + NetReflection(w, k), w.totals.xnos + NetGrowth(w, k), rest)
  {
    var ks := [k] + rest;
    assert ks[0] == k && ks[1..] == rest;
  }

  lemma OthersFitInTurn(w: World, w': World, k: Pubkey, rest: seq<Pubkey>)
    requires Turn(w, w', k) && k !in rest
    ensures FitsInTurn(w, w.totals.reflection, w.totals.xnos, [k] + rest)
            <==> Fits(w, Claim(k)) && FitsInTurn(w', w'.totals.reflection, w'.totals.xnos, rest)
  {
    FirstFits(w, k, rest);
    OthersFitStill(w, w', k, w'.totals.reflection, w'.totals.xnos, rest);
  }

  /** Claims one after the other all go through exactly when the totals keep fitting. */
  lemma {:induction false} ClaimsInTurn(w: World, ks: seq<Pubkey>)
    requires Sound(w) && MayClaim(w, ks)
    ensures AllGoThrough(w, Claims(ks)) <==> FitsInTurn(w, w.totals.reflection, w.totals.xnos, ks)
    decreases |ks|
  {
    if ks == [] {
    } else {
      var k, rest, w' := ks[0], ks[1..], Next(w, Claim(ks[0]));
      FirstOfClaims(w, ks);
      FirstMayClaim(w, ks);
      OneClaim(w, k);
      if ClaimTx(w, k).Ok? {
        OthersMayClaim(w, w', k, rest);
        OthersFitInTurn(w, w', k, rest);
        ClaimsInTurn(w', rest);
      } else {
        FirstFits(w, k, rest);
      }
    }
  }

  /** Later payments, on top of the first one. */
  lemma PaidInTurn(w: World, w': World, end: World, k: Pubkey, rest: seq<Pubkey>)
    requires Turn(w, w', k) && k !in rest && EachPaid(w', end, rest)
    requires end.paidOut == w'.paidOut + Sum(PendingOf(w', Elements(rest)))
    ensures EachPaid(w, end, [k] + rest)
    ensures end.paidOut == w.paidOut + Sum(PendingOf(w, {k} + Elements(rest)))
  {
    OneMorePending(w, k, Elements(rest));
    assert PendingOf(w', Elements(rest)) == PendingOf(w, Elements(rest));
    forall j
      ensures Balance(end.ledger, Wallet(j))
           == Balance(w.ledger, Wallet(j)) + (if j in [k] + rest then PendingFor(w, j) else 0)
    {
      assert Balance(w'.ledger, Wallet(j))
          == Balance(w.ledger, Wallet(j)) + (if j in [k] then PendingFor(w, j) else 0);
    }
  }

  /**
    Where they all go through, every claimant receives what was pending for it before the first
    claim, nobody else receives anything, and the vault pays the sum.
    */
  lemma {:induction false} ClaimsPayEach(w: World, ks: seq<Pubkey>)
    requires Sound(w) && MayClaim(w, ks) && AllGoThrough(w, Claims(ks))
    ensures EachPaid(w, Run(w, Claims(ks)), ks)
    ensures Run(w, Claims(ks)).paidOut == w.paidOut + Sum(PendingOf(w, Elements(ks)))
    decreases |ks|
  {
    if ks == [] {
      assert PendingOf(w, Elements(ks)) == map[];
    } else {
      var k, rest, w' := ks[0], ks[1..], Next(w, Claim(ks[0]));
      FirstOfClaims(w, ks);
      FirstMayClaim(w, ks);
      OneClaim(w, k);
      OthersMayClaim(w, w', k, rest);
      ClaimsPayEach(w', rest);
      PaidInTurn(w, w', Run(w', Claims(rest)), k, rest);
    }
  }

  /** The rate leaves room for the pool with all growths of `who` added. */
  ghost predicate RoomFor(w: World, who: set<Pubkey>)
    requires 0 < w.totals.rate
  {
    HasRoom(w.totals.rate, w.totals.xnos + Sum(Growths(w, who)))
  }

  lemma RoomForOne(w: World, k: Pubkey, rest: set<Pubkey>)
    requires 0 < w.totals.rate && k !in rest && RoomFor(w, {k} + rest)
    ensures LeavesRoom(w, Claim(k))
    ensures HasRoom(w.totals.rate, w.totals.xnos + NetGrowth(w, k) + Sum(Growths(w, rest)))
  {
    OneMoreGrowth(w, k, rest);
    var after, later := PoolAfter(w, Claim(k)), Sum(Growths(w, rest));
    var most := w.totals.xnos + Sum(Growths(w, {k} + rest)) + 1;
    assert after + later + 1 <= most;
    MulWithin(w.totals.rate, after + later + 1, most, U128_MAX + 1);
    MulWithin(w.totals.rate, after + 1, after + later + 1, U128_MAX + 1);
  }

  lemma RoomStays(w: World, w': World, k: Pubkey, rest: set<Pubkey>)
    requires Turn(w, w', k) && k !in rest && RoomFor(w, {k} + rest)
    ensures RoomFor(w', rest)
  {
    RoomForOne(w, k, rest);
    assert Growths(w', rest) == Growths(w, rest);
  }

  lemma {:induction false} RoomForAll(w: World, ks: seq<Pubkey>)
    requires Sound(w) && MayClaim(w, ks) && RoomFor(w, Elements(ks))
    ensures AllGoThrough(w, Claims(ks))
    decreases |ks|
  {
    if ks == [] {
    } else {
      var k, rest, w' := ks[0], ks[1..], Next(w, Claim(ks[0]));
      FirstOfClaims(w, ks);
      FirstMayClaim(w, ks);
      RoomForOne(w, k, Elements(rest));
      RoomFits(w, Claim(k));
      OneClaim(w, k);
      OthersMayClaim(w, w', k, rest);
      RoomStays(w, w', k, Elements(rest));
      RoomForAll(w', rest);
    }
  }

  /**
    Any set of holders for whose net growth the rate leaves room can claim, in any order: all claims
    go through, and every claimant receives what was pending for it before the first.
    */
  lemma ClaimsInAnyOrder(w: World, who: set<Pubkey>, ks: seq<Pubkey>)
    requires Sound(w) && RoomFor(w, who) && forall k | k in who :: Allowed(w, Claim(k))
    requires Distinct(ks) && Elements(ks) == who
    ensures AllGoThrough(w, Claims(ks))
    ensures EachPaid(w, Run(w, Claims(ks)), ks)
    ensures Run(w, Claims(ks)).paidOut == w.paidOut + Sum(PendingOf(w, who))
  {
    assert forall k :: k in ks <==> k in Elements(ks);
    RoomForAll(w, ks);
    ClaimsPayEach(w, ks);
  }
}
