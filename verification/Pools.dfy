/**
  Token pools: a steady emission, claimed at any time and limited by what has been deposited. A pool
  pays either a beneficiary or, as a fee, the reflection pool.
  */
module Pools {
  import opened Arith
  import opened Machine
  import opened MapSum
  import opened Reflection
  import opened Rewards
  import opened Token

  datatype ClaimType = TransferClaim | FeeClaim | UnknownClaim

  datatype Pool = Pool(claimType: ClaimType, claimed: u64, emission: u64, startTime: i64)

  /** Seconds since the start times emission, in 64 bits. */
  function Emitted(p: Pool, now: i64): Result<u64> {
    var since :- ToI64(now - p.startTime);
    // A difference cast to an unsigned type keeps its low 64 bits.
    var seconds := if since < 0 then since + U64_MAX + 1 else since;
    ToU64(seconds * p.emission)
  }

  /** The emission counts the seconds since the start modulo 2^64, so it is not negative even before the start. */
  lemma EmittedModulo(p: Pool, now: i64)
    ensures var seconds := (now - p.startTime) % 0x1_0000_0000_0000_0000;
            && (Emitted(p, now).Ok?
                <==> I64_MIN <= now - p.startTime <= I64_MAX && seconds * p.emission <= U64_MAX)
            && (Emitted(p, now).Ok? ==> Emitted(p, now).value == seconds * p.emission)
            && (p.startTime <= now && now - p.startTime <= I64_MAX ==> seconds == now - p.startTime)
  {
    var since := now - p.startTime;
    if since < 0 && I64_MIN <= since {
      assert (since + 0x1_0000_0000_0000_0000) % 0x1_0000_0000_0000_0000 == since % 0x1_0000_0000_0000_0000;
    }
  }

  /** The pool after a claim against `available` tokens, and the amount due. */
  function PoolClaimed(p: Pool, available: u64, now: i64): Result<(Pool, u64)> {
    var emitted :- Emitted(p, now);
    var due :- ToU64(emitted - p.claimed);
    var amount: u64 := Min(due, available);
    Ok((p.(claimed := p.claimed + amount), amount))
  }

  function TransferClaimed(p: Pool, l: Ledger, vault: Account, beneficiary: Account, now: i64)
    : Result<(Pool, Ledger)>
  {
    var _ :- Guard(vault in l && beneficiary in l && now > p.startTime && p.claimType == TransferClaim);
    var (p', amount) :- PoolClaimed(p, l[vault], now);
    var _ :- Guard(amount >= p'.emission);
    var l' :- Transferred(l, vault, beneficiary, amount);
    Ok((p', l'))
  }

  function FeeClaimed(p: Pool, l: Ledger, vault: Account, rewardsVault: Account, t: Totals, now: i64)
    : Result<(Pool, Ledger, Totals)>
  {
    var _ :- Guard(vault in l && rewardsVault in l && now > p.startTime && p.claimType == FeeClaim);
    var (p', amount) :- PoolClaimed(p, l[vault], now);
    if amount < p'.emission then Ok((p', l, t))
    else
      var t' :- FeeAdded(t, amount);
      var l' :- Transferred(l, vault, rewardsVault, amount);
      Ok((p', l', t'))
  }

  class PoolAccount {
    var claimType: ClaimType
    var claimed: u64
    var emission: u64
    var startTime: i64

    constructor (claimType: ClaimType, emission: u64, startTime: i64)
      ensures Get() == Pool(claimType, 0, emission, startTime)
    {
      this.claimType, this.emission, this.startTime := claimType, emission, startTime;
      claimed := 0;
    }

    function Get(): Pool
      reads this
    {
      Pool(claimType, claimed, emission, startTime)
    }

    method Claim(available: u64, now: i64) returns (r: Result<u64>)
      modifies this`claimed
      ensures r.Ok? <==> PoolClaimed(old(Get()), available, now).Ok?
      ensures r.Ok? ==> Ok((Get(), r.value)) == PoolClaimed(old(Get()), available, now)
    {
      var since :- ToI64(now - startTime);
      var poolAmount :- ToU64((if since < 0 then since + U64_MAX + 1 else since) * emission);
      var due :- ToU64(poolAmount - claimed);
      var amount: u64 := Min(due, available);
      claimed := claimed + amount;
      return Ok(amount);
    }
  }

  method ClaimTransfer(pool: PoolAccount, bank: Bank, vault: Account, beneficiary: Account, now: i64)
    returns (r: Result<()>)
    modifies pool, bank
    ensures r.Ok? <==> TransferClaimed(old(pool.Get()), old(bank.balances), vault, beneficiary, now).Ok?
    ensures r.Ok? ==> Ok((pool.Get(), bank.balances))
                      == TransferClaimed(old(pool.Get()), old(bank.balances), vault, beneficiary, now)
  {
    if vault !in bank.balances || beneficiary !in bank.balances || now <= pool.startTime
       || pool.claimType != TransferClaim {
      return Abort;
    }
    var amount :- pool.Claim(bank.balances[vault], now);
    if amount < pool.emission {
      return Abort;
    }
    r := bank.Transfer(vault, beneficiary, amount);
  }

  method ClaimFee(pool: PoolAccount, bank: Bank, vault: Account, rewardsVault: Account,
                  reflection: ReflectionAccount, now: i64)
    returns (r: Result<()>)
    modifies pool, bank, reflection
    ensures r.Ok? <==> FeeClaimed(old(pool.Get()), old(bank.balances), vault, rewardsVault,
                                  old(reflection.Get()), now).Ok?
    ensures r.Ok? ==> Ok((pool.Get(), bank.balances, reflection.Get()))
                      == FeeClaimed(old(pool.Get()), old(bank.balances), vault, rewardsVault,
                                    old(reflection.Get()), now)
  {
    if vault !in bank.balances || rewardsVault !in bank.balances || now <= pool.startTime
       || pool.claimType != FeeClaim {
      return Abort;
    }
    var amount :- pool.Claim(bank.balances[vault], now);
    if amount < pool.emission {
      return Ok(());
    }
    r := AddFeeToPool(reflection, bank, vault, rewardsVault, amount);
  }

  // ---------------------------------------------------------------- runs of one pool

  /**
    One pool on a ledger, with the clock. `deposited` and `paid` record the history of its vault;
    `skipped` the amounts that a fee claim booked as claimed without paying them. The beneficiary may
    be the pool's own vault; what is paid there is also a deposit. `totals` are those of the reflection
    pool, which other instructions may change in any way between two claims.
    */
  datatype World = World(clock: i64, ledger: Ledger, pool: Pool, beneficiary: Account, totals: Totals,
                         deposited: nat, paid: nat, skipped: nat)

  datatype Op =
    | Tick(seconds: nat)
    | Deposit(from: Account, amount: u64)
    | ClaimToBeneficiary
    | ClaimToRewards
    | ReflectionMoves(totals: Totals)
    | SetBeneficiary(beneficiary: Account)

  function ClaimToBeneficiaryTx(w: World): Result<World> {
    var (p, l) :- TransferClaimed(w.pool, w.ledger, PoolVault, w.beneficiary, w.clock);
    var amount := p.claimed - w.pool.claimed;
    Ok(w.(pool := p, ledger := l, paid := w.paid + amount,
          deposited := if w.beneficiary == PoolVault then w.deposited + amount else w.deposited))
  }

  function ClaimToRewardsTx(w: World): Result<World> {
    var _ :- Guard(w.beneficiary == RewardsVault);
    var (p, l, t) :- FeeClaimed(w.pool, w.ledger, PoolVault, RewardsVault, w.totals, w.clock);
    var amount := p.claimed - w.pool.claimed;
    var w' := w.(pool := p, ledger := l, totals := t);
    if amount < w.pool.emission then Ok(w'.(skipped := w.skipped + amount))
    else Ok(w'.(paid := w.paid + amount))
  }

  function Step(w: World, op: Op): Result<World> {
    match op
    case Tick(seconds) =>
      var now :- ToI64(w.clock + seconds);
      Ok(w.(clock := now))
    case Deposit(from, amount) =>
      var _ :- Guard(from != PoolVault);
      var l :- Transferred(w.ledger, from, PoolVault, amount);
      Ok(w.(ledger := l, deposited := w.deposited + amount))
    case ClaimToBeneficiary => ClaimToBeneficiaryTx(w)
    case ClaimToRewards => ClaimToRewardsTx(w)
    case ReflectionMoves(t) => Ok(w.(totals := t))
    case SetBeneficiary(b) => Ok(w.(beneficiary := b))
  }

  function Next(w: World, op: Op): World {
    match Step(w, op)
    case Ok(w') => w'
    case Abort => w
  }

  function Run(w: World, ops: seq<Op>): World
    decreases |ops|
  {
    if ops == [] then w else Run(Next(w, ops[0]), ops[1..])
  }

  /** What the pool has emitted by `now`: nothing before it starts. */
  function Due(p: Pool, now: int): nat {
    if now <= p.startTime then 0 else (now - p.startTime) * p.emission
  }

  /** What a claim can take now: all that is due, or all that there is. */
  function Claimable(w: World): int {
    Min(Due(w.pool, w.clock) - w.pool.claimed, Balance(w.ledger, PoolVault))
  }

  ghost predicate Opened(w: World) {
    && w.pool.claimed == 0 && w.paid == w.skipped == 0
    && PoolVault in w.ledger && w.deposited == w.ledger[PoolVault]
  }

  /** The vault is accounted for, and nothing is claimed ahead of the emission or of the deposits. */
  ghost predicate Balanced(w: World) {
    && PoolVault in w.ledger
    && w.ledger[PoolVault] + w.paid == w.deposited
    && w.pool.claimed == w.paid + w.skipped
    && w.pool.claimed <= Due(w.pool, w.clock)
    && (w.pool.claimType == TransferClaim ==> w.skipped == 0)
  }

  lemma DueGrows(p: Pool, now: int, later: int)
    requires now <= later
    ensures Due(p, now) <= Due(p, later)
  {
    if p.startTime < now {
      MulMonotone(now - p.startTime, later - p.startTime, p.emission, p.emission);
    }
  }

  /** In a balanced pool a claim aborts only where the emission no longer fits 64 bits. */
  lemma PoolClaimExactly(w: World)
    requires Balanced(w) && w.pool.startTime < w.clock
    ensures PoolClaimed(w.pool, w.ledger[PoolVault], w.clock).Ok?
            <==> w.clock - w.pool.startTime <= I64_MAX && Due(w.pool, w.clock) <= U64_MAX
    ensures PoolClaimed(w.pool, w.ledger[PoolVault], w.clock).Ok? ==>
              var (p, amount) := PoolClaimed(w.pool, w.ledger[PoolVault], w.clock).value;
              && p == w.pool.(claimed := w.pool.claimed + amount)
              && p.claimed == Min(Due(w.pool, w.clock), w.pool.claimed + w.ledger[PoolVault])
  {
  }

  /**
    A successful claim by transfer: whatever was claimed before, the total paid becomes the emission
    so far or everything ever deposited, whichever is less.
    */
  lemma TransferClosedForm(w: World)
    requires Balanced(w) && ClaimToBeneficiaryTx(w).Ok?
    ensures var w' := ClaimToBeneficiaryTx(w).value;
            && Balanced(w')
            && w'.paid == w'.pool.claimed == Min(Due(w.pool, w.clock), w.deposited)
            && w' == w.(pool := w'.pool, ledger := w'.ledger, paid := w'.paid, deposited := w'.deposited)
            && (w.beneficiary != PoolVault ==> w'.deposited == w.deposited)
  {
    PoolClaimExactly(w);
    var (_, amount) := PoolClaimed(w.pool, w.ledger[PoolVault], w.clock).value;
    TransferConserves(w.ledger, PoolVault, w.beneficiary, amount);
  }

  /** Exactly when a claim by transfer goes through. */
  lemma TransferGoesThroughExactly(w: World)
    requires Balanced(w) && Sum(w.ledger) <= U64_MAX
    ensures ClaimToBeneficiaryTx(w).Ok?
            <==> && w.beneficiary in w.ledger && w.pool.claimType == TransferClaim
                 && w.pool.startTime < w.clock && w.clock - w.pool.startTime <= I64_MAX
                 && Due(w.pool, w.clock) <= U64_MAX && w.pool.emission <= Claimable(w)
  {
    if w.pool.startTime < w.clock {
      PoolClaimExactly(w);
      if 0 <= Claimable(w) {
        TransferGoesThrough(w.ledger, PoolVault, w.beneficiary, Claimable(w));
      }
    }
  }

  /** The beneficiary receives what is paid, and nobody else anything. */
  lemma TransferPays(w: World)
    requires Balanced(w) && ClaimToBeneficiaryTx(w).Ok?
    ensures w.pool.emission <= Claimable(w)
    ensures var w' := ClaimToBeneficiaryTx(w).value;
            && Moved(w.ledger, w'.ledger, PoolVault, w.beneficiary, Claimable(w))
            && w'.pool == w.pool.(claimed := w.pool.claimed + Claimable(w))
  {
    PoolClaimExactly(w);
    TransferMoves(w.ledger, PoolVault, w.beneficiary, Claimable(w));
  }

  /** A fee claim books the same amount, but pays it only from one emission upwards. */
  lemma FeeClosedForm(w: World)
    requires Balanced(w) && ClaimToRewardsTx(w).Ok?
    ensures var w' := ClaimToRewardsTx(w).value;
            var amount := w'.pool.claimed - w.pool.claimed;
            && Balanced(w')
            && w'.pool.claimed == Min(Due(w.pool, w.clock), w.deposited + w.skipped)
            && w'.paid == w.paid + (if amount < w.pool.emission then 0 else amount)
            && w' == w.(pool := w'.pool, ledger := w'.ledger, totals := w'.totals,
                        paid := w'.paid, skipped := w'.skipped)
  {
    PoolClaimExactly(w);
    var (_, amount) := PoolClaimed(w.pool, w.ledger[PoolVault], w.clock).value;
    if w.pool.emission <= amount {
      TransferConserves(w.ledger, PoolVault, RewardsVault, amount);
    }
  }

  /**
    A fee claim that pays feeds the reflection pool: the amount joins the pool's weight, the rate is set
    anew, and the tokens reach the rewards vault. One that pays nothing leaves pool and ledger alone.
    */
  lemma FeeFeedsPool(w: World)
    requires Balanced(w) && ClaimToRewardsTx(w).Ok?
    ensures 0 <= Claimable(w)
    ensures var w', amount, t := ClaimToRewardsTx(w).value, Claimable(w), w.totals;
            if amount < w.pool.emission then w'.totals == t && w'.ledger == w.ledger
            else
              && 0 < t.xnos + amount
              && w'.totals.xnos == t.xnos + amount && w'.totals.reflection == t.reflection
              && w'.totals.rate == t.reflection / (t.xnos + amount)
              && Moved(w.ledger, w'.ledger, PoolVault, RewardsVault, amount)
  {
    PoolClaimExactly(w);
    if w.pool.emission <= Claimable(w) {
      TransferMoves(w.ledger, PoolVault, RewardsVault, Claimable(w));
    }
  }

  /** A fee claim goes through exactly if it computes and, once it pays, the reflection pool can take the fee. */
  lemma FeeGoesThroughExactly(w: World)
    requires Balanced(w) && Sum(w.ledger) <= U64_MAX
    ensures ClaimToRewardsTx(w).Ok?
            <==> && w.beneficiary == RewardsVault && RewardsVault in w.ledger && w.pool.claimType == FeeClaim
                 && w.pool.startTime < w.clock && w.clock - w.pool.startTime <= I64_MAX
                 && Due(w.pool, w.clock) <= U64_MAX
                 && (w.pool.emission <= Claimable(w) ==> 0 < w.totals.xnos + Claimable(w) <= U128_MAX)
  {
    if w.pool.startTime < w.clock {
      PoolClaimExactly(w);
      if w.pool.emission <= Claimable(w) {
        TransferGoesThrough(w.ledger, PoolVault, RewardsVault, Claimable(w));
      }
    }
  }

  /** So the books of the reflection pool hold for what it held and what the claim pays, if that is a sound fee. */
  lemma FeeClaimKeepsBooks(w: World, m: Holders, held: nat)
    requires Balanced(w) && ClaimToRewardsTx(w).Ok? && Books(w.totals, m, held)
    requires w.pool.emission <= Claimable(w) ==> SoundFee(w.totals, Claimable(w))
    ensures Books(ClaimToRewardsTx(w).value.totals, m,
                  held + if w.pool.emission <= Claimable(w) then Claimable(w) else 0)
  {
    PoolClaimExactly(w);
    if w.pool.emission <= Claimable(w) {
      FeeKeepsBooksExactly(w.totals, m, held, Claimable(w));
    }
  }

  /** In numbers: a fee of 10 halves a rate of 100 over a pool of 10. */
  lemma TenFeedThePool()
    ensures var w := World(1, map[PoolVault := 10, RewardsVault := 0], Pool(FeeClaim, 0, 10, 0), RewardsVault,
                           Totals(100, 1000, 10), 10, 0, 0);
            Step(w, ClaimToRewards).Ok? && Next(w, ClaimToRewards).totals == Totals(50, 1000, 20)
  {
  }

  lemma StepBalanced(w: World, op: Op)
    requires Balanced(w)
    ensures Balanced(Next(w, op))
    ensures w.pool == Next(w, op).pool.(claimed := w.pool.claimed)
    ensures w.skipped <= Next(w, op).skipped
  {
    if Step(w, op).Ok? {
      match op
      case Tick(seconds) => DueGrows(w.pool, w.clock, w.clock + seconds);
      case Deposit(from, amount) => TransferConserves(w.ledger, from, PoolVault, amount);
      case ClaimToBeneficiary => TransferClosedForm(w);
      case ClaimToRewards => FeeClosedForm(w);
      case ReflectionMoves(_) =>
      case SetBeneficiary(_) =>
    }
  }

  lemma {:induction false} RunBalanced(w: World, ops: seq<Op>)
    requires Balanced(w)
    ensures Balanced(Run(w, ops))
    ensures Run(w, ops).pool == w.pool.(claimed := Run(w, ops).pool.claimed)
    ensures w.skipped <= Run(w, ops).skipped
    decreases |ops|
  {
    if ops == [] {
    } else {
      StepBalanced(w, ops[0]);
      RunBalanced(Next(w, ops[0]), ops[1..]);
    }
  }

  /** The closed form over every schedule of deposits and claims since the pool was opened. */
  lemma RunTransferClosedForm(w: World, ops: seq<Op>)
    requires Opened(w) && ClaimToBeneficiaryTx(Run(w, ops)).Ok?
    ensures var end := Run(w, ops);
            && ClaimToBeneficiaryTx(end).value.paid == Min(Due(w.pool, end.clock), end.deposited)
            && ClaimToBeneficiaryTx(end).value.pool.claimed == ClaimToBeneficiaryTx(end).value.paid
  {
    RunBalanced(w, ops);
    TransferClosedForm(Run(w, ops));
  }

  /**
    A fee claim that is accepted and computes, with something to take, but less than one emission.
    Everything here is known before the claim.
    */
  predicate Skips(w: World, op: Op) {
    && op.ClaimToRewards?
    && w.pool.claimType == FeeClaim && w.beneficiary == RewardsVault
    && PoolVault in w.ledger && RewardsVault in w.ledger
    && w.pool.startTime < w.clock && w.clock - w.pool.startTime <= I64_MAX
    && Due(w.pool, w.clock) <= U64_MAX
    && 0 < Claimable(w) < w.pool.emission
  }

  ghost predicate NeverSkips(w: World, ops: seq<Op>)
    decreases |ops|
  {
    ops != [] ==> !Skips(w, ops[0]) && NeverSkips(Next(w, ops[0]), ops[1..])
  }

  /** The guard tells exactly when a step books tokens without paying them, and how many. */
  lemma StepSkips(w: World, op: Op)
    requires Balanced(w)
    ensures Balanced(Next(w, op))
    ensures Next(w, op).skipped == w.skipped + (if Skips(w, op) then Claimable(w) else 0)
  {
    StepBalanced(w, op);
    if op.ClaimToRewards? && w.pool.startTime < w.clock {
      PoolClaimExactly(w);
    }
  }

  /** All that the claims of a run book without paying. */
  ghost function SkippedIn(w: World, ops: seq<Op>): int
    decreases |ops|
  {
    if ops == [] then 0
    else (if Skips(w, ops[0]) then Claimable(w) else 0) + SkippedIn(Next(w, ops[0]), ops[1..])
  }

  lemma {:induction false} RunSkips(w: World, ops: seq<Op>)
    requires Balanced(w)
    ensures Run(w, ops).skipped == w.skipped + SkippedIn(w, ops)
    ensures 0 <= SkippedIn(w, ops) && (SkippedIn(w, ops) == 0 <==> NeverSkips(w, ops))
    decreases |ops|
  {
    if ops == [] {
    } else {
      StepSkips(w, ops[0]);
      RunSkips(Next(w, ops[0]), ops[1..]);
    }
  }

  /**
    A fee pool never pays more than it books as claimed. It falls short by exactly what it skipped,
    so the two agree exactly when no claim met the guard.
    */
  lemma RunPaysClaimed(w: World, ops: seq<Op>)
    requires Opened(w)
    ensures var end := Run(w, ops);
            && end.paid <= end.pool.claimed <= Due(w.pool, end.clock)
            && end.pool.claimed - end.paid == SkippedIn(w, ops)
            && (end.paid == end.pool.claimed <==> NeverSkips(w, ops))
  {
    RunBalanced(w, ops);
    RunSkips(w, ops);
  }

  /** Five of the first ten tokens due are booked, never paid, and never due again. */
  lemma SkippedIsLost(l: Ledger)
    requires l == map[PoolVault := 5, RewardsVault := 0, Wallet(0) := 100]
    ensures var w := World(1, l, Pool(FeeClaim, 0, 10, 0), RewardsVault, Totals(1, 1000, 10), 5, 0, 0);
            var end := Run(w, [ClaimToRewards, Tick(1), Deposit(Wallet(0), 100), ClaimToRewards]);
            Opened(w) && end.paid == 15 && Min(Due(w.pool, end.clock), end.deposited) == 20
  {
    var w := World(1, l, Pool(FeeClaim, 0, 10, 0), RewardsVault, Totals(1, 1000, 10), 5, 0, 0);
    var w1 := Next(w, ClaimToRewards);
    assert w1 == w.(pool := w.pool.(claimed := 5), skipped := 5);
    var w2 := Next(w1, Tick(1));
    var w3 := Next(w2, Deposit(Wallet(0), 100));
    PaysFifteen(w3);
    RunFour(w, ClaimToRewards, Tick(1), Deposit(Wallet(0), 100), ClaimToRewards);
  }

  lemma PaysFifteen(w: World)
    requires w.clock == 2 && w.pool == Pool(FeeClaim, 5, 10, 0) && w.beneficiary == RewardsVault
    requires PoolVault in w.ledger && w.ledger[PoolVault] == 105 && w.paid == 0
    requires RewardsVault in w.ledger && w.ledger[RewardsVault] == 0
    requires w.totals == Totals(1, 1000, 10)
    ensures Next(w, ClaimToRewards).paid == 15
    ensures Next(w, ClaimToRewards).clock == w.clock
    ensures Next(w, ClaimToRewards).deposited == w.deposited
  {
    assert FeeAdded(w.totals, 15).Ok?;
  }

  lemma RunFour(w: World, a: Op, b: Op, c: Op, d: Op)
    ensures Run(w, [a, b, c, d]) == Next(Next(Next(Next(w, a), b), c), d)
  {
    RunStep(w, a, [b, c, d]);
    RunStep(Next(w, a), b, [c, d]);
    RunStep(Next(Next(w, a), b), c, [d]);
    RunStep(Next(Next(Next(w, a), b), c), d, []);
    assert [a] + [b, c, d] == [a, b, c, d] && [b] + [c, d] == [b, c, d] && [c] + [d] == [c, d];
  }

  lemma RunStep(w: World, op: Op, ops: seq<Op>)
    ensures Run(w, [op] + ops) == Run(Next(w, op), ops)
  {
    assert ([op] + ops)[1..] == ops;
  }
}
