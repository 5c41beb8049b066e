/**
  Why the reflection pool is fair and solvent. The books of a pool are its totals, its holders and
  `held`, the fees it has taken in less the rewards it has paid out.
  */
module Reflection {
  import opened Arith
  import opened Machine
  import opened MapSum
  import opened Rewards
  import opened Staking
  import opened Token

  // ---------------------------------------------------------------- sums over the holders

  ghost function Reflections(m: Holders): map<Pubkey, nat> {
    map k | k in m :: m[k].reflection
  }

  ghost function Weights(m: Holders): map<Pubkey, nat> {
    map k | k in m :: m[k].xnos
  }

  /** What a holder's reflections are worth at `rate`, own weight included. */
  function Share(r: Reward, rate: nat): nat
    requires 0 < rate
  {
    r.reflection / rate
  }

  ghost function Shares(m: Holders, rate: nat): map<Pubkey, nat>
    requires 0 < rate
  {
    map k | k in m :: Share(m[k], rate)
  }

  lemma ShareBounds(r: Reward, rate: nat)
    requires 0 < rate
    ensures Share(r, rate) * rate <= r.reflection <= Share(r, rate) * rate + (rate - 1)
  {
    DivisionStep(r.reflection, rate);
  }

  /** The reward pending for a holder at `rate`. */
  function Pending(r: Reward, rate: nat): nat
    requires 0 < rate
  {
    if Share(r, rate) < r.xnos then 0 else Share(r, rate) - r.xnos
  }

  ghost function Pendings(m: Holders, rate: nat): map<Pubkey, nat>
    requires 0 < rate
  {
    map k | k in m :: Pending(m[k], rate)
  }

  lemma SplitReflections(m: Holders, k: Pubkey)
    requires k in m
    ensures Sum(Reflections(m)) == m[k].reflection + Sum(Reflections(m - {k}))
  {
    SumSplit(Reflections(m), k);
    assert Reflections(m) - {k} == Reflections(m - {k});
  }

  lemma SplitWeights(m: Holders, k: Pubkey)
    requires k in m
    ensures Sum(Weights(m)) == m[k].xnos + Sum(Weights(m - {k}))
  {
    SumSplit(Weights(m), k);
    assert Weights(m) - {k} == Weights(m - {k});
  }

  lemma SplitShares(m: Holders, rate: nat, k: Pubkey)
    requires 0 < rate && k in m
    ensures Sum(Shares(m, rate)) == Share(m[k], rate) + Sum(Shares(m - {k}, rate))
  {
    SumSplit(Shares(m, rate), k);
    assert Shares(m, rate) - {k} == Shares(m - {k}, rate);
  }

  lemma SplitPendings(m: Holders, rate: nat, k: Pubkey)
    requires 0 < rate && k in m
    ensures Sum(Pendings(m, rate)) == Pending(m[k], rate) + Sum(Pendings(m - {k}, rate))
  {
    SumSplit(Pendings(m, rate), k);
    assert Pendings(m, rate) - {k} == Pendings(m - {k}, rate);
  }

  lemma NoHolders(rate: nat)
    requires 0 < rate
    ensures Sum(Reflections(map[])) == Sum(Weights(map[])) == 0
    ensures Sum(Shares(map[], rate)) == Sum(Pendings(map[], rate)) == 0
  {
    assert Reflections(map[]) == map[] && Weights(map[]) == map[];
    assert Shares(map[], rate) == map[] && Pendings(map[], rate) == map[];
  }

  /** The worth of all reflections is the sum of the shares, short of less than one token a holder. */
  lemma {:induction false} SharesOfReflections(m: Holders, rate: nat)
    requires 0 < rate
    ensures Sum(Shares(m, rate)) * rate
         <= Sum(Reflections(m))
         <= Sum(Shares(m, rate)) * rate + |m| * (rate - 1)
    decreases |m|
  {
    if m == map[] {
      NoHolders(rate);
      assert 0 * rate == 0;
    } else {
      var k :| k in m;
      var rest := m - {k};
      SharesOfReflections(rest, rate);
      SplitShares(m, rate, k);
      SplitReflections(m, k);
      ShareBounds(m[k], rate);
      OneMoreShare(Share(m[k], rate), Sum(Shares(rest, rate)), m[k].reflection, Sum(Reflections(rest)),
                   |rest|, rate);
    }
  }

  lemma OneMoreShare(share: nat, shares: nat, reflection: nat, reflections: nat, n: nat, rate: nat)
    requires 0 < rate
    requires share * rate <= reflection <= share * rate + (rate - 1)
    requires shares * rate <= reflections <= shares * rate + n * (rate - 1)
    ensures (share + shares) * rate <= reflection + reflections
    ensures reflection + reflections <= (share + shares) * rate + (n + 1) * (rate - 1)
  {
    Distribute(share, shares, rate);
    Distribute(n, 1, rate - 1);
  }

  /** With every share covering its weight, the pending rewards are what the shares add to the weights. */
  lemma {:induction false} PendingsOfShares(m: Holders, rate: nat)
    requires 0 < rate
    requires forall k | k in m :: m[k].xnos <= Share(m[k], rate)
    ensures Sum(Shares(m, rate)) == Sum(Weights(m)) + Sum(Pendings(m, rate))
    decreases |m|
  {
    if m == map[] {
      NoHolders(rate);
    } else {
      var k :| k in m;
      PendingsOfShares(m - {k}, rate);
      SplitShares(m, rate, k);
      SplitWeights(m, k);
      SplitPendings(m, rate, k);
    }
  }

  /** The sums after holder `k` becomes `r`. */
  lemma SumsWith(m: Holders, k: Pubkey, r: Reward)
    ensures Sum(Reflections(m[k := r])) == Sum(Reflections(m - {k})) + r.reflection
    ensures Sum(Weights(m[k := r])) == Sum(Weights(m - {k})) + r.xnos
  {
    SplitReflections(m[k := r], k);
    SplitWeights(m[k := r], k);
    assert m[k := r] - {k} == m - {k};
  }

  // ---------------------------------------------------------------- the books

  /** The rounding left in the pool is worth less than one token at the current rate. */
  ghost predicate Covered(t: Totals) {
    t.reflection < t.rate * (t.xnos + 1)
  }

  /** The totals are the exact sums over the holders, and the pool covers every share. */
  ghost predicate Books(t: Totals, m: Holders, held: nat) {
    && 1 <= t.rate <= INITIAL_RATE
    && t.reflection == Sum(Reflections(m))
    && t.xnos == Sum(Weights(m)) + held
    && (forall k | k in m :: m[k].xnos * t.rate <= m[k].reflection)
    && Covered(t)
  }

  lemma FreshBooks()
    ensures Books(Totals(INITIAL_RATE, 0, 0), map[], 0)
  {
    NoHolders(INITIAL_RATE);
  }

  lemma CoveredPaysAll(t: Totals, m: Holders)
    requires 1 <= t.rate && Covered(t) && Sum(Reflections(m)) == t.reflection
    ensures Sum(Shares(m, t.rate)) <= t.xnos
  {
    SharesOfReflections(m, t.rate);
    CancelStrict(Sum(Shares(m, t.rate)), t.xnos + 1, t.rate);
  }

  /** All reflections in one hand. */
  function SoleHolder(reflection: u128): Holders {
    map[0 := Reward(reflection, 0)]
  }

  lemma SoleHolderSums(reflection: u128, rate: nat)
    requires 0 < rate
    ensures Sum(Reflections(SoleHolder(reflection))) == reflection
    ensures Sum(Shares(SoleHolder(reflection), rate)) == Share(Reward(reflection, 0), rate)
  {
    var m := SoleHolder(reflection);
    SplitReflections(m, 0);
    SplitShares(m, rate, 0);
    assert m - {0} == map[];
    NoHolders(rate);
  }

  /** Covering is exactly what it takes for every population of holders with these totals to be paid. */
  lemma CoveredExactly(t: Totals)
    requires 1 <= t.rate
    ensures Covered(t) <==>
            forall m: Holders | Sum(Reflections(m)) == t.reflection :: Sum(Shares(m, t.rate)) <= t.xnos
  {
    if Covered(t) {
      forall m: Holders | Sum(Reflections(m)) == t.reflection ensures Sum(Shares(m, t.rate)) <= t.xnos {
        CoveredPaysAll(t, m);
      }
    } else {
      SoleHolderSums(t.reflection, t.rate);
      QuotientAtLeast(t.reflection, t.rate, t.xnos + 1);
      assert Sum(Shares(SoleHolder(t.reflection), t.rate)) > t.xnos;
    }
  }

  lemma ShareCoversWeight(r: Reward, rate: nat)
    requires 0 < rate && r.xnos * rate <= r.reflection
    ensures r.xnos <= Share(r, rate) <= U128_MAX
    ensures Share(r, rate) == r.xnos + Pending(r, rate)
    ensures Amount(r, rate) == Ok(Pending(r, rate))
  {
    QuotientAtLeast(r.reflection, rate, r.xnos);
    QuotientAntitone(r.reflection, 1, rate);
  }

  /** All pending rewards together never exceed what the pool holds. */
  lemma Solvent(t: Totals, m: Holders, held: nat)
    requires Books(t, m, held)
    ensures Sum(Pendings(m, t.rate)) <= held
    ensures Sum(Shares(m, t.rate)) <= t.xnos
    ensures Sum(Shares(m, t.rate)) == Sum(Weights(m)) + Sum(Pendings(m, t.rate))
  {
    CoveredPaysAll(t, m);
    forall k | k in m ensures m[k].xnos <= Share(m[k], t.rate) {
      ShareCoversWeight(m[k], t.rate);
    }
    PendingsOfShares(m, t.rate);
  }

  /** One holder's weight, reward and reflections are within the totals. */
  lemma HolderWithinTotals(t: Totals, m: Holders, held: nat, k: Pubkey)
    requires Books(t, m, held) && k in m
    ensures Amount(m[k], t.rate) == Ok(Pending(m[k], t.rate))
    ensures m[k].xnos + Pending(m[k], t.rate) <= t.xnos
    ensures Pending(m[k], t.rate) <= held
    ensures m[k].reflection <= t.reflection
    ensures (m[k].xnos + Pending(m[k], t.rate)) * t.rate <= m[k].reflection
  {
    Solvent(t, m, held);
    HolderWithinSums(m, t.rate, k);
    HolderIsBacked(m[k], t.rate);
  }

  lemma HolderWithinSums(m: Holders, rate: u128, k: Pubkey)
    requires 0 < rate && k in m
    ensures Share(m[k], rate) <= Sum(Shares(m, rate))
    ensures Pending(m[k], rate) <= Sum(Pendings(m, rate))
    ensures m[k].reflection <= Sum(Reflections(m))
  {
    SplitShares(m, rate, k);
    SplitPendings(m, rate, k);
    SplitReflections(m, k);
  }

  /** A holder's reflections back its weight and its pending reward. */
  lemma HolderIsBacked(r: Reward, rate: u128)
    requires 0 < rate && r.xnos * rate <= r.reflection
    ensures Amount(r, rate) == Ok(Pending(r, rate))
    ensures Share(r, rate) == r.xnos + Pending(r, rate)
    ensures (r.xnos + Pending(r, rate)) * rate <= r.reflection
  {
    ShareCoversWeight(r, rate);
    ShareBounds(r, rate);
  }

  // ---------------------------------------------------------------- what every instruction keeps

  /**
    The common step: reflections `r`, worth at least `gone` tokens, leave the pool together with
    `gone` tokens, and `back` tokens come in at the current rate.
    */
  lemma CoveredMoves(rate: nat, reflection: nat, pool: nat, r: nat, gone: nat, back: nat)
    requires reflection < rate * (pool + 1)
    requires gone * rate <= r && gone <= pool
    ensures reflection - r + back * rate < rate * (pool - gone + back + 1)
  {
    assert rate * (pool - gone + back + 1) == rate * (pool + 1) - gone * rate + back * rate;
  }

  lemma PendingOfWhole(r: Reward, rate: nat, pending: nat)
    requires 0 < rate && r.reflection == (r.xnos + pending) * rate
    ensures Pending(r, rate) == pending
  {
    QuotientIs(r.reflection, rate, r.xnos + pending);
  }

  lemma EnterKeepsBooks(t: Totals, m: Holders, held: nat, k: Pubkey, xnos: nat)
    requires Books(t, m, held) && k !in m && Entered(t, xnos).Ok?
    ensures var (t', r) := Entered(t, xnos).value;
            && Books(t', m[k := r], held) && t'.rate == t.rate
            && Pending(r, t'.rate) == 0
  {
    var (t', r) := Entered(t, xnos).value;
    SumsWith(m, k, r);
    assert m - {k} == m;
    CoveredMoves(t.rate, t.reflection, t.xnos, 0, 0, xnos);
    PendingOfWhole(r, t.rate, 0);
  }

  /** A holder leaves with `gone` tokens and comes back as `r`, with `back` tokens of reflections. */
  lemma BooksSwapped(t: Totals, m: Holders, held: nat, k: Pubkey, gone: nat, back: nat,
                     t': Totals, r: Reward, held': nat)
    requires Books(t, m, held) && k in m
    requires gone <= t.xnos && gone * t.rate <= m[k].reflection
    requires t'.rate == t.rate && t'.xnos == t.xnos - gone + back
    requires t'.reflection == t.reflection - m[k].reflection + back * t.rate
    requires r.reflection == back * t.rate && r.xnos <= back
    requires held' == held + m[k].xnos - gone + back - r.xnos
    ensures Books(t', m[k := r], held')
  {
    SplitReflections(m, k);
    SplitWeights(m, k);
    SumsWith(m, k, r);
    CoveredMoves(t.rate, t.reflection, t.xnos, m[k].reflection, gone, back);
    MulMonotone(r.xnos, back, t.rate, t.rate);
  }

  /** What a claim with a reward pending does, in one step. */
  lemma ClaimEffect(t: Totals, m: Holders, held: nat, k: Pubkey, xnos: u128)
    requires Books(t, m, held) && k in m && Claimed(t, m[k], xnos).Ok?
    ensures var p := Pending(m[k], t.rate);
            if p == 0 then Claimed(t, m[k], xnos) == Ok((t, m[k], 0))
            else
              && p <= U64_MAX
              && 0 <= t.reflection - m[k].reflection + xnos * t.rate <= U128_MAX
              && 0 <= t.xnos - (m[k].xnos + p) + xnos <= U128_MAX
              && xnos * t.rate <= U128_MAX
              && Claimed(t, m[k], xnos)
                 == Ok((Totals(t.rate, t.reflection - m[k].reflection + xnos * t.rate,
                               t.xnos - (m[k].xnos + p) + xnos),
                        Reward(xnos * t.rate, xnos), p))
  {
    HolderWithinTotals(t, m, held, k);
  }

  /** A claim pays exactly the pending reward and leaves its holder with none. */
  lemma ClaimKeepsBooks(t: Totals, m: Holders, held: nat, k: Pubkey, xnos: u128)
    requires Books(t, m, held) && k in m && Claimed(t, m[k], xnos).Ok?
    ensures var (t', r, payout) := Claimed(t, m[k], xnos).value;
            && payout == Pending(m[k], t.rate) <= held
            && Books(t', m[k := r], held - payout) && t'.rate == t.rate
            && Pending(r, t'.rate) == 0
  {
    var (t', r, payout) := Claimed(t, m[k], xnos).value;
    ClaimEffect(t, m, held, k, xnos);
    HolderWithinTotals(t, m, held, k);
    if payout == 0 {
      assert m[k := r] == m;
    } else {
      BooksSwapped(t, m, held, k, m[k].xnos + payout, xnos, t', r, held - payout);
      PendingOfWhole(r, t.rate, 0);
    }
  }

  /** What a sync does, in one step. */
  lemma SyncEffect(t: Totals, m: Holders, held: nat, k: Pubkey, xnos: u128)
    requires Books(t, m, held) && k in m && Synced(t, m[k], xnos).Ok?
    ensures var p := Pending(m[k], t.rate);
            && 0 <= t.reflection - m[k].reflection + (xnos + p) * t.rate <= U128_MAX
            && 0 <= t.xnos - m[k].xnos + xnos <= U128_MAX
            && (xnos + p) * t.rate <= U128_MAX
            && Synced(t, m[k], xnos)
               == Ok((Totals(t.rate, t.reflection - m[k].reflection + (xnos + p) * t.rate,
                             t.xnos - m[k].xnos + xnos),
                      Reward((xnos + p) * t.rate, xnos)))
  {
    HolderWithinTotals(t, m, held, k);
  }

  /** Re-weighting a holder keeps its pending reward to the unit. */
  lemma SyncKeepsBooks(t: Totals, m: Holders, held: nat, k: Pubkey, xnos: u128)
    requires Books(t, m, held) && k in m && Synced(t, m[k], xnos).Ok?
    ensures var (t', r) := Synced(t, m[k], xnos).value;
            && Books(t', m[k := r], held) && t'.rate == t.rate
            && r.xnos == xnos && Pending(r, t'.rate) == Pending(m[k], t.rate)
  {
    var (t', r) := Synced(t, m[k], xnos).value;
    var p := Pending(m[k], t.rate);
    SyncEffect(t, m, held, k, xnos);
    HolderWithinTotals(t, m, held, k);
    BooksSwapped(t, m, held, k, m[k].xnos + p, xnos + p, t', r, held);
    PendingOfWhole(r, t.rate, p);
  }

  /** A closing holder's pending reward stays in the pool. */
  lemma CloseKeepsBooks(t: Totals, m: Holders, held: nat, k: Pubkey)
    requires Books(t, m, held) && k in m
    ensures Left(t, m[k].reflection, m[k].xnos).Ok?
    ensures var t' := Left(t, m[k].reflection, m[k].xnos).value;
            Books(t', m - {k}, held) && t'.rate == t.rate
  {
    HolderWithinTotals(t, m, held, k);
    SplitReflections(m, k);
    SplitWeights(m, k);
    CoveredMoves(t.rate, t.reflection, t.xnos, m[k].reflection, m[k].xnos, 0);
  }

  /** A fee is sound when its division leaves over less than the new rate, and the rate does not rise. */
  predicate SoundFee(t: Totals, fee: nat) {
    && 0 < t.xnos + fee
    && t.reflection % (t.xnos + fee) < t.reflection / (t.xnos + fee) <= t.rate
  }

  /** A rate that stays at least the pool makes every positive fee sound. */
  lemma RateAbovePoolIsSound(t: Totals, m: Holders, held: nat, fee: nat)
    requires Books(t, m, held) && 1 <= fee && t.xnos + fee <= t.reflection / (t.xnos + fee)
    ensures SoundFee(t, fee)
  {
    FeeArith(t.rate, t.reflection, t.xnos, t.xnos + fee);
  }

  /**
    A fee keeps the books without raising the rate if and only if it is sound. A positive fee
    always lowers the rate.
    */
  lemma FeeKeepsBooksExactly(t: Totals, m: Holders, held: nat, fee: nat)
    requires Books(t, m, held) && FeeAdded(t, fee).Ok?
    ensures var t' := FeeAdded(t, fee).value;
            && (1 <= fee ==> t'.rate < t.rate)
            && (Books(t', m, held + fee) && t'.rate <= t.rate <==> SoundFee(t, fee))
  {
    var t' := FeeAdded(t, fee).value;
    FeeArith(t.rate, t.reflection, t.xnos, t.xnos + fee);
    if t'.rate <= t.rate {
      forall k | k in m ensures m[k].xnos * t'.rate <= m[k].reflection {
        MulMonotone(m[k].xnos, m[k].xnos, t'.rate, t.rate);
      }
    }
  }

  lemma FeeArith(rate: nat, reflection: nat, pool: nat, pool': nat)
    requires reflection < rate * (pool + 1) && pool <= pool' && 0 < pool'
    ensures pool < pool' ==> reflection / pool' < rate
    ensures reflection % pool' < reflection / pool'
       <==> reflection < reflection / pool' * (pool' + 1)
  {
    var rate' := reflection / pool';
    DivisionStep(reflection, pool');
    if pool < pool' {
      MulMonotone(rate, rate, pool + 1, pool');
      CancelStrict(rate', rate, pool');
    }
    Distribute(pool', 1, rate');
  }

  /**
    Right after a sound fee, fewer base units than there are holders are left undistributed: what
    earlier closes forfeited and all earlier rounding have gone back to the remaining holders.
    */
  lemma FeeLeavesOnlyDust(t: Totals, m: Holders, held: nat, fee: nat)
    requires Books(t, m, held) && FeeAdded(t, fee).Ok? && SoundFee(t, fee)
    ensures var t' := FeeAdded(t, fee).value;
            && 0 < t'.rate
            && Sum(Pendings(m, t'.rate)) <= held + fee < Sum(Pendings(m, t'.rate)) + |m|
  {
    var t' := FeeAdded(t, fee).value;
    FeeKeepsBooksExactly(t, m, held, fee);
    FeeRate(t, fee);
    Solvent(t', m, held + fee);
    DustOfBooks(t', m, held + fee);
  }

  lemma FeeRate(t: Totals, fee: nat)
    requires FeeAdded(t, fee).Ok?
    ensures var t' := FeeAdded(t, fee).value;
            && t'.xnos == t.xnos + fee
            && t'.xnos * t'.rate <= t.reflection < t'.xnos * t'.rate + t'.xnos
            && (SoundFee(t, fee) ==> 0 < t'.rate)
  {
    DivisionStep(t.reflection, t.xnos + fee);
  }

  lemma DustOfBooks(t: Totals, m: Holders, held: nat)
    requires Books(t, m, held) && 0 < t.xnos && t.xnos * t.rate <= t.reflection
    ensures held < Sum(Pendings(m, t.rate)) + |m|
  {
    Solvent(t, m, held);
    SharesOfReflections(m, t.rate);
    MulMonotone(1, t.xnos, 1, t.rate);
    if |m| == 0 {
      assert m == map[];
      NoHolders(1);
    } else {
      DustArith(t.rate, t.xnos, Sum(Shares(m, t.rate)), |m|, t.reflection);
    }
  }

  lemma DustArith(rate: nat, pool: nat, shares: nat, n: nat, reflection: nat)
    requires 0 < rate && 0 < n
    requires pool * rate <= reflection <= shares * rate + n * (rate - 1)
    ensures pool < shares + n
  {
    assert n * (rate - 1) == n * rate - n;
    Distribute(shares, n, rate);
    CancelStrict(pool, shares + n, rate);
  }

  /** Whoever stays put never loses pending reward when the rate falls. */
  lemma PendingRisesAsRateFalls(r: Reward, rate: nat, lower: nat)
    requires 0 < lower <= rate
    ensures Pending(r, rate) <= Pending(r, lower)
  {
    QuotientAntitone(r.reflection, lower, rate);
  }

  // ---------------------------------------------------------------- against the naive scheme

  ghost function FeesAdded(t: Totals, fees: seq<nat>): Result<Totals>
    decreases |fees|
  {
    if fees == [] then Ok(t)
    else
      var t' :- FeeAdded(t, fees[0]);
      FeesAdded(t', fees[1..])
  }

  function Total(fees: seq<nat>): nat
    decreases |fees|
  {
    if fees == [] then 0 else fees[0] + Total(fees[1..])
  }

  /** Any number of consecutive fees leave the totals of one fee of their sum: no error builds up. */
  lemma {:induction false} ConsecutiveFeesAreOne(t: Totals, fees: seq<nat>)
    requires fees != [] && FeesAdded(t, fees).Ok?
    ensures FeesAdded(t, fees) == FeeAdded(t, Total(fees))
    decreases |fees|
  {
    if |fees| == 1 {
      assert Total(fees) == fees[0];
    } else {
      var t' := FeeAdded(t, fees[0]).value;
      ConsecutiveFeesAreOne(t', fees[1..]);
    }
  }

  /**
    After fees that end soundly, a holder's share is the proportional share of the pool, rounded
    down or up: what dividing the whole pool among the holders one by one would give.
    */
  lemma FairShare(t: Totals, fees: seq<nat>, reflection: u128)
    requires fees != [] && FeesAdded(t, fees).Ok? && SoundFee(t, Total(fees))
    requires reflection <= t.reflection
    ensures var t' := FeesAdded(t, fees).value;
            && 0 < t'.rate && 0 < t.reflection
            && MulDiv(reflection, t'.xnos, t.reflection)
               <= Share(Reward(reflection, 0), t'.rate)
               <= MulDiv(reflection, t'.xnos, t.reflection) + 1
  {
    ConsecutiveFeesAreOne(t, fees);
    var t' := FeesAdded(t, fees).value;
    var r := Reward(reflection, 0);
    DivisionStep(t.reflection, t'.xnos);
    MulMonotone(1, t'.rate, 1, t'.xnos);
    MulDivBounds(reflection, t'.xnos, t.reflection);
    ShareBounds(r, t'.rate);
    FairAtLeast(reflection, t.reflection, t'.xnos, t'.rate, Share(r, t'.rate),
                MulDiv(reflection, t'.xnos, t.reflection));
    FairAtMost(reflection, t.reflection, t'.xnos, t'.rate, Share(r, t'.rate),
               MulDiv(reflection, t'.xnos, t.reflection));
  }

  lemma FairAtLeast(r: nat, total: nat, pool: nat, rate: nat, share: nat, exact: nat)
    requires 0 < rate && 0 < total
    requires rate * pool <= total && r < share * rate + rate && exact * total <= r * pool
    ensures exact <= share
  {
    MulMonotone(exact * total, r * pool, rate, rate);
    MulMonotone(r, r, rate * pool, total);
    Regroup(exact, total, rate);
    Regroup(r, pool, rate);
    Regroup(r, rate, pool);
    Cancel(exact * rate, r, total);
    Distribute(share, 1, rate);
    CancelStrict(exact, share + 1, rate);
  }

  lemma FairAtMost(r: nat, total: nat, pool: nat, rate: nat, share: nat, exact: nat)
    requires 0 < rate && 0 < total && r <= total
    requires total < rate * pool + rate && share * rate <= r && r * pool < exact * total + total
    ensures share <= exact + 1
  {
    assert share * (total * rate) <= r * total by {
      MulMonotone(share * rate, r, total, total);
      Regroup(share, rate, total);
    }
    assert r * total <= r * pool * rate + r * rate by {
      MulMonotone(r, r, total, rate * pool + rate);
      Distribute(rate * pool, rate, r);
      Regroup(r, rate, pool);
    }
    assert r * pool * rate < exact * (total * rate) + total * rate by {
      MulStrict(r * pool, exact * total + total, rate);
      Distribute(exact * total, total, rate);
      Regroup(exact, total, rate);
    }
    assert r * rate <= total * rate by { MulMonotone(r, total, rate, rate); }
    FairAtMostLinear(r, total, pool, rate, share, exact, total * rate);
  }

  lemma FairAtMostLinear(r: nat, total: nat, pool: nat, rate: nat, share: nat, exact: nat, u: nat)
    requires 0 < u
    requires share * u <= r * pool * rate + r * rate
    requires r * pool * rate < exact * u + u && r * rate <= u
    ensures share <= exact + 1
  {
    Distribute(exact, 2, u);
    CancelStrict(share, exact + 2, u);
  }

  // ---------------------------------------------------------------- sync and claim together

  /** Syncing twice with the same stake is syncing once. */
  lemma SyncIdempotent(t: Totals, m: Holders, held: nat, k: Pubkey, xnos: u128)
    requires Books(t, m, held) && k in m && Synced(t, m[k], xnos).Ok?
    ensures var (t', r) := Synced(t, m[k], xnos).value;
            Synced(t', r, xnos) == Ok((t', r))
  {
    var (t', r) := Synced(t, m[k], xnos).value;
    SyncEffect(t, m, held, k, xnos);
    SyncKeepsBooks(t, m, held, k, xnos);
    assert m[k := r][k] == r;
    HolderWithinTotals(t', m[k := r], held, k);
  }

  /** With a reward pending, syncing before a claim changes neither books, holder nor payout. */
  lemma SyncThenClaim(t: Totals, m: Holders, held: nat, k: Pubkey, xnos: u128)
    requires Books(t, m, held) && k in m && 0 < Pending(m[k], t.rate)
    requires Synced(t, m[k], xnos).Ok? && Claimed(t, m[k], xnos).Ok?
    ensures var (t', r) := Synced(t, m[k], xnos).value;
            Claimed(t', r, xnos) == Claimed(t, m[k], xnos)
  {
    var (t', r) := Synced(t, m[k], xnos).value;
    SyncEffect(t, m, held, k, xnos);
    ClaimEffect(t, m, held, k, xnos);
    HolderWithinTotals(t, m, held, k);
    ClaimOfSynced(t', xnos, Pending(m[k], t.rate));
  }

  lemma ClaimOfSynced(t: Totals, xnos: u128, pending: nat)
    requires 0 < t.rate && 0 < pending <= U64_MAX
    requires xnos + pending <= t.xnos && (xnos + pending) * t.rate <= t.reflection
    ensures xnos * t.rate <= (xnos + pending) * t.rate
    ensures Claimed(t, Reward((xnos + pending) * t.rate, xnos), xnos)
         == Ok((Totals(t.rate, t.reflection - (xnos + pending) * t.rate + xnos * t.rate, t.xnos - pending),
                Reward(xnos * t.rate, xnos), pending))
  {
    MulMonotone(xnos, xnos + pending, t.rate, t.rate);
    QuotientIs((xnos + pending) * t.rate, t.rate, xnos + pending);
  }

  // ---------------------------------------------------------------- 128-bit arithmetic

  /** The initial rate times the token supply is the largest such product below 2^128. */
  lemma InitialRateIsLargest(xnos: nat)
    ensures xnos * INITIAL_RATE <= U128_MAX <==> xnos <= NOS_TOTAL_SUPPLY
  {
    if xnos <= NOS_TOTAL_SUPPLY {
      MulMonotone(xnos, NOS_TOTAL_SUPPLY, INITIAL_RATE, INITIAL_RATE);
    } else {
      MulMonotone(NOS_TOTAL_SUPPLY + 1, xnos, INITIAL_RATE, INITIAL_RATE);
    }
  }

  /** A rate that fits the weight of the pool, and one unit more, leaves room for all its reflections. */
  lemma RateLeavesRoom(rate: nat, reflection: int, pool: nat)
    requires 1 <= rate && reflection < rate * (pool + 1) <= U128_MAX + 1
    ensures reflection <= U128_MAX && pool <= U128_MAX
  {
    MulMonotone(1, rate, pool + 1, pool + 1);
  }

  /** So it does after reflections `r` and `gone` tokens have left and `back` tokens have come in. */
  lemma RoomForMove(t: Totals, r: nat, gone: nat, back: nat)
    requires 1 <= t.rate && Covered(t) && gone * t.rate <= r && gone <= t.xnos
    requires t.rate * (t.xnos - gone + back + 1) <= U128_MAX + 1
    ensures t.reflection - r + back * t.rate <= U128_MAX && t.xnos - gone + back <= U128_MAX
  {
    CoveredMoves(t.rate, t.reflection, t.xnos, r, gone, back);
    RateLeavesRoom(t.rate, t.reflection - r + back * t.rate, t.xnos - gone + back);
  }

  /** The initial rate, and any lower one, fits every pool below the token supply. */
  lemma SupplyLeavesRoom(rate: nat, pool: nat)
    requires rate <= INITIAL_RATE && pool < NOS_TOTAL_SUPPLY
    ensures rate * (pool + 1) <= U128_MAX
  {
    MulMonotone(rate, INITIAL_RATE, pool + 1, NOS_TOTAL_SUPPLY);
    InitialRateIsLargest(NOS_TOTAL_SUPPLY);
  }

  /** A holder enters exactly when both totals it leaves fit 128 bits. */
  lemma EnterGoesThrough(t: Totals, xnos: u128)
    ensures Entered(t, xnos).Ok?
            <==> t.reflection + xnos * t.rate <= U128_MAX && t.xnos + xnos <= U128_MAX
  {
  }

  /** A fee goes through exactly when the pool it leaves is not empty and fits 128 bits. */
  lemma FeeGoesThrough(t: Totals, fee: nat)
    ensures FeeAdded(t, fee).Ok? <==> 0 < t.xnos + fee <= U128_MAX
  {
    if 0 < t.xnos + fee {
      QuotientAntitone(t.reflection, 1, t.xnos + fee);
    }
  }

  /** A claim fails exactly when a reward is pending and one of the totals it would leave does not fit. */
  lemma ClaimGoesThrough(t: Totals, m: Holders, held: nat, k: Pubkey, xnos: u128)
    requires Books(t, m, held) && k in m && held <= U64_MAX
    ensures var p := Pending(m[k], t.rate);
            Claimed(t, m[k], xnos).Ok?
            <==> || p == 0
                 || (&& t.reflection - m[k].reflection + xnos * t.rate <= U128_MAX
                     && t.xnos - m[k].xnos - p + xnos <= U128_MAX)
  {
    HolderWithinTotals(t, m, held, k);
  }

  lemma SyncGoesThrough(t: Totals, m: Holders, held: nat, k: Pubkey, xnos: u128)
    requires Books(t, m, held) && k in m
    ensures var p := Pending(m[k], t.rate);
            Synced(t, m[k], xnos).Ok?
            <==> && t.reflection - m[k].reflection + (xnos + p) * t.rate <= U128_MAX
                 && t.xnos - m[k].xnos + xnos <= U128_MAX
  {
    HolderWithinTotals(t, m, held, k);
    var p := Pending(m[k], t.rate);
    if (xnos + p) * t.rate <= U128_MAX {
      MulMonotone(xnos + p, xnos + p, 1, t.rate);
    }
  }

  /**
    The initial rate is said to be as high as possible without overflow, yet a weight may reach
    four times its tokens: an empty pool takes a holder exactly when its weight is at most the supply.
    */
  lemma FirstHolderFits(xnos: u128)
    ensures Entered(Totals(INITIAL_RATE, 0, 0), xnos).Ok? <==> xnos <= NOS_TOTAL_SUPPLY
  {
    InitialRateIsLargest(xnos);
  }

  /** A stake of 26 million tokens locked for a year outweighs the supply, and cannot enter first. */
  lemma StakeOutweighsSupply()
    ensures Opened(26_000_000_000_000, DURATION_MAX).Ok?
    ensures var xnos := Opened(26_000_000_000_000, DURATION_MAX).value.xnos;
            xnos > NOS_TOTAL_SUPPLY && Entered(Totals(INITIAL_RATE, 0, 0), xnos).Abort?
  {
    OpenedValid(26_000_000_000_000, DURATION_MAX);
    YearWeighsFourfold(26_000_000_000_000);
    FirstHolderFits(104_000_000_000_000);
  }

  lemma YearWeighsFourfold(amount: u64)
    ensures Weight(amount, DURATION_MAX) == 4 * amount
  {
    assert Factor(DURATION_MAX) == 4 * XNOS_PRECISION;
    QuotientIs(4 * XNOS_PRECISION * amount, XNOS_PRECISION, 4 * amount);
  }

  /** With a first holder as heavy as the supply, the smallest second one cannot enter. */
  lemma SecondHolderOverflows()
    ensures var none := Totals(INITIAL_RATE, 0, 0);
            && Entered(none, NOS_TOTAL_SUPPLY).Ok?
            && Entered(Entered(none, NOS_TOTAL_SUPPLY).value.0, 1).Abort?
  {
    InitialRateIsLargest(NOS_TOTAL_SUPPLY);
    InitialRateIsLargest(NOS_TOTAL_SUPPLY + 1);
  }

  // ---------------------------------------------------------------- a sound fee in numbers

  /** Holders of weight 100 and 300 share a fee of 40: their books hold, and 10 and 30 are pending. */
  lemma HoldersShareFee()
    ensures var none := Totals(INITIAL_RATE, 0, 0);
            && Entered(none, 100).Ok?
            && var (t1, a) := Entered(none, 100).value;
               && Entered(t1, 300).Ok?
               && var (t2, b) := Entered(t1, 300).value;
                  && FeeAdded(t2, 40).Ok?
                  && var t := FeeAdded(t2, 40).value;
                     && Books(t, map[0 := a, 1 := b], 40)
                     && Pending(a, t.rate) == 10 && Pending(b, t.rate) == 30
  {
    InitialRateInDigits();
    FreshBooks();
    var none := Totals(INITIAL_RATE, 0, 0);
    var (t1, a) := Entered(none, 100).value;
    EnterKeepsBooks(none, map[], 0, 0, 100);
    var (t2, b) := Entered(t1, 300).value;
    EnterKeepsBooks(t1, map[0 := a], 0, 1, 300);
    assert map[0 := a][1 := b] == map[0 := a, 1 := b];
    SharedRate(INITIAL_RATE);
    FeeKeepsBooksExactly(t2, map[0 := a, 1 := b], 0, 40);
  }

  lemma SharedRate(rate: nat)
    requires rate == 3_402_823_669_209_384_634_633_746
    ensures 400 * rate / 440 == 3_093_476_062_917_622_395_121_587
    ensures 400 * rate % 440 == 120
    ensures 100 * rate / 3_093_476_062_917_622_395_121_587 == 110
    ensures 300 * rate / 3_093_476_062_917_622_395_121_587 == 330
  {
    QuotientIs(400 * rate, 440, 3_093_476_062_917_622_395_121_587);
    DivisionStep(400 * rate, 440);
    QuotientIs(100 * rate, 3_093_476_062_917_622_395_121_587, 110);
    QuotientIs(300 * rate, 3_093_476_062_917_622_395_121_587, 330);
  }

  // ---------------------------------------------------------------- a fee that is not sound

  lemma InitialRateInDigits()
    ensures INITIAL_RATE == 3_402_823_669_209_384_634_633_746
  {
    QuotientIs(U128_MAX, NOS_TOTAL_SUPPLY, 3_402_823_669_209_384_634_633_746);
    DivisionStep(U128_MAX, NOS_TOTAL_SUPPLY);
    QuotientIs(U128_MAX - U128_MAX % NOS_TOTAL_SUPPLY, NOS_TOTAL_SUPPLY, 3_402_823_669_209_384_634_633_746);
  }

  lemma RateAfterFee(rate: nat)
    requires rate == 3_402_823_669_209_384_634_633_746
    ensures rate / 10_000_000_000_001 == 340_282_366_920
    ensures rate % 10_000_000_000_001 == 9_044_352_266_826
    ensures rate / 340_282_366_920 == 10_000_000_000_027
  {
    QuotientIs(rate, 10_000_000_000_001, 340_282_366_920);
    DivisionStep(rate, 10_000_000_000_001);
    QuotientIs(rate, 340_282_366_920, 10_000_000_000_027);
  }

  /**
    One holder of weight 1 and a fee of a tenth of the supply: the division leaves over more than
    the new rate, the holder's share exceeds the pool, and its claim aborts.
    */
  lemma UnsoundFeeBlocksClaim()
    ensures var (t, r) := Entered(Totals(INITIAL_RATE, 0, 0), 1).value;
            var fee := NOS_TOTAL_SUPPLY / 10;
            && Entered(Totals(INITIAL_RATE, 0, 0), 1).Ok?
            && FeeAdded(t, fee).Ok? && !SoundFee(t, fee)
            && var t' := FeeAdded(t, fee).value;
               0 < t'.rate && fee < Pending(r, t'.rate) && Claimed(t', r, 1).Abort?
  {
    InitialRateInDigits();
    RateAfterFee(INITIAL_RATE);
    var (t, r) := Entered(Totals(INITIAL_RATE, 0, 0), 1).value;
    var t' := FeeAdded(t, 10_000_000_000_000).value;
    assert t' == Totals(340_282_366_920, 3_402_823_669_209_384_634_633_746, 10_000_000_000_001);
    assert Amount(r, t'.rate) == Ok(10_000_000_000_026);
  }
}
