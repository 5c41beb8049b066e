/**
  Stake accounts: the xNOS weight of a stake, the linear release after unstaking, and the
  instructions of the staking program on the accounts they name.
  */
module Staking {
  import opened Arith
  import opened Machine
  import opened Token

  const SECONDS_PER_DAY: nat := 24 * 60 * 60
  const DURATION_MIN: nat := 14 * SECONDS_PER_DAY
  const DURATION_MAX: nat := 365 * SECONDS_PER_DAY
  const XNOS_PRECISION: nat := 1_000_000_000_000_000
  const XNOS_DIV: nat := 4 * DURATION_MAX / 12

  datatype Stake = Stake(amount: u64, duration: u64, timeUnstake: i64, xnos: u128)

  // ---------------------------------------------------------------- xNOS weight

  /** The weight per token after `duration` seconds of lock, scaled by the precision constant. */
  function Factor(duration: nat): nat {
    MulDiv(duration, XNOS_PRECISION, XNOS_DIV) + XNOS_PRECISION
  }

  /** The weight of an active stake, in exact integers. */
  function Weight(amount: nat, duration: nat): nat {
    MulDiv(Factor(duration), amount, XNOS_PRECISION)
  }

  /** The same computation in 128 bits, aborting where an intermediate value does not fit. */
  function CheckedWeight(amount: nat, duration: nat): Result<u128> {
    var scaled :- ToU128(duration * XNOS_PRECISION);
    var factor :- ToU128(scaled / XNOS_DIV + XNOS_PRECISION);
    var weighted :- ToU128(factor * amount);
    Ok(weighted / XNOS_PRECISION)
  }

  /** The stake with its weight brought up to date: none while unstaking. */
  function Reweighed(amount: int, duration: int, timeUnstake: i64): Result<Stake> {
    var a :- ToU64(amount);
    var d :- ToU64(duration);
    if timeUnstake != 0 then Ok(Stake(a, d, timeUnstake, 0))
    else
      var xnos :- CheckedWeight(a, d);
      Ok(Stake(a, d, timeUnstake, xnos))
  }

  lemma FactorBounds(duration: nat)
    requires duration <= DURATION_MAX
    ensures XNOS_PRECISION <= Factor(duration) <= 4 * XNOS_PRECISION
  {
    assert duration * XNOS_PRECISION <= 31_536_000 * XNOS_PRECISION;
  }

  /** No intermediate value of an allowed stake overflows: the 128-bit weight is the exact one. */
  lemma WeightFits(amount: u64, duration: nat)
    requires duration <= DURATION_MAX
    ensures CheckedWeight(amount, duration) == Ok(Weight(amount, duration))
  {
    FactorBounds(duration);
    MulMonotone(Factor(duration), 4 * XNOS_PRECISION, amount, U64_MAX);
  }

  /** A stake weighs between one and four times its tokens. */
  lemma WeightBounds(amount: nat, duration: nat)
    requires duration <= DURATION_MAX
    ensures amount <= Weight(amount, duration) <= 4 * amount
  {
    FactorBounds(duration);
    MulMonotone(XNOS_PRECISION, Factor(duration), amount, amount);
    MulMonotone(Factor(duration), 4 * XNOS_PRECISION, amount, amount);
    QuotientAtLeast(Factor(duration) * amount, XNOS_PRECISION, amount);
    QuotientAtMost(Factor(duration) * amount, XNOS_PRECISION, 4 * amount);
  }

  /** More tokens or a longer lock never weigh less. */
  lemma WeightMonotone(amount: nat, more: nat, duration: nat, longer: nat)
    requires amount <= more && duration <= longer
    ensures Weight(amount, duration) <= Weight(more, longer)
  {
    MulDivMonotone(duration, longer, XNOS_PRECISION, XNOS_PRECISION, XNOS_DIV);
    MulDivMonotone(Factor(duration), Factor(longer), amount, more, XNOS_PRECISION);
  }

  /** Splitting a stake in two loses at most one unit of weight, and never gains any. */
  lemma WeightSuperadditive(a: nat, b: nat, duration: nat)
    ensures Weight(a, duration) + Weight(b, duration)
         <= Weight(a + b, duration)
         <= Weight(a, duration) + Weight(b, duration) + 1
  {
    assert Factor(duration) * (a + b) == Factor(duration) * a + Factor(duration) * b;
    QuotientOfSum(Factor(duration) * a, Factor(duration) * b, XNOS_PRECISION);
  }

  /** Up to the precision constant, the weight is within one unit of the exact growth formula. */
  lemma WeightPrecision(amount: nat, duration: nat)
    requires amount <= XNOS_PRECISION
    ensures MulDiv(amount, XNOS_DIV + duration, XNOS_DIV) - 1
         <= Weight(amount, duration)
         <= MulDiv(amount, XNOS_DIV + duration, XNOS_DIV)
  {
    MulDivBounds(duration, XNOS_PRECISION, XNOS_DIV);
    MulDivBounds(Factor(duration), amount, XNOS_PRECISION);
    MulDivBounds(amount, XNOS_DIV + duration, XNOS_DIV);
    NestedFloors(Weight(amount, duration), MulDiv(amount, XNOS_DIV + duration, XNOS_DIV),
                 Factor(duration), amount, XNOS_DIV + duration, XNOS_PRECISION, XNOS_DIV);
  }

  /**
    `w` is the floor of `f * a / p` and `exact` the floor of `a * m / d`, where `f` is `p * m / d`
    short of less than one. With `a` at most `p` the two floors differ by at most one.
    */
  lemma NestedFloors(w: nat, exact: nat, f: nat, a: nat, m: nat, p: nat, d: nat)
    requires 0 < d && 0 < p && a <= p
    requires w * p <= f * a < w * p + p
    requires exact * d <= a * m < exact * d + d
    requires f * d <= m * p < f * d + d
    ensures exact - 1 <= w <= exact
  {
    assert w * p * d <= f * a * d by { MulMonotone(w * p, f * a, d, d); }
    assert f * d * a <= m * p * a by { MulMonotone(f * d, m * p, a, a); }
    assert exact * d * p <= a * m * p by { MulMonotone(exact * d, a * m, p, p); }
    assert a * m * p < (exact * d + d) * p by { MulStrict(a * m, exact * d + d, p); }
    assert f * a * d < (w * p + p) * d by { MulStrict(f * a, w * p + p, d); }
    assert m * p * a <= (f * d + d) * a by { MulMonotone(m * p, f * d + d, a, a); }
    assert d * a <= d * p by { MulMonotone(d, d, a, p); }
    Regroup(f, a, d);
    Regroup(m, p, a);
    Regroup(a, m, p);
    Distribute(f * d, d, a);
    NestedFloorsLinear(w, exact, p, d, f * a * d, a * m * p);
  }

  /** The comparison of the two floors, once every product is over the same denominator. */
  lemma NestedFloorsLinear(w: nat, exact: nat, p: nat, d: nat, n: nat, q: nat)
    requires 0 < d && 0 < p
    requires w * p * d <= n < (w * p + p) * d
    requires exact * d * p <= q < (exact * d + d) * p
    requires n <= q <= n + d * p
    ensures exact - 1 <= w <= exact
  {
    var u := d * p;
    assert w * p * d == w * u && (w * p + p) * d == w * u + u by { Regroup(w, p, d); Distribute(w * p, p, d); }
    assert exact * d * p == exact * u && (exact * d + d) * p == exact * u + u by {
      Regroup(exact, d, p);
      Distribute(exact * d, d, p);
    }
    FloorsWithinOne(w, exact, u, n, q);
  }

  lemma FloorsWithinOne(w: nat, exact: nat, u: nat, n: nat, q: nat)
    requires 0 < u
    requires w * u <= n < w * u + u
    requires exact * u <= q < exact * u + u
    requires n <= q <= n + u
    ensures exact - 1 <= w <= exact
  {
    Distribute(exact, 1, u);
    CancelStrict(w, exact + 1, u);
    Distribute(w, 2, u);
    CancelStrict(exact, w + 2, u);
  }

  // ---------------------------------------------------------------- release after unstake

  /** The run-time scaling factor of the release computation. */
  function Precision(amount: nat, elapsed: nat): nat
    requires Computable(amount, elapsed)
  {
    QuotientAtLeast(U64_MAX, Max(amount, elapsed), 2);
    U64_MAX / Max(amount, elapsed) - 1
  }

  /** The scaling factor exists and is positive. */
  predicate Computable(amount: nat, elapsed: nat) {
    0 < Max(amount, elapsed) && 2 * Max(amount, elapsed) <= U64_MAX
  }

  /** The release computation in 64 bits, in its order of evaluation. */
  function CheckedRelease(amount: nat, duration: nat, elapsed: nat): Result<nat> {
    var q :- Quotient(U64_MAX, Max(amount, elapsed));
    var precision :- ToU64(q - 1);
    var scaled :- ToU64(elapsed * precision);
    var share :- Quotient(scaled, duration);
    var product :- ToU64(share * amount);
    Quotient(product, precision)
  }

  /** What an unstaked amount has released after `elapsed` seconds, in all. */
  function Unlocked(amount: nat, duration: nat, elapsed: nat): nat
    requires Computable(amount, elapsed)
  {
    if elapsed >= duration then amount
    else
      var p := Precision(amount, elapsed);
      PrecisionPositive(amount, elapsed);
      MulDiv(MulDiv(elapsed, p, duration), amount, p)
  }

  lemma PrecisionPositive(amount: nat, elapsed: nat)
    requires Computable(amount, elapsed)
    ensures 0 < Precision(amount, elapsed)
  {
    QuotientAtLeast(U64_MAX, Max(amount, elapsed), 2);
  }

  /** The 64-bit computation aborts only when its scaling factor does not exist; it never overflows. */
  lemma ReleaseFits(amount: nat, duration: nat, elapsed: nat)
    requires elapsed < duration && amount <= U64_MAX && elapsed <= U64_MAX
    ensures CheckedRelease(amount, duration, elapsed).Ok? <==> Computable(amount, elapsed)
    ensures Computable(amount, elapsed) ==>
              CheckedRelease(amount, duration, elapsed) == Ok(Unlocked(amount, duration, elapsed))
  {
    var m := Max(amount, elapsed);
    if Computable(amount, elapsed) {
      var p := Precision(amount, elapsed);
      PrecisionPositive(amount, elapsed);
      DivisionStep(U64_MAX, m);
      Distribute(p, 1, m);
      ProductsFit(amount, duration, elapsed, p, m);
    } else if 0 < m {
      QuotientIs(U64_MAX, m, 1);
    }
  }

  lemma ProductsFit(amount: nat, duration: nat, elapsed: nat, p: nat, m: nat)
    requires elapsed < duration && elapsed <= m && amount <= m && p * m <= U64_MAX
    ensures elapsed * p <= U64_MAX
    ensures MulDiv(elapsed, p, duration) * amount <= U64_MAX
  {
    MulMonotone(elapsed, m, p, p);
    MulDivAtMost(elapsed, p, duration);
    MulMonotone(MulDiv(elapsed, p, duration), p, amount, m);
  }

  /** Never more than the linear schedule has released. */
  lemma UnlockedBelowSchedule(amount: nat, duration: nat, elapsed: nat)
    requires elapsed < duration && Computable(amount, elapsed)
    ensures Unlocked(amount, duration, elapsed) * duration <= elapsed * amount
    ensures Unlocked(amount, duration, elapsed) <= amount
  {
    var p := Precision(amount, elapsed);
    PrecisionPositive(amount, elapsed);
    var share := MulDiv(elapsed, p, duration);
    var r := Unlocked(amount, duration, elapsed);
    MulDivBounds(elapsed, p, duration);
    MulDivBounds(share, amount, p);
    ScheduleUpper(elapsed, amount, duration, p, share, r);
    MulMonotone(elapsed, duration, amount, amount);
    Cancel(r, amount, duration);
  }

  lemma ScheduleUpper(e: nat, a: nat, d: nat, p: nat, share: nat, r: nat)
    requires 0 < p
    requires share * d <= e * p && r * p <= share * a
    ensures r * d <= e * a
  {
    MulMonotone(r * p, share * a, d, d);
    MulMonotone(share * d, e * p, a, a);
    Regroup(r, p, d);
    Regroup(share, a, d);
    Regroup(e, p, a);
    Cancel(r * d, e * a, p);
  }

  /**
    Short of the linear schedule by less than `amount / precision + 1` tokens: multiplied out by
    `duration * precision`, the exact release exceeds the computed one by less than that.
    */
  lemma UnlockedPrecision(amount: nat, duration: nat, elapsed: nat)
    requires elapsed < duration && Computable(amount, elapsed)
    ensures elapsed * amount * Precision(amount, elapsed)
          < (Unlocked(amount, duration, elapsed) + 1) * (duration * Precision(amount, elapsed))
            + amount * duration
  {
    var p := Precision(amount, elapsed);
    PrecisionPositive(amount, elapsed);
    var share := MulDiv(elapsed, p, duration);
    MulDivBounds(elapsed, p, duration);
    MulDivBounds(share, amount, p);
    ScheduleLower(elapsed, amount, duration, p, share, Unlocked(amount, duration, elapsed));
  }

  lemma ScheduleLower(e: nat, a: nat, d: nat, p: nat, share: nat, r: nat)
    requires 0 < d
    requires e * p < share * d + d && share * a < r * p + p
    ensures e * a * p < (r + 1) * (d * p) + a * d
  {
    MulMonotone(e * p, share * d + d, a, a);
    MulStrict(share * a, r * p + p, d);
    Regroup(e, p, a);
    Regroup(share, d, a);
    Regroup(r + 1, p, d);
    Distribute(share * d, d, a);
    Distribute(r, 1, p);
    Regroup(d, p, 1);
    assert e * a * p <= share * a * d + a * d;
  }

  /** For amounts and times below 2^32 - 1 the release is at most one unit below the exact floor. */
  lemma UnlockedWithinOne(amount: nat, duration: nat, elapsed: nat)
    requires elapsed < duration && 0 < amount + elapsed
    requires amount < 0xFFFF_FFFF && elapsed < 0xFFFF_FFFF
    ensures MulDiv(elapsed, amount, duration) - 1
         <= Unlocked(amount, duration, elapsed)
         <= MulDiv(elapsed, amount, duration)
  {
    var p := Precision(amount, elapsed);
    var r, exact := Unlocked(amount, duration, elapsed), MulDiv(elapsed, amount, duration);
    MulDivBounds(elapsed, amount, duration);
    UnlockedBelowSchedule(amount, duration, elapsed);
    QuotientAtLeast(elapsed * amount, duration, r);
    QuotientAtLeast(U64_MAX, Max(amount, elapsed), 0x1_0000_0000);
    UnlockedPrecision(amount, duration, elapsed);
    WithinOne(elapsed * amount, amount, duration, p, r, exact);
  }

  lemma WithinOne(n: nat, a: nat, d: nat, p: nat, r: nat, exact: nat)
    requires 0 < d && 0 < p && a <= p
    requires exact * d <= n && n * p < (r + 1) * (d * p) + a * d
    ensures exact - 1 <= r
  {
    var u := d * p;
    assert 0 < u;
    MulMonotone(exact * d, n, p, p);
    Regroup(exact, d, p);
    MulMonotone(a, p, d, d);
    Distribute(r + 1, 1, u);
    assert exact * u < (r + 2) * u;
    CancelStrict(exact, r + 2, u);
  }

  /** The scaling factor is at least the lock duration whenever it can change between two calls. */
  lemma PrecisionCoversDuration(amount: nat, duration: nat, elapsed: nat)
    requires elapsed < duration <= DURATION_MAX && amount < duration && 0 < amount + elapsed
    ensures Computable(amount, elapsed) && duration <= Precision(amount, elapsed)
  {
    var m := Max(amount, elapsed);
    MulMonotone(duration + 1, DURATION_MAX + 1, m, DURATION_MAX);
    QuotientAtLeast(U64_MAX, m, duration + 1);
  }

  /**
    The released total never falls as time passes, although the scaling factor falls with time
    once `elapsed` exceeds `amount`.
    */
  lemma UnlockedMonotone(amount: nat, duration: nat, earlier: nat, later: nat)
    requires earlier <= later && duration <= DURATION_MAX
    requires Computable(amount, earlier) && Computable(amount, later)
    ensures Unlocked(amount, duration, earlier) <= Unlocked(amount, duration, later) <= amount
  {
    if later < duration {
      UnlockedBelowSchedule(amount, duration, later);
    }
    if earlier < duration {
      UnlockedBelowSchedule(amount, duration, earlier);
    }
    if earlier < later < duration {
      if amount < duration {
        PrecisionCoversDuration(amount, duration, later);
        UnlockedCatchesUp(amount, duration, earlier, later);
      } else {
        var p := Precision(amount, later);
        assert p == Precision(amount, earlier);
        PrecisionPositive(amount, later);
        MulDivMonotone(earlier, later, p, p, duration);
        MulDivMonotone(MulDiv(earlier, p, duration), MulDiv(later, p, duration), amount, amount, p);
      }
    }
  }

  /** With a factor of at least the duration, the later release reaches the earlier exact schedule. */
  lemma UnlockedCatchesUp(amount: nat, duration: nat, earlier: nat, later: nat)
    requires earlier < later < duration
    requires Computable(amount, earlier) && Computable(amount, later)
    requires duration <= Precision(amount, later)
    ensures Unlocked(amount, duration, earlier) <= Unlocked(amount, duration, later)
  {
    var p := Precision(amount, later);
    var share := MulDiv(later, p, duration);
    var r := Unlocked(amount, duration, earlier);
    UnlockedBelowSchedule(amount, duration, earlier);
    MulDivBounds(later, p, duration);
    MulMonotone(earlier + 1, later, p, p);
    Distribute(earlier, 1, p);
    CatchUp(earlier, amount, duration, p, share, r);
    QuotientAtLeast(share * amount, p, r);
  }

  lemma CatchUp(e: nat, a: nat, d: nat, p: nat, share: nat, r: nat)
    requires 0 < d
    requires e * p <= share * d && r * d <= e * a
    ensures r * p <= share * a
  {
    MulMonotone(e * p, share * d, a, a);
    MulMonotone(r * d, e * a, p, p);
    Regroup(r, d, p);
    Regroup(e, a, p);
    Regroup(e, p, a);
    Regroup(share, d, a);
    Cancel(r * p, share * a, d);
  }

  /** The amount a withdrawal takes from a vault holding `balance`. */
  function WithdrawAmount(s: Stake, balance: nat, now: int): Result<nat> {
    var since :- ToI64(now - s.timeUnstake);
    var elapsed :- ToU64(since);
    if elapsed >= s.duration then Ok(balance)
    else
      var released :- CheckedRelease(s.amount, s.duration, elapsed);
      var out :- ToU64(s.amount - balance);
      ToU64(released - out)
  }

  /**
    When a withdrawal goes through, and what it pays: everything released so far that has not been
    paid out yet, or the whole vault once the lock has elapsed.
    */
  lemma WithdrawExact(s: Stake, balance: nat, now: int)
    requires s.duration <= DURATION_MAX && balance <= U64_MAX
    requires 0 < s.timeUnstake <= now <= I64_MAX
    ensures var elapsed := now - s.timeUnstake;
            if elapsed >= s.duration then WithdrawAmount(s, balance, now) == Ok(balance)
            else if Computable(s.amount, elapsed)
                    && s.amount - Unlocked(s.amount, s.duration, elapsed) <= balance <= s.amount
            then WithdrawAmount(s, balance, now)
                 == Ok(Unlocked(s.amount, s.duration, elapsed) - (s.amount - balance))
            else WithdrawAmount(s, balance, now).Abort?
  {
    var elapsed := now - s.timeUnstake;
    if elapsed < s.duration {
      ReleaseFits(s.amount, s.duration, elapsed);
      if Computable(s.amount, elapsed) {
        UnlockedBelowSchedule(s.amount, s.duration, elapsed);
      }
    }
  }

  // ---------------------------------------------------------------- effects on one stake

  function Opened(amount: u64, duration: u128): Result<Stake> {
    var _ :- Guard(DURATION_MIN <= duration <= DURATION_MAX);
    Reweighed(amount, duration, 0)
  }

  function ToppedUp(s: Stake, amount: u64): Result<Stake> {
    var _ :- Guard(s.timeUnstake == 0 && 0 < amount);
    Reweighed(s.amount + amount, s.duration, s.timeUnstake)
  }

  function Extended(s: Stake, duration: u64): Result<Stake> {
    var _ :- Guard(s.timeUnstake == 0 && 0 < duration && s.duration + duration <= DURATION_MAX);
    Reweighed(s.amount, s.duration + duration, s.timeUnstake)
  }

  function Unstaked(s: Stake, rewardClosed: bool, now: i64): Result<Stake> {
    var _ :- Guard(s.timeUnstake == 0 && rewardClosed);
    Reweighed(s.amount, s.duration, now)
  }

  function Restaked(s: Stake, balance: u64): Result<Stake> {
    var _ :- Guard(s.timeUnstake != 0);
    Reweighed(balance, s.duration, 0)
  }

  function Slashed(s: Stake, amount: u64): Result<Stake> {
    var _ :- Guard(amount <= s.amount);
    Reweighed(s.amount - amount, s.duration, s.timeUnstake)
  }

  function Withdrawn(s: Stake, l: Ledger, vault: Account, user: Account, now: int): Result<Ledger> {
    var _ :- Guard(user in l && vault in l && l[vault] != 0 && s.timeUnstake != 0);
    var amount :- WithdrawAmount(s, l[vault], now);
    if amount > 0 then Transferred(l, vault, user, amount) else Ok(l)
  }

  function VaultClosed(s: Stake, l: Ledger, vault: Account, now: int): Result<Ledger> {
    var _ :- Guard(s.timeUnstake != 0);
    var lock :- ToI64(s.duration);
    var unlock :- ToI64(s.timeUnstake + lock);
    var _ :- Guard(unlock < now && vault in l && l[vault] == 0);
    Ok(l - {vault})
  }

  /**
    A stake account as the program stores it. Its weight always follows its other fields, and
    nothing but a slash lowers the weight of an active stake.
    */
  ghost predicate ValidStake(s: Stake) {
    && DURATION_MIN <= s.duration <= DURATION_MAX
    && s.xnos == if s.timeUnstake == 0 then Weight(s.amount, s.duration) else 0
  }

  lemma OpenedValid(amount: u64, duration: u128)
    ensures Opened(amount, duration).Ok? <==> DURATION_MIN <= duration <= DURATION_MAX
    ensures Opened(amount, duration).Ok? ==> ValidStake(Opened(amount, duration).value)
  {
    if duration <= DURATION_MAX {
      WeightFits(amount, duration);
    }
  }

  lemma ToppedUpHeavier(s: Stake, amount: u64)
    requires ValidStake(s) && ToppedUp(s, amount).Ok?
    ensures var s' := ToppedUp(s, amount).value;
            && ValidStake(s') && s.xnos <= s'.xnos
            && s.timeUnstake == 0 && s' == s.(amount := s.amount + amount, xnos := s'.xnos)
  {
    WeightFits(s.amount + amount, s.duration);
    WeightMonotone(s.amount, s.amount + amount, s.duration, s.duration);
  }

  lemma ExtendedHeavier(s: Stake, duration: u64)
    requires ValidStake(s) && Extended(s, duration).Ok?
    ensures var s' := Extended(s, duration).value;
            && ValidStake(s') && s.xnos <= s'.xnos
            && s.timeUnstake == 0 && s' == s.(duration := s.duration + duration, xnos := s'.xnos)
  {
    WeightFits(s.amount, s.duration + duration);
    WeightMonotone(s.amount, s.amount, s.duration, s.duration + duration);
  }

  lemma UnstakeCycleValid(s: Stake, now: i64, balance: u64)
    requires ValidStake(s) && now != 0
    ensures Unstaked(s, true, now).Ok? <==> s.timeUnstake == 0
    ensures Unstaked(s, true, now).Ok? ==>
              var u := Unstaked(s, true, now).value;
              && ValidStake(u) && u.xnos == 0 && u.timeUnstake == now
              && Restaked(u, s.amount) == Ok(s)
    ensures Restaked(s, balance).Ok? <==> s.timeUnstake != 0
    ensures Restaked(s, balance).Ok? ==> ValidStake(Restaked(s, balance).value)
  {
    WeightFits(balance, s.duration);
    WeightFits(s.amount, s.duration);
  }

  lemma SlashedValid(s: Stake, amount: u64)
    requires ValidStake(s)
    ensures Slashed(s, amount).Ok? <==> amount <= s.amount
    ensures Slashed(s, amount).Ok? ==>
              var s' := Slashed(s, amount).value;
              ValidStake(s') && s' == s.(amount := s.amount - amount, xnos := s'.xnos)
  {
    if amount <= s.amount {
      WeightFits(s.amount - amount, s.duration);
    }
  }

  // ---------------------------------------------------------------- accounts and instructions

  class StakeAccount {
    var amount: u64
    var duration: u64
    var timeUnstake: i64
    var xnos: u128

    constructor ()
      ensures Get() == Stake(0, 0, 0, 0)
    {
      amount, duration, timeUnstake, xnos := 0, 0, 0, 0;
    }

    function Get(): Stake
      reads this
    {
      Stake(amount, duration, timeUnstake, xnos)
    }

    method UpdateXnos() returns (r: Result<()>)
      modifies this`xnos
      ensures r.Ok? <==> Reweighed(amount, duration, timeUnstake).Ok?
      ensures r.Ok? ==> Ok(Get()) == Reweighed(amount, duration, timeUnstake)
    {
      if timeUnstake != 0 {
        xnos := 0;
      } else {
        var scaled :- ToU128(duration * XNOS_PRECISION);
        var factor :- ToU128(scaled / XNOS_DIV + XNOS_PRECISION);
        var weighted :- ToU128(factor * amount);
        xnos := weighted / XNOS_PRECISION;
      }
      return Ok(());
    }

    method Init(amount: u64, duration: u64) returns (r: Result<()>)
      modifies this
      ensures r.Ok? <==> Reweighed(amount, duration, 0).Ok?
      ensures r.Ok? ==> Ok(Get()) == Reweighed(amount, duration, 0)
    {
      this.amount := amount;
      this.duration := duration;
      timeUnstake := 0;
      r := UpdateXnos();
    }

    method Unstake(now: i64) returns (r: Result<()>)
      modifies this
      ensures r.Ok? <==> Reweighed(old(amount), old(duration), now).Ok?
      ensures r.Ok? ==> Ok(Get()) == Reweighed(old(amount), old(duration), now)
    {
      timeUnstake := now;
      r := UpdateXnos();
    }

    method Restake(amount: u64) returns (r: Result<()>)
      modifies this
      ensures r.Ok? <==> Reweighed(amount, old(duration), 0).Ok?
      ensures r.Ok? ==> Ok(Get()) == Reweighed(amount, old(duration), 0)
    {
      this.amount := amount;
      timeUnstake := 0;
      r := UpdateXnos();
    }

    method Topup(amount: u64) returns (r: Result<()>)
      modifies this
      ensures r.Ok? <==> Reweighed(old(this.amount) + amount, old(duration), old(timeUnstake)).Ok?
      ensures r.Ok? ==> Ok(Get()) == Reweighed(old(this.amount) + amount, old(duration), old(timeUnstake))
    {
      this.amount :- ToU64(this.amount + amount);
      r := UpdateXnos();
    }

    method Slash(amount: u64) returns (r: Result<()>)
      modifies this
      ensures r.Ok? <==> Reweighed(old(this.amount) - amount, old(duration), old(timeUnstake)).Ok?
      ensures r.Ok? ==> Ok(Get()) == Reweighed(old(this.amount) - amount, old(duration), old(timeUnstake))
    {
      this.amount :- ToU64(this.amount - amount);
      r := UpdateXnos();
    }

    method Extend(duration: u64) returns (r: Result<()>)
      modifies this
      ensures r.Ok? <==> Reweighed(old(amount), old(this.duration) + duration, old(timeUnstake)).Ok?
      ensures r.Ok? ==> Ok(Get()) == Reweighed(old(amount), old(this.duration) + duration, old(timeUnstake))
    {
      this.duration :- ToU64(this.duration + duration);
      r := UpdateXnos();
    }
  }

  method StakeTokens(stake: StakeAccount, bank: Bank, user: Account, vault: Account,
                     amount: u64, duration: u128)
    returns (r: Result<()>)
    modifies stake, bank
    ensures r.Ok? <==> Opened(amount, duration).Ok? && Transferred(old(bank.balances), user, vault, amount).Ok?
    ensures r.Ok? ==> Ok(stake.Get()) == Opened(amount, duration)
    ensures r.Ok? ==> Ok(bank.balances) == Transferred(old(bank.balances), user, vault, amount)
  {
    if duration < DURATION_MIN || duration > DURATION_MAX {
      return Abort;
    }
    var _ :- stake.Init(amount, duration);
    r := bank.Transfer(user, vault, amount);
  }

  method TopupStake(stake: StakeAccount, bank: Bank, user: Account, vault: Account, amount: u64)
    returns (r: Result<()>)
    modifies stake, bank
    ensures r.Ok? <==> ToppedUp(old(stake.Get()), amount).Ok?
                       && Transferred(old(bank.balances), user, vault, amount).Ok?
    ensures r.Ok? ==> Ok(stake.Get()) == ToppedUp(old(stake.Get()), amount)
    ensures r.Ok? ==> Ok(bank.balances) == Transferred(old(bank.balances), user, vault, amount)
  {
    if stake.timeUnstake != 0 || amount == 0 {
      return Abort;
    }
    var _ :- stake.Topup(amount);
    r := bank.Transfer(user, vault, amount);
  }

  method ExtendStake(stake: StakeAccount, duration: u64) returns (r: Result<()>)
    modifies stake
    ensures r.Ok? <==> Extended(old(stake.Get()), duration).Ok?
    ensures r.Ok? ==> Ok(stake.Get()) == Extended(old(stake.Get()), duration)
  {
    if stake.timeUnstake != 0 || duration == 0 {
      return Abort;
    }
    var total :- ToU64(stake.duration + duration);
    if total > DURATION_MAX {
      return Abort;
    }
    r := stake.Extend(duration);
  }

  method UnstakeTokens(stake: StakeAccount, rewardClosed: bool, now: i64) returns (r: Result<()>)
    modifies stake
    ensures r.Ok? <==> Unstaked(old(stake.Get()), rewardClosed, now).Ok?
    ensures r.Ok? ==> Ok(stake.Get()) == Unstaked(old(stake.Get()), rewardClosed, now)
  {
    if stake.timeUnstake != 0 || !rewardClosed {
      return Abort;
    }
    r := stake.Unstake(now);
  }

  method RestakeTokens(stake: StakeAccount, bank: Bank, vault: Account) returns (r: Result<()>)
    modifies stake
    ensures r.Ok? <==> vault in bank.balances && Restaked(old(stake.Get()), bank.balances[vault]).Ok?
    ensures r.Ok? ==> Ok(stake.Get()) == Restaked(old(stake.Get()), bank.balances[vault])
  {
    if stake.timeUnstake == 0 || vault !in bank.balances {
      return Abort;
    }
    r := stake.Restake(bank.balances[vault]);
  }

  method SlashStake(stake: StakeAccount, bank: Bank, vault: Account, to: Account, amount: u64)
    returns (r: Result<()>)
    modifies stake, bank
    ensures r.Ok? <==> Slashed(old(stake.Get()), amount).Ok?
                       && Transferred(old(bank.balances), vault, to, amount).Ok?
    ensures r.Ok? ==> Ok(stake.Get()) == Slashed(old(stake.Get()), amount)
    ensures r.Ok? ==> Ok(bank.balances) == Transferred(old(bank.balances), vault, to, amount)
  {
    if amount > stake.amount {
      return Abort;
    }
    var _ :- stake.Slash(amount);
    r := bank.Transfer(vault, to, amount);
  }

  method WithdrawTokens(stake: StakeAccount, bank: Bank, vault: Account, user: Account, now: int)
    returns (r: Result<()>)
    modifies bank
    ensures r.Ok? <==> Withdrawn(stake.Get(), old(bank.balances), vault, user, now).Ok?
    ensures r.Ok? ==> Ok(bank.balances) == Withdrawn(stake.Get(), old(bank.balances), vault, user, now)
  {
    if user !in bank.balances || vault !in bank.balances || bank.balances[vault] == 0
       || stake.timeUnstake == 0 {
      return Abort;
    }
    var amount :- WithdrawAmount(stake.Get(), bank.balances[vault], now);
    if amount > 0 {
      r := bank.Transfer(vault, user, amount);
    } else {
      return Ok(());
    }
  }

  method CloseStake(stake: StakeAccount, bank: Bank, vault: Account, now: int) returns (r: Result<()>)
    modifies bank
    ensures r.Ok? <==> VaultClosed(stake.Get(), old(bank.balances), vault, now).Ok?
    ensures r.Ok? ==> Ok(bank.balances) == VaultClosed(stake.Get(), old(bank.balances), vault, now)
  {
    if stake.timeUnstake == 0 {
      return Abort;
    }
    var lock :- ToI64(stake.duration);
    var unlock :- ToI64(stake.timeUnstake + lock);
    if unlock >= now || vault !in bank.balances || bank.balances[vault] != 0 {
      return Abort;
    }
    bank.balances := bank.balances - {vault};
    return Ok(());
  }
}
