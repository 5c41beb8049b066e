/**
  What each instruction of the rewards program does, from start to end: every total, every field of the
  reward account and every balance afterwards.
  */
module RewardEffects {
  import opened Machine
  import opened Network
  import opened Reflection
  import opened RewardRuns
  import opened Rewards
  import opened Staking
  import opened Token

  /** A holder enters with the weight of its stake, at the current rate. */
  lemma EnterAdds(w: World, k: Pubkey)
    requires EnterTx(w, k).Ok?
    ensures k !in w.holders && k in w.stakes && w.stakes[k].timeUnstake == 0
    ensures var w', t, x := EnterTx(w, k).value, w.totals, w.stakes[k].xnos;
            && x * t.rate <= U128_MAX && t.reflection + x * t.rate <= U128_MAX && t.xnos + x <= U128_MAX
            && w' == w.(totals := Totals(t.rate, t.reflection + x * t.rate, t.xnos + x),
                        holders := w.holders[k := Reward(x * t.rate, x)])
  {
  }

  /** A fee raises the pool, sets the rate anew, and comes from the giver's wallet. */
  lemma FeeAdds(w: World, from: Pubkey, amount: u64)
    requires AddFeeTx(w, from, amount).Ok?
    ensures 0 < w.totals.xnos + amount <= U128_MAX
    ensures var w', t := AddFeeTx(w, from, amount).value, w.totals;
            && w' == w.(totals := w'.totals, ledger := w'.ledger, feesIn := w.feesIn + amount)
            && w'.totals.xnos == t.xnos + amount && w'.totals.reflection == t.reflection
            && w'.totals.rate == t.reflection / (t.xnos + amount)
            && Moved(w.ledger, w'.ledger, Wallet(from), RewardsVault, amount)
  {
    TransferMoves(w.ledger, Wallet(from), RewardsVault, amount);
  }

  /** A claim pays the pending reward to the holder's wallet and re-enters it with the weight of its stake. */
  lemma ClaimReplaces(w: World, k: Pubkey)
    requires Sound(w) && ClaimTx(w, k).Ok?
    ensures k in w.holders && k in w.stakes && w.stakes[k].timeUnstake == 0
    ensures w.holders[k].xnos <= w.stakes[k].xnos
    ensures var w', t, x := ClaimTx(w, k).value, w.totals, w.stakes[k].xnos;
            var p := Pending(w.holders[k], t.rate);
            && w' == w.(totals := w'.totals, ledger := w'.ledger, paidOut := w.paidOut + p,
                        holders := w.holders[k := w'.holders[k]])
            && k in w'.holders && w'.totals.rate == t.rate
            && (p == 0 ==> w'.holders[k] == w.holders[k])
            && (p != 0 ==> w'.holders[k].xnos == x && w'.holders[k].reflection == x * t.rate)
            && Moved(w.ledger, w'.ledger, RewardsVault, Wallet(k), p)
  {
    ClaimEffect(w.totals, w.holders, w.feesIn - w.paidOut, k, w.stakes[k].xnos);
    ClaimMoves(w, k);
  }

  /** A sync re-enters the holder with the weight of its stake, its pending reward kept as reflections. */
  lemma SyncReplaces(w: World, k: Pubkey)
    requires Sound(w) && SyncTx(w, k).Ok?
    ensures k in w.holders && k in w.stakes && w.stakes[k].timeUnstake == 0
    ensures var w', t, x := SyncTx(w, k).value, w.totals, w.stakes[k].xnos;
            && k in w'.holders && w' == w.(totals := w'.totals, holders := w.holders[k := w'.holders[k]])
            && w'.totals.rate == t.rate && w'.holders[k].xnos == x
            && w'.holders[k].reflection == (x + Pending(w.holders[k], t.rate)) * t.rate
  {
    SyncEffect(w.totals, w.holders, w.feesIn - w.paidOut, k, w.stakes[k].xnos);
  }

  /** A close takes the holder's reflections and weight out of the pool, and moves no tokens. */
  lemma CloseRemoves(w: World, k: Pubkey)
    requires CloseHolderTx(w, k).Ok?
    ensures k in w.holders
    ensures var w', t, r := CloseHolderTx(w, k).value, w.totals, w.holders[k];
            && r.reflection <= t.reflection && r.xnos <= t.xnos
            && w' == w.(totals := Totals(t.rate, t.reflection - r.reflection, t.xnos - r.xnos),
                        holders := w.holders - {k})
  {
  }
}
