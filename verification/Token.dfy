/** Token accounts and transfers between them, as the token program keeps them. */
module Token {
  import opened Machine
  import opened MapSum

  type Pubkey = nat

  /** The token accounts that the programs move tokens between. */
  datatype Account =
    | Wallet(owner: Pubkey)
    | StakeVault(owner: Pubkey)
    | RewardsVault
    | SlashAccount
    | MarketVault(market: Pubkey)
    | PoolVault

  /** Balances of the token accounts that exist; each is a 64-bit amount. */
  type Ledger = map<Account, u64>

  /** A transfer aborts unless both accounts exist and the payer holds the amount. */
  function Transferred(l: Ledger, from: Account, to: Account, amount: nat): Result<Ledger> {
    if from !in l || to !in l || l[from] < amount then Abort
    else
      var debited := l[from := l[from] - amount];
      if debited[to] + amount > U64_MAX then Abort
      else Ok(debited[to := debited[to] + amount])
  }

  function Balance(l: Ledger, a: Account): nat {
    if a in l then l[a] else 0
  }

  /** A transfer creates and destroys nothing, and touches only its two accounts. */
  lemma TransferConserves(l: Ledger, from: Account, to: Account, amount: nat)
    requires Transferred(l, from, to, amount).Ok?
    ensures var after := Transferred(l, from, to, amount).value;
            && after.Keys == l.Keys
            && Sum(after) == Sum(l)
            && (from != to ==> after[from] == l[from] - amount && after[to] == l[to] + amount)
            && (from == to ==> after == l)
            && forall a | a in l && a != from && a != to :: after[a] == l[a]
  {
    var debited := l[from := l[from] - amount];
    SumUpdate(l, from, l[from] - amount);
    SumUpdate(debited, to, debited[to] + amount);
  }

  /** `amount` moved from one account to the other, and no other balance changed. */
  ghost predicate Moved(l: Ledger, l': Ledger, from: Account, to: Account, amount: nat) {
    && l'.Keys == l.Keys && from in l && to in l && amount <= l[from]
    && (from == to ==> l' == l)
    && (from != to ==> l'[from] == l[from] - amount && l'[to] == l[to] + amount)
    && forall a | a in l && a != from && a != to :: l'[a] == l[a]
  }

  lemma TransferMoves(l: Ledger, from: Account, to: Account, amount: nat)
    requires Transferred(l, from, to, amount).Ok?
    ensures Moved(l, Transferred(l, from, to, amount).value, from, to, amount)
  {
    TransferConserves(l, from, to, amount);
  }

  /** While the whole supply fits 64 bits, a transfer goes through exactly when the payer can pay. */
  lemma TransferGoesThrough(l: Ledger, from: Account, to: Account, amount: nat)
    requires Sum(l) <= U64_MAX
    ensures Transferred(l, from, to, amount).Ok? <==> from in l && to in l && amount <= l[from]
  {
    if from in l && to in l && amount <= l[from] {
      var debited := l[from := l[from] - amount];
      SumUpdate(l, from, l[from] - amount);
      SumHasPart(debited, to);
    }
  }

  class Bank {
    var balances: Ledger

    constructor (balances: Ledger)
      ensures this.balances == balances
    {
      this.balances := balances;
    }

    method Transfer(from: Account, to: Account, amount: nat) returns (r: Result<()>)
      modifies this
      ensures r.Ok? <==> Transferred(old(balances), from, to, amount).Ok?
      ensures balances == if r.Ok? then Transferred(old(balances), from, to, amount).value else old(balances)
    {
      if from !in balances || to !in balances || balances[from] < amount {
        return Abort;
      }
      var was := balances;
      balances := balances[from := balances[from] - amount];
      if balances[to] + amount > U64_MAX {
        balances := was;
        return Abort;
      }
      balances := balances[to := balances[to] + amount];
      return Ok(());
    }
  }
}
