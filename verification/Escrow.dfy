/** The escrow of the markets over whole runs, and which jobs can be settled. */
module Escrow {
  import opened Jobs
  import opened Machine
  import opened MapSum
  import opened Marketplace
  import opened Markets
  import opened Token

  // ---------------------------------------------------------------- what each job has in escrow

  /** A job that is not done has its price for its whole timeout in escrow. */
  function EscrowOf(j: Job): nat {
    if j.state == Done || j.timeout < 0 then 0 else j.price * j.timeout
  }

  function EscrowIn(j: Job, m: Pubkey): nat {
    if j.market == m then EscrowOf(j) else 0
  }

  ghost function Escrows(jobs: map<Pubkey, Job>, m: Pubkey): map<Pubkey, nat> {
    map k | k in jobs :: EscrowIn(jobs[k], m)
  }

  lemma EscrowSplit(jobs: map<Pubkey, Job>, k: Pubkey, m: Pubkey)
    ensures Sum(Escrows(jobs, m))
         == Sum(Escrows(jobs - {k}, m)) + (if k in jobs then EscrowIn(jobs[k], m) else 0)
  {
    if k in jobs {
      SumSplit(Escrows(jobs, m), k);
      assert Escrows(jobs, m) - {k} == Escrows(jobs - {k}, m);
    } else {
      assert jobs - {k} == jobs;
    }
  }

  lemma {:induction false} NoEscrow(jobs: map<Pubkey, Job>, m: Pubkey)
    requires forall k | k in jobs :: jobs[k].market != m
    ensures Sum(Escrows(jobs, m)) == 0
    decreases |jobs|
  {
    if jobs == map[] {
      assert Escrows(jobs, m) == map[];
    } else {
      var k :| k in jobs;
      EscrowSplit(jobs, k, m);
      NoEscrow(jobs - {k}, m);
    }
  }

  /** Market `m` holds exactly the escrow of its jobs and what outsiders sent to its vault. */
  ghost predicate VaultExact(w: World, m: Pubkey) {
    && m in w.gifts && MarketVault(m) in w.ledger
    && w.ledger[MarketVault(m)] == Sum(Escrows(w.jobs, m)) + w.gifts[m]
  }

  ghost predicate VaultsExact(w: World) {
    forall m | m in w.markets :: VaultExact(w, m)
  }

  ghost predicate Accounted(w: World) {
    Lifecycle(w) && VaultsExact(w)
  }

  ghost predicate Initial(w: World) {
    && 0 <= w.clock && w.markets == map[] && w.jobs == map[] && w.runs == map[] && w.gifts == map[]
    && Sum(w.ledger) <= U64_MAX
  }

  // ---------------------------------------------------------------- payments

  /** The vaults of all other markets are left alone. */
  ghost predicate OtherVaultsKept(l: Ledger, l': Ledger, m: Pubkey) {
    && l'.Keys == l.Keys && Sum(l') == Sum(l)
    && forall n | MarketVault(n) in l && n != m :: l'[MarketVault(n)] == l[MarketVault(n)]
  }

  lemma PaidInMoves(price: u64, timeout: i64, l: Ledger, user: Pubkey, m: Pubkey)
    requires PaidIn(price, timeout, l, Wallet(user), MarketVault(m)).Ok?
    ensures var l' := PaidIn(price, timeout, l, Wallet(user), MarketVault(m)).value;
            && OtherVaultsKept(l, l', m)
            && MarketVault(m) in l && l'[MarketVault(m)] == l[MarketVault(m)] + price * timeout
    ensures price != 0 ==> 0 <= timeout
  {
    if price != 0 {
      TransferConserves(l, Wallet(user), MarketVault(m), Deposit(price, timeout).value);
    }
  }

  lemma SettledOutMoves(j: Job, l: Ledger, m: Pubkey, node: Pubkey, payer: Pubkey)
    requires SettledOut(j, l, MarketVault(m), Wallet(node), Wallet(payer)).Ok?
    ensures var l' := SettledOut(j, l, MarketVault(m), Wallet(node), Wallet(payer)).value;
            && OtherVaultsKept(l, l', m)
            && MarketVault(m) in l && l'[MarketVault(m)] == l[MarketVault(m)] - j.price * j.timeout
    ensures j.price != 0 ==> 0 <= j.timeout
  {
    if j.price != 0 {
      var (amount, refund) := Settlement(j).value;
      TransferConserves(l, MarketVault(m), Wallet(node), amount);
      var l1 := Transferred(l, MarketVault(m), Wallet(node), amount).value;
      TransferConserves(l1, MarketVault(m), Wallet(payer), refund);
    }
  }

  lemma PaidOutMoves(price: u64, timeout: i64, l: Ledger, m: Pubkey, user: Pubkey)
    requires Deposit(price, timeout).Ok?
    requires Transferred(l, MarketVault(m), Wallet(user), Deposit(price, timeout).value).Ok?
    ensures 0 <= timeout
    ensures var l' := Transferred(l, MarketVault(m), Wallet(user), Deposit(price, timeout).value).value;
            && OtherVaultsKept(l, l', m)
            && MarketVault(m) in l && l'[MarketVault(m)] == l[MarketVault(m)] - price * timeout
  {
    TransferConserves(l, MarketVault(m), Wallet(user), Deposit(price, timeout).value);
  }

  lemma ExtendMoves(j: Job, signer: Pubkey, payer: Pubkey, timeout: i64, l: Ledger)
    requires 0 < j.price && j.state != Done ==> 0 <= j.timeout
    requires JobExtended(j, signer, payer, timeout, l, Wallet(payer), MarketVault(j.market)).Ok?
    ensures var (j', l') := JobExtended(j, signer, payer, timeout, l, Wallet(payer), MarketVault(j.market)).value;
            && j' == j.(timeout := timeout)
            && OtherVaultsKept(l, l', j.market)
            && MarketVault(j.market) in l
            && l'[MarketVault(j.market)] + EscrowOf(j) == l[MarketVault(j.market)] + EscrowOf(j')
  {
    PaidInMoves(j.price, timeout - j.timeout, l, payer, j.market);
    ExtendedEscrow(j.price, j.timeout, timeout);
  }

  lemma ExtendedEscrow(price: nat, timeout: int, longer: int)
    ensures price * longer == price * timeout + price * (longer - timeout)
  {
  }

  lemma DelistMoves(mk: Market, k: Pubkey, j: Job, signer: Pubkey, l: Ledger)
    requires 0 < j.price && j.state != Done ==> 0 <= j.timeout
    requires JobDelisted(mk, k, j, signer, l, MarketVault(j.market), Wallet(j.payer)).Ok?
    ensures var (_, l') := JobDelisted(mk, k, j, signer, l, MarketVault(j.market), Wallet(j.payer)).value;
            && OtherVaultsKept(l, l', j.market)
            && MarketVault(j.market) in l
            && l'[MarketVault(j.market)] + EscrowOf(j) == l[MarketVault(j.market)]
  {
    if j.price != 0 {
      PaidOutMoves(j.price, j.timeout, l, j.market, j.payer);
    }
  }

  lemma RecoverMoves(j: Job, signer: Pubkey, l: Ledger, user: Pubkey)
    requires JobRecovered(j, signer, l, MarketVault(j.market), Wallet(user)).Ok?
    ensures var l' := JobRecovered(j, signer, l, MarketVault(j.market), Wallet(user)).value;
            && OtherVaultsKept(l, l', j.market)
            && MarketVault(j.market) in l
            && l'[MarketVault(j.market)] + EscrowOf(j) == l[MarketVault(j.market)]
  {
    PaidOutMoves(j.price, j.timeout, l, j.market, user);
  }

  // ---------------------------------------------------------------- what every instruction keeps

  lemma JobInMarket(w: World, k: Pubkey)
    requires Accounted(w) && k in w.jobs
    ensures w.jobs[k].market in w.markets && MarketVault(w.jobs[k].market) in w.ledger
    ensures 0 < w.jobs[k].price && w.jobs[k].state != Done ==> 0 <= w.jobs[k].timeout
  {
    assert JobOk(w, k);
    assert VaultExact(w, w.jobs[k].market);
  }

  /** One job of market `m` changes its escrow, and the vault of `m` changes by as much. */
  lemma OneJobAccounted(w: World, w': World, k: Pubkey, m: Pubkey)
    requires VaultsExact(w) && m in w.markets
    requires w'.markets.Keys == w.markets.Keys && w'.gifts == w.gifts && OnlyJob(w, w', k)
    requires k in w.jobs ==> w.jobs[k].market == m
    requires k in w'.jobs ==> w'.jobs[k].market == m
    requires OtherVaultsKept(w.ledger, w'.ledger, m) && MarketVault(m) in w.ledger
    requires w'.ledger[MarketVault(m)] + (if k in w.jobs then EscrowOf(w.jobs[k]) else 0)
          == w.ledger[MarketVault(m)] + (if k in w'.jobs then EscrowOf(w'.jobs[k]) else 0)
    ensures VaultsExact(w')
  {
    assert w'.jobs - {k} == w.jobs - {k};
    forall n | n in w'.markets ensures VaultExact(w', n) {
      assert VaultExact(w, n);
      EscrowSplit(w.jobs, k, n);
      EscrowSplit(w'.jobs, k, n);
    }
  }

  lemma NewJobAccounted(w: World, op: Op)
    requires Accounted(w) && (op.List? || op.Assign?) && Step(w, op).Ok?
    ensures VaultsExact(Next(w, op)) && Sum(Next(w, op).ledger) == Sum(w.ledger)
  {
    PaidInMoves(w.markets[op.market].jobPrice, op.timeout, w.ledger, op.payer, op.market);
    OneJobAccounted(w, Next(w, op), op.job, op.market);
  }

  lemma ExtendAccounted(w: World, op: Op)
    requires Accounted(w) && op.Extend? && Step(w, op).Ok?
    ensures VaultsExact(Next(w, op)) && Sum(Next(w, op).ledger) == Sum(w.ledger)
  {
    var j := w.jobs[op.job];
    JobInMarket(w, op.job);
    ExtendMoves(j, op.signer, op.payer, op.timeout, w.ledger);
    OneJobAccounted(w, Next(w, op), op.job, j.market);
  }

  /** Closing a run by finishing or ending pays its job's whole escrow out of the market's vault. */
  lemma SettleMoves(j: Job, done: Job, l: Ledger, node: Pubkey, payer: Pubkey)
    requires j.state != Done && (0 < j.price ==> 0 <= j.timeout)
    requires done.price == j.price && done.timeout == j.timeout
    requires SettledOut(done, l, MarketVault(j.market), Wallet(node), Wallet(payer)).Ok?
    ensures var l' := SettledOut(done, l, MarketVault(j.market), Wallet(node), Wallet(payer)).value;
            && OtherVaultsKept(l, l', j.market)
            && MarketVault(j.market) in l
            && l'[MarketVault(j.market)] + EscrowOf(j) == l[MarketVault(j.market)]
  {
    SettledOutMoves(done, l, j.market, node, payer);
    SettledEscrow(j);
  }

  lemma SettledEscrow(j: Job)
    requires j.state != Done && (0 < j.price ==> 0 <= j.timeout)
    ensures EscrowOf(j) == j.price * j.timeout
  {
  }

  /** The same of the two instructions: which job's escrow leaves which vault. */
  lemma SettlingMoves(w: World, op: Op)
    requires (op.Finish? || op.End?) && Step(w, op).Ok?
    requires op.run in w.runs && w.runs[op.run].job in w.jobs
    requires var j := w.jobs[w.runs[op.run].job];
             j.state == Queued && (0 < j.price ==> 0 <= j.timeout)
    ensures var j := w.jobs[w.runs[op.run].job];
            var l' := Next(w, op).ledger;
            && OtherVaultsKept(w.ledger, l', j.market)
            && MarketVault(j.market) in w.ledger
            && l'[MarketVault(j.market)] + EscrowOf(j) == w.ledger[MarketVault(j.market)]
  {
    var r := w.runs[op.run];
    var j := w.jobs[r.job];
    if op.Finish? {
      SettleMoves(j, Finished(j, op.result, op.signer, w.clock, r.time), w.ledger, op.user, j.payer);
    } else {
      SettleMoves(j, Ended(j, r.time, w.clock, r.node), w.ledger, r.node, j.payer);
    }
  }

  lemma SettledAccounted(w: World, op: Op)
    requires Accounted(w) && (op.Finish? || op.End?) && Step(w, op).Ok?
    ensures VaultsExact(Next(w, op)) && Sum(Next(w, op).ledger) == Sum(w.ledger)
  {
    RunningJob(w, op.run);
    var k := w.runs[op.run].job;
    JobInMarket(w, k);
    RunCloses(w, op);
    SettlingMoves(w, op);
    PaidJobAccounted(w, Next(w, op), k);
  }

  /** The vaults stay exact when a job is done and its whole escrow leaves. */
  lemma PaidJobAccounted(w: World, w': World, k: Pubkey)
    requires Accounted(w) && k in w.jobs && k in w'.jobs && w'.jobs == w.jobs[k := w'.jobs[k]]
    requires w'.jobs[k].state == Done && w'.jobs[k].market == w.jobs[k].market
    requires w'.markets == w.markets && w'.gifts == w.gifts
    requires OtherVaultsKept(w.ledger, w'.ledger, w.jobs[k].market) && MarketVault(w.jobs[k].market) in w.ledger
    requires w'.ledger[MarketVault(w.jobs[k].market)] + EscrowOf(w.jobs[k])
          == w.ledger[MarketVault(w.jobs[k].market)]
    ensures VaultsExact(w')
  {
    JobInMarket(w, k);
    OneJobAccounted(w, w', k, w.jobs[k].market);
  }

  /** Delisting takes one job and its escrow, and otherwise only changes a queue. */
  lemma DelistTakes(w: World, op: Op)
    requires op.Delist? && Step(w, op).Ok?
    requires op.job in w.jobs
    requires 0 < w.jobs[op.job].price && w.jobs[op.job].state != Done ==> 0 <= w.jobs[op.job].timeout
    ensures var w' := Next(w, op);
            var m := w.jobs[op.job].market;
            && w' == w.(ledger := w'.ledger, markets := w'.markets, jobs := w.jobs - {op.job})
            && w'.markets.Keys == w.markets.Keys && m in w.markets
            && OtherVaultsKept(w.ledger, w'.ledger, m)
            && MarketVault(m) in w.ledger
            && w'.ledger[MarketVault(m)] + EscrowOf(w.jobs[op.job]) == w.ledger[MarketVault(m)]
  {
    var j := w.jobs[op.job];
    DelistMoves(w.markets[j.market], op.job, j, op.signer, w.ledger);
  }

  lemma DelistAccounted(w: World, op: Op)
    requires Accounted(w) && op.Delist? && Step(w, op).Ok?
    ensures VaultsExact(Next(w, op)) && Sum(Next(w, op).ledger) == Sum(w.ledger)
  {
    JobInMarket(w, op.job);
    DelistTakes(w, op);
    OneJobAccounted(w, Next(w, op), op.job, w.jobs[op.job].market);
  }

  lemma RecoverAccounted(w: World, op: Op)
    requires Accounted(w) && op.Recover? && Step(w, op).Ok?
    ensures VaultsExact(Next(w, op)) && Sum(Next(w, op).ledger) == Sum(w.ledger)
  {
    var j := w.jobs[op.job];
    JobInMarket(w, op.job);
    RecoverMoves(j, op.signer, w.ledger, op.user);
    OneJobAccounted(w, Next(w, op), op.job, j.market);
  }

  /** Posting a late result and cleaning up concern done jobs, and no tokens. */
  lemma DoneJobMoves(w: World, op: Op)
    requires (op.Complete? || op.Clean?) && Step(w, op).Ok?
    ensures var w' := Next(w, op);
            && w' == w.(jobs := w'.jobs) && OnlyJob(w, w', op.job)
            && op.job in w.jobs && w.jobs[op.job].state == Done
            && (op.job in w'.jobs ==>
                  w'.jobs[op.job] == w.jobs[op.job].(ipfsResult := w'.jobs[op.job].ipfsResult))
  {
  }

  /** Quitting frees a job and leaves its deposit where it is. */
  lemma QuitMoves(w: World, op: Op)
    requires (op.Quit? || op.QuitAdmin?) && Step(w, op).Ok?
    requires w.runs[op.run].job in w.jobs && w.jobs[w.runs[op.run].job].state == Queued
    ensures var k := w.runs[op.run].job;
            var w' := Next(w, op);
            && w' == w.(jobs := w'.jobs, runs := w.runs - {op.run})
            && k in w'.jobs && w'.jobs == w.jobs[k := w'.jobs[k]]
            && w'.jobs[k].state != Done && w'.jobs[k] == w.jobs[k].(state := w'.jobs[k].state)
  {
  }

  /** The vaults stay exact when a job changes in a way that does not concern its deposit. */
  lemma UnpaidJobAccounted(w: World, w': World, k: Pubkey)
    requires Accounted(w) && k in w.jobs && OnlyJob(w, w', k)
    requires w'.markets == w.markets && w'.gifts == w.gifts && w'.ledger == w.ledger
    requires if k in w'.jobs
             then w'.jobs[k].market == w.jobs[k].market && EscrowOf(w'.jobs[k]) == EscrowOf(w.jobs[k])
             else EscrowOf(w.jobs[k]) == 0
    ensures VaultsExact(w')
  {
    JobInMarket(w, k);
    OneJobAccounted(w, w', k, w.jobs[k].market);
  }

  lemma DoneJobAccounted(w: World, op: Op)
    requires Accounted(w) && (op.Complete? || op.Clean?) && Step(w, op).Ok?
    ensures VaultsExact(Next(w, op)) && Next(w, op).ledger == w.ledger
  {
    DoneJobMoves(w, op);
    UnpaidJobAccounted(w, Next(w, op), op.job);
  }

  lemma QuitAccounted(w: World, op: Op)
    requires Accounted(w) && (op.Quit? || op.QuitAdmin?) && Step(w, op).Ok?
    ensures VaultsExact(Next(w, op)) && Next(w, op).ledger == w.ledger
  {
    RunningJob(w, op.run);
    QuitMoves(w, op);
    UnpaidJobAccounted(w, Next(w, op), w.runs[op.run].job);
  }

  lemma JoblessAccounted(w: World, op: Op)
    requires Accounted(w) && (op.Tick? || op.Update? || op.Work? || op.Stop?) && Step(w, op).Ok?
    ensures VaultsExact(Next(w, op)) && Next(w, op).ledger == w.ledger
  {
    forall n | n in Next(w, op).markets ensures VaultExact(Next(w, op), n) {
      assert VaultExact(w, n);
    }
  }

  lemma OpenAccounted(w: World, op: Op)
    requires Accounted(w) && op.Open? && Step(w, op).Ok?
    ensures VaultsExact(Next(w, op)) && Sum(Next(w, op).ledger) == Sum(w.ledger)
  {
    SumInsert(w.ledger, MarketVault(op.market), 0);
    forall k | k in w.jobs ensures w.jobs[k].market != op.market {
      assert JobOk(w, k);
    }
    NoEscrow(w.jobs, op.market);
    forall n | n in Next(w, op).markets ensures VaultExact(Next(w, op), n) {
      assert n != op.market ==> VaultExact(w, n);
    }
  }

  lemma SendConserves(w: World, from: Pubkey, to: Account, amount: u64)
    requires SendTx(w, from, to, amount).Ok?
    ensures var w' := SendTx(w, from, to, amount).value;
            && w' == w.(ledger := w'.ledger, gifts := w'.gifts)
            && Sum(w'.ledger) == Sum(w.ledger) && w'.ledger.Keys == w.ledger.Keys
            && w'.gifts.Keys == w.gifts.Keys
  {
    TransferConserves(w.ledger, Wallet(from), to, amount);
  }

  /** A gift to a market's vault is recorded; any other transfer leaves the markets' vaults alone. */
  lemma SendMoves(w: World, from: Pubkey, to: Account, amount: u64, n: Pubkey)
    requires SendTx(w, from, to, amount).Ok? && n in w.gifts && MarketVault(n) in w.ledger
    ensures var w' := SendTx(w, from, to, amount).value;
            && n in w'.gifts && MarketVault(n) in w'.ledger
            && w'.ledger[MarketVault(n)] + w.gifts[n] == w.ledger[MarketVault(n)] + w'.gifts[n]
  {
    TransferConserves(w.ledger, Wallet(from), to, amount);
  }

  lemma SendAccounted(w: World, op: Op)
    requires Accounted(w) && op.Send? && Step(w, op).Ok?
    ensures VaultsExact(Next(w, op)) && Sum(Next(w, op).ledger) == Sum(w.ledger)
  {
    SendConserves(w, op.from, op.to, op.amount);
    forall n | n in Next(w, op).markets ensures VaultExact(Next(w, op), n) {
      assert VaultExact(w, n);
      SendMoves(w, op.from, op.to, op.amount, n);
    }
  }

  /** Every instruction keeps every market's escrow exact, and the tokens in total. */
  lemma StepAccounted(w: World, op: Op)
    requires Accounted(w)
    ensures Accounted(Next(w, op)) && Sum(Next(w, op).ledger) == Sum(w.ledger)
  {
    StepLives(w, op);
    if Step(w, op).Ok? {
      match op
      case Send(_, _, _) => SendAccounted(w, op);
      case Open(_, _, _, _, _, _) => OpenAccounted(w, op);
      case List(_, _, _, _, _, _, _) => NewJobAccounted(w, op);
      case Assign(_, _, _, _, _, _, _, _) => NewJobAccounted(w, op);
      case Delist(_, _) => DelistAccounted(w, op);
      case Extend(_, _, _, _) => ExtendAccounted(w, op);
      case Finish(_, _, _, _) => SettledAccounted(w, op);
      case End(_, _) => SettledAccounted(w, op);
      case Quit(_, _) => QuitAccounted(w, op);
      case QuitAdmin(_) => QuitAccounted(w, op);
      case Recover(_, _, _) => RecoverAccounted(w, op);
      case Complete(_, _, _) => DoneJobAccounted(w, op);
      case Clean(_, _) => DoneJobAccounted(w, op);
      case _ => JoblessAccounted(w, op);
    }
  }

  lemma {:induction false} RunAccounted(w: World, ops: seq<Op>)
    requires Accounted(w)
    ensures Accounted(Run(w, ops)) && Sum(Run(w, ops).ledger) == Sum(w.ledger)
    decreases |ops|
  {
    if ops == [] {
    } else {
      StepAccounted(w, ops[0]);
      RunAccounted(Next(w, ops[0]), ops[1..]);
    }
  }

  /**
    Escrow conservation from the start of the program: a market's vault holds the escrow of its
    queued and stopped jobs plus what outsiders sent, at every moment of every run.
    */
  lemma RunConservesEscrow(w: World, ops: seq<Op>, m: Pubkey)
    requires Initial(w) && m in Run(w, ops).markets
    ensures Accounted(Run(w, ops)) && Sum(Run(w, ops).ledger) <= U64_MAX
    ensures VaultExact(Run(w, ops), m)
  {
    RunAccounted(w, ops);
  }

  // ---------------------------------------------------------------- settling goes through

  /** The escrow of one job is in the vault, so it fits 64 bits. */
  lemma EscrowInVault(w: World, k: Pubkey)
    requires Accounted(w) && k in w.jobs
    ensures w.jobs[k].market in w.markets && MarketVault(w.jobs[k].market) in w.ledger
    ensures EscrowOf(w.jobs[k]) <= w.ledger[MarketVault(w.jobs[k].market)]
    ensures 0 < w.jobs[k].price && w.jobs[k].state != Done ==> 0 <= w.jobs[k].timeout
  {
    assert JobOk(w, k);
    assert VaultExact(w, w.jobs[k].market);
    SumHasPart(Escrows(w.jobs, w.jobs[k].market), k);
  }

  lemma SettledOutGoesThrough(j: Job, l: Ledger, vault: Account, node: Pubkey, payer: Pubkey)
    requires Sum(l) <= U64_MAX && vault.MarketVault? && vault in l
    requires 0 <= j.timeStart <= j.timeEnd
    requires j.price != 0 ==> 0 <= j.timeout && j.price * j.timeout <= l[vault]
    ensures SettledOut(j, l, vault, Wallet(node), Wallet(payer)).Ok?
            <==> Wallet(node) in l && Wallet(payer) in l
  {
    if Wallet(node) in l && Wallet(payer) in l && j.price != 0 {
      SettlementSplits(j);
      var (amount, refund) := Settlement(j).value;
      TransferGoesThrough(l, vault, Wallet(node), amount);
      TransferConserves(l, vault, Wallet(node), amount);
      TransferGoesThrough(Transferred(l, vault, Wallet(node), amount).value, vault, Wallet(payer), refund);
    }
  }

  /**
    Finishing never overflows and never finds the vault short: it goes through exactly when the run's
    own node signs with a result and both wallets exist. The test of the job's state never fails.
    */
  lemma FinishGoesThrough(w: World, run: Pubkey, signer: Pubkey, result: nat, user: Pubkey)
    requires Accounted(w) && Sum(w.ledger) <= U64_MAX && run in w.runs
    ensures w.runs[run].job in w.jobs && w.jobs[w.runs[run].job].state == Queued
    ensures FinishTx(w, run, signer, result, user).Ok?
            <==> && w.runs[run].node == signer && result != NULL_RESULT
                 && Wallet(user) in w.ledger && Wallet(w.jobs[w.runs[run].job].payer) in w.ledger
  {
    RunningJob(w, run);
    var r := w.runs[run];
    var j := w.jobs[r.job];
    EscrowInVault(w, r.job);
    SettledOutGoesThrough(Finished(j, result, signer, w.clock, r.time), w.ledger, MarketVault(j.market),
                          user, j.payer);
  }

  /** Ending tests no job state, yet only ever ends a queued job, and always goes through for its project. */
  lemma EndGoesThrough(w: World, run: Pubkey, signer: Pubkey)
    requires Accounted(w) && Sum(w.ledger) <= U64_MAX && run in w.runs
    ensures w.runs[run].job in w.jobs && w.jobs[w.runs[run].job].state == Queued
    ensures !Waiting(w, w.runs[run].job)
    ensures EndTx(w, run, signer).Ok?
            <==> && w.jobs[w.runs[run].job].project == signer
                 && Wallet(w.runs[run].node) in w.ledger
                 && Wallet(w.jobs[w.runs[run].job].payer) in w.ledger
  {
    RunningJob(w, run);
    var r := w.runs[run];
    var j := w.jobs[r.job];
    EscrowInVault(w, r.job);
    SettledOutGoesThrough(Ended(j, r.time, w.clock, r.node), w.ledger, MarketVault(j.market), r.node, j.payer);
  }

  /**
    Who gets what when a job that ran from `start` to `now` is settled: the node's account the price
    for that time, up to the timeout, and the payer's wallet the rest of the escrow. If both are one
    account it gets the whole escrow. Nobody but the market's vault pays, and nobody else is paid.
    */
  ghost predicate Pays(l: Ledger, l': Ledger, j: Job, start: int, now: int, node: Account, payer: Account) {
    var vault, amount := MarketVault(j.market), j.price * Min(now - start, j.timeout);
    && l'.Keys == l.Keys && vault in l && node in l && payer in l
    && l'[vault] == l[vault] - EscrowOf(j)
    && (if j.price == 0 then l' == l
        else if node == payer then l'[node] == l[node] + EscrowOf(j)
        else 0 <= amount <= EscrowOf(j) && l'[node] == l[node] + amount
             && l'[payer] == l[payer] + EscrowOf(j) - amount)
    && forall a | a in l && a != vault && a != node && a != payer :: l'[a] == l[a]
  }

  lemma SettledPays(j: Job, done: Job, l: Ledger, node: Pubkey, payer: Pubkey)
    requires j.state != Done && (0 < j.price ==> 0 <= j.timeout) && 0 <= done.timeStart <= done.timeEnd
    requires done.price == j.price && done.timeout == j.timeout
    requires SettledOut(done, l, MarketVault(j.market), Wallet(node), Wallet(payer)).Ok?
    ensures Pays(l, SettledOut(done, l, MarketVault(j.market), Wallet(node), Wallet(payer)).value,
                 j, done.timeStart, done.timeEnd, Wallet(node), Wallet(payer))
  {
    if j.price != 0 {
      SettledEscrow(j);
      SettlementSplits(done);
      var vault := MarketVault(j.market);
      var (amount, refund) := Settlement(done).value;
      TransferConserves(l, vault, Wallet(node), amount);
      TransferConserves(Transferred(l, vault, Wallet(node), amount).value, vault, Wallet(payer), refund);
    }
  }

  /** Finishing pays the account the node names, by the time its run took, and refunds the job's payer. */
  lemma FinishPays(w: World, run: Pubkey, signer: Pubkey, result: nat, user: Pubkey)
    requires Accounted(w) && FinishTx(w, run, signer, result, user).Ok?
    ensures run in w.runs && w.runs[run].job in w.jobs
    ensures var j := w.jobs[w.runs[run].job];
            Pays(w.ledger, FinishTx(w, run, signer, result, user).value.ledger, j,
                 w.runs[run].time, w.clock, Wallet(user), Wallet(j.payer))
  {
    RunningJob(w, run);
    var r := w.runs[run];
    var j := w.jobs[r.job];
    JobInMarket(w, r.job);
    SettledPays(j, Finished(j, result, signer, w.clock, r.time), w.ledger, user, j.payer);
  }

  /** Ending pays the run's own node by the same rule, whoever the project is. */
  lemma EndPays(w: World, run: Pubkey, signer: Pubkey)
    requires Accounted(w) && EndTx(w, run, signer).Ok?
    ensures run in w.runs && w.runs[run].job in w.jobs
    ensures var r := w.runs[run];
            var j := w.jobs[r.job];
            Pays(w.ledger, EndTx(w, run, signer).value.ledger, j, r.time, w.clock,
                 Wallet(r.node), Wallet(j.payer))
  {
    RunningJob(w, run);
    var r := w.runs[run];
    var j := w.jobs[r.job];
    JobInMarket(w, r.job);
    SettledPays(j, Ended(j, r.time, w.clock, r.node), w.ledger, r.node, j.payer);
  }

  /** A project gets a waiting job back with its whole deposit. */
  lemma DelistGoesThrough(w: World, k: Pubkey, signer: Pubkey)
    requires Accounted(w) && Sum(w.ledger) <= U64_MAX && k in w.jobs
    ensures DelistTx(w, k, signer).Ok?
            <==> && Waiting(w, k) && w.jobs[k].project == signer && Wallet(w.jobs[k].payer) in w.ledger
  {
    var j := w.jobs[k];
    EscrowInVault(w, k);
    assert MarketOk(w, j.market);
    assert Waiting(w, k) ==> EntryOk(w, j.market, k);
    if Waiting(w, k) && j.price != 0 {
      DepositFits(j, w.ledger[MarketVault(j.market)]);
      TransferGoesThrough(w.ledger, MarketVault(j.market), Wallet(j.payer), EscrowOf(j));
    }
  }

  /**
    The deposit of a stopped job is recovered whole. Recovering is the one payment that also computes
    the deposit of a free job, so a free job listed with a negative timeout cannot be recovered.
    */
  lemma RecoverGoesThrough(w: World, k: Pubkey, signer: Pubkey, user: Pubkey)
    requires Accounted(w) && Sum(w.ledger) <= U64_MAX && k in w.jobs
    ensures RecoverTx(w, k, signer, user).Ok?
            <==> && w.jobs[k].state == Stopped && w.jobs[k].project == signer
                 && Wallet(user) in w.ledger && 0 <= w.jobs[k].timeout
  {
    var j := w.jobs[k];
    EscrowInVault(w, k);
    if j.state == Stopped {
      DepositFits(j, w.ledger[MarketVault(j.market)]);
      if 0 <= j.timeout {
        TransferGoesThrough(w.ledger, MarketVault(j.market), Wallet(user), EscrowOf(j));
      }
    }
  }

  lemma DepositFits(j: Job, balance: u64)
    requires j.state != Done && EscrowOf(j) <= balance
    ensures Deposit(j.price, j.timeout) == if 0 <= j.timeout then Ok(EscrowOf(j)) else Abort
  {
  }
}
