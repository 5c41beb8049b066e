/**
  What each instruction of the jobs program does, from start to end: exactly when it goes through, and
  every field of the accounts it writes and every balance afterwards.
  */
module JobEffects {
  import opened Escrow
  import opened JobFates
  import opened Jobs
  import opened Machine
  import opened MapSum
  import opened Marketplace
  import opened Markets
  import opened Token

  // ---------------------------------------------------------------- markets

  /** The five known job types, 0 to 4, with or without the restricted flag. */
  lemma KnownExactly(t: u8)
    ensures Known(t) <==> t % 128 <= 4
    ensures Known(t) ==> JobType(t) == t % 128
    ensures !Known(t) ==> JobType(t) == 127
  {
  }

  lemma OpenExactly(w: World, m: Pubkey, signer: Pubkey, expiration: i64, price: u64, jobType: u8, minimum: u128)
    ensures OpenTx(w, m, signer, expiration, price, jobType, minimum).Ok?
            <==> m !in w.markets && m !in w.jobs && m !in w.runs && MarketVault(m) !in w.ledger
    ensures OpenTx(w, m, signer, expiration, price, jobType, minimum).Ok? ==>
              var kind: u8 := if jobType % 128 <= 4 then jobType % 128 else 127;
              OpenTx(w, m, signer, expiration, price, jobType, minimum).value
              == w.(markets := w.markets[m := Market(signer, expiration, price, kind, minimum, EmptyQueue, [])],
                    ledger := w.ledger[MarketVault(m) := 0], gifts := w.gifts[m := 0])
  {
  }

  /** An update changes the terms of later jobs, not the queue, the authority or the restricted flag. */
  lemma UpdateExactly(w: World, m: Pubkey, signer: Pubkey, expiration: i64, price: u64, jobType: u8, minimum: u128)
    ensures UpdateTx(w, m, signer, expiration, price, jobType, minimum).Ok?
            <==> m in w.markets && w.markets[m].authority == signer
    ensures UpdateTx(w, m, signer, expiration, price, jobType, minimum).Ok? ==>
              var w' := UpdateTx(w, m, signer, expiration, price, jobType, minimum).value;
              && m in w'.markets && w' == w.(markets := w.markets[m := w'.markets[m]])
              && var mk, mk' := w.markets[m], w'.markets[m];
                 && mk' == mk.(jobExpiration := expiration, jobPrice := price, nodeXnosMinimum := minimum,
                               jobType := mk'.jobType)
                 && (mk'.jobType >= 128 <==> mk.jobType >= 128)
                 && mk'.jobType % 128 == (if jobType % 128 <= 4 then jobType % 128 else 127)
  {
  }

  // ---------------------------------------------------------------- new jobs and new runs

  /** The payer's wallet can pay for the job; a free job costs nothing and may have any timeout. */
  predicate Affords(w: World, m: Pubkey, payer: Pubkey, timeout: i64)
    requires m in w.markets
  {
    var price := w.markets[m].jobPrice;
    Wallet(payer) in w.ledger
    && (price == 0 || (0 <= timeout && price * timeout <= w.ledger[Wallet(payer)]))
  }

  /**
    A job is new, waits for nobody's result, belongs to its project, has the market's price of the
    moment, and was paid for by its payer's wallet alone.
    */
  ghost predicate JobStarts(w: World, w': World, m: Pubkey, k: Pubkey, payer: Pubkey, project: Pubkey,
                            ipfsJob: nat, timeout: i64)
    requires m in w.markets
  {
    && k in w'.jobs && w'.jobs == w.jobs[k := w'.jobs[k]]
    && var j, price := w'.jobs[k], w.markets[m].jobPrice;
       && j.ipfsJob == ipfsJob && j.ipfsResult == 0 && j.market == m && j.payer == payer && j.project == project
       && j.price == price && j.state == Queued && j.timeout == timeout
       && j.node == 0 && j.timeStart == 0 && j.timeEnd == 0
       && Moved(w.ledger, w'.ledger, Wallet(payer), MarketVault(m), EscrowOf(j))
       && EscrowOf(j) == if price == 0 then 0 else price * timeout
  }

  /** A run starts now, with this job and this node, and no other run changes. */
  ghost predicate RunStarts(w: World, w': World, run: Pubkey, k: Pubkey, node: Pubkey, payer: Pubkey) {
    && run in w'.runs && w'.runs == w.runs[run := w'.runs[run]]
    && var r := w'.runs[run];
       r.job == k && r.node == node && r.payer == payer && r.time == w.clock
  }

  lemma PaidInExactly(price: u64, timeout: i64, l: Ledger, user: Pubkey, m: Pubkey)
    requires Sum(l) <= U64_MAX && MarketVault(m) in l
    ensures PaidIn(price, timeout, l, Wallet(user), MarketVault(m)).Ok?
            <==> && Wallet(user) in l
                 && (price == 0 || (0 <= timeout && price * timeout <= l[Wallet(user)]))
  {
    if Wallet(user) in l && price != 0 && 0 <= timeout {
      TransferGoesThrough(l, Wallet(user), MarketVault(m), price * timeout);
    }
  }

  lemma PaidInMovesTokens(price: u64, timeout: i64, l: Ledger, user: Pubkey, m: Pubkey)
    requires PaidIn(price, timeout, l, Wallet(user), MarketVault(m)).Ok?
    ensures price == 0 || 0 <= timeout
    ensures Moved(l, PaidIn(price, timeout, l, Wallet(user), MarketVault(m)).value, Wallet(user), MarketVault(m),
                  if price == 0 then 0 else price * timeout)
  {
    if price != 0 {
      TransferMoves(l, Wallet(user), MarketVault(m), Deposit(price, timeout).value);
    }
  }

  lemma VaultOfMarket(w: World, m: Pubkey)
    requires Accounted(w) && m in w.markets
    ensures MarketVault(m) in w.ledger && Shaped(w.markets[m])
  {
    assert VaultExact(w, m);
    assert MarketOk(w, m);
  }

  /** Listing goes through exactly for fresh accounts and a payer who can pay. */
  lemma ListExactly(w: World, m: Pubkey, k: Pubkey, run: Pubkey, payer: Pubkey, project: Pubkey,
                    ipfsJob: nat, timeout: i64)
    requires Accounted(w) && Sum(w.ledger) <= U64_MAX
    ensures ListTx(w, m, k, run, payer, project, ipfsJob, timeout).Ok?
            <==> m in w.markets && Fresh(w, k) && Fresh(w, run) && k != run && Affords(w, m, payer, timeout)
  {
    if m in w.markets {
      VaultOfMarket(w, m);
      PaidInExactly(w.markets[m].jobPrice, timeout, w.ledger, payer, m);
    }
  }

  /** A listed job starts as its lister says, and runs at once on the node that waited longest. */
  lemma ListStarts(w: World, m: Pubkey, k: Pubkey, run: Pubkey, payer: Pubkey, project: Pubkey,
                   ipfsJob: nat, timeout: i64)
    requires ListTx(w, m, k, run, payer, project, ipfsJob, timeout).Ok?
    ensures m in w.markets
    ensures var w' := ListTx(w, m, k, run, payer, project, ipfsJob, timeout).value;
            && w' == w.(ledger := w'.ledger, markets := w'.markets, jobs := w'.jobs, runs := w'.runs)
            && JobStarts(w, w', m, k, payer, project, ipfsJob, timeout)
            && if w.markets[m].queueType == NodeQueue && w.markets[m].queue != []
               then RunStarts(w, w', run, k, w.markets[m].queue[0], payer)
               else w'.runs == w.runs
  {
    PaidInMovesTokens(w.markets[m].jobPrice, timeout, w.ledger, payer, m);
  }

  /** Assigning goes through exactly for fresh accounts, a waiting node and a payer who can pay. */
  lemma AssignExactly(w: World, m: Pubkey, k: Pubkey, run: Pubkey, node: Pubkey, payer: Pubkey,
                      project: Pubkey, ipfsJob: nat, timeout: i64)
    requires Accounted(w) && Sum(w.ledger) <= U64_MAX
    ensures AssignTx(w, m, k, run, node, payer, project, ipfsJob, timeout).Ok?
            <==> && m in w.markets && Fresh(w, k) && Fresh(w, run) && k != run
                 && w.markets[m].queueType == NodeQueue && node in w.markets[m].queue
                 && Affords(w, m, payer, timeout)
  {
    if m in w.markets {
      VaultOfMarket(w, m);
      PaidInExactly(w.markets[m].jobPrice, timeout, w.ledger, payer, m);
    }
  }

  /** An assigned job starts as its project says, and runs at once on the chosen node. */
  lemma AssignStarts(w: World, m: Pubkey, k: Pubkey, run: Pubkey, node: Pubkey, payer: Pubkey,
                     project: Pubkey, ipfsJob: nat, timeout: i64)
    requires AssignTx(w, m, k, run, node, payer, project, ipfsJob, timeout).Ok?
    ensures m in w.markets
    ensures var w' := AssignTx(w, m, k, run, node, payer, project, ipfsJob, timeout).value;
            && w' == w.(ledger := w'.ledger, markets := w'.markets, jobs := w'.jobs, runs := w'.runs)
            && JobStarts(w, w', m, k, payer, project, ipfsJob, timeout)
            && RunStarts(w, w', run, k, node, payer)
  {
    PaidInMovesTokens(w.markets[m].jobPrice, timeout, w.ledger, payer, m);
  }

  /** Working goes through exactly for a fresh account, enough xNOS, and a node that is not waiting yet. */
  lemma WorkExactly(w: World, m: Pubkey, run: Pubkey, node: Pubkey, xnos: u128, payer: Pubkey)
    requires Lifecycle(w)
    ensures WorkTx(w, m, run, node, xnos, payer).Ok?
            <==> && m in w.markets && Fresh(w, run) && w.markets[m].nodeXnosMinimum <= xnos
                 && (w.markets[m].queueType == JobQueue || node !in w.markets[m].queue)
  {
    if m in w.markets {
      assert MarketOk(w, m);
    }
  }

  /** A working node starts at once on the job that waited longest, and otherwise moves nothing but the queue. */
  lemma WorkStarts(w: World, m: Pubkey, run: Pubkey, node: Pubkey, xnos: u128, payer: Pubkey)
    requires WorkTx(w, m, run, node, xnos, payer).Ok?
    ensures m in w.markets
    ensures var w' := WorkTx(w, m, run, node, xnos, payer).value;
            && w' == w.(markets := w'.markets, runs := w'.runs)
            && if w.markets[m].queueType == JobQueue
               then w.markets[m].queue != [] && RunStarts(w, w', run, w.markets[m].queue[0], node, payer)
               else w'.runs == w.runs
  {
  }

  lemma StopExactly(w: World, m: Pubkey, node: Pubkey, signer: Pubkey)
    ensures StopTx(w, m, node, signer).Ok?
            <==> && m in w.markets && (w.markets[m].authority == signer || node == signer)
                 && w.markets[m].queueType == NodeQueue && node in w.markets[m].queue
    ensures StopTx(w, m, node, signer).Ok? ==>
              var w' := StopTx(w, m, node, signer).value;
              w' == w.(markets := w'.markets)
  {
  }

  // ---------------------------------------------------------------- jobs in the queue

  /** The deposit that the program computes for a job is the job's escrow. */
  lemma DepositIsEscrow(j: Job)
    requires j.state != Done && Deposit(j.price, j.timeout).Ok?
    ensures Deposit(j.price, j.timeout).value == EscrowOf(j)
  {
  }

  /** Delisting pays the whole escrow back to the wallet of the job's payer, and removes the job. */
  lemma DelistRefunds(w: World, k: Pubkey, signer: Pubkey)
    requires Accounted(w) && DelistTx(w, k, signer).Ok?
    ensures k in w.jobs
    ensures var w', j := DelistTx(w, k, signer).value, w.jobs[k];
            && w' == w.(ledger := w'.ledger, markets := w'.markets, jobs := w.jobs - {k})
            && Moved(w.ledger, w'.ledger, MarketVault(j.market), Wallet(j.payer), EscrowOf(j))
  {
    JobInMarket(w, k);
    DelistedMoves(w.markets[w.jobs[k].market], k, w.jobs[k], signer, w.ledger);
  }

  lemma DelistedMoves(mk: Market, k: Pubkey, j: Job, signer: Pubkey, l: Ledger)
    requires j.state != Done
    requires JobDelisted(mk, k, j, signer, l, MarketVault(j.market), Wallet(j.payer)).Ok?
    ensures Moved(l, JobDelisted(mk, k, j, signer, l, MarketVault(j.market), Wallet(j.payer)).value.1,
                  MarketVault(j.market), Wallet(j.payer), EscrowOf(j))
  {
    if j.price != 0 {
      DepositIsEscrow(j);
      TransferMoves(l, MarketVault(j.market), Wallet(j.payer), EscrowOf(j));
    } else {
      assert EscrowOf(j) == 0;
    }
  }

  /** A listed job waits exactly if no node took it and the market's job type is known. */
  lemma ListedWaits(w: World, m: Pubkey, k: Pubkey, run: Pubkey, payer: Pubkey, project: Pubkey,
                    ipfsJob: nat, timeout: i64)
    requires Lifecycle(w) && ListTx(w, m, k, run, payer, project, ipfsJob, timeout).Ok?
    ensures m in w.markets
    ensures Waiting(ListTx(w, m, k, run, payer, project, ipfsJob, timeout).value, k)
            <==> w.markets[m].queueType != NodeQueue && Known(w.markets[m].jobType)
  {
    var w1, mk := ListTx(w, m, k, run, payer, project, ipfsJob, timeout).value, w.markets[m];
    assert MarketOk(w, m);
    FreshUnknown(w, k);
    assert w1.jobs[k].market == m && w1.markets[m] == Listed(mk, k).value.0;
    if mk.queueType != NodeQueue && Known(mk.jobType) {
      assert (mk.queue + [k])[|mk.queue|] == k;
    }
  }

  /**
    A job that was listed and not taken can be delisted by its project, and then every balance and every
    other job is as it was before the listing.
    */
  lemma ListThenDelist(w: World, m: Pubkey, k: Pubkey, run: Pubkey, payer: Pubkey, project: Pubkey,
                       ipfsJob: nat, timeout: i64)
    requires Accounted(w) && Sum(w.ledger) <= U64_MAX
    requires ListTx(w, m, k, run, payer, project, ipfsJob, timeout).Ok?
    ensures m in w.markets
    ensures var w1 := ListTx(w, m, k, run, payer, project, ipfsJob, timeout).value;
            && (DelistTx(w1, k, project).Ok?
                <==> w.markets[m].queueType != NodeQueue && Known(w.markets[m].jobType))
            && (DelistTx(w1, k, project).Ok? ==>
                  var w2 := DelistTx(w1, k, project).value;
                  w2.ledger == w.ledger && w2.jobs == w.jobs && w2.runs == w1.runs)
  {
    var op := List(m, k, run, payer, project, ipfsJob, timeout);
    var w1 := ListTx(w, m, k, run, payer, project, ipfsJob, timeout).value;
    assert Step(w, op) == Ok(w1) && Next(w, op) == w1;
    StepAccounted(w, op);
    ListStarts(w, m, k, run, payer, project, ipfsJob, timeout);
    ListedWaits(w, m, k, run, payer, project, ipfsJob, timeout);
    ListCreates(w, op);
    DelistGoesThrough(w1, k, project);
    if DelistTx(w1, k, project).Ok? {
      DelistRefunds(w1, k, project);
      DelistUndoes(w, w1, DelistTx(w1, k, project).value, k);
    }
  }

  lemma DelistUndoes(w: World, w1: World, w2: World, k: Pubkey)
    requires k !in w.jobs && k in w1.jobs && w1.jobs == w.jobs[k := w1.jobs[k]] && w2.jobs == w1.jobs - {k}
    requires var j := w1.jobs[k];
             && Moved(w.ledger, w1.ledger, Wallet(j.payer), MarketVault(j.market), EscrowOf(j))
             && Moved(w1.ledger, w2.ledger, MarketVault(j.market), Wallet(j.payer), EscrowOf(j))
    ensures w2.ledger == w.ledger && w2.jobs == w.jobs
  {
    var j := w1.jobs[k];
    MovedBack(w.ledger, w1.ledger, w2.ledger, Wallet(j.payer), MarketVault(j.market), EscrowOf(j));
  }

  lemma MovedBack(l: Ledger, l1: Ledger, l2: Ledger, a: Account, b: Account, amount: nat)
    requires Moved(l, l1, a, b, amount) && Moved(l1, l2, b, a, amount)
    ensures l2 == l
  {
    forall x | x in l ensures l2[x] == l[x] {
    }
  }

  /** What extending asks for: a longer timeout, its project, and a payer who can pay for the time added. */
  predicate MayExtend(j: Job, signer: Pubkey, payer: Pubkey, timeout: i64, l: Ledger) {
    && j.project == signer && (j.price == 0 || j.payer == payer) && j.state == Queued
    && 0 < timeout - j.timeout <= I64_MAX && Wallet(payer) in l
    && (j.price == 0 || j.price * (timeout - j.timeout) <= l[Wallet(payer)])
  }

  lemma ExtendExactly(w: World, k: Pubkey, signer: Pubkey, payer: Pubkey, timeout: i64)
    requires Accounted(w) && Sum(w.ledger) <= U64_MAX
    ensures ExtendTx(w, k, signer, payer, timeout).Ok?
            <==> k in w.jobs && MayExtend(w.jobs[k], signer, payer, timeout, w.ledger)
  {
    if k in w.jobs {
      JobInMarket(w, k);
      ExtendedExactly(w.jobs[k], signer, payer, timeout, w.ledger);
    }
  }

  lemma ExtendedExactly(j: Job, signer: Pubkey, payer: Pubkey, timeout: i64, l: Ledger)
    requires Sum(l) <= U64_MAX && MarketVault(j.market) in l
    ensures JobExtended(j, signer, payer, timeout, l, Wallet(payer), MarketVault(j.market)).Ok?
            <==> MayExtend(j, signer, payer, timeout, l)
  {
    if 0 < timeout - j.timeout <= I64_MAX {
      PaidInExactly(j.price, timeout - j.timeout, l, payer, j.market);
    }
  }

  /** It changes the timeout alone, and the payer's wallet pays for the time added. */
  lemma ExtendAdds(w: World, k: Pubkey, signer: Pubkey, payer: Pubkey, timeout: i64)
    requires ExtendTx(w, k, signer, payer, timeout).Ok?
    ensures k in w.jobs && w.jobs[k].timeout < timeout
    ensures var w', j := ExtendTx(w, k, signer, payer, timeout).value, w.jobs[k];
            && w' == w.(ledger := w'.ledger, jobs := w.jobs[k := j.(timeout := timeout)])
            && Moved(w.ledger, w'.ledger, Wallet(payer), MarketVault(j.market), j.price * (timeout - j.timeout))
  {
    var j := w.jobs[k];
    PaidInMovesTokens(j.price, timeout - j.timeout, w.ledger, payer, j.market);
  }

  // ---------------------------------------------------------------- jobs on a run

  /** Finishing writes the result, the node and both times, closes the run, and pays. */
  lemma FinishWrites(w: World, run: Pubkey, signer: Pubkey, result: nat, user: Pubkey)
    requires FinishTx(w, run, signer, result, user).Ok?
    ensures run in w.runs && w.runs[run].job in w.jobs && w.runs[run].node == signer
    ensures var w', r := FinishTx(w, run, signer, result, user).value, w.runs[run];
            w' == w.(ledger := w'.ledger, runs := w.runs - {run},
                     jobs := w.jobs[r.job := w.jobs[r.job].(state := Done, ipfsResult := result, node := r.node,
                                                            timeStart := r.time, timeEnd := w.clock)])
  {
  }

  /** Ending writes the run's node and both times, closes the run, and pays; there is no result. */
  lemma EndWrites(w: World, run: Pubkey, signer: Pubkey)
    requires EndTx(w, run, signer).Ok?
    ensures run in w.runs && w.runs[run].job in w.jobs
    ensures var w', r := EndTx(w, run, signer).value, w.runs[run];
            w' == w.(ledger := w'.ledger, runs := w.runs - {run},
                     jobs := w.jobs[r.job := w.jobs[r.job].(state := Done, node := r.node,
                                                            timeStart := r.time, timeEnd := w.clock)])
  {
  }

  /** Quitting is for the run's node; it stops the job and closes the run. */
  lemma QuitExactly(w: World, run: Pubkey, signer: Pubkey)
    requires Lifecycle(w)
    ensures QuitTx(w, run, signer).Ok? <==> run in w.runs && w.runs[run].node == signer
    ensures run in w.runs ==> w.runs[run].job in w.jobs
    ensures QuitTx(w, run, signer).Ok? ==>
              var k := w.runs[run].job;
              QuitTx(w, run, signer).value
              == w.(runs := w.runs - {run}, jobs := w.jobs[k := w.jobs[k].(state := Stopped)])
  {
    if run in w.runs {
      RunningJob(w, run);
    }
  }

  lemma QuitAdminExactly(w: World, run: Pubkey)
    ensures QuitAdminTx(w, run) == if run in w.runs then Ok(w.(runs := w.runs - {run})) else Abort
  {
  }

  // ---------------------------------------------------------------- jobs that are over

  /** Recovering pays the whole escrow of a stopped job to the wallet named, and removes the job. */
  lemma RecoverRefunds(w: World, k: Pubkey, signer: Pubkey, user: Pubkey)
    requires RecoverTx(w, k, signer, user).Ok?
    ensures k in w.jobs && w.jobs[k].project == signer
    ensures var w', j := RecoverTx(w, k, signer, user).value, w.jobs[k];
            && w' == w.(ledger := w'.ledger, jobs := w.jobs - {k})
            && Moved(w.ledger, w'.ledger, MarketVault(j.market), Wallet(user), EscrowOf(j))
  {
    var j := w.jobs[k];
    DepositIsEscrow(j);
    TransferMoves(w.ledger, MarketVault(j.market), Wallet(user), EscrowOf(j));
  }

  /** A missing result is added once, by the node of a done job. */
  lemma CompleteExactly(w: World, k: Pubkey, signer: Pubkey, result: nat)
    ensures CompleteTx(w, k, signer, result).Ok?
            <==> && k in w.jobs && w.jobs[k].state == Done && w.jobs[k].node == signer
                 && w.jobs[k].ipfsResult == 0 && result != 0
    ensures CompleteTx(w, k, signer, result).Ok? ==>
              CompleteTx(w, k, signer, result).value
              == w.(jobs := w.jobs[k := w.jobs[k].(ipfsResult := result)])
  {
  }

  /** A done job is cleaned up once it has been over for longer than the expiration of the market named. */
  lemma CleanExactly(w: World, k: Pubkey, m: Pubkey)
    ensures CleanTx(w, k, m).Ok?
            <==> && k in w.jobs && m in w.markets && w.jobs[k].state == Done
                 && I64_MIN <= w.clock - w.jobs[k].timeEnd <= I64_MAX
                 && w.markets[m].jobExpiration < w.clock - w.jobs[k].timeEnd
    ensures CleanTx(w, k, m).Ok? ==> CleanTx(w, k, m).value == w.(jobs := w.jobs - {k})
  {
  }

  // ---------------------------------------------------------------- from start to payment

  /** Run `r` stays open along the run. */
  ghost predicate OpenAlong(w: World, ops: seq<Op>, r: Pubkey)
    decreases |ops|
  {
    r in w.runs && (ops != [] ==> OpenAlong(Next(w, ops[0]), ops[1..], r))
  }

  /** While it is open, a run keeps its job, its node and its starting time. */
  lemma StepKeepsRun(w: World, op: Op, r: Pubkey)
    requires r in w.runs && r in Next(w, op).runs
    ensures Next(w, op).runs[r] == w.runs[r]
  {
  }

  lemma {:induction false} RunKeepsTerms(w: World, ops: seq<Op>, r: Pubkey)
    requires Accounted(w) && OpenAlong(w, ops, r)
    ensures Accounted(Run(w, ops)) && r in Run(w, ops).runs && Run(w, ops).runs[r] == w.runs[r]
    ensures w.runs[r].job in w.jobs && w.runs[r].job in Run(w, ops).jobs
    ensures var j, j' := w.jobs[w.runs[r].job], Run(w, ops).jobs[w.runs[r].job];
            && j'.payer == j.payer && j'.price == j.price && j'.market == j.market
            && j'.project == j.project && j.timeout <= j'.timeout
    decreases |ops|
  {
    RunningJob(w, r);
    if ops == [] {
    } else {
      var w' := Next(w, ops[0]);
      StepAccounted(w, ops[0]);
      StepKeepsRun(w, ops[0], r);
      StepMovesLegally(w, ops[0], w.runs[r].job);
      RunningJob(w', r);
      RunKeepsTerms(w', ops[1..], r);
    }
  }

  /**
    From start to payment: however the run was started, and whatever happens while it is open, finishing
    pays for the time since that start, by the price of the job and up to its timeout, and refunds the
    payer of the job.
    */
  lemma StartThenFinish(w: World, w1: World, ops: seq<Op>, run: Pubkey, k: Pubkey, node: Pubkey, payer: Pubkey,
                        result: nat, user: Pubkey)
    requires RunStarts(w, w1, run, k, node, payer) && Accounted(w1) && OpenAlong(w1, ops, run)
    requires FinishTx(Run(w1, ops), run, node, result, user).Ok?
    ensures k in w1.jobs && k in Run(w1, ops).jobs
    ensures var j, end := w1.jobs[k], Run(w1, ops);
            var terms := j.(timeout := end.jobs[k].timeout, state := Queued);
            && j.timeout <= terms.timeout
            && Pays(end.ledger, FinishTx(end, run, node, result, user).value.ledger, terms,
                    w.clock, end.clock, Wallet(user), Wallet(j.payer))
  {
    RunKeepsTerms(w1, ops, run);
    var end := Run(w1, ops);
    FinishPays(end, run, node, result, user);
    RunningJob(end, run);
    SamePay(end.ledger, FinishTx(end, run, node, result, user).value.ledger, end.jobs[k],
            w1.jobs[k].(timeout := end.jobs[k].timeout, state := Queued), w.clock, end.clock, Wallet(user),
            Wallet(w1.jobs[k].payer));
  }

  lemma SamePay(l: Ledger, l': Ledger, j: Job, terms: Job, start: int, now: int, node: Account, payer: Account)
    requires Pays(l, l', j, start, now, node, payer) && j.state == terms.state
    requires j.market == terms.market && j.price == terms.price && j.timeout == terms.timeout
    ensures Pays(l, l', terms, start, now, node, payer)
  {
  }

  /** A waiting job is taken, runs for some seconds, and is finished: the whole way in three steps. */
  lemma WorkTickFinish(w: World, m: Pubkey, run: Pubkey, node: Pubkey, xnos: u128, payer: Pubkey,
                       seconds: nat, result: nat, user: Pubkey) returns (end: World)
    requires Accounted(w) && WorkTx(w, m, run, node, xnos, payer).Ok? && w.markets[m].queueType == JobQueue
    requires w.clock + seconds <= I64_MAX
    ensures w.markets[m].queue != [] && w.markets[m].queue[0] in w.jobs
    ensures end == Next(WorkTx(w, m, run, node, xnos, payer).value, Tick(seconds))
    ensures end.ledger == w.ledger && end.clock == w.clock + seconds
    ensures FinishTx(end, run, node, result, user).Ok? ==>
              var j := w.jobs[w.markets[m].queue[0]];
              Pays(end.ledger, FinishTx(end, run, node, result, user).value.ledger, j,
                   w.clock, end.clock, Wallet(user), Wallet(j.payer))
  {
    end := WorkThenTick(w, m, run, node, xnos, payer, seconds);
    if FinishTx(end, run, node, result, user).Ok? {
      FinishPaysSince(end, run, node, result, user, w.jobs[w.markets[m].queue[0]], w.clock);
    }
  }

  lemma WorkThenTick(w: World, m: Pubkey, run: Pubkey, node: Pubkey, xnos: u128, payer: Pubkey, seconds: nat)
    returns (end: World)
    requires Accounted(w) && WorkTx(w, m, run, node, xnos, payer).Ok? && w.markets[m].queueType == JobQueue
    requires w.clock + seconds <= I64_MAX
    ensures end == Next(WorkTx(w, m, run, node, xnos, payer).value, Tick(seconds))
    ensures Accounted(end) && end.ledger == w.ledger && end.jobs == w.jobs && end.clock == w.clock + seconds
    ensures w.markets[m].queue != [] && w.markets[m].queue[0] in w.jobs
    ensures run in end.runs && end.runs[run].job == w.markets[m].queue[0] && end.runs[run].time == w.clock
  {
    var w1 := WorkTx(w, m, run, node, xnos, payer).value;
    assert Accounted(w1) by {
      assert Step(w, Work(m, run, node, xnos, payer)) == Ok(w1);
      StepAccounted(w, Work(m, run, node, xnos, payer));
    }
    WorkStarts(w, m, run, node, xnos, payer);
    RunningJob(w1, run);
    end := Next(w1, Tick(seconds));
    StepAccounted(w1, Tick(seconds));
  }

  lemma FinishPaysSince(w: World, run: Pubkey, node: Pubkey, result: nat, user: Pubkey, j: Job, start: i64)
    requires Accounted(w) && FinishTx(w, run, node, result, user).Ok? && run in w.runs && w.runs[run].time == start
    requires w.runs[run].job in w.jobs && w.jobs[w.runs[run].job] == j
    ensures Pays(w.ledger, FinishTx(w, run, node, result, user).value.ledger, j, start, w.clock,
                 Wallet(user), Wallet(j.payer))
  {
    FinishPays(w, run, node, result, user);
  }

  /** In numbers: price 7, timeout 10, taken at 1000 and finished at 1003: 21 for the node, 49 back. */
  lemma ThreeSeconds(j: Job, l: Ledger, l': Ledger)
    requires j.price == 7 && j.timeout == 10 && j.state == Queued
    requires Pays(l, l', j, 1000, 1003, Wallet(8), Wallet(3))
    ensures l'[Wallet(8)] == l[Wallet(8)] + 21 && l'[Wallet(3)] == l[Wallet(3)] + 49
  {
  }
}
