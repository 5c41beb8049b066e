/** What can become of a job: its legal moves, and when it is left where nothing can settle it. */
module JobFates {
  import opened Escrow
  import opened Jobs
  import opened Machine
  import opened Marketplace
  import opened Markets
  import opened Token

  // ---------------------------------------------------------------- jobs that nothing can settle

  /** A queued job that neither waits in its market's queue nor runs. */
  ghost predicate Stuck(w: World, k: Pubkey) {
    k in w.jobs && w.jobs[k].state == Queued && !Waiting(w, k) && Free(w, k)
  }

  /** The instructions that leave a queued job behind: an administrator's quit and an unknown job type. */
  predicate Strands(w: World, op: Op, k: Pubkey) {
    && Step(w, op).Ok?
    && ((op.QuitAdmin? && w.runs[op.run].job == k)
        || (op.List? && op.job == k && w.markets[op.market].queueType != NodeQueue
            && !Known(w.markets[op.market].jobType)))
  }

  // ---------------------------------------------------------------- fates

  /** Job `k` has the same account, the same place in the queues and the same runs. */
  ghost predicate SameFate(w: World, w': World, k: Pubkey) {
    && (k in w'.jobs <==> k in w.jobs) && (k in w.jobs ==> w'.jobs[k] == w.jobs[k])
    && (Waiting(w', k) <==> Waiting(w, k))
    && (Free(w', k) <==> Free(w, k))
  }

  predicate InJobQueue(mk: Market, k: Pubkey) {
    mk.queueType == JobQueue && k in mk.queue
  }

  /** The job an instruction is about, if any. */
  function OwnJob(w: World, op: Op): Option<Pubkey> {
    match op
    case List(_, job, _, _, _, _, _) => Some(job)
    case Assign(_, job, _, _, _, _, _, _) => Some(job)
    case Work(m, _, _, _, _) =>
      if m in w.markets && w.markets[m].queueType == JobQueue && w.markets[m].queue != []
      then Some(w.markets[m].queue[0]) else None
    case Delist(job, _) => Some(job)
    case Extend(job, _, _, _) => Some(job)
    case Recover(job, _, _) => Some(job)
    case Complete(job, _, _) => Some(job)
    case Clean(job, _) => Some(job)
    case Finish(run, _, _, _) => if run in w.runs then Some(w.runs[run].job) else None
    case End(run, _) => if run in w.runs then Some(w.runs[run].job) else None
    case Quit(run, _) => if run in w.runs then Some(w.runs[run].job) else None
    case QuitAdmin(run) => if run in w.runs then Some(w.runs[run].job) else None
    case _ => None
  }

  // ---------------------------------------------------------------- everyone else

  /** A market changes in a way that leaves `k` in or out of its job queue. */
  lemma MarketFate(w: World, w': World, m: Pubkey, k: Pubkey)
    requires Lifecycle(w) && m in w'.markets && w'.markets == w.markets[m := w'.markets[m]]
    requires (m in w.markets && InJobQueue(w.markets[m], k)) <==> InJobQueue(w'.markets[m], k)
    requires k in w'.jobs <==> k in w.jobs
    requires k in w.jobs ==> w'.jobs[k] == w.jobs[k]
    ensures Waiting(w', k) <==> Waiting(w, k)
  {
  }

  lemma FreeWithout(w: World, w': World, r: Pubkey, k: Pubkey)
    requires r in w.runs && w.runs[r].job != k && w'.runs == w.runs - {r}
    ensures Free(w', k) <==> Free(w, k)
  {
    forall s | s in w.runs && w.runs[s].job == k ensures s in w'.runs && w'.runs[s].job == k {
    }
  }

  lemma FreeWith(w: World, w': World, r: Pubkey, k: Pubkey)
    requires r !in w.runs && r in w'.runs && w'.runs[r].job != k && w'.runs == w.runs[r := w'.runs[r]]
    ensures Free(w', k) <==> Free(w, k)
  {
    forall s | s in w.runs && w.runs[s].job == k ensures s in w'.runs && w'.runs[s].job == k {
    }
  }

  lemma MarketOpFate(w: World, op: Op, k: Pubkey)
    requires Lifecycle(w) && Step(w, op).Ok? && (op.Open? || op.Update? || op.Stop?)
    ensures SameFate(w, Next(w, op), k)
  {
    var w' := Next(w, op);
    if op.Open? {
      if Waiting(w', k) {
        assert JobOk(w, k);
      }
    } else {
      assert MarketOk(w, op.market);
      if op.Stop? {
        RemovedShaped(w.markets[op.market], op.node);
      }
    }
    MarketFate(w, w', op.market, k);
  }

  lemma ListFate(w: World, op: Op, k: Pubkey)
    requires Lifecycle(w) && Step(w, op).Ok? && op.List? && op.job != k
    ensures SameFate(w, Next(w, op), k)
  {
    ListCreates(w, op);
    var w' := Next(w, op);
    var mk, mk' := w.markets[op.market], w'.markets[op.market];
    assert MarketOk(w, op.market);
    if mk.queueType == NodeQueue {
      PoppedShaped(mk);
    }
    assert InJobQueue(mk, k) <==> InJobQueue(mk', k);
    MarketFate(w, w', op.market, k);
    if w'.runs != w.runs {
      FreeWith(w, w', op.run, k);
    }
  }

  lemma AssignFate(w: World, op: Op, k: Pubkey)
    requires Lifecycle(w) && Step(w, op).Ok? && op.Assign? && op.job != k
    ensures SameFate(w, Next(w, op), k)
  {
    var w' := Next(w, op);
    assert MarketOk(w, op.market);
    RemovedShaped(w.markets[op.market], op.node);
    MarketFate(w, w', op.market, k);
    FreeWith(w, w', op.run, k);
  }

  lemma WorkFate(w: World, op: Op, k: Pubkey)
    requires Lifecycle(w) && Step(w, op).Ok? && op.Work? && OwnJob(w, op) != Some(k)
    ensures SameFate(w, Next(w, op), k)
  {
    var w' := Next(w, op);
    var mk, mk' := w.markets[op.market], w'.markets[op.market];
    assert MarketOk(w, op.market);
    if mk.queueType == JobQueue {
      PoppedShaped(mk);
      FreeWith(w, w', op.run, k);
    }
    assert InJobQueue(mk, k) <==> InJobQueue(mk', k);
    MarketFate(w, w', op.market, k);
  }

  lemma DelistFate(w: World, op: Op, k: Pubkey)
    requires Lifecycle(w) && Step(w, op).Ok? && op.Delist? && op.job != k
    ensures SameFate(w, Next(w, op), k)
  {
    var m := w.jobs[op.job].market;
    assert MarketOk(w, m);
    RemovedShaped(w.markets[m], op.job);
    MarketFate(w, Next(w, op), m, k);
  }

  lemma CloseRunFate(w: World, op: Op, k: Pubkey)
    requires Lifecycle(w) && Step(w, op).Ok? && (op.Finish? || op.End? || op.Quit? || op.QuitAdmin?)
    requires OwnJob(w, op) != Some(k)
    ensures SameFate(w, Next(w, op), k)
  {
    RunningJob(w, op.run);
    RunCloses(w, op);
    FreeWithout(w, Next(w, op), op.run, k);
  }

  lemma JobOnlyFate(w: World, op: Op, k: Pubkey)
    requires Step(w, op).Ok?
    requires op.Tick? || op.Send?
             || ((op.Extend? || op.Recover? || op.Complete? || op.Clean?) && op.job != k)
    ensures SameFate(w, Next(w, op), k)
  {
  }

  /** An instruction about one job leaves the fate of every other job as it was. */
  lemma OthersKeepFate(w: World, op: Op, k: Pubkey)
    requires Lifecycle(w) && OwnJob(w, op) != Some(k)
    ensures SameFate(w, Next(w, op), k)
  {
    if Step(w, op).Ok? {
      if op.Open? || op.Update? || op.Stop? {
        MarketOpFate(w, op, k);
      } else if op.List? {
        ListFate(w, op, k);
      } else if op.Assign? {
        AssignFate(w, op, k);
      } else if op.Work? {
        WorkFate(w, op, k);
      } else if op.Delist? {
        DelistFate(w, op, k);
      } else if op.Finish? || op.End? || op.Quit? || op.QuitAdmin? {
        CloseRunFate(w, op, k);
      } else {
        JobOnlyFate(w, op, k);
      }
    }
  }

  // ---------------------------------------------------------------- the job itself

  /** A job just listed waits in the queue or runs, unless its market's job type is unknown. */
  lemma ListedFate(w: World, op: Op)
    requires Lifecycle(w) && Step(w, op).Ok? && (op.List? || op.Assign?)
    ensures !Stuck(w, op.job)
    ensures Stuck(Next(w, op), op.job) <==> Strands(w, op, op.job)
  {
    var w' := Next(w, op);
    FreshUnknown(w, op.job);
    if op.Assign? {
      assert w'.runs[op.run].job == op.job;
    } else {
      ListCreates(w, op);
      if w.markets[op.market].queueType == NodeQueue {
        assert w'.runs[op.run].job == op.job;
      } else {
        assert Free(w', op.job);
      }
    }
  }

  lemma WorkedFate(w: World, op: Op, k: Pubkey)
    requires Lifecycle(w) && Step(w, op).Ok? && op.Work? && OwnJob(w, op) == Some(k)
    ensures Waiting(w, k) && !Free(Next(w, op), k)
  {
    assert MarketOk(w, op.market);
    assert EntryOk(w, op.market, k);
    assert Next(w, op).runs[op.run].job == k;
  }

  /** The job of a run is free once the run is closed. */
  lemma OneRunClosed(w: World, w': World, r: Pubkey)
    requires Lifecycle(w) && r in w.runs && w'.runs == w.runs - {r}
    ensures !Free(w, w.runs[r].job) && Free(w', w.runs[r].job)
  {
    assert RunOk(w, r);
  }

  lemma ClosedRunFate(w: World, op: Op, k: Pubkey)
    requires Lifecycle(w) && Step(w, op).Ok? && (op.Finish? || op.End? || op.Quit? || op.QuitAdmin?)
    requires OwnJob(w, op) == Some(k)
    ensures !Stuck(w, k)
    ensures Stuck(Next(w, op), k) <==> op.QuitAdmin?
  {
    RunningJob(w, op.run);
    RunCloses(w, op);
    OneRunClosed(w, Next(w, op), op.run);
  }

  lemma LoneJobFate(w: World, op: Op, k: Pubkey)
    requires Step(w, op).Ok? && OwnJob(w, op) == Some(k)
    requires op.Extend? || op.Recover? || op.Complete? || op.Clean?
    ensures Stuck(Next(w, op), k) <==> Stuck(w, k)
  {
  }

  lemma OwnJobFate(w: World, op: Op, k: Pubkey)
    requires Lifecycle(w) && Step(w, op).Ok? && OwnJob(w, op) == Some(k)
    ensures Stuck(Next(w, op), k) <==> Stuck(w, k) || Strands(w, op, k)
  {
    if op.List? || op.Assign? {
      ListedFate(w, op);
    } else if op.Work? {
      WorkedFate(w, op, k);
    } else if op.Finish? || op.End? || op.Quit? || op.QuitAdmin? {
      ClosedRunFate(w, op, k);
    } else if op.Delist? {
      DelistLives(w, op);
    } else {
      LoneJobFate(w, op, k);
    }
  }

  /**
    A job is stuck after an instruction exactly if it was stuck before or the instruction stranded
    it: no instruction frees a stuck job, and only an administrator's quit or a listing under an
    unknown job type strands one.
    */
  lemma StuckExactly(w: World, op: Op, k: Pubkey)
    requires Lifecycle(w)
    ensures Stuck(Next(w, op), k) <==> Stuck(w, k) || Strands(w, op, k)
  {
    if Step(w, op).Ok? {
      if OwnJob(w, op) == Some(k) {
        OwnJobFate(w, op, k);
      } else {
        OthersKeepFate(w, op, k);
      }
    }
  }

  ghost predicate StrandedIn(w: World, ops: seq<Op>, k: Pubkey)
    decreases |ops|
  {
    ops != [] && (Strands(w, ops[0], k) || StrandedIn(Next(w, ops[0]), ops[1..], k))
  }

  /** Over a whole run a job ends up stuck exactly if some step stranded it, or it was stuck already. */
  lemma {:induction false} RunStuckExactly(w: World, ops: seq<Op>, k: Pubkey)
    requires Lifecycle(w)
    ensures Stuck(Run(w, ops), k) <==> Stuck(w, k) || StrandedIn(w, ops, k)
    decreases |ops|
  {
    if ops == [] {
    } else {
      StuckExactly(w, ops[0], k);
      StepLives(w, ops[0]);
      RunStuckExactly(Next(w, ops[0]), ops[1..], k);
    }
  }

  /** Without stranding steps, every queued job of a run from the start is waiting or running. */
  lemma RunLeavesNoneStuck(w: World, ops: seq<Op>, k: Pubkey)
    requires Escrow.Initial(w) && !StrandedIn(w, ops, k)
    ensures var end := Run(w, ops);
            k in end.jobs && end.jobs[k].state == Queued ==> (Waiting(end, k) <==> Free(end, k))
  {
    RunStuckExactly(w, ops, k);
    RunLives(w, ops);
    var end := Run(w, ops);
    if k in end.jobs && Waiting(end, k) {
      assert MarketOk(end, end.jobs[k].market);
      assert EntryOk(end, end.jobs[k].market, k);
    }
  }

  // ---------------------------------------------------------------- cases in numbers

  /** From a fresh program: market 1 opens, node 8 works, and project 9 lists job 2, which run 4 takes. */
  function Started(price: u64, timeout: i64): World {
    var start := World(0, map[Wallet(3) := 100], map[], map[], map[], map[]);
    var market := Next(start, Open(1, 0, 0, price, 0, 0));
    var waiting := Next(market, Work(1, 5, 8, 0, 3));
    Next(waiting, List(1, 2, 4, 3, 9, 6, timeout))
  }

  lemma StartedRuns(price: u64, timeout: i64)
    requires if price == 0 then true else 0 <= timeout && price * timeout <= 100
    ensures var w := Started(price, timeout);
            && w.markets == map[1 := Market(0, 0, price, 0, 0, EmptyQueue, [])]
            && w.jobs == map[2 := Created(6, 1, 3, price, 9, timeout)]
            && w.runs == map[4 := RunRecord(2, 8, 3, 0)]
            && MarketVault(1) in w.ledger && w.ledger[MarketVault(1)] == price * timeout
  {
    var start := World(0, map[Wallet(3) := 100], map[], map[], map[], map[]);
    var market := Next(start, Open(1, 0, 0, price, 0, 0));
    assert market.markets == map[1 := Market(0, 0, price, 0, 0, EmptyQueue, [])];
    assert market.ledger == map[Wallet(3) := 100, MarketVault(1) := 0];
    var waiting := Next(market, Work(1, 5, 8, 0, 3));
    assert Worked(market.markets[1], 8) == Ok((Market(0, 0, price, 0, 0, NodeQueue, [8]), None)) by {
      assert [] + [8] == [8];
    }
    assert waiting == market.(markets := map[1 := Market(0, 0, price, 0, 0, NodeQueue, [8])]);
    ListTakesNode(waiting, price, timeout);
  }

  lemma ListTakesNode(w: World, price: u64, timeout: i64)
    requires if price == 0 then true else 0 <= timeout && price * timeout <= 100
    requires w.clock == 0 && w.markets == map[1 := Market(0, 0, price, 0, 0, NodeQueue, [8])]
    requires w.jobs == map[] && w.runs == map[]
    requires w.ledger == map[Wallet(3) := 100, MarketVault(1) := 0]
    ensures var w' := Next(w, List(1, 2, 4, 3, 9, 6, timeout));
            && w'.markets == map[1 := Market(0, 0, price, 0, 0, EmptyQueue, [])]
            && w'.jobs == map[2 := Created(6, 1, 3, price, 9, timeout)]
            && w'.runs == map[4 := RunRecord(2, 8, 3, 0)]
            && MarketVault(1) in w'.ledger && w'.ledger[MarketVault(1)] == price * timeout
  {
    if price != 0 {
      assert Deposit(price, timeout) == Ok(price * timeout);
    }
    assert PaidIn(price, timeout, w.ledger, Wallet(3), MarketVault(1)).Ok?;
    assert [8][1..] == [];
  }

  /** An administrator's quit leaves a job of price 7 and timeout 10 stuck with its escrow of 70. */
  lemma QuitAdminStrands()
    ensures var end := Next(Started(7, 10), QuitAdmin(4));
            && Stuck(end, 2) && EscrowOf(end.jobs[2]) == 70
            && MarketVault(1) in end.ledger && end.ledger[MarketVault(1)] == 70
  {
    StartedRuns(7, 10);
    OnlyRunClosed(Started(7, 10));
  }

  lemma OnlyRunClosed(w: World)
    requires w.markets == map[1 := Market(0, 0, 7, 0, 0, EmptyQueue, [])]
    requires w.jobs == map[2 := Created(6, 1, 3, 7, 9, 10)] && w.runs == map[4 := RunRecord(2, 8, 3, 0)]
    ensures var end := Next(w, QuitAdmin(4));
            Stuck(end, 2) && EscrowOf(end.jobs[2]) == 70 && end.ledger == w.ledger
  {
    assert Next(w, QuitAdmin(4)).runs == map[];
  }

  /** A free job listed with a timeout of -1 and stopped by its node is never recovered. */
  lemma FreeJobNotRecovered(signer: Pubkey, user: Pubkey)
    ensures var stopped := Next(Started(0, -1), Quit(4, 8));
            && 2 in stopped.jobs && stopped.jobs[2].state == Stopped
            && Step(stopped, Recover(2, signer, user)).Abort?
  {
    StartedRuns(0, -1);
    StoppedNotRecovered(Started(0, -1), signer, user);
  }

  lemma StoppedNotRecovered(w: World, signer: Pubkey, user: Pubkey)
    requires w.jobs == map[2 := Created(6, 1, 3, 0, 9, -1)] && w.runs == map[4 := RunRecord(2, 8, 3, 0)]
    ensures var stopped := Next(w, Quit(4, 8));
            && 2 in stopped.jobs && stopped.jobs[2].state == Stopped
            && Step(stopped, Recover(2, signer, user)).Abort?
  {
  }

  /** A job listed in a market of the unknown type 5 is paid for, and stuck at once with its escrow. */
  lemma UnknownTypeStrands()
    ensures var start := World(0, map[Wallet(3) := 100], map[], map[], map[], map[]);
            var market := Next(start, Open(1, 0, 0, 7, 5, 0));
            var end := Next(market, List(1, 2, 4, 3, 9, 6, 10));
            Stuck(end, 2) && EscrowOf(end.jobs[2]) == 70 && MarketVault(1) in end.ledger
            && end.ledger[MarketVault(1)] == 70
  {
    var start := World(0, map[Wallet(3) := 100], map[], map[], map[], map[]);
    var market := Next(start, Open(1, 0, 0, 7, 5, 0));
    assert market.markets == map[1 := Market(0, 0, 7, 127, 0, EmptyQueue, [])];
    assert market.ledger == map[Wallet(3) := 100, MarketVault(1) := 0];
    assert Deposit(7, 10) == Ok(70);
    var l := market.ledger[Wallet(3) := 30][MarketVault(1) := 70];
    assert PaidIn(7, 10, market.ledger, Wallet(3), MarketVault(1)) == Ok(l);
    assert Listed(market.markets[1], 2) == Ok((market.markets[1], None));
    var end := Next(market, List(1, 2, 4, 3, 9, 6, 10));
    assert end.jobs == map[2 := Created(6, 1, 3, 7, 9, 10)];
  }

  // ---------------------------------------------------------------- legal moves

  /** The moves of one job: what never changes, where its state may go, and when its account may close. */
  ghost predicate LegalMove(w: World, w': World, k: Pubkey) {
    k in w.jobs ==>
      if k in w'.jobs then
        var j, j' := w.jobs[k], w'.jobs[k];
        && j'.market == j.market && j'.payer == j.payer && j'.project == j.project
        && j'.price == j.price && j.timeout <= j'.timeout
        && (j.state == Done ==> j' == j.(ipfsResult := j'.ipfsResult))
        && (j.state == Stopped ==> j' == j)
        && (j.state == Queued && j'.state != Queued ==> !Free(w, k) && Free(w', k))
      else
        w.jobs[k].state != Queued || Waiting(w, k)
  }

  lemma QueuedJobMovesLegally(w: World, op: Op, k: Pubkey)
    requires Lifecycle(w) && Step(w, op).Ok? && OwnJob(w, op) == Some(k)
    requires op.List? || op.Assign? || op.Work? || op.Delist?
    ensures LegalMove(w, Next(w, op), k)
  {
    if op.Delist? {
      DelistLives(w, op);
    }
  }

  lemma LoneJobMovesLegally(w: World, op: Op, k: Pubkey)
    requires Step(w, op).Ok? && OwnJob(w, op) == Some(k)
    requires op.Extend? || op.Recover? || op.Complete? || op.Clean?
    ensures LegalMove(w, Next(w, op), k)
  {
  }

  /** A done job is never paid for again, and a queued one leaves that state only as its run closes. */
  lemma StepMovesLegally(w: World, op: Op, k: Pubkey)
    requires Lifecycle(w)
    ensures LegalMove(w, Next(w, op), k)
  {
    if Step(w, op).Ok? {
      if OwnJob(w, op) != Some(k) {
        OthersKeepFate(w, op, k);
      } else if op.Finish? || op.End? || op.Quit? || op.QuitAdmin? {
        RunningJob(w, op.run);
        RunCloses(w, op);
        OneRunClosed(w, Next(w, op), op.run);
      } else if op.List? || op.Assign? || op.Work? || op.Delist? {
        QueuedJobMovesLegally(w, op, k);
      } else {
        LoneJobMovesLegally(w, op, k);
      }
    }
  }

  // ---------------------------------------------------------------- the queue machine

  /** What an instruction means to the queue of its market. */
  function EventOf(op: Op): Event
    requires op.List? || op.Assign? || op.Work? || op.Stop? || op.Delist?
  {
    match op
    case List(_, job, _, _, _, _, _) => JobArrives(job)
    case Assign(_, _, _, node, _, _, _, _) => NodeLeaves(node)
    case Work(_, _, node, _, _) => NodeArrives(node)
    case Stop(_, node, _) => NodeLeaves(node)
    case Delist(job, _) => JobLeaves(job)
  }

  /**
    The market of an instruction takes the step of the tagged queue, and a run is created exactly for
    a match, with the same job and node.
    */
  lemma StepIsMarketStep(w: World, op: Op)
    requires Lifecycle(w) && Step(w, op).Ok?
    requires op.List? || op.Work?
    ensures var w' := Next(w, op);
            && op.market in w.markets && MarketStep(w.markets[op.market], EventOf(op)).Ok?
            && var (mk, matches) := MarketStep(w.markets[op.market], EventOf(op)).value;
               && w'.markets == w.markets[op.market := mk]
               && (matches == [] <==> w'.runs == w.runs)
               && (matches != [] ==> op.run in w'.runs)
               && (matches != [] ==> matches == [Match(w'.runs[op.run].job, w'.runs[op.run].node)])
  {
    if op.List? {
      FreshUnknown(w, op.job);
    }
    assert MarketOk(w, op.market);
  }

  /** Leaving the queue, by delisting, stopping or being assigned, is the tagged queue's removal. */
  lemma StepIsRemoval(w: World, op: Op)
    requires Step(w, op).Ok?
    requires op.Assign? || op.Stop? || op.Delist?
    ensures op.Delist? ==> op.job in w.jobs
    ensures var m := if op.Delist? then w.jobs[op.job].market else op.market;
            && m in w.markets && MarketStep(w.markets[m], EventOf(op)).Ok?
            && Next(w, op).markets == w.markets[m := MarketStep(w.markets[m], EventOf(op)).value.0]
  {
  }
}
