/**
  The jobs program on one ledger: any number of markets, jobs and runs. Every instruction is one
  atomic step; an aborted instruction changes nothing.
  */
module Marketplace {
  import opened Jobs
  import opened Machine
  import opened Markets
  import opened Sequences
  import opened Token

  /** `gifts` records, per market, what outsiders have sent to its vault; it is not program state. */
  datatype World = World(
    clock: i64,
    ledger: Ledger,
    markets: map<Pubkey, Market>,
    jobs: map<Pubkey, Job>,
    runs: map<Pubkey, RunRecord>,
    gifts: map<Pubkey, nat>)

  datatype Op =
    | Tick(seconds: nat)
    | Send(from: Pubkey, to: Account, amount: u64)
    | Open(market: Pubkey, signer: Pubkey, expiration: i64, price: u64, jobType: u8, minimum: u128)
    | Update(market: Pubkey, signer: Pubkey, expiration: i64, price: u64, jobType: u8, minimum: u128)
    | List(market: Pubkey, job: Pubkey, run: Pubkey, payer: Pubkey, project: Pubkey, ipfsJob: nat, timeout: i64)
    | Assign(market: Pubkey, job: Pubkey, run: Pubkey, node: Pubkey, payer: Pubkey, project: Pubkey,
             ipfsJob: nat, timeout: i64)
    | Work(market: Pubkey, run: Pubkey, node: Pubkey, xnos: u128, payer: Pubkey)
    | Stop(market: Pubkey, node: Pubkey, signer: Pubkey)
    | Delist(job: Pubkey, signer: Pubkey)
    | Extend(job: Pubkey, signer: Pubkey, payer: Pubkey, timeout: i64)
    | Finish(run: Pubkey, signer: Pubkey, result: nat, user: Pubkey)
    | End(run: Pubkey, signer: Pubkey)
    | Quit(run: Pubkey, signer: Pubkey)
    | QuitAdmin(run: Pubkey)
    | Recover(job: Pubkey, signer: Pubkey, user: Pubkey)
    | Complete(job: Pubkey, signer: Pubkey, result: nat)
    | Clean(job: Pubkey, market: Pubkey)

  // ---------------------------------------------------------------- steps

  /** No account of the program lives at this key, so one can be created there. */
  predicate Fresh(w: World, k: Pubkey) {
    k !in w.markets && k !in w.jobs && k !in w.runs
  }

  function TickTx(w: World, seconds: nat): Result<World> {
    var now :- ToI64(w.clock + seconds);
    Ok(w.(clock := now))
  }

  function SendTx(w: World, from: Pubkey, to: Account, amount: u64): Result<World> {
    var l :- Transferred(w.ledger, Wallet(from), to, amount);
    if to.MarketVault? && to.market in w.gifts
    then Ok(w.(ledger := l, gifts := w.gifts[to.market := w.gifts[to.market] + amount]))
    else Ok(w.(ledger := l))
  }

  function OpenTx(w: World, m: Pubkey, signer: Pubkey, expiration: i64, price: u64, jobType: u8, minimum: u128)
    : Result<World>
  {
    var _ :- Guard(Fresh(w, m) && MarketVault(m) !in w.ledger);
    Ok(w.(markets := w.markets[m := Opened(signer, expiration, price, jobType, minimum)],
          ledger := w.ledger[MarketVault(m) := 0], gifts := w.gifts[m := 0]))
  }

  function UpdateTx(w: World, m: Pubkey, signer: Pubkey, expiration: i64, price: u64, jobType: u8, minimum: u128)
    : Result<World>
  {
    var _ :- Guard(m in w.markets && w.markets[m].authority == signer);
    Ok(w.(markets := w.markets[m := Updated(w.markets[m], expiration, price, jobType, minimum)]))
  }

  function ListTx(w: World, m: Pubkey, job: Pubkey, run: Pubkey, payer: Pubkey, project: Pubkey,
                  ipfsJob: nat, timeout: i64)
    : Result<World>
  {
    var _ :- Guard(m in w.markets && Fresh(w, job) && Fresh(w, run) && job != run);
    var (mk, j, r, l) :- JobListed(w.markets[m], m, job, ipfsJob, payer, project, timeout, w.clock,
                                   w.ledger, Wallet(payer), MarketVault(m));
    Ok(w.(ledger := l, markets := w.markets[m := mk], jobs := w.jobs[job := j],
          runs := if r.Some? then w.runs[run := r.value] else w.runs))
  }

  function AssignTx(w: World, m: Pubkey, job: Pubkey, run: Pubkey, node: Pubkey, payer: Pubkey,
                    project: Pubkey, ipfsJob: nat, timeout: i64)
    : Result<World>
  {
    var _ :- Guard(m in w.markets && Fresh(w, job) && Fresh(w, run) && job != run);
    var (mk, j, r, l) :- JobAssigned(w.markets[m], m, job, ipfsJob, node, payer, project, timeout, w.clock,
                                     w.ledger, Wallet(payer), MarketVault(m));
    Ok(w.(ledger := l, markets := w.markets[m := mk], jobs := w.jobs[job := j], runs := w.runs[run := r]))
  }

  function WorkTx(w: World, m: Pubkey, run: Pubkey, node: Pubkey, xnos: u128, payer: Pubkey): Result<World> {
    var _ :- Guard(m in w.markets && Fresh(w, run));
    var (mk, r) :- NodeWorking(w.markets[m], node, xnos, payer, w.clock);
    Ok(w.(markets := w.markets[m := mk], runs := if r.Some? then w.runs[run := r.value] else w.runs))
  }

  function StopTx(w: World, m: Pubkey, node: Pubkey, signer: Pubkey): Result<World> {
    var _ :- Guard(m in w.markets && (w.markets[m].authority == signer || node == signer));
    var mk :- NodeRemoved(w.markets[m], node);
    Ok(w.(markets := w.markets[m := mk]))
  }

  function DelistTx(w: World, job: Pubkey, signer: Pubkey): Result<World> {
    var _ :- Guard(job in w.jobs && w.jobs[job].market in w.markets);
    var j := w.jobs[job];
    var (mk, l) :- JobDelisted(w.markets[j.market], job, j, signer, w.ledger, MarketVault(j.market), Wallet(j.payer));
    Ok(w.(ledger := l, markets := w.markets[j.market := mk], jobs := w.jobs - {job}))
  }

  function ExtendTx(w: World, job: Pubkey, signer: Pubkey, payer: Pubkey, timeout: i64): Result<World> {
    var _ :- Guard(job in w.jobs);
    var j := w.jobs[job];
    var (j', l) :- JobExtended(j, signer, payer, timeout, w.ledger, Wallet(payer), MarketVault(j.market));
    Ok(w.(ledger := l, jobs := w.jobs[job := j']))
  }

  function FinishTx(w: World, run: Pubkey, signer: Pubkey, result: nat, user: Pubkey): Result<World> {
    var _ :- Guard(run in w.runs && w.runs[run].job in w.jobs);
    var r := w.runs[run];
    var j := w.jobs[r.job];
    var (j', l) :- JobFinished(j, r, result, signer, w.clock, w.ledger, MarketVault(j.market), Wallet(user),
                               Wallet(j.payer));
    Ok(w.(ledger := l, jobs := w.jobs[r.job := j'], runs := w.runs - {run}))
  }

  function EndTx(w: World, run: Pubkey, signer: Pubkey): Result<World> {
    var _ :- Guard(run in w.runs && w.runs[run].job in w.jobs);
    var r := w.runs[run];
    var j := w.jobs[r.job];
    var (j', l) :- JobEnded(j, r, signer, w.clock, w.ledger, MarketVault(j.market), Wallet(r.node), Wallet(j.payer));
    Ok(w.(ledger := l, jobs := w.jobs[r.job := j'], runs := w.runs - {run}))
  }

  function QuitTx(w: World, run: Pubkey, signer: Pubkey): Result<World> {
    var _ :- Guard(run in w.runs && w.runs[run].job in w.jobs);
    var r := w.runs[run];
    var j :- JobQuit(w.jobs[r.job], r, signer);
    Ok(w.(jobs := w.jobs[r.job := j], runs := w.runs - {run}))
  }

  /** The market administrator closes a run without touching its job. */
  function QuitAdminTx(w: World, run: Pubkey): Result<World> {
    var _ :- Guard(run in w.runs);
    Ok(w.(runs := w.runs - {run}))
  }

  function RecoverTx(w: World, job: Pubkey, signer: Pubkey, user: Pubkey): Result<World> {
    var _ :- Guard(job in w.jobs);
    var j := w.jobs[job];
    var l :- JobRecovered(j, signer, w.ledger, MarketVault(j.market), Wallet(user));
    Ok(w.(ledger := l, jobs := w.jobs - {job}))
  }

  function CompleteTx(w: World, job: Pubkey, signer: Pubkey, result: nat): Result<World> {
    var _ :- Guard(job in w.jobs);
    var j :- JobCompleted(w.jobs[job], signer, result);
    Ok(w.(jobs := w.jobs[job := j]))
  }

  function CleanTx(w: World, job: Pubkey, m: Pubkey): Result<World> {
    var _ :- Guard(job in w.jobs && m in w.markets && w.jobs[job].state == Done);
    var age :- ToI64(w.clock - w.jobs[job].timeEnd);
    var _ :- Guard(w.markets[m].jobExpiration < age);
    Ok(w.(jobs := w.jobs - {job}))
  }

  function Step(w: World, op: Op): Result<World> {
    match op
    case Tick(seconds) => TickTx(w, seconds)
    case Send(from, to, amount) => SendTx(w, from, to, amount)
    case Open(m, signer, expiration, price, jobType, minimum) =>
      OpenTx(w, m, signer, expiration, price, jobType, minimum)
    case Update(m, signer, expiration, price, jobType, minimum) =>
      UpdateTx(w, m, signer, expiration, price, jobType, minimum)
    case List(m, job, run, payer, project, ipfsJob, timeout) =>
      ListTx(w, m, job, run, payer, project, ipfsJob, timeout)
    case Assign(m, job, run, node, payer, project, ipfsJob, timeout) =>
      AssignTx(w, m, job, run, node, payer, project, ipfsJob, timeout)
    case Work(m, run, node, xnos, payer) => WorkTx(w, m, run, node, xnos, payer)
    case Stop(m, node, signer) => StopTx(w, m, node, signer)
    case Delist(job, signer) => DelistTx(w, job, signer)
    case Extend(job, signer, payer, timeout) => ExtendTx(w, job, signer, payer, timeout)
    case Finish(run, signer, result, user) => FinishTx(w, run, signer, result, user)
    case End(run, signer) => EndTx(w, run, signer)
    case Quit(run, signer) => QuitTx(w, run, signer)
    case QuitAdmin(run) => QuitAdminTx(w, run)
    case Recover(job, signer, user) => RecoverTx(w, job, signer, user)
    case Complete(job, signer, result) => CompleteTx(w, job, signer, result)
    case Clean(job, m) => CleanTx(w, job, m)
  }

  function Next(w: World, op: Op): World {
    match Step(w, op)
    case Ok(w') => w'
    case Abort => w
  }

  function Run(w: World, ops: seq<Op>): World
    decreases |ops|
  {
    if ops == [] then w else Run(Next(w, ops[0]), ops[1..])
  }

  // ---------------------------------------------------------------- lifecycle invariant

  /** No run works on job `k`. */
  ghost predicate Free(w: World, k: Pubkey) {
    forall r | r in w.runs :: w.runs[r].job != k
  }

  /** A waiting job exists, is queued, belongs to its market and is not running. */
  ghost predicate EntryOk(w: World, m: Pubkey, k: Pubkey) {
    k in w.jobs && w.jobs[k].market == m && w.jobs[k].state == Queued && Free(w, k)
  }

  predicate Shaped(mk: Market) {
    (mk.queueType == EmptyQueue <==> mk.queue == []) && Distinct(mk.queue)
  }

  ghost predicate MarketOk(w: World, m: Pubkey) {
    && m in w.markets && Shaped(w.markets[m])
    && (w.markets[m].queueType == JobQueue ==> forall k | k in w.markets[m].queue :: EntryOk(w, m, k))
  }

  /** A run works on a queued job that no other run works on. */
  ghost predicate RunOk(w: World, r: Pubkey) {
    && r in w.runs && w.runs[r].job in w.jobs && w.jobs[w.runs[r].job].state == Queued
    && 0 <= w.runs[r].time <= w.clock
    && forall s | s in w.runs && s != r :: w.runs[s].job != w.runs[r].job
  }

  predicate JobOk(w: World, k: Pubkey) {
    && k in w.jobs && w.jobs[k].market in w.markets
    && (0 < w.jobs[k].price && w.jobs[k].state != Done ==> 0 <= w.jobs[k].timeout)
  }

  ghost predicate Lifecycle(w: World) {
    && 0 <= w.clock
    && (forall m | m in w.markets :: MarketOk(w, m))
    && (forall r | r in w.runs :: RunOk(w, r))
    && (forall k | k in w.jobs :: JobOk(w, k))
  }

  /** Job `k` waits in the queue of its market. */
  predicate Waiting(w: World, k: Pubkey) {
    && k in w.jobs && w.jobs[k].market in w.markets
    && w.markets[w.jobs[k].market].queueType == JobQueue
    && k in w.markets[w.jobs[k].market].queue
  }

  lemma RemovedShaped(mk: Market, key: Pubkey)
    requires Shaped(mk) && RemovedFromQueue(mk, key).Ok?
    ensures var mk' := RemovedFromQueue(mk, key).value;
            && Shaped(mk') && key in mk.queue && key !in mk'.queue
            && (forall k :: k in mk'.queue <==> k in mk.queue && k != key)
            && (mk'.queueType == mk.queueType || mk'.queueType == EmptyQueue)
            && mk' == mk.(queue := mk'.queue, queueType := mk'.queueType)
  {
    var i := Position(mk.queue, key).value;
    var rest := Without(mk.queue, i);
    forall j | 0 <= j < |rest| ensures rest[j] == mk.queue[if j < i then j else j + 1] {
      WithoutAt(mk.queue, i, j);
    }
    forall k | k in mk.queue && k != key ensures k in rest {
      StaysWithout(mk.queue, i, k);
    }
  }

  lemma PoppedShaped(mk: Market)
    requires Shaped(mk) && PoppedFromQueue(mk).Ok?
    ensures var (mk', key) := PoppedFromQueue(mk).value;
            && Shaped(mk') && key in mk.queue && key !in mk'.queue
            && (forall k :: k in mk'.queue <==> k in mk.queue && k != key)
            && (mk'.queueType == mk.queueType || mk'.queueType == EmptyQueue)
            && mk' == mk.(queue := mk'.queue, queueType := mk'.queueType)
  {
    assert mk.queue == [mk.queue[0]] + mk.queue[1..];
  }

  lemma AddedShaped(mk: Market, key: Pubkey, isJob: bool)
    requires Shaped(mk) && key !in mk.queue
    ensures Shaped(AddedToQueue(mk, key, isJob))
  {
  }

  /** The jobs differ at most in job `k`. */
  predicate OnlyJob(w: World, w': World, k: Pubkey) {
    w'.jobs == w.jobs - {k} || (k in w'.jobs && w'.jobs == w.jobs[k := w'.jobs[k]])
  }

  /**
    One job is created, changed or dropped, while some runs close. It must stay queued in its market
    if it is waiting, or if a run still works on it.
    */
  lemma OneJobLives(w: World, w': World, k: Pubkey, closed: set<Pubkey>)
    requires Lifecycle(w)
    requires w'.clock == w.clock && w'.markets == w.markets && w'.runs == w.runs - closed
    requires OnlyJob(w, w', k)
    requires k in w'.jobs ==> JobOk(w', k)
    requires Waiting(w, k) || !Free(w', k) ==>
               k in w'.jobs && w'.jobs[k].state == Queued
               && (k in w.jobs ==> w'.jobs[k].market == w.jobs[k].market)
    ensures Lifecycle(w')
  {
    forall m | m in w'.markets ensures MarketOk(w', m) {
      assert MarketOk(w, m);
      if w.markets[m].queueType == JobQueue {
        forall e | e in w.markets[m].queue ensures EntryOk(w', m, e) {
          assert EntryOk(w, m, e);
        }
      }
    }
    forall s | s in w'.runs ensures RunOk(w', s) {
      assert RunOk(w, s);
    }
    forall e | e in w'.jobs ensures JobOk(w', e) {
      assert e != k ==> JobOk(w, e);
    }
  }

  /** One market changes, and the entries of its job queue are still in order. */
  lemma ChangeMarketLives(w: World, w': World, m: Pubkey)
    requires Lifecycle(w) && m in w'.markets && MarketOk(w', m)
    requires w'.clock == w.clock && w'.jobs == w.jobs && w'.runs == w.runs
    requires w'.markets == w.markets[m := w'.markets[m]]
    ensures Lifecycle(w')
  {
    forall m' | m' in w'.markets ensures MarketOk(w', m') {
      if m' != m {
        assert MarketOk(w, m');
        if w.markets[m'].queueType == JobQueue {
          forall e | e in w.markets[m'].queue ensures EntryOk(w', m', e) {
            assert EntryOk(w, m', e);
          }
        }
      }
    }
    forall s | s in w'.runs ensures RunOk(w', s) {
      assert RunOk(w, s);
    }
    forall e | e in w'.jobs ensures JobOk(w', e) {
      assert JobOk(w, e);
    }
  }

  /** A key just created is in nobody's queue and no run works on it. */
  lemma FreshUnknown(w: World, k: Pubkey)
    requires Lifecycle(w) && Fresh(w, k)
    ensures Free(w, k) && !Waiting(w, k)
    ensures forall m | m in w.markets && w.markets[m].queueType != NodeQueue :: k !in w.markets[m].queue
  {
    forall r | r in w.runs ensures w.runs[r].job != k {
      assert RunOk(w, r);
    }
    forall m | m in w.markets && w.markets[m].queueType != NodeQueue ensures k !in w.markets[m].queue {
      assert MarketOk(w, m);
      assert k in w.markets[m].queue && w.markets[m].queueType == JobQueue ==> EntryOk(w, m, k);
    }
  }

  /** A run starts on a queued job that is neither running nor waiting. */
  lemma NewRunLives(w: World, w': World, r: Pubkey)
    requires Lifecycle(w) && Fresh(w, r) && r in w'.runs
    requires w'.clock == w.clock && w'.markets == w.markets && w'.jobs == w.jobs
    requires w'.runs == w.runs[r := w'.runs[r]] && w'.runs[r].time == w.clock
    requires var k := w'.runs[r].job;
             k in w.jobs && w.jobs[k].state == Queued && Free(w, k) && !Waiting(w, k)
    ensures Lifecycle(w')
  {
    forall m | m in w'.markets ensures MarketOk(w', m) {
      assert MarketOk(w, m);
      if w.markets[m].queueType == JobQueue {
        forall e | e in w.markets[m].queue ensures EntryOk(w', m, e) {
          assert EntryOk(w, m, e);
        }
      }
    }
    forall s | s in w'.runs ensures RunOk(w', s) {
      assert s != r ==> RunOk(w, s);
    }
    forall e | e in w'.jobs ensures JobOk(w', e) {
      assert JobOk(w, e);
    }
  }

  // ---------------------------------------------------------------- what every instruction keeps

  /** The market side of listing: the new job joins the queue, or the first node leaves it. */
  lemma ListedMarketOk(w: World, m: Pubkey, job: Pubkey)
    requires Lifecycle(w) && m in w.markets && EntryOk(w, m, job) && !Waiting(w, job)
    requires w.markets[m].queueType != NodeQueue ==> job !in w.markets[m].queue
    requires Listed(w.markets[m], job).Ok?
    ensures var (mk, node) := Listed(w.markets[m], job).value;
            MarketOk(w.(markets := w.markets[m := mk]), m)
  {
    assert MarketOk(w, m);
    var (mk, node) := Listed(w.markets[m], job).value;
    var w' := w.(markets := w.markets[m := mk]);
    if w.markets[m].queueType == NodeQueue {
      PoppedShaped(w.markets[m]);
    } else {
      AddedShaped(w.markets[m], job, true);
      if mk.queueType == JobQueue {
        forall e | e in mk.queue ensures EntryOk(w', m, e) {
          assert e != job ==> EntryOk(w, m, e);
          assert Free(w, e);
        }
      }
    }
  }

  /** A job is created, then handed to its market, then perhaps to a run. */
  lemma NewJobLives(w: World, w1: World, k: Pubkey)
    requires Lifecycle(w) && Fresh(w, k)
    requires k in w1.jobs && w1 == w.(jobs := w.jobs[k := w1.jobs[k]])
    requires w1.jobs[k].state == Queued && JobOk(w1, k)
    ensures Lifecycle(w1) && EntryOk(w1, w1.jobs[k].market, k) && !Waiting(w1, k)
  {
    FreshUnknown(w, k);
    assert Free(w1, k);
    OneJobLives(w, w1, k, {});
  }

  /** Listing creates one queued job, changes one market, and starts a run on that job if a node waits. */
  lemma ListCreates(w: World, op: Op)
    requires op.List? && Step(w, op).Ok?
    ensures op.market in w.markets && Fresh(w, op.job) && Fresh(w, op.run) && op.job != op.run
    ensures Listed(w.markets[op.market], op.job).Ok?
    ensures var w' := Next(w, op);
            var (mk, node) := Listed(w.markets[op.market], op.job).value;
            && w' == w.(ledger := w'.ledger, markets := w.markets[op.market := mk],
                        jobs := w'.jobs, runs := w'.runs)
            && op.job in w'.jobs && w'.jobs == w.jobs[op.job := w'.jobs[op.job]]
            && var j := w'.jobs[op.job];
               && j.market == op.market && j.state == Queued && (0 < j.price ==> 0 <= j.timeout)
               && (node.None? ==> w'.runs == w.runs)
               && (node.Some? ==> op.run in w'.runs && w'.runs == w.runs[op.run := w'.runs[op.run]]
                                  && w'.runs[op.run].job == op.job && w'.runs[op.run].time == w.clock)
  {
  }

  lemma ListLives(w: World, op: Op)
    requires Lifecycle(w) && op.List? && Step(w, op).Ok?
    ensures Lifecycle(Next(w, op))
  {
    ListCreates(w, op);
    ListedLives(w, Next(w, op), op.market, op.job, op.run);
  }

  lemma ListedLives(w: World, w': World, m: Pubkey, k: Pubkey, run: Pubkey)
    requires Lifecycle(w) && m in w.markets && Fresh(w, k) && Fresh(w, run) && k != run
    requires Listed(w.markets[m], k).Ok?
    requires m in w'.markets && w'.markets == w.markets[m := Listed(w.markets[m], k).value.0]
    requires w'.clock == w.clock && k in w'.jobs && w'.jobs == w.jobs[k := w'.jobs[k]]
    requires w'.jobs[k].market == m && w'.jobs[k].state == Queued
    requires 0 < w'.jobs[k].price ==> 0 <= w'.jobs[k].timeout
    requires if w.markets[m].queueType == NodeQueue
             then run in w'.runs && w'.runs == w.runs[run := w'.runs[run]]
                  && w'.runs[run].job == k && w'.runs[run].time == w.clock
             else w'.runs == w.runs
    ensures Lifecycle(w')
  {
    FreshUnknown(w, k);
    var w1 := w.(jobs := w'.jobs);
    NewJobLives(w, w1, k);
    ListedMarketOk(w1, m, k);
    var w2 := w'.(runs := w.runs);
    ChangeMarketLives(w1, w2, m);
    if w'.runs != w.runs {
      assert Free(w2, k);
      NewRunLives(w2, w', run);
    }
  }

  lemma AssignLives(w: World, op: Op)
    requires Lifecycle(w) && op.Assign? && Step(w, op).Ok?
    ensures Lifecycle(Next(w, op))
  {
    var w' := Next(w, op);
    var m, k := op.market, op.job;
    var w1 := w.(jobs := w'.jobs);
    NewJobLives(w, w1, k);
    assert MarketOk(w1, m);
    RemovedShaped(w.markets[m], op.node);
    var w2 := w1.(markets := w'.markets);
    ChangeMarketLives(w1, w2, m);
    assert Free(w2, k);
    NewRunLives(w2, w', op.run);
  }

  /** The job a node takes leaves the queue and is still queued, free and in its market. */
  lemma WorkLives(w: World, op: Op)
    requires Lifecycle(w) && op.Work? && Step(w, op).Ok?
    ensures Lifecycle(Next(w, op))
  {
    var w' := Next(w, op);
    var m := op.market;
    assert MarketOk(w, m);
    var w2 := w.(markets := w'.markets);
    if w.markets[m].queueType == JobQueue {
      PoppedShaped(w.markets[m]);
      var k := PoppedFromQueue(w.markets[m]).value.1;
      assert EntryOk(w, m, k);
      QueueKept(w, w2, m);
      ChangeMarketLives(w, w2, m);
      NewRunLives(w2, w', op.run);
    } else {
      AddedShaped(w.markets[m], op.node, false);
      ChangeMarketLives(w, w2, m);
    }
  }

  /** A queue that loses entries keeps the others in order. */
  lemma QueueKept(w: World, w': World, m: Pubkey)
    requires MarketOk(w, m) && m in w'.markets && w'.jobs == w.jobs && w'.runs == w.runs
    requires Shaped(w'.markets[m]) && w'.markets[m].queueType in {w.markets[m].queueType, EmptyQueue}
    requires forall k | k in w'.markets[m].queue :: k in w.markets[m].queue
    ensures MarketOk(w', m)
  {
    if w'.markets[m].queueType == JobQueue {
      forall k | k in w'.markets[m].queue ensures EntryOk(w', m, k) {
        assert EntryOk(w, m, k);
      }
    }
  }

  lemma MarketOnlyLives(w: World, op: Op)
    requires Lifecycle(w) && (op.Open? || op.Update? || op.Stop?) && Step(w, op).Ok?
    ensures Lifecycle(Next(w, op))
  {
    var w' := Next(w, op);
    if op.Stop? {
      assert MarketOk(w, op.market);
      RemovedShaped(w.markets[op.market], op.node);
      QueueKept(w, w', op.market);
    } else if op.Update? {
      assert MarketOk(w, op.market);
      QueueKept(w, w', op.market);
    }
    ChangeMarketLives(w, w', op.market);
  }

  /** Delisting takes a waiting job out of its market's queue, and the job's account with it. */
  lemma DelistRemoves(w: World, op: Op)
    requires op.Delist? && Step(w, op).Ok?
    ensures op.job in w.jobs && w.jobs[op.job].market in w.markets
    ensures var m := w.jobs[op.job].market;
            && w.markets[m].queueType == JobQueue && RemovedFromQueue(w.markets[m], op.job).Ok?
            && var w' := Next(w, op);
               && w' == w.(ledger := w'.ledger, markets := w'.markets, jobs := w.jobs - {op.job})
               && w'.markets == w.markets[m := RemovedFromQueue(w.markets[m], op.job).value]
  {
  }

  lemma DelistLives(w: World, op: Op)
    requires Lifecycle(w) && op.Delist? && Step(w, op).Ok?
    ensures Lifecycle(Next(w, op)) && Waiting(w, op.job)
  {
    DelistRemoves(w, op);
    DelistedLives(w, Next(w, op), op.job);
  }

  lemma DelistedLives(w: World, w': World, k: Pubkey)
    requires Lifecycle(w) && k in w.jobs && w.jobs[k].market in w.markets
    requires var m := w.jobs[k].market;
             && w.markets[m].queueType == JobQueue && RemovedFromQueue(w.markets[m], k).Ok?
             && w'.markets == w.markets[m := RemovedFromQueue(w.markets[m], k).value]
    requires w'.clock == w.clock && w'.jobs == w.jobs - {k} && w'.runs == w.runs
    ensures Lifecycle(w') && Waiting(w, k)
  {
    var m := w.jobs[k].market;
    assert MarketOk(w, m);
    RemovedShaped(w.markets[m], k);
    assert EntryOk(w, m, k);
    var w1 := w.(markets := w'.markets);
    QueueKept(w, w1, m);
    ChangeMarketLives(w, w1, m);
    OneJobLives(w1, w', k, {});
  }

  /** Closing a run: its job was queued and waiting nowhere. */
  lemma RunningJob(w: World, r: Pubkey)
    requires Lifecycle(w) && r in w.runs
    ensures w.runs[r].job in w.jobs && w.jobs[w.runs[r].job].state == Queued
    ensures !Waiting(w, w.runs[r].job) && Free(w.(runs := w.runs - {r}), w.runs[r].job)
    ensures 0 <= w.runs[r].time <= w.clock
  {
    assert RunOk(w, r);
    var k := w.runs[r].job;
    assert JobOk(w, k);
    assert MarketOk(w, w.jobs[k].market);
    assert !Free(w, k);
    assert Waiting(w, k) ==> EntryOk(w, w.jobs[k].market, k);
  }

  lemma ClosedRunLives(w: World, w': World, r: Pubkey)
    requires Lifecycle(w) && r in w.runs
    requires w'.clock == w.clock && w'.markets == w.markets && w'.runs == w.runs - {r}
    requires OnlyJob(w, w', w.runs[r].job) && JobOk(w', w.runs[r].job)
    ensures Lifecycle(w')
  {
    var k := w.runs[r].job;
    RunningJob(w, r);
    assert w'.runs == w.(runs := w.runs - {r}).runs;
    assert Free(w', k);
    OneJobLives(w, w', k, {r});
  }

  /** Closing a run changes at most its own job, whose terms stay as they were. */
  lemma RunCloses(w: World, op: Op)
    requires (op.Finish? || op.End? || op.Quit? || op.QuitAdmin?) && Step(w, op).Ok?
    requires op.run in w.runs && w.runs[op.run].job in w.jobs && w.jobs[w.runs[op.run].job].state == Queued
    ensures var w' := Next(w, op);
            var k := w.runs[op.run].job;
            && w' == w.(ledger := w'.ledger, jobs := w'.jobs, runs := w.runs - {op.run})
            && k in w'.jobs && w'.jobs == w.jobs[k := w'.jobs[k]]
            && var j, j' := w.jobs[k], w'.jobs[k];
               && j'.market == j.market && j'.payer == j.payer && j'.project == j.project
               && j'.price == j.price && j'.timeout == j.timeout
               && (j'.state == Queued <==> op.QuitAdmin?)
               && (j'.state == Done <==> op.Finish? || op.End?)
  {
  }

  lemma CloseRunLives(w: World, op: Op)
    requires Lifecycle(w) && (op.Finish? || op.End? || op.Quit? || op.QuitAdmin?) && Step(w, op).Ok?
    ensures Lifecycle(Next(w, op))
  {
    RunningJob(w, op.run);
    RunCloses(w, op);
    assert JobOk(w, w.runs[op.run].job);
    ClosedRunLives(w, Next(w, op), op.run);
  }

  /** A job that waits or runs is queued. */
  lemma BusyJobQueued(w: World, k: Pubkey)
    requires Lifecycle(w) && k in w.jobs
    ensures JobOk(w, k)
    ensures Waiting(w, k) || !Free(w, k) ==> w.jobs[k].state == Queued
  {
    assert JobOk(w, k);
    assert MarketOk(w, w.jobs[k].market);
    assert Waiting(w, k) ==> EntryOk(w, w.jobs[k].market, k);
    if r :| r in w.runs && w.runs[r].job == k {
      assert RunOk(w, r);
    }
  }

  lemma ChangedJobLives(w: World, w': World, k: Pubkey)
    requires Lifecycle(w) && k in w.jobs
    requires w'.clock == w.clock && w'.markets == w.markets && w'.runs == w.runs
    requires OnlyJob(w, w', k) && (k in w'.jobs ==> JobOk(w', k))
    requires if k in w'.jobs
             then w'.jobs[k].market == w.jobs[k].market && w'.jobs[k].state == w.jobs[k].state
             else w.jobs[k].state != Queued
    ensures Lifecycle(w')
  {
    BusyJobQueued(w, k);
    assert Free(w, k) ==> Free(w', k);
    OneJobLives(w, w', k, {});
  }

  lemma JobOnlyLives(w: World, op: Op)
    requires Lifecycle(w) && (op.Extend? || op.Recover? || op.Complete? || op.Clean?) && Step(w, op).Ok?
    ensures Lifecycle(Next(w, op))
  {
    BusyJobQueued(w, op.job);
    ChangedJobLives(w, Next(w, op), op.job);
  }

  lemma QuietLives(w: World, op: Op)
    requires Lifecycle(w) && (op.Tick? || op.Send?) && Step(w, op).Ok?
    ensures Lifecycle(Next(w, op))
  {
    var w' := Next(w, op);
    forall m | m in w'.markets ensures MarketOk(w', m) {
      assert MarketOk(w, m);
      if w.markets[m].queueType == JobQueue {
        forall e | e in w.markets[m].queue ensures EntryOk(w', m, e) {
          assert EntryOk(w, m, e);
        }
      }
    }
    forall s | s in w'.runs ensures RunOk(w', s) {
      assert RunOk(w, s);
    }
    forall e | e in w'.jobs ensures JobOk(w', e) {
      assert JobOk(w, e);
    }
  }

  /** Every instruction keeps the lifecycle invariant. */
  lemma StepLives(w: World, op: Op)
    requires Lifecycle(w)
    ensures Lifecycle(Next(w, op))
  {
    if Step(w, op).Ok? {
      if op.Tick? || op.Send? {
        QuietLives(w, op);
      } else if op.Open? || op.Update? || op.Stop? {
        MarketOnlyLives(w, op);
      } else if op.List? {
        ListLives(w, op);
      } else if op.Assign? {
        AssignLives(w, op);
      } else if op.Work? {
        WorkLives(w, op);
      } else if op.Delist? {
        DelistLives(w, op);
      } else if op.Finish? || op.End? || op.Quit? || op.QuitAdmin? {
        CloseRunLives(w, op);
      } else {
        JobOnlyLives(w, op);
      }
    }
  }

  /** Over every run of the program. */
  lemma {:induction false} RunLives(w: World, ops: seq<Op>)
    requires Lifecycle(w)
    ensures Lifecycle(Run(w, ops))
    decreases |ops|
  {
    if ops == [] {
    } else {
      StepLives(w, ops[0]);
      RunLives(Next(w, ops[0]), ops[1..]);
    }
  }
}
