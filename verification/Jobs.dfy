/** Jobs and runs: their accounts, their escrow arithmetic and the instructions on them. */
module Jobs {
  import opened Arith
  import opened Machine
  import opened Markets
  import opened Token

  datatype JobState = Queued | Done | Stopped

  /** Results are hashes; only the null result is told apart. */
  const NULL_RESULT: nat := 0

  datatype Job = Job(
    ipfsJob: nat,
    ipfsResult: nat,
    market: Pubkey,
    node: Pubkey,
    payer: Pubkey,
    price: u64,
    project: Pubkey,
    state: JobState,
    timeEnd: i64,
    timeStart: i64,
    timeout: i64)

  /** A run matches a node to a job until it is closed. */
  datatype RunRecord = RunRecord(job: Pubkey, node: Pubkey, payer: Pubkey, time: i64)

  /** The all-zero key and the fields of an account just created. */
  const NO_KEY: Pubkey := 0

  function Created(ipfsJob: nat, market: Pubkey, payer: Pubkey, price: u64, project: Pubkey, timeout: i64): Job {
    Job(ipfsJob, NULL_RESULT, market, NO_KEY, payer, price, project, Queued, 0, 0, timeout)
  }

  // ---------------------------------------------------------------- escrow arithmetic

  /** What `timeout` seconds of the job cost; a negative time aborts, and so does a price beyond 64 bits. */
  function Deposit(price: u64, timeout: i64): Result<u64> {
    var seconds :- ToU64(timeout);
    ToU64(price * seconds)
  }

  function Reimbursement(j: Job): Result<u64> {
    var used :- ToI64(j.timeEnd - j.timeStart);
    Deposit(j.price, Min(used, j.timeout))
  }

  /** A node is never paid more than was deposited, so the refund does not underflow. */
  lemma ReimbursedAtMostDeposit(j: Job)
    requires Deposit(j.price, j.timeout).Ok? && Reimbursement(j).Ok?
    ensures Reimbursement(j).value <= Deposit(j.price, j.timeout).value
  {
    MulMonotone(j.price, j.price, Min(j.timeEnd - j.timeStart, j.timeout), j.timeout);
  }

  /** The node's payment and the payer's refund when a job is settled. */
  function Settlement(j: Job): Result<(u64, u64)> {
    var total :- Deposit(j.price, j.timeout);
    var amount :- Reimbursement(j);
    ReimbursedAtMostDeposit(j);
    Ok((amount, total - amount))
  }

  /**
    A job that ran for `used` seconds splits exactly what was deposited for its timeout: the node is
    paid for the time used, at most the timeout, and the payer gets back the rest.
    */
  lemma SettlementSplits(j: Job)
    requires 0 <= j.timeStart <= j.timeEnd && 0 <= j.timeout
    ensures Settlement(j).Ok? <==> j.price * j.timeout <= U64_MAX
    ensures Settlement(j).Ok? ==>
              var (amount, refund) := Settlement(j).value;
              && amount == j.price * Min(j.timeEnd - j.timeStart, j.timeout)
              && amount + refund == j.price * j.timeout
  {
    MulMonotone(j.price, j.price, Min(j.timeEnd - j.timeStart, j.timeout), j.timeout);
  }

  /** Moving a deposit into the vault; free jobs move nothing. */
  function PaidIn(price: u64, timeout: i64, l: Ledger, user: Account, vault: Account): Result<Ledger> {
    var _ :- Guard(user in l && vault in l);
    if price == 0 then Ok(l)
    else
      var deposit :- Deposit(price, timeout);
      Transferred(l, user, vault, deposit)
  }

  /** Splitting a job's deposit between node and payer; free jobs move nothing. */
  function SettledOut(j: Job, l: Ledger, vault: Account, node: Account, payer: Account): Result<Ledger> {
    var _ :- Guard(vault in l && node in l && payer in l);
    if j.price == 0 then Ok(l)
    else
      var (amount, refund) :- Settlement(j);
      var l' :- Transferred(l, vault, node, amount);
      Transferred(l', vault, payer, refund)
  }

  // ---------------------------------------------------------------- effects on the accounts

  function Ended(j: Job, start: i64, end: i64, node: Pubkey): Job {
    j.(state := Done, timeStart := start, timeEnd := end, node := node)
  }

  function Finished(j: Job, result: nat, node: Pubkey, end: i64, start: i64): Job {
    Ended(j, start, end, node).(ipfsResult := result)
  }

  /** The effect of listing: the market, the new job, its run if a node was waiting, and the ledger. */
  function JobListed(m: Market, marketKey: Pubkey, key: Pubkey, ipfsJob: nat, payer: Pubkey,
                     project: Pubkey, timeout: i64, now: i64, l: Ledger, user: Account, vault: Account)
    : Result<(Market, Job, Option<RunRecord>, Ledger)>
  {
    var (m', node) :- Listed(m, key);
    var l' :- PaidIn(m.jobPrice, timeout, l, user, vault);
    Ok((m', Created(ipfsJob, marketKey, payer, m.jobPrice, project, timeout),
        if node.Some? then Some(RunRecord(key, node.value, payer, now)) else None, l'))
  }

  function JobAssigned(m: Market, marketKey: Pubkey, key: Pubkey, ipfsJob: nat, node: Pubkey,
                       payer: Pubkey, project: Pubkey, timeout: i64, now: i64, l: Ledger,
                       user: Account, vault: Account)
    : Result<(Market, Job, RunRecord, Ledger)>
  {
    var m' :- NodeRemoved(m, node);
    var l' :- PaidIn(m.jobPrice, timeout, l, user, vault);
    Ok((m', Created(ipfsJob, marketKey, payer, m.jobPrice, project, timeout),
        RunRecord(key, node, payer, now), l'))
  }

  function NodeWorking(m: Market, node: Pubkey, xnos: u128, payer: Pubkey, now: i64)
    : Result<(Market, Option<RunRecord>)>
  {
    var _ :- Guard(xnos >= m.nodeXnosMinimum);
    var (m', job) :- Worked(m, node);
    Ok((m', if job.Some? then Some(RunRecord(job.value, node, payer, now)) else None))
  }

  function JobFinished(j: Job, r: RunRecord, result: nat, signer: Pubkey, now: i64, l: Ledger,
                       vault: Account, user: Account, deposit: Account)
    : Result<(Job, Ledger)>
  {
    var _ :- Guard(j.state == Queued && r.node == signer && result != NULL_RESULT);
    var j' := Finished(j, result, signer, now, r.time);
    var l' :- SettledOut(j', l, vault, user, deposit);
    Ok((j', l'))
  }

  /** Ending a running job tests the project and the run, but not the state of the job. */
  function JobEnded(j: Job, r: RunRecord, signer: Pubkey, now: i64, l: Ledger,
                    vault: Account, user: Account, deposit: Account)
    : Result<(Job, Ledger)>
  {
    var _ :- Guard(j.project == signer);
    var j' := Ended(j, r.time, now, r.node);
    var l' :- SettledOut(j', l, vault, user, deposit);
    Ok((j', l'))
  }

  function JobExtended(j: Job, signer: Pubkey, payer: Pubkey, timeout: i64, l: Ledger,
                       user: Account, vault: Account)
    : Result<(Job, Ledger)>
  {
    var _ :- Guard(j.project == signer && (j.price == 0 || j.payer == payer) && j.state == Queued);
    var _ :- Guard(timeout > j.timeout);
    var duration :- ToI64(timeout - j.timeout);
    var l' :- PaidIn(j.price, duration, l, user, vault);
    Ok((j.(timeout := timeout), l'))
  }

  function JobDelisted(m: Market, key: Pubkey, j: Job, signer: Pubkey, l: Ledger, vault: Account, deposit: Account)
    : Result<(Market, Ledger)>
  {
    var _ :- Guard(j.project == signer && j.state == Queued && vault in l && deposit in l);
    var m' :- JobRemoved(m, key);
    if j.price == 0 then Ok((m', l))
    else
      var total :- Deposit(j.price, j.timeout);
      var l' :- Transferred(l, vault, deposit, total);
      Ok((m', l'))
  }

  function JobRecovered(j: Job, signer: Pubkey, l: Ledger, vault: Account, user: Account): Result<Ledger> {
    var _ :- Guard(j.project == signer && j.state == Stopped);
    var total :- Deposit(j.price, j.timeout);
    Transferred(l, vault, user, total)
  }

  function JobQuit(j: Job, r: RunRecord, signer: Pubkey): Result<Job> {
    var _ :- Guard(r.node == signer);
    Ok(j.(state := Stopped))
  }

  function JobCompleted(j: Job, signer: Pubkey, result: nat): Result<Job> {
    var _ :- Guard(j.state == Done && j.node == signer && j.ipfsResult == NULL_RESULT && result != NULL_RESULT);
    Ok(j.(ipfsResult := result))
  }

  // ---------------------------------------------------------------- accounts and instructions

  class JobAccount {
    var ipfsJob: nat
    var ipfsResult: nat
    var market: Pubkey
    var node: Pubkey
    var payer: Pubkey
    var price: u64
    var project: Pubkey
    var state: JobState
    var timeEnd: i64
    var timeStart: i64
    var timeout: i64

    /** An account just created is all zeros. */
    constructor ()
      ensures Get() == Job(0, NULL_RESULT, NO_KEY, NO_KEY, NO_KEY, 0, NO_KEY, Queued, 0, 0, 0)
    {
      ipfsJob, ipfsResult, market, node, payer := 0, NULL_RESULT, NO_KEY, NO_KEY, NO_KEY;
      price, project, state, timeEnd, timeStart, timeout := 0, NO_KEY, Queued, 0, 0, 0;
    }

    function Get(): Job
      reads this
    {
      Job(ipfsJob, ipfsResult, market, node, payer, price, project, state, timeEnd, timeStart, timeout)
    }

    method Create(ipfsJob: nat, market: Pubkey, payer: Pubkey, price: u64, project: Pubkey, timeout: i64)
      modifies this
      ensures Get() == old(Get()).(ipfsJob := ipfsJob, market := market, payer := payer, price := price,
                                   project := project, state := Queued, timeout := timeout)
    {
      this.ipfsJob := ipfsJob;
      this.market := market;
      this.payer := payer;
      this.price := price;
      this.project := project;
      state := Queued;
      this.timeout := timeout;
    }

    method Quit()
      modifies this
      ensures Get() == old(Get()).(state := Stopped)
    {
      state := Stopped;
    }

    method End(start: i64, end: i64, node: Pubkey)
      modifies this
      ensures Get() == Ended(old(Get()), start, end, node)
    {
      state := Done;
      timeStart := start;
      timeEnd := end;
      this.node := node;
    }

    method Complete(result: nat)
      modifies this
      ensures Get() == old(Get()).(ipfsResult := result)
    {
      ipfsResult := result;
    }

    method Finish(result: nat, node: Pubkey, end: i64, start: i64)
      modifies this
      ensures Get() == Finished(old(Get()), result, node, end, start)
    {
      ipfsResult := result;
      this.node := node;
      state := Done;
      timeEnd := end;
      timeStart := start;
    }

    method UpdateTimeout(timeout: i64)
      modifies this
      ensures Get() == old(Get()).(timeout := timeout)
    {
      this.timeout := timeout;
    }
  }

  class RunAccount {
    var job: Pubkey
    var node: Pubkey
    var payer: Pubkey
    var time: i64

    constructor ()
      ensures Get() == RunRecord(NO_KEY, NO_KEY, NO_KEY, 0)
    {
      job, node, payer, time := NO_KEY, NO_KEY, NO_KEY, 0;
    }

    function Get(): RunRecord
      reads this
    {
      RunRecord(job, node, payer, time)
    }

    method Create(job: Pubkey, node: Pubkey, payer: Pubkey, time: i64)
      modifies this
      ensures Get() == RunRecord(job, node, payer, time)
    {
      this.job, this.node, this.payer, this.time := job, node, payer, time;
    }
  }

  /** The deposit both listing and assigning make at the end. */
  method MakeDeposit(job: JobAccount, timeout: i64, bank: Bank, user: Account, vault: Account)
    returns (r: Result<()>)
    modifies bank
    ensures r.Ok? <==> PaidIn(job.price, timeout, old(bank.balances), user, vault).Ok?
    ensures r.Ok? ==> Ok(bank.balances) == PaidIn(job.price, timeout, old(bank.balances), user, vault)
  {
    if user !in bank.balances || vault !in bank.balances {
      return Abort;
    }
    if job.price == 0 {
      return Ok(());
    }
    var deposit :- Deposit(job.price, timeout);
    r := bank.Transfer(user, vault, deposit);
  }

  /** `run` is a fresh account; it is written only when a node was waiting, and `matched` says so. */
  method ListJob(job: JobAccount, key: Pubkey, market: MarketAccount, marketKey: Pubkey, run: RunAccount,
                 bank: Bank, user: Account, vault: Account, payer: Pubkey, authority: Pubkey,
                 ipfsJob: nat, timeout: i64, now: i64)
    returns (r: Result<()>, matched: bool)
    requires job.Get() == Job(0, NULL_RESULT, NO_KEY, NO_KEY, NO_KEY, 0, NO_KEY, Queued, 0, 0, 0)
    modifies job, market, run, bank
    ensures r.Ok? <==> JobListed(old(market.Get()), marketKey, key, ipfsJob, payer, authority, timeout,
                                 now, old(bank.balances), user, vault).Ok?
    ensures r.Ok? ==> Ok((market.Get(), job.Get(), if matched then Some(run.Get()) else None, bank.balances))
                      == JobListed(old(market.Get()), marketKey, key, ipfsJob, payer, authority, timeout,
                                   now, old(bank.balances), user, vault)
  {
    matched := false;
    job.Create(ipfsJob, marketKey, payer, market.jobPrice, authority, timeout);
    match market.queueType {
      case NodeQueue =>
        var popped := market.PopFromQueue();
        if popped.Abort? {
          return Abort, false;
        }
        run.Create(key, popped.value, payer, now);
        matched := true;
      case _ =>
        market.AddToQueue(key, true);
    }
    r := MakeDeposit(job, timeout, bank, user, vault);
  }

  method WorkInMarket(market: MarketAccount, run: RunAccount, node: Pubkey, xnos: u128, payer: Pubkey, now: i64)
    returns (r: Result<()>, matched: bool)
    modifies market, run
    ensures r.Ok? <==> NodeWorking(old(market.Get()), node, xnos, payer, now).Ok?
    ensures r.Ok? ==> Ok((market.Get(), if matched then Some(run.Get()) else None))
                      == NodeWorking(old(market.Get()), node, xnos, payer, now)
  {
    matched := false;
    if xnos < market.nodeXnosMinimum {
      return Abort, false;
    }
    if market.queueType != JobQueue && Position(market.queue, node).Some? {
      return Abort, false;
    }
    match market.queueType {
      case JobQueue =>
        var popped := market.PopFromQueue();
        if popped.Abort? {
          return Abort, false;
        }
        run.Create(popped.value, node, payer, now);
        matched := true;
      case _ =>
        market.AddToQueue(node, false);
    }
    r := Ok(());
  }

  method AssignJob(job: JobAccount, key: Pubkey, market: MarketAccount, marketKey: Pubkey, run: RunAccount,
                   node: Pubkey, bank: Bank, user: Account, vault: Account, payer: Pubkey,
                   authority: Pubkey, ipfsJob: nat, timeout: i64, now: i64)
    returns (r: Result<()>)
    requires job.Get() == Job(0, NULL_RESULT, NO_KEY, NO_KEY, NO_KEY, 0, NO_KEY, Queued, 0, 0, 0)
    modifies job, market, run, bank
    ensures r.Ok? <==> JobAssigned(old(market.Get()), marketKey, key, ipfsJob, node, payer, authority,
                                   timeout, now, old(bank.balances), user, vault).Ok?
    ensures r.Ok? ==> Ok((market.Get(), job.Get(), run.Get(), bank.balances))
                      == JobAssigned(old(market.Get()), marketKey, key, ipfsJob, node, payer, authority,
                                     timeout, now, old(bank.balances), user, vault)
  {
    if market.queueType != NodeQueue {
      return Abort;
    }
    var _ :- market.RemoveFromQueue(node);
    job.Create(ipfsJob, marketKey, payer, market.jobPrice, authority, timeout);
    run.Create(key, node, payer, now);
    r := MakeDeposit(job, timeout, bank, user, vault);
  }

  method StopNode(market: MarketAccount, node: Pubkey, authority: Pubkey) returns (r: Result<()>)
    modifies market
    ensures r.Ok? <==> (old(market.authority) == authority || node == authority)
                       && NodeRemoved(old(market.Get()), node).Ok?
    ensures r.Ok? ==> Ok(market.Get()) == NodeRemoved(old(market.Get()), node)
  {
    if market.queueType != NodeQueue || (market.authority != authority && node != authority) {
      return Abort;
    }
    r := market.RemoveFromQueue(node);
  }

  method SplitDeposit(job: JobAccount) returns (r: Result<(u64, u64)>)
    ensures r == Settlement(job.Get())
  {
    var total :- Deposit(job.price, job.timeout);
    var amount :- Reimbursement(job.Get());
    ReimbursedAtMostDeposit(job.Get());
    return Ok((amount, total - amount));
  }

  /** The payments that finishing and ending share. */
  method Settle(job: JobAccount, bank: Bank, vault: Account, user: Account, deposit: Account)
    returns (r: Result<()>)
    modifies bank
    ensures r.Ok? <==> SettledOut(job.Get(), old(bank.balances), vault, user, deposit).Ok?
    ensures r.Ok? ==> Ok(bank.balances) == SettledOut(job.Get(), old(bank.balances), vault, user, deposit)
  {
    if vault !in bank.balances || user !in bank.balances || deposit !in bank.balances {
      return Abort;
    }
    if job.price == 0 {
      return Ok(());
    }
    var shares :- SplitDeposit(job);
    var _ :- bank.Transfer(vault, user, shares.0);
    r := bank.Transfer(vault, deposit, shares.1);
  }

  method FinishJob(job: JobAccount, run: RunAccount, bank: Bank, vault: Account, user: Account,
                   deposit: Account, authority: Pubkey, result: nat, now: i64)
    returns (r: Result<()>)
    modifies job, bank
    ensures r.Ok? <==> JobFinished(old(job.Get()), run.Get(), result, authority, now, old(bank.balances),
                                   vault, user, deposit).Ok?
    ensures r.Ok? ==> Ok((job.Get(), bank.balances))
                      == JobFinished(old(job.Get()), run.Get(), result, authority, now,
                                     old(bank.balances), vault, user, deposit)
  {
    if job.state != Queued || run.node != authority || result == NULL_RESULT {
      return Abort;
    }
    job.Finish(result, authority, now, run.time);
    r := Settle(job, bank, vault, user, deposit);
  }

  method EndJob(job: JobAccount, run: RunAccount, bank: Bank, vault: Account, user: Account,
                deposit: Account, authority: Pubkey, now: i64)
    returns (r: Result<()>)
    modifies job, bank
    ensures r.Ok? <==> JobEnded(old(job.Get()), run.Get(), authority, now, old(bank.balances),
                                vault, user, deposit).Ok?
    ensures r.Ok? ==> Ok((job.Get(), bank.balances))
                      == JobEnded(old(job.Get()), run.Get(), authority, now, old(bank.balances),
                                  vault, user, deposit)
  {
    if job.project != authority {
      return Abort;
    }
    job.End(run.time, now, run.node);
    r := Settle(job, bank, vault, user, deposit);
  }

  method ExtendJob(job: JobAccount, bank: Bank, user: Account, vault: Account, authority: Pubkey,
                   payer: Pubkey, timeout: i64)
    returns (r: Result<()>)
    modifies job, bank
    ensures r.Ok? <==> JobExtended(old(job.Get()), authority, payer, timeout, old(bank.balances), user, vault).Ok?
    ensures r.Ok? ==> Ok((job.Get(), bank.balances))
                      == JobExtended(old(job.Get()), authority, payer, timeout, old(bank.balances), user, vault)
  {
    if job.project != authority || (job.price != 0 && job.payer != payer) || job.state != Queued
       || timeout <= job.timeout {
      return Abort;
    }
    var duration :- ToI64(timeout - job.timeout);
    job.UpdateTimeout(timeout);
    r := MakeDeposit(job, duration, bank, user, vault);
  }

  method DelistJob(market: MarketAccount, job: JobAccount, key: Pubkey, bank: Bank, vault: Account,
                   deposit: Account, authority: Pubkey)
    returns (r: Result<()>)
    modifies market, bank
    ensures r.Ok? <==> JobDelisted(old(market.Get()), key, job.Get(), authority, old(bank.balances),
                                   vault, deposit).Ok?
    ensures r.Ok? ==> Ok((market.Get(), bank.balances))
                      == JobDelisted(old(market.Get()), key, job.Get(), authority, old(bank.balances),
                                     vault, deposit)
  {
    if job.project != authority || job.state != Queued || market.queueType != JobQueue
       || vault !in bank.balances || deposit !in bank.balances {
      return Abort;
    }
    var _ :- market.RemoveFromQueue(key);
    if job.price == 0 {
      return Ok(());
    }
    var total :- Deposit(job.price, job.timeout);
    r := bank.Transfer(vault, deposit, total);
  }

  method QuitJob(job: JobAccount, run: RunAccount, authority: Pubkey) returns (r: Result<()>)
    modifies job
    ensures r.Ok? <==> JobQuit(old(job.Get()), run.Get(), authority).Ok?
    ensures r.Ok? ==> Ok(job.Get()) == JobQuit(old(job.Get()), run.Get(), authority)
  {
    if run.node != authority {
      return Abort;
    }
    job.Quit();
    return Ok(());
  }

  method RecoverJob(job: JobAccount, bank: Bank, vault: Account, user: Account, authority: Pubkey)
    returns (r: Result<()>)
    modifies bank
    ensures r.Ok? <==> JobRecovered(job.Get(), authority, old(bank.balances), vault, user).Ok?
    ensures r.Ok? ==> Ok(bank.balances) == JobRecovered(job.Get(), authority, old(bank.balances), vault, user)
  {
    if job.project != authority || job.state != Stopped {
      return Abort;
    }
    var total :- Deposit(job.price, job.timeout);
    r := bank.Transfer(vault, user, total);
  }

  method CompleteJob(job: JobAccount, authority: Pubkey, result: nat) returns (r: Result<()>)
    modifies job
    ensures r.Ok? <==> JobCompleted(old(job.Get()), authority, result).Ok?
    ensures r.Ok? ==> Ok(job.Get()) == JobCompleted(old(job.Get()), authority, result)
  {
    if job.state != Done || job.node != authority || job.ipfsResult != NULL_RESULT
       || result == NULL_RESULT {
      return Abort;
    }
    job.Complete(result);
    return Ok(());
  }
}
