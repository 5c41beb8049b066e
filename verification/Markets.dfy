/**
  A market of the jobs program: one tagged queue that holds either waiting jobs or waiting nodes. It
  behaves like two separate waiting rooms that always serve whoever has waited longest.
  */
module Markets {
  import opened Machine
  import opened Sequences
  import opened Token

  datatype QueueType = JobQueue | NodeQueue | EmptyQueue

  type u8 = x: nat | x < 256

  datatype Market = Market(
    authority: Pubkey,
    jobExpiration: i64,
    jobPrice: u64,
    jobType: u8,
    nodeXnosMinimum: u128,
    queueType: QueueType,
    queue: seq<Pubkey>)

  const UNKNOWN_JOB_TYPE: u8 := 127
  const RESTRICTED: u8 := 128

  /** The job type without the flag in its high bit; any type beyond the known ones is unknown. */
  function JobType(t: u8): u8 {
    if t % RESTRICTED <= 4 then t % RESTRICTED else UNKNOWN_JOB_TYPE
  }

  predicate Known(t: u8) {
    JobType(t) != UNKNOWN_JOB_TYPE
  }

  function Opened(authority: Pubkey, expiration: i64, price: u64, jobType: u8, minimum: u128): Market {
    Market(authority, expiration, price, JobType(jobType), minimum, EmptyQueue, [])
  }

  function Updated(m: Market, expiration: i64, price: u64, jobType: u8, minimum: u128): Market {
    m.(jobExpiration := expiration, jobPrice := price, nodeXnosMinimum := minimum,
       jobType := m.jobType / RESTRICTED * RESTRICTED + JobType(jobType))
  }

  // ---------------------------------------------------------------- the tagged queue

  /** The first position of `key`. */
  function Position(queue: seq<Pubkey>, key: Pubkey): (p: Option<nat>)
    ensures p.Some? ==> p.value < |queue| && queue[p.value] == key && key !in queue[..p.value]
    ensures p.None? ==> key !in queue
  {
    if queue == [] then None
    else if queue[0] == key then Some(0)
    else
      match Position(queue[1..], key)
      case None => None
      case Some(i) =>
        assert queue[..i + 1] == [queue[0]] + queue[1..][..i];
        Some(i + 1)
  }

  function AddedToQueue(m: Market, order: Pubkey, isJob: bool): Market {
    if !Known(m.jobType) then m
    else
      var kind := if m.queueType != EmptyQueue then m.queueType else if isJob then JobQueue else NodeQueue;
      m.(queueType := kind, queue := m.queue + [order])
  }

  function RemovedFromQueue(m: Market, key: Pubkey): Result<Market> {
    match Position(m.queue, key)
    case None => Abort
    case Some(i) =>
      var rest := Without(m.queue, i);
      Ok(m.(queue := rest, queueType := if rest == [] then EmptyQueue else m.queueType))
  }

  function PoppedFromQueue(m: Market): Result<(Market, Pubkey)> {
    if m.queue == [] then Abort
    else
      var kind := if |m.queue| == 1 then EmptyQueue else m.queueType;
      Ok((m.(queue := m.queue[1..], queueType := kind), m.queue[0]))
  }

  /** A listed job joins the queue, or takes the first waiting node. */
  function Listed(m: Market, job: Pubkey): Result<(Market, Option<Pubkey>)> {
    if m.queueType != NodeQueue then Ok((AddedToQueue(m, job, true), None))
    else
      var (m', node) :- PoppedFromQueue(m);
      Ok((m', Some(node)))
  }

  /** A node joins the queue, once, or takes the first waiting job. */
  function Worked(m: Market, node: Pubkey): Result<(Market, Option<Pubkey>)> {
    if m.queueType != JobQueue then
      if Position(m.queue, node).Some? then Abort else Ok((AddedToQueue(m, node, false), None))
    else
      var (m', job) :- PoppedFromQueue(m);
      Ok((m', Some(job)))
  }

  function JobRemoved(m: Market, job: Pubkey): Result<Market> {
    if m.queueType != JobQueue then Abort else RemovedFromQueue(m, job)
  }

  function NodeRemoved(m: Market, node: Pubkey): Result<Market> {
    if m.queueType != NodeQueue then Abort else RemovedFromQueue(m, node)
  }

  class MarketAccount {
    var authority: Pubkey
    var jobExpiration: i64
    var jobPrice: u64
    var jobType: u8
    var nodeXnosMinimum: u128
    var queueType: QueueType
    var queue: seq<Pubkey>

    constructor (authority: Pubkey, expiration: i64, price: u64, jobType: u8, minimum: u128)
      ensures Get() == Opened(authority, expiration, price, jobType, minimum)
    {
      this.authority, jobExpiration, jobPrice := authority, expiration, price;
      this.jobType := JobType(jobType);
      nodeXnosMinimum, queueType, queue := minimum, EmptyQueue, [];
    }

    function Get(): Market
      reads this
    {
      Market(authority, jobExpiration, jobPrice, jobType, nodeXnosMinimum, queueType, queue)
    }

    method Update(expiration: i64, price: u64, jobType: u8, minimum: u128)
      modifies this
      ensures Get() == Updated(old(Get()), expiration, price, jobType, minimum)
    {
      jobExpiration := expiration;
      jobPrice := price;
      this.jobType := this.jobType / RESTRICTED * RESTRICTED + JobType(jobType);
      nodeXnosMinimum := minimum;
    }

    method AddToQueue(order: Pubkey, isJob: bool)
      modifies this
      ensures Get() == AddedToQueue(old(Get()), order, isJob)
    {
      if !Known(jobType) {
        return;
      }
      if queueType == EmptyQueue {
        queueType := if isJob then JobQueue else NodeQueue;
      }
      queue := queue + [order];
    }

    method RemoveFromQueue(key: Pubkey) returns (r: Result<()>)
      modifies this
      ensures r.Ok? <==> RemovedFromQueue(old(Get()), key).Ok?
      ensures r.Ok? ==> Ok(Get()) == RemovedFromQueue(old(Get()), key)
      ensures r.Abort? ==> Get() == old(Get())
    {
      match Position(queue, key) {
        case None =>
          return Abort;
        case Some(index) =>
          queue := queue[..index] + queue[index + 1..];
          if queue == [] {
            queueType := EmptyQueue;
          }
          return Ok(());
      }
    }

    method PopFromQueue() returns (r: Result<Pubkey>)
      modifies this
      ensures r.Ok? <==> PoppedFromQueue(old(Get())).Ok?
      ensures r.Ok? ==> Ok((Get(), r.value)) == PoppedFromQueue(old(Get()))
    {
      if |queue| == 1 {
        queueType := EmptyQueue;
      }
      if queue == [] {
        return Abort;
      }
      var first := queue[0];
      queue := queue[1..];
      return Ok(first);
    }
  }

  // ---------------------------------------------------------------- two waiting rooms

  /** Who waits, with the number under which they arrived. */
  type Room = map<Pubkey, nat>

  datatype Floor = Floor(jobs: Room, nodes: Room, next: nat, jobType: u8)

  datatype Event =
    | JobArrives(job: Pubkey)
    | NodeArrives(node: Pubkey)
    | JobLeaves(job: Pubkey)
    | NodeLeaves(node: Pubkey)
    | TypeChanges(jobType: u8)

  /** A job and a node that start working together. */
  datatype Match = Match(job: Pubkey, node: Pubkey)

  ghost predicate Oldest(room: Room, k: Pubkey) {
    k in room && forall j | j in room && j != k :: room[k] < room[j]
  }

  /** The floor's own rule: whoever arrives is matched with whoever waited longest on the other side. */
  ghost predicate FloorStep(f: Floor, e: Event, f': Floor, matches: seq<Match>) {
    match e
    case JobArrives(job) =>
      && job !in f.jobs
      && if f.nodes == map[] then
           && matches == []
           && f' == if Known(f.jobType) then f.(jobs := f.jobs[job := f.next], next := f.next + 1) else f
         else
           exists node ::
             && Oldest(f.nodes, node) && matches == [Match(job, node)]
             && f' == f.(nodes := f.nodes - {node})
    case NodeArrives(node) =>
      if f.jobs == map[] then
        && node !in f.nodes && matches == []
        && f' == if Known(f.jobType) then f.(nodes := f.nodes[node := f.next], next := f.next + 1) else f
      else
        exists job ::
          && Oldest(f.jobs, job) && matches == [Match(job, node)]
          && f' == f.(jobs := f.jobs - {job})
    case JobLeaves(job) => job in f.jobs && matches == [] && f' == f.(jobs := f.jobs - {job})
    case NodeLeaves(node) => node in f.nodes && matches == [] && f' == f.(nodes := f.nodes - {node})
    case TypeChanges(t) => matches == [] && f' == f.(jobType := t)
  }

  /** The market's handling of the same events. A job arrives by creating its account, so only once. */
  function MarketStep(m: Market, e: Event): Result<(Market, seq<Match>)> {
    match e
    case JobArrives(job) =>
      if m.queueType == JobQueue && job in m.queue then Abort
      else
        var (m', node) :- Listed(m, job);
        Ok((m', if node.Some? then [Match(job, node.value)] else []))
    case NodeArrives(node) =>
      var (m', job) :- Worked(m, node);
      Ok((m', if job.Some? then [Match(job.value, node)] else []))
    case JobLeaves(job) =>
      var m' :- JobRemoved(m, job);
      Ok((m', []))
    case NodeLeaves(node) =>
      var m' :- NodeRemoved(m, node);
      Ok((m', []))
    case TypeChanges(t) => Ok((m.(jobType := t), []))
  }

  /** `queue` lists everyone in `room` in order of arrival. */
  ghost predicate InOrder(queue: seq<Pubkey>, room: Room, next: nat) {
    && (forall i | 0 <= i < |queue| :: queue[i] in room && room[queue[i]] < next)
    && (forall k | k in room :: k in queue)
    && (forall i, j | 0 <= i < j < |queue| :: room[queue[i]] < room[queue[j]])
  }

  /** The tagged queue stands for the two rooms, of which at most one is ever occupied. */
  ghost predicate Represents(m: Market, f: Floor) {
    && m.jobType == f.jobType
    && (m.queueType == EmptyQueue <==> m.queue == [])
    && (m.queueType != JobQueue ==> f.jobs == map[])
    && (m.queueType != NodeQueue ==> f.nodes == map[])
    && (m.queueType == JobQueue ==> InOrder(m.queue, f.jobs, f.next))
    && (m.queueType == NodeQueue ==> InOrder(m.queue, f.nodes, f.next))
  }

  lemma JoinsInOrder(queue: seq<Pubkey>, room: Room, next: nat, key: Pubkey)
    requires InOrder(queue, room, next) && key !in room
    ensures InOrder(queue + [key], room[key := next], next + 1)
  {
  }

  lemma LeavesInOrder(queue: seq<Pubkey>, room: Room, next: nat, i: nat)
    requires InOrder(queue, room, next) && i < |queue|
    ensures InOrder(Without(queue, i), room - {queue[i]}, next)
  {
    var rest := Without(queue, i);
    forall j | 0 <= j < |rest| ensures rest[j] == queue[if j < i then j else j + 1] {
      WithoutAt(queue, i, j);
    }
    forall k | k in room - {queue[i]} ensures k in rest {
      StaysWithout(queue, i, k);
    }
  }

  lemma HeadIsOldest(queue: seq<Pubkey>, room: Room, next: nat)
    requires InOrder(queue, room, next) && queue != []
    ensures Oldest(room, queue[0]) && room != map[]
    ensures forall k | Oldest(room, k) :: k == queue[0]
    ensures InOrder(queue[1..], room - {queue[0]}, next)
  {
    LeavesInOrder(queue, room, next, 0);
    assert Without(queue, 0) == queue[1..];
  }

  lemma EmptyInOrder(room: Room, next: nat)
    requires InOrder([], room, next)
    ensures room == map[]
  {
  }

  /** Where the market aborts, the floor has no step either. */
  lemma AbortRefines(m: Market, f: Floor, e: Event)
    requires Represents(m, f) && MarketStep(m, e).Abort?
    ensures forall f', matches :: !FloorStep(f, e, f', matches)
  {
    if m.queue != [] {
      HeadIsOldest(m.queue, if m.queueType == JobQueue then f.jobs else f.nodes, f.next);
    }
  }

  ghost function After(m: Market, f: Floor, e: Event): Floor
    requires MarketStep(m, e).Ok?
  {
    var (_, matches) := MarketStep(m, e).value;
    match e
    case JobArrives(job) =>
      if matches != [] then f.(nodes := f.nodes - {matches[0].node})
      else if Known(f.jobType) then f.(jobs := f.jobs[job := f.next], next := f.next + 1) else f
    case NodeArrives(node) =>
      if matches != [] then f.(jobs := f.jobs - {matches[0].job})
      else if Known(f.jobType) then f.(nodes := f.nodes[node := f.next], next := f.next + 1) else f
    case JobLeaves(job) => f.(jobs := f.jobs - {job})
    case NodeLeaves(node) => f.(nodes := f.nodes - {node})
    case TypeChanges(t) => f.(jobType := t)
  }

  /** Nobody waits on the other side, so whoever arrives joins the queue, or is turned away. */
  lemma JoinRefines(m: Market, f: Floor, e: Event)
    requires Represents(m, f) && MarketStep(m, e).Ok?
    requires (e.JobArrives? && m.queueType != NodeQueue) || (e.NodeArrives? && m.queueType != JobQueue)
    ensures var (m', matches) := MarketStep(m, e).value;
            FloorStep(f, e, After(m, f, e), matches) && Represents(m', After(m, f, e))
  {
    var key := if e.JobArrives? then e.job else e.node;
    JoinsInOrder(m.queue, if e.JobArrives? then f.jobs else f.nodes, f.next, key);
  }

  /** Somebody waits on the other side: the head of the queue is matched. */
  lemma MatchRefines(m: Market, f: Floor, e: Event)
    requires Represents(m, f) && MarketStep(m, e).Ok?
    requires (e.JobArrives? && m.queueType == NodeQueue) || (e.NodeArrives? && m.queueType == JobQueue)
    ensures var (m', matches) := MarketStep(m, e).value;
            FloorStep(f, e, After(m, f, e), matches) && Represents(m', After(m, f, e))
  {
    var room := if e.JobArrives? then f.nodes else f.jobs;
    HeadIsOldest(m.queue, room, f.next);
    if |m.queue| == 1 {
      EmptyInOrder(room - {m.queue[0]}, f.next);
    }
  }

  lemma DepartureRefines(m: Market, f: Floor, e: Event)
    requires Represents(m, f) && MarketStep(m, e).Ok? && (e.JobLeaves? || e.NodeLeaves?)
    ensures var (m', matches) := MarketStep(m, e).value;
            FloorStep(f, e, After(m, f, e), matches) && Represents(m', After(m, f, e))
  {
    var room := if m.queueType == JobQueue then f.jobs else f.nodes;
    var key := if e.JobLeaves? then e.job else e.node;
    var i := Position(m.queue, key).value;
    LeavesInOrder(m.queue, room, f.next, i);
    if Without(m.queue, i) == [] {
      EmptyInOrder(room - {key}, f.next);
    }
  }

  /**
    Each step of the tagged queue is the step of the two rooms: the same matches, always with the
    longest waiting, the same refusals, and everyone else keeps their place.
    */
  lemma StepRefines(m: Market, f: Floor, e: Event)
    requires Represents(m, f)
    ensures MarketStep(m, e).Abort? ==> forall f', matches :: !FloorStep(f, e, f', matches)
    ensures MarketStep(m, e).Ok? ==>
              var (m', matches) := MarketStep(m, e).value;
              FloorStep(f, e, After(m, f, e), matches) && Represents(m', After(m, f, e))
  {
    if MarketStep(m, e).Abort? {
      AbortRefines(m, f, e);
    } else if e.JobArrives? || e.NodeArrives? {
      if m.queueType == if e.JobArrives? then NodeQueue else JobQueue {
        MatchRefines(m, f, e);
      } else {
        JoinRefines(m, f, e);
      }
    } else if e.JobLeaves? || e.NodeLeaves? {
      DepartureRefines(m, f, e);
    }
  }

  /** The matches of a run; refused events change nothing. */
  function MarketRun(m: Market, events: seq<Event>): (Market, seq<Match>)
    decreases |events|
  {
    if events == [] then (m, [])
    else
      match MarketStep(m, events[0])
      case Abort => MarketRun(m, events[1..])
      case Ok((m', matches)) =>
        var (end, later) := MarketRun(m', events[1..]);
        (end, matches + later)
  }

  /** The floor can go through the events, refusing only what it must, with these matches. */
  ghost predicate FloorRun(f: Floor, events: seq<Event>, end: Floor, matches: seq<Match>)
    decreases |events|
  {
    if events == [] then end == f && matches == []
    else
      || ((forall f', ms :: !FloorStep(f, events[0], f', ms)) && FloorRun(f, events[1..], end, matches))
      || exists f', ms :: ms <= matches && FloorStep(f, events[0], f', ms)
                          && FloorRun(f', events[1..], end, matches[|ms|..])
  }

  /** Over whole runs the single queue makes the matches of the two waiting rooms. */
  lemma {:induction false} RunRefines(m: Market, f: Floor, events: seq<Event>) returns (end: Floor)
    requires Represents(m, f)
    ensures Represents(MarketRun(m, events).0, end)
    ensures FloorRun(f, events, end, MarketRun(m, events).1)
    decreases |events|
  {
    StepRefines(m, f, if events == [] then TypeChanges(m.jobType) else events[0]);
    if events == [] {
      end := f;
    } else if MarketStep(m, events[0]).Abort? {
      end := RunRefines(m, f, events[1..]);
    } else {
      var (m', matches) := MarketStep(m, events[0]).value;
      end := RunRefines(m', After(m, f, events[0]), events[1..]);
      var later := MarketRun(m', events[1..]).1;
      assert (matches + later)[|matches|..] == later;
    }
  }

  /** A freshly opened market stands for two empty rooms. */
  lemma OpenedRefines(authority: Pubkey, expiration: i64, price: u64, jobType: u8, minimum: u128)
    ensures Represents(Opened(authority, expiration, price, jobType, minimum),
                       Floor(map[], map[], 0, JobType(jobType)))
  {
  }

  /** The floor's rule decides its matches: no other step is possible. */
  lemma FloorDecides(f: Floor, e: Event, f1: Floor, m1: seq<Match>, f2: Floor, m2: seq<Match>)
    requires FloorStep(f, e, f1, m1) && FloorStep(f, e, f2, m2)
    ensures f1 == f2 && m1 == m2
  {
    match e
    case JobArrives(job) =>
      if f.nodes != map[] {
        var a :| Oldest(f.nodes, a) && m1 == [Match(job, a)] && f1 == f.(nodes := f.nodes - {a});
        var b :| Oldest(f.nodes, b) && m2 == [Match(job, b)] && f2 == f.(nodes := f.nodes - {b});
        assert a == b;
      }
    case NodeArrives(node) =>
      if f.jobs != map[] {
        var a :| Oldest(f.jobs, a) && m1 == [Match(a, node)] && f1 == f.(jobs := f.jobs - {a});
        var b :| Oldest(f.jobs, b) && m2 == [Match(b, node)] && f2 == f.(jobs := f.jobs - {b});
        assert a == b;
      }
    case _ =>
  }
}
