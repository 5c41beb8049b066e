/**
  Matchmaking over whole runs of the jobs program: whatever the instructions, every market behaves
  like two waiting rooms, and the runs that listing and working start are exactly their matches.
  */
module Matching {
  import opened JobFates
  import opened Machine
  import opened Marketplace
  import opened Markets
  import opened Token

  /** What an instruction means to the waiting rooms of market `m`, if it goes through and means anything. */
  function EventIn(w: World, op: Op, m: Pubkey): Option<Event>
    requires m in w.markets
  {
    if Step(w, op).Abort? then None
    else if op.List? || op.Assign? || op.Work? || op.Stop? then
      if op.market == m then Some(EventOf(op)) else None
    else if op.Delist? then
      if op.job in w.jobs && w.jobs[op.job].market == m then Some(EventOf(op)) else None
    else if op.Update? && op.market == m then
      Some(TypeChanges(Updated(w.markets[m], op.expiration, op.price, op.jobType, op.minimum).jobType))
    else None
  }

  /** The job and the node of the run that listing or working starts, if it starts one. */
  function RunStarted(w: World, op: Op): seq<Match> {
    if !(op.List? || op.Work?) || Step(w, op).Abort? then []
    else
      var runs := Next(w, op).runs;
      if op.run in runs then [Match(runs[op.run].job, runs[op.run].node)] else []
  }

  /** An instruction without a meaning to the market leaves its queue and its job type alone. */
  lemma QuietInMarket(w: World, op: Op, m: Pubkey)
    requires m in w.markets && EventIn(w, op, m).None?
    ensures m in Next(w, op).markets && Next(w, op).markets[m] == w.markets[m]
  {
  }

  /** An instruction that means an arrival or a departure is the tagged queue's step for it. */
  lemma QueueStepIn(w: World, op: Op, m: Pubkey)
    requires Lifecycle(w) && m in w.markets && EventIn(w, op, m).Some? && !op.Update?
    ensures var e := EventIn(w, op, m).value;
            && MarketStep(w.markets[m], e).Ok? && m in Next(w, op).markets
            && MarketStep(w.markets[m], e).value == (Next(w, op).markets[m], RunStarted(w, op))
  {
    if op.List? || op.Work? {
      StepIsMarketStep(w, op);
      assert op.run !in w.runs;
    } else {
      StepIsRemoval(w, op);
    }
  }

  lemma UpdateFollows(mk: Market, f: Floor, expiration: i64, price: u64, jobType: u8, minimum: u128)
    requires Represents(mk, f)
    ensures var mk' := Updated(mk, expiration, price, jobType, minimum);
            Represents(mk', f.(jobType := mk'.jobType))
  {
  }

  /**
    One instruction: the waiting rooms of the market take the step of its event, and the run started
    is the match they make.
    */
  lemma StepFollows(w: World, op: Op, m: Pubkey, f: Floor) returns (f': Floor)
    requires Lifecycle(w) && m in w.markets && Represents(w.markets[m], f)
    ensures m in Next(w, op).markets && Represents(Next(w, op).markets[m], f')
    ensures match EventIn(w, op, m)
            case None => f' == f
            case Some(e) => FloorStep(f, e, f', RunStarted(w, op))
  {
    match EventIn(w, op, m)
    case None =>
      QuietInMarket(w, op, m);
      f' := f;
    case Some(e) =>
      if op.Update? {
        UpdateFollows(w.markets[m], f, op.expiration, op.price, op.jobType, op.minimum);
        f' := f.(jobType := e.jobType);
      } else {
        QueueStepIn(w, op, m);
        StepRefines(w.markets[m], f, e);
        f' := After(w.markets[m], f, e);
      }
  }

  ghost function EventsIn(w: World, ops: seq<Op>, m: Pubkey): seq<Event>
    requires m in w.markets
    decreases |ops|
  {
    if ops == [] then []
    else
      MarketStays(w, ops[0], m);
      var later := EventsIn(Next(w, ops[0]), ops[1..], m);
      match EventIn(w, ops[0], m)
      case None => later
      case Some(e) => [e] + later
  }

  /** The runs that listing and working start in market `m`, in order. */
  ghost function RunsStarted(w: World, ops: seq<Op>, m: Pubkey): seq<Match>
    requires m in w.markets
    decreases |ops|
  {
    if ops == [] then []
    else
      MarketStays(w, ops[0], m);
      var later := RunsStarted(Next(w, ops[0]), ops[1..], m);
      if EventIn(w, ops[0], m).Some? then RunStarted(w, ops[0]) + later else later
  }

  lemma MarketStays(w: World, op: Op, m: Pubkey)
    requires m in w.markets
    ensures m in Next(w, op).markets
  {
  }

  /** The waiting rooms go through all these events, none refused, and make exactly these matches. */
  ghost predicate FloorTrace(f: Floor, events: seq<Event>, end: Floor, matches: seq<Match>)
    decreases |events|
  {
    if events == [] then end == f && matches == []
    else
      exists f', ms :: ms <= matches && FloorStep(f, events[0], f', ms)
                       && FloorTrace(f', events[1..], end, matches[|ms|..])
  }

  /**
    Over whole runs, next to any number of other markets: each market stands for two waiting rooms
    that went through its events, and the runs started in it are the matches those rooms make.
    */
  lemma {:induction false} RunFollows(w: World, ops: seq<Op>, m: Pubkey, f: Floor) returns (end: Floor)
    requires Lifecycle(w) && m in w.markets && Represents(w.markets[m], f)
    ensures m in Run(w, ops).markets && Represents(Run(w, ops).markets[m], end)
    ensures FloorTrace(f, EventsIn(w, ops, m), end, RunsStarted(w, ops, m))
    decreases |ops|
  {
    if ops == [] {
      end := f;
    } else {
      var f' := StepFollows(w, ops[0], m, f);
      StepLives(w, ops[0]);
      var w' := Next(w, ops[0]);
      end := RunFollows(w', ops[1..], m, f');
      if EventIn(w, ops[0], m).Some? {
        var e := EventIn(w, ops[0], m).value;
        var events, matches := EventsIn(w, ops, m), RunsStarted(w, ops, m);
        var ms := RunStarted(w, ops[0]);
        assert events[0] == e && events[1..] == EventsIn(w', ops[1..], m);
        assert ms <= matches && matches[|ms|..] == RunsStarted(w', ops[1..], m);
      }
    }
  }

  lemma {:induction false} RunOn(w: World, before: seq<Op>, ops: seq<Op>)
    ensures Run(w, before + ops) == Run(Run(w, before), ops)
    decreases |before|
  {
    if before == [] {
      assert before + ops == ops;
    } else {
      assert (before + ops)[1..] == before[1..] + ops;
      RunOn(Next(w, before[0]), before[1..], ops);
    }
  }

  /**
    A market opened anywhere in a run: from two empty waiting rooms on, its events and its runs are
    those of the rooms to the end of the run.
    */
  lemma OpenedMarketFollows(w: World, before: seq<Op>, open: Op, ops: seq<Op>) returns (end: Floor)
    requires Lifecycle(w) && open.Open? && Step(Run(w, before), open).Ok?
    ensures var start := Next(Run(w, before), open);
            && open.market in start.markets
            && Run(w, before + [open] + ops) == Run(start, ops)
            && open.market in Run(start, ops).markets
            && Represents(Run(start, ops).markets[open.market], end)
            && FloorTrace(Floor(map[], map[], 0, JobType(open.jobType)),
                          EventsIn(start, ops, open.market), end, RunsStarted(start, ops, open.market))
  {
    RunLives(w, before);
    var mid := Run(w, before);
    StepLives(mid, open);
    OpenedRefines(open.signer, open.expiration, open.price, open.jobType, open.minimum);
    end := RunFollows(Next(mid, open), ops, open.market, Floor(map[], map[], 0, JobType(open.jobType)));
    RunOn(w, before + [open], ops);
    RunOn(w, before, [open]);
    assert [open][1..] == [];
  }

  /** The waiting rooms' matches are determined by the events alone. */
  lemma {:induction false} TraceDecides(f: Floor, events: seq<Event>, end1: Floor, matches1: seq<Match>,
                                        end2: Floor, matches2: seq<Match>)
    requires FloorTrace(f, events, end1, matches1) && FloorTrace(f, events, end2, matches2)
    ensures end1 == end2 && matches1 == matches2
    decreases |events|
  {
    if events == [] {
    } else {
      var f1, ms1 :| ms1 <= matches1 && FloorStep(f, events[0], f1, ms1)
        && FloorTrace(f1, events[1..], end1, matches1[|ms1|..]);
      var f2, ms2 :| ms2 <= matches2 && FloorStep(f, events[0], f2, ms2)
        && FloorTrace(f2, events[1..], end2, matches2[|ms2|..]);
      FloorDecides(f, events[0], f1, ms1, f2, ms2);
      TraceDecides(f1, events[1..], end1, matches1[|ms1|..], end2, matches2[|ms1|..]);
      assert matches1 == ms1 + matches1[|ms1|..] && matches2 == ms1 + matches2[|ms1|..];
    }
  }
}
