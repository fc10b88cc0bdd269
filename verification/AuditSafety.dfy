/**
 What holds of the audit queue over every run: the bound on held bytes, the
 fate of every event, and that the queue always drains.
 */
module AuditSafety {
  import opened AuditRun
  import opened AuditQueue
  import opened Bags

  lemma {:induction false} RunKeeps(s: State, steps: seq<Step>)
    requires Inv(s) && CanRun(s, steps)
    ensures Inv(RunFrom(s, steps)) && RunFrom(s, steps).config == s.config
    decreases |steps|
  {
    if steps == [] {
    } else {
      InvKept(s, steps[0]);
      FreeMoves(s, steps[0]);
      RunKeeps(Apply(s, steps[0]), steps[1..]);
    }
  }

  lemma InitHolds(config: Config)
    requires config.Valid()
    ensures Inv(Init(config))
  {
  }

  /** Any run of a queue built for `asked` bytes keeps every invariant. */
  lemma EveryRunKeeps(asked: nat, attempts: nat, eventSize: nat, steps: seq<Step>)
    requires CanRun(Init(Config(Bounded(asked), attempts, eventSize)), steps)
    ensures var t := RunFrom(Init(Config(Bounded(asked), attempts, eventSize)), steps);
            Inv(t) && t.config.capacity == Bounded(asked)
  {
    var config := Config(Bounded(asked), attempts, eventSize);
    InitHolds(config);
    RunKeeps(Init(config), steps);
  }

  // ---------------------------------------------------------------------
  // The bound
  // ---------------------------------------------------------------------

  /** The least room an event takes. */
  function Floor(c: Config): nat {
    if c.capacity < EVENT_FLOOR then c.capacity else EVENT_FLOOR
  }

  lemma {:induction false} RoomsAtLeast(events: seq<Event>, c: Config)
    ensures |events| * Floor(c) <= Rooms(events, c)
  {
    if events == [] {
    } else {
      RoomsAtLeast(events[1..], c);
      assert |events| * Floor(c) == |events[1..]| * Floor(c) + Floor(c);
    }
  }

  /** Callers never hold more bytes than the capacity, so the queue never has
      more events than least charges fit in it. */
  lemma NeverOverfull(s: State)
    requires Inv(s)
    ensures s.free <= s.config.capacity
    ensures s.config.capacity - s.free == Rooms(Live(s), s.config)
    ensures |Live(s)| <= s.config.capacity / Floor(s.config)
  {
    RoomsAtLeast(Live(s), s.config);
    AtMost(|Live(s)|, Floor(s.config), s.config.capacity);
  }

  lemma AtMost(n: nat, f: nat, c: nat)
    requires f > 0 && n * f <= c
    ensures n <= c / f
  {
    MulOrder(c / f + 1, n, f);
    assert (c / f + 1) * f == c / f * f + f;
  }

  lemma MulOrder(a: nat, b: nat, f: nat)
    ensures a <= b ==> a * f <= b * f
  {
    if a <= b {
      assert b * f == a * f + (b - a) * f;
    }
  }

  // ---------------------------------------------------------------------
  // What steps write and count
  // ---------------------------------------------------------------------

  /** Only an answer to a write stores or loses anything or is counted as an
      attempt, and only an `Ok` one stores, commits, and that exactly the rows
      of the request. */
  lemma OnlyAnswersWrite(s: State, step: Step)
    requires Enabled(s, step)
    ensures var t := Apply(s, step);
      if step.Answer? && !s.jobs[step.i].stage.phase.Opening? then
        var ok := step.reply.Ok?;
        && t.rows == s.rows + (if ok then Request(s.jobs[step.i].stage.phase, s.jobs[step.i].batch) else [])
        && t.counts.attempts == s.counts.attempts + 1
        && t.counts.commits == s.counts.commits + (if ok then 1 else 0)
      else
        t.rows == s.rows && t.counts.attempts == s.counts.attempts && t.counts.commits == s.counts.commits
  {
  }

  /** The writer closes a batch short of 512 events only when it holds every
      event sent and not yet finished. */
  lemma ClosedShortHoldsAll(s: State)
    requires Inv(s) && Enabled(s, Close)
    ensures |s.jobs[0].batch| == BATCH_EVENTS || s.sent == s.finished + s.jobs[0].batch
  {
    assert s.jobs == [s.jobs[0]] && JobFits(s.jobs[0], Limit(s.config.attempts));
    FlatOne(s.jobs[0]);
  }

  // ---------------------------------------------------------------------
  // The fate of every event
  // ---------------------------------------------------------------------

  lemma BagOfDistinct(events: seq<Event>, e: Event)
    requires Distinct(events)
    ensures multiset(events)[e] <= 1
    decreases |events|
  {
    if events != [] {
      assert events == [events[0]] + events[1..];
      BagOfDistinct(events[1..], e);
      assert forall j :: 0 <= j < |events[1..]| ==> events[1..][j] == events[j + 1] != events[0];
    }
  }

  /** Every event counted is finished, on its way or abandoned by its caller;
      an event is stored at most once, never both stored and lost, and only
      if it was pushed. */
  lemma EveryEventIsAccounted(s: State)
    requires Inv(s)
    ensures s.counts.queued == s.counts.written + |s.waiting| + |s.holding| + |s.inbox| + |Flat(s.jobs)| + |s.dropped|
    ensures forall e :: multiset(s.rows)[e] + multiset(s.lost)[e] <= multiset(s.arrived)[e] <= 1
  {
    assert |multiset(s.arrived)|
        == |multiset(s.waiting) + multiset(Live(s)) + multiset(s.finished) + multiset(s.dropped)|;
    forall e: Event
      ensures multiset(s.rows)[e] + multiset(s.lost)[e] <= multiset(s.arrived)[e] <= 1
    {
      BagOfDistinct(s.arrived, e);
      DecidedWithinFlat(s.jobs, e);
      assert (multiset(s.rows) + multiset(s.lost))[e] == (multiset(s.finished) + multiset(FlatDecided(s.jobs)))[e];
      assert multiset(Live(s))[e] >= multiset(Flat(s.jobs))[e];
    }
  }

  lemma {:induction false} DecidedWithinFlat(jobs: seq<Job>, e: Event)
    ensures multiset(FlatDecided(jobs))[e] <= multiset(Flat(jobs))[e]
  {
    if jobs == [] {
    } else {
      DecidedWithinFlat(jobs[1..], e);
      DecidedWithinBatch(jobs[0], e);
    }
  }

  lemma DecidedWithinBatch(job: Job, e: Event)
    ensures multiset(Decided(job))[e] <= multiset(job.batch)[e]
  {
    if job.stage.Writing? && job.stage.phase.Each? && job.stage.phase.index <= |job.batch| {
      assert job.batch == job.batch[..job.stage.phase.index] + job.batch[job.stage.phase.index..];
    }
  }

  /** Between batches the finished events are exactly the stored and the lost
      ones, and the counters say so. */
  lemma FinishedAreStoredOrLost(s: State)
    requires Inv(s)
    requires forall j :: j in s.jobs ==> Decided(j) == []
    ensures multiset(s.finished) == multiset(s.rows) + multiset(s.lost)
    ensures s.counts.written == |s.rows| + s.counts.lost
  {
    NothingDecided(s.jobs);
    assert multiset(s.rows) + multiset(s.lost) == multiset(s.finished);
    assert |multiset(s.rows) + multiset(s.lost)| == |multiset(s.finished)|;
  }

  lemma {:induction false} NothingDecided(jobs: seq<Job>)
    requires forall j :: j in jobs ==> Decided(j) == []
    ensures FlatDecided(jobs) == []
  {
    if jobs == [] {
    } else {
      assert jobs[0] in jobs;
      NothingDecided(jobs[1..]);
    }
  }

  // ---------------------------------------------------------------------
  // The queue drains
  // ---------------------------------------------------------------------

  ghost predicate Quiet(s: State) {
    s.waiting == [] && s.holding == [] && s.inbox == [] && s.jobs == []
  }

  /** While anything is unfinished, some caller or the writer can go on: in
      particular a charge as large as the whole queue is granted once it has
      drained. Where the step is a reply, any reply will do. */
  lemma NeverStuck(s: State, reply: Reply) returns (step: Step)
    requires Inv(s) && !Quiet(s)
    ensures Enabled(s, step) && !step.Arrive? && !step.Abandon?
    ensures step.Answer? ==> step.reply == reply
  {
    if s.jobs != [] {
      var job := s.jobs[0];
      assert job in s.jobs && JobFits(job, Limit(s.config.attempts));
      if job.stage.Gathering? {
        step := if |job.batch| < BATCH_EVENTS && s.inbox != [] then Gather else Close;
      } else if job.stage.phase.Ended? {
        step := Finish(0);
      } else {
        step := Answer(0, reply);
      }
    } else if s.inbox != [] {
      step := Receive;
    } else if s.holding != [] {
      step := Send(0, true);
    } else {
      assert Live(s) == [];
      step := Grant(0);
    }
  }

  function JobSteps(job: Job, limit: nat): nat {
    match job.stage
    case Gathering => |job.batch| + limit + 4
    case Writing(Opening) => |job.batch| + limit + 3
    case Writing(Whole(tried)) => |job.batch| + limit + 2 - (if tried < limit then tried else limit)
    case Writing(Each(index)) => |job.batch| + 1 - (if index < |job.batch| then index else |job.batch|)
    case Writing(Ended) => 1
  }

  function AllSteps(jobs: seq<Job>, limit: nat): nat {
    if jobs == [] then 0 else JobSteps(jobs[0], limit) + AllSteps(jobs[1..], limit)
  }

  /** A bound on the steps left while nothing new arrives. */
  function StepsLeft(s: State): nat {
    var each := Limit(s.config.attempts) + 6;
    |s.waiting| * (each + 2) + |s.holding| * (each + 1) + |s.inbox| * each + AllSteps(s.jobs, Limit(s.config.attempts))
  }

  lemma {:induction false} AllStepsConcat(a: seq<Job>, b: seq<Job>, limit: nat)
    ensures AllSteps(a + b, limit) == AllSteps(a, limit) + AllSteps(b, limit)
  {
    if a == [] {
      assert a + b == b;
    } else {
      AllStepsConcat(a[1..], b, limit);
      assert (a + b)[1..] == a[1..] + b;
    }
  }

  lemma AllStepsAt(jobs: seq<Job>, i: nat, job: Job, limit: nat)
    requires i < |jobs|
    ensures AllSteps(jobs[i := job], limit) + JobSteps(jobs[i], limit) == AllSteps(jobs, limit) + JobSteps(job, limit)
    ensures AllSteps(Without(jobs, i), limit) + JobSteps(jobs[i], limit) == AllSteps(jobs, limit)
  {
    AllStepsAround(jobs, i, limit);
    AllStepsAround(jobs[i := job], i, limit);
    assert jobs[i := job][..i] == jobs[..i] && jobs[i := job][i + 1..] == jobs[i + 1..];
    AllStepsConcat(jobs[..i], jobs[i + 1..], limit);
  }

  lemma AllStepsAround(jobs: seq<Job>, i: nat, limit: nat)
    requires i < |jobs|
    ensures AllSteps(jobs, limit) ==
      AllSteps(jobs[..i], limit) + JobSteps(jobs[i], limit) + AllSteps(jobs[i + 1..], limit)
  {
    assert jobs == jobs[..i] + jobs[i..];
    AllStepsConcat(jobs[..i], jobs[i..], limit);
    assert jobs[i..][1..] == jobs[i + 1..];
  }

  lemma OneMore(n: nat, k: nat)
    ensures (n + 1) * k == n * k + k
  {
  }

  lemma FallAfterSend(s: State, i: nat, spawned: bool)
    requires Enabled(s, Send(i, spawned))
    ensures StepsLeft(SentOn(s, i, spawned)) < StepsLeft(s)
  {
    var limit := Limit(s.config.attempts);
    var each := limit + 6;
    var t := SentOn(s, i, spawned);
    OneMore(|t.holding|, each + 1);
    OneMore(|s.inbox|, each);
    var job := Job([s.holding[i]], Writing(Opening));
    AllStepsConcat(s.jobs, [job], limit);
    assert [job][1..] == [];
    assert AllSteps([job], limit) == limit + 4;
  }

  lemma FallAfterTransfer(s: State, step: Step)
    requires Enabled(s, step) && (step.Receive? || step.Gather? || step.Close?)
    ensures StepsLeft(Apply(s, step)) < StepsLeft(s)
  {
    var limit := Limit(s.config.attempts);
    var t := Apply(s, step);
    assert t.jobs == [t.jobs[0]] && t.jobs[1..] == [];
    assert AllSteps(t.jobs, limit) == JobSteps(t.jobs[0], limit);
    if !step.Receive? {
      assert s.jobs == [s.jobs[0]] && s.jobs[1..] == [];
      assert AllSteps(s.jobs, limit) == JobSteps(s.jobs[0], limit);
    }
    if !step.Close? {
      OneMore(|t.inbox|, limit + 6);
    }
  }

  lemma FallAfterAnswer(s: State, i: nat, reply: Reply)
    requires Enabled(s, Answer(i, reply))
    ensures StepsLeft(Answered(s, i, reply)) < StepsLeft(s)
  {
    var t := Answered(s, i, reply);
    AllStepsAt(s.jobs, i, t.jobs[i], Limit(s.config.attempts));
    assert JobSteps(t.jobs[i], Limit(s.config.attempts)) < JobSteps(s.jobs[i], Limit(s.config.attempts));
  }

  lemma FallAfterFinish(s: State, i: nat)
    requires Enabled(s, Finish(i))
    ensures StepsLeft(Finished(s, i)) < StepsLeft(s)
  {
    AllStepsAt(s.jobs, i, s.jobs[i], Limit(s.config.attempts));
  }

  /** Every step but an arrival brings the end nearer. */
  lemma StepsFall(s: State, step: Step)
    requires Enabled(s, step) && !step.Arrive?
    ensures StepsLeft(Apply(s, step)) < StepsLeft(s)
  {
    var each := Limit(s.config.attempts) + 6;
    match step
    case Grant(i) => OneMore(|Granted(s, i).waiting|, each + 2); OneMore(|s.holding|, each + 1);
    case Abandon(i) => OneMore(|Apply(s, step).waiting|, each + 2);
    case Send(i, spawned) => FallAfterSend(s, i, spawned);
    case Answer(i, reply) => FallAfterAnswer(s, i, reply);
    case Finish(i) => FallAfterFinish(s, i);
    case Receive => FallAfterTransfer(s, step);
    case Gather => FallAfterTransfer(s, step);
    case Close => FallAfterTransfer(s, step);
  }

  /** A run in which nothing new arrives cannot go on for ever. */
  lemma {:induction false} DrainEnds(s: State, steps: seq<Step>)
    requires CanRun(s, steps) && forall step :: step in steps ==> !step.Arrive?
    ensures |steps| + StepsLeft(RunFrom(s, steps)) <= StepsLeft(s)
    decreases |steps|
  {
    if steps == [] {
    } else {
      assert steps[0] in steps;
      StepsFall(s, steps[0]);
      DrainEnds(Apply(s, steps[0]), steps[1..]);
    }
  }

  /** Once a run can go no further, all room is returned and every event
      pushed was stored once, lost once or abandoned by its caller. */
  lemma DrainedQueueIsWhole(s: State, steps: seq<Step>)
    requires Inv(s) && CanRun(s, steps)
    requires forall step :: Enabled(RunFrom(s, steps), step) ==> step.Arrive? || step.Abandon?
    ensures var t := RunFrom(s, steps);
            && Quiet(t)
            && t.free == t.config.capacity
            && t.counts.queued == t.counts.written + |t.dropped|
            && t.counts.written == |t.rows| + t.counts.lost
            && multiset(t.arrived) == multiset(t.rows) + multiset(t.lost) + multiset(t.dropped)
  {
    RunKeeps(s, steps);
    StuckIsQuiet(RunFrom(s, steps));
    QuietIsWhole(RunFrom(s, steps));
  }

  lemma StuckIsQuiet(t: State)
    requires Inv(t)
    ensures !Quiet(t) ==> exists step :: Enabled(t, step) && !step.Arrive? && !step.Abandon?
  {
    if !Quiet(t) {
      var step := NeverStuck(t, Ok);
    }
  }

  lemma QuietIsWhole(t: State)
    requires Inv(t) && Quiet(t)
    ensures t.free == t.config.capacity
    ensures t.counts.queued == t.counts.written + |t.dropped|
    ensures t.counts.written == |t.rows| + t.counts.lost
    ensures multiset(t.arrived) == multiset(t.rows) + multiset(t.lost) + multiset(t.dropped)
  {
    assert Live(t) == [];
    EveryEventIsAccounted(t);
    FinishedAreStoredOrLost(t);
  }

  // ---------------------------------------------------------------------
  // A store that refuses only some events
  // ---------------------------------------------------------------------

  /** The reply of a store that is never locked and refuses exactly the
      requests naming a bad event. */
  ghost predicate Judges(s: State, step: Step, bad: set<Event>)
    requires Enabled(s, step)
  {
    step.Answer? ==>
      var job := s.jobs[step.i];
      var rows := Request(job.stage.phase, job.batch);
      step.reply == if exists e :: e in rows && e in bad then Reply.Refused else Ok
  }

  ghost predicate JudgesAll(s: State, steps: seq<Step>, bad: set<Event>)
    requires CanRun(s, steps)
    decreases |steps|
  {
    steps == [] || (Judges(s, steps[0], bad) && JudgesAll(Apply(s, steps[0]), steps[1..], bad))
  }

  ghost predicate OnlyBadLost(s: State, bad: set<Event>) {
    && (forall e :: e in s.rows ==> e !in bad)
    && (forall e :: e in s.lost ==> e in bad)
  }

  lemma JudgeKeeps(s: State, step: Step, bad: set<Event>)
    requires Enabled(s, step) && Judges(s, step, bad) && OnlyBadLost(s, bad)
    ensures OnlyBadLost(Apply(s, step), bad)
  {
    if step.Answer? {
      var job := s.jobs[step.i];
      var gain := Gain(job.stage.phase, job.batch, step.reply, Limit(s.config.attempts));
      var rows := Request(job.stage.phase, job.batch);
      assert forall e :: e in gain.stored ==> e in rows;
      if gain.lost != [] {
        assert job.stage.phase.Each? && gain.lost == rows;
      }
    }
  }

  lemma {:induction false} JudgedRun(s: State, steps: seq<Step>, bad: set<Event>)
    requires CanRun(s, steps) && JudgesAll(s, steps, bad) && OnlyBadLost(s, bad)
    ensures OnlyBadLost(RunFrom(s, steps), bad)
    decreases |steps|
  {
    if steps == [] {
    } else {
      JudgeKeeps(s, steps[0], bad);
      JudgedRun(Apply(s, steps[0]), steps[1..], bad);
    }
  }

  /** However callers and writer interleave, events that cannot be stored
      cost only themselves: when the queue is quiet, an event is stored if
      and only if it was pushed, was not abandoned and is not a bad one. */
  lemma BadEventsCostOnlyThemselves(config: Config, steps: seq<Step>, bad: set<Event>)
    requires config.Valid() && CanRun(Init(config), steps) && JudgesAll(Init(config), steps, bad)
    requires Quiet(RunFrom(Init(config), steps))
    ensures var t := RunFrom(Init(config), steps);
            forall e :: e in t.rows <==> e in t.arrived && e !in t.dropped && e !in bad
  {
    InitHolds(config);
    RunKeeps(Init(config), steps);
    JudgedRun(Init(config), steps, bad);
    var t := RunFrom(Init(config), steps);
    QuietAndJudged(t, bad);
  }

  lemma QuietAndJudged(t: State, bad: set<Event>)
    requires Inv(t) && Quiet(t) && OnlyBadLost(t, bad)
    ensures forall e :: e in t.rows <==> e in t.arrived && e !in t.dropped && e !in bad
  {
    QuietIsWhole(t);
    forall e: Event
      ensures e in t.rows <==> e in t.arrived && e !in t.dropped && e !in bad
    {
      BagOfDistinct(t.arrived, e);
      assert multiset(t.arrived)[e] == multiset(t.rows)[e] + multiset(t.lost)[e] + multiset(t.dropped)[e];
      assert e in t.rows <==> multiset(t.rows)[e] > 0;
      assert e in t.lost <==> multiset(t.lost)[e] > 0;
      assert e in t.dropped <==> multiset(t.dropped)[e] > 0;
      assert e in t.arrived <==> multiset(t.arrived)[e] > 0;
    }
  }
}
