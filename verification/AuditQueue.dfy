/**
 The audit queue as a step system: callers that push events against a bounded
 number of bytes, and the one writer that drains them in batches.

 Any number of callers interleave with the writer in any order. The store
 answers whatever it likes, a waiting caller may be abandoned, and the writer
 thread may fail to start, in which case each caller writes its own event.
 */
module AuditQueue {
  import opened AuditFate
  import opened AuditRun
  import opened Bags

  const BATCH_EVENTS: nat := 512
  const EVENT_FLOOR: nat := 1024
  const MAX_PERMITS: nat := 0x1FFF_FFFF_FFFF_FFFF
  const USIZE_MAX: nat := 0xFFFF_FFFF_FFFF_FFFF
  const U32_MAX: nat := 0xFFFF_FFFF

  /** The queue's bound in bytes, the attempts a locked batch is given, and
      the size of an event without the text it owns. */
  datatype Config = Config(capacity: nat, attempts: nat, eventSize: nat) {
    ghost predicate Valid() {
      1 <= capacity <= MAX_PERMITS
    }
  }

  /** The capacity a queue is built with: the one asked for, clamped. */
  function Bounded(asked: nat): nat {
    if asked < 1 then 1 else if asked > MAX_PERMITS then MAX_PERMITS else asked
  }

  /** What an event holds against the bound. */
  function Charge(e: Event, c: Config): nat {
    var whole := if e.owned + c.eventSize > USIZE_MAX then USIZE_MAX else e.owned + c.eventSize;
    if whole < EVENT_FLOOR then EVENT_FLOOR else whole
  }

  /** The permits `push` asks the semaphore for: the charge, clipped to the
      whole queue and to what the semaphore can count. */
  function Room(e: Event, c: Config): nat {
    var clipped := if Charge(e, c) > c.capacity then c.capacity else Charge(e, c);
    if clipped > U32_MAX then U32_MAX else clipped
  }

  function Rooms(events: seq<Event>, c: Config): nat {
    if events == [] then 0 else Room(events[0], c) + Rooms(events[1..], c)
  }

  datatype Stage = Gathering | Writing(phase: Phase)

  /** A batch in somebody's hands: the writer's, or a caller's own. */
  datatype Job = Job(batch: seq<Event>, stage: Stage)

  /** The writer thread: not asked for yet, running, or refused by the system. */
  datatype Writer = Unstarted | Running | Absent

  datatype Tally = Tally(queued: nat, written: nat, commits: nat, waited: nat, lost: nat, attempts: nat)

  /** `waiting` callers have no room yet; `holding` ones have room and are
      about to send. `arrived`, `sent`, `dropped`, `finished` and `lost` are
      the history the counters summarise. */
  datatype State = State(
    config: Config,
    free: nat,
    waiting: seq<Event>,
    holding: seq<Event>,
    writer: Writer,
    inbox: seq<Event>,
    jobs: seq<Job>,
    rows: seq<Event>,
    counts: Tally,
    arrived: seq<Event>,
    sent: seq<Event>,
    dropped: seq<Event>,
    finished: seq<Event>,
    lost: seq<Event>)

  datatype Step =
    | Arrive(e: Event)
    | Grant(i: nat)
    | Abandon(i: nat)
    | Send(i: nat, spawned: bool)
    | Receive
    | Gather
    | Close
    | Answer(i: nat, reply: Reply)
    | Finish(i: nat)

  function Flat(jobs: seq<Job>): seq<Event> {
    if jobs == [] then [] else jobs[0].batch + Flat(jobs[1..])
  }

  /** The events of a job already stored or lost. */
  function Decided(job: Job): seq<Event> {
    if job.stage.Writing? && (job.stage.phase.Each? ==> job.stage.phase.index <= |job.batch|)
    then Settled(job.stage.phase, job.batch) else []
  }

  function FlatDecided(jobs: seq<Job>): seq<Event> {
    if jobs == [] then [] else Decided(jobs[0]) + FlatDecided(jobs[1..])
  }

  /** The events holding room. */
  function Live(s: State): seq<Event> {
    s.holding + s.inbox + Flat(s.jobs)
  }

  function Init(config: Config): State {
    State(config, config.capacity, [], [], Unstarted, [], [], [], Tally(0, 0, 0, 0, 0, 0), [], [], [], [], [])
  }

  ghost predicate Enabled(s: State, step: Step) {
    match step
    case Arrive(e) => forall a :: a in s.arrived ==> a.id != e.id
    case Grant(i) => i < |s.waiting| && Room(s.waiting[i], s.config) <= s.free
    case Abandon(i) => i < |s.waiting|
    case Send(i, _) => i < |s.holding|
    case Receive => s.writer.Running? && s.jobs == [] && s.inbox != []
    case Gather => s.writer.Running? && |s.jobs| == 1 && s.jobs[0].stage.Gathering?
                   && |s.jobs[0].batch| < BATCH_EVENTS && s.inbox != []
    case Close => s.writer.Running? && |s.jobs| == 1 && s.jobs[0].stage.Gathering?
                  && (|s.jobs[0].batch| >= BATCH_EVENTS || s.inbox == [])
    case Answer(i, _) => i < |s.jobs| && s.jobs[i].stage.Writing? && !s.jobs[i].stage.phase.Ended?
                         && Fits(s.jobs[i].stage.phase, s.jobs[i].batch, Limit(s.config.attempts))
    case Finish(i) => i < |s.jobs| && s.jobs[i].stage == Writing(Ended)
  }

  /** `push` up to its first wait: counted, then room taken or a wait begun. */
  function Arrived(s: State, e: Event): State {
    var room := Room(e, s.config);
    var t := s.(arrived := s.arrived + [e], counts := s.counts.(queued := s.counts.queued + 1));
    if room <= s.free then t.(free := s.free - room, holding := s.holding + [e])
    else t.(waiting := s.waiting + [e], counts := t.counts.(waited := t.counts.waited + 1))
  }

  function Granted(s: State, i: nat): State
    requires Enabled(s, Grant(i))
  {
    s.(free := s.free - Room(s.waiting[i], s.config),
       waiting := Without(s.waiting, i),
       holding := s.holding + [s.waiting[i]])
  }

  /** The rest of `push`. The first sender asks for the writer thread; with no
      writer the caller writes the event itself. */
  function SentOn(s: State, i: nat, spawned: bool): State
    requires Enabled(s, Send(i, spawned))
  {
    var e := s.holding[i];
    var writer := if s.writer.Unstarted? then (if spawned then Running else Absent) else s.writer;
    var t := s.(writer := writer, holding := Without(s.holding, i), sent := s.sent + [e]);
    if writer.Running? then t.(inbox := s.inbox + [e])
    else t.(jobs := s.jobs + [Job([e], Writing(Opening))])
  }

  function Answered(s: State, i: nat, reply: Reply): State
    requires Enabled(s, Answer(i, reply))
  {
    var job := s.jobs[i];
    var limit := Limit(s.config.attempts);
    var gain := Gain(job.stage.phase, job.batch, reply, limit);
    s.(jobs := s.jobs[i := Job(job.batch, Writing(NextPhase(job.stage.phase, job.batch, reply, limit)))],
       rows := s.rows + gain.stored,
       lost := s.lost + gain.lost,
       counts := s.counts.(lost := s.counts.lost + |gain.lost|,
                           commits := s.counts.commits + gain.commits,
                           attempts := s.counts.attempts + gain.attempts))
  }

  /** The batch is counted and dropped, which gives its room back. */
  function Finished(s: State, i: nat): State
    requires Enabled(s, Finish(i))
  {
    var batch := s.jobs[i].batch;
    s.(jobs := Without(s.jobs, i),
       free := s.free + Rooms(batch, s.config),
       finished := s.finished + batch,
       counts := s.counts.(written := s.counts.written + |batch|))
  }

  function Apply(s: State, step: Step): State
    requires Enabled(s, step)
  {
    match step
    case Arrive(e) => Arrived(s, e)
    case Grant(i) => Granted(s, i)
    case Abandon(i) => s.(waiting := Without(s.waiting, i), dropped := s.dropped + [s.waiting[i]])
    case Send(i, spawned) => SentOn(s, i, spawned)
    case Receive => s.(inbox := s.inbox[1..], jobs := [Job([s.inbox[0]], Gathering)])
    case Gather => s.(inbox := s.inbox[1..], jobs := [Job(s.jobs[0].batch + [s.inbox[0]], Gathering)])
    case Close => s.(jobs := [Job(s.jobs[0].batch, Writing(Opening))])
    case Answer(i, reply) => Answered(s, i, reply)
    case Finish(i) => Finished(s, i)
  }

  ghost predicate CanRun(s: State, steps: seq<Step>)
    decreases |steps|
  {
    steps == [] || (Enabled(s, steps[0]) && CanRun(Apply(s, steps[0]), steps[1..]))
  }

  /** The state a run leads to. */
  ghost function RunFrom(s: State, steps: seq<Step>): State
    requires CanRun(s, steps)
    decreases |steps|
  {
    if steps == [] then s else RunFrom(Apply(s, steps[0]), steps[1..])
  }

  // ---------------------------------------------------------------------
  // What every step keeps
  // ---------------------------------------------------------------------

  ghost predicate JobFits(job: Job, limit: nat) {
    && 1 <= |job.batch| <= BATCH_EVENTS
    && (job.stage.Writing? ==> Fits(job.stage.phase, job.batch, limit))
  }

  /** One batch at a time in the writer's hands; single events in the
      callers' when there is no writer. */
  ghost predicate ShapeInv(s: State) {
    && s.config.Valid()
    && (forall j :: j in s.jobs ==> JobFits(j, Limit(s.config.attempts)))
    && (s.writer.Unstarted? ==> s.inbox == [] && s.jobs == [] && s.sent == [] && s.finished == [])
    && (s.writer.Running? ==> |s.jobs| <= 1)
    && (s.writer.Absent? ==> s.inbox == [] && forall j :: j in s.jobs ==> |j.batch| == 1 && j.stage.Writing?)
  }

  /** Free room and the room of every live event make up the capacity. */
  ghost predicate RoomInv(s: State) {
    s.free + Rooms(Live(s), s.config) == s.config.capacity
  }

  /** Every event that ever arrived is in exactly one place. */
  ghost predicate PlaceInv(s: State) {
    multiset(s.arrived)
    == multiset(s.waiting) + multiset(Live(s)) + multiset(s.finished) + multiset(s.dropped)
  }

  /** The stored and the lost events are exactly the finished ones and the
      decided part of each batch still being written. */
  ghost predicate FateInv(s: State) {
    multiset(s.rows) + multiset(s.lost) == multiset(s.finished) + multiset(FlatDecided(s.jobs))
  }

  ghost predicate CountInv(s: State) {
    && s.counts.queued == |s.arrived|
    && s.counts.written == |s.finished|
    && s.counts.lost == |s.lost|
    && s.counts.waited >= |s.waiting| + |s.dropped|
  }

  /** A running writer handles events in the order they were sent. */
  ghost predicate OrderInv(s: State) {
    s.writer.Running? ==> s.sent == s.finished + Flat(s.jobs) + s.inbox
  }

  ghost predicate Distinct(events: seq<Event>) {
    forall i, j :: 0 <= i < j < |events| ==> events[i].id != events[j].id
  }

  ghost predicate Inv(s: State) {
    ShapeInv(s) && RoomInv(s) && PlaceInv(s) && FateInv(s) && CountInv(s) && OrderInv(s) && Distinct(s.arrived)
  }

  // Sums and flattened batches over concatenation.

  lemma {:induction false} RoomsConcat(a: seq<Event>, b: seq<Event>, c: Config)
    ensures Rooms(a + b, c) == Rooms(a, c) + Rooms(b, c)
  {
    if a == [] {
      assert a + b == b;
    } else {
      RoomsConcat(a[1..], b, c);
      assert (a + b)[1..] == a[1..] + b;
    }
  }

  lemma {:induction false} FlatConcat(a: seq<Job>, b: seq<Job>)
    ensures Flat(a + b) == Flat(a) + Flat(b)
  {
    if a == [] {
      assert a + b == b;
    } else {
      FlatConcat(a[1..], b);
      assert (a + b)[1..] == a[1..] + b && (a + b)[0] == a[0];
      Regroup(a[0].batch, Flat(a[1..]), Flat(b));
    }
  }

  lemma {:induction false} DecidedConcat(a: seq<Job>, b: seq<Job>)
    ensures FlatDecided(a + b) == FlatDecided(a) + FlatDecided(b)
  {
    if a == [] {
      assert a + b == b;
    } else {
      DecidedConcat(a[1..], b);
      assert (a + b)[1..] == a[1..] + b && (a + b)[0] == a[0];
      Regroup(Decided(a[0]), FlatDecided(a[1..]), FlatDecided(b));
    }
  }

  lemma FlatOne(job: Job)
    ensures Flat([job]) == job.batch && FlatDecided([job]) == Decided(job)
  {
    assert [job][1..] == [];
  }

  /** The jobs around position i, with any job in its place. */
  lemma FlatAt(jobs: seq<Job>, i: nat, job: Job)
    requires i < |jobs|
    ensures Flat(jobs[i := job]) == Flat(jobs[..i]) + job.batch + Flat(jobs[i + 1..])
    ensures FlatDecided(jobs[i := job]) == FlatDecided(jobs[..i]) + Decided(job) + FlatDecided(jobs[i + 1..])
    ensures Flat(Without(jobs, i)) == Flat(jobs[..i]) + Flat(jobs[i + 1..])
    ensures FlatDecided(Without(jobs, i)) == FlatDecided(jobs[..i]) + FlatDecided(jobs[i + 1..])
  {
    assert jobs[i := job] == (jobs[..i] + [job]) + jobs[i + 1..];
    FlatConcat(jobs[..i] + [job], jobs[i + 1..]);
    FlatConcat(jobs[..i], [job]);
    FlatConcat(jobs[..i], jobs[i + 1..]);
    DecidedConcat(jobs[..i] + [job], jobs[i + 1..]);
    DecidedConcat(jobs[..i], [job]);
    DecidedConcat(jobs[..i], jobs[i + 1..]);
    FlatOne(job);
  }

  /** The room of a set of events does not depend on their order. */
  lemma {:induction false} RoomsOfBag(a: seq<Event>, b: seq<Event>, c: Config)
    requires multiset(a) == multiset(b)
    ensures Rooms(a, c) == Rooms(b, c)
  {
    if a == [] {
      assert |multiset(b)| == 0;
    } else {
      assert a[0] in multiset(b);
      var i :| 0 <= i < |b| && b[i] == a[0];
      var rest := Without(b, i);
      assert a == [a[0]] + a[1..];
      WithoutBag(b, i);
      assert b == b[..i] + ([b[i]] + b[i + 1..]);
      assert multiset(a) == multiset([a[0]]) + multiset(a[1..]);
      Cancel(multiset(rest), multiset(a[1..]), a[0]);
      RoomsOfBag(a[1..], rest, c);
      RoomsConcat(b[..i], [b[i]] + b[i + 1..], c);
      RoomsConcat(b[..i], b[i + 1..], c);
      assert ([b[i]] + b[i + 1..])[1..] == b[i + 1..];
    }
  }

  /** The event that takes room in a step, and the batch that gives it back. */
  function Taken(s: State, step: Step): seq<Event>
    requires Enabled(s, step)
  {
    match step
    case Arrive(e) => if Room(e, s.config) <= s.free then [e] else []
    case Grant(i) => [s.waiting[i]]
    case _ => []
  }

  function Returned(s: State, step: Step): seq<Event>
    requires Enabled(s, step)
  {
    if step.Finish? then s.jobs[step.i].batch else []
  }

  lemma LiveAfterSend(s: State, i: nat, spawned: bool)
    requires Enabled(s, Send(i, spawned))
    ensures multiset(Live(SentOn(s, i, spawned))) == multiset(Live(s))
  {
    var e := s.holding[i];
    var job := Job([e], Writing(Opening));
    WithoutBag(s.holding, i);
    FlatConcat(s.jobs, [job]);
    FlatOne(job);
  }

  lemma LiveAfterTransfer(s: State, step: Step)
    requires Enabled(s, step) && (step.Receive? || step.Gather? || step.Close?)
    ensures multiset(Live(Apply(s, step))) == multiset(Live(s))
  {
    var t := Apply(s, step);
    FlatOne(t.jobs[0]);
    if step.Receive? {
      FromInbox(s.holding, s.inbox, []);
      assert [] + [s.inbox[0]] == [s.inbox[0]];
    } else {
      assert s.jobs == [s.jobs[0]];
      FlatOne(s.jobs[0]);
      if step.Gather? {
        FromInbox(s.holding, s.inbox, s.jobs[0].batch);
      }
    }
  }

  lemma FromInbox(holding: seq<Event>, inbox: seq<Event>, batch: seq<Event>)
    requires inbox != []
    ensures multiset(holding + inbox[1..] + (batch + [inbox[0]])) == multiset(holding + inbox + batch)
  {
    assert inbox == [inbox[0]] + inbox[1..];
  }

  lemma LiveAfterAnswer(s: State, i: nat, reply: Reply)
    requires Enabled(s, Answer(i, reply))
    ensures Live(Answered(s, i, reply)) == Live(s)
  {
    FlatAt(s.jobs, i, s.jobs[i]);
    assert s.jobs[i := s.jobs[i]] == s.jobs;
    FlatAt(s.jobs, i, Answered(s, i, reply).jobs[i]);
  }

  lemma LiveAfterFinish(s: State, i: nat)
    requires Enabled(s, Finish(i))
    ensures multiset(Live(Finished(s, i))) + multiset(s.jobs[i].batch) == multiset(Live(s))
  {
    FlatAt(s.jobs, i, s.jobs[i]);
    assert s.jobs[i := s.jobs[i]] == s.jobs;
  }

  /** Live events change only by taking room and giving it back. */
  lemma LiveMoves(s: State, step: Step)
    requires Enabled(s, step)
    ensures multiset(Live(Apply(s, step))) + multiset(Returned(s, step)) == multiset(Live(s)) + multiset(Taken(s, step))
  {
    match step
    case Send(i, spawned) => LiveAfterSend(s, i, spawned);
    case Answer(i, reply) => LiveAfterAnswer(s, i, reply);
    case Finish(i) => LiveAfterFinish(s, i);
    case Receive => LiveAfterTransfer(s, step);
    case Gather => LiveAfterTransfer(s, step);
    case Close => LiveAfterTransfer(s, step);
    case Arrive(_) =>
    case Grant(_) =>
    case Abandon(_) =>
  }

  lemma RoomsOne(e: Event, c: Config)
    ensures Rooms([e], c) == Room(e, c)
  {
    assert [e][1..] == [];
  }

  lemma FreeMoves(s: State, step: Step)
    requires Enabled(s, step)
    ensures Apply(s, step).free + Rooms(Taken(s, step), s.config) == s.free + Rooms(Returned(s, step), s.config)
    ensures Apply(s, step).config == s.config
  {
    if step.Arrive? {
      RoomsOne(step.e, s.config);
    } else if step.Grant? {
      RoomsOne(s.waiting[step.i], s.config);
    }
  }

  lemma RoomKept(s: State, step: Step)
    requires Enabled(s, step) && RoomInv(s)
    ensures RoomInv(Apply(s, step))
  {
    var t := Apply(s, step);
    LiveMoves(s, step);
    FreeMoves(s, step);
    RoomsOfBag(Live(t) + Returned(s, step), Live(s) + Taken(s, step), s.config);
    RoomsConcat(Live(t), Returned(s, step), s.config);
    RoomsConcat(Live(s), Taken(s, step), s.config);
  }

  lemma PlaceAfterGrant(s: State, i: nat)
    requires Enabled(s, Grant(i)) && PlaceInv(s)
    ensures PlaceInv(Granted(s, i))
  {
    LiveMoves(s, Grant(i));
    WithoutBag(s.waiting, i);
  }

  lemma PlaceAfterAbandon(s: State, i: nat)
    requires Enabled(s, Abandon(i)) && PlaceInv(s)
    ensures PlaceInv(Apply(s, Abandon(i)))
  {
    WithoutBag(s.waiting, i);
  }

  lemma PlaceAfterArrive(s: State, e: Event)
    requires Enabled(s, Arrive(e)) && PlaceInv(s)
    ensures PlaceInv(Arrived(s, e))
  {
    LiveMoves(s, Arrive(e));
  }

  lemma PlaceAfterFinish(s: State, i: nat)
    requires Enabled(s, Finish(i)) && PlaceInv(s)
    ensures PlaceInv(Finished(s, i))
  {
    LiveAfterFinish(s, i);
    assert multiset(Finished(s, i).finished) == multiset(s.finished) + multiset(s.jobs[i].batch);
  }

  lemma PlaceOfSameBag(s: State, t: State)
    requires PlaceInv(s) && multiset(Live(t)) == multiset(Live(s))
    requires t.arrived == s.arrived && t.waiting == s.waiting && t.finished == s.finished && t.dropped == s.dropped
    ensures PlaceInv(t)
  {
  }

  lemma PlaceKept(s: State, step: Step)
    requires Enabled(s, step) && PlaceInv(s)
    ensures PlaceInv(Apply(s, step))
  {
    match step
    case Arrive(e) => PlaceAfterArrive(s, e);
    case Grant(i) => PlaceAfterGrant(s, i);
    case Abandon(i) => PlaceAfterAbandon(s, i);
    case Finish(i) => PlaceAfterFinish(s, i);
    case Send(i, spawned) => LiveAfterSend(s, i, spawned); PlaceOfSameBag(s, SentOn(s, i, spawned));
    case Answer(i, reply) => LiveAfterAnswer(s, i, reply); PlaceOfSameBag(s, Answered(s, i, reply));
    case Receive => LiveAfterTransfer(s, step); PlaceOfSameBag(s, Apply(s, step));
    case Gather => LiveAfterTransfer(s, step); PlaceOfSameBag(s, Apply(s, step));
    case Close => LiveAfterTransfer(s, step); PlaceOfSameBag(s, Apply(s, step));
  }

  lemma DecidedAfterAnswer(s: State, i: nat, reply: Reply)
    requires Enabled(s, Answer(i, reply))
    ensures var job := s.jobs[i];
            var gain := Gain(job.stage.phase, job.batch, reply, Limit(s.config.attempts));
            multiset(FlatDecided(Answered(s, i, reply).jobs))
            == multiset(FlatDecided(s.jobs)) + multiset(gain.stored) + multiset(gain.lost)
  {
    var job, limit := s.jobs[i], Limit(s.config.attempts);
    var next := Answered(s, i, reply).jobs[i];
    var gain := Gain(job.stage.phase, job.batch, reply, limit);
    ReplyAdvances(job.stage.phase, job.batch, reply, limit);
    ReplySettles(job.stage.phase, job.batch, reply, limit);
    assert Decided(job) == Settled(job.stage.phase, job.batch);
    assert Decided(next) == Settled(next.stage.phase, job.batch);
    DecidedAt(s.jobs, i, next, multiset(gain.stored) + multiset(gain.lost));
  }

  lemma DecidedAt(jobs: seq<Job>, i: nat, next: Job, gain: multiset<Event>)
    requires i < |jobs| && multiset(Decided(next)) == multiset(Decided(jobs[i])) + gain
    ensures multiset(FlatDecided(jobs[i := next])) == multiset(FlatDecided(jobs)) + gain
  {
    FlatAt(jobs, i, jobs[i]);
    assert jobs[i := jobs[i]] == jobs;
    FlatAt(jobs, i, next);
  }

  lemma FateAfterAnswer(s: State, i: nat, reply: Reply)
    requires Enabled(s, Answer(i, reply)) && FateInv(s)
    ensures FateInv(Answered(s, i, reply))
  {
    var t := Answered(s, i, reply);
    var gain := Gain(s.jobs[i].stage.phase, s.jobs[i].batch, reply, Limit(s.config.attempts));
    DecidedAfterAnswer(s, i, reply);
    assert t.rows == s.rows + gain.stored && t.lost == s.lost + gain.lost && t.finished == s.finished;
    FateGrows(s, t, gain.stored, gain.lost);
  }

  lemma FateGrows(s: State, t: State, stored: seq<Event>, lost: seq<Event>)
    requires FateInv(s)
    requires t.rows == s.rows + stored && t.lost == s.lost + lost && t.finished == s.finished
    requires multiset(FlatDecided(t.jobs)) == multiset(FlatDecided(s.jobs)) + multiset(stored) + multiset(lost)
    ensures FateInv(t)
  {
    assert multiset(t.rows) == multiset(s.rows) + multiset(stored);
    assert multiset(t.lost) == multiset(s.lost) + multiset(lost);
    assert multiset(t.rows) + multiset(t.lost)
        == (multiset(s.rows) + multiset(s.lost)) + (multiset(stored) + multiset(lost));
    assert multiset(FlatDecided(t.jobs)) == multiset(FlatDecided(s.jobs)) + (multiset(stored) + multiset(lost));
  }

  lemma FateAfterFinish(s: State, i: nat)
    requires Enabled(s, Finish(i)) && FateInv(s)
    ensures FateInv(Finished(s, i))
  {
    FlatAt(s.jobs, i, s.jobs[i]);
    assert s.jobs[i := s.jobs[i]] == s.jobs;
  }

  lemma FateAfterSend(s: State, i: nat, spawned: bool)
    requires Enabled(s, Send(i, spawned)) && FateInv(s)
    ensures FateInv(SentOn(s, i, spawned))
  {
    var job := Job([s.holding[i]], Writing(Opening));
    DecidedConcat(s.jobs, [job]);
    FlatOne(job);
  }

  lemma FateAfterTransfer(s: State, step: Step)
    requires Enabled(s, step) && (step.Receive? || step.Gather? || step.Close?) && FateInv(s)
    ensures FateInv(Apply(s, step))
  {
    FlatOne(Apply(s, step).jobs[0]);
    if !step.Receive? {
      assert s.jobs == [s.jobs[0]];
      FlatOne(s.jobs[0]);
    }
  }

  lemma FateKept(s: State, step: Step)
    requires Enabled(s, step) && FateInv(s)
    ensures FateInv(Apply(s, step))
  {
    match step
    case Arrive(_) =>
    case Grant(_) =>
    case Abandon(_) =>
    case Send(i, spawned) => FateAfterSend(s, i, spawned);
    case Answer(i, reply) => FateAfterAnswer(s, i, reply);
    case Finish(i) => FateAfterFinish(s, i);
    case Receive => FateAfterTransfer(s, step);
    case Gather => FateAfterTransfer(s, step);
    case Close => FateAfterTransfer(s, step);
  }

  lemma CountKept(s: State, step: Step)
    requires Enabled(s, step) && CountInv(s)
    ensures CountInv(Apply(s, step))
  {
  }

  lemma OrderAfterTransfer(s: State, step: Step)
    requires Enabled(s, step) && (step.Receive? || step.Gather? || step.Close?) && OrderInv(s)
    ensures OrderInv(Apply(s, step))
  {
    var t := Apply(s, step);
    FlatOne(t.jobs[0]);
    if !step.Receive? {
      assert s.jobs == [s.jobs[0]];
      FlatOne(s.jobs[0]);
    }
  }

  lemma OrderKept(s: State, step: Step)
    requires Enabled(s, step) && ShapeInv(s) && OrderInv(s)
    ensures OrderInv(Apply(s, step))
  {
    match step
    case Arrive(_) =>
    case Grant(_) =>
    case Abandon(_) =>
    case Send(i, _) =>
    case Answer(i, reply) => SameFlat(s, Answered(s, i, reply), i);
    case Finish(i) =>
      if s.writer.Running? {
        assert i == 0 && s.jobs == [s.jobs[0]];
        FlatOne(s.jobs[0]);
      }
    case Receive => OrderAfterTransfer(s, step);
    case Gather => OrderAfterTransfer(s, step);
    case Close => OrderAfterTransfer(s, step);
  }

  lemma SameFlat(s: State, t: State, i: nat)
    requires i < |s.jobs| == |t.jobs| && t.jobs == s.jobs[i := t.jobs[i]] && t.jobs[i].batch == s.jobs[i].batch
    ensures Flat(t.jobs) == Flat(s.jobs)
  {
    FlatAt(s.jobs, i, s.jobs[i]);
    assert s.jobs[i := s.jobs[i]] == s.jobs;
    FlatAt(s.jobs, i, t.jobs[i]);
  }

  lemma ShapeAfterFinish(s: State, i: nat)
    requires Enabled(s, Finish(i)) && ShapeInv(s)
    ensures ShapeInv(Finished(s, i))
  {
    assert forall j :: j in Without(s.jobs, i) ==> j in s.jobs;
  }

  lemma ShapeAfterAnswer(s: State, i: nat, reply: Reply)
    requires Enabled(s, Answer(i, reply)) && ShapeInv(s)
    ensures ShapeInv(Answered(s, i, reply))
  {
    var t := Answered(s, i, reply);
    assert s.jobs[i] in s.jobs;
    assert forall j :: j in t.jobs ==> j in s.jobs || j == t.jobs[i];
  }

  lemma ShapeAfterTransfer(s: State, step: Step)
    requires Enabled(s, step) && (step.Receive? || step.Gather? || step.Close?) && ShapeInv(s)
    ensures ShapeInv(Apply(s, step))
  {
    var t := Apply(s, step);
    assert forall j :: j in t.jobs ==> j == t.jobs[0];
    if !step.Receive? {
      assert s.jobs[0] in s.jobs;
    }
  }

  lemma ShapeKept(s: State, step: Step)
    requires Enabled(s, step) && ShapeInv(s)
    ensures ShapeInv(Apply(s, step))
  {
    match step
    case Arrive(_) =>
    case Grant(_) =>
    case Abandon(_) =>
    case Send(i, spawned) =>
    case Answer(i, reply) => ShapeAfterAnswer(s, i, reply);
    case Finish(i) => ShapeAfterFinish(s, i);
    case Receive => ShapeAfterTransfer(s, step);
    case Gather => ShapeAfterTransfer(s, step);
    case Close => ShapeAfterTransfer(s, step);
  }

  lemma DistinctKept(s: State, step: Step)
    requires Enabled(s, step) && Distinct(s.arrived)
    ensures Distinct(Apply(s, step).arrived)
  {
  }

  lemma InvKept(s: State, step: Step)
    requires Enabled(s, step) && Inv(s)
    ensures Inv(Apply(s, step))
  {
    ShapeKept(s, step);
    RoomKept(s, step);
    PlaceKept(s, step);
    FateKept(s, step);
    CountKept(s, step);
    OrderKept(s, step);
    DistinctKept(s, step);
  }
}
