/**
 The audit queue's bound told in bytes: what its live events own, counted from
 the events alone, against the bytes the queue was built for.
 */
module AuditBytes {
  import opened AuditRun
  import opened AuditQueue
  import opened AuditSafety

  /** The default capacity, and the events it is a bound for. */
  const QUEUE_BYTES: nat := 32 * 1024 * 1024
  const QUEUE_EVENTS: nat := 32768

  function Min(a: nat, b: nat): nat { if a < b then a else b }

  function Max(a: nat, b: nat): nat { if a < b then b else a }

  /** The bytes an event is, text and structure. */
  function Bytes(e: Event, c: Config): nat { e.owned + c.eventSize }

  /** The most one event can hold of a queue. */
  function Most(c: Config): nat { Min(c.capacity, U32_MAX) }

  /** The bytes of some events, none counted above what one event can hold. */
  function Owned(events: seq<Event>, c: Config): nat {
    if events == [] then 0 else Min(Bytes(events[0], c), Most(c)) + Owned(events[1..], c)
  }

  /** The same with every event counted as the least charge at least. */
  function Held(events: seq<Event>, c: Config): nat {
    if events == [] then 0 else Min(Max(Bytes(events[0], c), EVENT_FLOOR), Most(c)) + Held(events[1..], c)
  }

  lemma {:induction false} OwnedWithinHeld(events: seq<Event>, c: Config)
    ensures Owned(events, c) <= Held(events, c)
  {
    if events == [] {
    } else {
      OwnedWithinHeld(events[1..], c);
    }
  }

  lemma {:induction false} RoomsAreHeld(events: seq<Event>, c: Config)
    ensures Rooms(events, c) == Held(events, c)
  {
    if events == [] {
    } else {
      RoomsAreHeld(events[1..], c);
    }
  }

  /** The bytes of the live events are within the capacity, and the free room
      is exactly what they leave. */
  ghost predicate WithinBytes(s: State) {
    && Owned(Live(s), s.config) <= Held(Live(s), s.config) <= s.config.capacity
    && s.free == s.config.capacity - Held(Live(s), s.config)
  }

  lemma HoldsWithin(s: State)
    requires RoomInv(s)
    ensures WithinBytes(s)
  {
    RoomsAreHeld(Live(s), s.config);
    OwnedWithinHeld(Live(s), s.config);
  }

  /** The capacity asked for, brought within what the semaphore can count. */
  lemma BoundedIsNearest(asked: nat)
    ensures Bounded(asked) == Max(1, Min(asked, MAX_PERMITS))
  {
  }

  /** In every reachable state of a queue built for `asked` bytes. */
  lemma BytesAreBounded(asked: nat, config: Config, steps: seq<Step>)
    requires config.capacity == Bounded(asked) && CanRun(Init(config), steps)
    ensures WithinBytes(RunFrom(Init(config), steps)) && RunFrom(Init(config), steps).config == config
  {
    InitHolds(config);
    RunKeeps(Init(config), steps);
    HoldsWithin(RunFrom(Init(config), steps));
  }

  /** A queue of the default size never holds more events than documented. */
  lemma DefaultQueueHoldsFewEvents(s: State)
    requires Inv(s) && s.config.capacity == QUEUE_BYTES
    ensures |Live(s)| <= QUEUE_EVENTS
  {
    NeverOverfull(s);
  }

  /** A caller waits exactly when its event and the bytes already held are more
      than the capacity, and is counted as waiting exactly then. */
  lemma WaitsIffFull(s: State, e: Event)
    requires Inv(s) && Enabled(s, Arrive(e))
    ensures var t := Apply(s, Arrive(e));
      var full := Held(Live(s), s.config) + Held([e], s.config) > s.config.capacity;
      && t.waiting == (if full then s.waiting + [e] else s.waiting)
      && t.holding == (if full then s.holding else s.holding + [e])
      && t.counts.waited == s.counts.waited + (if full then 1 else 0)
  {
    RoomsAreHeld(Live(s), s.config);
    RoomsAreHeld([e], s.config);
    RoomsOne(e, s.config);
  }

  /** A waiting caller is let in exactly when its event fits beside the bytes held. */
  lemma GrantedIffFits(s: State, i: nat)
    requires Inv(s) && i < |s.waiting|
    ensures Enabled(s, Grant(i)) <==> Held(Live(s), s.config) + Held([s.waiting[i]], s.config) <= s.config.capacity
  {
    RoomsAreHeld(Live(s), s.config);
    RoomsAreHeld([s.waiting[i]], s.config);
    RoomsOne(s.waiting[i], s.config);
  }

  // ---------------------------------------------------------------------
  // The counters and the writer, from the steps of a run
  // ---------------------------------------------------------------------

  /** The steps at which a caller found the queue full. */
  ghost function Waits(s: State, steps: seq<Step>): nat
    requires CanRun(s, steps)
    decreases |steps|
  {
    if steps == [] then 0 else
      var step := steps[0];
      var full := step.Arrive? && Held(Live(s), s.config) + Held([step.e], s.config) > s.config.capacity;
      (if full then 1 else 0) + Waits(Apply(s, step), steps[1..])
  }

  /** The steps at which the store answered a write, with that reply if asked for. */
  ghost function Writes(s: State, steps: seq<Step>, stored: bool): nat
    requires CanRun(s, steps)
    decreases |steps|
  {
    if steps == [] then 0 else
      var step := steps[0];
      var write := step.Answer? && !s.jobs[step.i].stage.phase.Opening? && (stored ==> step.reply.Ok?);
      (if write then 1 else 0) + Writes(Apply(s, step), steps[1..], stored)
  }

  lemma {:induction false} RunCounts(s: State, steps: seq<Step>)
    requires Inv(s) && CanRun(s, steps)
    ensures var t := RunFrom(s, steps);
      && t.counts.waited == s.counts.waited + Waits(s, steps)
      && t.counts.attempts == s.counts.attempts + Writes(s, steps, false)
      && t.counts.commits == s.counts.commits + Writes(s, steps, true)
    decreases |steps|
  {
    if steps == [] {
    } else {
      var step := steps[0];
      OnlyAnswersWrite(s, step);
      WaitedMoves(s, step);
      InvKept(s, step);
      RunCounts(Apply(s, step), steps[1..]);
    }
  }

  lemma WaitedMoves(s: State, step: Step)
    requires Inv(s) && Enabled(s, step)
    ensures Apply(s, step).counts.waited == s.counts.waited
      + if step.Arrive? && Held(Live(s), s.config) + Held([step.e], s.config) > s.config.capacity then 1 else 0
  {
    if step.Arrive? {
      WaitsIffFull(s, step.e);
    }
  }

  /** `waited` counts the callers that found the queue full, `attempts` the
      writes the store answered and `commits` those it answered `Ok`. */
  lemma CountersTellTheRun(config: Config, steps: seq<Step>)
    requires config.Valid() && CanRun(Init(config), steps)
    ensures var counts := RunFrom(Init(config), steps).counts;
      && counts.waited == Waits(Init(config), steps)
      && counts.attempts == Writes(Init(config), steps, false)
      && counts.commits == Writes(Init(config), steps, true)
  {
    InitHolds(config);
    RunCounts(Init(config), steps);
  }

  /** What the first send of a run makes of the writer thread. */
  ghost function WriterAfter(writer: Writer, steps: seq<Step>): Writer {
    if steps == [] then writer
    else if steps[0].Send? && writer.Unstarted? then (if steps[0].spawned then Running else Absent)
    else WriterAfter(writer, steps[1..])
  }

  /** The writer runs exactly when the thread of the first send started; no
      later send asks again. */
  lemma {:induction false} FirstSendStartsTheWriter(s: State, steps: seq<Step>)
    requires CanRun(s, steps)
    ensures RunFrom(s, steps).writer == WriterAfter(s.writer, steps)
    decreases |steps|
  {
    if steps == [] {
    } else {
      var next := Apply(s, steps[0]);
      FirstSendStartsTheWriter(next, steps[1..]);
      if !next.writer.Unstarted? {
        StartedStays(next.writer, steps[1..]);
      }
    }
  }

  lemma {:induction false} StartedStays(writer: Writer, steps: seq<Step>)
    requires !writer.Unstarted?
    ensures WriterAfter(writer, steps) == writer
  {
    if steps == [] {
    } else {
      StartedStays(writer, steps[1..]);
    }
  }
}
