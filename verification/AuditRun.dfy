/**
 The audit writer's handling of one batch: one commit for the whole batch,
 tried again under lock contention, then each event alone when the batch is
 refused for any other reason.

 The metadata store is a script: it answers every request with `Ok`,
 `Contended` (another connection held the lock) or `Refused` (anything else),
 and a commit is atomic, so only an `Ok` stores anything.
 */
module AuditRun {

  /** A queued event: its identifier and the bytes of text it owns. */
  datatype Event = Event(id: nat, owned: nat)

  datatype Reply = Ok | Contended | Refused

  /** What the store answers, request by request: any script at all. It is
      locked once the script has run out. */
  type Script = seq<Reply>

  function At(script: Script, k: nat): (reply: Reply)
    ensures k < |script| ==> reply == script[k]
  {
    if k < |script| then script[k] else Contended
  }

  /** Where the handling of a batch stands. `Whole(n)` has tried the whole
      batch n times; `Each(n)` has settled the first n events one by one. */
  datatype Phase = Opening | Whole(tried: nat) | Each(index: nat) | Ended

  ghost predicate Fits(phase: Phase, batch: seq<Event>, limit: nat) {
    && limit >= 1
    && (phase.Whole? ==> phase.tried < limit)
    && (phase.Each? ==> phase.index < |batch|)
  }

  /** The events whose fate is already decided, in batch order. */
  function Settled(phase: Phase, batch: seq<Event>): seq<Event>
    requires phase.Each? ==> phase.index <= |batch|
  {
    if phase.Ended? then batch else if phase.Each? then batch[..phase.index] else []
  }

  /** The rows the next request names. */
  function Request(phase: Phase, batch: seq<Event>): seq<Event>
    requires phase.Each? ==> phase.index < |batch|
  {
    if phase.Whole? then batch else if phase.Each? then [batch[phase.index]] else []
  }

  /** A bound on the replies still needed. */
  ghost function Steps(phase: Phase, batch: seq<Event>, limit: nat): nat
    requires Fits(phase, batch, limit)
  {
    match phase
    case Opening => |batch| + limit + 3
    case Whole(tried) => |batch| + (limit - tried) + 2
    case Each(index) => |batch| - index + 1
    case Ended => 1
  }

  /** What handling a batch did: the rows stored, the events reported lost,
      the commits made and the writes tried. */
  datatype Effect = Effect(stored: seq<Event>, lost: seq<Event>, commits: nat, attempts: nat)

  const Nothing := Effect([], [], 0, 0)

  /** How often a locked batch is tried: once at least. */
  function Limit(attempts: nat): nat {
    if attempts < 1 then 1 else attempts
  }

  /** The phase a reply of the store leads to. */
  function NextPhase(phase: Phase, batch: seq<Event>, reply: Reply, limit: nat): Phase
    requires Fits(phase, batch, limit) && !phase.Ended?
  {
    match phase
    case Opening => if reply.Ok? then Whole(0) else Ended
    case Whole(tried) =>
      if reply.Refused? && batch != [] then Each(0)
      else if reply.Contended? && tried + 1 < limit then Whole(tried + 1)
      else Ended
    case Each(index) =>
      if reply.Contended? || index + 1 == |batch| then Ended else Each(index + 1)
  }

  /** Every reply brings a batch nearer to being settled. */
  lemma ReplyAdvances(phase: Phase, batch: seq<Event>, reply: Reply, limit: nat)
    requires Fits(phase, batch, limit) && !phase.Ended?
    ensures var next := NextPhase(phase, batch, reply, limit);
      Fits(next, batch, limit) && Steps(next, batch, limit) < Steps(phase, batch, limit)
  {
  }

  /** What a reply of the store does. */
  function Gain(phase: Phase, batch: seq<Event>, reply: Reply, limit: nat): Effect
    requires Fits(phase, batch, limit) && !phase.Ended?
  {
    match phase
    case Opening => if reply.Ok? then Nothing else Effect([], batch, 0, 0)
    case Whole(tried) =>
      if reply.Ok? then Effect(batch, [], 1, 1)
      else if reply.Contended? && tried + 1 >= limit then Effect([], batch, 0, 1)
      else Effect([], [], 0, 1)
    case Each(index) =>
      if reply.Ok? then Effect([batch[index]], [], 1, 1)
      else if reply.Contended? then Effect([], batch[index..], 0, 1)
      else Effect([], [batch[index]], 0, 1)
  }

  datatype Run = Run(phase: Phase, done: Effect)

  /** One request and its reply. */
  function Step(run: Run, batch: seq<Event>, reply: Reply, limit: nat): (next: Run)
    requires Fits(run.phase, batch, limit)
    ensures Fits(next.phase, batch, limit)
  {
    if run.phase.Ended? then run
    else
      var gain := Gain(run.phase, batch, reply, limit);
      ReplyAdvances(run.phase, batch, reply, limit);
      Run(NextPhase(run.phase, batch, reply, limit),
          Effect(run.done.stored + gain.stored, run.done.lost + gain.lost,
                 run.done.commits + gain.commits, run.done.attempts + gain.attempts))
  }

  /** The handling of a batch after the first k replies of the store. */
  function After(batch: seq<Event>, script: Script, limit: nat, k: nat): (run: Run)
    requires limit >= 1
    ensures Fits(run.phase, batch, limit)
    decreases k
  {
    if k == 0 then Run(Opening, Nothing) else Step(After(batch, script, limit, k - 1), batch, At(script, k - 1), limit)
  }

  /** The whole of `write_batch`: replies until the batch is settled. */
  function Written(batch: seq<Event>, script: Script, attempts: nat): Effect {
    After(batch, script, Limit(attempts), |batch| + Limit(attempts) + 3).done
  }

  /** A batch is settled once that many replies have come. */
  lemma {:induction false} RepliesAreBounded(batch: seq<Event>, script: Script, limit: nat, k: nat)
    requires limit >= 1
    ensures var run := After(batch, script, limit, k);
      run.phase.Ended? || Steps(run.phase, batch, limit) + k <= |batch| + limit + 3
  {
    if k == 0 {
    } else {
      var run := After(batch, script, limit, k - 1);
      RepliesAreBounded(batch, script, limit, k - 1);
      if !run.phase.Ended? {
        ReplyAdvances(run.phase, batch, At(script, k - 1), limit);
      }
    }
  }

  lemma SettledInTime(batch: seq<Event>, script: Script, limit: nat, k: nat)
    requires limit >= 1 && k == |batch| + limit + 3
    ensures After(batch, script, limit, k).phase.Ended?
  {
    RepliesAreBounded(batch, script, limit, k);
  }

  /** Once settled, a batch stays as it is. */
  lemma {:induction false} SettledForGood(batch: seq<Event>, script: Script, limit: nat, k: nat, later: nat)
    requires limit >= 1 && k <= later
    requires After(batch, script, limit, k).phase.Ended?
    ensures After(batch, script, limit, later) == After(batch, script, limit, k)
    decreases later
  {
    if k == later {
    } else {
      SettledForGood(batch, script, limit, k, later - 1);
    }
  }

  lemma WrittenIsWhereItEnds(batch: seq<Event>, script: Script, attempts: nat, k: nat, run: Run)
    requires run == After(batch, script, Limit(attempts), k) && run.phase.Ended?
    ensures Written(batch, script, attempts) == run.done
  {
    var total := |batch| + Limit(attempts) + 3;
    SettledInTime(batch, script, Limit(attempts), total);
    if k <= total {
      SettledForGood(batch, script, Limit(attempts), k, total);
    } else {
      SettledForGood(batch, script, Limit(attempts), total, k);
    }
  }
}
