/**
 What becomes of a batch: every event stored or lost once, within a bounded
 number of attempts, and only those at fault lost when the store is not locked.
 */
module AuditFate {
  import opened AuditRun

  /** A reply decides the fate of exactly the events that join the settled ones. */
  lemma ReplySettles(phase: Phase, batch: seq<Event>, reply: Reply, limit: nat)
    requires Fits(phase, batch, limit) && !phase.Ended?
    ensures var gain := Gain(phase, batch, reply, limit);
            multiset(Settled(phase, batch)) + multiset(gain.stored) + multiset(gain.lost)
            == multiset(Settled(NextPhase(phase, batch, reply, limit), batch))
  {
    if phase.Each? {
      var i := phase.index;
      assert batch[..i + 1] == batch[..i] + [batch[i]];
      assert batch == batch[..i] + batch[i..];
      assert batch[..|batch|] == batch;
    }
  }

  ghost predicate Accounted(run: Run, batch: seq<Event>, limit: nat)
    requires Fits(run.phase, batch, limit)
  {
    multiset(run.done.stored) + multiset(run.done.lost) == multiset(Settled(run.phase, batch))
  }

  lemma StepAccounts(run: Run, batch: seq<Event>, reply: Reply, limit: nat)
    requires Fits(run.phase, batch, limit) && Accounted(run, batch, limit)
    ensures Accounted(Step(run, batch, reply, limit), batch, limit)
  {
    if !run.phase.Ended? {
      var gain := Gain(run.phase, batch, reply, limit);
      ReplySettles(run.phase, batch, reply, limit);
      assert multiset(run.done.stored + gain.stored) == multiset(run.done.stored) + multiset(gain.stored);
      assert multiset(run.done.lost + gain.lost) == multiset(run.done.lost) + multiset(gain.lost);
    }
  }

  /** After any number of replies the settled events are exactly the stored
      and the lost ones, each once. */
  lemma {:induction false} EveryReplyAccounts(batch: seq<Event>, script: Script, limit: nat, k: nat)
    requires limit >= 1
    ensures Accounted(After(batch, script, limit, k), batch, limit)
  {
    if k == 0 {
      assert After(batch, script, limit, k) == Run(Opening, Nothing);
      assert Settled(Opening, batch) == [];
    } else {
      var run := After(batch, script, limit, k - 1);
      assert Accounted(run, batch, limit) by {
        EveryReplyAccounts(batch, script, limit, k - 1);
      }
      StepAccounts(run, batch, At(script, k - 1), limit);
    }
  }

  /** The attempts spent so far never exceed the whole-batch attempts plus
      one for each event already tried alone. */
  lemma {:induction false} AttemptsAreBounded(batch: seq<Event>, script: Script, limit: nat, k: nat)
    requires limit >= 1
    ensures var run := After(batch, script, limit, k);
            match run.phase
            case Opening => run.done.attempts == 0
            case Whole(tried) => run.done.attempts == tried
            case Each(index) => run.done.attempts <= limit + index
            case Ended => run.done.attempts <= limit + |batch|
  {
    if k == 0 {
    } else {
      AttemptsAreBounded(batch, script, limit, k - 1);
    }
  }

  /** `write_batch` stores or loses every event exactly once, within
      max(1, contention.attempts) plus one attempt per event. */
  lemma WriteBatchAccounts(batch: seq<Event>, script: Script, attempts: nat)
    ensures var effect := Written(batch, script, attempts);
            && multiset(effect.stored) + multiset(effect.lost) == multiset(batch)
            && |effect.stored| + |effect.lost| == |batch|
            && effect.attempts <= Limit(attempts) + |batch|
  {
    var effect, limit := Written(batch, script, attempts), Limit(attempts);
    var k := |batch| + limit + 3;
    SettledInTime(batch, script, limit, k);
    EveryReplyAccounts(batch, script, limit, k);
    AttemptsAreBounded(batch, script, limit, k);
    assert |multiset(effect.stored) + multiset(effect.lost)| == |multiset(batch)|;
  }

  /** A run in which no whole-batch attempt was refused. */
  ghost predicate Undivided(run: Run, batch: seq<Event>, limit: nat, k: nat) {
    match run.phase
    case Opening => k == 0 && run.done == Nothing
    case Whole(tried) => tried + 1 == k && run.done == Effect([], [], 0, tried)
    case Each(_) => false
    case Ended => run.done.attempts <= limit
                  && (run.done == Effect(batch, [], 1, run.done.attempts) || run.done == Effect([], batch, 0, limit))
  }

  lemma StepUndivided(run: Run, batch: seq<Event>, reply: Reply, limit: nat, k: nat)
    requires if k == 0 then reply == Ok else k <= limit ==> reply != Refused
    requires Fits(run.phase, batch, limit) && Undivided(run, batch, limit, k)
    ensures Undivided(Step(run, batch, reply, limit), batch, limit, k + 1)
  {
  }

  lemma {:induction false} NeverAlone(batch: seq<Event>, script: Script, limit: nat, k: nat)
    requires limit >= 1 && At(script, 0) == Ok
    requires forall t :: 1 <= t <= limit ==> At(script, t) != Refused
    ensures Undivided(After(batch, script, limit, k), batch, limit, k)
  {
    if k == 0 {
    } else {
      NeverAlone(batch, script, limit, k - 1);
      StepUndivided(After(batch, script, limit, k - 1), batch, At(script, k - 1), limit, k - 1);
    }
  }

  /** A store that opens and refuses no whole-batch attempt stores the batch
      entire or loses it entire, and never sees an event alone. */
  lemma WriteBatchUnderContention(batch: seq<Event>, script: Script, attempts: nat)
    requires At(script, 0) == Ok
    requires forall t :: 1 <= t <= Limit(attempts) ==> At(script, t) != Refused
    ensures var effect := Written(batch, script, attempts);
            && effect.attempts <= Limit(attempts)
            && (effect == Effect(batch, [], 1, effect.attempts) || effect == Effect([], batch, 0, Limit(attempts)))
  {
    NeverAlone(batch, script, Limit(attempts), |batch| + Limit(attempts) + 3);
  }

  function Except(events: seq<Event>, bad: set<Event>): seq<Event> {
    if events == [] then []
    else Except(events[..|events| - 1], bad)
         + (if events[|events| - 1] in bad then [] else [events[|events| - 1]])
  }

  function Within(events: seq<Event>, bad: set<Event>): seq<Event> {
    if events == [] then []
    else Within(events[..|events| - 1], bad)
         + (if events[|events| - 1] in bad then [events[|events| - 1]] else [])
  }

  /** The replies of a store that is never locked and refuses exactly the
      requests naming a bad event. */
  ghost predicate RefusesOnly(script: Script, batch: seq<Event>, limit: nat, bad: set<Event>)
    requires limit >= 1
  {
    forall k | 0 <= k < |batch| + limit + 3 :: RefusesAt(script, batch, limit, bad, k)
  }

  ghost predicate RefusesAt(script: Script, batch: seq<Event>, limit: nat, bad: set<Event>, k: nat)
    requires limit >= 1
  {
    var rows := Request(After(batch, script, limit, k).phase, batch);
    At(script, k) == if exists e :: e in rows && e in bad then Refused else Ok
  }

  lemma {:induction false} ExceptDisjoint(events: seq<Event>, bad: set<Event>)
    requires forall e :: e in events ==> e !in bad
    ensures Except(events, bad) == events && Within(events, bad) == []
  {
    if events == [] {
    } else {
      ExceptDisjoint(events[..|events| - 1], bad);
    }
  }

  lemma {:induction false} GoodSoFar(batch: seq<Event>, script: Script, limit: nat, k: nat, bad: set<Event>)
    requires limit >= 1 && RefusesOnly(script, batch, limit, bad) && k <= |batch| + limit + 3
    ensures var run := After(batch, script, limit, k);
            && run.done.stored == Except(Settled(run.phase, batch), bad)
            && run.done.lost == Within(Settled(run.phase, batch), bad)
  {
    if k == 0 {
    } else {
      var run := After(batch, script, limit, k - 1);
      GoodSoFar(batch, script, limit, k - 1, bad);
      if !run.phase.Ended? {
        assert RefusesAt(script, batch, limit, bad, k - 1);
        GoodReply(run.phase, batch, At(script, k - 1), limit, bad);
      }
    }
  }

  lemma GoodReply(phase: Phase, batch: seq<Event>, reply: Reply, limit: nat, bad: set<Event>)
    requires Fits(phase, batch, limit) && !phase.Ended?
    requires reply == if exists e :: e in Request(phase, batch) && e in bad then Refused else Ok
    ensures var gain, next := Gain(phase, batch, reply, limit), NextPhase(phase, batch, reply, limit);
            && Except(Settled(phase, batch), bad) + gain.stored == Except(Settled(next, batch), bad)
            && Within(Settled(phase, batch), bad) + gain.lost == Within(Settled(next, batch), bad)
  {
    match phase
    case Opening =>
    case Whole(_) =>
      if reply == Ok {
        ExceptDisjoint(batch, bad);
      }
    case Each(i) =>
      assert reply == if batch[i] in bad then Refused else Ok by {
        assert forall e :: e in [batch[i]] <==> e == batch[i];
      }
      var more := batch[..i + 1];
      assert more[..|more| - 1] == batch[..i];
      assert Settled(NextPhase(phase, batch, reply, limit), batch) == more;
  }

  /** With no contention and a fixed set of refused events, exactly the
      others are stored, in batch order. */
  lemma WriteBatchKeepsTheGood(batch: seq<Event>, script: Script, attempts: nat, bad: set<Event>)
    requires RefusesOnly(script, batch, Limit(attempts), bad)
    ensures var effect := Written(batch, script, attempts);
            effect.stored == Except(batch, bad) && effect.lost == Within(batch, bad)
  {
    var limit := Limit(attempts);
    var k := |batch| + limit + 3;
    SettledInTime(batch, script, limit, k);
    GoodSoFar(batch, script, limit, k, bad);
    assert Settled(After(batch, script, limit, k).phase, batch) == batch;
  }
}
