/**
 What `write_batch` does, told from the store's replies alone: the reply to the
 opening, then those to the whole batch until one is not a lock held elsewhere,
 then one for each event until one is.
 */
module AuditScript {
  import opened AuditRun

  /** From `from` on the lock is held elsewhere `n` times running, out of `most`. */
  ghost predicate LockedFor(script: Script, from: nat, n: nat, most: nat) {
    && n <= most
    && (forall k :: from <= k < from + n ==> At(script, k).Contended?)
    && (n < most ==> !At(script, from + n).Contended?)
  }

  /** From `from` on `n` events are tried before the lock is lost, out of `most`. */
  ghost predicate UnlockedFor(script: Script, from: nat, n: nat, most: nat) {
    && n <= most
    && (forall k :: from <= k < from + n ==> !At(script, k).Contended?)
    && (n < most ==> At(script, from + n).Contended?)
  }

  /** The events whose own reply, the first one's at `from`, is `reply`. */
  function Replied(events: seq<Event>, script: Script, from: nat, reply: Reply): seq<Event> {
    if events == [] then [] else
      var n := |events| - 1;
      Replied(events[..n], script, from, reply) + if At(script, from + n) == reply then [events[n]] else []
  }

  /** How many of `n` replies, the first at `from`, are `Ok`. */
  function Oks(script: Script, from: nat, n: nat): nat {
    if n == 0 then 0 else Oks(script, from, n - 1) + if At(script, from + n - 1).Ok? then 1 else 0
  }

  /** Every script has one such place for the lock to be let go, and one for it
      to be lost. */
  lemma {:induction false} PlacesExist(script: Script, from: nat, most: nat) returns (locked: nat, unlocked: nat)
    ensures LockedFor(script, from, locked, most) && UnlockedFor(script, from, unlocked, most)
  {
    if most == 0 {
      locked, unlocked := 0, 0;
    } else {
      locked, unlocked := PlacesExist(script, from, most - 1);
      if locked == most - 1 && At(script, from + locked).Contended? {
        locked := most;
      }
      if unlocked == most - 1 && !At(script, from + unlocked).Contended? {
        unlocked := most;
      }
    }
  }

  lemma {:induction false} NoOks(script: Script, from: nat, n: nat)
    requires forall k :: from <= k < from + n ==> At(script, k).Contended?
    ensures Oks(script, from, n) == 0
  {
    if n == 0 {
    } else {
      NoOks(script, from, n - 1);
    }
  }

  lemma {:induction false} OksSplit(script: Script, from: nat, a: nat, b: nat)
    ensures Oks(script, from, a + b) == Oks(script, from, a) + Oks(script, from + a, b)
  {
    if b == 0 {
    } else {
      OksSplit(script, from, a, b - 1);
    }
  }

  lemma {:induction false} RepliedOks(events: seq<Event>, script: Script, from: nat)
    ensures |Replied(events, script, from, Ok)| == Oks(script, from, |events|)
  {
    if events == [] {
    } else {
      RepliedOks(events[..|events| - 1], script, from);
    }
  }

  /** Whole-batch attempts while the lock is held elsewhere. */
  lemma {:induction false} WhileLocked(batch: seq<Event>, script: Script, limit: nat, t: nat)
    requires At(script, 0).Ok? && t < limit
    requires forall k :: 1 <= k < 1 + t ==> At(script, k).Contended?
    ensures After(batch, script, limit, t + 1) == Run(Whole(t), Effect([], [], 0, t))
  {
    if t == 0 {
      assert After(batch, script, limit, 0) == Run(Opening, Nothing);
    } else {
      WhileLocked(batch, script, limit, t - 1);
    }
  }

  /** The first `j` events tried alone. */
  function EachDone(batch: seq<Event>, script: Script, t: nat, j: nat): Effect
    requires j <= |batch|
  {
    var stored := Replied(batch[..j], script, t + 2, Ok);
    Effect(stored, Replied(batch[..j], script, t + 2, Refused), |stored|, t + 1 + j)
  }

  lemma EachNext(batch: seq<Event>, script: Script, t: nat, j: nat, reply: Reply)
    requires j < |batch|
    ensures Replied(batch[..j + 1], script, t + 2, reply)
         == Replied(batch[..j], script, t + 2, reply) + if At(script, t + 2 + j) == reply then [batch[j]] else []
  {
    assert batch[..j + 1][..j] == batch[..j];
  }

  lemma RefusedEntire(batch: seq<Event>, script: Script, limit: nat, t: nat)
    requires At(script, 0).Ok? && t < limit && batch != []
    requires forall k :: 1 <= k < 1 + t ==> At(script, k).Contended?
    requires At(script, 1 + t).Refused?
    ensures After(batch, script, limit, t + 2) == Run(Each(0), EachDone(batch, script, t, 0))
  {
    WhileLocked(batch, script, limit, t);
  }

  lemma EachStep(batch: seq<Event>, script: Script, limit: nat, t: nat, j: nat, run: Run)
    requires limit >= 1 && j < |batch| && run == Run(Each(j), EachDone(batch, script, t, j))
    requires !At(script, t + 2 + j).Contended?
    ensures Step(run, batch, At(script, t + 2 + j), limit)
         == Run(if j + 1 == |batch| then Ended else Each(j + 1), EachDone(batch, script, t, j + 1))
  {
    EachNext(batch, script, t, j, Ok);
    EachNext(batch, script, t, j, Refused);
  }

  lemma {:induction false} WhileUnlocked(batch: seq<Event>, script: Script, limit: nat, t: nat, j: nat)
    requires At(script, 0).Ok? && t < limit && batch != []
    requires forall k :: 1 <= k < 1 + t ==> At(script, k).Contended?
    requires At(script, 1 + t).Refused?
    requires j <= |batch| && forall k :: t + 2 <= k < t + 2 + j ==> !At(script, k).Contended?
    ensures After(batch, script, limit, t + 2 + j)
         == Run(if j == |batch| then Ended else Each(j), EachDone(batch, script, t, j))
  {
    if j == 0 {
      RefusedEntire(batch, script, limit, t);
    } else {
      WhileUnlocked(batch, script, limit, t, j - 1);
      var run := After(batch, script, limit, t + 1 + j);
      assert After(batch, script, limit, t + 2 + j) == Step(run, batch, At(script, t + 1 + j), limit);
      EachStep(batch, script, limit, t, j - 1, run);
    }
  }

  /** The events tried alone, the lock lost at event `i` if there is one. */
  lemma AloneEnds(batch: seq<Event>, script: Script, attempts: nat, t: nat, i: nat)
    requires At(script, 0).Ok? && t < Limit(attempts) && At(script, 1 + t).Refused?
    requires forall k :: 1 <= k < 1 + t ==> At(script, k).Contended?
    requires UnlockedFor(script, t + 2, i, |batch|)
    ensures var alone := EachDone(batch, script, t, i);
      Written(batch, script, attempts)
      == Effect(alone.stored, alone.lost + batch[i..], alone.commits,
                if i < |batch| then alone.attempts + 1 else alone.attempts)
  {
    var limit := Limit(attempts);
    if batch == [] {
      WhileLocked(batch, script, limit, t);
      WrittenIsWhereItEnds(batch, script, attempts, t + 2, After(batch, script, limit, t + 2));
    } else {
      WhileUnlocked(batch, script, limit, t, i);
      if i < |batch| {
        WrittenIsWhereItEnds(batch, script, attempts, t + 3 + i, After(batch, script, limit, t + 3 + i));
      } else {
        WrittenIsWhereItEnds(batch, script, attempts, t + 2 + i, After(batch, script, limit, t + 2 + i));
      }
    }
  }

  /** The whole batch tried `t` times under the lock, then stored or given up. */
  lemma WholeEnds(batch: seq<Event>, script: Script, attempts: nat, t: nat)
    requires At(script, 0).Ok? && LockedFor(script, 1, t, Limit(attempts))
    ensures t == Limit(attempts) ==> Written(batch, script, attempts) == Effect([], batch, 0, t)
    ensures t < Limit(attempts) && At(script, 1 + t).Ok? ==>
      Written(batch, script, attempts) == Effect(batch, [], 1, t + 1)
  {
    var limit := Limit(attempts);
    var last := if t == limit then t - 1 else t;
    WhileLocked(batch, script, limit, last);
    if t == limit || At(script, 1 + t).Ok? {
      WrittenIsWhereItEnds(batch, script, attempts, last + 2, After(batch, script, limit, last + 2));
    }
  }

  lemma UnopenedEnds(batch: seq<Event>, script: Script, attempts: nat)
    requires !At(script, 0).Ok?
    ensures Written(batch, script, attempts) == Effect([], batch, 0, 0)
  {
    assert After(batch, script, Limit(attempts), 0) == Run(Opening, Nothing);
    WrittenIsWhereItEnds(batch, script, attempts, 1, After(batch, script, Limit(attempts), 1));
  }

  /** The replies the writes got, for a batch that was tried `t` times entire
      under the lock and whose events were then tried alone up to event `i`. */
  ghost predicate Follows(done: Effect, batch: seq<Event>, script: Script, limit: nat, t: nat, i: nat)
    requires i <= |batch|
  {
    if !At(script, 0).Ok? then
      done == Effect([], batch, 0, 0)
    else if t == limit then
      done == Effect([], batch, 0, limit)
    else if At(script, 1 + t).Ok? then
      done == Effect(batch, [], 1, t + 1)
    else
      && done.stored == Replied(batch[..i], script, t + 2, Ok)
      && done.lost == Replied(batch[..i], script, t + 2, Refused) + batch[i..]
      && done.attempts == t + 1 + if i < |batch| then i + 1 else |batch|
  }

  /** `write_batch` for every script. Nothing is written to a store that does
      not open. The batch is tried entire until the lock is free, `limit` times
      at most. Once it is refused each event fares as its own reply says, until
      the lock is lost: that event and all after it are lost and not tried.
      Commits are the writes answered `Ok`. */
  lemma WriteBatchFollowsTheScript(batch: seq<Event>, script: Script, attempts: nat, t: nat, i: nat)
    requires LockedFor(script, 1, t, if attempts == 0 then 1 else attempts)
    requires UnlockedFor(script, t + 2, i, |batch|)
    ensures var done := Written(batch, script, attempts);
      && Follows(done, batch, script, if attempts == 0 then 1 else attempts, t, i)
      && done.commits == Oks(script, 1, done.attempts)
  {
    if !At(script, 0).Ok? {
      UnopenedEnds(batch, script, attempts);
    } else {
      WholeEnds(batch, script, attempts, t);
      NoOks(script, 1, t);
      if t < Limit(attempts) && At(script, 1 + t).Refused? {
        AloneEnds(batch, script, attempts, t, i);
        AloneCommits(batch, script, t, i);
      }
    }
  }

  lemma AloneCommits(batch: seq<Event>, script: Script, t: nat, i: nat)
    requires forall k :: 1 <= k < 1 + t ==> At(script, k).Contended?
    requires At(script, 1 + t).Refused? && UnlockedFor(script, t + 2, i, |batch|)
    ensures |Replied(batch[..i], script, t + 2, Ok)|
         == Oks(script, 1, t + 1 + if i < |batch| then i + 1 else |batch|)
  {
    RepliedOks(batch[..i], script, t + 2);
    NoOks(script, 1, t);
    OksSplit(script, 1, t + 1, i);
  }
}
