/**
 `write_batch` itself: the loops over whole-batch attempts and single events,
 with the counters and the store they update.
 */
module AuditWrite {
  import opened AuditRun

  class Counts {
    var queued: nat
    var written: nat
    var commits: nat
    var waited: nat
    var lost: nat
    var attempts: nat
  }

  class Store {
    var rows: seq<Event>
  }

  /** The store and the counters as a batch found them. */
  datatype Before = Before(rows: seq<Event>, lost: nat, commits: nat, attempts: nat)

  /** The store and the counters show exactly `done` more than before. */
  ghost predicate Shows(counts: Counts, store: Store, before: Before, done: Effect)
    reads counts, store
  {
    && store.rows == before.rows + done.stored
    && counts.lost == before.lost + |done.lost|
    && counts.commits == before.commits + done.commits
    && counts.attempts == before.attempts + done.attempts
  }

  /** One attempt at the whole batch: stored, or lost once the attempts are used
      up, or left to be tried again or event by event. */
  method StoreWhole(batch: seq<Event>, attempt: nat, reply: Reply, counts: Counts, store: Store, limit: nat,
                    ghost before: Before, ghost run: Run, ghost next: Run)
    requires attempt < limit && run.phase == Whole(attempt)
    requires next == Step(run, batch, reply, limit) && Shows(counts, store, before, run.done)
    modifies counts`lost, counts`commits, counts`attempts, store
    ensures Shows(counts, store, before, next.done)
  {
    counts.attempts := counts.attempts + 1;
    match reply {
      case Ok =>
        store.rows := store.rows + batch;
        counts.commits := counts.commits + 1;
      case Contended =>
        if attempt + 1 >= limit {
          counts.lost := counts.lost + |batch|;
        }
      case Refused =>
    }
  }

  /** One event tried alone: stored, lost, or given up with all after it. */
  method StoreOne(batch: seq<Event>, index: nat, reply: Reply, counts: Counts, store: Store, limit: nat,
                  ghost before: Before, ghost run: Run, ghost next: Run)
    requires limit >= 1 && index < |batch| && run.phase == Each(index)
    requires next == Step(run, batch, reply, limit) && Shows(counts, store, before, run.done)
    modifies counts`lost, counts`commits, counts`attempts, store
    ensures Shows(counts, store, before, next.done)
  {
    counts.attempts := counts.attempts + 1;
    match reply {
      case Ok =>
        store.rows := store.rows + [batch[index]];
        counts.commits := counts.commits + 1;
      case Contended =>
        counts.lost := counts.lost + (|batch| - index);
      case Refused =>
        counts.lost := counts.lost + 1;
    }
  }

  /** The fallback of `write_batch`: each event tried alone, the rest given
      up when the lock is lost partway. */
  method StoreEach(batch: seq<Event>, counts: Counts, store: Store, limit: nat, script: Script, start: nat,
                   ghost before: Before, ghost first: Run)
    returns (ghost end: nat, ghost run: Run)
    requires limit >= 1
    requires first == After(batch, script, limit, start)
    requires first.phase == if batch == [] then Ended else Each(0)
    requires Shows(counts, store, before, first.done)
    modifies counts`lost, counts`commits, counts`attempts, store
    ensures run == After(batch, script, limit, end) && run.phase.Ended?
    ensures Shows(counts, store, before, run.done)
  {
    var at := start;
    var index := 0;
    run := first;
    while index < |batch|
      invariant 0 <= index <= |batch|
      invariant run == After(batch, script, limit, at)
      invariant run.phase == if index == |batch| then Ended else Each(index)
      invariant Shows(counts, store, before, run.done)
    {
      var reply := At(script, at);
      ghost var next := Step(run, batch, reply, limit);
      assert next.phase == if reply.Contended? || index + 1 == |batch| then Ended else Each(index + 1);
      StoreOne(batch, index, reply, counts, store, limit, before, run, next);
      run := next;
      at := at + 1;
      if reply.Contended? {
        break;
      }
      index := index + 1;
    }
    end := at;
  }

  /** `write_batch`: the loop over whole-batch attempts, then the loop over
      single events. It stores and counts exactly what the run of replies
      says, and adds the batch's size to `written` on every path. */
  method WriteBatch(batch: seq<Event>, counts: Counts, store: Store, attempts: nat, script: Script)
    modifies counts, store
    ensures Shows(counts, store, old(Before(store.rows, counts.lost, counts.commits, counts.attempts)),
                  Written(batch, script, attempts))
    ensures counts.written == old(counts.written) + |batch|
    ensures counts.queued == old(counts.queued) && counts.waited == old(counts.waited)
  {
    var limit := Limit(attempts);
    var finished := |batch|;
    ghost var before := Before(store.rows, counts.lost, counts.commits, counts.attempts);
    ghost var run := Step(Run(Opening, Nothing), batch, At(script, 0), limit);
    assert run == After(batch, script, limit, 1);
    var at := 1;
    if !At(script, 0).Ok? {
      counts.lost := counts.lost + finished;
      counts.written := counts.written + finished;
      WrittenIsWhereItEnds(batch, script, attempts, 1, run);
      return;
    }
    var attempt := 0;
    while true
      invariant 0 <= attempt < limit && at == attempt + 1
      invariant run == After(batch, script, limit, at)
      invariant run.phase == Whole(attempt) && Shows(counts, store, before, run.done)
      invariant counts.written == old(counts.written)
      invariant counts.queued == old(counts.queued) && counts.waited == old(counts.waited)
      decreases limit - attempt
    {
      var reply := At(script, at);
      ghost var next := Step(run, batch, reply, limit);
      StoreWhole(batch, attempt, reply, counts, store, limit, before, run, next);
      run := next;
      at := at + 1;
      attempt := attempt + 1;
      if reply.Refused? {
        break;
      }
      if reply.Ok? || attempt >= limit {
        counts.written := counts.written + finished;
        WrittenIsWhereItEnds(batch, script, attempts, at, run);
        return;
      }
    }
    ghost var end: nat;
    end, run := StoreEach(batch, counts, store, limit, script, at, before, run);
    counts.written := counts.written + finished;
    WrittenIsWhereItEnds(batch, script, attempts, end, run);
  }
}
