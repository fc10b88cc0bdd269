/**
 The order of the audit log: while one writer serves the queue, events are
 stored in the order they were sent, with gaps only where one was lost.
 */
module AuditOrder {
  import opened AuditRun
  import opened AuditQueue
  import opened AuditSafety
  import opened Bags

  // ---------------------------------------------------------------------
  // Subsequences
  // ---------------------------------------------------------------------

  /** The elements of `a`, in order, among those of `b`. */
  predicate Subsequence<T(==)>(a: seq<T>, b: seq<T>)
    decreases |b|
  {
    || a == []
    || (b != [] && Subsequence(a, b[..|b| - 1]))
    || (b != [] && a[|a| - 1] == b[|b| - 1] && Subsequence(a[..|a| - 1], b[..|b| - 1]))
  }

  lemma SubsequencePush<T>(a: seq<T>, b: seq<T>, x: T)
    requires Subsequence(a, b)
    ensures Subsequence(a, b + [x]) && Subsequence(a + [x], b + [x])
  {
    assert (b + [x])[..|b|] == b && (a + [x])[..|a|] == a;
  }

  /** Subsequences one after another. */
  lemma {:induction false} SubsequencesJoin<T>(a: seq<T>, b: seq<T>, c: seq<T>, d: seq<T>)
    requires Subsequence(a, b) && Subsequence(c, d)
    ensures Subsequence(a + c, b + d)
    decreases |d|
  {
    if d == [] {
      assert a + c == a && b + d == b;
    } else {
      var n, x := |d| - 1, d[|d| - 1];
      assert b + d == (b + d[..n]) + [x];
      if Subsequence(c, d[..n]) {
        SubsequencesJoin(a, b, c, d[..n]);
        SubsequencePush(a + c, b + d[..n], x);
      } else {
        var m := |c| - 1;
        SubsequencesJoin(a, b, c[..m], d[..n]);
        SubsequencePush(a + c[..m], b + d[..n], x);
        assert a + c == (a + c[..m]) + [x];
      }
    }
  }

  lemma {:induction false} SubsequenceOfItself<T>(a: seq<T>)
    ensures Subsequence(a, a)
  {
    if a == [] {
    } else {
      SubsequenceOfItself(a[..|a| - 1]);
    }
  }

  // ---------------------------------------------------------------------
  // What every step keeps
  // ---------------------------------------------------------------------

  /** The rows of a running writer: those of its finished batches and of the
      settled part of the one in hand, in order. */
  ghost predicate RowsInv(s: State) {
    s.writer.Running? ==> Subsequence(s.rows, s.finished + FlatDecided(s.jobs))
  }

  /** What a reply stores is, in order, among what it settles. */
  lemma ReplyInOrder(phase: Phase, batch: seq<Event>, reply: Reply, limit: nat) returns (extra: seq<Event>)
    requires Fits(phase, batch, limit) && !phase.Ended?
    ensures Fits(NextPhase(phase, batch, reply, limit), batch, limit)
    ensures Settled(NextPhase(phase, batch, reply, limit), batch) == Settled(phase, batch) + extra
    ensures Subsequence(Gain(phase, batch, reply, limit).stored, extra)
  {
    ReplyAdvances(phase, batch, reply, limit);
    var next := NextPhase(phase, batch, reply, limit);
    match phase {
      case Opening =>
        extra := Settled(next, batch);
      case Whole(_) =>
        extra := Settled(next, batch);
        SubsequenceOfItself(batch);
      case Each(index) =>
        extra := if next.Ended? then batch[index..] else [batch[index]];
        assert batch == batch[..index] + batch[index..];
        assert !next.Ended? ==> batch[..index + 1] == batch[..index] + [batch[index]];
        if reply.Ok? {
          assert extra == [batch[index]];
          SubsequenceOfItself(extra);
        }
    }
  }

  lemma RowsAfterAnswer(s: State, i: nat, reply: Reply)
    requires ShapeInv(s) && RowsInv(s) && Enabled(s, Answer(i, reply))
    ensures RowsInv(Answered(s, i, reply))
  {
    if s.writer.Running? {
      var t, job, limit := Answered(s, i, reply), s.jobs[0], Limit(s.config.attempts);
      assert s.jobs == [job] && t.jobs == [t.jobs[0]];
      var extra := ReplyInOrder(job.stage.phase, job.batch, reply, limit);
      FlatOne(job);
      FlatOne(t.jobs[0]);
      RowsGrow(s.rows, s.finished, Decided(job), Gain(job.stage.phase, job.batch, reply, limit).stored, extra);
    }
  }

  lemma RowsGrow(rows: seq<Event>, finished: seq<Event>, decided: seq<Event>, stored: seq<Event>, extra: seq<Event>)
    requires Subsequence(rows, finished + decided) && Subsequence(stored, extra)
    ensures Subsequence(rows + stored, finished + (decided + extra))
  {
    SubsequencesJoin(rows, finished + decided, stored, extra);
    Regroup(finished, decided, extra);
  }

  lemma RowsAfterFinish(s: State, i: nat)
    requires ShapeInv(s) && RowsInv(s) && Enabled(s, Finish(i))
    ensures RowsInv(Finished(s, i))
  {
    if s.writer.Running? {
      var job := s.jobs[0];
      assert s.jobs == [job] && Finished(s, i).jobs == [];
      FlatOne(job);
      assert s.finished + job.batch + [] == s.finished + job.batch;
    }
  }

  lemma RowsAfterTransfer(s: State, step: Step)
    requires RowsInv(s) && Enabled(s, step) && (step.Receive? || step.Gather? || step.Close?)
    ensures RowsInv(Apply(s, step))
  {
    var t := Apply(s, step);
    FlatOne(t.jobs[0]);
    if step.Receive? {
      assert FlatDecided(s.jobs) == FlatDecided(t.jobs);
    } else {
      assert s.jobs == [s.jobs[0]];
      FlatOne(s.jobs[0]);
      assert FlatDecided(s.jobs) == FlatDecided(t.jobs);
    }
  }

  lemma RowsKept(s: State, step: Step)
    requires Inv(s) && RowsInv(s) && Enabled(s, step)
    ensures RowsInv(Apply(s, step))
  {
    match step
    case Answer(i, reply) => RowsAfterAnswer(s, i, reply);
    case Finish(i) => RowsAfterFinish(s, i);
    case Receive => RowsAfterTransfer(s, step);
    case Gather => RowsAfterTransfer(s, step);
    case Close => RowsAfterTransfer(s, step);
    case Send(i, spawned) => NothingStoredYet(s);
    case Arrive(_) =>
    case Grant(_) =>
    case Abandon(_) =>
  }

  lemma NothingStoredYet(s: State)
    requires Inv(s)
    ensures s.writer.Unstarted? ==> s.rows == []
  {
    if s.writer.Unstarted? {
      assert multiset(s.rows) + multiset(s.lost) == multiset{};
      assert |multiset(s.rows)| == 0;
    }
  }

  lemma {:induction false} RunKeepsRows(s: State, steps: seq<Step>)
    requires Inv(s) && RowsInv(s) && CanRun(s, steps)
    ensures RowsInv(RunFrom(s, steps))
    decreases |steps|
  {
    if steps == [] {
    } else {
      RowsKept(s, steps[0]);
      InvKept(s, steps[0]);
      RunKeepsRows(Apply(s, steps[0]), steps[1..]);
    }
  }

  /** What is settled of a batch is the front of it. */
  lemma DecidedIsFront(job: Job)
    ensures Subsequence(Decided(job), job.batch)
  {
    var decided := Decided(job);
    assert decided <= job.batch;
    var rest := job.batch[|decided|..];
    SubsequenceOfItself(decided);
    SubsequencesJoin(decided, decided, [], rest);
    assert decided + [] == decided && decided + rest == job.batch;
  }

  lemma DecidedInOrder(s: State)
    requires ShapeInv(s) && s.writer.Running?
    ensures Subsequence(FlatDecided(s.jobs), Flat(s.jobs))
  {
    if s.jobs == [] {
    } else {
      assert s.jobs == [s.jobs[0]];
      FlatOne(s.jobs[0]);
      DecidedIsFront(s.jobs[0]);
    }
  }

  lemma {:induction false} SubsequenceOfSubsequence<T>(a: seq<T>, b: seq<T>, c: seq<T>)
    requires Subsequence(a, b) && Subsequence(b, c)
    ensures Subsequence(a, c)
    decreases |c|
  {
    if a == [] {
    } else {
      var front := c[..|c| - 1];
      assert c == front + [c[|c| - 1]];
      if Subsequence(b, front) {
        SubsequenceOfSubsequence(a, b, front);
      } else if Subsequence(a, b[..|b| - 1]) {
        SubsequenceOfSubsequence(a, b[..|b| - 1], front);
      } else {
        SubsequenceOfSubsequence(a[..|a| - 1], b[..|b| - 1], front);
      }
    }
  }

  /** In every reachable state of a queue with a running writer the stored events
      are, in order, among those sent. */
  lemma StoredInTheOrderSent(config: Config, steps: seq<Step>)
    requires config.Valid() && CanRun(Init(config), steps)
    ensures var t := RunFrom(Init(config), steps);
            t.writer.Running? ==> Subsequence(t.rows, t.sent)
  {
    InitHolds(config);
    RunKeeps(Init(config), steps);
    RunKeepsRows(Init(config), steps);
    var t := RunFrom(Init(config), steps);
    if t.writer.Running? {
      RowsInSent(t);
    }
  }

  lemma RowsInSent(t: State)
    requires Inv(t) && RowsInv(t) && t.writer.Running?
    ensures Subsequence(t.rows, t.sent)
  {
    DecidedInOrder(t);
    SubsequenceOfItself(t.finished);
    SubsequencesJoin(t.finished, t.finished, FlatDecided(t.jobs), Flat(t.jobs));
    SubsequencesJoin(t.finished + FlatDecided(t.jobs), t.finished + Flat(t.jobs), [], t.inbox);
    assert t.finished + FlatDecided(t.jobs) + [] == t.finished + FlatDecided(t.jobs);
    SubsequenceOfSubsequence(t.rows, t.finished + FlatDecided(t.jobs), t.sent);
  }
}
