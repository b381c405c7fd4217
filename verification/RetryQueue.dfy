/**
 Delivery retries: the delivery workers that put failed jobs into message_retry_queue, and
 the retry worker that takes them out again or gives them up to message_dlq.
 */
module RetryQueue {
  import opened Wrappers

  const MAX_ATTEMPTS := 5
  const LIMIT := 100

  datatype Pair = Pair(messageId: string, userId: string)

  datatype Job = Job(pair: Pair, clientId: string, attempt: nat)

  /** `decodes` is false when the stored payload is no message: the row is then never turned into a job. */
  datatype Row = Row(pair: Pair, attempt: nat, nextRetryAt: int, decodes: bool)

  /** What ProcessDelivery returns: success, an error IsRetryable accepts, or any other error. */
  datatype Outcome = Ok | Retryable | Fatal

  /** One job's delivery, the database's answers to what follows, and the two random draws. */
  datatype Report = Report(outcome: Outcome, storeOk: bool, deleteOk: bool, enqueueOk: bool, draw1: nat, draw2: nat)

  /** The two tables, and the history of deliveries. */
  datatype State = State(queue: seq<Row>, dlq: seq<Pair>, delivered: seq<Pair>)

  // ---------- Backoff ----------

  function Pow2(n: nat): (p: nat)
    ensures p >= 1
  {
    if n == 0 then 1 else 2 * Pow2(n - 1)
  }

  function ExponentialBackoff(attempt: nat, draw: nat): int {
    Pow2(attempt) * SECOND + (draw % 1000) * MILLISECOND
  }

  /** rand.Int63n needs a positive bound; base / 2 is one. */
  function RetryDelay(attempt: nat, draw1: nat, draw2: nat): int {
    var base := ExponentialBackoff(attempt, draw1);
    BackoffPositive(attempt, draw1);
    base + draw2 % (base / 2)
  }

  lemma BackoffPositive(attempt: nat, draw: nat)
    ensures ExponentialBackoff(attempt, draw) / 2 > 0
  {
    assert Pow2(attempt) * SECOND >= SECOND;
  }

  /** A retry at attempt a waits at least 2^a seconds, and less than one and a half times (2^a + 0.999). */
  lemma DelayBounds(a: nat, draw1: nat, draw2: nat)
    ensures Pow2(a) * SECOND <= RetryDelay(a, draw1, draw2)
    ensures 2 * RetryDelay(a, draw1, draw2) < 3 * (Pow2(a) * SECOND + 999 * MILLISECOND)
  {
    BackoffPositive(a, draw1);
    var base := ExponentialBackoff(a, draw1);
    assert 0 <= draw2 % (base / 2) < base / 2;
  }

  // ---------- The retry worker ----------

  function Without(queue: seq<Row>, p: Pair): seq<Row>
    decreases queue
  {
    if queue == [] then []
    else
      var rest := Without(queue[..|queue| - 1], p);
      if queue[|queue| - 1].pair == p then rest else rest + [queue[|queue| - 1]]
  }

  predicate GivesUp(j: Job, r: Report) {
    r.outcome == Fatal || (r.outcome == Retryable && j.attempt + 1 >= MAX_ATTEMPTS)
  }

  function AfterJob(s: State, j: Job, r: Report, now: int): State {
    if r.outcome == Ok then
      State(if r.deleteOk then Without(s.queue, j.pair) else s.queue, s.dlq, s.delivered + [j.pair])
    else if GivesUp(j, r) then
      State(if r.deleteOk then Without(s.queue, j.pair) else s.queue,
            if r.storeOk then s.dlq + [j.pair] else s.dlq, s.delivered)
    else if r.enqueueOk then
      // A new row; the one the job came from stays.
      s.(queue := s.queue + [Row(j.pair, j.attempt + 1, now + RetryDelay(j.attempt + 1, r.draw1, r.draw2), true)])
    else s
  }

  function AfterJobs(s: State, jobs: seq<Job>, reports: seq<Report>, now: int): State
    requires |jobs| == |reports|
    decreases jobs
  {
    if jobs == [] then s
    else
      var k := |jobs| - 1;
      AfterJob(AfterJobs(s, jobs[..k], reports[..k], now), jobs[k], reports[k], now)
  }

  /** `picks` is an answer to the query for the 100 rows that have been ready longest. */
  ghost predicate IsSnapshot(queue: seq<Row>, now: int, picks: seq<nat>) {
    && |picks| <= LIMIT
    && (forall k :: 0 <= k < |picks| ==> picks[k] < |queue| && queue[picks[k]].nextRetryAt <= now)
    && (forall k, l :: 0 <= k < l < |picks| ==>
                         picks[k] != picks[l] && queue[picks[k]].nextRetryAt <= queue[picks[l]].nextRetryAt)
    && (forall i: nat :: i < |queue| && i !in picks && queue[i].nextRetryAt <= now ==>
                           |picks| == LIMIT && forall k :: 0 <= k < |picks| ==>
                               queue[picks[k]].nextRetryAt <= queue[i].nextRetryAt)
  }

  /** The rows as jobs. The table has no client id, so a job read from it carries the empty one. */
  function JobsOf(queue: seq<Row>, picks: seq<nat>): seq<Job>
    requires forall k :: 0 <= k < |picks| ==> picks[k] < |queue|
    decreases picks
  {
    if picks == [] then []
    else
      var row := queue[picks[|picks| - 1]];
      var rest := JobsOf(queue, picks[..|picks| - 1]);
      if row.decodes then rest + [Job(row.pair, "", row.attempt)] else rest
  }

  class RetryWorker {
    var queue: seq<Row>
    var dlq: seq<Pair>
    ghost var delivered: seq<Pair>

    constructor ()
      ensures Tables() == State([], [], [])
    {
      queue, dlq, delivered := [], [], [];
    }

    ghost function Tables(): State
      reads this
    {
      State(queue, dlq, delivered)
    }

    method GetReadyJobs(picks: seq<nat>) returns (jobs: seq<Job>)
      requires forall k :: 0 <= k < |picks| ==> picks[k] < |queue|
      ensures jobs == JobsOf(queue, picks)
    {
      jobs := [];
      for i := 0 to |picks|
        invariant jobs == JobsOf(queue, picks[..i])
      {
        assert picks[..i + 1][..i] == picks[..i];
        var row := queue[picks[i]];
        if !row.decodes {
          continue;
        }
        jobs := jobs + [Job(row.pair, "", row.attempt)];
      }
      assert picks[..|picks|] == picks;
    }

    method Delete(p: Pair, ok: bool)
      modifies this
      ensures queue == if ok then Without(old(queue), p) else old(queue)
      ensures dlq == old(dlq) && delivered == old(delivered)
    {
      if ok {
        var kept := [];
        for i := 0 to |queue|
          invariant kept == Without(queue[..i], p) && Tables() == old(Tables())
        {
          assert queue[..i + 1][..i] == queue[..i];
          if queue[i].pair != p {
            kept := kept + [queue[i]];
          }
        }
        assert queue[..|queue|] == queue;
        queue := kept;
      }
    }

    method ProcessJob(job: Job, r: Report, now: int)
      modifies this
      ensures Tables() == AfterJob(old(Tables()), job, r, now)
    {
      if r.outcome == Ok {
        Delete(job.pair, r.deleteOk);
        delivered := delivered + [job.pair];
        return;
      }
      if r.outcome != Retryable {
        if r.storeOk {
          dlq := dlq + [job.pair];
        }
        Delete(job.pair, r.deleteOk);
        return;
      }
      var attempt := job.attempt + 1;
      if attempt >= MAX_ATTEMPTS {
        if r.storeOk {
          dlq := dlq + [job.pair];
        }
        Delete(job.pair, r.deleteOk);
        return;
      }
      var base := ExponentialBackoff(attempt, r.draw1);
      BackoffPositive(attempt, r.draw1);
      var jitter := r.draw2 % (base / 2);
      if r.enqueueOk {
        queue := queue + [Row(job.pair, attempt, now + base + jitter, true)];
      }
    }

    method ProcessBatch(picks: seq<nat>, reports: seq<Report>, now: int)
      requires IsSnapshot(queue, now, picks) && |reports| == |JobsOf(queue, picks)|
      modifies this
      ensures Tables() == AfterJobs(old(Tables()), JobsOf(old(queue), picks), reports, now)
    {
      var jobs := GetReadyJobs(picks);
      for i := 0 to |jobs|
        invariant Tables() == AfterJobs(old(Tables()), jobs[..i], reports[..i], now)
      {
        assert jobs[..i + 1][..i] == jobs[..i] && reports[..i + 1][..i] == reports[..i];
        ProcessJob(jobs[i], reports[i], now);
      }
      assert jobs[..|jobs|] == jobs && reports[..|jobs|] == reports;
    }
  }

  // ---------- Conservation ----------

  ghost predicate Queued(s: State, p: Pair) { exists row <- s.queue :: row.pair == p }

  ghost predicate Recorded(s: State, p: Pair) { p in s.dlq || p in s.delivered }

  /** The job's pair is deleted although its dead letter could not be stored. */
  predicate Drops(j: Job, r: Report) { GivesUp(j, r) && !r.storeOk && r.deleteOk }

  /** DELETE .. WHERE message_id and user_id removes every row of the pair and no other. */
  lemma {:induction false} WithoutRows(queue: seq<Row>, p: Pair)
    ensures forall row :: row in Without(queue, p) <==> row in queue && row.pair != p
    decreases queue
  {
    if queue != [] {
      WithoutRows(queue[..|queue| - 1], p);
      assert queue == queue[..|queue| - 1] + [queue[|queue| - 1]];
    }
  }

  /** One job, seen from one pair: it stays queued or recorded exactly unless it is dropped unrecorded. */
  lemma JobConservesIff(s: State, j: Job, r: Report, now: int, p: Pair)
    requires Queued(s, p) || Recorded(s, p)
    ensures Recorded(s, p) ==> Recorded(AfterJob(s, j, r, now), p)
    ensures Queued(AfterJob(s, j, r, now), p) || Recorded(AfterJob(s, j, r, now), p)
            <==> !(j.pair == p && Drops(j, r) && !Recorded(s, p))
  {
    var s' := AfterJob(s, j, r, now);
    WithoutRows(s.queue, j.pair);
    if Queued(s, p) {
      var row :| row in s.queue && row.pair == p;
      assert row in s'.queue || (j.pair == p && r.deleteOk && (r.outcome == Ok || GivesUp(j, r)));
    }
  }

  /**
   After a batch, every pair that had a row is still queued, was delivered, or is in the DLQ,
   as long as the dead-letter inserts succeed; the other database calls may fail.
   */
  lemma {:induction false} BatchConserves(s: State, jobs: seq<Job>, reports: seq<Report>, now: int, p: Pair)
    requires |jobs| == |reports| && forall k :: 0 <= k < |reports| ==> reports[k].storeOk
    requires Queued(s, p) || Recorded(s, p)
    ensures Queued(AfterJobs(s, jobs, reports, now), p) || Recorded(AfterJobs(s, jobs, reports, now), p)
    decreases jobs
  {
    if jobs != [] {
      var k := |jobs| - 1;
      BatchConserves(s, jobs[..k], reports[..k], now, p);
      JobConservesIff(AfterJobs(s, jobs[..k], reports[..k], now), jobs[k], reports[k], now, p);
    }
  }

  lemma {:induction false} RecordedStays(s: State, jobs: seq<Job>, reports: seq<Report>, now: int, p: Pair)
    requires |jobs| == |reports| && Recorded(s, p)
    ensures Recorded(AfterJobs(s, jobs, reports, now), p)
    decreases jobs
  {
    if jobs != [] {
      RecordedStays(s, jobs[..|jobs| - 1], reports[..|jobs| - 1], now, p);
    }
  }

  /** Conversely a pair that is lost was dropped: some job of it gave up and its dead letter was not stored. */
  lemma {:induction false} LostWasDropped(s: State, jobs: seq<Job>, reports: seq<Report>, now: int, p: Pair)
    requires |jobs| == |reports| && (Queued(s, p) || Recorded(s, p))
    requires !Queued(AfterJobs(s, jobs, reports, now), p) && !Recorded(AfterJobs(s, jobs, reports, now), p)
    ensures exists k :: 0 <= k < |jobs| && jobs[k].pair == p && Drops(jobs[k], reports[k])
    decreases jobs
  {
    var k := |jobs| - 1;
    var s' := AfterJobs(s, jobs[..k], reports[..k], now);
    if Queued(s', p) || Recorded(s', p) {
      JobConservesIff(s', jobs[k], reports[k], now, p);
    } else {
      LostWasDropped(s, jobs[..k], reports[..k], now, p);
      var i :| 0 <= i < k && jobs[..k][i].pair == p && Drops(jobs[..k][i], reports[..k][i]);
      assert jobs[i].pair == p && Drops(jobs[i], reports[i]);
    }
  }

  predicate Records(j: Job, r: Report) { r.outcome == Ok || (GivesUp(j, r) && r.storeOk) }

  predicate Removes(j: Job, r: Report) { (r.outcome == Ok || GivesUp(j, r)) && r.deleteOk }

  predicate Requeues(j: Job, r: Report) { r.outcome != Ok && !GivesUp(j, r) && r.enqueueOk }

  /** What one job does to a pair. */
  lemma JobOnPair(s: State, j: Job, r: Report, now: int, p: Pair)
    ensures Recorded(AfterJob(s, j, r, now), p) <==> Recorded(s, p) || (j.pair == p && Records(j, r))
    ensures Queued(AfterJob(s, j, r, now), p)
            <==> (Queued(s, p) && !(j.pair == p && Removes(j, r))) || (j.pair == p && Requeues(j, r))
  {
    var s' := AfterJob(s, j, r, now);
    WithoutRows(s.queue, j.pair);
    if Queued(s, p) && !(j.pair == p && Removes(j, r)) {
      var row :| row in s.queue && row.pair == p;
      assert row in s'.queue;
    }
    if j.pair == p && Requeues(j, r) {
      assert s'.queue[|s.queue|].pair == p;
    }
  }

  /** Job k removed the pair's rows, and no later job put one back. */
  ghost predicate LastRemoval(jobs: seq<Job>, reports: seq<Report>, p: Pair, k: nat)
    requires |jobs| == |reports|
  {
    && k < |jobs| && jobs[k].pair == p && Removes(jobs[k], reports[k])
    && forall l :: k < l < |jobs| && jobs[l].pair == p ==> !Requeues(jobs[l], reports[l])
  }

  ghost predicate Unrecorded(jobs: seq<Job>, reports: seq<Report>, p: Pair)
    requires |jobs| == |reports|
  {
    forall l :: 0 <= l < |jobs| && jobs[l].pair == p ==> !Records(jobs[l], reports[l])
  }

  lemma {:induction false} BatchOnPair(s: State, jobs: seq<Job>, reports: seq<Report>, now: int, p: Pair)
    requires |jobs| == |reports| && Queued(s, p)
    ensures Recorded(AfterJobs(s, jobs, reports, now), p) <==> Recorded(s, p) || !Unrecorded(jobs, reports, p)
    ensures !Queued(AfterJobs(s, jobs, reports, now), p) <==> exists k: nat :: LastRemoval(jobs, reports, p, k)
    decreases jobs
  {
    if jobs != [] {
      var n := |jobs| - 1;
      var init, initReports := jobs[..n], reports[..n];
      BatchOnPair(s, init, initReports, now, p);
      var s' := AfterJobs(s, init, initReports, now);
      JobOnPair(s', jobs[n], reports[n], now, p);
      hide Records, Removes, Requeues, Queued, Recorded, AfterJob;
      assert Unrecorded(jobs, reports, p)
        <==> Unrecorded(init, initReports, p) && !(jobs[n].pair == p && Records(jobs[n], reports[n]));
      LastRemovalSnoc(jobs, reports, p);
    }
  }

  lemma LastRemovalSnoc(jobs: seq<Job>, reports: seq<Report>, p: Pair)
    requires |jobs| == |reports| && jobs != []
    ensures var n := |jobs| - 1;
            var mine := jobs[n].pair == p;
            (exists k: nat :: LastRemoval(jobs, reports, p, k))
            <==> || (mine && Removes(jobs[n], reports[n]))
                 || ((exists k: nat :: LastRemoval(jobs[..n], reports[..n], p, k))
                      && !(mine && Requeues(jobs[n], reports[n])))
  {
    hide Removes, Requeues;
    var n := |jobs| - 1;
    if jobs[n].pair == p && Removes(jobs[n], reports[n]) {
      assert LastRemoval(jobs, reports, p, n);
    }
    if k: nat :| LastRemoval(jobs[..n], reports[..n], p, k) {
      assert !(jobs[n].pair == p && Requeues(jobs[n], reports[n])) ==> LastRemoval(jobs, reports, p, k);
    }
    if k: nat :| LastRemoval(jobs, reports, p, k) {
      assert k < n ==> LastRemoval(jobs[..n], reports[..n], p, k);
    }
  }

  /**
   A pair that had a row is lost in a batch exactly when nothing records it, before or during the
   batch, and some job of it gives up, deletes its rows, and no later job puts one back.
   */
  lemma BatchLosesIff(s: State, jobs: seq<Job>, reports: seq<Report>, now: int, p: Pair)
    requires |jobs| == |reports| && Queued(s, p)
    ensures !Queued(AfterJobs(s, jobs, reports, now), p) && !Recorded(AfterJobs(s, jobs, reports, now), p)
            <==> && !Recorded(s, p) && Unrecorded(jobs, reports, p)
                 && exists k: nat :: LastRemoval(jobs, reports, p, k) && Drops(jobs[k], reports[k])
  {
    BatchOnPair(s, jobs, reports, now, p);
    hide AfterJobs, Queued, Recorded;
    if Unrecorded(jobs, reports, p) {
      forall k: nat | LastRemoval(jobs, reports, p, k) ensures Drops(jobs[k], reports[k]) {}
    }
  }

  // ---------- Attempts ----------

  /** The tables and the delivery channel, for whole runs. */
  datatype System = System(tables: State, channel: seq<Job>)

  datatype Action =
    | Broadcast(pair: Pair, clientId: string)
    | Work(ok: bool, r: Report, now: int)
    | Batch(picks: seq<nat>, reports: seq<Report>, now: int)

  /** A delivery worker's step on the job at the head of the channel; it doubles the delay from two seconds. */
  function AfterWork(s: State, j: Job, ok: bool, r: Report, now: int): State {
    if ok then s.(delivered := s.delivered + [j.pair])
    else if j.attempt + 1 >= MAX_ATTEMPTS then if r.storeOk then s.(dlq := s.dlq + [j.pair]) else s
    else if r.enqueueOk
        then s.(queue := s.queue + [Row(j.pair, j.attempt + 1, now + SECOND * Pow2(j.attempt + 1), true)])
    else s
  }

  ghost predicate Enabled(s: System, a: Action) {
    match a
    case Broadcast(_, _) => true
    case Work(_, _, _) => s.channel != []
    case Batch(picks, reports, now) =>
      IsSnapshot(s.tables.queue, now, picks) && |reports| == |JobsOf(s.tables.queue, picks)|
  }

  ghost function Step(s: System, a: Action): System
    requires Enabled(s, a)
  {
    match a
    case Broadcast(pair, clientId) => s.(channel := s.channel + [Job(pair, clientId, 0)])
    case Work(ok, r, now) => System(AfterWork(s.tables, s.channel[0], ok, r, now), s.channel[1..])
    case Batch(picks, reports, now) =>
      s.(tables := AfterJobs(s.tables, JobsOf(s.tables.queue, picks), reports, now))
  }

  ghost predicate ValidRun(s: System, acts: seq<Action>)
    decreases acts
  {
    acts == [] || (Enabled(s, acts[0]) && ValidRun(Step(s, acts[0]), acts[1..]))
  }

  ghost function Run(s: System, acts: seq<Action>): System
    requires ValidRun(s, acts)
    decreases acts
  {
    if acts == [] then s else Run(Step(s, acts[0]), acts[1..])
  }

  ghost predicate RowsInRange(queue: seq<Row>) {
    forall i :: 0 <= i < |queue| ==> 1 <= queue[i].attempt <= 4
  }

  ghost predicate AttemptsOk(s: System) {
    && RowsInRange(s.tables.queue)
    && forall i :: 0 <= i < |s.channel| ==> s.channel[i].attempt == 0
  }

  lemma {:induction false} JobsInRange(queue: seq<Row>, picks: seq<nat>)
    requires RowsInRange(queue) && forall k :: 0 <= k < |picks| ==> picks[k] < |queue|
    ensures forall j <- JobsOf(queue, picks) :: 1 <= j.attempt <= 4 && j.clientId == ""
    decreases picks
  {
    if picks != [] {
      JobsInRange(queue, picks[..|picks| - 1]);
    }
  }

  lemma {:induction false} JobsKeepRange(s: State, jobs: seq<Job>, reports: seq<Report>, now: int)
    requires |jobs| == |reports| && RowsInRange(s.queue) && forall j <- jobs :: 1 <= j.attempt <= 4
    ensures RowsInRange(AfterJobs(s, jobs, reports, now).queue)
    decreases jobs
  {
    if jobs != [] {
      var k := |jobs| - 1;
      JobsKeepRange(s, jobs[..k], reports[..k], now);
      var s' := AfterJobs(s, jobs[..k], reports[..k], now);
      WithoutRows(s'.queue, jobs[k].pair);
      assert forall row <- s'.queue :: 1 <= row.attempt <= 4;
      assert jobs[k] in jobs;
      var s'' := AfterJob(s', jobs[k], reports[k], now);
      forall i | 0 <= i < |s''.queue| ensures 1 <= s''.queue[i].attempt <= 4 {
        assert s''.queue[i] in s''.queue;
      }
    }
  }

  /**
   In every reachable state each retry row stands at attempt 1 to 4 and each job in the
   channel at 0; so the delivery worker's own branch for exhausted attempts is never taken.
   */
  lemma {:induction false} AttemptsInRange(s: System, acts: seq<Action>)
    requires ValidRun(s, acts) && AttemptsOk(s)
    ensures AttemptsOk(Run(s, acts))
    decreases acts
  {
    if acts != [] {
      var a := acts[0];
      if a.Batch? {
        JobsInRange(s.tables.queue, a.picks);
        JobsKeepRange(s.tables, JobsOf(s.tables.queue, a.picks), a.reports, a.now);
      }
      AttemptsInRange(Step(s, a), acts[1..]);
    }
  }

  // ---------- A batch in which no delivery can succeed ----------

  /** With every delivery failing for good, the batch moves the pairs it takes up to the DLQ, all of them. */
  lemma {:induction false} FatalBatch(s: State, jobs: seq<Job>, reports: seq<Report>, now: int)
    requires |jobs| == |reports|
    requires forall k :: 0 <= k < |reports| ==> reports[k].outcome == Fatal && reports[k].storeOk && reports[k].deleteOk
    ensures AfterJobs(s, jobs, reports, now).delivered == s.delivered
    ensures var s' := AfterJobs(s, jobs, reports, now);
            forall j <- jobs :: j.pair in s'.dlq && !Queued(s', j.pair)
    ensures forall row <- AfterJobs(s, jobs, reports, now).queue :: row in s.queue
    decreases jobs
  {
    if jobs != [] {
      var k := |jobs| - 1;
      FatalBatch(s, jobs[..k], reports[..k], now);
      var s' := AfterJobs(s, jobs[..k], reports[..k], now);
      WithoutRows(s'.queue, jobs[k].pair);
      forall j <- jobs
          ensures j.pair in AfterJobs(s, jobs, reports, now).dlq && !Queued(AfterJobs(s, jobs, reports, now), j.pair) {
        if j != jobs[k] { assert j in jobs[..k]; }
      }
    }
  }

  // ---------- What one job does, in plain terms ----------

  lemma PowersOfTwo()
    ensures Pow2(1) == 2 && Pow2(2) == 4 && Pow2(3) == 8 && Pow2(4) == 16
  {
  }

  /** Failing in a way that may pass, below the last attempt, with the database working. */
  predicate Retries(j: Job, r: Report) { r.outcome == Retryable && j.attempt <= 3 && r.enqueueOk }

  /**
   A retryable job below the last attempt adds exactly one row, at the next attempt a, due between 2^a
   seconds and one and a half times (2^a + 0.999) from now. The other tables stay.
   */
  lemma RetryAddsRow(s: State, j: Job, r: Report, now: int)
    requires Retries(j, r)
    ensures var s' := AfterJob(s, j, r, now);
            var a := j.attempt + 1;
            && |s'.queue| == |s.queue| + 1 && s'.queue[..|s.queue|] == s.queue
            && s'.dlq == s.dlq && s'.delivered == s.delivered
            && var row := s'.queue[|s.queue|];
               && row.pair == j.pair && row.attempt == a && row.decodes
               && Pow2(a) * SECOND <= row.nextRetryAt - now
               && 2 * (row.nextRetryAt - now) < 3 * (Pow2(a) * SECOND + 999 * MILLISECOND)
  {
    DelayBounds(j.attempt + 1, r.draw1, r.draw2);
  }

  /** A job that succeeds, fails for good or fails at attempt 4 leaves the queue, and goes where it belongs. */
  lemma JobEnds(s: State, j: Job, r: Report, now: int)
    requires r.outcome == Ok || r.outcome == Fatal || j.attempt >= 4
    requires r.deleteOk && r.storeOk
    ensures var s' := AfterJob(s, j, r, now);
            && (forall row :: row in s'.queue <==> row in s.queue && row.pair != j.pair)
            && s'.delivered == (if r.outcome == Ok then s.delivered + [j.pair] else s.delivered)
            && s'.dlq == (if r.outcome == Ok then s.dlq else s.dlq + [j.pair])
  {
    WithoutRows(s.queue, j.pair);
  }

  /** The jobs of pair p all fail retryably, and the database refuses nothing. */
  ghost predicate AllRetry(jobs: seq<Job>, reports: seq<Report>, p: Pair)
    requires |jobs| == |reports|
  {
    forall k :: 0 <= k < |jobs| && jobs[k].pair == p
                ==> reports[k].outcome == Retryable && reports[k].enqueueOk && reports[k].storeOk && reports[k].deleteOk
  }

  ghost predicate HasJob(jobs: seq<Job>, p: Pair, low: nat) {
    exists k :: 0 <= k < |jobs| && jobs[k].pair == p && jobs[k].attempt >= low
  }

  /**
   Over any batches: a pair whose deliveries all fail retryably is dead-lettered exactly by a job at
   attempt 4, and not before; until then it stays queued.
   */
  lemma {:induction false} GivenUpIff(s: State, jobs: seq<Job>, reports: seq<Report>, now: int, p: Pair)
    requires |jobs| == |reports| && AllRetry(jobs, reports, p) && p !in s.dlq
    ensures p in AfterJobs(s, jobs, reports, now).dlq <==> HasJob(jobs, p, 4)
    ensures Queued(s, p) && !HasJob(jobs, p, 4) ==> Queued(AfterJobs(s, jobs, reports, now), p)
    ensures jobs != [] && jobs[|jobs| - 1].pair == p && jobs[|jobs| - 1].attempt >= 4
            ==> !Queued(AfterJobs(s, jobs, reports, now), p)
    decreases jobs
  {
    if jobs != [] {
      var n := |jobs| - 1;
      var init, initReports := jobs[..n], reports[..n];
      GivenUpIff(s, init, initReports, now, p);
      HasJobSnoc(jobs, p, 4);
      var t := AfterJobs(s, init, initReports, now);
      if jobs[n].pair != p {
        OtherPair(t, jobs[n], reports[n], now, p);
      } else if jobs[n].attempt <= 3 {
        RetryAddsRow(t, jobs[n], reports[n], now);
        JobOnPair(t, jobs[n], reports[n], now, p);
      } else {
        JobEnds(t, jobs[n], reports[n], now);
      }
    }
  }

  lemma HasJobSnoc(jobs: seq<Job>, p: Pair, low: nat)
    requires jobs != []
    ensures var n := |jobs| - 1;
            HasJob(jobs, p, low) <==> HasJob(jobs[..n], p, low) || (jobs[n].pair == p && jobs[n].attempt >= low)
  {
    var n := |jobs| - 1;
    if k :| 0 <= k < n && jobs[..n][k].pair == p && jobs[..n][k].attempt >= low {
      assert jobs[k].pair == p;
    }
    if k :| 0 <= k < |jobs| && jobs[k].pair == p && jobs[k].attempt >= low {
      assert k < n ==> jobs[..n][k].pair == p;
    }
  }

  /** A job of another pair leaves a pair's rows, dead letters and deliveries alone. */
  lemma OtherPair(s: State, j: Job, r: Report, now: int, p: Pair)
    requires j.pair != p
    ensures var s' := AfterJob(s, j, r, now);
            && (p in s'.dlq <==> p in s.dlq) && (p in s'.delivered <==> p in s.delivered)
            && forall row: Row :: row.pair == p ==> (row in s'.queue <==> row in s.queue)
  {
    WithoutRows(s.queue, j.pair);
  }

  /** The jobs one after another that a pair's newest row gives when every delivery fails retryably. */
  function Climb(p: Pair, n: nat): seq<Job> { seq(n, i requires 0 <= i < n => Job(p, "", i + 1)) }

  /**
   Round after round from attempt 1: after the job at attempt n the newest row stands at n + 1, up to
   4; the job at attempt 4 puts the pair into the dead letters and takes all its rows away.
   */
  lemma {:induction false} ClimbsToDeadLetter(s: State, p: Pair, n: nat, reports: seq<Report>, now: int)
    requires n <= 4 && |reports| == n && AllRetry(Climb(p, n), reports, p) && p !in s.dlq
    requires exists row <- s.queue :: row.pair == p && row.attempt == 1
    ensures var t := AfterJobs(s, Climb(p, n), reports, now);
            if n < 4 then p !in t.dlq && exists row <- t.queue :: row.pair == p && row.attempt == n + 1
            else p in t.dlq && !Queued(t, p)
    decreases n
  {
    GivenUpIff(s, Climb(p, n), reports, now, p);
    if n > 0 {
      var jobs := Climb(p, n);
      assert jobs[..n - 1] == Climb(p, n - 1);
      assert jobs[n - 1] == Job(p, "", n);
      var t := AfterJobs(s, jobs[..n - 1], reports[..n - 1], now);
      if n < 4 {
        RetryAddsRow(t, jobs[n - 1], reports[n - 1], now);
        var s' := AfterJob(t, jobs[n - 1], reports[n - 1], now);
        assert s'.queue[|t.queue|] in s'.queue;
      }
    }
  }

  // ---------- Which jobs a reading gives ----------

  /** The jobs are those of the picked rows that decode, with their pair and attempt and no connection id. */
  lemma {:induction false} JobsAre(queue: seq<Row>, picks: seq<nat>)
    requires forall k :: 0 <= k < |picks| ==> picks[k] < |queue|
    ensures forall j :: j in JobsOf(queue, picks)
                        <==> exists k :: 0 <= k < |picks| && queue[picks[k]].decodes
                                         && j == Job(queue[picks[k]].pair, "", queue[picks[k]].attempt)
    ensures (forall k :: 0 <= k < |picks| ==> queue[picks[k]].decodes)
            ==> |JobsOf(queue, picks)| == |picks|
                && forall k :: 0 <= k < |picks| ==> JobsOf(queue, picks)[k].pair == queue[picks[k]].pair
    decreases picks
  {
    if picks != [] {
      var n := |picks| - 1;
      JobsAre(queue, picks[..n]);
      forall j ensures j in JobsOf(queue, picks)
                       <==> exists k :: 0 <= k < |picks| && queue[picks[k]].decodes
                                        && j == Job(queue[picks[k]].pair, "", queue[picks[k]].attempt) {
        if j in JobsOf(queue, picks[..n]) {
          var k :| 0 <= k < n && queue[picks[..n][k]].decodes
                   && j == Job(queue[picks[..n][k]].pair, "", queue[picks[..n][k]].attempt);
          assert picks[k] == picks[..n][k];
        }
        if k :| 0 <= k < n && queue[picks[k]].decodes && j == Job(queue[picks[k]].pair, "", queue[picks[k]].attempt) {
          assert picks[..n][k] == picks[k];
        }
      }
    }
  }

  // ---------- How long a retried pair is kept ----------

  /** A row at attempt a is due no earlier than the waits of 2, 4, ..., 2^a seconds allow. */
  ghost predicate Waited(queue: seq<Row>, p: Pair, start: int) {
    forall row <- queue :: row.pair == p ==> start + (2 * Pow2(row.attempt) - 2) * SECOND <= row.nextRetryAt
  }

  /** Within half a minute of `start`, with no delivery of the pair from the queue failing for good. */
  ghost predicate HalfAMinute(s: System, a: Action, p: Pair, start: int)
    requires Enabled(s, a)
  {
    match a
    case Broadcast(_, _) => true
    case Work(_, _, now) => start <= now
    case Batch(picks, reports, now) =>
      && now < start + 30 * SECOND
      && forall k :: 0 <= k < |reports| && JobsOf(s.tables.queue, picks)[k].pair == p ==> reports[k].outcome != Fatal
  }

  ghost predicate AllHalfAMinute(s: System, acts: seq<Action>, p: Pair, start: int)
    requires ValidRun(s, acts)
    decreases acts
  {
    acts == [] || (HalfAMinute(s, acts[0], p, start) && AllHalfAMinute(Step(s, acts[0]), acts[1..], p, start))
  }

  /** A job of the pair comes from a row that was due. */
  lemma JobsWaited(queue: seq<Row>, picks: seq<nat>, now: int, p: Pair, start: int)
    requires IsSnapshot(queue, now, picks) && Waited(queue, p, start)
    ensures forall j <- JobsOf(queue, picks) :: j.pair == p ==> start + (2 * Pow2(j.attempt) - 2) * SECOND <= now
  {
    JobsAre(queue, picks);
    forall j <- JobsOf(queue, picks) | j.pair == p ensures start + (2 * Pow2(j.attempt) - 2) * SECOND <= now {
      var k :| 0 <= k < |picks| && queue[picks[k]].decodes
               && j == Job(queue[picks[k]].pair, "", queue[picks[k]].attempt);
      assert queue[picks[k]] in queue;
    }
  }

  lemma {:induction false} BatchWaits(s: State, jobs: seq<Job>, reports: seq<Report>, now: int, p: Pair, start: int)
    requires |jobs| == |reports| && Waited(s.queue, p, start) && p !in s.dlq && now < start + 30 * SECOND
    requires forall j <- jobs :: 1 <= j.attempt <= 4
    requires forall j <- jobs :: j.pair == p ==> start + (2 * Pow2(j.attempt) - 2) * SECOND <= now
    requires forall k :: 0 <= k < |jobs| && jobs[k].pair == p ==> reports[k].outcome != Fatal
    ensures Waited(AfterJobs(s, jobs, reports, now).queue, p, start) && p !in AfterJobs(s, jobs, reports, now).dlq
    decreases jobs
  {
    if jobs != [] {
      var n := |jobs| - 1;
      BatchWaits(s, jobs[..n], reports[..n], now, p, start);
      assert jobs[n] in jobs;
      JobWaits(AfterJobs(s, jobs[..n], reports[..n], now), jobs[n], reports[n], now, p, start);
    }
  }

  lemma JobWaits(s: State, j: Job, r: Report, now: int, p: Pair, start: int)
    requires Waited(s.queue, p, start) && p !in s.dlq && now < start + 30 * SECOND && 1 <= j.attempt <= 4
    requires j.pair == p ==> r.outcome != Fatal && start + (2 * Pow2(j.attempt) - 2) * SECOND <= now
    ensures Waited(AfterJob(s, j, r, now).queue, p, start) && p !in AfterJob(s, j, r, now).dlq
  {
    WithoutRows(s.queue, j.pair);
    PowersOfTwo();
    DelayBounds(j.attempt + 1, r.draw1, r.draw2);
    assert Pow2(j.attempt + 1) == 2 * Pow2(j.attempt);
  }

  /**
   From any moment at which nothing of the pair is queued or dead: as long as no delivery from the queue
   fails for good, a dead letter takes all four waits, so no batch of the next 30 seconds brings one,
   whatever the database refuses.
   */
  lemma {:induction false} NotGivenUpEarly(s: System, acts: seq<Action>, p: Pair, start: int)
    requires ValidRun(s, acts) && AllHalfAMinute(s, acts, p, start)
    requires AttemptsOk(s) && Waited(s.tables.queue, p, start) && p !in s.tables.dlq
    ensures Waited(Run(s, acts).tables.queue, p, start) && p !in Run(s, acts).tables.dlq
    decreases acts
  {
    if acts != [] {
      var a := acts[0];
      AttemptsInRange(s, [a]);
      match a {
        case Broadcast(_, _) =>
        case Work(_, _, _) => PowersOfTwo();
        case Batch(picks, reports, now) =>
          JobsWaited(s.tables.queue, picks, now, p, start);
          JobsInRange(s.tables.queue, picks);
          BatchWaits(s.tables, JobsOf(s.tables.queue, picks), reports, now, p, start);
      }
      assert Run(s, [a]) == Step(s, a);
      NotGivenUpEarly(Step(s, a), acts[1..], p, start);
    }
  }

  // ---------- The delivery worker's step ----------

  /**
   A delivery worker records a delivery that succeeds; one that fails it puts back at the next attempt
   a, due in exactly 2^a seconds, or from attempt 4 on into the dead letters. It loses the pair exactly
   if the insert it needs is refused.
   */
  lemma WorkDoes(s: State, j: Job, ok: bool, r: Report, now: int)
    ensures var s' := AfterWork(s, j, ok, r, now);
            && s'.delivered == (if ok then s.delivered + [j.pair] else s.delivered)
            && s'.dlq == (if !ok && j.attempt >= 4 && r.storeOk then s.dlq + [j.pair] else s.dlq)
            && s'.queue == (if !ok && j.attempt <= 3 && r.enqueueOk
                            then s.queue + [Row(j.pair, j.attempt + 1, now + Pow2(j.attempt + 1) * SECOND, true)]
                            else s.queue)
            && (s' == s <==> !ok && !(if j.attempt >= 4 then r.storeOk else r.enqueueOk))
  {
  }

  // ---------- The delivery channel ----------

  function Broadcasts(acts: seq<Action>): seq<Job> {
    if acts == [] then []
    else (if acts[0].Broadcast? then [Job(acts[0].pair, acts[0].clientId, 0)] else []) + Broadcasts(acts[1..])
  }

  /** The jobs that the delivery workers have taken out. */
  ghost function Taken(s: System, acts: seq<Action>): seq<Job>
    requires ValidRun(s, acts)
    decreases acts
  {
    if acts == [] then []
    else (if acts[0].Work? then [s.channel[0]] else []) + Taken(Step(s, acts[0]), acts[1..])
  }

  /** First in, first out: the jobs taken out and those that wait are the broadcast ones, in their order. */
  lemma {:induction false} ChannelIsFifo(s: System, acts: seq<Action>)
    requires ValidRun(s, acts)
    ensures Taken(s, acts) + Run(s, acts).channel == s.channel + Broadcasts(acts)
    decreases acts
  {
    if acts != [] {
      var t := Step(s, acts[0]);
      ChannelIsFifo(t, acts[1..]);
      ChannelStep(s, acts[0]);
      var taken := if acts[0].Work? then [s.channel[0]] else [];
      var sent := if acts[0].Broadcast? then [Job(acts[0].pair, acts[0].clientId, 0)] else [];
      Joined(taken, Taken(t, acts[1..]), Run(t, acts[1..]).channel, t.channel, s.channel, sent, Broadcasts(acts[1..]));
      hide Step, Enabled;
    }
  }

  lemma ChannelStep(s: System, a: Action)
    requires Enabled(s, a)
    ensures a.Work? ==> s.channel != []
    ensures (if a.Work? then [s.channel[0]] else []) + Step(s, a).channel
            == s.channel + if a.Broadcast? then [Job(a.pair, a.clientId, 0)] else []
  {
  }

  lemma Joined<T>(a: seq<T>, b: seq<T>, c: seq<T>, d: seq<T>, e: seq<T>, f: seq<T>, g: seq<T>)
    requires b + c == d + g && a + d == e + f
    ensures (a + b) + c == e + (f + g)
  {
    assert (a + b) + c == a + (b + c) == (a + d) + g == e + (f + g);
  }

  /** The bounds of the delay are met: its least value, its greatest, and each step of the second draw. */
  lemma DelaysAttained(a: nat, extra: nat)
    requires 2 * extra < Pow2(a) * SECOND
    ensures RetryDelay(a, 0, extra) == Pow2(a) * SECOND + extra
    ensures exists draw1, draw2 :: 2 * RetryDelay(a, draw1, draw2) == 3 * (Pow2(a) * SECOND + 999 * MILLISECOND) - 2
  {
    BackoffPositive(a, 0);
    BackoffPositive(a, 999);
    var base, least := ExponentialBackoff(a, 999), ExponentialBackoff(a, 0);
    assert base == Pow2(a) * SECOND + 999 * MILLISECOND && least == Pow2(a) * SECOND;
    assert base == 2 * (base / 2) && least == 2 * (least / 2) by {
      assert Pow2(a) * SECOND == 2 * (Pow2(a) * 500_000_000);
    }
    Small(base / 2 - 1, base / 2);
    Small(extra, least / 2);
    assert RetryDelay(a, 999, base / 2 - 1) == base + (base / 2 - 1);
  }

  lemma Small(x: nat, m: nat)
    requires x < m
    ensures x % m == x
  {
  }
}
