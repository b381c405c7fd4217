/** The table outbox_events and the worker that drains it. */
module Outbox {
  import opened Wrappers

  const LIMIT := 100

  /** `messageId` is what decoding the payload gives; None if decoding fails. */
  datatype Row = Row(id: string, createdAt: int, messageId: Option<string>, publishedAt: Option<int>, retryCount: nat)

  /** What happens to one event that the worker takes up; `counted` is whether IncrementRetry goes through. */
  datatype Attempt = LoadFails(counted: bool) | PublishFails(counted: bool) | MarkFails | Delivered

  predicate Unpublished(r: Row) { r.publishedAt.None? }

  // ---------- One tick ----------

  /**
   `at` holds the places of an answer to the query for the 100 oldest unpublished rows. Rows
   created at one moment may come in any order.
   */
  ghost predicate IsSnapshot(rows: seq<Row>, at: seq<nat>) {
    && |at| <= LIMIT
    && (forall k :: 0 <= k < |at| ==> at[k] < |rows| && Unpublished(rows[at[k]]))
    && (forall k, l :: 0 <= k < l < |at| ==> at[k] != at[l] && rows[at[k]].createdAt <= rows[at[l]].createdAt)
    && (forall i: nat :: i < |rows| && i !in at && Unpublished(rows[i]) ==>
                           |at| == LIMIT && forall k :: 0 <= k < |at| ==> rows[at[k]].createdAt <= rows[i].createdAt)
  }

  /** What the worker gets to handle: the answer, or the part of it before the reading or the worker stops. */
  ghost predicate IsRead(rows: seq<Row>, at: seq<nat>) { exists full :: IsSnapshot(rows, full) && at <= full }

  predicate Counts(a: Attempt) { a.LoadFails? || a.PublishFails? ==> a.counted }

  /** IncrementRetry after a failure, MarkPublished after an accepted publish, if the update succeeds. */
  function Handled(r: Row, attempt: Attempt, now: int): Row {
    if r.messageId.None? || attempt.LoadFails? || attempt.PublishFails? then
      if Counts(attempt) then r.(retryCount := r.retryCount + 1) else r
    else if attempt.MarkFails? then r
    else r.(publishedAt := Some(now))
  }

  predicate Accepts(r: Row, attempt: Attempt) { r.messageId.Some? && (attempt.MarkFails? || attempt.Delivered?) }

  /** The table when the rows at the given places have been handled. */
  ghost function AfterTick(rows: seq<Row>, at: seq<nat>, attempts: string -> Attempt, now: int): (r: seq<Row>)
    ensures |r| == |rows|
  {
    seq(|rows|, i requires 0 <= i < |rows| => if i in at then Handled(rows[i], attempts(rows[i].id), now) else rows[i])
  }

  /** The events whose publish the broker accepts in this tick. */
  ghost function AcceptedAt(rows: seq<Row>, at: seq<nat>, attempts: string -> Attempt): set<string> {
    set i <- at | i < |rows| && Accepts(rows[i], attempts(rows[i].id)) :: rows[i].id
  }

  ghost predicate DistinctIds(rows: seq<Row>) {
    forall i, j :: 0 <= i < j < |rows| ==> rows[i].id != rows[j].id
  }

  class OutboxWorker {
    var rows: seq<Row>
    ghost var accepted: set<string>

    constructor ()
      ensures rows == [] && accepted == {}
    {
      rows, accepted := [], {};
    }

    method SaveEvent(id: string, createdAt: int, messageId: Option<string>)
      requires DistinctIds(rows) && forall r <- rows :: r.id != id
      modifies this
      ensures rows == old(rows) + [Row(id, createdAt, messageId, None, 0)] && DistinctIds(rows)
      ensures accepted == old(accepted)
    {
      rows := rows + [Row(id, createdAt, messageId, None, 0)];
    }

    /** `at` is the query's answer, or what of it is read before the reading breaks off. */
    method GetUnpublishedEvents(at: seq<nat>) returns (events: seq<Row>)
      requires IsRead(rows, at)
      ensures |events| == |at| <= LIMIT
      ensures forall k :: 0 <= k < |at| ==> at[k] < |rows| && events[k] == rows[at[k]] && Unpublished(events[k])
    {
      ReadPlaces(rows, at);
      events := [];
      for k := 0 to |at|
        invariant |events| == k && forall l :: 0 <= l < k ==> events[l] == rows[at[l]]
      {
        events := events + [rows[at[k]]];
      }
    }

    /** UPDATE .. WHERE id = $1. */
    method Update(id: string, row: Row, ghost i: nat)
      requires DistinctIds(rows) && i < |rows| && rows[i].id == id == row.id
      modifies this
      ensures rows == old(rows)[i := row] && accepted == old(accepted)
    {
      rows := seq(|rows|, k requires 0 <= k < |rows| reads this => if rows[k].id == id then row else rows[k]);
    }

    method IncrementRetry(event: Row, counted: bool, ghost i: nat)
      requires DistinctIds(rows) && i < |rows| && rows[i] == event
      modifies this
      ensures rows == (if counted then old(rows)[i := event.(retryCount := event.retryCount + 1)] else old(rows))
      ensures accepted == old(accepted)
    {
      if counted {
        Update(event.id, event.(retryCount := event.retryCount + 1), i);
      }
    }

    /** The body of the worker's loop, for the event at place i of the table. */
    method HandleEvent(event: Row, attempt: Attempt, now: int, ghost i: nat)
      requires DistinctIds(rows) && i < |rows| && rows[i] == event
      modifies this
      ensures rows == old(rows)[i := Handled(event, attempt, now)]
      ensures accepted == old(accepted) + if Accepts(event, attempt) then {event.id} else {}
    {
      if event.messageId.None? || attempt.LoadFails? || attempt.PublishFails? {
        IncrementRetry(event, Counts(attempt), i);
        return;
      }
      accepted := accepted + {event.id};
      if attempt.MarkFails? {
        return;
      }
      Update(event.id, event.(publishedAt := Some(now)), i);
    }

    method Process(at: seq<nat>, attempts: string -> Attempt, now: int)
      requires DistinctIds(rows) && IsRead(rows, at)
      modifies this
      ensures rows == AfterTick(old(rows), at, attempts, now) && DistinctIds(rows)
      ensures accepted == old(accepted) + AcceptedAt(old(rows), at, attempts)
    {
      ghost var before := rows;
      var events := GetUnpublishedEvents(at);
      ReadPlaces(before, at);
      assert at[..0] == [] && AfterTick(before, [], attempts, now) == before && AcceptedAt(before, [], attempts) == {};
      hide AfterTick, AcceptedAt, DistinctIds, Handled, Accepts, IsRead;
      for k := 0 to |events|
        invariant rows == AfterTick(before, at[..k], attempts, now) && DistinctIds(rows)
        invariant accepted == old(accepted) + AcceptedAt(before, at[..k], attempts)
      {
        ghost var i := at[k];
        assert i !in at[..k] && at[..k + 1] == at[..k] + [i];
        TickSnoc(before, at[..k], i, attempts, now);
        HandleEvent(events[k], attempts(events[k].id), now, i);
      }
      assert at[..|events|] == at;
    }
  }

  lemma ReadPlaces(rows: seq<Row>, at: seq<nat>)
    requires IsRead(rows, at)
    ensures |at| <= LIMIT
    ensures forall k :: 0 <= k < |at| ==> at[k] < |rows| && Unpublished(rows[at[k]])
    ensures forall k, l :: 0 <= k < l < |at| ==> at[k] != at[l]
  {
    var full :| IsSnapshot(rows, full) && at <= full;
  }

  lemma SameIds(rows: seq<Row>, rows': seq<Row>)
    requires DistinctIds(rows) && |rows'| == |rows| && forall i :: 0 <= i < |rows| ==> rows'[i].id == rows[i].id
    ensures DistinctIds(rows')
  {
  }

  /** Handling one more of the rows. */
  lemma TickSnoc(rows: seq<Row>, at: seq<nat>, i: nat, attempts: string -> Attempt, now: int)
    requires DistinctIds(rows) && i < |rows| && i !in at
    ensures DistinctIds(AfterTick(rows, at, attempts, now)) && AfterTick(rows, at, attempts, now)[i] == rows[i]
    ensures AfterTick(rows, at + [i], attempts, now)
            == AfterTick(rows, at, attempts, now)[i := Handled(rows[i], attempts(rows[i].id), now)]
    ensures DistinctIds(AfterTick(rows, at + [i], attempts, now))
    ensures AcceptedAt(rows, at + [i], attempts)
            == AcceptedAt(rows, at, attempts) + if Accepts(rows[i], attempts(rows[i].id)) then {rows[i].id} else {}
  {
    SameIds(rows, AfterTick(rows, at, attempts, now));
    SameIds(rows, AfterTick(rows, at + [i], attempts, now));
  }

  // ---------- Runs ----------

  datatype Action =
    | Save(id: string, createdAt: int, messageId: Option<string>)
    | Tick(at: seq<nat>, attempts: string -> Attempt, now: int)

  datatype State = State(rows: seq<Row>, accepted: set<string>)

  ghost predicate Enabled(s: State, a: Action) { a.Tick? ==> IsRead(s.rows, a.at) }

  ghost function Step(s: State, a: Action): State {
    match a
    case Save(id, createdAt, messageId) => s.(rows := s.rows + [Row(id, createdAt, messageId, None, 0)])
    case Tick(at, attempts, now) =>
      State(AfterTick(s.rows, at, attempts, now), s.accepted + AcceptedAt(s.rows, at, attempts))
  }

  ghost predicate ValidRun(s: State, acts: seq<Action>)
    decreases acts
  {
    acts == [] || (Enabled(s, acts[0]) && ValidRun(Step(s, acts[0]), acts[1..]))
  }

  ghost function Run(s: State, acts: seq<Action>): State
    decreases acts
  {
    if acts == [] then s else Run(Step(s, acts[0]), acts[1..])
  }

  // ---------- No event is lost ----------

  ghost predicate OnlyAcceptedPublished(s: State) {
    forall i :: 0 <= i < |s.rows| && s.rows[i].publishedAt.Some? ==> s.rows[i].id in s.accepted
  }

  /** s' still has every row of s, as the same event, and none of them has become unpublished. */
  ghost predicate Keeps(s: State, s': State) {
    && |s.rows| <= |s'.rows|
    && s.accepted <= s'.accepted
    && forall i :: 0 <= i < |s.rows| ==>
                     && s'.rows[i].id == s.rows[i].id && s'.rows[i].createdAt == s.rows[i].createdAt
                     && s'.rows[i].messageId == s.rows[i].messageId
                     && (s.rows[i].publishedAt.Some? ==> s'.rows[i].publishedAt == s.rows[i].publishedAt)
  }

  lemma StepKeeps(s: State, a: Action)
    requires Enabled(s, a)
    ensures Keeps(s, Step(s, a)) && (OnlyAcceptedPublished(s) ==> OnlyAcceptedPublished(Step(s, a)))
  {
    if a.Tick? {
      ReadPlaces(s.rows, a.at);
      hide IsRead;
    }
  }

  /** In every run no event disappears, and one is marked published only once a publish was accepted. */
  lemma {:induction false} NothingLost(s: State, acts: seq<Action>)
    requires OnlyAcceptedPublished(s) && ValidRun(s, acts)
    ensures Keeps(s, Run(s, acts)) && OnlyAcceptedPublished(Run(s, acts))
    decreases acts
  {
    if acts != [] {
      StepKeeps(s, acts[0]);
      hide Step, Enabled;
      NothingLost(Step(s, acts[0]), acts[1..]);
    }
  }

  // ---------- Counting rows ----------

  ghost function Places(rows: seq<Row>, p: Row -> bool): set<nat> { set i: nat | i < |rows| && p(rows[i]) }

  lemma SubsetSize<T>(a: set<T>, b: set<T>)
    requires a <= b
    ensures |a| <= |b|
  {
    assert |b - a| == |b| - |a|;
  }

  function Set(at: seq<nat>): set<nat> { set i | i in at }

  lemma {:induction false} SizeOfPlaces(at: seq<nat>)
    requires forall k, l :: 0 <= k < l < |at| ==> at[k] != at[l]
    ensures |Set(at)| == |at|
    decreases at
  {
    if at != [] {
      var init, last := at[..|at| - 1], at[|at| - 1];
      SizeOfPlaces(init);
      assert Set(at) == Set(init) + {last};
    }
  }

  // ---------- Which events are eventually published? ----------

  /** An event that can be published: it decodes, and every attempt on it succeeds. */
  predicate Good(r: Row, good: string -> bool) { r.messageId.Some? && good(r.id) }

  function PendingUpTo(good: string -> bool, t: int): Row -> bool {
    (r: Row) => Unpublished(r) && Good(r, good) && r.createdAt <= t
  }

  function FailingBefore(good: string -> bool, t: int): Row -> bool {
    (r: Row) => Unpublished(r) && !Good(r, good) && r.createdAt < t
  }

  /**
   Ticks read the whole answer, deliver the good events, and never get the others through; no event is stored
   with an older time.
   */
  ghost predicate Steady(s: State, a: Action, good: string -> bool, t: int) {
    match a
    case Save(_, createdAt, _) => createdAt > t
    case Tick(at, attempts, _) => IsSnapshot(s.rows, at) && forall id :: attempts(id) == Delivered <==> good(id)
  }

  ghost predicate SteadyRun(s: State, acts: seq<Action>, good: string -> bool, t: int)
    decreases acts
  {
    acts == [] || (Steady(s, acts[0], good, t) && SteadyRun(Step(s, acts[0]), acts[1..], good, t))
  }

  function Ticks(acts: seq<Action>): nat
    decreases acts
  {
    if acts == [] then 0 else (if acts[0].Tick? then 1 else 0) + Ticks(acts[1..])
  }

  /** No other row was created at the moment of row i. */
  ghost predicate OwnMoment(rows: seq<Row>, i: nat)
    requires i < |rows|
  {
    forall j :: 0 <= j < |rows| && j != i ==> rows[j].createdAt != rows[i].createdAt
  }

  lemma SnapshotIsRead(rows: seq<Row>, at: seq<nat>)
    requires IsSnapshot(rows, at)
    ensures IsRead(rows, at)
  {
    assert at <= at;
  }

  lemma {:induction false} SteadyIsValid(s: State, acts: seq<Action>, good: string -> bool, t: int)
    requires SteadyRun(s, acts, good, t)
    ensures ValidRun(s, acts)
    decreases acts
  {
    if acts != [] {
      if acts[0].Tick? {
        SnapshotIsRead(s.rows, acts[0].at);
      }
      hide Step, IsSnapshot, IsRead;
      SteadyIsValid(Step(s, acts[0]), acts[1..], good, t);
    }
  }

  /** If fewer than 100 failing rows are older than row i, the answer holds row i or a good row that is older. */
  lemma GoodIsSelected(rows: seq<Row>, at: seq<nat>, good: string -> bool, i: nat) returns (j: nat)
    requires i < |rows| && OwnMoment(rows, i) && PendingUpTo(good, rows[i].createdAt)(rows[i]) && IsSnapshot(rows, at)
    requires |Places(rows, FailingBefore(good, rows[i].createdAt))| < LIMIT
    ensures j in at && j < |rows| && PendingUpTo(good, rows[i].createdAt)(rows[j])
  {
    if i in at {
      j := i;
    } else {
      var t := rows[i].createdAt;
      var failing := Places(rows, FailingBefore(good, t));
      SizeOfPlaces(at);
      if Set(at) <= failing {
        SubsetSize(Set(at), failing);
        assert false;
      }
      j :| j in at && j !in failing;
    }
  }

  /** A tick: row i is published, or the good rows up to it become fewer. */
  lemma TickProgress(s: State, a: Action, good: string -> bool, i: nat)
    requires i < |s.rows| && OwnMoment(s.rows, i) && PendingUpTo(good, s.rows[i].createdAt)(s.rows[i])
    requires a.Tick? && Steady(s, a, good, s.rows[i].createdAt)
    requires |Places(s.rows, FailingBefore(good, s.rows[i].createdAt))| < LIMIT
    ensures |Places(Step(s, a).rows, PendingUpTo(good, s.rows[i].createdAt))|
            < |Places(s.rows, PendingUpTo(good, s.rows[i].createdAt))|
  {
    var p := PendingUpTo(good, s.rows[i].createdAt);
    var j := GoodIsSelected(s.rows, a.at, good, i);
    var before, after := Places(s.rows, p), Places(Step(s, a).rows, p);
    hide IsSnapshot;
    assert j in before && j !in after;
    SubsetSize(after, before - {j});
  }

  /** A steady step keeps what matters to row i. */
  lemma SteadyKeeps(s: State, a: Action, good: string -> bool, i: nat)
    requires i < |s.rows| && OwnMoment(s.rows, i) && Steady(s, a, good, s.rows[i].createdAt)
    ensures var s' := Step(s, a);
            var t := s.rows[i].createdAt;
            && i < |s'.rows| && s'.rows[i].id == s.rows[i].id && s'.rows[i].createdAt == t
            && s'.rows[i].messageId == s.rows[i].messageId && OwnMoment(s'.rows, i)
            && (s.rows[i].publishedAt.Some? ==> s'.rows[i].publishedAt.Some?)
            && Places(s'.rows, FailingBefore(good, t)) == Places(s.rows, FailingBefore(good, t))
            && (a.Save? ==> Places(s'.rows, PendingUpTo(good, t)) == Places(s.rows, PendingUpTo(good, t)))
  {
    if a.Tick? {
      hide IsSnapshot;
    }
  }

  lemma {:induction false} PublishedStays(s: State, acts: seq<Action>, good: string -> bool, i: nat)
    requires i < |s.rows| && s.rows[i].publishedAt.Some? && OwnMoment(s.rows, i)
    requires SteadyRun(s, acts, good, s.rows[i].createdAt)
    ensures i < |Run(s, acts).rows| && Run(s, acts).rows[i].publishedAt.Some?
    decreases acts
  {
    if acts != [] {
      SteadyKeeps(s, acts[0], good, i);
      hide Step, Steady, OwnMoment;
      PublishedStays(Step(s, acts[0]), acts[1..], good, i);
    }
  }

  /** With 100 older rows failing, row i is in no answer; and no tick publishes a failing row. */
  lemma NotSelected(s: State, a: Action, good: string -> bool, i: nat)
    requires i < |s.rows| && Unpublished(s.rows[i]) && Steady(s, a, good, s.rows[i].createdAt)
    requires !Good(s.rows[i], good) || |Places(s.rows, FailingBefore(good, s.rows[i].createdAt))| >= LIMIT
    ensures i < |Step(s, a).rows| && Unpublished(Step(s, a).rows[i])
  {
    if a.Tick? && Good(s.rows[i], good) && i in a.at {
      OlderAreSelected(s.rows, a.at, good, i);
      SizeOfPlaces(a.at);
      SubsetSize(Places(s.rows, FailingBefore(good, s.rows[i].createdAt)) + {i}, Set(a.at));
    }
  }

  lemma OlderAreSelected(rows: seq<Row>, at: seq<nat>, good: string -> bool, i: nat)
    requires i < |rows| && IsSnapshot(rows, at) && i in at
    ensures Places(rows, FailingBefore(good, rows[i].createdAt)) <= Set(at)
  {
    var k :| 0 <= k < |at| && at[k] == i;
    forall j <- Places(rows, FailingBefore(good, rows[i].createdAt)) ensures j in at {
      assert rows[at[k]].createdAt > rows[j].createdAt;
    }
  }

  lemma {:induction false} NeverPublished(s: State, acts: seq<Action>, good: string -> bool, i: nat)
    requires i < |s.rows| && Unpublished(s.rows[i]) && OwnMoment(s.rows, i)
    requires SteadyRun(s, acts, good, s.rows[i].createdAt)
    requires !Good(s.rows[i], good) || |Places(s.rows, FailingBefore(good, s.rows[i].createdAt))| >= LIMIT
    ensures i < |Run(s, acts).rows| && Unpublished(Run(s, acts).rows[i])
    decreases acts
  {
    if acts != [] {
      SteadyKeeps(s, acts[0], good, i);
      NotSelected(s, acts[0], good, i);
      hide Step, Steady, OwnMoment, Places;
      NeverPublished(Step(s, acts[0]), acts[1..], good, i);
    }
  }

  lemma {:induction false} PublishedInTime(s: State, acts: seq<Action>, good: string -> bool, i: nat)
    requires i < |s.rows| && PendingUpTo(good, s.rows[i].createdAt)(s.rows[i]) && OwnMoment(s.rows, i)
    requires SteadyRun(s, acts, good, s.rows[i].createdAt)
    requires |Places(s.rows, FailingBefore(good, s.rows[i].createdAt))| < LIMIT
    requires Ticks(acts) >= |Places(s.rows, PendingUpTo(good, s.rows[i].createdAt))|
    ensures i < |Run(s, acts).rows| && Run(s, acts).rows[i].publishedAt.Some?
    decreases acts
  {
    PendingIsOne(s.rows, good, i);
    var s' := Step(s, acts[0]);
    SteadyKeeps(s, acts[0], good, i);
    if acts[0].Tick? {
      TickProgress(s, acts[0], good, i);
    }
    hide Step, Steady, OwnMoment, Places;
    if s'.rows[i].publishedAt.Some? {
      PublishedStays(s', acts[1..], good, i);
    } else {
      PublishedInTime(s', acts[1..], good, i);
    }
  }

  lemma PendingIsOne(rows: seq<Row>, good: string -> bool, i: nat)
    requires i < |rows| && PendingUpTo(good, rows[i].createdAt)(rows[i])
    ensures |Places(rows, PendingUpTo(good, rows[i].createdAt))| > 0
  {
    assert i in Places(rows, PendingUpTo(good, rows[i].createdAt));
  }

  /**
   An unpublished event is published within as many ticks as there are publishable events up
   to it, whatever newer events are stored meanwhile, exactly when it can be published and fewer
   than 100 events that cannot are older.
   */
  lemma PublishedIff(s: State, acts: seq<Action>, good: string -> bool, i: nat)
    requires i < |s.rows| && Unpublished(s.rows[i]) && OwnMoment(s.rows, i)
    requires SteadyRun(s, acts, good, s.rows[i].createdAt)
    requires Ticks(acts) >= |Places(s.rows, PendingUpTo(good, s.rows[i].createdAt))|
    ensures i < |Run(s, acts).rows|
    ensures Run(s, acts).rows[i].publishedAt.Some?
            <==> Good(s.rows[i], good) && |Places(s.rows, FailingBefore(good, s.rows[i].createdAt))| < LIMIT
  {
    if Good(s.rows[i], good) && |Places(s.rows, FailingBefore(good, s.rows[i].createdAt))| < LIMIT {
      PublishedInTime(s, acts, good, i);
    } else {
      NeverPublished(s, acts, good, i);
    }
  }

  // ---------- What one event's handling leaves ----------

  /**
   An accepted publish that is marked: published now. One that is not marked: nothing. A failed decode,
   load or publish: one more retry, if it is counted. The event itself stays what it is.
   */
  lemma HandledDoes(r: Row, attempt: Attempt, now: int)
    ensures var r' := Handled(r, attempt, now);
            && r'.id == r.id && r'.createdAt == r.createdAt && r'.messageId == r.messageId
            && r'.publishedAt == (if r.messageId.Some? && attempt == Delivered then Some(now) else r.publishedAt)
            && (r'.retryCount == r.retryCount || r'.retryCount == r.retryCount + 1)
            && (r'.retryCount == r.retryCount + 1
                <==> if r.messageId.None? then attempt != LoadFails(false) && attempt != PublishFails(false)
                     else attempt == LoadFails(true) || attempt == PublishFails(true))
    ensures Accepts(r, attempt) <==> r.messageId.Some? && (attempt == Delivered || attempt == MarkFails)
  {
  }

  /** A tick handles the rows it has read and leaves all others. */
  lemma TickDoes(rows: seq<Row>, at: seq<nat>, attempts: string -> Attempt, now: int, i: nat)
    requires IsRead(rows, at) && i < |rows|
    ensures |at| <= 100
    ensures i !in at ==> AfterTick(rows, at, attempts, now)[i] == rows[i]
    ensures i in at && rows[i].messageId.Some? && attempts(rows[i].id) == Delivered
            ==> AfterTick(rows, at, attempts, now)[i].publishedAt == Some(now)
                && rows[i].id in AcceptedAt(rows, at, attempts)
  {
    ReadPlaces(rows, at);
  }

  /** The failures of row i that were counted. */
  ghost function CountedFailures(s: State, acts: seq<Action>, i: nat): nat
    decreases acts
  {
    if acts == [] then 0
    else
      (if acts[0].Tick? && i < |s.rows| && i in acts[0].at && !Accepts(s.rows[i], acts[0].attempts(s.rows[i].id))
          && Counts(acts[0].attempts(s.rows[i].id)) then 1 else 0)
      + CountedFailures(Step(s, acts[0]), acts[1..], i)
  }

  /** In every run a row's retry count is the number of its failures that were counted. */
  lemma {:induction false} RetriesAreCounted(s: State, acts: seq<Action>, i: nat)
    requires ValidRun(s, acts) && i < |Run(s, acts).rows|
    ensures Run(s, acts).rows[i].retryCount
            == (if i < |s.rows| then s.rows[i].retryCount else 0) + CountedFailures(s, acts, i)
    decreases acts
  {
    if acts != [] {
      RetriesAreCounted(Step(s, acts[0]), acts[1..], i);
    }
  }
}
