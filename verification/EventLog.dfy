/**
 The event log and its readers: the polling consumer with its checkpoint and
 dead-letter table, the replay engine, and the rebuild of the projection.
 */
module EventLog {
  import opened Wrappers
  import opened SearchProjection

  /** Sequence numbers are handed out from 1 upwards and the log is appended in that order. */
  ghost predicate Ordered(log: seq<Event>) {
    && (forall i :: 0 <= i < |log| ==> log[i].sequence > 0)
    && (forall i, j :: 0 <= i < j < |log| ==> log[i].sequence < log[j].sequence)
  }

  /** WHERE sequence > after ORDER BY sequence ASC. */
  function Pending(log: seq<Event>, after: int): seq<Event>
    decreases log
  {
    if log == [] then []
    else if log[0].sequence > after then [log[0]] + Pending(log[1..], after)
    else Pending(log[1..], after)
  }

  function Batch(log: seq<Event>, after: int, limit: nat): seq<Event> {
    var p := Pending(log, after);
    if |p| <= limit then p else p[..limit]
  }

  /** How many events the checkpoint covers. */
  function Seen(log: seq<Event>, after: int): nat
    decreases log
  {
    if log == [] then 0 else (if log[0].sequence > after then 0 else 1) + Seen(log[1..], after)
  }

  /** On an ordered log the pending events are the part behind the first Seen ones. */
  lemma {:induction false} PendingIsSuffix(log: seq<Event>, after: int)
    requires Ordered(log)
    ensures Seen(log, after) <= |log| && Pending(log, after) == log[Seen(log, after)..]
    decreases log
  {
    if log != [] {
      var rest := log[1..];
      PendingIsSuffix(rest, after);
      if log[0].sequence > after {
        NoneSeen(rest, after);
        hide Ordered;
        assert rest[0..] == rest;
        assert log == [log[0]] + rest;
      } else {
        hide Ordered;
        DropDrop(log, 1, Seen(rest, after));
      }
    }
  }

  lemma DropDrop<T>(s: seq<T>, a: nat, b: nat)
    requires a + b <= |s|
    ensures s[a..][b..] == s[a + b..]
  {
  }

  lemma {:induction false} NoneSeen(log: seq<Event>, after: int)
    requires forall i :: 0 <= i < |log| ==> log[i].sequence > after
    ensures Seen(log, after) == 0
    decreases log
  {
    if log != [] {
      NoneSeen(log[1..], after);
    }
  }

  lemma {:induction false} SeenSplits(log: seq<Event>, after: int)
    requires Ordered(log)
    ensures Seen(log, after) <= |log|
    ensures forall i :: 0 <= i < |log| ==> (log[i].sequence <= after <==> i < Seen(log, after))
    decreases log
  {
    if log != [] {
      var rest := log[1..];
      SeenSplits(rest, after);
      if log[0].sequence > after {
        NoneSeen(rest, after);
      }
      forall i | 0 <= i < |log| ensures log[i].sequence <= after <==> i < Seen(log, after) {
        if i > 0 { assert log[i] == rest[i - 1]; }
      }
    }
  }

  lemma SeenAt(log: seq<Event>, k: nat)
    requires Ordered(log) && k < |log|
    ensures Seen(log, log[k].sequence) == k + 1
  {
    SeenIs(log, log[k].sequence, k + 1);
  }

  lemma BatchIsSlice(log: seq<Event>, after: int, limit: nat)
    requires Ordered(log)
    ensures var p := Seen(log, after);
            var n := |Batch(log, after, limit)|;
            && n <= limit && p + n <= |log| && Batch(log, after, limit) == log[p..p + n]
            && (n < limit ==> p + n == |log|)
  {
    PendingIsSuffix(log, after);
  }

  lemma {:induction false} SeenIs(log: seq<Event>, after: int, n: nat)
    requires n <= |log| && forall i :: 0 <= i < |log| ==> (log[i].sequence <= after <==> i < n)
    ensures Seen(log, after) == n
    decreases log
  {
    if log != [] {
      assert forall i :: 0 <= i < |log| - 1 ==> log[1..][i] == log[i + 1];
      SeenIs(log[1..], after, if n == 0 then 0 else n - 1);
    }
  }

  // ---------- One tick of the consumer ----------

  /** What befalls one row of a tick besides its own content. */
  datatype Fault = Fault(dbFails: bool, dlqStored: bool)

  /** The tables a consumer works on; `delivered` is the history of successful dispatches. */
  datatype State = State(
    log: seq<Event>, checkpoint: int, table: Table, dlq: seq<Event>, delivered: seq<Event>)

  const INIT := State([], 0, map[], [], [])

  function HandleRow(s: State, e: Event, f: Fault): State {
    if Succeeds(e, f.dbFails) then s.(table := Apply(s.table, e), delivered := s.delivered + [e])
    else if f.dlqStored then s.(dlq := s.dlq + [e])
    else s
  }

  function HandleRows(s: State, es: seq<Event>, fs: seq<Fault>): State
    requires |es| == |fs|
    decreases es
  {
    if es == [] then s
    else HandleRow(HandleRows(s, es[..|es| - 1], fs[..|es| - 1]), es[|es| - 1], fs[|es| - 1])
  }

  /** The variable `processed`: the sequence of the last row dispatched without error, or 0. */
  function Processed(es: seq<Event>, fs: seq<Fault>): int
    requires |es| == |fs|
    decreases es
  {
    if es == [] then 0
    else if Succeeds(es[|es| - 1], fs[|es| - 1].dbFails) then es[|es| - 1].sequence
    else Processed(es[..|es| - 1], fs[..|es| - 1])
  }

  function Reached(batch: seq<Event>, fs: seq<Fault>): nat {
    if |fs| < |batch| then |fs| else |batch|
  }

  /**
   A tick reads a batch and handles as many of its rows as `faults` describes: fewer than the
   batch when reading breaks off early. `commits` is false when the process dies, the
   transaction is rolled back, or its commit fails; the rows handled stay handled.
   */
  function Tick(s: State, batchSize: nat, faults: seq<Fault>, commits: bool): State {
    var batch := Batch(s.log, s.checkpoint, batchSize);
    var n := Reached(batch, faults);
    TickRows(s, batch[..n], faults[..n], commits)
  }

  function TickRows(s: State, rows: seq<Event>, faults: seq<Fault>, commits: bool): State
    requires |rows| == |faults|
  {
    var processed := Processed(rows, faults);
    var s' := HandleRows(s, rows, faults);
    if processed > 0 && commits then s'.(checkpoint := processed) else s'
  }

  class Log {
    var events: seq<Event>
  }

  class Consumer {
    const log: Log
    const indexer: Indexer
    const batchSize: nat
    var checkpoint: Option<int>  // the consumer's row of projection_checkpoints
    var dlq: seq<Event>
    ghost var delivered: seq<Event>

    constructor (log: Log, indexer: Indexer, batchSize: nat)
      ensures this.log == log && this.indexer == indexer && this.batchSize == batchSize
      ensures checkpoint == None && dlq == [] && delivered == []
    {
      this.log, this.indexer, this.batchSize := log, indexer, batchSize;
      checkpoint, dlq, delivered := None, [], [];
    }

    function LastSequence(): int
      reads this
    {
      if checkpoint.Some? then checkpoint.value else 0
    }

    ghost function Tables(): State
      reads this, log, indexer
    {
      State(log.events, LastSequence(), indexer.table, dlq, delivered)
    }

    method Process(faults: seq<Fault>, commits: bool)
      modifies this, indexer
      ensures Tables() == Tick(old(Tables()), batchSize, faults, commits)
    {
      ghost var before := Tables();
      var batch := Batch(log.events, LastSequence(), batchSize);
      var n := Reached(batch, faults);
      var processed := 0;
      for i := 0 to n
        invariant checkpoint == old(checkpoint)
        invariant processed == Processed(batch[..i], faults[..i])
        invariant Tables() == HandleRows(before, batch[..i], faults[..i])
      {
        var event := batch[i];
        assert batch[..i + 1][..i] == batch[..i] && faults[..i + 1][..i] == faults[..i];
        var ok := indexer.Handle(event, faults[i].dbFails);
        if !ok {
          if faults[i].dlqStored {
            dlq := dlq + [event];
          }
          continue;
        }
        delivered := delivered + [event];
        processed := event.sequence;
      }
      if processed > 0 && commits {
        checkpoint := Some(processed);
      }
    }
  }

  // ---------- Runs ----------

  datatype Action = Append(e: Event) | Poll(faults: seq<Fault>, commits: bool)

  ghost predicate Enabled(s: State, a: Action) {
    a.Append? ==> a.e.sequence > 0 && forall i :: 0 <= i < |s.log| ==> s.log[i].sequence < a.e.sequence
  }

  function Step(s: State, batchSize: nat, a: Action): State {
    match a
    case Append(e) => s.(log := s.log + [e])
    case Poll(faults, commits) => Tick(s, batchSize, faults, commits)
  }

  function Run(s: State, batchSize: nat, acts: seq<Action>): State
    decreases acts
  {
    if acts == [] then s else Step(Run(s, batchSize, acts[..|acts| - 1]), batchSize, acts[|acts| - 1])
  }

  ghost predicate ValidRun(s: State, batchSize: nat, acts: seq<Action>)
    decreases acts
  {
    acts == [] || (
      && ValidRun(s, batchSize, acts[..|acts| - 1])
      && Enabled(Run(s, batchSize, acts[..|acts| - 1]), acts[|acts| - 1]))
  }

  ghost predicate WellFormed(s: State) {
    Ordered(s.log) && 0 <= s.checkpoint
  }

  lemma {:induction false} RowsKeepLog(s: State, es: seq<Event>, fs: seq<Fault>)
    requires |es| == |fs|
    ensures HandleRows(s, es, fs).log == s.log && HandleRows(s, es, fs).checkpoint == s.checkpoint
    decreases es
  {
    if es != [] {
      RowsKeepLog(s, es[..|es| - 1], fs[..|es| - 1]);
    }
  }

  /** `processed` is the sequence of the last row that succeeded, and every row behind it failed. */
  lemma {:induction false} ProcessedRow(es: seq<Event>, fs: seq<Fault>) returns (j: nat)
    requires |es| == |fs|
    requires forall i :: 0 <= i < |es| ==> es[i].sequence > 0
    ensures j <= |es|
    ensures forall i :: j <= i < |es| ==> !Succeeds(es[i], fs[i].dbFails)
    ensures j == 0 ==> Processed(es, fs) == 0
    ensures j > 0 ==> Succeeds(es[j - 1], fs[j - 1].dbFails) && Processed(es, fs) == es[j - 1].sequence
    decreases es
  {
    if es == [] {
      j := 0;
    } else if Succeeds(es[|es| - 1], fs[|es| - 1].dbFails) {
      j := |es|;
    } else {
      j := ProcessedRow(es[..|es| - 1], fs[..|es| - 1]);
    }
  }

  /** The rows a tick handles are the n rows behind the p rows the checkpoint covers. */
  lemma TickReads(s: State, batchSize: nat, faults: seq<Fault>) returns (p: nat, n: nat)
    requires WellFormed(s)
    ensures p == Seen(s.log, s.checkpoint) && p + n <= |s.log| && n <= |faults| && n <= batchSize
    ensures n == Reached(Batch(s.log, s.checkpoint, batchSize), faults)
    ensures Batch(s.log, s.checkpoint, batchSize)[..n] == s.log[p..p + n]
  {
    BatchIsSlice(s.log, s.checkpoint, batchSize);
    p := Seen(s.log, s.checkpoint);
    n := Reached(Batch(s.log, s.checkpoint, batchSize), faults);
    SliceTake(s.log, p, |Batch(s.log, s.checkpoint, batchSize)|, n);
  }

  lemma SliceTake<T>(s: seq<T>, p: nat, m: nat, n: nat)
    requires n <= m && p + m <= |s|
    ensures s[p..p + m][..n] == s[p..p + n]
  {
  }

  /** A tick in terms of positions in the log: it handles rows p..p+n and, committing, covers p+j. */
  lemma TickPositions(s: State, batchSize: nat, faults: seq<Fault>, commits: bool) returns (p: nat, n: nat, j: nat)
    requires WellFormed(s)
    ensures p == Seen(s.log, s.checkpoint) && p + n <= |s.log| && j <= n <= |faults| && n <= batchSize
    ensures n == Reached(Batch(s.log, s.checkpoint, batchSize), faults)
    ensures Tick(s, batchSize, faults, commits) == TickRows(s, s.log[p..p + n], faults[..n], commits)
    ensures forall i :: p + j <= i < p + n ==> !Succeeds(s.log[i], faults[i - p].dbFails)
    ensures j > 0 ==> Succeeds(s.log[p + j - 1], faults[j - 1].dbFails)
    ensures Covers(s, Tick(s, batchSize, faults, commits), if commits then j else 0)
  {
    p, n := TickReads(s, batchSize, faults);
    j := RowsCover(s, p, n, faults[..n], commits);
  }

  /** s' has covered j more rows of the log than s. */
  ghost predicate Covers(s: State, s': State, j: nat) {
    && WellFormed(s') && s'.log == s.log
    && Seen(s.log, s'.checkpoint) == Seen(s.log, s.checkpoint) + j <= |s.log|
    && s.checkpoint <= s'.checkpoint
    && (j == 0 ==> s'.checkpoint == s.checkpoint)
    && (j > 0 ==> s'.checkpoint == s.log[Seen(s.log, s.checkpoint) + j - 1].sequence)
  }

  lemma RowsCover(s: State, p: nat, n: nat, fs: seq<Fault>, commits: bool) returns (j: nat)
    requires WellFormed(s) && p == Seen(s.log, s.checkpoint) && p + n <= |s.log| && |fs| == n
    ensures j <= n
    ensures forall i :: p + j <= i < p + n ==> !Succeeds(s.log[i], fs[i - p].dbFails)
    ensures j > 0 ==> Succeeds(s.log[p + j - 1], fs[j - 1].dbFails)
    ensures Covers(s, TickRows(s, s.log[p..p + n], fs, commits), if commits then j else 0)
  {
    var rows := s.log[p..p + n];
    j := ProcessedRow(rows, fs);
    RowsKeepLog(s, rows, fs);
    forall i | p + j <= i < p + n ensures !Succeeds(s.log[i], fs[i - p].dbFails) {
      assert rows[i - p] == s.log[i];
    }
    if j > 0 {
      SeenSplits(s.log, s.checkpoint);
      SeenAt(s.log, p + j - 1);
    }
  }

  // ---------- Checkpoint safety ----------

  ghost predicate DlqAlwaysStores(acts: seq<Action>) {
    forall k :: 0 <= k < |acts| && acts[k].Poll? ==>
                  forall i :: 0 <= i < |acts[k].faults| ==> acts[k].faults[i].dlqStored
  }

  ghost predicate Settled(s: State, e: Event) { e in s.delivered || e in s.dlq }

  ghost predicate CheckpointSafe(s: State) {
    forall i :: 0 <= i < |s.log| && s.log[i].sequence <= s.checkpoint ==> Settled(s, s.log[i])
  }

  lemma {:induction false} RowsSettle(s: State, es: seq<Event>, fs: seq<Fault>)
    requires |es| == |fs| && forall i :: 0 <= i < |fs| ==> fs[i].dlqStored
    ensures forall e :: Settled(s, e) || e in es ==> Settled(HandleRows(s, es, fs), e)
    decreases es
  {
    if es != [] {
      RowsSettle(s, es[..|es| - 1], fs[..|es| - 1]);
      forall e | e in es ensures e in es[..|es| - 1] || e == es[|es| - 1] {}
    }
  }

  /** At every moment of every run, each event the checkpoint covers was dispatched or dead-lettered. */
  lemma {:induction false} CheckpointSafety(batchSize: nat, acts: seq<Action>)
    requires ValidRun(INIT, batchSize, acts) && DlqAlwaysStores(acts)
    ensures WellFormed(Run(INIT, batchSize, acts)) && CheckpointSafe(Run(INIT, batchSize, acts))
    decreases acts
  {
    hide Tick, WellFormed, CheckpointSafe, CheckpointInLog;
    assert WellFormed(INIT) && CheckpointSafe(INIT) by { InitSafe(); }
    if acts != [] {
      var acts', a := acts[..|acts| - 1], acts[|acts| - 1];
      CheckpointSafety(batchSize, acts');
      var s := Run(INIT, batchSize, acts');
      match a
      case Append(e) =>
        CheckpointWithinLog(batchSize, acts');
        AppendSafe(s, e);
      case Poll(faults, commits) =>
        TickSafe(s, batchSize, faults, commits);
    }
  }

  lemma InitSafe()
    ensures WellFormed(INIT) && CheckpointSafe(INIT)
  {
  }

  lemma AppendSafe(s: State, e: Event)
    requires WellFormed(s) && CheckpointInLog(s) && CheckpointSafe(s) && Enabled(s, Append(e))
    ensures WellFormed(s.(log := s.log + [e])) && CheckpointSafe(s.(log := s.log + [e]))
  {
    var s' := s.(log := s.log + [e]);
    forall i | 0 <= i < |s'.log| && s'.log[i].sequence <= s'.checkpoint ensures Settled(s', s'.log[i]) {
      if i < |s.log| { assert Settled(s, s.log[i]); }
    }
  }

  lemma RowsOnlyMoveCheckpoint(s: State, rows: seq<Event>, fs: seq<Fault>, commits: bool, e: Event)
    requires |rows| == |fs|
    ensures Settled(TickRows(s, rows, fs, commits), e) == Settled(HandleRows(s, rows, fs), e)
  {
  }

  lemma TickSafe(s: State, batchSize: nat, faults: seq<Fault>, commits: bool)
    requires WellFormed(s) && CheckpointSafe(s) && forall i :: 0 <= i < |faults| ==> faults[i].dlqStored
    ensures WellFormed(Tick(s, batchSize, faults, commits)) && CheckpointSafe(Tick(s, batchSize, faults, commits))
  {
    var p, n, j := TickPositions(s, batchSize, faults, commits);
    var rows := s.log[p..p + n];
    RowsSettle(s, rows, faults[..n]);
    var s' := Tick(s, batchSize, faults, commits);
    SeenSplits(s.log, s.checkpoint);
    SeenSplits(s.log, s'.checkpoint);
    hide Ordered, Tick, Seen, Settled;
    forall i | 0 <= i < |s'.log| && s'.log[i].sequence <= s'.checkpoint ensures Settled(s', s'.log[i]) {
      assert i < p + n;
      if i < p {
        assert Settled(s, s.log[i]);
      } else {
        assert rows[i - p] == s.log[i];
      }
      assert Settled(HandleRows(s, rows, faults[..n]), s.log[i]);
      RowsOnlyMoveCheckpoint(s, rows, faults[..n], commits, s.log[i]);
    }
  }

  ghost predicate CheckpointInLog(s: State) {
    s.checkpoint == 0 || exists i :: 0 <= i < |s.log| && s.log[i].sequence == s.checkpoint
  }

  /** The checkpoint never lies beyond the log. */
  lemma {:induction false} CheckpointWithinLog(batchSize: nat, acts: seq<Action>)
    requires ValidRun(INIT, batchSize, acts)
    ensures WellFormed(Run(INIT, batchSize, acts))
    ensures CheckpointInLog(Run(INIT, batchSize, acts))
    decreases acts
  {
    if acts != [] {
      var acts', a := acts[..|acts| - 1], acts[|acts| - 1];
      CheckpointWithinLog(batchSize, acts');
      var s := Run(INIT, batchSize, acts');
      match a
      case Append(e) =>
        if s.checkpoint != 0 {
          var i :| 0 <= i < |s.log| && s.log[i].sequence == s.checkpoint;
          assert (s.log + [e])[i] == s.log[i];
        }
      case Poll(faults, commits) =>
        var p, n, j := TickPositions(s, batchSize, faults, commits);
    }
  }

  /** No tick, however it fails, moves the checkpoint backwards. */
  lemma CheckpointMonotone(s: State, batchSize: nat, a: Action)
    requires WellFormed(s)
    ensures s.checkpoint <= Step(s, batchSize, a).checkpoint
  {
    if a.Poll? {
      var p, n, j := TickPositions(s, batchSize, a.faults, a.commits);
    }
  }

  // ---------- At-least-once delivery converges ----------

  /** The database refuses no write of a dispatch; malformed events may still fail. */
  ghost predicate NoOutage(acts: seq<Action>) {
    forall k :: 0 <= k < |acts| && acts[k].Poll? ==>
                  forall i :: 0 <= i < |acts[k].faults| ==> !acts[k].faults[i].dbFails
  }

  /** Redelivering from the checkpoint up to row `high` would give what one pass over the log gives. */
  ghost predicate Converging(s: State, high: nat) {
    && WellFormed(s)
    && Seen(s.log, s.checkpoint) <= high <= |s.log|
    && Rejoins(s.table, s.log, Seen(s.log, s.checkpoint), high)
  }

  lemma {:induction false} RowsFold(s: State, es: seq<Event>, fs: seq<Fault>)
    requires |es| == |fs| && forall i :: 0 <= i < |fs| ==> !fs[i].dbFails
    ensures HandleRows(s, es, fs).table == Fold(s.table, es)
    decreases es
  {
    if es != [] {
      var init, e := es[..|es| - 1], es[|es| - 1];
      RowsFold(s, init, fs[..|es| - 1]);
      FoldSnoc(s.table, init, e);
      assert es == init + [e];
    }
  }

  lemma FoldSlices(t: Table, log: seq<Event>, a: nat, b: nat, c: nat)
    requires a <= b <= c <= |log|
    ensures Fold(Fold(t, log[a..b]), log[b..c]) == Fold(t, log[a..c])
  {
    assert log[a..c] == log[a..b] + log[b..c];
    FoldAppend(t, log[a..b], log[b..c]);
  }

  /** Table t, redelivered from row p, catches up with the true table at row `high`. */
  ghost predicate Rejoins(t: Table, log: seq<Event>, p: nat, high: nat)
    requires p <= high <= |log|
  {
    Fold(t, log[p..high]) == Fold(map[], log[0..high])
  }

  /** Delivering rows p..p+n from the checkpoint p keeps that so, wherever p+n lies. */
  lemma RedeliveryRejoins(t: Table, log: seq<Event>, p: nat, n: nat, high: nat) returns (high': nat)
    requires p <= high <= |log| && p + n <= |log| && Rejoins(t, log, p, high)
    ensures high <= high' && p + n <= high' <= |log|
    ensures Rejoins(t, log, p, high') && Rejoins(Fold(t, log[p..p + n]), log, p, high')
  {
    high' := if p + n < high then high else p + n;
    FoldSlices(t, log, p, high, high');
    FoldSlices(map[], log, 0, high, high');
    assert log[p..high'][..n] == log[p..p + n];
    PrefixAbsorbed(t, log[p..high'], n);
  }

  lemma SliceMalformed(log: seq<Event>, a: nat, b: nat)
    requires a <= b <= |log| && forall i :: a <= i < b ==> Malformed(log[i])
    ensures forall e <- log[a..b] :: Malformed(e)
  {
    hide Malformed;
    forall e | e in log[a..b] ensures Malformed(e) {
      var i :| a <= i < b && log[i] == e;
    }
  }

  /** Moving the checkpoint from p to p+j is harmless when the rows p+j..p+n changed nothing. */
  lemma CommitRejoins(t: Table, log: seq<Event>, p: nat, j: nat, n: nat, high: nat)
    requires p + j <= p + n <= high <= |log| && Rejoins(t, log, p, high)
    requires forall i :: p + j <= i < p + n ==> Malformed(log[i])
    ensures Rejoins(Fold(t, log[p..p + n]), log, p + j, high)
  {
    hide Malformed;
    SliceMalformed(log, p + j, p + n);
    FoldSlices(t, log, p, p + j, p + n);
    FoldMalformed(Fold(t, log[p..p + j]), log[p + j..p + n]);
    FoldSlices(t, log, p, p + j, high);
  }

  lemma TickConverges(s: State, batchSize: nat, faults: seq<Fault>, commits: bool, high: nat) returns (high': nat)
    requires Converging(s, high) && forall i :: 0 <= i < |faults| ==> !faults[i].dbFails
    ensures Converging(Tick(s, batchSize, faults, commits), high')
  {
    hide Ordered, Tick, Succeeds, Seen, Pending, Processed, HandleRows, Fold, Malformed, Rejoins;
    var p, n, j := TickPositions(s, batchSize, faults, commits);
    RowsFold(s, s.log[p..p + n], faults[..n]);
    high' := RedeliveryRejoins(s.table, s.log, p, n, high);
    if commits {
      FailedIsMalformed(s.log, faults, p, j, n);
      CommitRejoins(s.table, s.log, p, j, n, high');
    }
  }

  lemma FailedIsMalformed(log: seq<Event>, faults: seq<Fault>, p: nat, j: nat, n: nat)
    requires p + n <= |log| && n <= |faults| && forall i :: 0 <= i < |faults| ==> !faults[i].dbFails
    requires forall i :: p + j <= i < p + n ==> !Succeeds(log[i], faults[i - p].dbFails)
    ensures forall i :: p + j <= i < p + n ==> Malformed(log[i])
  {
  }

  lemma {:induction false} RunConverges(batchSize: nat, acts: seq<Action>) returns (high: nat)
    requires ValidRun(INIT, batchSize, acts) && NoOutage(acts)
    ensures Converging(Run(INIT, batchSize, acts), high)
    decreases acts
  {
    if acts == [] {
      high := 0;
    } else {
      var acts', a := acts[..|acts| - 1], acts[|acts| - 1];
      high := RunConverges(batchSize, acts');
      var s := Run(INIT, batchSize, acts');
      match a
      case Append(e) =>
        CheckpointWithinLog(batchSize, acts');
        SeenAfterAppend(s, e);
        var p := Seen(s.log, s.checkpoint);
        assert (s.log + [e])[p..high] == s.log[p..high] && (s.log + [e])[0..high] == s.log[0..high];
      case Poll(faults, commits) =>
        high := TickConverges(s, batchSize, faults, commits, high);
    }
  }

  lemma SeenAfterAppend(s: State, e: Event)
    requires WellFormed(s) && Enabled(s, Append(e))
    requires CheckpointInLog(s)
    ensures Ordered(s.log + [e]) && Seen(s.log + [e], s.checkpoint) == Seen(s.log, s.checkpoint)
  {
    SeenSplits(s.log, s.checkpoint);
    SeenIs(s.log + [e], s.checkpoint, Seen(s.log, s.checkpoint));
  }

  /** Nothing left but events that fail whenever they are delivered. */
  ghost predicate CaughtUp(s: State) {
    forall e <- Pending(s.log, s.checkpoint) :: Malformed(e)
  }

  /**
   After every run of appends, ticks, crashes and lost commits, a consumer that has caught up
   holds exactly the table one pass over the whole log gives.
   */
  lemma ConsumerConverges(batchSize: nat, acts: seq<Action>)
    requires ValidRun(INIT, batchSize, acts) && NoOutage(acts)
    requires CaughtUp(Run(INIT, batchSize, acts))
    ensures Run(INIT, batchSize, acts).table == Fold(map[], Run(INIT, batchSize, acts).log)
  {
    var high := RunConverges(batchSize, acts);
    ConvergedWhenCaughtUp(Run(INIT, batchSize, acts), high);
  }

  lemma ConvergedWhenCaughtUp(s: State, high: nat)
    requires Converging(s, high) && CaughtUp(s)
    ensures s.table == Fold(map[], s.log)
  {
    PendingIsSuffix(s.log, s.checkpoint);
    var p := Seen(s.log, s.checkpoint);
    hide Ordered, Malformed;
    forall i | p <= i < |s.log| ensures Malformed(s.log[i]) {
      assert s.log[p..][i - p] == s.log[i];
    }
    SliceMalformed(s.log, p, high);
    SliceMalformed(s.log, high, |s.log|);
    FoldMalformed(s.table, s.log[p..high]);
    FoldMalformed(Fold(map[], s.log[0..high]), s.log[high..|s.log|]);
    FoldSlices(map[], s.log, 0, high, |s.log|);
    assert s.log == s.log[0..|s.log|];
  }

  // ---------- When does the consumer catch up? ----------

  /** A tick in which nothing fails but malformed events. */
  function CleanTick(s: State, batchSize: nat): State {
    Tick(s, batchSize, seq(|Batch(s.log, s.checkpoint, batchSize)|, _ => Fault(false, true)), true)
  }

  function Drain(s: State, batchSize: nat, ticks: nat): State
    decreases ticks
  {
    if ticks == 0 then s else Drain(CleanTick(s, batchSize), batchSize, ticks - 1)
  }

  ghost predicate AllMalformed(es: seq<Event>) { forall i :: 0 <= i < |es| ==> Malformed(es[i]) }

  /** A full batch of consecutive malformed events stands in front of one that is not. */
  ghost predicate BlockedAt(es: seq<Event>, batchSize: nat, i: nat, j: nat) {
    && i + batchSize <= j < |es| && !Malformed(es[j])
    && forall m :: i <= m < i + batchSize ==> Malformed(es[m])
  }

  ghost predicate Blocked(es: seq<Event>, batchSize: nat) {
    exists i: nat, j: nat :: BlockedAt(es, batchSize, i, j)
  }

  /** The clean tick in terms of positions: n rows behind the first p are handled, j of them are covered. */
  lemma CleanTickPositions(s: State, batchSize: nat) returns (p: nat, n: nat, j: nat)
    requires WellFormed(s)
    ensures p == Seen(s.log, s.checkpoint) && p + n <= |s.log| && j <= n <= batchSize
    ensures n == |Batch(s.log, s.checkpoint, batchSize)|
    ensures Covers(s, CleanTick(s, batchSize), j)
    ensures forall i :: p + j <= i < p + n ==> Malformed(s.log[i])
    ensures j > 0 ==> !Malformed(s.log[p + j - 1])
  {
    hide Ordered, Tick, Pending, Seen, Covers, Batch;
    var faults := seq(|Batch(s.log, s.checkpoint, batchSize)|, _ => Fault(false, true));
    p, n, j := TickPositions(s, batchSize, faults, true);
    FailedIsMalformed(s.log, faults, p, j, n);
  }

  /** A clean tick takes everything up to the batch's last good event off the pending list. */
  lemma CleanTickPending(s: State, batchSize: nat) returns (j: nat)
    requires WellFormed(s)
    ensures WellFormed(CleanTick(s, batchSize)) && CleanTick(s, batchSize).log == s.log
    ensures j <= batchSize && j <= |Pending(s.log, s.checkpoint)|
    ensures Pending(s.log, CleanTick(s, batchSize).checkpoint) == Pending(s.log, s.checkpoint)[j..]
    ensures j == 0 ==> CleanTick(s, batchSize).checkpoint == s.checkpoint
    ensures j > 0 ==> !Malformed(Pending(s.log, s.checkpoint)[j - 1])
    ensures forall i :: j <= i < |Batch(s.log, s.checkpoint, batchSize)| ==> Malformed(Pending(s.log, s.checkpoint)[i])
  {
    hide Ordered, CleanTick, Pending, Seen, Batch, Malformed;
    var p, n;
    p, n, j := CleanTickPositions(s, batchSize);
    PendingIsSuffix(s.log, s.checkpoint);
    PendingIsSuffix(s.log, CleanTick(s, batchSize).checkpoint);
    DropDrop(s.log, p, j);
    forall i | j <= i < n ensures Malformed(s.log[p..][i]) {
      assert s.log[p..][i] == s.log[p + i];
    }
  }

  /** Dropping what a clean tick covers neither adds nor removes a blockage. */
  lemma BlockedStaysBlocked(es: seq<Event>, batchSize: nat, k: nat)
    requires 0 < k <= batchSize && k <= |es| && !Malformed(es[k - 1])
    ensures Blocked(es, batchSize) <==> Blocked(es[k..], batchSize)
  {
    hide Malformed;
    var rest := es[k..];
    assert forall m :: 0 <= m < |rest| ==> rest[m] == es[m + k];
    if Blocked(es, batchSize) {
      var i: nat, j: nat :| BlockedAt(es, batchSize, i, j);
      assert k <= i;
      assert forall m :: i - k <= m < i - k + batchSize ==> rest[m] == es[m + k];
      assert BlockedAt(rest, batchSize, i - k, j - k);
    }
    if Blocked(rest, batchSize) {
      var i: nat, j: nat :| BlockedAt(rest, batchSize, i, j);
      forall m | i + k <= m < i + k + batchSize ensures Malformed(es[m]) {
        assert rest[m - k] == es[m];
      }
      assert BlockedAt(es, batchSize, i + k, j + k);
    }
  }

  lemma {:induction false} DrainStuck(s: State, batchSize: nat, ticks: nat)
    requires WellFormed(s) && CleanTick(s, batchSize).checkpoint == s.checkpoint
    ensures Drain(s, batchSize, ticks).log == s.log && Drain(s, batchSize, ticks).checkpoint == s.checkpoint
    decreases ticks
  {
    if ticks > 0 {
      var j := CleanTickPending(s, batchSize);
      var s' := CleanTick(s, batchSize);
      TickDependsOnPosition(s', s, batchSize);
      DrainStuck(s', batchSize, ticks - 1);
    }
  }

  lemma TickDependsOnPosition(s: State, s': State, batchSize: nat)
    requires WellFormed(s) && s.log == s'.log && s.checkpoint == s'.checkpoint
    ensures CleanTick(s, batchSize).checkpoint == CleanTick(s', batchSize).checkpoint
  {
    var batch := Batch(s.log, s.checkpoint, batchSize);
    var faults := seq(|batch|, _ => Fault(false, true));
    RowsKeepLog(s, batch[..|batch|], faults[..|batch|]);
    RowsKeepLog(s', batch[..|batch|], faults[..|batch|]);
  }

  /**
   Polling catches up exactly when no full batch of consecutive malformed events stands in
   front of a good one: a batch that only fails never moves the checkpoint.
   */
  lemma {:induction false} DrainsIff(s: State, batchSize: nat, ticks: nat)
    requires WellFormed(s) && ticks >= |Pending(s.log, s.checkpoint)|
    ensures CaughtUp(Drain(s, batchSize, ticks)) <==> !Blocked(Pending(s.log, s.checkpoint), batchSize)
    decreases ticks
  {
    hide Ordered, Pending, CleanTick;
    var es := Pending(s.log, s.checkpoint);
    var j := CleanTickPending(s, batchSize);
    if j > 0 {
      BlockedStaysBlocked(es, batchSize, j);
      DrainsIff(CleanTick(s, batchSize), batchSize, ticks - 1);
    } else {
      DrainStuck(s, batchSize, ticks);
      if forall e <- es :: Malformed(e) {
        assert !Blocked(es, batchSize);
      } else {
        var e :| e in es && !Malformed(e);
        var k :| 0 <= k < |es| && es[k] == e;
        assert BlockedAt(es, batchSize, 0, k);
      }
    }
  }

  /** Once blocked, no run whatever gets the checkpoint past the blockage. */
  lemma {:induction false} StuckForever(s: State, batchSize: nat, acts: seq<Action>)
    requires WellFormed(s) && ValidRun(s, batchSize, acts)
    requires |Batch(s.log, s.checkpoint, batchSize)| == batchSize && AllMalformed(Batch(s.log, s.checkpoint, batchSize))
    requires CheckpointInLog(s)
    ensures WellFormed(Run(s, batchSize, acts)) && CheckpointInLog(Run(s, batchSize, acts))
    ensures Run(s, batchSize, acts).checkpoint == s.checkpoint
    ensures Batch(Run(s, batchSize, acts).log, s.checkpoint, batchSize) == Batch(s.log, s.checkpoint, batchSize)
    decreases acts
  {
    if acts != [] {
      var acts', a := acts[..|acts| - 1], acts[|acts| - 1];
      StuckForever(s, batchSize, acts');
      var r := Run(s, batchSize, acts');
      match a
      case Append(e) => AppendKeepsBatch(r, batchSize, e);
      case Poll(faults, commits) => StuckTick(r, batchSize, faults, commits);
    }
  }

  lemma AppendKeepsBatch(s: State, batchSize: nat, e: Event)
    requires WellFormed(s) && CheckpointInLog(s) && Enabled(s, Append(e))
    requires |Batch(s.log, s.checkpoint, batchSize)| == batchSize
    ensures WellFormed(s.(log := s.log + [e])) && CheckpointInLog(s.(log := s.log + [e]))
    ensures Batch(s.log + [e], s.checkpoint, batchSize) == Batch(s.log, s.checkpoint, batchSize)
  {
    SeenAfterAppend(s, e);
    BatchIsSlice(s.log, s.checkpoint, batchSize);
    BatchIsSlice(s.log + [e], s.checkpoint, batchSize);
    if s.checkpoint != 0 {
      var i :| 0 <= i < |s.log| && s.log[i].sequence == s.checkpoint;
      assert (s.log + [e])[i].sequence == s.checkpoint;
    }
  }

  lemma StuckTick(s: State, batchSize: nat, faults: seq<Fault>, commits: bool)
    requires WellFormed(s) && CheckpointInLog(s)
    requires AllMalformed(Batch(s.log, s.checkpoint, batchSize))
    ensures Tick(s, batchSize, faults, commits).checkpoint == s.checkpoint
    ensures Tick(s, batchSize, faults, commits).log == s.log
  {
    var p, n, j := TickPositions(s, batchSize, faults, commits);
    var p', n' := TickReads(s, batchSize, faults);
    hide Ordered, Tick, Seen, Pending, HandleRows, Processed, Batch;
    MalformedSlice(Batch(s.log, s.checkpoint, batchSize), s.log, p, n);
  }

  lemma MalformedSlice(batch: seq<Event>, log: seq<Event>, p: nat, n: nat)
    requires n <= |batch| && p + n <= |log| && batch[..n] == log[p..p + n] && AllMalformed(batch)
    ensures forall i :: p <= i < p + n ==> Malformed(log[i])
  {
    forall i | p <= i < p + n ensures Malformed(log[i]) {
      assert batch[..n][i - p] == log[p..p + n][i - p];
    }
  }

  // ---------- Replay and rebuild ----------

  /** How many of the events are dispatched before the first error stops the replay. */
  function Dispatched(es: seq<Event>, outage: nat -> bool): (n: nat)
    ensures n <= |es|
    ensures forall i :: 0 <= i < n ==> Succeeds(es[i], outage(i))
    ensures n < |es| ==> !Succeeds(es[n], outage(n))
    decreases es
  {
    if es == [] then 0
    else
      var n := Dispatched(es[..|es| - 1], outage);
      if n == |es| - 1 && Succeeds(es[n], outage(n)) then n + 1 else n
  }

  /**
   One query of the replay and the reading of its rows: the query fails; or `rows` rows come and
   then no more, be it the end of the batch or an error that the loop does not look at; or the
   row behind `rows` others cannot be scanned.
   */
  datatype Read = QueryFails | Delivers(rows: nat) | ScanFails(rows: nat)

  function Min(a: nat, b: nat): nat { if a < b then a else b }

  function Shift(outage: nat -> bool, k: nat): nat -> bool { (i: nat) => outage(k + i) }

  /** A batch read when k of the events are dispatched: its size, the rows that come, and how many are dispatched. */
  function Size(es: seq<Event>, k: nat, batchSize: nat): nat
    requires k <= |es|
  {
    Min(batchSize, |es| - k)
  }

  function Rows(es: seq<Event>, k: nat, batchSize: nat, read: Read): nat
    requires k <= |es|
  {
    if read.QueryFails? then 0 else Min(read.rows, Size(es, k, batchSize))
  }

  function Taken(es: seq<Event>, k: nat, batchSize: nat, read: Read, outage: nat -> bool): nat
    requires k <= |es|
  {
    Dispatched(es[k..k + Rows(es, k, batchSize, read)], Shift(outage, k))
  }

  /** The batch ends the replay with an error. */
  predicate Errs(es: seq<Event>, k: nat, batchSize: nat, read: Read, outage: nat -> bool)
    requires k <= |es|
  {
    var n := Rows(es, k, batchSize, read);
    read.QueryFails? || Taken(es, k, batchSize, read, outage) < n || (read.ScanFails? && n < Size(es, k, batchSize))
  }

  datatype Outcome = Outcome(dispatched: nat, ok: bool)

  /** The replay from its query q on, when k events are dispatched. `outage(i)` is about the i-th dispatch. */
  function Replayed(es: seq<Event>, k: nat, q: nat, batchSize: nat, queries: nat -> Read, outage: nat -> bool): Outcome
    requires k <= |es|
    decreases |es| - k
  {
    var n := Rows(es, k, batchSize, queries(q));
    if Errs(es, k, batchSize, queries(q), outage) then Outcome(k + Taken(es, k, batchSize, queries(q), outage), false)
    else if n == 0 then Outcome(k, true)
    else Replayed(es, k + n, q + 1, batchSize, queries, outage)
  }

  class ReplayEngine {
    const log: Log
    const indexer: Indexer
    ghost var delivered: seq<Event>

    constructor (log: Log, indexer: Indexer)
      ensures this.log == log && this.indexer == indexer && delivered == []
    {
      this.log, this.indexer, delivered := log, indexer, [];
    }

    method Replay(start: int, batchSize: nat, queries: nat -> Read, outage: nat -> bool) returns (ok: bool)
      requires Ordered(log.events)
      modifies this, indexer
      ensures
        var es := Pending(log.events, start);
        var r := Replayed(es, 0, 0, batchSize, queries, outage);
        && ok == r.ok && r.dispatched <= |es|
        && delivered == old(delivered) + es[..r.dispatched]
        && indexer.table == Fold(old(indexer.table), es[..r.dispatched])
    {
      hide *;
      ghost var es := Pending(log.events, start);
      assert Fold(indexer.table, es[..0]) == indexer.table by { FoldNothing(indexer.table, es); }
      assert Pending(log.events, start) == es[0..];
      var k := 0;  // events dispatched so far, which is what `outage` counts
      var q := 0;  // queries so far
      var fromSequence := start;
      while true
        invariant k <= |es| && Pending(log.events, fromSequence) == es[k..]
        invariant Replayed(es, 0, 0, batchSize, queries, outage) == Replayed(es, k, q, batchSize, queries, outage)
        invariant delivered == old(delivered) + es[..k]
        invariant indexer.table == Fold(old(indexer.table), es[..k])
        decreases |es| - k
      {
        ReplayedStep(es, k, q, batchSize, queries, outage);
        if queries(q).QueryFails? {
          return false;
        }
        var count := 0;
        ghost var k0 := k;
        var batch := Batch(log.events, fromSequence, batchSize);
        BatchIsPrefix(log.events, fromSequence, batchSize);
        var n := if queries(q).rows < |batch| then queries(q).rows else |batch|;
        RowsOfBatch(es, k0, batchSize, queries(q), batch);
        while count < n
          invariant count <= n && k == k0 + count <= |es|
          invariant Pending(log.events, fromSequence) == es[k..]
          invariant forall i :: 0 <= i < count ==> Succeeds(batch[i], outage(k0 + i))
          invariant delivered == old(delivered) + es[..k]
          invariant indexer.table == Fold(old(indexer.table), es[..k])
        {
          var event := batch[count];
          ok := indexer.Handle(event, outage(k));
          if !ok {
            TakenIs(es, k0, batchSize, queries(q), outage, batch, count);
            return false;
          }
          assert es[..k + 1] == es[..k] + [event];
          FoldSnoc(old(indexer.table), es[..k], event);
          delivered := delivered + [event];
          PendingAfter(log.events, start, k);
          fromSequence := event.sequence;
          k := k + 1;
          count := count + 1;
        }
        TakenIs(es, k0, batchSize, queries(q), outage, batch, n);
        if queries(q).ScanFails? && n < |batch| {
          return false;
        }
        if count == 0 {
          return true;
        }
        q := q + 1;
      }
    }

    /** TRUNCATE, then replay everything in batches of 1000. */
    method RebuildSearchProjection(truncateFails: bool, queries: nat -> Read, outage: nat -> bool) returns (ok: bool)
      requires Ordered(log.events)
      modifies this, indexer
      ensures truncateFails ==> !ok && indexer.table == old(indexer.table)
      ensures !truncateFails ==>
                var r := Replayed(log.events, 0, 0, 1000, queries, outage);
                ok == r.ok && r.dispatched <= |log.events| && indexer.table == Fold(map[], log.events[..r.dispatched])
    {
      if truncateFails {
        return false;
      }
      indexer.table := map[];
      PendingIsSuffix(log.events, 0);
      NoneSeen(log.events, 0);
      assert Pending(log.events, 0) == log.events;
      ok := Replay(0, 1000, queries, outage);
    }
  }

  /** One turn of the outer loop. */
  lemma ReplayedStep(es: seq<Event>, k: nat, q: nat, batchSize: nat, queries: nat -> Read, outage: nat -> bool)
    requires k <= |es|
    ensures var n := Rows(es, k, batchSize, queries(q));
            var r := Replayed(es, k, q, batchSize, queries, outage);
            && k + n <= |es| && (queries(q).QueryFails? ==> r == Outcome(k, false))
            && (Errs(es, k, batchSize, queries(q), outage)
                ==> r == Outcome(k + Taken(es, k, batchSize, queries(q), outage), false))
            && (!Errs(es, k, batchSize, queries(q), outage)
                ==> r == if n == 0 then Outcome(k, true) else Replayed(es, k + n, q + 1, batchSize, queries, outage))
  {
  }

  lemma RowsOfBatch(es: seq<Event>, k: nat, batchSize: nat, read: Read, batch: seq<Event>)
    requires k <= |es| && |batch| <= |es| - k && batch == es[k..][..|batch|] && !read.QueryFails?
    requires |batch| <= batchSize && (|batch| < batchSize ==> k + |batch| == |es|)
    ensures Rows(es, k, batchSize, read) == (if read.rows < |batch| then read.rows else |batch|)
    ensures Size(es, k, batchSize) == |batch|
    ensures forall i :: 0 <= i < |batch| ==> batch[i] == es[k + i]
  {
  }

  lemma TakenIs(
    es: seq<Event>, k: nat, batchSize: nat, read: Read, outage: nat -> bool, batch: seq<Event>, n: nat)
    requires k <= |es| && n <= Rows(es, k, batchSize, read) <= |batch| && k + |batch| <= |es|
    requires forall i :: 0 <= i < |batch| ==> batch[i] == es[k + i]
    requires forall i :: 0 <= i < n ==> Succeeds(batch[i], outage(k + i))
    requires n < Rows(es, k, batchSize, read) ==> !Succeeds(batch[n], outage(k + n))
    ensures Taken(es, k, batchSize, read, outage) == n
    ensures Errs(es, k, batchSize, read, outage)
            <==> || read.QueryFails? || n < Rows(es, k, batchSize, read)
                 || (read.ScanFails? && n < Size(es, k, batchSize))
  {
    hide Succeeds;
    var rows := es[k..k + Rows(es, k, batchSize, read)];
    assert forall i :: 0 <= i < |rows| ==> rows[i] == batch[i];
    DispatchedIs(rows, Shift(outage, k), n);
  }

  lemma FoldNothing(t: Table, es: seq<Event>)
    ensures Fold(t, es[..0]) == t
  {
  }

  lemma FoldSnoc(t: Table, es: seq<Event>, e: Event)
    ensures Fold(t, es + [e]) == Apply(Fold(t, es), e)
  {
    FoldAppend(t, es, [e]);
  }

  lemma BatchIsPrefix(log: seq<Event>, after: int, limit: nat)
    ensures var n := |Batch(log, after, limit)|;
            && n <= limit && n <= |Pending(log, after)| && Batch(log, after, limit) == Pending(log, after)[..n]
            && (n < limit ==> n == |Pending(log, after)|)
  {
  }

  /** The k-th pending event is the cursor behind which exactly the later ones are pending. */
  lemma PendingAfter(log: seq<Event>, start: int, k: nat)
    requires Ordered(log) && k < |Pending(log, start)|
    ensures Pending(log, Pending(log, start)[k].sequence) == Pending(log, start)[k + 1..]
  {
    PendingIsSuffix(log, start);
    var p := Seen(log, start);
    SeenAt(log, p + k);
    PendingIsSuffix(log, log[p + k].sequence);
    DropDrop(log, p, k + 1);
  }

  /** `Dispatched` is the only number with this property. */
  lemma {:induction false} DispatchedIs(es: seq<Event>, outage: nat -> bool, n: nat)
    requires n <= |es| && forall i :: 0 <= i < n ==> Succeeds(es[i], outage(i))
    requires n < |es| ==> !Succeeds(es[n], outage(n))
    ensures Dispatched(es, outage) == n
    decreases es
  {
    hide Succeeds;
    if es != [] {
      DispatchedIs(es[..|es| - 1], outage, if n == |es| then n - 1 else n);
    }
  }

  lemma OrderedDrop(log: seq<Event>, p: nat)
    requires Ordered(log) && p <= |log|
    ensures Ordered(log[p..])
  {
  }

  /** Replaying in batches dispatches each event behind the start once, in increasing order. */
  lemma PendingIsExactlyTheLaterEvents(log: seq<Event>, start: int)
    requires Ordered(log)
    ensures forall e :: e in Pending(log, start) <==> e in log && e.sequence > start
    ensures Ordered(Pending(log, start))
  {
    PendingMembers(log, start);
    PendingIsSuffix(log, start);
    OrderedDrop(log, Seen(log, start));
  }

  lemma {:induction false} PendingMembers(log: seq<Event>, start: int)
    ensures forall e :: e in Pending(log, start) <==> e in log && e.sequence > start
    decreases log
  {
    if log != [] {
      PendingMembers(log[1..], start);
      assert forall e :: e in log <==> e == log[0] || e in log[1..];
    }
  }

  // ---------- When is everything replayed? ----------

  /** How many events are dispatched when the replay makes its j-th query from here; None if it never does. */
  function DispatchedAtQuery(
      es: seq<Event>, k: nat, q: nat, batchSize: nat, queries: nat -> Read, outage: nat -> bool, j: nat): Option<nat>
    requires k <= |es|
    decreases j
  {
    if j == 0 then Some(k)
    else
      var n := Rows(es, k, batchSize, queries(q));
      if Errs(es, k, batchSize, queries(q), outage) || n == 0 then None
      else DispatchedAtQuery(es, k + n, q + 1, batchSize, queries, outage, j - 1)
  }

  /** The j-th query from here brings no row and no error although events are left. */
  ghost predicate CutShortAt(
      es: seq<Event>, k: nat, q: nat, batchSize: nat, queries: nat -> Read, outage: nat -> bool, j: nat)
    requires k <= |es|
  {
    var at := DispatchedAtQuery(es, k, q, batchSize, queries, outage, j);
    && at.Some? && at.value < |es|
    && !Errs(es, at.value, batchSize, queries(q + j), outage) && Rows(es, at.value, batchSize, queries(q + j)) == 0
  }

  ghost predicate ErrsAt(
      es: seq<Event>, k: nat, q: nat, batchSize: nat, queries: nat -> Read, outage: nat -> bool, j: nat)
    requires k <= |es|
  {
    var at := DispatchedAtQuery(es, k, q, batchSize, queries, outage, j);
    at.Some? && at.value <= |es| && Errs(es, at.value, batchSize, queries(q + j), outage)
  }

  ghost predicate SomeErrs(es: seq<Event>, k: nat, q: nat, batchSize: nat, queries: nat -> Read, outage: nat -> bool)
    requires k <= |es|
  {
    exists j :: ErrsAt(es, k, q, batchSize, queries, outage, j)
  }

  ghost predicate CutShort(es: seq<Event>, k: nat, q: nat, batchSize: nat, queries: nat -> Read, outage: nat -> bool)
    requires k <= |es|
  {
    exists j :: CutShortAt(es, k, q, batchSize, queries, outage, j)
  }

  /** Both, seen from the next query. */
  lemma FromNext(es: seq<Event>, k: nat, q: nat, batchSize: nat, queries: nat -> Read, outage: nat -> bool)
    requires k <= |es|
    ensures var n := Rows(es, k, batchSize, queries(q));
            var errs := Errs(es, k, batchSize, queries(q), outage);
            && k + n <= |es|
            && (SomeErrs(es, k, q, batchSize, queries, outage)
                <==> errs || (n > 0 && SomeErrs(es, k + n, q + 1, batchSize, queries, outage)))
            && (CutShort(es, k, q, batchSize, queries, outage)
                <==> !errs && if n == 0 then k < |es| else CutShort(es, k + n, q + 1, batchSize, queries, outage))
  {
    hide Errs;
    var n := Rows(es, k, batchSize, queries(q));
    assert DispatchedAtQuery(es, k, q, batchSize, queries, outage, 0) == Some(k);
    if Errs(es, k, batchSize, queries(q), outage) {
      assert ErrsAt(es, k, q, batchSize, queries, outage, 0);
    } else if n == 0 {
      assert k < |es| ==> CutShortAt(es, k, q, batchSize, queries, outage, 0);
    } else {
      hide Rows;
      if j: nat :| ErrsAt(es, k, q, batchSize, queries, outage, j) {
        assert ErrsAt(es, k + n, q + 1, batchSize, queries, outage, j - 1);
      }
      if j: nat :| CutShortAt(es, k, q, batchSize, queries, outage, j) {
        assert CutShortAt(es, k + n, q + 1, batchSize, queries, outage, j - 1);
      }
      var k', q' := k + n, q + 1;
      if SomeErrs(es, k', q', batchSize, queries, outage) {
        var j: nat :| ErrsAt(es, k', q', batchSize, queries, outage, j);
        assert q + (j + 1) == q' + j;
        assert ErrsAt(es, k, q, batchSize, queries, outage, j + 1);
      }
      if CutShort(es, k', q', batchSize, queries, outage) {
        var j: nat :| CutShortAt(es, k', q', batchSize, queries, outage, j);
        assert q + (j + 1) == q' + j;
        assert CutShortAt(es, k, q, batchSize, queries, outage, j + 1);
      }
    }
  }

  /**
   Exactly when the replay reports an error, and exactly when it reports success although events
   are left: some query's reading ended before its first row, and the loop took that for the end.
   */
  lemma {:induction false} ReplayedIff(
    es: seq<Event>, k: nat, q: nat, batchSize: nat, queries: nat -> Read, outage: nat -> bool)
    requires k <= |es|
    ensures var r := Replayed(es, k, q, batchSize, queries, outage);
            && k <= r.dispatched <= |es|
            && (!r.ok <==> SomeErrs(es, k, q, batchSize, queries, outage))
            && (r.ok && r.dispatched < |es| <==> CutShort(es, k, q, batchSize, queries, outage))
    decreases |es| - k
  {
    hide Errs, SomeErrs, CutShort;
    var n := Rows(es, k, batchSize, queries(q));
    FromNext(es, k, q, batchSize, queries, outage);
    if !Errs(es, k, batchSize, queries(q), outage) && n > 0 {
      ReplayedIff(es, k + n, q + 1, batchSize, queries, outage);
    }
  }

  /** Such a reading at the very start: the rebuild reports success on an empty table, whatever the log holds. */
  lemma RebuildCutShort(es: seq<Event>, queries: nat -> Read, outage: nat -> bool)
    requires queries(0) == Delivers(0)
    ensures Replayed(es, 0, 0, 1000, queries, outage) == Outcome(0, true)
    ensures es != [] ==> CutShort(es, 0, 0, 1000, queries, outage)
  {
    FromNext(es, 0, 0, 1000, queries, outage);
  }

  /** What is dispatched succeeds, so a replay that dispatches everything met no malformed event. */
  lemma {:induction false} ReplayedSucceeds(
    es: seq<Event>, k: nat, q: nat, batchSize: nat, queries: nat -> Read, outage: nat -> bool)
    requires k <= |es|
    ensures k <= Replayed(es, k, q, batchSize, queries, outage).dispatched <= |es|
    ensures forall i :: k <= i < Replayed(es, k, q, batchSize, queries, outage).dispatched ==>
            Succeeds(es[i], outage(i))
    decreases |es| - k
  {
    hide Succeeds, Replayed, Errs, Taken, Rows;
    ReplayedStep(es, k, q, batchSize, queries, outage);
    TakenSucceed(es, k, batchSize, queries(q), outage);
    var n := Rows(es, k, batchSize, queries(q));
    if !Errs(es, k, batchSize, queries(q), outage) && n > 0 {
      ReplayedSucceeds(es, k + n, q + 1, batchSize, queries, outage);
    }
  }

  lemma TakenSucceed(es: seq<Event>, k: nat, batchSize: nat, read: Read, outage: nat -> bool)
    requires k <= |es|
    ensures var d := Taken(es, k, batchSize, read, outage);
            && k + d <= k + Rows(es, k, batchSize, read) <= |es|
            && (forall i :: k <= i < k + d ==> Succeeds(es[i], outage(i)))
            && (!Errs(es, k, batchSize, read, outage) ==> d == Rows(es, k, batchSize, read))
  {
    hide Succeeds;
    var rows, d := es[k..k + Rows(es, k, batchSize, read)], Taken(es, k, batchSize, read, outage);
    forall i | k <= i < k + d ensures Succeeds(es[i], outage(i)) {
      assert rows[i - k] == es[i] && Shift(outage, k)(i - k) == outage(i);
    }
  }

  /** Every query brings at least a row and no error. */
  ghost predicate Readable(queries: nat -> Read) { forall q :: queries(q).Delivers? && queries(q).rows > 0 }

  ghost predicate NeverOut(outage: nat -> bool) { forall i :: !outage(i) }

  /** With a database that works the replay succeeds, and is complete, exactly when no event is malformed. */
  lemma {:induction false} CleanReplay(
    es: seq<Event>, k: nat, q: nat, batchSize: nat, queries: nat -> Read, outage: nat -> bool)
    requires k <= |es| && Readable(queries) && NeverOut(outage) && batchSize > 0
    ensures var r := Replayed(es, k, q, batchSize, queries, outage);
            && (r.ok <==> forall i :: k <= i < |es| ==> !Malformed(es[i]))
            && (r.ok ==> r.dispatched == |es|)
    decreases |es| - k
  {
    hide Malformed, Replayed, Errs, Taken, Rows;
    ReplayedStep(es, k, q, batchSize, queries, outage);
    CleanRows(es, k, batchSize, queries(q), outage);
    var n := Rows(es, k, batchSize, queries(q));
    if !Errs(es, k, batchSize, queries(q), outage) && n > 0 {
      CleanReplay(es, k + n, q + 1, batchSize, queries, outage);
    }
  }

  lemma CleanRows(es: seq<Event>, k: nat, batchSize: nat, read: Read, outage: nat -> bool)
    requires k <= |es| && read.Delivers? && NeverOut(outage)
    ensures var n := Rows(es, k, batchSize, read);
            && k + n <= |es| && (read.rows > 0 && batchSize > 0 && k < |es| ==> n > 0)
            && (Errs(es, k, batchSize, read, outage) <==> exists i :: k <= i < k + n && Malformed(es[i]))
  {
    var n := Rows(es, k, batchSize, read);
    var rows, d := es[k..k + n], Taken(es, k, batchSize, read, outage);
    if d < n {
      assert Malformed(rows[d]) && rows[d] == es[k + d];
    } else {
      forall i | k <= i < k + n ensures !Malformed(es[i]) {
        assert rows[i - k] == es[i];
      }
    }
  }

  /**
   A rebuild that dispatches the whole log leaves the very table a consumer that has caught up
   holds. Success means that, unless a reading was cut short; and with a database that works the
   rebuild succeeds, in full, exactly when no event of the log is malformed.
   */
  lemma {:induction false} RebuildMatchesConsumer(
    batchSize: nat, acts: seq<Action>, queries: nat -> Read, outage: nat -> bool)
    requires ValidRun(INIT, batchSize, acts) && NoOutage(acts)
    requires CaughtUp(Run(INIT, batchSize, acts))
    ensures var s := Run(INIT, batchSize, acts);
            var r := Replayed(s.log, 0, 0, 1000, queries, outage);
            && r.dispatched <= |s.log|
            && (r.ok ==> Fold(map[], s.log[..r.dispatched]) == s.table || CutShort(s.log, 0, 0, 1000, queries, outage))
            && (r.dispatched == |s.log| ==> Fold(map[], s.log[..r.dispatched]) == s.table)
            && (Readable(queries) && NeverOut(outage) ==>
                  && (r.ok <==> forall i :: 0 <= i < |s.log| ==> !Malformed(s.log[i]))
                  && (r.ok ==> r.dispatched == |s.log|))
  {
    var s := Run(INIT, batchSize, acts);
    ConsumerConverges(batchSize, acts);
    ReplayedIff(s.log, 0, 0, 1000, queries, outage);
    if Readable(queries) && NeverOut(outage) {
      CleanReplay(s.log, 0, 0, 1000, queries, outage);
    }
    hide Run, ValidRun, CutShort, Replayed;
    assert s.log[..|s.log|] == s.log;
  }

  // ---------- Which events are dead-lettered, and which are delivered ----------

  /** A row that fails and whose insert into the dead letters is stored. */
  predicate GoesDead(e: Event, f: Fault) { !Succeeds(e, f.dbFails) && f.dlqStored }

  function DeadLetters(es: seq<Event>, fs: seq<Fault>): seq<Event>
    requires |es| == |fs|
    decreases es
  {
    if es == [] then []
    else
      var n := |es| - 1;
      DeadLetters(es[..n], fs[..n]) + if GoesDead(es[n], fs[n]) then [es[n]] else []
  }

  function Deliveries(es: seq<Event>, fs: seq<Fault>): seq<Event>
    requires |es| == |fs|
    decreases es
  {
    if es == [] then []
    else
      var n := |es| - 1;
      Deliveries(es[..n], fs[..n]) + if Succeeds(es[n], fs[n].dbFails) then [es[n]] else []
  }

  /** Where they stand among the rows. */
  ghost function DeadPlaces(es: seq<Event>, fs: seq<Fault>): (at: seq<nat>)
    requires |es| == |fs|
    ensures |at| == |DeadLetters(es, fs)|
    ensures forall k :: 0 <= k < |at| ==> at[k] < |es|
    ensures forall k, l :: 0 <= k < l < |at| ==> at[k] < at[l]
    decreases es
  {
    if es == [] then []
    else
      var n := |es| - 1;
      DeadPlaces(es[..n], fs[..n]) + if GoesDead(es[n], fs[n]) then [n] else []
  }

  lemma {:induction false} DeadPlaceOf(es: seq<Event>, fs: seq<Fault>, i: nat)
    requires |es| == |fs| && i < |es|
    ensures i in DeadPlaces(es, fs) <==> GoesDead(es[i], fs[i])
    decreases es
  {
    var n := |es| - 1;
    if i < n {
      DeadPlaceOf(es[..n], fs[..n], i);
    }
  }

  lemma {:induction false} DeadLetterAt(es: seq<Event>, fs: seq<Fault>, k: nat)
    requires |es| == |fs| && k < |DeadPlaces(es, fs)|
    ensures DeadLetters(es, fs)[k] == es[DeadPlaces(es, fs)[k]]
    decreases es
  {
    var n := |es| - 1;
    if k < |DeadPlaces(es[..n], fs[..n])| {
      DeadLetterAt(es[..n], fs[..n], k);
    }
  }

  /** The dead letters are the rows that go there, each once and in their order. */
  lemma DeadLetterPlaces(es: seq<Event>, fs: seq<Fault>) returns (at: seq<nat>)
    requires |es| == |fs|
    ensures |at| == |DeadLetters(es, fs)|
    ensures forall k :: 0 <= k < |at| ==> at[k] < |es| && DeadLetters(es, fs)[k] == es[at[k]]
    ensures forall k, l :: 0 <= k < l < |at| ==> at[k] < at[l]
    ensures forall i: nat :: i < |es| ==> (i in at <==> GoesDead(es[i], fs[i]))
  {
    at := DeadPlaces(es, fs);
    forall k | 0 <= k < |at| ensures DeadLetters(es, fs)[k] == es[at[k]] {
      DeadLetterAt(es, fs, k);
    }
    forall i: nat | i < |es| ensures i in at <==> GoesDead(es[i], fs[i]) {
      DeadPlaceOf(es, fs, i);
    }
  }

  /** Handling rows adds the dead letters and the deliveries, and folds the deliveries into the table. */
  lemma {:induction false} RowsSplit(s: State, es: seq<Event>, fs: seq<Fault>)
    requires |es| == |fs|
    ensures HandleRows(s, es, fs).dlq == s.dlq + DeadLetters(es, fs)
    ensures HandleRows(s, es, fs).delivered == s.delivered + Deliveries(es, fs)
    ensures HandleRows(s, es, fs).table == Fold(s.table, Deliveries(es, fs))
    decreases es
  {
    hide Succeeds, Apply;
    if es != [] {
      var n := |es| - 1;
      RowsSplit(s, es[..n], fs[..n]);
      if Succeeds(es[n], fs[n].dbFails) {
        FoldSnoc(s.table, Deliveries(es[..n], fs[..n]), es[n]);
      } else {
        assert Deliveries(es, fs) == Deliveries(es[..n], fs[..n]);
      }
    }
  }

  /** The rows a step handles, and what befalls them. */
  function RowsOf(s: State, batchSize: nat, a: Action): seq<Event> {
    match a
    case Append(_) => []
    case Poll(faults, _) =>
      var batch := Batch(s.log, s.checkpoint, batchSize);
      batch[..Reached(batch, faults)]
  }

  function FaultsOf(s: State, batchSize: nat, a: Action): (r: seq<Fault>)
    ensures |r| == |RowsOf(s, batchSize, a)|
  {
    match a
    case Append(_) => []
    case Poll(faults, _) => faults[..Reached(Batch(s.log, s.checkpoint, batchSize), faults)]
  }

  /** Over a whole run: every dead letter, and every delivery, step by step. */
  function RunDeadLetters(s: State, batchSize: nat, acts: seq<Action>): seq<Event>
    decreases acts
  {
    if acts == [] then []
    else
      var t, a := Run(s, batchSize, acts[..|acts| - 1]), acts[|acts| - 1];
      RunDeadLetters(s, batchSize, acts[..|acts| - 1]) + DeadLetters(RowsOf(t, batchSize, a), FaultsOf(t, batchSize, a))
  }

  function RunDeliveries(s: State, batchSize: nat, acts: seq<Action>): seq<Event>
    decreases acts
  {
    if acts == [] then []
    else
      var t, a := Run(s, batchSize, acts[..|acts| - 1]), acts[|acts| - 1];
      RunDeliveries(s, batchSize, acts[..|acts| - 1]) + Deliveries(RowsOf(t, batchSize, a), FaultsOf(t, batchSize, a))
  }

  lemma StepSplits(s: State, batchSize: nat, a: Action)
    ensures var rows, faults := RowsOf(s, batchSize, a), FaultsOf(s, batchSize, a);
            var s' := Step(s, batchSize, a);
            && s'.dlq == s.dlq + DeadLetters(rows, faults)
            && s'.delivered == s.delivered + Deliveries(rows, faults)
            && s'.table == Fold(s.table, Deliveries(rows, faults))
  {
    RowsSplit(s, RowsOf(s, batchSize, a), FaultsOf(s, batchSize, a));
  }

  /**
   In every run, with any faults, the dead-letter table grows by exactly the rows that fail and whose
   insert is stored, in order; and the table is the fold of exactly the rows that succeed.
   */
  lemma {:induction false} RunSplits(s: State, batchSize: nat, acts: seq<Action>)
    ensures Run(s, batchSize, acts).dlq == s.dlq + RunDeadLetters(s, batchSize, acts)
    ensures Run(s, batchSize, acts).delivered == s.delivered + RunDeliveries(s, batchSize, acts)
    ensures Run(s, batchSize, acts).table == Fold(s.table, RunDeliveries(s, batchSize, acts))
    decreases acts
  {
    hide Step, DeadLetters, Deliveries, RowsOf, FaultsOf;
    if acts != [] {
      var init, a := acts[..|acts| - 1], acts[|acts| - 1];
      var t := Run(s, batchSize, init);
      RunSplits(s, batchSize, init);
      StepSplits(t, batchSize, a);
      FoldAppend(s.table, RunDeliveries(s, batchSize, init),
          Deliveries(RowsOf(t, batchSize, a), FaultsOf(t, batchSize, a)));
    }
  }

  lemma {:induction false} SplitMembers(es: seq<Event>, fs: seq<Fault>)
    requires |es| == |fs|
    ensures forall e <- DeadLetters(es, fs) ::
              e in es && (exists i :: 0 <= i < |es| && es[i] == e && !Succeeds(e, fs[i].dbFails))
    ensures forall e <- Deliveries(es, fs) :: e in es && !Malformed(e)
    decreases es
  {
    if es != [] {
      var n := |es| - 1;
      SplitMembers(es[..n], fs[..n]);
      forall e <- DeadLetters(es, fs)
        ensures e in es && (exists i :: 0 <= i < |es| && es[i] == e && !Succeeds(e, fs[i].dbFails)) {
        if e in DeadLetters(es[..n], fs[..n]) {
          var i :| 0 <= i < n && es[..n][i] == e && !Succeeds(e, fs[..n][i].dbFails);
          assert es[i] == e && fs[i] == fs[..n][i];
        }
      }
    }
  }

  /** The rows of a step are in the log. */
  lemma RowsAreLogged(s: State, batchSize: nat, a: Action)
    ensures forall e <- RowsOf(s, batchSize, a) :: e in s.log
  {
    PendingMembers(s.log, s.checkpoint);
  }

  lemma {:induction false} LogGrows(s: State, batchSize: nat, acts: seq<Action>)
    requires acts != []
    ensures forall e <- Run(s, batchSize, acts[..|acts| - 1]).log :: e in Run(s, batchSize, acts).log
  {
    var t, a := Run(s, batchSize, acts[..|acts| - 1]), acts[|acts| - 1];
    if a.Poll? {
      RowsKeepLog(t, RowsOf(t, batchSize, a), FaultsOf(t, batchSize, a));
    }
  }

  /**
   In a run in which the database refuses no write of a dispatch, every dead letter is a malformed event
   of the log, and no malformed event is delivered. So with none in the log there is no dead letter.
   */
  lemma {:induction false} OnlyMalformedDeadLetters(batchSize: nat, acts: seq<Action>)
    requires NoOutage(acts)
    ensures forall e <- Run(INIT, batchSize, acts).dlq :: Malformed(e) && e in Run(INIT, batchSize, acts).log
    ensures forall e <- Run(INIT, batchSize, acts).delivered :: !Malformed(e) && e in Run(INIT, batchSize, acts).log
    ensures (forall e <- Run(INIT, batchSize, acts).log :: !Malformed(e)) ==> Run(INIT, batchSize, acts).dlq == []
    decreases acts
  {
    if acts != [] {
      var init, a := acts[..|acts| - 1], acts[|acts| - 1];
      OnlyMalformedDeadLetters(batchSize, init);
      var t := Run(INIT, batchSize, init);
      StepSplits(t, batchSize, a);
      RowsAreLogged(t, batchSize, a);
      SplitMembers(RowsOf(t, batchSize, a), FaultsOf(t, batchSize, a));
      LogGrows(INIT, batchSize, acts);
      StepDeadLettersMalformed(t, batchSize, a);
      hide Step, RowsOf, FaultsOf, DeadLetters, Deliveries, Malformed;
    }
    var r := Run(INIT, batchSize, acts);
    hide Run, NoOutage, Malformed;
    assert r.dlq != [] ==> r.dlq[0] in r.dlq;
  }

  lemma StepDeadLettersMalformed(s: State, batchSize: nat, a: Action)
    requires a.Poll? ==> forall i :: 0 <= i < |a.faults| ==> !a.faults[i].dbFails
    ensures forall e <- DeadLetters(RowsOf(s, batchSize, a), FaultsOf(s, batchSize, a)) :: Malformed(e)
  {
    SplitMembers(RowsOf(s, batchSize, a), FaultsOf(s, batchSize, a));
  }
}
