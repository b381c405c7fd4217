/**
 The write path and the outbox worker together: the last statement of a call stores the row that
 the worker drains, while other calls run and the worker ticks.
 */
module MessageDelivery {
  import opened Wrappers
  import MessageWrite
  import Outbox

  datatype State = State(write: MessageWrite.State, outbox: Outbox.State)

  /** A statement of a call, with the id and the time its outbox row gets if it stores one; or a tick of the worker. */
  datatype Action =
    | Write(a: MessageWrite.Action, rowId: string, createdAt: int)
    | Tick(at: seq<nat>, attempts: string -> Outbox.Attempt, now: int)

  const INIT := State(MessageWrite.INIT, Outbox.State([], {}))

  ghost predicate Enabled(s: State, a: Action) {
    match a
    case Write(b, _, _) => MessageWrite.Enabled(s.write, b)
    case Tick(at, attempts, now) => Outbox.Enabled(s.outbox, Outbox.Tick(at, attempts, now))
  }

  /** What the outbox sees of a step; a statement that stores no event is nothing to it. */
  ghost function Seen(s: State, a: Action): Option<Outbox.Action>
    requires Enabled(s, a)
  {
    match a
    case Write(b, rowId, createdAt) =>
      if b.SaveEvent? then Some(Outbox.Save(rowId, createdAt, Some(s.write.calls[b.call].msg.id))) else None
    case Tick(at, attempts, now) => Some(Outbox.Tick(at, attempts, now))
  }

  ghost function Step(s: State, a: Action): State
    requires Enabled(s, a)
  {
    State(if a.Write? then MessageWrite.Step(s.write, a.a) else s.write,
          if Seen(s, a).Some? then Outbox.Step(s.outbox, Seen(s, a).value) else s.outbox)
  }

  ghost predicate ValidRun(s: State, acts: seq<Action>)
    decreases acts
  {
    acts == [] || (Enabled(s, acts[0]) && ValidRun(Step(s, acts[0]), acts[1..]))
  }

  ghost function Run(s: State, acts: seq<Action>): State
    requires ValidRun(s, acts)
    decreases acts
  {
    if acts == [] then s else Run(Step(s, acts[0]), acts[1..])
  }

  ghost function OutboxActions(s: State, acts: seq<Action>): seq<Outbox.Action>
    requires ValidRun(s, acts)
    decreases acts
  {
    if acts == [] then []
    else
      var rest := OutboxActions(Step(s, acts[0]), acts[1..]);
      if Seen(s, acts[0]).Some? then [Seen(s, acts[0]).value] + rest else rest
  }

  /** The outbox's part of a run is a run of the outbox. */
  lemma {:induction false} OutboxPart(s: State, acts: seq<Action>)
    requires ValidRun(s, acts)
    ensures Outbox.ValidRun(s.outbox, OutboxActions(s, acts))
    ensures Run(s, acts).outbox == Outbox.Run(s.outbox, OutboxActions(s, acts))
    decreases acts
  {
    if acts != [] {
      var t := Step(s, acts[0]);
      OutboxPart(t, acts[1..]);
      if Seen(s, acts[0]).Some? {
        OutboxCons(s.outbox, Seen(s, acts[0]).value, OutboxActions(t, acts[1..]));
      }
    }
  }

  lemma OutboxCons(s: Outbox.State, a: Outbox.Action, acts: seq<Outbox.Action>)
    requires Outbox.Enabled(s, a) && Outbox.ValidRun(Outbox.Step(s, a), acts)
    ensures Outbox.ValidRun(s, [a] + acts) && Outbox.Run(s, [a] + acts) == Outbox.Run(Outbox.Step(s, a), acts)
  {
    hide Outbox.Enabled, Outbox.Step;
    assert ([a] + acts)[1..] == acts;
  }

  // ---------- What every run keeps ----------

  /** Row for row the worker's table carries the events the calls have written. */
  ghost predicate Linked(s: State) {
    && |s.outbox.rows| == |s.write.tables.outbox|
    && forall i :: 0 <= i < |s.outbox.rows| ==> s.outbox.rows[i].messageId == Some(s.write.tables.outbox[i].aggregateId)
  }

  ghost predicate Inv(s: State) {
    MessageWrite.Inv(s.write) && Linked(s) && Outbox.OnlyAcceptedPublished(s.outbox)
  }

  lemma StepKeeps(s: State, a: Action)
    requires Inv(s) && Enabled(s, a)
    ensures Inv(Step(s, a))
  {
    hide MessageWrite.Inv, Outbox.OnlyAcceptedPublished, Outbox.IsRead;
    match a
    case Write(b, _, _) =>
      MessageWrite.StepKeeps(s.write, b);
      if b.SaveEvent? {
        Outbox.StepKeeps(s.outbox, Seen(s, a).value);
      } else {
        OnlySaveEventWrites(s.write, b);
      }
    case Tick(_, _, _) =>
      Outbox.StepKeeps(s.outbox, Seen(s, a).value);
      TickKeepsLinks(s, a);
  }

  lemma OnlySaveEventWrites(s: MessageWrite.State, b: MessageWrite.Action)
    requires MessageWrite.Enabled(s, b) && !b.SaveEvent?
    ensures MessageWrite.Step(s, b).tables.outbox == s.tables.outbox
  {
  }

  lemma TickKeepsLinks(s: State, a: Action)
    requires Linked(s) && Enabled(s, a) && a.Tick?
    ensures Linked(Step(s, a))
  {
    Outbox.StepKeeps(s.outbox, Seen(s, a).value);
    hide Outbox.IsRead;
  }

  lemma {:induction false} RunKeeps(s: State, acts: seq<Action>)
    requires Inv(s) && ValidRun(s, acts)
    ensures Inv(Run(s, acts))
    decreases acts
  {
    hide Inv, Enabled, Step;
    if acts != [] {
      StepKeeps(s, acts[0]);
      RunKeeps(Step(s, acts[0]), acts[1..]);
    }
  }

  /**
   In every run of calls that interleave and stop anywhere, and of ticks that stop anywhere: every row
   the worker drains is of a saved message, no two are of one message, and one is marked published only
   after the broker has accepted it.
   */
  lemma DrainsSavedMessages(acts: seq<Action>, i: nat)
    requires ValidRun(INIT, acts) && i < |Run(INIT, acts).outbox.rows|
    ensures var s := Run(INIT, acts);
            var r := s.outbox.rows[i];
            && r.messageId.Some? && MessageWrite.HasMessage(s.write.tables, r.messageId.value)
            && r.messageId.value in s.write.tables.dedup
            && (forall j :: 0 <= j < |s.outbox.rows| && s.outbox.rows[j].messageId == r.messageId ==> j == i)
            && (r.publishedAt.Some? ==> r.id in s.outbox.accepted)
  {
    RunKeeps(INIT, acts);
    var s := Run(INIT, acts);
    hide Run, ValidRun, MessageWrite.CallsOk, MessageWrite.OneRowPerId, MessageWrite.HasMessage;
    assert s.write.tables.outbox[i] in s.write.tables.outbox;
  }

  // ---------- A call that runs to its end ----------

  lemma {:induction false} RowStays(s: State, acts: seq<Action>, i: nat)
    requires Inv(s) && ValidRun(s, acts) && i < |s.outbox.rows|
    ensures i < |Run(s, acts).outbox.rows| && Run(s, acts).outbox.rows[i].messageId == s.outbox.rows[i].messageId
    ensures Run(s, acts).outbox.rows[i].id == s.outbox.rows[i].id
  {
    OutboxPart(s, acts);
    Outbox.NothingLost(s.outbox, OutboxActions(s, acts));
  }

  /**
   When a call writes its last statement, its message is published within as many full ticks as there
   are publishable events up to it, whatever other calls do and newer events they store meanwhile,
   exactly if its row can be published and fewer than 100 rows that cannot are older.
   */
  lemma FinishedIsPublishedIff(s: State, c: nat, rowId: string, t: int, acts: seq<Action>, good: string -> bool)
    requires Inv(s) && c in s.write.calls && s.write.calls[c].stage == MessageWrite.Keyed
    requires forall i :: 0 <= i < |s.outbox.rows| ==> s.outbox.rows[i].createdAt != t
    requires var s1 := Step(s, Write(MessageWrite.SaveEvent(c), rowId, t));
             && ValidRun(s1, acts) && Outbox.SteadyRun(s1.outbox, OutboxActions(s1, acts), good, t)
             && Outbox.Ticks(OutboxActions(s1, acts)) >= |Outbox.Places(s1.outbox.rows, Outbox.PendingUpTo(good, t))|
    ensures var s1 := Step(s, Write(MessageWrite.SaveEvent(c), rowId, t));
            var i := |s.outbox.rows|;
            && i < |Run(s1, acts).outbox.rows|
            && Run(s1, acts).outbox.rows[i].messageId == Some(s.write.calls[c].msg.id)
            && (Run(s1, acts).outbox.rows[i].publishedAt.Some?
                <==> good(rowId) && |Outbox.Places(s.outbox.rows, Outbox.FailingBefore(good, t))| < Outbox.LIMIT)
  {
    var a := Write(MessageWrite.SaveEvent(c), rowId, t);
    var s1, i := Step(s, a), |s.outbox.rows|;
    StepKeeps(s, a);
    RowStays(s1, acts, i);
    OutboxPart(s1, acts);
    NewRow(s, a, good);
    hide Outbox.SteadyRun, Outbox.Places, Outbox.OwnMoment, Step, Run, Inv;
    Outbox.PublishedIff(s1.outbox, OutboxActions(s1, acts), good, i);
  }

  /** The row the last statement stores. */
  lemma NewRow(s: State, a: Action, good: string -> bool)
    requires Enabled(s, a) && a.Write? && a.a.SaveEvent?
    requires forall i :: 0 <= i < |s.outbox.rows| ==> s.outbox.rows[i].createdAt != a.createdAt
    ensures var rows, i := Step(s, a).outbox.rows, |s.outbox.rows|;
            && |rows| == i + 1
            && rows[i] == Outbox.Row(a.rowId, a.createdAt, Some(s.write.calls[a.a.call].msg.id), None, 0)
            && Outbox.OwnMoment(rows, i)
            && Outbox.Places(rows, Outbox.FailingBefore(good, a.createdAt))
               == Outbox.Places(s.outbox.rows, Outbox.FailingBefore(good, a.createdAt))
  {
  }
}
