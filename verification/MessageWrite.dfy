/**
 The write path of a message: validation, then the duplicate check and three inserts that
 are separate statements. Many calls interleave, and any of them may stop between two.
 */
module MessageWrite {
  import opened Wrappers

  datatype Message = Message(id: string, user: string, room: string, timestamp: int)

  datatype OutboxEvent = OutboxEvent(aggregateId: string, user: string, room: string)

  datatype Tables = Tables(messages: seq<Message>, dedup: seq<string>, outbox: seq<OutboxEvent>)

  datatype Error = InvalidMessage | RateLimit | UserNotFound | RoomNotFound | Forbidden | Internal | Storage

  datatype Result = Ok | Err(error: Error)

  predicate HasMessage(t: Tables, id: string) { exists m <- t.messages :: m.id == id }

  predicate HasEvent(t: Tables, id: string) { exists e <- t.outbox :: e.aggregateId == id }

  function EventOf(m: Message): OutboxEvent { OutboxEvent(m.id, m.user, m.room) }

  // ---------- Validation ----------

  /** A message without a timestamp gets one, and with it a fresh id. */
  function Stamped(m: Message, now: int, freshId: string): Message {
    if m.timestamp == 0 then m.(timestamp := now, id := freshId) else m
  }

  predicate Valid(m: Message, now: int) {
    m.id != "" && m.user != "" && m.room != "" && 0 < m.timestamp <= now + 5 * MINUTE
  }

  // ---------- Concurrent calls ----------

  datatype Stage = Checked | Saved | Keyed

  datatype Call = Call(msg: Message, stage: Stage)

  datatype State = State(tables: Tables, calls: map<nat, Call>)

  /** One statement of one call; a call that has returned, failed or died is no longer in `calls`. */
  datatype Action =
    | Check(call: nat, msg: Message)
    | SaveMessage(call: nat)
    | SaveKey(call: nat)
    | SaveEvent(call: nat)
    | Stop(call: nat)

  predicate Enabled(s: State, a: Action) {
    match a
    case Check(c, _) => c !in s.calls
    case SaveMessage(c) => c in s.calls && s.calls[c].stage == Checked
    case SaveKey(c) => c in s.calls && s.calls[c].stage == Saved
    case SaveEvent(c) => c in s.calls && s.calls[c].stage == Keyed
    case Stop(c) => c in s.calls
  }

  function InsertMessage(t: Tables, m: Message): Tables { t.(messages := t.messages + [m]) }

  /** ON CONFLICT DO NOTHING. */
  function InsertKey(t: Tables, id: string): Tables {
    if id in t.dedup then t else t.(dedup := t.dedup + [id])
  }

  function InsertEvent(t: Tables, m: Message): Tables { t.(outbox := t.outbox + [EventOf(m)]) }

  function Step(s: State, a: Action): State
    requires Enabled(s, a)
  {
    match a
    case Check(c, m) => if m.id in s.tables.dedup then s else s.(calls := s.calls[c := Call(m, Checked)])
    case SaveMessage(c) =>
      var m := s.calls[c].msg;
      // The primary key refuses a second row, and the call returns with an error.
      if HasMessage(s.tables, m.id) then s.(calls := s.calls - {c})
      else State(InsertMessage(s.tables, m), s.calls[c := Call(m, Saved)])
    case SaveKey(c) => State(InsertKey(s.tables, s.calls[c].msg.id), s.calls[c := Call(s.calls[c].msg, Keyed)])
    case SaveEvent(c) => State(InsertEvent(s.tables, s.calls[c].msg), s.calls - {c})
    case Stop(c) => s.(calls := s.calls - {c})
  }

  ghost predicate ValidRun(s: State, acts: seq<Action>)
    decreases acts
  {
    acts == [] || (Enabled(s, acts[0]) && ValidRun(Step(s, acts[0]), acts[1..]))
  }

  function Run(s: State, acts: seq<Action>): State
    requires ValidRun(s, acts)
    decreases acts
  {
    if acts == [] then s else Run(Step(s, acts[0]), acts[1..])
  }

  const INIT := State(Tables([], [], []), map[])

  // ---------- One call, statement by statement ----------

  /** Which statement the database refuses; a call that meets no fault runs to its end. */
  datatype Fault = NoFault | CheckFails | SaveFails | KeyFails | EventFails

  class MessageService {
    var messages: seq<Message>
    var dedup: seq<string>
    var outbox: seq<OutboxEvent>

    constructor ()
      ensures Rows() == INIT.tables
    {
      messages, dedup, outbox := [], [], [];
    }

    ghost function Rows(): Tables
      reads this
    {
      Tables(messages, dedup, outbox)
    }

    /** `refusal` is the first error of the rate limiter, the user and room lookups and the permission check. */
    method Process(msg: Message, now: int, freshId: string, refusal: Option<Error>, fault: Fault) returns (r: Result)
      modifies this
      ensures r == ProcessResult(old(Rows()), Stamped(msg, now, freshId), now, refusal, fault)
      ensures Rows() == AfterProcess(old(Rows()), Stamped(msg, now, freshId), now, refusal, fault)
    {
      var m := msg;
      if m.timestamp == 0 {
        m := m.(timestamp := now, id := freshId);
      }
      if m.id == "" || m.user == "" || m.room == "" || m.timestamp <= 0 || m.timestamp > now + 5 * MINUTE {
        return Err(InvalidMessage);
      }
      if refusal.Some? {
        return Err(refusal.value);
      }
      if fault == CheckFails {
        return Err(Internal);
      }
      if m.id in dedup {
        return Ok;
      }
      if fault == SaveFails || exists row <- messages :: row.id == m.id {
        return Err(Storage);
      }
      messages := messages + [m];
      if fault == KeyFails {
        return Err(Internal);
      }
      if m.id !in dedup {
        dedup := dedup + [m.id];
      }
      if fault == EventFails {
        return Err(Internal);
      }
      outbox := outbox + [OutboxEvent(m.id, m.user, m.room)];
      return Ok;
    }
  }

  function ProcessResult(t: Tables, m: Message, now: int, refusal: Option<Error>, fault: Fault): Result {
    if !Valid(m, now) then Err(InvalidMessage)
    else if refusal.Some? then Err(refusal.value)
    else if fault == CheckFails then Err(Internal)
    else if m.id in t.dedup then Ok
    else if fault == SaveFails || HasMessage(t, m.id) then Err(Storage)
    else if fault == KeyFails || fault == EventFails then Err(Internal)
    else Ok
  }

  /** Whether the call gets as far as the duplicate check's answer. */
  predicate Reaches(m: Message, now: int, refusal: Option<Error>, fault: Fault) {
    Valid(m, now) && refusal.None? && fault != CheckFails
  }

  function AfterProcess(t: Tables, m: Message, now: int, refusal: Option<Error>, fault: Fault): Tables {
    if !Reaches(m, now, refusal, fault) || m.id in t.dedup || fault == SaveFails || HasMessage(t, m.id) then t
    else
      var t1 := InsertMessage(t, m);
      if fault == KeyFails then t1
      else
        var t2 := InsertKey(t1, m.id);
        if fault == EventFails then t2 else InsertEvent(t2, m)
  }

  /** The statements of one call, run without interruption, as steps of the concurrent machine. */
  function ActionsOf(t: Tables, c: nat, m: Message, now: int, refusal: Option<Error>, fault: Fault): seq<Action> {
    if !Reaches(m, now, refusal, fault) then []
    else if m.id in t.dedup then [Check(c, m)]
    else if fault == SaveFails then [Check(c, m), Stop(c)]
    else if HasMessage(t, m.id) then [Check(c, m), SaveMessage(c)]
    else if fault == KeyFails then [Check(c, m), SaveMessage(c), Stop(c)]
    else if fault == EventFails then [Check(c, m), SaveMessage(c), SaveKey(c), Stop(c)]
    else [Check(c, m), SaveMessage(c), SaveKey(c), SaveEvent(c)]
  }

  lemma RunCons(s: State, a: Action, acts: seq<Action>)
    requires Enabled(s, a) && ValidRun(Step(s, a), acts)
    ensures ValidRun(s, [a] + acts) && Run(s, [a] + acts) == Run(Step(s, a), acts)
  {
    assert ([a] + acts)[1..] == acts;
  }

  /** Process is a run of the machine, and leaves no call behind. */
  lemma ProcessIsRun(s: State, c: nat, m: Message, now: int, refusal: Option<Error>, fault: Fault)
    requires c !in s.calls
    ensures var acts := ActionsOf(s.tables, c, m, now, refusal, fault);
            ValidRun(s, acts) && Run(s, acts) == State(AfterProcess(s.tables, m, now, refusal, fault), s.calls)
  {
    if Reaches(m, now, refusal, fault) && m.id !in s.tables.dedup {
      var s1 := Step(s, Check(c, m));
      assert s1.calls - {c} == s.calls;
      if fault == SaveFails {
        assert [Stop(c)][1..] == [];
        RunCons(s, Check(c, m), [Stop(c)]);
      } else if HasMessage(s.tables, m.id) {
        assert [SaveMessage(c)][1..] == [];
        RunCons(s, Check(c, m), [SaveMessage(c)]);
      } else {
        var s2 := Step(s1, SaveMessage(c));
        assert s2.calls - {c} == s.calls;
        var rest := ActionsOf(s.tables, c, m, now, refusal, fault)[2..];
        TailRun(s2, c, s.calls, fault);
        RunCons(s1, SaveMessage(c), rest);
        RunCons(s, Check(c, m), [SaveMessage(c)] + rest);
        assert [Check(c, m)] + ([SaveMessage(c)] + rest) == ActionsOf(s.tables, c, m, now, refusal, fault);
      }
    } else if Reaches(m, now, refusal, fault) {
      assert [Check(c, m)][1..] == [];
    }
  }

  lemma TailRun(s: State, c: nat, others: map<nat, Call>, fault: Fault)
    requires c in s.calls && s.calls[c].stage == Saved && s.calls - {c} == others
    ensures var m := s.calls[c].msg;
            var rest := if fault == KeyFails then [Stop(c)]
                else [SaveKey(c), if fault == EventFails then Stop(c) else SaveEvent(c)];
            && ValidRun(s, rest)
            && Run(s, rest) == State(
                 if fault == KeyFails then s.tables
                 else if fault == EventFails then InsertKey(s.tables, m.id)
                 else InsertEvent(InsertKey(s.tables, m.id), m), others)
  {
    var last := if fault == EventFails then Stop(c) else SaveEvent(c);
    assert [last][1..] == [] && [Stop(c)][1..] == [];
    var s' := Step(s, SaveKey(c));
    assert s'.calls - {c} == others;
    RunCons(s', last, []);
    assert [last] == [last] + [];
    RunCons(s, SaveKey(c), [last]);
    assert [SaveKey(c), last] == [SaveKey(c)] + [last];
  }

  // ---------- What every interleaving keeps ----------

  /** The call that inserted the row of `id` and has yet to write its outbox event. */
  predicate Owns(s: State, c: nat, id: string) {
    c in s.calls && s.calls[c].msg.id == id && s.calls[c].stage != Checked
  }

  ghost predicate OneRowPerId(t: Tables) {
    forall i, j :: 0 <= i < j < |t.messages| ==> t.messages[i].id != t.messages[j].id
  }

  ghost predicate OneEventPerId(t: Tables) {
    forall i, j :: 0 <= i < j < |t.outbox| ==> t.outbox[i].aggregateId != t.outbox[j].aggregateId
  }

  /** Events have keys, keys have messages, and an event says what its message's row says. */
  ghost predicate Referential(t: Tables) {
    && (forall e <- t.outbox :: e.aggregateId in t.dedup)
    && (forall id <- t.dedup :: HasMessage(t, id))
    && (forall e <- t.outbox :: exists m <- t.messages :: e == EventOf(m))
  }

  ghost predicate CallsOk(s: State) {
    && (forall c <- s.calls :: s.calls[c].stage != Checked ==> s.calls[c].msg in s.tables.messages)
    && (forall c <- s.calls :: s.calls[c].stage == Keyed ==> s.calls[c].msg.id in s.tables.dedup)
    && (forall c <- s.calls :: s.calls[c].stage != Checked ==> !HasEvent(s.tables, s.calls[c].msg.id))
    && (forall c, d, id :: Owns(s, c, id) && Owns(s, d, id) ==> c == d)
  }

  ghost predicate Inv(s: State) {
    OneRowPerId(s.tables) && OneEventPerId(s.tables) && Referential(s.tables) && CallsOk(s)
  }

  lemma EventHasMessage(t: Tables, id: string)
    requires Referential(t)
    ensures HasEvent(t, id) ==> HasMessage(t, id)
  {
  }

  lemma OwnedHasMessage(s: State, c: nat, id: string)
    requires CallsOk(s)
    ensures Owns(s, c, id) ==> HasMessage(s.tables, id) && !HasEvent(s.tables, id)
  {
  }

  lemma OtherEventsStay(t: Tables, m: Message, id: string)
    requires id != m.id
    ensures HasEvent(InsertEvent(t, m), id) <==> HasEvent(t, id)
  {
    if HasEvent(t, id) {
      var e :| e in t.outbox && e.aggregateId == id;
      assert e in InsertEvent(t, m).outbox;
    }
  }

  lemma SaveMessageKeeps(s: State, c: nat)
    requires Inv(s) && Enabled(s, SaveMessage(c))
    ensures Inv(Step(s, SaveMessage(c)))
  {
    var m := s.calls[c].msg;
    var s' := Step(s, SaveMessage(c));
    if !HasMessage(s.tables, m.id) {
      assert m in s'.tables.messages;
      forall id <- s'.tables.dedup ensures HasMessage(s'.tables, id) {
        var row :| row in s.tables.messages && row.id == id;
        assert row in s'.tables.messages;
      }
      forall e <- s'.tables.outbox ensures exists row <- s'.tables.messages :: e == EventOf(row) {
        var row :| row in s.tables.messages && e == EventOf(row);
        assert row in s'.tables.messages;
      }
      EventHasMessage(s.tables, m.id);
      forall d ensures !Owns(s, d, m.id) {
        OwnedHasMessage(s, d, m.id);
      }
      assert forall id :: HasEvent(s'.tables, id) <==> HasEvent(s.tables, id);
      assert forall d, id :: Owns(s', d, id) ==> (d == c && id == m.id) || Owns(s, d, id);
    } else {
      assert forall d, id :: Owns(s', d, id) ==> Owns(s, d, id);
    }
  }

  lemma SaveKeyKeeps(s: State, c: nat)
    requires Inv(s) && Enabled(s, SaveKey(c))
    ensures Inv(Step(s, SaveKey(c)))
  {
    var m := s.calls[c].msg;
    var s' := Step(s, SaveKey(c));
    assert m in s.tables.messages;
    assert forall id :: HasMessage(s'.tables, id) <==> HasMessage(s.tables, id);
    assert forall id :: HasEvent(s'.tables, id) <==> HasEvent(s.tables, id);
    assert forall d, id :: Owns(s', d, id) ==> Owns(s, d, id);
  }

  lemma InsertEventKeepsTables(t: Tables, m: Message)
    requires OneRowPerId(t) && OneEventPerId(t) && Referential(t)
    requires m in t.messages && m.id in t.dedup && !HasEvent(t, m.id)
    ensures OneRowPerId(InsertEvent(t, m)) && OneEventPerId(InsertEvent(t, m)) && Referential(InsertEvent(t, m))
  {
    forall e <- t.outbox ensures e.aggregateId != m.id {}
    assert forall id :: HasMessage(InsertEvent(t, m), id) <==> HasMessage(t, id);
  }

  lemma SaveEventKeeps(s: State, c: nat)
    requires Inv(s) && Enabled(s, SaveEvent(c))
    ensures Inv(Step(s, SaveEvent(c)))
  {
    var m := s.calls[c].msg;
    var s' := Step(s, SaveEvent(c));
    assert Owns(s, c, m.id);
    InsertEventKeepsTables(s.tables, m);
    hide OneRowPerId, OneEventPerId, Referential, HasEvent;
    assert forall d, id :: Owns(s', d, id) ==> Owns(s, d, id);
    forall d <- s'.calls | s'.calls[d].stage != Checked ensures !HasEvent(s'.tables, s'.calls[d].msg.id) {
      var id := s'.calls[d].msg.id;
      assert Owns(s', d, id) && Owns(s, d, id);
      OtherEventsStay(s.tables, m, id);
    }
  }

  lemma OtherKeeps(s: State, a: Action)
    requires Inv(s) && Enabled(s, a) && (a.Check? || a.Stop?)
    ensures Inv(Step(s, a))
  {
    assert forall d, id :: Owns(Step(s, a), d, id) ==> Owns(s, d, id);
  }

  lemma StepKeeps(s: State, a: Action)
    requires Inv(s) && Enabled(s, a)
    ensures Inv(Step(s, a))
  {
    match a
    case SaveMessage(c) => SaveMessageKeeps(s, c);
    case SaveKey(c) => SaveKeyKeeps(s, c);
    case SaveEvent(c) => SaveEventKeeps(s, c);
    case _ => OtherKeeps(s, a);
  }

  /** Whatever the interleaving and wherever calls stop: one row and one event an id, and no dangling reference. */
  lemma {:induction false} EveryRunKeeps(s: State, acts: seq<Action>)
    requires Inv(s) && ValidRun(s, acts)
    ensures Inv(Run(s, acts))
    decreases acts
  {
    if acts != [] {
      StepKeeps(s, acts[0]);
      EveryRunKeeps(Step(s, acts[0]), acts[1..]);
    }
  }

  lemma AtMostOnce(acts: seq<Action>)
    requires ValidRun(INIT, acts)
    ensures OneRowPerId(Run(INIT, acts).tables) && OneEventPerId(Run(INIT, acts).tables)
    ensures Referential(Run(INIT, acts).tables)
  {
    EveryRunKeeps(INIT, acts);
  }

  // ---------- When is a saved message's event lost? ----------

  lemma OrphanStep(s: State, a: Action, id: string)
    requires Inv(s) && Enabled(s, a)
    requires HasMessage(s.tables, id) && !HasEvent(s.tables, id) && forall c :: !Owns(s, c, id)
    ensures HasMessage(Step(s, a).tables, id) && !HasEvent(Step(s, a).tables, id)
            && forall c :: !Owns(Step(s, a), c, id)
  {
    var s' := Step(s, a);
    var m :| m in s.tables.messages && m.id == id;
    assert m in s'.tables.messages;
    if a.SaveEvent? {
      var saved := s.calls[a.call].msg;
      assert Owns(s, a.call, saved.id) && !Owns(s, a.call, id);
      OtherEventsStay(s.tables, saved, id);
    }
    forall c ensures !Owns(s', c, id) {
      assert !Owns(s, c, id);
    }
  }

  lemma {:induction false} OrphanForever(s: State, acts: seq<Action>, id: string)
    requires Inv(s) && ValidRun(s, acts)
    requires HasMessage(s.tables, id) && !HasEvent(s.tables, id) && forall c :: !Owns(s, c, id)
    ensures !HasEvent(Run(s, acts).tables, id)
    decreases acts
  {
    if acts != [] {
      StepKeeps(s, acts[0]);
      OrphanStep(s, acts[0], id);
      OrphanForever(Step(s, acts[0]), acts[1..], id);
    }
  }

  ghost predicate EventPossible(s: State, id: string) {
    exists acts :: ValidRun(s, acts) && HasEvent(Run(s, acts).tables, id)
  }

  /** A live owner that is left to finish writes the event. */
  lemma OwnerFinishes(s: State, c: nat, id: string)
    requires Owns(s, c, id)
    ensures EventPossible(s, id)
  {
    var s1 := if s.calls[c].stage == Saved then Step(s, SaveKey(c)) else s;
    var s2 := Step(s1, SaveEvent(c));
    RunCons(s1, SaveEvent(c), []);
    assert [SaveEvent(c)] == [SaveEvent(c)] + [];
    var e := EventOf(s1.calls[c].msg);
    assert s2.tables.outbox[|s1.tables.outbox|] == e && e.aggregateId == id;
    assert HasEvent(s2.tables, id);
    if s.calls[c].stage == Saved {
      RunCons(s, SaveKey(c), [SaveEvent(c)]);
      assert HasEvent(Run(s, [SaveKey(c)] + [SaveEvent(c)]).tables, id);
    } else {
      assert HasEvent(Run(s, [SaveEvent(c)]).tables, id);
    }
  }

  /**
   A saved message that has no outbox event can still get one exactly while the call that
   saved it lives: once it has stopped, sending the message again never writes the event.
   */
  lemma EventPossibleIffOwned(s: State, id: string)
    requires Inv(s) && HasMessage(s.tables, id) && !HasEvent(s.tables, id)
    ensures EventPossible(s, id) <==> exists c :: Owns(s, c, id)
  {
    if exists c :: Owns(s, c, id) {
      var c :| Owns(s, c, id);
      OwnerFinishes(s, c, id);
    } else {
      forall acts | ValidRun(s, acts) ensures !HasEvent(Run(s, acts).tables, id) {
        OrphanForever(s, acts, id);
      }
    }
  }

  // ---------- Sending again ----------

  /**
   A client that gets an error may send the same message again. The second call, meeting no
   fault, succeeds exactly unless the first one died between the message and its key: then the
   primary key refuses the row for good. The event is there in the end exactly if the first
   call wrote all or nothing.
   */
  lemma ResendIff(t: Tables, m: Message, now: int, later: int, fault: Fault)
    requires Valid(m, now) && now <= later && m.id !in t.dedup && !HasMessage(t, m.id) && !HasEvent(t, m.id)
    ensures var t1 := AfterProcess(t, m, now, None, fault);
            var t2 := AfterProcess(t1, m, later, None, NoFault);
            && (ProcessResult(t1, m, later, None, NoFault) == Ok <==> fault != KeyFails)
            && HasMessage(t2, m.id)
            && (HasEvent(t2, m.id) <==> fault != KeyFails && fault != EventFails)
            && (t2 == t1 <==> fault != CheckFails && fault != SaveFails)
  {
    var t1 := AfterProcess(t, m, now, None, fault);
    var t2 := AfterProcess(t1, m, later, None, NoFault);
    var full := InsertEvent(InsertKey(InsertMessage(t, m), m.id), m);
    assert full.messages[|t.messages|] == m && full.outbox[|t.outbox|] == EventOf(m);
    assert InsertMessage(t, m).messages[|t.messages|] == m;
  }

  // ---------- What a call stores, in terms of the message it is given ----------

  /**
   A message with a timestamp is stored as it is given, under its own id; one without gets the fresh id
   and the time of the call, and keeps its user and room. The key and the event name the stored id.
   */
  lemma StoresGiven(t: Tables, msg: Message, now: int, freshId: string)
    requires Valid(Stamped(msg, now, freshId), now)
    requires var m := Stamped(msg, now, freshId); m.id !in t.dedup && !HasMessage(t, m.id)
    ensures var t' := AfterProcess(t, Stamped(msg, now, freshId), now, None, NoFault);
            var stored := if msg.timestamp != 0 then msg else Message(freshId, msg.user, msg.room, now);
            && ProcessResult(t, Stamped(msg, now, freshId), now, None, NoFault) == Ok
            && t'.messages == t.messages + [stored]
            && t'.dedup == t.dedup + [stored.id]
            && t'.outbox == t.outbox + [OutboxEvent(stored.id, msg.user, msg.room)]
  {
  }

  /** A message is refused exactly if an id, the user or the room is missing, or its time is not in (0, now + 5 min]. */
  lemma RefusedAsInvalidIff(t: Tables, msg: Message, now: int, freshId: string, refusal: Option<Error>, fault: Fault)
    requires now > 0 && freshId != "" && refusal != Some(InvalidMessage)
    ensures ProcessResult(t, Stamped(msg, now, freshId), now, refusal, fault) == Err(InvalidMessage)
            <==> || msg.user == "" || msg.room == ""
                 || (msg.timestamp != 0
                     && (msg.id == "" || msg.timestamp < 0 || msg.timestamp - now > 300_000_000_000))
  {
  }

  /**
   The other ends of a call: what refuses it is reported and changes nothing; a key that is known is a
   success that changes nothing; a row that is there without its key is a storage error; and a refused
   statement leaves what the ones before it have written.
   */
  lemma EndsOf(t: Tables, m: Message, now: int, refusal: Option<Error>, fault: Fault)
    requires Valid(m, now)
    ensures var r, t' := ProcessResult(t, m, now, refusal, fault), AfterProcess(t, m, now, refusal, fault);
            && (refusal.Some? ==> r == Err(refusal.value) && t' == t)
            && (refusal.None? && fault == CheckFails ==> r == Err(Internal) && t' == t)
            && (refusal.None? && fault != CheckFails ==>
                  && (m.id in t.dedup ==> r == Ok && t' == t)
                  && (m.id !in t.dedup && (HasMessage(t, m.id) || fault == SaveFails) ==> r == Err(Storage) && t' == t)
                  && (m.id !in t.dedup && !HasMessage(t, m.id) && fault == KeyFails
                      ==> r == Err(Internal) && t' == t.(messages := t.messages + [m]))
                  && (m.id !in t.dedup && !HasMessage(t, m.id) && fault == EventFails
                      ==> r == Err(Internal) && t' == t.(messages := t.messages + [m], dedup := t.dedup + [m.id])))
  {
  }

  /**
   Posting a message with a timestamp twice, with whatever fresh ids: the second call succeeds and
   adds no message, no key and no event. Without a timestamp both are stored, each under its own id.
   */
  lemma PostedTwice(t: Tables, msg: Message, now: int, later: int, freshId: string, freshId': string)
    requires Valid(Stamped(msg, now, freshId), now) && now <= later && freshId' != "" && freshId != freshId'
    requires var m := Stamped(msg, now, freshId); m.id !in t.dedup && !HasMessage(t, m.id)
    requires freshId' !in t.dedup && !HasMessage(t, freshId')
    ensures var t1 := AfterProcess(t, Stamped(msg, now, freshId), now, None, NoFault);
            var m2 := Stamped(msg, later, freshId');
            var t2 := AfterProcess(t1, m2, later, None, NoFault);
            && ProcessResult(t1, m2, later, None, NoFault) == Ok
            && (msg.timestamp != 0 ==> t2 == t1)
            && (msg.timestamp == 0 ==> t2.messages == t1.messages + [Message(freshId', msg.user, msg.room, later)])
  {
    StoresGiven(t, msg, now, freshId);
    var t1 := AfterProcess(t, Stamped(msg, now, freshId), now, None, NoFault);
    if msg.timestamp == 0 {
      assert !HasMessage(t1, freshId');
      StoresGiven(t1, msg, later, freshId');
    } else {
      assert msg.id in t1.dedup;
    }
  }
}
