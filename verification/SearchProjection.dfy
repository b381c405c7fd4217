/**
 The search projection: how one event of the log changes the table
 `message_search_projection`, and why delivering a block of events again
 does not change what the table says.
 */
module SearchProjection {
  import opened Wrappers

  datatype MessagePayload = MessagePayload(messageId: string, roomId: string, userId: string, content: string)

  /** `payload` is what decoding the JSON column into a MessagePayload gives; None if decoding fails. */
  datatype Event = Event(
    id: int, sequence: int, aggregateId: string, eventType: string, payload: Option<MessagePayload>)

  /** A row without its `created_at` column; `search_vector` is a function of `content`. */
  datatype Row = Row(roomId: string, userId: string, content: string)

  type Table = map<string, Row>

  // ---------- One event ----------

  /** INSERT .. ON CONFLICT(message_id) DO UPDATE SET content: the first room and user stay. */
  function Upsert(t: Table, p: MessagePayload): Table {
    if p.messageId in t then t[p.messageId := t[p.messageId].(content := p.content)]
    else t[p.messageId := Row(p.roomId, p.userId, p.content)]
  }

  predicate IsCreate(e: Event) { e.eventType == "message_created" }

  predicate IsDelete(e: Event) { e.eventType == "message_deleted" }

  /** The events on which the projection fails whenever they are delivered. */
  predicate Malformed(e: Event) { IsCreate(e) && e.payload.None? }

  function Apply(t: Table, e: Event): Table {
    if IsCreate(e) then if e.payload.Some? then Upsert(t, e.payload.value) else t
    else if IsDelete(e) then t - {e.aggregateId}
    else t
  }

  class Indexer {
    var table: Table

    constructor ()
      ensures table == map[]
    {
      table := map[];
    }

    method IndexMessage(messageId: string, roomId: string, userId: string, content: string, dbFails: bool)
      returns (ok: bool)
      modifies this
      ensures ok == !dbFails
      ensures table == if ok then Upsert(old(table), MessagePayload(messageId, roomId, userId, content)) else old(table)
    {
      if dbFails {
        return false;
      }
      if messageId in table {
        var row := table[messageId];
        table := table[messageId := Row(row.roomId, row.userId, content)];
      } else {
        table := table[messageId := Row(roomId, userId, content)];
      }
      return true;
    }

    method DeleteMessage(messageId: string, dbFails: bool) returns (ok: bool)
      modifies this
      ensures ok == !dbFails
      ensures table == if ok then old(table) - {messageId} else old(table)
    {
      if dbFails {
        return false;
      }
      table := map m | m in table && m != messageId :: table[m];
      return true;
    }

    /**
     MessageProjection.Handle. An event of any other type succeeds without touching the
     database, so a failing database is noticed only by the two types the switch names.
     */
    method Handle(e: Event, dbFails: bool) returns (ok: bool)
      modifies this
      ensures ok == Succeeds(e, dbFails)
      ensures table == if ok then Apply(old(table), e) else old(table)
    {
      if e.eventType == "message_created" {
        if e.payload.None? {
          return false;
        }
        var p := e.payload.value;
        ok := IndexMessage(p.messageId, p.roomId, p.userId, p.content, dbFails);
      } else if e.eventType == "message_deleted" {
        ok := DeleteMessage(e.aggregateId, dbFails);
      } else {
        ok := true;
      }
    }
  }

  /** Whether a delivery of `e` succeeds, given whether the database refuses writes at that moment. */
  predicate Succeeds(e: Event, dbFails: bool) {
    !Malformed(e) && (dbFails ==> !IsCreate(e) && !IsDelete(e))
  }

  // ---------- A block of events ----------

  function Fold(t: Table, es: seq<Event>): Table
    decreases es
  {
    if es == [] then t else Fold(Apply(t, es[0]), es[1..])
  }

  lemma {:induction false} FoldAppend(t: Table, a: seq<Event>, b: seq<Event>)
    ensures Fold(t, a + b) == Fold(Fold(t, a), b)
    decreases a
  {
    if a == [] {
      assert a + b == b;
    } else {
      assert (a + b)[1..] == a[1..] + b;
      FoldAppend(Apply(t, a[0]), a[1..], b);
    }
  }

  lemma {:induction false} FoldMalformed(t: Table, es: seq<Event>)
    requires forall e <- es :: Malformed(e)
    ensures Fold(t, es) == t
    decreases es
  {
    if es != [] {
      assert es[0] in es;
      FoldMalformed(t, es[1..]);
    }
  }

  // ---------- The same, seen from one message id ----------

  function At(t: Table, m: string): Option<Row> {
    if m in t then Some(t[m]) else None
  }

  predicate Creates(e: Event, m: string) {
    IsCreate(e) && e.payload.Some? && e.payload.value.messageId == m
  }

  predicate Deletes(e: Event, m: string) { IsDelete(e) && e.aggregateId == m }

  function ApplyAt(o: Option<Row>, e: Event, m: string): Option<Row> {
    if Creates(e, m) then
      var p := e.payload.value;
      if o.Some? then Some(o.value.(content := p.content)) else Some(Row(p.roomId, p.userId, p.content))
    else if Deletes(e, m) then None
    else o
  }

  function FoldAt(o: Option<Row>, es: seq<Event>, m: string): Option<Row>
    decreases es
  {
    if es == [] then o else FoldAt(ApplyAt(o, es[0], m), es[1..], m)
  }

  lemma {:induction false} FoldIsPointwise(t: Table, es: seq<Event>, m: string)
    ensures At(Fold(t, es), m) == FoldAt(At(t, m), es, m)
    decreases es
  {
    if es != [] {
      FoldIsPointwise(Apply(t, es[0]), es[1..], m);
    }
  }

  /** A block that deletes m forgets whatever was there before it. */
  lemma {:induction false} DeleteForgets(o: Option<Row>, o': Option<Row>, es: seq<Event>, m: string)
    requires exists e <- es :: Deletes(e, m)
    ensures FoldAt(o, es, m) == FoldAt(o', es, m)
    decreases es
  {
    if !Deletes(es[0], m) {
      assert exists e <- es[1..] :: Deletes(e, m) by {
        var e :| e in es && Deletes(e, m);
        assert e in es[1..];
      }
      DeleteForgets(ApplyAt(o, es[0], m), ApplyAt(o', es[0], m), es[1..], m);
    }
  }

  function LastContent(es: seq<Event>, m: string, before: string): string {
    if es == [] then before
    else if Creates(es[|es| - 1], m) then es[|es| - 1].payload.value.content
    else LastContent(es[..|es| - 1], m, before)
  }

  /** Without a delete, an existing row keeps its room and user and ends with the last content. */
  lemma {:induction false} RowSurvives(r: Row, es: seq<Event>, m: string)
    requires forall e <- es :: !Deletes(e, m)
    ensures FoldAt(Some(r), es, m) == Some(r.(content := LastContent(es, m, r.content)))
    decreases es
  {
    if es != [] {
      var r' := ApplyAt(Some(r), es[0], m).value;
      RowSurvives(r', es[1..], m);
      LastContentCons(es, m, r.content, r'.content);
    }
  }

  lemma {:induction false} LastContentCons(es: seq<Event>, m: string, before: string, next: string)
    requires es != []
    requires next == if Creates(es[0], m) then es[0].payload.value.content else before
    ensures LastContent(es, m, before) == LastContent(es[1..], m, next)
    decreases es
  {
    if |es| > 1 {
      var init := es[..|es| - 1];
      assert es[1..][..|es| - 2] == init[1..];
      LastContentCons(init, m, before, next);
    }
  }

  lemma {:induction false} LastContentTwice(es: seq<Event>, m: string, before: string)
    ensures LastContent(es, m, LastContent(es, m, before)) == LastContent(es, m, before)
  {
    LastContentChoice(es, m, before, LastContent(es, m, before));
  }

  /** Either the block sets the content, whatever it was, or it leaves it alone, whatever it was. */
  lemma {:induction false} LastContentChoice(es: seq<Event>, m: string, a: string, b: string)
    ensures LastContent(es, m, a) == LastContent(es, m, b) || (LastContent(es, m, a) == a && LastContent(es, m, b) == b)
    decreases es
  {
    if es != [] {
      LastContentChoice(es[..|es| - 1], m, a, b);
    }
  }

  /** From no row: still none, or a row that already carries the block's last content. */
  lemma {:induction false} AbsentThenBlock(es: seq<Event>, m: string)
    requires forall e <- es :: !Deletes(e, m)
    ensures FoldAt(FoldAt(None, es, m), es, m) == FoldAt(None, es, m)
  {
    var o := FoldAt(None, es, m);
    if o.Some? {
      FirstCreate(es, m);
      RowSurvives(o.value, es, m);
      LastContentChoice(es, m, o.value.content, "");
    }
  }

  lemma {:induction false} FirstCreate(es: seq<Event>, m: string)
    requires forall e <- es :: !Deletes(e, m)
    requires FoldAt(None, es, m).Some?
    ensures forall c :: LastContent(es, m, c) == FoldAt(None, es, m).value.content
    decreases es
  {
    if !Creates(es[0], m) {
      FirstCreate(es[1..], m);
      forall c ensures LastContent(es, m, c) == FoldAt(None, es, m).value.content {
        LastContentCons(es, m, c, c);
      }
    } else {
      var r := ApplyAt(None, es[0], m).value;
      RowSurvives(r, es[1..], m);
      forall c ensures LastContent(es, m, c) == FoldAt(None, es, m).value.content {
        LastContentCons(es, m, c, r.content);
      }
    }
  }

  lemma {:induction false} BlockTwiceAt(o: Option<Row>, es: seq<Event>, m: string)
    ensures FoldAt(FoldAt(o, es, m), es, m) == FoldAt(o, es, m)
  {
    if exists e <- es :: Deletes(e, m) {
      DeleteForgets(FoldAt(o, es, m), o, es, m);
    } else if o.Some? {
      RowSurvives(o.value, es, m);
      RowSurvives(FoldAt(o, es, m).value, es, m);
      LastContentTwice(es, m, o.value.content);
    } else {
      AbsentThenBlock(es, m);
    }
  }

  // ---------- Main results ----------

  lemma {:induction false} TableExtensional(t: Table, u: Table)
    requires forall m :: At(t, m) == At(u, m)
    ensures t == u
  {
    forall m ensures m in t <==> m in u {
      assert At(t, m) == At(u, m);
    }
    forall m | m in t ensures t[m] == u[m] {
      assert At(t, m) == At(u, m);
    }
  }

  /** Delivering a whole block twice is delivering it once, from any table. */
  lemma {:induction false} BlockTwice(t: Table, es: seq<Event>)
    ensures Fold(Fold(t, es), es) == Fold(t, es)
  {
    forall m ensures At(Fold(Fold(t, es), es), m) == At(Fold(t, es), m) {
      FoldIsPointwise(t, es, m);
      FoldIsPointwise(Fold(t, es), es, m);
      BlockTwiceAt(At(t, m), es, m);
    }
    TableExtensional(Fold(Fold(t, es), es), Fold(t, es));
  }

  /** Delivering a prefix of a block first does not change what the whole block leaves. */
  lemma {:induction false} PrefixAbsorbed(t: Table, es: seq<Event>, k: nat)
    requires k <= |es|
    ensures Fold(Fold(t, es[..k]), es) == Fold(t, es)
  {
    var p, q := es[..k], es[k..];
    assert es == p + q;
    FoldAppend(Fold(t, p), p, q);
    BlockTwice(t, p);
    FoldAppend(t, p, q);
  }

  /** Any number of broken-off deliveries of a block, in any order of lengths, then the block itself. */
  lemma {:induction false} PrefixesAbsorbed(t: Table, es: seq<Event>, ks: seq<nat>)
    requires forall i :: 0 <= i < |ks| ==> ks[i] <= |es|
    ensures Fold(Attempts(t, es, ks), es) == Fold(t, es)
    decreases ks
  {
    if ks != [] {
      PrefixesAbsorbed(Fold(t, es[..ks[0]]), es, ks[1..]);
      PrefixAbsorbed(t, es, ks[0]);
    }
  }

  function Attempts(t: Table, es: seq<Event>, ks: seq<nat>): Table
    requires forall i :: 0 <= i < |ks| ==> ks[i] <= |es|
    decreases ks
  {
    if ks == [] then t else Attempts(Fold(t, es[..ks[0]]), es, ks[1..])
  }

  // ---------- What one event does, in plain terms ----------

  /**
   A decodable message_created puts the content under the message's id, in the room and for the user
   that stand there or else its own; a message_deleted takes the row of the aggregate away; every other
   event, and every other row, leaves the table as it is.
   */
  lemma EventDoes(t: Table, e: Event, m: string)
    ensures e.eventType == "message_created" && e.payload.Some? && e.payload.value.messageId == m
            ==> && At(Apply(t, e), m).Some? && Apply(t, e)[m].content == e.payload.value.content
                && Apply(t, e)[m].roomId == (if m in t then t[m].roomId else e.payload.value.roomId)
                && Apply(t, e)[m].userId == (if m in t then t[m].userId else e.payload.value.userId)
    ensures e.eventType == "message_deleted" && e.aggregateId == m ==> At(Apply(t, e), m) == None
    ensures !(e.eventType == "message_created" && e.payload.Some? && e.payload.value.messageId == m)
            && !(e.eventType == "message_deleted" && e.aggregateId == m)
            ==> At(Apply(t, e), m) == At(t, m)
  {
  }

  /** A dispatch fails exactly for a message_created that cannot be decoded, or when the database refuses a write. */
  lemma FailsIff(e: Event, dbFails: bool)
    ensures !Succeeds(e, dbFails)
            <==> || (e.eventType == "message_created" && (e.payload.None? || dbFails))
                 || (e.eventType == "message_deleted" && dbFails)
  {
  }
}
