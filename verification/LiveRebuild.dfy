/**
 A rebuild of the search projection beside a consumer that goes on polling and a log that goes on
 growing: after the TRUNCATE both deliver rows into the same table, one row at a time, in any
 interleaving. The rebuild gets through, or it stops: at a malformed row, where it must, or wherever
 a query, a reading or a delivery fails.
 */
module LiveRebuild {
  import EventLog
  import opened SearchProjection
  import opened Wrappers

  datatype Status = Running | Through | Stopped

  /**
   The rebuild has delivered the first `rebuilt` rows of the log since the TRUNCATE. The consumer
   has delivered the rows up to `read`, of which `covered` lie below its checkpoint.
   */
  datatype State = State(log: seq<Event>, table: Table, rebuilt: nat, status: Status, read: nat, covered: nat)

  datatype Action = Append(e: Event) | Rebuild | End | Stop | Consume | Commit | Restart

  /** The moment of the TRUNCATE. */
  ghost predicate Truncated(s: State) {
    s.table == map[] && s.rebuilt == 0 && s.status == Running && s.covered <= s.read <= |s.log|
  }

  /** A malformed row cannot be delivered; the rebuild ends when its query brings no more rows. */
  predicate Enabled(s: State, a: Action) {
    match a
    case Rebuild => s.status == Running && s.rebuilt < |s.log| && !Malformed(s.log[s.rebuilt])
    case End => s.status == Running && s.rebuilt == |s.log|
    case Stop => s.status == Running
    case Consume => s.read < |s.log|
    case _ => true
  }

  function Step(s: State, a: Action): State
    requires Enabled(s, a)
  {
    match a
    case Append(e) => s.(log := s.log + [e])
    case Rebuild => s.(table := Apply(s.table, s.log[s.rebuilt]), rebuilt := s.rebuilt + 1)
    case End => s.(status := Through)
    case Stop => s.(status := Stopped)
    case Consume => s.(table := Apply(s.table, s.log[s.read]), read := s.read + 1)
    case Commit => s.(covered := s.read)
    case Restart => s.(read := s.covered)
  }

  ghost predicate ValidRun(s: State, acts: seq<Action>)
    decreases acts
  {
    acts == [] || (Enabled(s, acts[0]) && ValidRun(Step(s, acts[0]), acts[1..]))
  }

  ghost function Run(s: State, acts: seq<Action>): State
    requires ValidRun(s, acts)
    decreases acts
  {
    if acts == [] then s else Run(Step(s, acts[0]), acts[1..])
  }

  ghost predicate Reaches(s: State, t: State) { exists acts :: ValidRun(s, acts) && Run(s, acts) == t }

  /** t is a state of some rebuild, from its TRUNCATE on. */
  ghost predicate Reachable(t: State) { exists s :: Truncated(s) && Reaches(s, t) }

  // ---------- One message id ----------

  predicate Touches(e: Event, m: string) { Creates(e, m) || Deletes(e, m) }

  /** Row i is the last of the first n that concern the message. */
  ghost predicate IsLast(log: seq<Event>, m: string, n: nat, i: nat) {
    i < n <= |log| && Touches(log[i], m) && forall j :: i < j < n ==> !Touches(log[j], m)
  }

  ghost predicate Untouched(log: seq<Event>, m: string, n: nat)
    requires n <= |log|
  {
    forall i :: 0 <= i < n ==> !Touches(log[i], m)
  }

  /** Create i is not followed by a delete among the first n rows. */
  ghost predicate Standing(log: seq<Event>, m: string, n: nat, i: nat) {
    i < n <= |log| && Creates(log[i], m) && forall j :: i < j < n ==> !Deletes(log[j], m)
  }

  ghost predicate RoomOf(r: Row, e: Event) {
    e.payload.Some? && r.roomId == e.payload.value.roomId && r.userId == e.payload.value.userId
  }

  /** What an event of the message leaves. */
  ghost predicate Left(o: Option<Row>, e: Event, m: string) {
    if Creates(e, m) then o.Some? && o.value.content == e.payload.value.content else o.None?
  }

  /** What the last of the first n rows that concern the message leaves; nothing, if none does. */
  ghost predicate LeftBy(o: Option<Row>, log: seq<Event>, m: string, n: nat)
    requires n <= |log|
  {
    && (forall i: nat :: IsLast(log, m, n, i) ==> Left(o, log[i], m))
    && (Untouched(log, m, n) ==> o.None?)
  }

  /** A row has its room and user from a create that stands among the first n rows. */
  ghost predicate RoomFrom(o: Option<Row>, log: seq<Event>, m: string, n: nat) {
    o.Some? ==> exists i: nat :: Standing(log, m, n, i) && RoomOf(o.value, log[i])
  }

  ghost predicate BehindDeletes(log: seq<Event>, m: string, low: nat) {
    forall i :: 0 <= i < |log| && Deletes(log[i], m) ==> i < low
  }

  ghost predicate BehindLast(log: seq<Event>, m: string, low: nat) {
    forall i :: 0 <= i < |log| && Touches(log[i], m) ==> i < low
  }

  // ---------- What every interleaving keeps ----------

  /** How far both have got; a rebuild that is through has nothing more to deliver. */
  function Low(s: State): nat { if s.status == Through || s.read < s.rebuilt then s.read else s.rebuilt }

  /** When both have passed all that concerns the message, its last event decides. */
  ghost predicate BothPassed(s: State, m: string) {
    var o := At(s.table, m);
    && (BehindLast(s.log, m, Low(s)) ==> LeftBy(o, s.log, m, |s.log|))
    && (BehindDeletes(s.log, m, Low(s)) ==> RoomFrom(o, s.log, m, |s.log|))
  }

  /** When the consumer has, it is that event or the last one the rebuild has delivered. */
  ghost predicate ConsumerPassed(s: State, m: string) {
    var o := At(s.table, m);
    && s.rebuilt <= |s.log|
    && (BehindLast(s.log, m, s.read) ==> LeftBy(o, s.log, m, |s.log|) || LeftBy(o, s.log, m, s.rebuilt))
    && (BehindDeletes(s.log, m, s.read) ==> RoomFrom(o, s.log, m, |s.log|) || RoomFrom(o, s.log, m, s.rebuilt))
  }

  ghost predicate Positions(s: State) {
    && s.covered <= s.read <= |s.log| && s.rebuilt <= |s.log|
    && forall i :: 0 <= i < s.rebuilt ==> !Malformed(s.log[i])
  }

  ghost predicate Inv(s: State, m: string) { Positions(s) && BothPassed(s, m) && ConsumerPassed(s, m) }

  lemma {:induction false} RunKeeps(s: State, acts: seq<Action>, m: string)
    requires Inv(s, m) && ValidRun(s, acts)
    ensures Inv(Run(s, acts), m)
    decreases acts
  {
    hide Inv, Step, Enabled;
    if acts != [] {
      StepKeeps(s, acts[0], m);
      RunKeeps(Step(s, acts[0]), acts[1..], m);
    }
  }

  // ---------- What is there when both are done? ----------

  /** The creates of the message that stand, among the first n rows or among all, name one room and one user. */
  ghost predicate Agrees(log: seq<Event>, m: string, n: nat) {
    forall i: nat, j: nat ::
      (Standing(log, m, n, i) || Standing(log, m, |log|, i)) && (Standing(log, m, n, j) || Standing(log, m, |log|, j))
      ==> && log[i].payload.value.roomId == log[j].payload.value.roomId
          && log[i].payload.value.userId == log[j].payload.value.userId
  }

  /** The rebuild is through, and so is the consumer. */
  ghost predicate Finished(t: State) { t.status == Through && t.read == |t.log| }

  /** The rebuild has stopped behind e rows, and the consumer is through. */
  ghost predicate StoppedBehind(t: State, e: nat) { t.status == Stopped && t.rebuilt == e && t.read == |t.log| }

  /** With both through, the table is the fold of the log, if standing creates agree. */
  lemma EndsInFold(t: State)
    requires Reachable(t) && Finished(t) && forall m :: Agrees(t.log, m, |t.log|)
    ensures t.table == Fold(map[], t.log)
  {
    assert t.log[..|t.log|] == t.log;
    forall m ensures At(t.table, m) == At(Fold(map[], t.log), m) {
      ReachableKeeps(t, m);
      FoldReflects(t.log, m, |t.log|);
      hide Reachable, LeftBy, RoomFrom, Fold;
      assert BehindLast(t.log, m, Low(t)) && BehindDeletes(t.log, m, Low(t));
      SameLeft(At(t.table, m), At(Fold(map[], t.log), m), t.log, m, |t.log|);
      if At(t.table, m).Some? {
        SameRoom(At(t.table, m), At(Fold(map[], t.log), m), t.log, m, |t.log|);
      }
    }
    TableExtensional(t.table, Fold(map[], t.log));
  }

  /**
   With the rebuild stopped and the consumer through, each message shows what its last event left,
   or what the last one that the rebuild reached did, in a room from a create that stands in either.
   */
  lemma StoppedLeaves(t: State, e: nat, m: string)
    requires Reachable(t) && StoppedBehind(t, e)
    ensures e <= |t.log|
    ensures LeftBy(At(t.table, m), t.log, m, |t.log|) || LeftBy(At(t.table, m), t.log, m, e)
    ensures RoomFrom(At(t.table, m), t.log, m, |t.log|) || RoomFrom(At(t.table, m), t.log, m, e)
  {
    ReachableKeeps(t, m);
    hide Reachable, LeftBy, RoomFrom;
    assert BehindLast(t.log, m, t.read) && BehindDeletes(t.log, m, t.read);
  }

  ghost predicate Clean(log: seq<Event>, e: nat)
    requires e <= |log|
  {
    forall i :: 0 <= i < e ==> !Malformed(log[i])
  }

  // ---------- Main results ----------

  /** A rebuild can get through a log exactly if no event of it is malformed. */
  lemma GetsThroughIff(log: seq<Event>)
    ensures (exists t :: Reachable(t) && t.status == Through && t.log == log && t.rebuilt == |log|)
            <==> Clean(log, |log|)
  {
    if Clean(log, |log|) {
      var t := Alone(log, |log|);
      ThenStep(t, End);
      var u := Step(t, End);
      assert Reachable(u) && u.status == Through;
    }
    forall t | Reachable(t) && t.log == log && t.rebuilt == |log| ensures Clean(log, |log|) {
      ReachableKeeps(t, "");
    }
  }

  /** The replay in batches says the same: with a database that works it succeeds exactly on such logs. */
  lemma ReplayGetsThroughIff(log: seq<Event>, queries: nat -> EventLog.Read, outage: nat -> bool)
    requires EventLog.Readable(queries) && EventLog.NeverOut(outage)
    ensures EventLog.Replayed(log, 0, 0, 1000, queries, outage).ok
            <==> exists t :: Reachable(t) && t.status == Through && t.log == log && t.rebuilt == |log|
  {
    EventLog.CleanReplay(log, 0, 0, 1000, queries, outage);
    GetsThroughIff(log);
  }

  /** Both are done: the rebuild is through or has met a malformed row, and the consumer has nothing left. */
  ghost predicate AtRest(t: State) {
    && t.read == |t.log|
    && (t.status == Through || (t.status == Stopped && t.rebuilt < |t.log| && Malformed(t.log[t.rebuilt])))
  }

  ghost predicate Sure(log: seq<Event>) {
    forall t :: Reachable(t) && AtRest(t) && t.log == log ==> t.status == Through && t.table == Fold(map[], log)
  }

  /**
   Beside a live consumer, and with a database that works, a rebuild is sure to get through and to
   leave the fold exactly if no event of the log is malformed and, for each message, the creates
   that no delete follows name one room and one user.
   */
  lemma SureIff(log: seq<Event>)
    ensures Sure(log) <==> Clean(log, |log|) && forall m :: Agrees(log, m, |log|)
  {
    if !Clean(log, |log|) {
      StopsShort(log);
    } else if m :| !Agrees(log, m, |log|) {
      var t := OtherRoom(log, m, |log|, At(Fold(map[], log), m));
      ThenStep(t, End);
      var u := Step(t, End);
      assert Reachable(u) && AtRest(u) && u.log == log && u.table != Fold(map[], log);
    } else {
      forall t | Reachable(t) && AtRest(t) && t.log == log ensures t.status == Through && t.table == Fold(map[], log) {
        ReachableKeeps(t, "");
        EndsInFold(t);
      }
    }
  }

  /** However a rebuild that stops behind e rows interleaves with a consumer that gets through, the fold comes out. */
  ghost predicate SureStopped(log: seq<Event>, e: nat) {
    forall t :: Reachable(t) && StoppedBehind(t, e) && t.log == log ==> t.table == Fold(map[], log)
  }

  /**
   A rebuild that stops behind e rows, whatever stops it, is sure to leave the fold exactly if the
   rows behind it change nothing in the end, and the creates that stand in either name one room and
   one user. With a consumer that had nothing left to deliver, the table is the fold of the e rows.
   */
  lemma SureStoppedIff(log: seq<Event>, e: nat)
    requires e <= |log| && Clean(log, e)
    ensures SureStopped(log, e)
            <==> Fold(map[], log[..e]) == Fold(map[], log) && forall m :: Agrees(log, m, e)
    ensures exists t :: Reachable(t) && StoppedBehind(t, e) && t.log == log && t.table == Fold(map[], log[..e])
  {
    var t := Alone(log, e);
    ThenStep(t, Stop);
    var u := Step(t, Stop);
    assert Reachable(u) && StoppedBehind(u, e) && u.log == log && u.table == Fold(map[], log[..e]);
    if Fold(map[], log[..e]) == Fold(map[], log) {
      if m :| !Agrees(log, m, e) {
        var t' := OtherRoom(log, m, e, At(Fold(map[], log), m));
        ThenStep(t', Stop);
        var u' := Step(t', Stop);
        assert Reachable(u') && StoppedBehind(u', e) && u'.log == log && u'.table != Fold(map[], log);
      } else {
        forall v | Reachable(v) && StoppedBehind(v, e) && v.log == log ensures v.table == Fold(map[], log) {
          StoppedInFold(v, e);
        }
      }
    }
  }

  // ---------- The interleavings that come out otherwise ----------

  /** Rebuild up to the last delete, let the consumer deliver from create x on, rebuild the rest. */
  lemma OvertakenByConsumer(log: seq<Event>, m: string, e: nat, x: nat) returns (t: State)
    requires e <= |log| && Clean(log, e) && Standing(log, m, |log|, x)
    ensures Reachable(t) && t.status == Running && t.log == log && t.rebuilt == e && t.read == |log|
    ensures At(t.table, m).Some? && RoomOf(At(t.table, m).value, log[x])
  {
    var p := LastDelete(log, m, e, e);
    var s1;
    s1, t := ByConsumer(log, e, p, x);
    hide Fold, Reachable, Standing, Clean;
    if p > 0 {
      NothingAfterDelete(map[], log, m, 0, p);
    } else {
      FoldEmpty(log);
    }
    SlicesKeepRoom(s1, log, m, x, |log|, p, e);
  }

  /** Rebuild up to create x, let the consumer deliver the last delete, rebuild on, let the consumer finish. */
  lemma OvertakenByRebuild(log: seq<Event>, m: string, e: nat, x: nat) returns (t: State)
    requires e <= |log| && Clean(log, e) && Standing(log, m, e, x) && !Standing(log, m, |log|, x)
    ensures Reachable(t) && t.status == Running && t.log == log && t.rebuilt == e && t.read == |log|
    ensures At(t.table, m).Some? && RoomOf(At(t.table, m).value, log[x])
  {
    var q := LastDelete(log, m, |log|, |log|);
    assert q > 0;
    var s1;
    s1, t := ByRebuild(log, e, x, q);
    hide Fold, Reachable, Standing, Clean;
    NothingAfterDelete(s1, log, m, q - 1, q);
    SlicesKeepRoom(Fold(s1, log[q - 1..q]), log, m, x, e, q, |log|);
  }

  // ---------- Rows, one after the other ----------

  lemma {:induction false} LastExists(log: seq<Event>, m: string, n: nat)
    requires n <= |log|
    ensures Untouched(log, m, n) || exists i: nat :: IsLast(log, m, n, i)
    decreases n
  {
    if n > 0 {
      if Touches(log[n - 1], m) {
        assert IsLast(log, m, n, n - 1);
      } else {
        LastExists(log, m, n - 1);
        var before := n - 1;
        if i: nat :| IsLast(log, m, before, i) {
          assert IsLast(log, m, n, i);
        }
      }
    }
  }

  /** One more row delivered to a table that reflects the rows before it. */
  lemma LeftByNext(o: Option<Row>, log: seq<Event>, m: string, n: nat)
    requires n < |log| && LeftBy(o, log, m, n)
    ensures LeftBy(ApplyAt(o, log[n], m), log, m, n + 1)
  {
    if Touches(log[n], m) {
      OwnLeft(o, log, m, n);
    } else {
      LastAmong(log, m, n);
      hide IsLast, Untouched, Left;
      assert ApplyAt(o, log[n], m) == o;
    }
  }

  /** A row that does not concern the message changes neither which row is its last nor whether there is one. */
  lemma LastAmong(log: seq<Event>, m: string, n: nat)
    requires n < |log| && !Touches(log[n], m)
    ensures forall i: nat :: IsLast(log, m, n + 1, i) <==> IsLast(log, m, n, i)
    ensures Untouched(log, m, n + 1) <==> Untouched(log, m, n)
  {
    hide Touches;
    var n' := n + 1;
    forall i: nat ensures IsLast(log, m, n', i) <==> IsLast(log, m, n, i) {}
  }

  lemma RoomFromNext(o: Option<Row>, log: seq<Event>, m: string, n: nat)
    requires n < |log| && RoomFrom(o, log, m, n)
    ensures RoomFrom(ApplyAt(o, log[n], m), log, m, n + 1)
  {
    if Creates(log[n], m) {
      assert Standing(log, m, n + 1, n);
    }
    if !Deletes(log[n], m) {
      forall i: nat | Standing(log, m, n, i) ensures Standing(log, m, n + 1, i) {}
    }
  }

  /** The fold of the first n rows is what the last of them leaves, in a room from one that stands. */
  lemma {:induction false} FoldReflects(log: seq<Event>, m: string, n: nat)
    requires n <= |log|
    ensures LeftBy(At(Fold(map[], log[..n]), m), log, m, n)
    ensures RoomFrom(At(Fold(map[], log[..n]), m), log, m, n)
    decreases n
  {
    if n > 0 {
      FoldReflects(log, m, n - 1);
      FoldOne(log, n);
      var o := At(Fold(map[], log[..n - 1]), m);
      LeftByNext(o, log, m, n - 1);
      RoomFromNext(o, log, m, n - 1);
      assert At(Apply(Fold(map[], log[..n - 1]), log[n - 1]), m) == ApplyAt(o, log[n - 1], m);
    }
  }

  lemma FoldOne(log: seq<Event>, k: nat)
    requires 0 < k <= |log|
    ensures Fold(map[], log[..k]) == Apply(Fold(map[], log[..k - 1]), log[k - 1])
  {
    assert log[..k] == log[..k - 1] + [log[k - 1]];
    FoldAppend(map[], log[..k - 1], [log[k - 1]]);
    assert [log[k - 1]][1..] == [];
  }

  /** A delivered row, and what concerns the message lies at or before it. */
  lemma DeliverLast(o: Option<Row>, log: seq<Event>, m: string, i: nat)
    requires i < |log| && BehindLast(log, m, i + 1)
    requires BehindLast(log, m, i) ==> LeftBy(o, log, m, |log|)
    ensures LeftBy(ApplyAt(o, log[i], m), log, m, |log|)
  {
    if Touches(log[i], m) {
      assert IsLast(log, m, |log|, i);
      forall j: nat | IsLast(log, m, |log|, j) ensures j == i {}
    }
  }

  /** A delivered row behind which the message is not touched leaves the rest as it was. */
  lemma DeliverBehind(o: Option<Row>, log: seq<Event>, m: string, low: nat, i: nat)
    requires low <= i < |log| && BehindLast(log, m, low)
    ensures ApplyAt(o, log[i], m) == o
  {
  }

  lemma DeliverRoom(o: Option<Row>, log: seq<Event>, m: string, i: nat)
    requires i < |log| && BehindDeletes(log, m, i + 1)
    requires BehindDeletes(log, m, i) ==> RoomFrom(o, log, m, |log|)
    ensures RoomFrom(ApplyAt(o, log[i], m), log, m, |log|)
  {
    if Creates(log[i], m) {
      assert Standing(log, m, |log|, i);
    }
  }

  lemma DeliverKeepsBoth(s: State, a: Action, m: string)
    requires Positions(s) && BothPassed(s, m) && Enabled(s, a) && (a.Rebuild? || a.Consume?)
    ensures BothPassed(Step(s, a), m)
  {
    var s' := Step(s, a);
    var i := if a.Rebuild? then s.rebuilt else s.read;
    var o, o', low, low' := At(s.table, m), At(s'.table, m), Low(s), Low(s');
    assert o' == ApplyAt(o, s.log[i], m);
    assert low <= i && low <= low' <= low + 1 && (low' == low + 1 ==> low == i);
    if BehindLast(s.log, m, low') {
      if low' == low {
        DeliverBehind(o, s.log, m, low, i);
      } else {
        DeliverLast(o, s.log, m, i);
      }
    }
    if BehindDeletes(s.log, m, low') {
      assert BehindDeletes(s.log, m, i + 1);
      assert low' == low ==> BehindDeletes(s.log, m, low);
      DeliverRoom(o, s.log, m, i);
    }
  }

  lemma RebuildKeepsLeft(o: Option<Row>, log: seq<Event>, m: string, i: nat)
    requires i < |log| && (LeftBy(o, log, m, |log|) || LeftBy(o, log, m, i))
    ensures var o' := ApplyAt(o, log[i], m); LeftBy(o', log, m, |log|) || LeftBy(o', log, m, i + 1)
  {
    if LeftBy(o, log, m, i) {
      LeftByNext(o, log, m, i);
    } else if Touches(log[i], m) {
      OwnLeft(o, log, m, i);
    }
  }

  lemma RebuildKeepsRoom(o: Option<Row>, log: seq<Event>, m: string, i: nat)
    requires i < |log| && (RoomFrom(o, log, m, |log|) || RoomFrom(o, log, m, i))
    ensures var o' := ApplyAt(o, log[i], m); RoomFrom(o', log, m, |log|) || RoomFrom(o', log, m, i + 1)
  {
    if RoomFrom(o, log, m, i) {
      RoomFromNext(o, log, m, i);
    } else if !Deletes(log[i], m) {
      var j: nat :| Standing(log, m, |log|, j) && RoomOf(o.value, log[j]);
      assert ApplyAt(o, log[i], m).Some? && RoomOf(ApplyAt(o, log[i], m).value, log[j]);
    }
  }

  lemma RebuildKeepsConsumer(s: State, m: string)
    requires Positions(s) && ConsumerPassed(s, m) && Enabled(s, Rebuild)
    ensures ConsumerPassed(Step(s, Rebuild), m)
  {
    hide LeftBy, RoomFrom;
    var s' := Step(s, Rebuild);
    var o, i := At(s.table, m), s.rebuilt;
    assert At(s'.table, m) == ApplyAt(o, s.log[i], m);
    if BehindLast(s.log, m, s.read) {
      RebuildKeepsLeft(o, s.log, m, i);
    }
    if BehindDeletes(s.log, m, s.read) {
      RebuildKeepsRoom(o, s.log, m, i);
    }
  }

  lemma OwnLeft(o: Option<Row>, log: seq<Event>, m: string, n: nat)
    requires n < |log| && Touches(log[n], m)
    ensures LeftBy(ApplyAt(o, log[n], m), log, m, n + 1)
  {
    var n' := n + 1;
    forall i: nat | IsLast(log, m, n', i) ensures i == n {}
    assert !Untouched(log, m, n');
  }

  lemma ConsumeKeepsConsumer(s: State, m: string)
    requires Positions(s) && ConsumerPassed(s, m) && Enabled(s, Consume)
    ensures ConsumerPassed(Step(s, Consume), m)
  {
    var s' := Step(s, Consume);
    var o, o', i := At(s.table, m), At(s'.table, m), s.read;
    assert o' == ApplyAt(o, s.log[i], m);
    if BehindLast(s.log, m, i + 1) {
      if BehindLast(s.log, m, i) {
        DeliverBehind(o, s.log, m, i, i);
      } else {
        DeliverLast(o, s.log, m, i);
      }
    }
    if BehindDeletes(s.log, m, i + 1) {
      if BehindDeletes(s.log, m, i) && o.Some? {
        assert o'.Some? && o'.value.roomId == o.value.roomId && o'.value.userId == o.value.userId;
      } else {
        DeliverRoom(o, s.log, m, i);
      }
    }
  }

  lemma AppendBehind(log: seq<Event>, e: Event, m: string, low: nat)
    requires low <= |log|
    ensures BehindLast(log + [e], m, low) ==> BehindLast(log, m, low) && !Touches(e, m)
    ensures BehindDeletes(log + [e], m, low) ==> BehindDeletes(log, m, low) && !Deletes(e, m)
  {
    var log' := log + [e];
    assert log'[|log|] == e;
    assert forall i :: 0 <= i < |log| ==> log'[i] == log[i];
  }

  lemma AppendKeeps(s: State, e: Event, m: string)
    requires Inv(s, m)
    ensures Inv(Step(s, Append(e)), m)
  {
    hide LeftBy, RoomFrom, BehindLast, BehindDeletes, Touches, Deletes, Malformed;
    var o := At(s.table, m);
    AppendPrefix(o, s.log, e, m, s.rebuilt);
    if !Touches(e, m) {
      AppendUntouched(o, s.log, e, m);
    }
    if !Deletes(e, m) {
      AppendUndeleted(o, s.log, e, m);
    }
    AppendBehind(s.log, e, m, Low(s));
    AppendBehind(s.log, e, m, s.read);
  }

  lemma AppendPrefix(o: Option<Row>, log: seq<Event>, e: Event, m: string, n: nat)
    requires n <= |log|
    ensures LeftBy(o, log, m, n) ==> LeftBy(o, log + [e], m, n)
    ensures RoomFrom(o, log, m, n) ==> RoomFrom(o, log + [e], m, n)
  {
    var log' := log + [e];
    assert forall i :: 0 <= i < |log| ==> log'[i] == log[i];
    assert forall i: nat :: IsLast(log', m, n, i) <==> IsLast(log, m, n, i);
    assert forall i: nat :: Standing(log', m, n, i) <==> Standing(log, m, n, i);
  }

  lemma AppendUntouched(o: Option<Row>, log: seq<Event>, e: Event, m: string)
    requires !Touches(e, m)
    ensures LeftBy(o, log, m, |log|) ==> LeftBy(o, log + [e], m, |log| + 1)
  {
    var log' := log + [e];
    assert forall i :: 0 <= i < |log| ==> log'[i] == log[i];
    assert forall i: nat :: IsLast(log', m, |log| + 1, i) ==> IsLast(log, m, |log|, i);
  }

  lemma AppendUndeleted(o: Option<Row>, log: seq<Event>, e: Event, m: string)
    requires !Deletes(e, m)
    ensures RoomFrom(o, log, m, |log|) ==> RoomFrom(o, log + [e], m, |log| + 1)
  {
    var log' := log + [e];
    assert forall i :: 0 <= i < |log| ==> log'[i] == log[i];
    assert forall i: nat :: Standing(log, m, |log|, i) ==> Standing(log', m, |log| + 1, i);
  }

  lemma StepKeeps(s: State, a: Action, m: string)
    requires Inv(s, m) && Enabled(s, a)
    ensures Inv(Step(s, a), m)
  {
    match a
    case Append(e) => AppendKeeps(s, e, m);
    case Rebuild =>
      hide BothPassed, ConsumerPassed;
      DeliverKeepsBoth(s, a, m);
      RebuildKeepsConsumer(s, m);
    case Consume =>
      hide BothPassed, ConsumerPassed;
      DeliverKeepsBoth(s, a, m);
      ConsumeKeepsConsumer(s, m);
    case _ =>
      hide LeftBy, RoomFrom;
      assert BehindLast(s.log, m, Low(Step(s, a))) ==> BehindLast(s.log, m, Low(s));
      assert BehindDeletes(s.log, m, Low(Step(s, a))) ==> BehindDeletes(s.log, m, Low(s));
      assert BehindLast(s.log, m, Step(s, a).read) ==> BehindLast(s.log, m, s.read);
      assert BehindDeletes(s.log, m, Step(s, a).read) ==> BehindDeletes(s.log, m, s.read);
  }

  lemma ReachableKeeps(t: State, m: string)
    requires Reachable(t)
    ensures Inv(t, m)
  {
    var s :| Truncated(s) && Reaches(s, t);
    var acts :| ValidRun(s, acts) && Run(s, acts) == t;
    assert Inv(s, m);
    RunKeeps(s, acts, m);
  }

  lemma SameLeft(o: Option<Row>, o': Option<Row>, log: seq<Event>, m: string, n: nat)
    requires n <= |log| && LeftBy(o, log, m, n) && LeftBy(o', log, m, n)
    ensures o.Some? == o'.Some? && (o.Some? ==> o.value.content == o'.value.content)
  {
    LastExists(log, m, n);
    if i: nat :| IsLast(log, m, n, i) {
      assert Left(o, log[i], m) && Left(o', log[i], m);
    }
  }

  lemma SameRoom(o: Option<Row>, o': Option<Row>, log: seq<Event>, m: string, n: nat)
    requires Agrees(log, m, n) && RoomFrom(o', log, m, |log|)
    requires RoomFrom(o, log, m, |log|) || RoomFrom(o, log, m, n)
    requires o.Some? && o'.Some?
    ensures o.value.roomId == o'.value.roomId && o.value.userId == o'.value.userId
  {
    var j: nat :| Standing(log, m, |log|, j) && RoomOf(o'.value, log[j]);
    var k := if RoomFrom(o, log, m, n) then n else |log|;
    var i: nat :| Standing(log, m, k, i) && RoomOf(o.value, log[i]);
  }

  lemma StoppedInFold(t: State, e: nat)
    requires Reachable(t) && StoppedBehind(t, e) && e <= |t.log| && Fold(map[], t.log[..e]) == Fold(map[], t.log)
    requires forall m :: Agrees(t.log, m, e)
    ensures t.table == Fold(map[], t.log)
  {
    assert t.log[..|t.log|] == t.log;
    var f := Fold(map[], t.log);
    forall m ensures At(t.table, m) == At(f, m) {
      StoppedLeaves(t, e, m);
      FoldReflects(t.log, m, |t.log|);
      FoldReflects(t.log, m, e);
      hide Reachable, LeftBy, RoomFrom, Fold;
      var n := if LeftBy(At(t.table, m), t.log, m, e) then e else |t.log|;
      SameLeft(At(t.table, m), At(f, m), t.log, m, n);
      if At(f, m).Some? {
        SameRoom(At(t.table, m), At(f, m), t.log, m, e);
      }
    }
    TableExtensional(t.table, f);
  }

  // ---------- Building runs ----------

  lemma {:induction false} RunAppend(s: State, a: seq<Action>, b: seq<Action>)
    requires ValidRun(s, a) && ValidRun(Run(s, a), b)
    ensures ValidRun(s, a + b) && Run(s, a + b) == Run(Run(s, a), b)
    decreases a
  {
    hide Enabled, Step;
    if a == [] {
      assert a + b == b;
    } else {
      assert (a + b)[1..] == a[1..] + b;
      RunAppend(Step(s, a[0]), a[1..], b);
    }
  }

  lemma Via(s: State, t: State, u: State)
    requires Reaches(s, t) && Reaches(t, u)
    ensures Reaches(s, u)
  {
    hide Enabled, Step;
    var a :| ValidRun(s, a) && Run(s, a) == t;
    var b :| ValidRun(t, b) && Run(t, b) == u;
    RunAppend(s, a, b);
  }

  lemma InNoStep(s: State)
    ensures Reaches(s, s)
  {
    assert ValidRun(s, []) && Run(s, []) == s;
  }

  lemma InOneStep(s: State, a: Action)
    requires Enabled(s, a)
    ensures Reaches(s, Step(s, a))
  {
    var t := Step(s, a);
    assert ValidRun(t, []) && Run(t, []) == t;
    assert [a][1..] == [];
    assert ValidRun(s, [a]);
    assert Run(s, [a]) == Run(t, [a][1..]);
  }

  /** The rebuild delivers its next n rows, none of them malformed. */
  lemma {:induction false} Rebuilding(s: State, n: nat) returns (t: State)
    requires s.status == Running && s.rebuilt + n <= |s.log|
    requires forall i :: s.rebuilt <= i < s.rebuilt + n ==> !Malformed(s.log[i])
    ensures Reaches(s, t)
    ensures t == s.(table := Fold(s.table, s.log[s.rebuilt..s.rebuilt + n]), rebuilt := s.rebuilt + n)
    decreases n
  {
    if n == 0 {
      InNoStep(s);
      t := s;
    } else {
      var s1 := Step(s, Rebuild);
      InOneStep(s, Rebuild);
      t := Rebuilding(s1, n - 1);
      Via(s, s1, t);
      FoldNext(s.table, s.log, s.rebuilt, s.rebuilt + n);
    }
  }

  lemma {:induction false} Consuming(s: State, n: nat) returns (t: State)
    requires s.read + n <= |s.log|
    ensures Reaches(s, t)
    ensures t == s.(table := Fold(s.table, s.log[s.read..s.read + n]), read := s.read + n)
    decreases n
  {
    if n == 0 {
      InNoStep(s);
      t := s;
    } else {
      var s1 := Step(s, Consume);
      InOneStep(s, Consume);
      t := Consuming(s1, n - 1);
      Via(s, s1, t);
      FoldNext(s.table, s.log, s.read, s.read + n);
    }
  }

  lemma FoldNext(t: Table, log: seq<Event>, a: nat, b: nat)
    requires a < b <= |log|
    ensures Fold(t, log[a..b]) == Fold(Apply(t, log[a]), log[a + 1..b])
  {
    assert log[a..b][1..] == log[a + 1..b];
  }

  /** The rebuild delivers e rows beside a consumer that has nothing left to deliver. */
  lemma Alone(log: seq<Event>, e: nat) returns (t: State)
    requires e <= |log| && Clean(log, e)
    ensures Reachable(t) && t == State(log, Fold(map[], log[..e]), e, Running, |log|, |log|)
  {
    var s := State(log, map[], 0, Running, |log|, |log|);
    t := Rebuilding(s, e);
    assert log[0..e] == log[..e];
  }

  lemma ThenStep(t: State, a: Action)
    requires Reachable(t) && Enabled(t, a)
    ensures Reachable(Step(t, a))
  {
    hide Enabled, Step;
    var s :| Truncated(s) && Reaches(s, t);
    InOneStep(t, a);
    Via(s, t, Step(t, a));
  }

  // ---------- The room that comes first ----------

  lemma {:induction false} LastDelete(log: seq<Event>, m: string, n: nat, end: nat) returns (p: nat)
    requires n <= end <= |log| && forall i :: n <= i < end ==> !Deletes(log[i], m)
    ensures p <= n && (p == 0 || Deletes(log[p - 1], m))
    ensures forall i :: p <= i < end ==> !Deletes(log[i], m)
    decreases n
  {
    if n == 0 || Deletes(log[n - 1], m) {
      p := n;
    } else {
      p := LastDelete(log, m, n - 1, end);
    }
  }

  lemma NothingAfterDelete(t: Table, log: seq<Event>, m: string, a: nat, p: nat)
    requires a < p <= |log| && Deletes(log[p - 1], m)
    ensures At(Fold(t, log[a..p]), m) == None
  {
    assert log[a..p] == log[a..p - 1] + [log[p - 1]];
    FoldAppend(t, log[a..p - 1], [log[p - 1]]);
    assert [log[p - 1]][1..] == [];
  }

  lemma FoldEmpty(log: seq<Event>)
    ensures Fold(map[], log[0..0]) == map[]
  {
  }

  ghost predicate DeleteFree(es: seq<Event>, m: string) { forall e <- es :: !Deletes(e, m) }

  /** Into a table without the message: the room of the first create stays through all that brings no delete. */
  lemma FirstRoomStays(t: Table, first: seq<Event>, later: seq<Event>, m: string)
    requires At(t, m) == None && first != [] && Creates(first[0], m)
    requires DeleteFree(first[1..], m) && DeleteFree(later, m)
    ensures var o := At(Fold(Fold(t, first), later), m); o.Some? && RoomOf(o.value, first[0])
  {
    FoldIsPointwise(t, first, m);
    FoldIsPointwise(Fold(t, first), later, m);
    var r := ApplyAt(None, first[0], m).value;
    RowSurvives(r, first[1..], m);
    RowSurvives(FoldAt(Some(r), first[1..], m).value, later, m);
  }

  lemma SliceDeleteFree(log: seq<Event>, m: string, a: nat, b: nat)
    requires a <= b <= |log| && forall i :: a <= i < b ==> !Deletes(log[i], m)
    ensures DeleteFree(log[a..b], m)
  {
    hide Deletes;
    forall e <- log[a..b] ensures !Deletes(e, m) {
      var i :| 0 <= i < b - a && log[a..b][i] == e;
      assert log[a + i] == e;
    }
  }

  /** The rows a..b, the first of them a create that no delete follows, and then the rows c..d. */
  lemma SlicesKeepRoom(t: Table, log: seq<Event>, m: string, a: nat, b: nat, c: nat, d: nat)
    requires At(t, m) == None && Standing(log, m, b, a) && c <= d <= |log|
    requires forall i :: c <= i < d ==> !Deletes(log[i], m)
    ensures var o := At(Fold(Fold(t, log[a..b]), log[c..d]), m); o.Some? && RoomOf(o.value, log[a])
  {
    SliceDeleteFree(log, m, a + 1, b);
    SliceDeleteFree(log, m, c, d);
    hide DeleteFree, Fold;
    assert log[a..b][1..] == log[a + 1..b];
    FirstRoomStays(t, log[a..b], log[c..d], m);
  }

  lemma ByConsumer(log: seq<Event>, e: nat, p: nat, x: nat) returns (s1: Table, t: State)
    requires p <= e <= |log| && Clean(log, e) && x <= |log|
    ensures Reachable(t) && t.status == Running && t.log == log && t.rebuilt == e && t.read == |log|
    ensures s1 == Fold(map[], log[0..p]) && t.table == Fold(Fold(s1, log[x..|log|]), log[p..e])
  {
    hide Fold, Reaches;
    var s := State(log, map[], 0, Running, x, x);
    var u := Rebuilding(s, p);
    var v := Consuming(u, |log| - x);
    t := Rebuilding(v, e - p);
    Via(s, u, v);
    Via(s, v, t);
    s1 := u.table;
    assert p + (e - p) == e && x + (|log| - x) == |log| && 0 + p == p;
    assert Truncated(s);
  }

  lemma ByRebuild(log: seq<Event>, e: nat, x: nat, q: nat) returns (s1: Table, t: State)
    requires x <= e <= |log| && Clean(log, e) && 0 < q <= |log|
    ensures Reachable(t) && t.status == Running && t.log == log && t.rebuilt == e && t.read == |log|
    ensures t.table == Fold(Fold(Fold(s1, log[q - 1..q]), log[x..e]), log[q..|log|])
  {
    hide Fold, Reaches;
    var s := State(log, map[], 0, Running, q - 1, q - 1);
    var u := Rebuilding(s, x);
    var v := Consuming(u, 1);
    var w := Rebuilding(v, e - x);
    t := Consuming(w, |log| - q);
    Via(s, u, v);
    Via(s, v, w);
    Via(s, w, t);
    s1 := u.table;
    assert x + (e - x) == e && q + (|log| - q) == |log|;
    assert Truncated(s);
  }

  /** A room that standing creates disagree on can come out otherwise than a given row has it. */
  lemma OtherRoom(log: seq<Event>, m: string, e: nat, o: Option<Row>) returns (t: State)
    requires e <= |log| && Clean(log, e) && !Agrees(log, m, e)
    ensures Reachable(t) && t.status == Running && t.log == log && t.rebuilt == e && t.read == |log|
    ensures At(t.table, m) != o
  {
    var i: nat, j: nat :|
      && (Standing(log, m, e, i) || Standing(log, m, |log|, i))
           && (Standing(log, m, e, j) || Standing(log, m, |log|, j))
      && !(log[i].payload.value.roomId == log[j].payload.value.roomId
           && log[i].payload.value.userId == log[j].payload.value.userId);
    var x := if o.Some? && RoomOf(o.value, log[i]) then j else i;
    if Standing(log, m, |log|, x) {
      t := OvertakenByConsumer(log, m, e, x);
    } else {
      t := OvertakenByRebuild(log, m, e, x);
    }
  }

  lemma {:induction false} FirstMalformed(log: seq<Event>, n: nat) returns (f: nat)
    requires n <= |log| && Clean(log, n) && !Clean(log, |log|)
    ensures f < |log| && Malformed(log[f]) && Clean(log, f)
    decreases |log| - n
  {
    if Malformed(log[n]) {
      f := n;
    } else {
      f := FirstMalformed(log, n + 1);
    }
  }

  lemma StopsShort(log: seq<Event>)
    requires !Clean(log, |log|)
    ensures !Sure(log)
  {
    var f := FirstMalformed(log, 0);
    var t := Alone(log, f);
    ThenStep(t, Stop);
    var u := Step(t, Stop);
    assert Reachable(u) && AtRest(u) && u.log == log && u.status == Stopped;
  }

  // ---------- The consumer beside the rebuild ----------

  /** A restart takes the consumer back to where it last committed, whatever lay between. */
  lemma {:induction false} RestartRereads(s: State, acts: seq<Action>)
    requires ValidRun(s, acts) && Commit !in acts
    ensures Run(s, acts).covered == s.covered && ValidRun(Run(s, acts), [Restart])
    ensures Run(Run(s, acts), [Restart]).read == s.covered
    ensures Run(s, [Commit]).covered == s.read && Run(s, [Commit]).table == s.table
    decreases acts
  {
    if acts != [] {
      RestartRereads(Step(s, acts[0]), acts[1..]);
    }
    assert Run(Run(s, acts), [Restart]) == Step(Run(s, acts), Restart);
    assert Run(s, [Commit]) == Step(s, Commit);
  }
}
