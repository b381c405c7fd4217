/**
 The connection manager: the index of connections by user, the index by room, the fan-out
 into the delivery channel, and the delivery of one job.
 */
module Registry {
  import opened Wrappers
  import RetryQueue

  const CAPACITY := 8192

  datatype Transport = WebSocket | Sse

  datatype Client = Client(conn: string, user: string, room: string, transport: Transport)

  type Conns = map<string, Client>

  datatype Index = Index(users: map<string, Conns>, rooms: map<string, map<string, Conns>>)

  // ---------- Register and Unregister ----------

  function Inner<K, V>(m: map<K, map<string, V>>, k: K): map<string, V> { if k in m then m[k] else map[] }

  function AddConn(m: map<string, Conns>, c: Client): map<string, Conns> {
    m[c.user := Inner(m, c.user)[c.conn := c]]
  }

  /** The connection is taken out, and the user with it when it was the last one. */
  function RemoveConn(m: map<string, Conns>, c: Client): map<string, Conns> {
    if c.user !in m then m
    else
      var left := m[c.user] - {c.conn};
      if left == map[] then m - {c.user} else m[c.user := left]
  }

  function AfterRegister(x: Index, c: Client): Index {
    Index(AddConn(x.users, c), x.rooms[c.room := AddConn(Inner(x.rooms, c.room), c)])
  }

  function AfterUnregister(x: Index, c: Client): Index {
    var rooms :=
      if c.room !in x.rooms then x.rooms
      else
        var left := RemoveConn(x.rooms[c.room], c);
        if left == map[] then x.rooms - {c.room} else x.rooms[c.room := left];
    Index(RemoveConn(x.users, c), rooms)
  }

  function Find(m: map<string, Conns>, user: string, conn: string): Option<Client> {
    if user in m && conn in m[user] then Some(m[user][conn]) else None
  }

  predicate InConns(m: map<string, Conns>, c: Client) { Find(m, c.user, c.conn) == Some(c) }

  predicate InRooms(x: Index, c: Client) { InConns(Inner(x.rooms, c.room), c) }

  /** m holds the clients of `live`, each under its own keys, and no inner map is empty. */
  ghost predicate Tracks(m: map<string, Conns>, live: set<Client>) {
    && (forall u <- m :: m[u] != map[])
    && (forall u, k :: Find(m, u, k).Some? ==>
                         Find(m, u, k).value in live && Find(m, u, k).value.user == u && Find(m, u, k).value.conn == k)
    && (forall c <- live :: InConns(m, c))
  }

  function OfRoom(live: set<Client>, room: string): set<Client> { set c <- live | c.room == room }

  /** Both indexes hold exactly the live clients, and no empty map. */
  ghost predicate Represents(x: Index, live: set<Client>) {
    && Tracks(x.users, live)
    && (forall r <- x.rooms :: x.rooms[r] != map[])
    && (forall r :: Tracks(Inner(x.rooms, r), OfRoom(live, r)))
  }

  predicate IsWebSocket(c: Client) { c.transport == WebSocket }

  function JobFor(messageId: string, c: Client): RetryQueue.Job {
    RetryQueue.Job(RetryQueue.Pair(messageId, c.user), c.conn, 0)
  }

  /** The channel after one non-blocking send for each of the clients. */
  function Enqueued(channel: seq<RetryQueue.Job>, messageId: string, clients: seq<Client>): seq<RetryQueue.Job>
    decreases clients
  {
    if clients == [] then channel
    else
      var channel' := Enqueued(channel, messageId, clients[..|clients| - 1]);
      if |channel'| < CAPACITY then channel' + [JobFor(messageId, clients[|clients| - 1])] else channel'
  }

  ghost predicate Distinct(clients: seq<Client>) {
    forall i, j :: 0 <= i < j < |clients| ==> clients[i] != clients[j]
  }

  class ConnectionManager {
    var users: map<string, Conns>
    var rooms: map<string, map<string, Conns>>
    var deliveryQueue: seq<RetryQueue.Job>
    const retry: RetryQueue.RetryWorker

    constructor (retry: RetryQueue.RetryWorker)
      ensures Maps() == Index(map[], map[]) && deliveryQueue == [] && this.retry == retry
    {
      this.retry := retry;
      users, rooms, deliveryQueue := map[], map[], [];
    }

    ghost function Maps(): Index
      reads this
    {
      Index(users, rooms)
    }

    method Register(c: Client)
      modifies this`users, this`rooms
      ensures Maps() == AfterRegister(old(Maps()), c)
    {
      var conns := if c.user in users then users[c.user] else map[];
      users := users[c.user := conns[c.conn := c]];
      SubscribeToRoom(c);
    }

    method SubscribeToRoom(c: Client)
      modifies this`rooms
      ensures rooms == old(rooms)[c.room := AddConn(Inner(old(rooms), c.room), c)]
    {
      var subs := if c.room in rooms then rooms[c.room] else map[];
      if c.user !in subs {
        subs := subs[c.user := map[]];
      }
      subs := subs[c.user := subs[c.user][c.conn := c]];
      assert subs == AddConn(Inner(rooms, c.room), c);
      rooms := rooms[c.room := subs];
    }

    method Unregister(c: Client)
      modifies this`users, this`rooms
      ensures Maps() == AfterUnregister(old(Maps()), c)
    {
      if c.user in users {
        var conns := users[c.user] - {c.conn};
        users := users[c.user := conns];
        if conns == map[] {
          users := users - {c.user};
          assert users == old(users) - {c.user};
        }
      }
      UnsubscribeFromRoom(c);
    }

    method UnsubscribeFromRoom(c: Client)
      modifies this`rooms
      ensures rooms == AfterUnregister(Index(map[], old(rooms)), c).rooms
    {
      if c.room !in rooms {
        return;
      }
      var subs := rooms[c.room];
      if c.user in subs {
        var left := subs[c.user] - {c.conn};
        subs := subs[c.user := left];
        if left == map[] {
          subs := subs - {c.user};
          assert subs == old(rooms)[c.room] - {c.user};
        }
      }
      rooms := rooms[c.room := subs];
      if subs == map[] {
        rooms := rooms - {c.room};
        assert rooms == old(rooms) - {c.room};
      }
    }

    /** Go iterates over a map in any order, so the clients come in any order. */
    method CollectUser(conns: Conns, ghost user: string) returns (clients: seq<Client>)
      requires forall k <- conns :: conns[k].conn == k && conns[k].user == user
      ensures Distinct(clients)
      ensures forall c :: c in clients <==> IsWebSocket(c) && c.conn in conns && conns[c.conn] == c
    {
      clients := [];
      var todo := conns.Keys;
      while todo != {}
        invariant todo <= conns.Keys && Distinct(clients)
        invariant forall c :: c in clients <==> IsWebSocket(c) && c.conn in conns.Keys - todo && conns[c.conn] == c
        decreases |todo|
      {
        var k :| k in todo;
        todo := todo - {k};
        if conns[k].transport != WebSocket {
          continue;
        }
        clients := clients + [conns[k]];
      }
    }

    method CollectRoom(subs: map<string, Conns>, ghost live: set<Client>) returns (clients: seq<Client>)
      requires Tracks(subs, live)
      ensures Distinct(clients)
      ensures forall c :: c in clients <==> IsWebSocket(c) && c in live
    {
      clients := [];
      var todo := subs.Keys;
      while todo != {}
        invariant todo <= subs.Keys && Distinct(clients)
        invariant forall c :: c in clients <==> IsWebSocket(c) && c.user !in todo && InConns(subs, c)
        decreases |todo|
      {
        var u :| u in todo;
        forall k <- subs[u] ensures subs[u][k].conn == k && subs[u][k].user == u {
          assert Find(subs, u, k).Some?;
        }
        var more := CollectUser(subs[u], u);
        DistinctAppend(clients, more);
        forall c ensures c in clients + more <==> IsWebSocket(c) && c.user !in todo - {u} && InConns(subs, c) {
          assert c in clients + more <==> c in clients || c in more;
        }
        todo := todo - {u};
        clients := clients + more;
      }
      forall c ensures InConns(subs, c) <==> c in live {
        assert Find(subs, c.user, c.conn).Some? || Find(subs, c.user, c.conn).None?;
      }
    }

    /** Each client gets one job; when the channel is full the job is dropped. */
    method BroadcastRealtime(
        messageId: string, room: string, ghost live: set<Client>) returns (ghost clients: seq<Client>)
      requires Represents(Maps(), live) && |deliveryQueue| <= CAPACITY
      modifies this`deliveryQueue
      ensures Distinct(clients)
      ensures forall c :: c in clients <==> IsWebSocket(c) && c.room == room && c in live
      ensures deliveryQueue == Enqueued(old(deliveryQueue), messageId, clients)
    {
      assert Tracks(Inner(rooms, room), OfRoom(live, room));
      if room !in rooms {
        NothingTracked(OfRoom(live, room));
        assert forall c :: c in OfRoom(live, room) <==> c in live && c.room == room;
        clients := [];
        return;
      }
      var found := CollectRoom(rooms[room], OfRoom(live, room));
      clients := found;
      assert found[..0] == [];
      for i := 0 to |found|
        invariant deliveryQueue == Enqueued(old(deliveryQueue), messageId, found[..i])
      {
        assert found[..i + 1][..i] == found[..i];
        var job := JobFor(messageId, found[i]);
        if |deliveryQueue| < CAPACITY {
          deliveryQueue := deliveryQueue + [job];
        }
      }
      assert found[..|found|] == found;
    }

    method FindClient(user: string, conn: string) returns (c: Option<Client>)
      ensures c == Find(users, user, conn)
    {
      if user !in users {
        return None;
      }
      if conn !in users[user] {
        return None;
      }
      return Some(users[user][conn]);
    }

    /** `send` is what writing to the found connection gives. */
    method ProcessDelivery(job: RetryQueue.Job, send: RetryQueue.Outcome) returns (r: RetryQueue.Outcome)
      ensures r == DeliveryOutcome(users, job, send)
    {
      var c := FindClient(job.pair.userId, job.clientId);
      if c.None? {
        return RetryQueue.Fatal;
      }
      return send;
    }

    /** One turn of a delivery worker; it returns for good when the retry row cannot be written. */
    method DeliverNext(send: RetryQueue.Outcome, r: RetryQueue.Report, now: int) returns (running: bool)
      requires deliveryQueue != []
      modifies this`deliveryQueue, retry
      ensures deliveryQueue == old(deliveryQueue)[1..]
      ensures var job := old(deliveryQueue)[0];
              var ok := DeliveryOutcome(users, job, send) == RetryQueue.Ok;
              && retry.Tables() == RetryQueue.AfterWork(old(retry.Tables()), job, ok, r, now)
              && running == (ok || job.attempt + 1 >= RetryQueue.MAX_ATTEMPTS || r.enqueueOk)
    {
      var job := deliveryQueue[0];
      deliveryQueue := deliveryQueue[1..];
      var outcome := ProcessDelivery(job, send);
      if outcome == RetryQueue.Ok {
        retry.delivered := retry.delivered + [job.pair];
        return true;
      }
      var attempt := job.attempt + 1;
      if attempt >= RetryQueue.MAX_ATTEMPTS {
        if r.storeOk {
          retry.dlq := retry.dlq + [job.pair];
        }
        return true;
      }
      if !r.enqueueOk {
        return false;
      }
      retry.queue := retry.queue + [RetryQueue.Row(job.pair, attempt, now + SECOND * RetryQueue.Pow2(attempt), true)];
      return true;
    }
  }

  /** An unknown connection is a plain error, which IsRetryable does not accept. */
  function DeliveryOutcome(
      users: map<string, Conns>, job: RetryQueue.Job, send: RetryQueue.Outcome): RetryQueue.Outcome {
    if Find(users, job.pair.userId, job.clientId).None? then RetryQueue.Fatal else send
  }

  lemma DistinctAppend(a: seq<Client>, b: seq<Client>)
    requires Distinct(a) && Distinct(b) && forall c <- b :: c !in a
    ensures Distinct(a + b)
  {
    forall i, j | 0 <= i < j < |a + b| ensures (a + b)[i] != (a + b)[j] {
      if i < |a| <= j {
        assert a[i] in a && b[j - |a|] in b;
      }
    }
  }

  lemma NothingTracked(live: set<Client>)
    requires Tracks(map[], live)
    ensures live == {}
  {
    assert forall c <- live :: Find(map[], c.user, c.conn) == Some(c);
  }

  // ---------- Runs, against the plain set of registered clients ----------

  datatype Action = Register(c: Client) | Unregister(c: Client)

  function Step(x: Index, a: Action): Index {
    match a
    case Register(c) => AfterRegister(x, c)
    case Unregister(c) => AfterUnregister(x, c)
  }

  function Run(acts: seq<Action>): Index
    decreases acts
  {
    if acts == [] then Index(map[], map[]) else Step(Run(acts[..|acts| - 1]), acts[|acts| - 1])
  }

  function Live(acts: seq<Action>): set<Client>
    decreases acts
  {
    if acts == [] then {}
    else
      var live := Live(acts[..|acts| - 1]);
      if acts[|acts| - 1].Register? then live + {acts[|acts| - 1].c} else live - {acts[|acts| - 1].c}
  }

  /** A user's connection id belongs to one client. */
  ghost predicate UniqueIds(acts: seq<Action>) {
    forall i, j :: && 0 <= i < |acts| && 0 <= j < |acts|
                   && acts[i].c.user == acts[j].c.user && acts[i].c.conn == acts[j].c.conn
                   ==> acts[i].c == acts[j].c
  }

  /** c shares its user and connection id with no other registered client. */
  ghost predicate NoClash(live: set<Client>, c: Client) {
    forall d <- live :: d.user == c.user && d.conn == c.conn ==> d == c
  }

  lemma AddFinds(m: map<string, Conns>, c: Client)
    ensures forall u, k :: Find(AddConn(m, c), u, k) == if u == c.user && k == c.conn then Some(c) else Find(m, u, k)
  {
  }

  lemma RemoveFinds(m: map<string, Conns>, c: Client)
    ensures forall u, k :: Find(RemoveConn(m, c), u, k) == if u == c.user && k == c.conn then None else Find(m, u, k)
  {
    if c.user in m {
      var left := m[c.user] - {c.conn};
      forall u, k ensures Find(RemoveConn(m, c), u, k) == if u == c.user && k == c.conn then None else Find(m, u, k) {
        if u == c.user && k != c.conn && k in m[u] {
          assert k in left;
        }
      }
    }
  }

  lemma TracksAdd(m: map<string, Conns>, live: set<Client>, c: Client)
    requires Tracks(m, live) && NoClash(live, c)
    ensures Tracks(AddConn(m, c), live + {c})
  {
    AddFinds(m, c);
    var m' := AddConn(m, c);
    assert c.conn in m'[c.user];
    hide Find, AddConn;
  }

  lemma TracksRemove(m: map<string, Conns>, live: set<Client>, c: Client)
    requires Tracks(m, live) && NoClash(live, c)
    ensures Tracks(RemoveConn(m, c), live - {c})
  {
    RemoveFinds(m, c);
    var m' := RemoveConn(m, c);
    assert forall u <- m' :: m'[u] != map[];
    hide Find, RemoveConn;
    forall u, k | Find(m', u, k).Some? ensures Find(m', u, k).value in live - {c} {}
  }

  lemma RegisterRepresents(x: Index, live: set<Client>, c: Client)
    requires Represents(x, live) && NoClash(live, c)
    ensures Represents(AfterRegister(x, c), live + {c})
  {
    var x' := AfterRegister(x, c);
    TracksAdd(x.users, live, c);
    TracksAdd(Inner(x.rooms, c.room), OfRoom(live, c.room), c);
    assert c.user in AddConn(Inner(x.rooms, c.room), c);
    hide Tracks, AddConn;
    forall r ensures Tracks(Inner(x'.rooms, r), OfRoom(live + {c}, r)) {
      assert OfRoom(live + {c}, r) == if r == c.room then OfRoom(live, r) + {c} else OfRoom(live, r);
    }
  }

  lemma UnregisterRepresents(x: Index, live: set<Client>, c: Client)
    requires Represents(x, live) && NoClash(live, c)
    ensures Represents(AfterUnregister(x, c), live - {c})
  {
    var x' := AfterUnregister(x, c);
    TracksRemove(x.users, live, c);
    TracksRemove(Inner(x.rooms, c.room), OfRoom(live, c.room), c);
    UnregisterRooms(x, c);
    hide Tracks, RemoveConn, AfterUnregister, Inner;
    forall r ensures Tracks(Inner(x'.rooms, r), OfRoom(live - {c}, r)) {
      assert OfRoom(live - {c}, r) == if r == c.room then OfRoom(live, r) - {c} else OfRoom(live, r);
    }
  }

  lemma UnregisterRooms(x: Index, c: Client)
    requires forall r <- x.rooms :: x.rooms[r] != map[]
    ensures var x' := AfterUnregister(x, c);
            && x'.users == RemoveConn(x.users, c)
            && (forall r <- x'.rooms :: x'.rooms[r] != map[])
            && forall r :: Inner(x'.rooms, r) == if r == c.room then RemoveConn(Inner(x.rooms, r), c)
                 else Inner(x.rooms, r)
  {
  }

  lemma {:induction false} LiveFromActions(acts: seq<Action>)
    ensures forall c <- Live(acts) :: exists i :: 0 <= i < |acts| && acts[i].c == c
    decreases acts
  {
    if acts != [] {
      LiveFromActions(acts[..|acts| - 1]);
      forall c <- Live(acts) ensures exists i :: 0 <= i < |acts| && acts[i].c == c {
        if c in Live(acts[..|acts| - 1]) {
          var i :| 0 <= i < |acts| - 1 && acts[..|acts| - 1][i].c == c;
          assert acts[i].c == c;
        } else {
          assert acts[|acts| - 1].c == c;
        }
      }
    }
  }

  /** After any registrations and unregistrations both indexes hold exactly the live clients, and no empty map. */
  lemma {:induction false} IndexesAgree(acts: seq<Action>)
    requires UniqueIds(acts)
    ensures Represents(Run(acts), Live(acts))
    decreases acts
  {
    if acts != [] {
      var init, a := acts[..|acts| - 1], acts[|acts| - 1];
      assert forall i :: 0 <= i < |init| ==> init[i] == acts[i];
      IndexesAgree(init);
      LiveFromActions(init);
      forall d <- Live(init) | d.user == a.c.user && d.conn == a.c.conn ensures d == a.c {
        var i :| 0 <= i < |init| && init[i].c == d;
        assert acts[i].c == d && acts[|acts| - 1].c == a.c;
      }
      match a
      case Register(c) => RegisterRepresents(Run(init), Live(init), c);
      case Unregister(c) => UnregisterRepresents(Run(init), Live(init), c);
    }
  }

  /** Without unique ids this fails: two clients under one id in different rooms leave the indexes apart. */
  lemma SharedIdAgreesIff(a: Client, b: Client)
    ensures var x := Run([Register(a), Register(b)]);
            (forall c :: InConns(x.users, c) <==> InRooms(x, c))
            <==> !(a.user == b.user && a.conn == b.conn && a.room != b.room)
  {
    var acts := [Register(a), Register(b)];
    var empty := Index(map[], map[]);
    assert acts[..1] == [Register(a)] && [Register(a)][..0] == [];
    assert Run([Register(a)]) == AfterRegister(empty, a);
    var x := AfterRegister(AfterRegister(empty, a), b);
    AddFinds(map[], a);
    AddFinds(map[], b);
    AddFinds(AddConn(map[], a), b);
    assert Run(acts) == x;
    if a.user == b.user && a.conn == b.conn && a.room != b.room {
      assert InRooms(x, a) && !InConns(x.users, a);
    } else {
      forall c ensures InConns(x.users, c) <==> InRooms(x, c) {}
    }
  }

  /**
   With room for all of them, a message to a room is queued once for each live websocket
   client of the room and for nobody else.
   */
  lemma FanOutIsExact(
      channel: seq<RetryQueue.Job>, messageId: string, room: string, live: set<Client>, clients: seq<Client>)
    requires Distinct(clients) && forall c :: c in clients <==> IsWebSocket(c) && c.room == room && c in live
    requires |channel| + |clients| <= CAPACITY
    ensures |Enqueued(channel, messageId, clients)| == |channel| + |clients|
    ensures channel <= Enqueued(channel, messageId, clients)
    ensures forall i :: 0 <= i < |clients| ==>
            Enqueued(channel, messageId, clients)[|channel| + i] == JobFor(messageId, clients[i])
    ensures forall c :: multiset(clients)[c] == if c in live && c.room == room && IsWebSocket(c) then 1 else 0
  {
    DistinctCounts(clients);
    EnqueuedAll(channel, messageId, clients);
  }

  lemma {:induction false} EnqueuedAll(channel: seq<RetryQueue.Job>, messageId: string, clients: seq<Client>)
    requires |channel| + |clients| <= CAPACITY
    ensures |Enqueued(channel, messageId, clients)| == |channel| + |clients|
    ensures channel <= Enqueued(channel, messageId, clients)
    ensures forall i :: 0 <= i < |clients| ==>
            Enqueued(channel, messageId, clients)[|channel| + i] == JobFor(messageId, clients[i])
    decreases clients
  {
    if clients != [] {
      EnqueuedAll(channel, messageId, clients[..|clients| - 1]);
    }
  }

  lemma {:induction false} DistinctCounts(clients: seq<Client>)
    requires Distinct(clients)
    ensures forall c :: multiset(clients)[c] == if c in clients then 1 else 0
    decreases clients
  {
    if clients != [] {
      var init, last := clients[..|clients| - 1], clients[|clients| - 1];
      DistinctCounts(init);
      assert clients == init + [last];
      assert last !in init;
    }
  }

  // ---------- Retried deliveries ----------

  /**
   A job read from the retry table carries no connection id. No live connection has the empty
   one, so the retry worker never delivers: every pair a batch takes up ends in the DLQ.
   */
  lemma RetriesOnlyDeadLetter(acts: seq<Action>, s: RetryQueue.State, picks: seq<nat>, reports: seq<RetryQueue.Report>,
                              sends: seq<RetryQueue.Outcome>, now: int)
    requires UniqueIds(acts) && forall c <- Live(acts) :: c.conn != ""
    requires forall k :: 0 <= k < |picks| ==> picks[k] < |s.queue|
    requires |reports| == |sends| == |RetryQueue.JobsOf(s.queue, picks)|
    requires forall k :: 0 <= k < |reports| ==>
                           && reports[k].outcome
                                == DeliveryOutcome(Run(acts).users, RetryQueue.JobsOf(s.queue, picks)[k], sends[k])
                           && reports[k].storeOk && reports[k].deleteOk
    ensures var jobs := RetryQueue.JobsOf(s.queue, picks);
            var s' := RetryQueue.AfterJobs(s, jobs, reports, now);
            && s'.delivered == s.delivered
            && forall j <- jobs :: j.pair in s'.dlq && !RetryQueue.Queued(s', j.pair)
  {
    IndexesAgree(acts);
    var jobs := RetryQueue.JobsOf(s.queue, picks);
    NoClientIds(s.queue, picks);
    forall k | 0 <= k < |reports| ensures reports[k].outcome == RetryQueue.Fatal {
      assert jobs[k] in jobs;
      NoEmptyConnection(Run(acts), Live(acts), jobs[k].pair.userId);
    }
    RetryQueue.FatalBatch(s, jobs, reports, now);
  }

  lemma NoEmptyConnection(x: Index, live: set<Client>, user: string)
    requires Represents(x, live) && forall c <- live :: c.conn != ""
    ensures Find(x.users, user, "").None?
  {
    hide Find;
  }

  lemma {:induction false} NoClientIds(queue: seq<RetryQueue.Row>, picks: seq<nat>)
    requires forall k :: 0 <= k < |picks| ==> picks[k] < |queue|
    ensures forall j <- RetryQueue.JobsOf(queue, picks) :: j.clientId == ""
    decreases picks
  {
    if picks != [] {
      NoClientIds(queue, picks[..|picks| - 1]);
    }
  }

  // ---------- What a broadcast puts into the channel ----------

  /**
   A broadcast to clients that are registered: the channel keeps what it had and takes one job for each
   client, in turn, while it has room. The job names the message and the user and stands at attempt 0;
   its user and connection id lead to that very client, and delivering it gives what the send gives.
   */
  lemma JobsReachClients(x: Index, live: set<Client>, channel: seq<RetryQueue.Job>, messageId: string,
                         clients: seq<Client>, send: RetryQueue.Outcome)
    requires Represents(x, live) && |channel| <= CAPACITY && forall c <- clients :: c in live
    ensures var q := Enqueued(channel, messageId, clients);
            && |q| == (if |channel| + |clients| <= 8192 then |channel| + |clients| else 8192)
            && channel <= q
            && forall i :: |channel| <= i < |q| ==>
                 var c := clients[i - |channel|];
                 && q[i].pair.messageId == messageId && q[i].pair.userId == c.user && q[i].attempt == 0
                 && Find(x.users, q[i].pair.userId, q[i].clientId) == Some(c)
                 && DeliveryOutcome(x.users, q[i], send) == send
  {
    EnqueuedWhileRoom(channel, messageId, clients);
    var q := Enqueued(channel, messageId, clients);
    forall i | |channel| <= i < |q|
      ensures var c := clients[i - |channel|];
              && q[i].pair.messageId == messageId && q[i].pair.userId == c.user && q[i].attempt == 0
              && Find(x.users, q[i].pair.userId, q[i].clientId) == Some(c)
              && DeliveryOutcome(x.users, q[i], send) == send {
      assert clients[i - |channel|] in clients;
      assert InConns(x.users, clients[i - |channel|]);
    }
  }

  lemma {:induction false} EnqueuedWhileRoom(channel: seq<RetryQueue.Job>, messageId: string, clients: seq<Client>)
    requires |channel| <= CAPACITY
    ensures var q := Enqueued(channel, messageId, clients);
            && |q| == (if |channel| + |clients| <= CAPACITY then |channel| + |clients| else CAPACITY)
            && channel <= q
            && forall i :: |channel| <= i < |q| ==> q[i] == JobFor(messageId, clients[i - |channel|])
    decreases clients
  {
    if clients != [] {
      EnqueuedWhileRoom(channel, messageId, clients[..|clients| - 1]);
    }
  }

  /** An unknown connection fails for good; a known one gives what the send gives. */
  lemma DeliveryIs(users: map<string, Conns>, job: RetryQueue.Job, send: RetryQueue.Outcome)
    ensures DeliveryOutcome(users, job, send)
            == if job.pair.userId in users && job.clientId in users[job.pair.userId] then send else RetryQueue.Fatal
  {
  }
}
