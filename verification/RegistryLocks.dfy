/**
 Register and Unregister at the grain of their locks. Each index is a concurrent map from a key
 to an object with a lock of its own; a call looks the object up, changes it under its lock, and,
 having emptied it, drops the key in a third step.
 */
module RegistryLocks {
  import Registry

  type Client = Registry.Client

  /** Which index: by user, or by room. */
  datatype Kind = ByUser | ByRoom

  function KeyOf(kind: Kind, c: Client): string { if kind == ByUser then c.user else c.room }

  datatype Object = Object(key: string, clients: set<Client>)

  /** Between its steps a call has loaded the object to add to, or to remove from, or has emptied it. */
  datatype Stage = Adding(obj: nat) | Removing(obj: nat) | Emptied

  datatype Call = Call(c: Client, stage: Stage)

  /** `live` is history: the clients added and not removed. */
  datatype Side = Side(slots: map<string, nat>, objects: seq<Object>, calls: map<nat, Call>, live: set<Client>)

  datatype Action =
    | Load(call: nat, c: Client)
    | Insert(call: nat)
    | Lookup(call: nat, c: Client)
    | Delete(call: nat)
    | Drop(call: nat)

  const NOTHING := Side(map[], [], map[], {})

  ghost predicate Idle(s: Side, c: Client) { forall k <- s.calls :: s.calls[k].c != c }

  /** The calls of one client follow one another: it registers when it is not there and unregisters when it is. */
  ghost predicate Enabled(s: Side, a: Action) {
    match a
    case Load(k, c) => k !in s.calls && c !in s.live && Idle(s, c)
    case Insert(k) => k in s.calls && s.calls[k].stage.Adding? && s.calls[k].stage.obj < |s.objects|
    case Lookup(k, c) => k !in s.calls && c in s.live && Idle(s, c)
    case Delete(k) => k in s.calls && s.calls[k].stage.Removing? && s.calls[k].stage.obj < |s.objects|
    case Drop(k) => k in s.calls && s.calls[k].stage.Emptied?
  }

  /** LoadOrStore. */
  function AfterLoad(kind: Kind, s: Side, k: nat, c: Client): Side {
    var key := KeyOf(kind, c);
    if key in s.slots then s.(calls := s.calls[k := Call(c, Adding(s.slots[key]))])
    else
      s.(slots := s.slots[key := |s.objects|], objects := s.objects + [Object(key, {})],
         calls := s.calls[k := Call(c, Adding(|s.objects|))])
  }

  function AfterInsert(s: Side, k: nat): Side
    requires k in s.calls && s.calls[k].stage.Adding? && s.calls[k].stage.obj < |s.objects|
  {
    var c, o := s.calls[k].c, s.calls[k].stage.obj;
    s.(objects := s.objects[o := s.objects[o].(clients := s.objects[o].clients + {c})],
       calls := s.calls - {k}, live := s.live + {c})
  }

  /** A key without an object ends the call, although its client was live. */
  function AfterLookup(kind: Kind, s: Side, k: nat, c: Client): Side {
    var key := KeyOf(kind, c);
    if key in s.slots then s.(calls := s.calls[k := Call(c, Removing(s.slots[key]))]) else s.(live := s.live - {c})
  }

  function AfterDelete(s: Side, k: nat): Side
    requires k in s.calls && s.calls[k].stage.Removing? && s.calls[k].stage.obj < |s.objects|
  {
    var c, o := s.calls[k].c, s.calls[k].stage.obj;
    var left := s.objects[o].clients - {c};
    s.(objects := s.objects[o := s.objects[o].(clients := left)],
       calls := if left == {} then s.calls[k := Call(c, Emptied)] else s.calls - {k},
       live := s.live - {c})
  }

  function AfterDrop(kind: Kind, s: Side, k: nat): Side
    requires k in s.calls
  {
    s.(slots := s.slots - {KeyOf(kind, s.calls[k].c)}, calls := s.calls - {k})
  }

  ghost function Step(kind: Kind, s: Side, a: Action): Side
    requires Enabled(s, a)
  {
    match a
    case Load(k, c) => AfterLoad(kind, s, k, c)
    case Insert(k) => AfterInsert(s, k)
    case Lookup(k, c) => AfterLookup(kind, s, k, c)
    case Delete(k) => AfterDelete(s, k)
    case Drop(k) => AfterDrop(kind, s, k)
  }

  // ---------- When does an index stay right? ----------

  /** What a lookup by key finds. */
  ghost predicate Found(kind: Kind, s: Side, c: Client) {
    KeyOf(kind, c) in s.slots && s.slots[KeyOf(kind, c)] < |s.objects|
        && c in s.objects[s.slots[KeyOf(kind, c)]].clients
  }

  ghost predicate HasCall(kind: Kind, s: Side, key: string, adding: bool) {
    exists k :: k in s.calls && KeyOf(kind, s.calls[k].c) == key
                && if adding then s.calls[k].stage.Adding? else s.calls[k].stage.Emptied?
  }

  ghost predicate SlotsOk(kind: Kind, s: Side) {
    && (forall key <- s.slots :: s.slots[key] < |s.objects| && s.objects[s.slots[key]].key == key)
    && (forall c :: c in s.live <==> Found(kind, s, c))
    && (forall key <- s.slots :: forall c <- s.objects[s.slots[key]].clients :: KeyOf(kind, c) == key)
  }

  /** A call that adds holds its key's object, and so does one that removes, whose client is in it. */
  ghost predicate CallsOk(kind: Kind, s: Side) {
    && (forall k <- s.calls ::
          match s.calls[k].stage
          case Adding(o) =>
            KeyOf(kind, s.calls[k].c) in s.slots && s.slots[KeyOf(kind, s.calls[k].c)] == o && s.calls[k].c !in s.live
          case Removing(o) =>
            KeyOf(kind, s.calls[k].c) in s.slots && s.slots[KeyOf(kind, s.calls[k].c)] == o && s.calls[k].c in s.live
          case Emptied => s.calls[k].c !in s.live)
    && (forall k, l :: k in s.calls && l in s.calls && s.calls[k].c == s.calls[l].c ==> k == l)
  }

  /** An empty object is about to be filled or dropped. */
  ghost predicate EmptyOk(kind: Kind, s: Side) {
    forall key <- s.slots ::
      s.slots[key] < |s.objects| && s.objects[s.slots[key]].clients == {}
      ==> HasCall(kind, s, key, true) || HasCall(kind, s, key, false)
  }

  ghost predicate Inv(kind: Kind, s: Side) { SlotsOk(kind, s) && CallsOk(kind, s) && EmptyOk(kind, s) }

  /** Since the call emptied the object nobody has added to it, and nobody is about to. */
  ghost predicate Safe(kind: Kind, s: Side, a: Action) {
    a.Drop? && a.call in s.calls ==>
      var key := KeyOf(kind, s.calls[a.call].c);
      key in s.slots ==>
          s.slots[key] < |s.objects| && s.objects[s.slots[key]].clients == {} && !HasCall(kind, s, key, true)
  }

  // ---------- The steps ----------

  lemma CallStays(kind: Kind, s: Side, s': Side, key: string, adding: bool)
    requires HasCall(kind, s, key, adding)
    requires forall k <- s.calls :: KeyOf(kind, s.calls[k].c) == key && s.calls[k].stage.Adding? == adding
                                    && s.calls[k].stage.Emptied? == !adding
                                    ==> k in s'.calls && s'.calls[k] == s.calls[k]
    ensures HasCall(kind, s', key, adding)
  {
    var k :| k in s.calls && KeyOf(kind, s.calls[k].c) == key
             && if adding then s.calls[k].stage.Adding? else s.calls[k].stage.Emptied?;
    assert s'.calls[k] == s.calls[k];
  }

  lemma LoadKeepsSlots(kind: Kind, s: Side, a: Action)
    requires SlotsOk(kind, s) && Enabled(s, a) && (a.Load? || a.Lookup?)
    ensures SlotsOk(kind, Step(kind, s, a))
  {
    var s' := Step(kind, s, a);
    forall c ensures Found(kind, s', c) <==> Found(kind, s, c) {}
  }

  lemma LoadKeepsCalls(kind: Kind, s: Side, a: Action)
    requires SlotsOk(kind, s) && CallsOk(kind, s) && Enabled(s, a) && (a.Load? || a.Lookup?)
    ensures CallsOk(kind, Step(kind, s, a))
  {
  }

  lemma LoadKeepsEmpty(kind: Kind, s: Side, a: Action)
    requires Inv(kind, s) && Enabled(s, a) && (a.Load? || a.Lookup?)
    ensures EmptyOk(kind, Step(kind, s, a))
  {
    var s' := Step(kind, s, a);
    var key := KeyOf(kind, a.c);
    assert a.Load? ==> s'.calls[a.call].stage.Adding?;
    assert a.Load? ==> HasCall(kind, s', key, true);
    hide Inv, SlotsOk, CallsOk;
    forall key', adding | HasCall(kind, s, key', adding) ensures HasCall(kind, s', key', adding) {
      CallStays(kind, s, s', key', adding);
    }
    hide HasCall;
  }

  lemma InsertKeepsSlots(kind: Kind, s: Side, a: Action)
    requires SlotsOk(kind, s) && CallsOk(kind, s) && Enabled(s, a) && a.Insert?
    ensures SlotsOk(kind, Step(kind, s, a))
  {
    var s' := Step(kind, s, a);
    var c0 := s.calls[a.call].c;
    forall c ensures Found(kind, s', c) <==> Found(kind, s, c) || c == c0 {}
  }

  lemma InsertKeepsCalls(kind: Kind, s: Side, a: Action)
    requires SlotsOk(kind, s) && CallsOk(kind, s) && Enabled(s, a) && a.Insert?
    ensures CallsOk(kind, Step(kind, s, a))
  {
    hide SlotsOk;
  }

  lemma InsertKeepsEmpty(kind: Kind, s: Side, a: Action)
    requires CallsOk(kind, s) && EmptyOk(kind, s) && Enabled(s, a) && a.Insert?
    ensures EmptyOk(kind, Step(kind, s, a))
  {
    var s' := Step(kind, s, a);
    var key0, o := KeyOf(kind, s.calls[a.call].c), s.calls[a.call].stage.obj;
    assert key0 in s.slots && s.slots[key0] == o;
    hide CallsOk;
    forall key <- s'.slots | s'.slots[key] < |s'.objects| && s'.objects[s'.slots[key]].clients == {}
      ensures HasCall(kind, s', key, true) || HasCall(kind, s', key, false) {
      StillCalled(kind, s, s', key, key0);
    }
  }

  /** A key whose calls the step leaves alone is still about to be filled or dropped. */
  lemma StillCalled(kind: Kind, s: Side, s': Side, key: string, key0: string)
    requires EmptyOk(kind, s) && key in s.slots && s.slots[key] < |s.objects| && key != key0
    requires s.objects[s.slots[key]].clients == {}
    requires forall k <- s.calls :: KeyOf(kind, s.calls[k].c) != key0 ==> k in s'.calls && s'.calls[k] == s.calls[k]
    ensures HasCall(kind, s', key, true) || HasCall(kind, s', key, false)
  {
    var adding := HasCall(kind, s, key, true);
    assert HasCall(kind, s, key, adding);
    CallStays(kind, s, s', key, adding);
  }

  lemma DeleteKeepsSlots(kind: Kind, s: Side, a: Action)
    requires SlotsOk(kind, s) && CallsOk(kind, s) && Enabled(s, a) && a.Delete?
    ensures SlotsOk(kind, Step(kind, s, a))
  {
    var s' := Step(kind, s, a);
    var c0 := s.calls[a.call].c;
    forall c ensures Found(kind, s', c) <==> Found(kind, s, c) && c != c0 {}
  }

  lemma DeleteKeepsCalls(kind: Kind, s: Side, a: Action)
    requires CallsOk(kind, s) && Enabled(s, a) && a.Delete?
    ensures CallsOk(kind, Step(kind, s, a))
  {
  }

  lemma DeleteKeepsEmpty(kind: Kind, s: Side, a: Action)
    requires SlotsOk(kind, s) && CallsOk(kind, s) && EmptyOk(kind, s) && Enabled(s, a) && a.Delete?
    ensures EmptyOk(kind, Step(kind, s, a))
  {
    var s' := Step(kind, s, a);
    var key0, o := KeyOf(kind, s.calls[a.call].c), s.calls[a.call].stage.obj;
    assert key0 in s.slots && s.slots[key0] == o;
    assert forall key <- s.slots :: s.slots[key] == o ==> key == key0;
    hide CallsOk, SlotsOk;
    forall key <- s'.slots | s'.slots[key] < |s'.objects| && s'.objects[s'.slots[key]].clients == {}
      ensures HasCall(kind, s', key, true) || HasCall(kind, s', key, false) {
      if key == key0 {
        assert a.call in s'.calls && s'.calls[a.call].stage.Emptied?;
        assert HasCall(kind, s', key, false);
      } else {
        StillCalled(kind, s, s', key, key0);
      }
    }
  }

  /** Dropping is right exactly when nothing stands behind the key, in its object or on the way to it. */
  lemma DropKeepsIff(kind: Kind, s: Side, a: Action)
    requires Inv(kind, s) && Enabled(s, a) && a.Drop?
    ensures Inv(kind, Step(kind, s, a)) <==> Safe(kind, s, a)
  {
    var s' := Step(kind, s, a);
    var key := KeyOf(kind, s.calls[a.call].c);
    if Safe(kind, s, a) {
      SafeDropKeeps(kind, s, a);
    } else {
      UnsafeDropLoses(kind, s, a);
    }
  }

  lemma SafeDropKeeps(kind: Kind, s: Side, a: Action)
    requires Inv(kind, s) && Enabled(s, a) && a.Drop? && Safe(kind, s, a)
    ensures Inv(kind, Step(kind, s, a))
  {
    var s' := Step(kind, s, a);
    var key := KeyOf(kind, s.calls[a.call].c);
    forall c ensures Found(kind, s', c) <==> Found(kind, s, c) {
      assert Found(kind, s, c) ==> KeyOf(kind, c) != key;
    }
    assert SlotsOk(kind, s');
    forall key', adding | key' != key && HasCall(kind, s, key', adding) ensures HasCall(kind, s', key', adding) {
      CallStays(kind, s, s', key', adding);
    }
    assert EmptyOk(kind, s') by { hide SlotsOk, CallsOk, Found; }
    SafeDropKeepsCalls(kind, s, a);
  }

  lemma SafeDropKeepsCalls(kind: Kind, s: Side, a: Action)
    requires SlotsOk(kind, s) && CallsOk(kind, s) && Enabled(s, a) && a.Drop? && Safe(kind, s, a)
    ensures CallsOk(kind, Step(kind, s, a))
  {
    var key := KeyOf(kind, s.calls[a.call].c);
    forall k | k in s.calls && KeyOf(kind, s.calls[k].c) == key ensures s.calls[k].stage.Emptied? || key !in s.slots {
      assert s.calls[k].stage.Adding? ==> HasCall(kind, s, key, true);
      assert s.calls[k].stage.Removing? ==> Found(kind, s, s.calls[k].c);
    }
  }

  /** An unsafe drop hides a client that is registered, or leaves one to be added out of reach. */
  lemma UnsafeDropLoses(kind: Kind, s: Side, a: Action)
    requires Inv(kind, s) && Enabled(s, a) && a.Drop? && !Safe(kind, s, a)
    ensures var s' := Step(kind, s, a);
            && !Inv(kind, s')
            && ((exists c :: c in s'.live && !Found(kind, s', c))
                || exists k :: k in s'.calls && s'.calls[k].stage.Adding? && KeyOf(kind, s'.calls[k].c) !in s'.slots)
  {
    var s' := Step(kind, s, a);
    var key := KeyOf(kind, s.calls[a.call].c);
    if s.objects[s.slots[key]].clients != {} {
      var c :| c in s.objects[s.slots[key]].clients;
      assert KeyOf(kind, c) == key;
      assert Found(kind, s, c) && !Found(kind, s', c);
      assert c in s'.live;
    } else {
      var k :| k in s.calls && KeyOf(kind, s.calls[k].c) == key && s.calls[k].stage.Adding?;
      assert s'.calls[k] == s.calls[k];
    }
  }

  // ---------- Main results ----------

  /** A step of any call keeps an index right exactly if it is safe: only a drop can be unsafe. */
  lemma StepKeepsIff(kind: Kind, s: Side, a: Action)
    requires Inv(kind, s) && Enabled(s, a)
    ensures Inv(kind, Step(kind, s, a)) <==> Safe(kind, s, a)
  {
    hide SlotsOk, CallsOk, EmptyOk, Found, HasCall, Enabled;
    match a
    case Load(_, _) =>
      LoadKeepsSlots(kind, s, a);
      LoadKeepsCalls(kind, s, a);
      LoadKeepsEmpty(kind, s, a);
    case Lookup(_, _) =>
      LoadKeepsSlots(kind, s, a);
      LoadKeepsCalls(kind, s, a);
      LoadKeepsEmpty(kind, s, a);
    case Insert(_) =>
      InsertKeepsSlots(kind, s, a);
      InsertKeepsCalls(kind, s, a);
      InsertKeepsEmpty(kind, s, a);
    case Delete(_) =>
      DeleteKeepsSlots(kind, s, a);
      DeleteKeepsCalls(kind, s, a);
      DeleteKeepsEmpty(kind, s, a);
    case Drop(_) =>
      DropKeepsIff(kind, s, a);
  }

  ghost predicate ValidRun(kind: Kind, s: Side, acts: seq<Action>)
    decreases acts
  {
    acts == [] || (Enabled(s, acts[0]) && ValidRun(kind, Step(kind, s, acts[0]), acts[1..]))
  }

  ghost function Run(kind: Kind, s: Side, acts: seq<Action>): Side
    requires ValidRun(kind, s, acts)
    decreases acts
  {
    if acts == [] then s else Run(kind, Step(kind, s, acts[0]), acts[1..])
  }

  ghost predicate SafeRun(kind: Kind, s: Side, acts: seq<Action>)
    requires ValidRun(kind, s, acts)
    decreases acts
  {
    acts == [] || (Safe(kind, s, acts[0]) && SafeRun(kind, Step(kind, s, acts[0]), acts[1..]))
  }

  lemma {:induction false} RunKeeps(kind: Kind, s: Side, acts: seq<Action>)
    requires Inv(kind, s) && ValidRun(kind, s, acts) && SafeRun(kind, s, acts)
    ensures Inv(kind, Run(kind, s, acts))
    decreases acts
  {
    hide Inv, Enabled, Safe, Step;
    if acts != [] {
      StepKeepsIff(kind, s, acts[0]);
      RunKeeps(kind, Step(kind, s, acts[0]), acts[1..]);
    }
  }

  /**
   After any interleaving of the steps of registrations and unregistrations in which no drop is
   unsafe, both indexes find exactly the clients whose registration has reached them; with the
   same clients registered in both and no call under way they agree, and hold no empty object.
   */
  lemma IndexesAgree(users: seq<Action>, rooms: seq<Action>, c: Client)
    requires ValidRun(ByUser, NOTHING, users) && SafeRun(ByUser, NOTHING, users)
    requires ValidRun(ByRoom, NOTHING, rooms) && SafeRun(ByRoom, NOTHING, rooms)
    ensures var u, r := Run(ByUser, NOTHING, users), Run(ByRoom, NOTHING, rooms);
            && (Found(ByUser, u, c) <==> c in u.live) && (Found(ByRoom, r, c) <==> c in r.live)
            && (u.live == r.live ==> (Found(ByUser, u, c) <==> Found(ByRoom, r, c)))
            && (u.calls == map[] ==>
                 forall key <- u.slots :: u.slots[key] < |u.objects| && u.objects[u.slots[key]].clients != {})
            && (r.calls == map[] ==>
                 forall key <- r.slots :: r.slots[key] < |r.objects| && r.objects[r.slots[key]].clients != {})
  {
    RunKeeps(ByUser, NOTHING, users);
    RunKeeps(ByRoom, NOTHING, rooms);
    hide Run, ValidRun, SafeRun, CallsOk;
  }

  // ---------- A drop that comes too late ----------

  ghost predicate Reached(kind: Kind, s: Side) {
    exists acts :: ValidRun(kind, NOTHING, acts) && Run(kind, NOTHING, acts) == s
  }

  lemma {:induction false} RunSnoc(kind: Kind, s: Side, acts: seq<Action>, a: Action)
    requires ValidRun(kind, s, acts) && Enabled(Run(kind, s, acts), a)
    ensures ValidRun(kind, s, acts + [a]) && Run(kind, s, acts + [a]) == Step(kind, Run(kind, s, acts), a)
    decreases acts
  {
    hide Enabled, Step;
    if acts == [] {
      assert (acts + [a])[1..] == [];
    } else {
      assert (acts + [a])[1..] == acts[1..] + [a];
      RunSnoc(kind, Step(kind, s, acts[0]), acts[1..], a);
    }
  }

  lemma Extend(kind: Kind, s: Side, a: Action)
    requires Reached(kind, s) && Enabled(s, a)
    ensures Reached(kind, Step(kind, s, a))
  {
    hide Enabled, Step;
    var acts :| ValidRun(kind, NOTHING, acts) && Run(kind, NOTHING, acts) == s;
    RunSnoc(kind, NOTHING, acts, a);
  }

  /**
   One client leaves, another of the same user (or room) registers, and then the first call drops
   the key it had emptied: the second client is registered and no lookup by the key finds it.
   */
  lemma LateDrop(kind: Kind, a: Client, b: Client)
    requires a != b && KeyOf(kind, a) == KeyOf(kind, b)
    ensures exists s :: Reached(kind, s) && s.calls == map[] && b in s.live && !Found(kind, s, b)
  {
    var s0 := NOTHING;
    assert ValidRun(kind, s0, []) && Run(kind, s0, []) == s0;
    hide Reached;
    var s1 := Then(kind, s0, Load(0, a));
    var s2 := Then(kind, s1, Insert(0));
    var s3 := Then(kind, s2, Lookup(0, a));
    var s4 := Then(kind, s3, Delete(0));
    var s5 := Then(kind, s4, Load(1, b));
    var s6 := Then(kind, s5, Insert(1));
    var s7 := Then(kind, s6, Drop(0));
    assert s7.calls == map[];
  }

  lemma Then(kind: Kind, s: Side, a: Action) returns (s': Side)
    requires Reached(kind, s) && Enabled(s, a)
    ensures s' == Step(kind, s, a) && Reached(kind, s')
  {
    Extend(kind, s, a);
    s' := Step(kind, s, a);
  }
}
