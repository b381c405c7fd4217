/**
 The per-user, per-type message rate limiter: a map of token buckets whose
 idle entries are dropped after ten minutes.
 */
module RateLimiter {
  import opened Wrappers

  // ---------- The bucket of golang.org/x/time/rate ----------

  /** Tokens are counted in billionths, so r tokens a second are r units a nanosecond. */
  const TOKEN := 1_000_000_000

  datatype Limits = Limits(rate: nat, burst: nat)

  /** `level` units were left at time `last`, the last time a token was taken. */
  datatype Bucket = Bucket(limits: Limits, level: int, last: int)

  function Min(a: int, b: int): int { if a < b then a else b }

  function Capacity(l: Limits): int { l.burst * TOKEN }

  function Level(b: Bucket, now: int): int {
    Min(Capacity(b.limits), b.level + b.limits.rate * (now - b.last))
  }

  function NewBucket(l: Limits, now: int): Bucket { Bucket(l, Capacity(l), now) }

  function Allows(b: Bucket, now: int): bool { Level(b, now) >= TOKEN }

  /** A refused request leaves the bucket as it was. */
  function Take(b: Bucket, now: int): Bucket {
    if Allows(b, now) then Bucket(b.limits, Level(b, now) - TOKEN, now) else b
  }

  function CreateLimiter(msgType: string): Limits {
    match msgType
    case "text" => Limits(10, 10)
    case "command" => Limits(2, 2)
    case "typing" => Limits(5, 5)
    case "file" => Limits(1, 3)
    case _ => Limits(50, 50)
  }

  // ---------- The limiter ----------

  const IDLE := 10 * MINUTE

  function Key(user: string, msgType: string): string { user + ":" + msgType }

  datatype State = State(limiters: map<string, Bucket>, lastUsed: map<string, int>)

  function BucketFor(s: State, user: string, msgType: string, now: int): Bucket {
    var key := Key(user, msgType);
    if key in s.limiters then s.limiters[key] else NewBucket(CreateLimiter(msgType), now)
  }

  function Verdict(s: State, user: string, msgType: string, now: int): bool {
    Allows(BucketFor(s, user, msgType, now), now)
  }

  function AfterCheck(s: State, user: string, msgType: string, now: int): State {
    var key := Key(user, msgType);
    State(s.limiters[key := Take(BucketFor(s, user, msgType, now), now)], s.lastUsed[key := now])
  }

  /** A key without an entry reads as Go's zero time, which is long past. */
  predicate Idle(s: State, key: string, now: int) {
    key !in s.lastUsed || now - s.lastUsed[key] > IDLE
  }

  function AfterCleanup(s: State, now: int): State {
    Without(s, IdleKeys(s, now))
  }

  function IdleKeys(s: State, now: int): set<string> { set k | k in s.limiters && Idle(s, k, now) }

  function Without(s: State, keys: set<string>): State { State(s.limiters - keys, s.lastUsed - keys) }

  class RateLimiter {
    var limiters: map<string, Bucket>
    var lastUsed: map<string, int>

    constructor ()
      ensures Maps() == State(map[], map[])
    {
      limiters, lastUsed := map[], map[];
    }

    ghost function Maps(): State
      reads this
    {
      State(limiters, lastUsed)
    }

    method Check(user: string, msgType: string, now: int) returns (ok: bool)
      modifies this
      ensures ok == Verdict(old(Maps()), user, msgType, now)
      ensures Maps() == AfterCheck(old(Maps()), user, msgType, now)
    {
      var key := user + ":" + msgType;
      var limiter;
      if key in limiters {
        limiter := limiters[key];
      } else {
        limiter := NewBucket(CreateLimiter(msgType), now);
      }
      lastUsed := lastUsed[key := now];
      ok := Allows(limiter, now);
      limiters := limiters[key := Take(limiter, now)];
    }

    method Cleanup(now: int)
      modifies this
      ensures Maps() == AfterCleanup(old(Maps()), now)
    {
      hide Without, IdleKeys;
      var todo := limiters.Keys;
      ghost var before, idle := Maps(), IdleKeys(Maps(), now);
      CleanupNone(before, now);
      while todo != {}
        invariant todo <= before.limiters.Keys
        invariant Maps() == Without(before, idle - todo)
        decreases |todo|
      {
        var key :| key in todo;
        CleanupOne(before, now, todo, key);
        if key !in lastUsed || now - lastUsed[key] > IDLE {
          limiters := limiters - {key};
          lastUsed := lastUsed - {key};
        }
        todo := todo - {key};
      }
      assert idle - {} == idle;
    }
  }

  lemma CleanupNone(s: State, now: int)
    ensures Without(s, IdleKeys(s, now) - s.limiters.Keys) == s
  {
    assert IdleKeys(s, now) - s.limiters.Keys == {};
  }

  /** The key is looked at in the state that is left of `s`, and goes if it is idle. */
  lemma CleanupOne(s: State, now: int, todo: set<string>, key: string)
    requires key in todo && todo <= s.limiters.Keys
    ensures var idle := IdleKeys(s, now);
            var rest := Without(s, idle - todo);
            Without(s, idle - (todo - {key}))
            == if Idle(rest, key, now) then State(rest.limiters - {key}, rest.lastUsed - {key}) else rest
  {
    var idle := IdleKeys(s, now);
    if Idle(s, key, now) {
      assert idle - (todo - {key}) == (idle - todo) + {key};
    } else {
      assert idle - (todo - {key}) == idle - todo;
    }
  }

  // ---------- Runs ----------

  datatype Action = Check(user: string, msgType: string, now: int) | Cleanup(now: int)

  datatype Outcome = Outcome(state: State, verdicts: seq<bool>)

  const START := Outcome(State(map[], map[]), [])

  /** With `evicts` false, Cleanup does nothing: the limiter that remembers every bucket. */
  function Step(o: Outcome, a: Action, evicts: bool): Outcome {
    match a
    case Check(user, msgType, now) =>
      Outcome(AfterCheck(o.state, user, msgType, now), o.verdicts + [Verdict(o.state, user, msgType, now)])
    case Cleanup(now) =>
      if evicts then Outcome(AfterCleanup(o.state, now), o.verdicts) else o
  }

  function Run(acts: seq<Action>, evicts: bool): Outcome
    decreases acts
  {
    if acts == [] then START else Step(Run(acts[..|acts| - 1], evicts), acts[|acts| - 1], evicts)
  }

  ghost predicate Timed(acts: seq<Action>) {
    && (forall i :: 0 <= i < |acts| ==> acts[i].now >= 0)
    && (forall i, j :: 0 <= i < j < |acts| ==> acts[i].now <= acts[j].now)
  }

  /** Checks that share a key ask for the same limits. */
  ghost predicate KeysAgree(acts: seq<Action>) {
    forall i, j :: 0 <= i < |acts| && 0 <= j < |acts| && acts[i].Check? && acts[j].Check?
                   && Key(acts[i].user, acts[i].msgType) == Key(acts[j].user, acts[j].msgType)
                   ==> CreateLimiter(acts[i].msgType) == CreateLimiter(acts[j].msgType)
  }

  // ---------- Idle eviction cannot be observed ----------

  ghost predicate Sound(s: State, now: int) {
    && s.lastUsed.Keys == s.limiters.Keys
    && forall k :: k in s.limiters ==>
                     && 0 <= s.limiters[k].level <= Capacity(s.limiters[k].limits)
                     && 0 <= s.limiters[k].last <= s.lastUsed[k] <= now
                     && exists t: string :: s.limiters[k].limits == CreateLimiter(t)
  }

  /** The key's bucket has nothing left to refill from `now` on. */
  ghost predicate Full(b: Bucket, now: int) {
    b.last <= now && b.level + b.limits.rate * (now - b.last) >= Capacity(b.limits)
  }

  /** `s` evicts, `r` remembers: they hold the same buckets, except that `s` may have dropped full ones. */
  ghost predicate Simulates(s: State, r: State, now: int) {
    && Sound(s, now) && Sound(r, now)
    && s.limiters.Keys <= r.limiters.Keys
    && (forall k :: k in s.limiters ==> s.limiters[k] == r.limiters[k] && s.lastUsed[k] == r.lastUsed[k])
    && (forall k :: k in r.limiters && k !in s.limiters ==> Full(r.limiters[k], now))
  }

  /** Every bucket of the table refills in three seconds at most, so ten idle minutes fill it. */
  lemma IdleIsFull(b: Bucket, used: int, now: int)
    requires 0 <= b.level && b.last <= used && now - used > IDLE
    requires exists t: string :: b.limits == CreateLimiter(t)
    ensures Full(b, now)
  {
    var l := b.limits;
    assert l.rate >= 1 && l.burst <= 50;
    assert l.rate * (now - b.last) >= 1 * (now - b.last) by { MulMonotone(1, l.rate, now - b.last); }
  }

  lemma MulMonotone(a: int, b: int, c: int)
    requires a <= b && 0 <= c
    ensures a * c <= b * c
  {
    assert b * c - a * c == (b - a) * c;
  }

  lemma FullStaysFull(b: Bucket, now: int, later: int)
    requires Full(b, now) && now <= later
    ensures Full(b, later) && Level(b, later) == Capacity(b.limits)
  {
    MulMonotone(now - b.last, later - b.last, b.limits.rate);
  }

  lemma LevelBounds(b: Bucket, now: int)
    requires 0 <= b.level <= Capacity(b.limits) && b.last <= now
    ensures 0 <= Level(b, now) <= Capacity(b.limits)
  {
    MulMonotone(0, b.limits.rate, now - b.last);
  }

  lemma CheckSimulates(s: State, r: State, user: string, msgType: string, before: int, now: int)
    requires Simulates(s, r, before) && 0 <= before <= now
    requires Key(user, msgType) in r.limiters ==> r.limiters[Key(user, msgType)].limits == CreateLimiter(msgType)
    ensures Verdict(s, user, msgType, now) == Verdict(r, user, msgType, now)
    ensures Simulates(AfterCheck(s, user, msgType, now), AfterCheck(r, user, msgType, now), now)
  {
    var key := Key(user, msgType);
    var b, c := BucketFor(s, user, msgType, now), BucketFor(r, user, msgType, now);
    if key in r.limiters && key !in s.limiters {
      FullStaysFull(c, before, now);
    }
    assert Level(b, now) == Level(c, now);
    LevelBounds(c, now);
    var s', r' := AfterCheck(s, user, msgType, now), AfterCheck(r, user, msgType, now);
    forall k | k in r'.limiters && k !in s'.limiters ensures Full(r'.limiters[k], now) {
      FullStaysFull(r.limiters[k], before, now);
    }
    assert Allows(c, now) || key in s.limiters || key !in r.limiters;
    SoundAfterCheck(s, user, msgType, before, now);
    SoundAfterCheck(r, user, msgType, before, now);
  }

  lemma SoundAfterCheck(s: State, user: string, msgType: string, before: int, now: int)
    requires Sound(s, before) && 0 <= before <= now
    ensures Sound(AfterCheck(s, user, msgType, now), now)
  {
    var b := BucketFor(s, user, msgType, now);
    LevelBounds(b, now);
    assert b.limits == CreateLimiter(msgType) || exists t: string :: b.limits == CreateLimiter(t);
  }

  lemma CleanupSimulates(s: State, r: State, before: int, now: int)
    requires Simulates(s, r, before) && 0 <= before <= now
    ensures Simulates(AfterCleanup(s, now), r, now)
  {
    var s' := AfterCleanup(s, now);
    forall k | k in r.limiters && k !in s'.limiters ensures Full(r.limiters[k], now) {
      if k in s.limiters {
        IdleIsFull(s.limiters[k], s.lastUsed[k], now);
      } else {
        FullStaysFull(r.limiters[k], before, now);
      }
    }
  }

  function LastTime(acts: seq<Action>): int {
    if acts == [] then 0 else acts[|acts| - 1].now
  }

  /** The remembering limiter gives each key the limits of the checks that use it. */
  lemma {:induction false} LimitsOfKeys(acts: seq<Action>, msgType: string, user: string)
    requires KeysAgree(acts + [Check(user, msgType, 0)])
    requires Key(user, msgType) in Run(acts, false).state.limiters
    ensures Run(acts, false).state.limiters[Key(user, msgType)].limits == CreateLimiter(msgType)
    decreases acts
  {
    if acts != [] {
      var init, a := acts[..|acts| - 1], acts[|acts| - 1];
      var all := acts + [Check(user, msgType, 0)];
      var some := init + [Check(user, msgType, 0)];
      assert all[|acts| - 1] == a && all[|acts|] == Check(user, msgType, 0);
      forall i | 0 <= i < |some| ensures exists i' :: 0 <= i' < |all| && all[i'] == some[i] {
        assert all[if i < |init| then i else |acts|] == some[i];
      }
      if Key(user, msgType) in Run(init, false).state.limiters {
        LimitsOfKeys(init, msgType, user);
      }
    }
  }

  /** Dropping idle buckets never changes a verdict, whatever the run. */
  lemma {:induction false} EvictionUnobservable(acts: seq<Action>)
    requires Timed(acts) && KeysAgree(acts)
    ensures Run(acts, true).verdicts == Run(acts, false).verdicts
    ensures Simulates(Run(acts, true).state, Run(acts, false).state, LastTime(acts))
    decreases acts
  {
    if acts != [] {
      var init, a := acts[..|acts| - 1], acts[|acts| - 1];
      EvictionUnobservable(init);
      var s, r := Run(init, true).state, Run(init, false).state;
      match a
      case Check(user, msgType, now) =>
        if Key(user, msgType) in r.limiters {
          KeysAgreeWithLast(acts);
          LimitsOfKeys(init, msgType, user);
        }
        CheckSimulates(s, r, user, msgType, LastTime(init), now);
      case Cleanup(now) =>
        CleanupSimulates(s, r, LastTime(init), now);
    }
  }

  lemma KeysAgreeWithLast(acts: seq<Action>)
    requires acts != [] && acts[|acts| - 1].Check? && KeysAgree(acts)
    ensures KeysAgree(acts[..|acts| - 1] + [acts[|acts| - 1].(now := 0)])
  {
    var acts' := acts[..|acts| - 1] + [acts[|acts| - 1].(now := 0)];
    assert forall i :: 0 <= i < |acts| ==>
                         acts'[i].Check? == acts[i].Check?
                             && (acts[i].Check? ==>
                                  acts'[i].user == acts[i].user && acts'[i].msgType == acts[i].msgType);
  }

  /** User ids are decimal numerals; without a colon in them, a key belongs to one user and one type. */
  lemma {:induction false} KeyInjective(u: string, t: string, u': string, t': string)
    requires ':' !in u && ':' !in u' && Key(u, t) == Key(u', t')
    ensures u == u' && t == t'
    decreases u
  {
    assert Key(u, t)[0] == Key(u', t')[0];
    if u == [] || u' == [] {
      assert u == [] && u' == [];
      assert Key(u, t)[1..] == t && Key(u', t')[1..] == t';
    } else {
      assert Key(u, t)[1..] == Key(u[1..], t) && Key(u', t')[1..] == Key(u'[1..], t');
      KeyInjective(u[1..], t, u'[1..], t');
      assert u == [u[0]] + u[1..] && u' == [u'[0]] + u'[1..];
    }
  }

  lemma NumericIdsAgree(acts: seq<Action>)
    requires forall i :: 0 <= i < |acts| && acts[i].Check? ==> ':' !in acts[i].user
    ensures KeysAgree(acts)
  {
    forall i, j | 0 <= i < |acts| && 0 <= j < |acts| && acts[i].Check? && acts[j].Check?
                  && Key(acts[i].user, acts[i].msgType) == Key(acts[j].user, acts[j].msgType)
      ensures CreateLimiter(acts[i].msgType) == CreateLimiter(acts[j].msgType)
    {
      KeyInjective(acts[i].user, acts[i].msgType, acts[j].user, acts[j].msgType);
    }
  }

  const LATE := IDLE + 1

  /** One check of user u, then, ten minutes later, a cleanup and three checks of user u:x. */
  const SHARED_KEY_RUN := [
    Check("u", "x:command", 0), Cleanup(LATE),
    Check("u:x", "command", LATE), Check("u:x", "command", LATE), Check("u:x", "command", LATE)]

  lemma {:induction false} RunOfFive(acts: seq<Action>, evicts: bool)
    requires |acts| == 5
    ensures Run(acts, evicts) ==
            Step(Step(Step(Step(Step(START, acts[0], evicts), acts[1], evicts), acts[2], evicts), acts[3], evicts),
                acts[4], evicts)
  {
    assert acts[..4][..3] == acts[..3] && acts[..3][..2] == acts[..2] && acts[..2][..1] == acts[..1];
    assert Run(acts[..1], evicts) == Step(START, acts[0], evicts);
    assert Run(acts[..2], evicts) == Step(Run(acts[..1], evicts), acts[1], evicts);
    assert Run(acts[..3], evicts) == Step(Run(acts[..2], evicts), acts[2], evicts);
  }

  /** The third check by the key's bucket, whose limits are those of the check that made it. */
  lemma ThreeChecks(o: Outcome, l: Limits)
    requires l.burst >= 2 && KeyLevel(o.state, "u:x:command", Limits(2, 2), LATE) == l.burst * TOKEN
    requires "u:x:command" in o.state.limiters ==> o.state.limiters["u:x:command"].limits == l
    requires "u:x:command" !in o.state.limiters ==> l == Limits(2, 2)
    ensures var c := Check("u:x", "command", LATE);
            Step(Step(Step(o, c, true), c, true), c, true).verdicts == o.verdicts + [true, true, l.burst >= 3]
    ensures var c := Check("u:x", "command", LATE);
            Step(Step(Step(o, c, false), c, false), c, false) == Step(Step(Step(o, c, true), c, true), c, true)
  {
    assert Key("u:x", "command") == "u:x:command";
    var c := Check("u:x", "command", LATE);
    var o1, o2 := Step(o, c, true), Step(Step(o, c, true), c, true);
    assert o1.state.limiters["u:x:command"] == Bucket(l, (l.burst - 1) * TOKEN, LATE);
    assert o2.state.limiters["u:x:command"] == Bucket(l, (l.burst - 2) * TOKEN, LATE);
  }

  /** What is left of the first check's bucket when the cleanup has passed, with and without eviction. */
  lemma FirstCheckThenCleanup(key: string)
    requires key == Key("u", "x:command")
    ensures var o := Step(START, Check("u", "x:command", 0), true);
            && Step(START, Check("u", "x:command", 0), false) == o
            && Step(o, Cleanup(LATE), true) == Outcome(State(map[], map[]), [true])
            && Step(o, Cleanup(LATE), false)
                 == Outcome(State(map[key := Bucket(Limits(50, 50), 49 * TOKEN, 0)], map[key := 0]), [true])
  {
    var s := AfterCheck(START.state, "u", "x:command", 0);
    assert s == State(map[key := Bucket(Limits(50, 50), 49 * TOKEN, 0)], map[key := 0]);
    assert IdleKeys(s, LATE) == {key};
  }

  lemma SharedKeyRunTimed()
    ensures Timed(SHARED_KEY_RUN) && !KeysAgree(SHARED_KEY_RUN)
  {
    var acts := SHARED_KEY_RUN;
    assert Key("u", "x:command") == "u:x:command" == Key("u:x", "command");
    assert acts[0] == Check("u", "x:command", 0) && acts[2] == Check("u:x", "command", LATE);
  }

  /**
   A witness that the hypothesis on shared keys is needed: with a colon in a user id, which the
   numeric ids of the system never hold, two types can share a key, and then an eviction shows.
   */
  lemma SharedKeyShows()
    ensures Timed(SHARED_KEY_RUN) && !KeysAgree(SHARED_KEY_RUN)
    ensures Run(SHARED_KEY_RUN, true).verdicts == [true, true, true, false]
    ensures Run(SHARED_KEY_RUN, false).verdicts == [true, true, true, true]
  {
    hide Run, Step, Timed, KeysAgree;
    SharedKeyRunTimed();
    RunOfFive(SHARED_KEY_RUN, true);
    RunOfFive(SHARED_KEY_RUN, false);
    assert Key("u", "x:command") == "u:x:command";
    FirstCheckThenCleanup("u:x:command");
    ThreeChecks(Outcome(State(map[], map[]), [true]), Limits(2, 2));
    var kept := State(map["u:x:command" := Bucket(Limits(50, 50), 49 * TOKEN, 0)], map["u:x:command" := 0]);
    ThreeChecks(Outcome(kept, [true]), Limits(50, 50));
  }

  // ---------- How much is admitted ----------

  /** How many checks of the key were admitted at times in [from, to]. */
  function Admitted(acts: seq<Action>, verdicts: seq<bool>, key: string, from: int, to: int): nat
    decreases acts
  {
    if acts == [] then 0
    else
      var a := acts[|acts| - 1];
      if a.Cleanup? then Admitted(acts[..|acts| - 1], verdicts, key, from, to)
      else if verdicts == [] then 0
      else
        Admitted(acts[..|acts| - 1], verdicts[..|verdicts| - 1], key, from, to)
        + if verdicts[|verdicts| - 1] && Key(a.user, a.msgType) == key && from <= a.now <= to then 1 else 0
  }

  function KeyLevel(s: State, key: string, l: Limits, now: int): int {
    if key in s.limiters then Level(s.limiters[key], now) else Capacity(l)
  }

  ghost predicate KeyHasLimits(acts: seq<Action>, key: string, l: Limits) {
    forall i :: 0 <= i < |acts| && acts[i].Check? && Key(acts[i].user, acts[i].msgType) == key
                ==> CreateLimiter(acts[i].msgType) == l
  }

  ghost predicate KeyBucket(s: State, key: string, l: Limits, now: int) {
    key in s.limiters ==>
      s.limiters[key].limits == l && 0 <= s.limiters[key].level <= Capacity(l) && s.limiters[key].last <= now
  }

  /** One check of the key: an admission costs a token of what the bucket held. */
  lemma CheckLevel(s: State, user: string, msgType: string, key: string, l: Limits, before: int, now: int, later: int)
    requires KeyBucket(s, key, l, before) && before <= now <= later
    requires key == Key(user, msgType) && CreateLimiter(msgType) == l
    ensures KeyBucket(AfterCheck(s, user, msgType, now), key, l, now)
    ensures KeyLevel(AfterCheck(s, user, msgType, now), key, l, later)
            <= if Verdict(s, user, msgType, now) then KeyLevel(s, key, l, now) - TOKEN + l.rate * (later - now)
               else KeyLevel(s, key, l, later)
  {
    var b := BucketFor(s, user, msgType, now);
    LevelBounds(b, now);
    if !Verdict(s, user, msgType, now) && key !in s.limiters {
      LevelBounds(b, later);
    }
  }

  lemma KeyLevelBounds(s: State, key: string, l: Limits, before: int, now: int)
    requires KeyBucket(s, key, l, before) && before <= now
    ensures 0 <= KeyLevel(s, key, l, now) <= Capacity(l)
  {
    if key in s.limiters {
      LevelBounds(s.limiters[key], now);
    }
  }

  /** What has been admitted since `from`, plus what is still in the bucket, never outruns the refill. */
  lemma {:induction false} Budget(acts: seq<Action>, key: string, l: Limits, from: int, to: int, later: int)
    requires Timed(acts) && KeyHasLimits(acts, key, l)
    requires LastTime(acts) <= later <= to && from <= later
    ensures KeyBucket(Run(acts, false).state, key, l, LastTime(acts))
    ensures Admitted(acts, Run(acts, false).verdicts, key, from, to) * TOKEN
            + KeyLevel(Run(acts, false).state, key, l, later)
            <= Capacity(l) + l.rate * (later - from)
    decreases acts, 0
  {
    MulMonotone(0, l.rate, later - from);
    if acts != [] {
      var init, a := acts[..|acts| - 1], acts[|acts| - 1];
      var r := Run(init, false);
      Budget(init, key, l, from, to, later);
      if a.Check? {
        assert Run(acts, false).verdicts[..|r.verdicts|] == r.verdicts;
        if Key(a.user, a.msgType) == key {
          BudgetCheck(init, a, key, l, from, to, later);
        }
      }
    }
  }

  lemma {:induction false} BudgetCheck(
      init: seq<Action>, a: Action, key: string, l: Limits, from: int, to: int, later: int)
    requires Timed(init) && a.Check? && Key(a.user, a.msgType) == key && CreateLimiter(a.msgType) == l
    requires KeyHasLimits(init, key, l) && LastTime(init) <= a.now <= later <= to && from <= later
    requires KeyBucket(Run(init, false).state, key, l, LastTime(init))
    requires Admitted(init, Run(init, false).verdicts, key, from, to) * TOKEN
             + KeyLevel(Run(init, false).state, key, l, later) <= Capacity(l) + l.rate * (later - from)
    ensures var s' := AfterCheck(Run(init, false).state, a.user, a.msgType, a.now);
            var one := if Verdict(Run(init, false).state, a.user, a.msgType, a.now) && from <= a.now then 1 else 0;
            && KeyBucket(s', key, l, a.now)
            && (Admitted(init, Run(init, false).verdicts, key, from, to) + one) * TOKEN + KeyLevel(s', key, l, later)
               <= Capacity(l) + l.rate * (later - from)
    decreases init, 1
  {
    hide Run, Admitted;
    var s := Run(init, false).state;
    CheckLevel(s, a.user, a.msgType, key, l, LastTime(init), a.now, later);
    KeyLevelBounds(AfterCheck(s, a.user, a.msgType, a.now), key, l, a.now, later);
    if from <= a.now {
      Budget(init, key, l, from, to, a.now);
      assert l.rate * (a.now - from) + l.rate * (later - a.now) == l.rate * (later - from);
    } else {
      NothingYet(init, Run(init, false).verdicts, key, from, to);
      MulMonotone(0, l.rate, later - from);
    }
  }

  lemma {:induction false} NothingYet(acts: seq<Action>, verdicts: seq<bool>, key: string, from: int, to: int)
    requires Timed(acts) && LastTime(acts) < from
    ensures Admitted(acts, verdicts, key, from, to) == 0
    decreases acts
  {
    if acts != [] {
      var init := acts[..|acts| - 1];
      NothingYet(init, verdicts, key, from, to);
      if verdicts != [] {
        NothingYet(init, verdicts[..|verdicts| - 1], key, from, to);
      }
    }
  }

  /**
   In any interval a key is admitted at most burst + rate * length times, although the
   limiter evicts buckets and starts them full again. `to - from` is in nanoseconds.
   */
  lemma {:induction false} AdmissionBound(acts: seq<Action>, key: string, l: Limits, from: int, to: int)
    requires Timed(acts) && KeysAgree(acts) && KeyHasLimits(acts, key, l) && from <= to
    ensures Admitted(acts, Run(acts, true).verdicts, key, from, to) * TOKEN <= l.burst * TOKEN + l.rate * (to - from)
    decreases acts
  {
    EvictionUnobservable(acts);
    AdmissionBoundRemembering(acts, key, l, from, to);
  }

  lemma {:induction false} AdmissionBoundRemembering(acts: seq<Action>, key: string, l: Limits, from: int, to: int)
    requires Timed(acts) && KeyHasLimits(acts, key, l) && from <= to
    ensures Admitted(acts, Run(acts, false).verdicts, key, from, to) * TOKEN <= l.burst * TOKEN + l.rate * (to - from)
    decreases acts
  {
    if LastTime(acts) <= to {
      Budget(acts, key, l, from, to, to);
      var s := Run(acts, false).state;
      if key in s.limiters {
        LevelBounds(s.limiters[key], to);
      }
    } else if acts != [] {
      AdmissionBoundRemembering(acts[..|acts| - 1], key, l, from, to);
      if acts[|acts| - 1].Check? {
        var v := Run(acts[..|acts| - 1], false).verdicts;
        assert Run(acts, false).verdicts[..|v|] == v;
      }
    } else {
      MulMonotone(0, l.rate, to - from);
    }
  }

  // ---------- Exactly when a check is refused ----------

  /** From `from` on, what was admitted and what is left make up a full bucket and the refill since. */
  ghost predicate Tight(acts: seq<Action>, key: string, l: Limits, from: int, later: int) {
    && from <= later
    && Admitted(acts, Run(acts, false).verdicts, key, from, later) * TOKEN
         + KeyLevel(Run(acts, false).state, key, l, later)
       == Capacity(l) + l.rate * (later - from)
  }

  /** The bound of `Budget` is reached at the last moment the bucket was full. */
  lemma {:induction false} TightAt(acts: seq<Action>, key: string, l: Limits, later: int) returns (from: int)
    requires Timed(acts) && KeyHasLimits(acts, key, l) && LastTime(acts) <= later
    ensures Tight(acts, key, l, from, later)
    decreases acts
  {
    if acts == [] {
      from := later;
    } else {
      var init, a := acts[..|acts| - 1], acts[|acts| - 1];
      var v := Run(init, false).verdicts;
      if a.Check? && Key(a.user, a.msgType) == key {
        from := TightAt(init, key, l, a.now);
        Budget(init, key, l, from, a.now, a.now);
        from := TightAfterCheck(acts, key, l, from, later);
      } else {
        from := TightAt(init, key, l, later);
        assert a.Check? ==> Run(acts, false).verdicts[..|v|] == v;
      }
    }
  }

  /** The last check of the run, at a.now: the bucket refills from there to `later`, and may be full again. */
  lemma TightAfterCheck(acts: seq<Action>, key: string, l: Limits, from0: int, later: int) returns (from: int)
    requires acts != [] && Timed(acts) && KeyHasLimits(acts, key, l) && LastTime(acts) <= later
    requires acts[|acts| - 1].Check? && Key(acts[|acts| - 1].user, acts[|acts| - 1].msgType) == key
    requires Tight(acts[..|acts| - 1], key, l, from0, LastTime(acts))
    requires KeyBucket(Run(acts[..|acts| - 1], false).state, key, l, LastTime(acts[..|acts| - 1]))
    ensures Tight(acts, key, l, from, later)
  {
    var init, a := acts[..|acts| - 1], acts[|acts| - 1];
    var s, s' := Run(init, false).state, Run(acts, false).state;
    AdmittedLast(acts, key, from0);
    hide Timed;
    LevelAfterCheck(s, a, key, l, LastTime(init), later);
    hide Run, Admitted, KeyLevel, AfterCheck, Verdict, Capacity, Min, KeyBucket, Key, CreateLimiter, Level;
    TightLater(acts, key, l, from0, a.now, later);
    from := if KeyLevel(s', key, l, a.now) + l.rate * (later - a.now) <= Capacity(l) then from0 else later;
  }

  /** Until the bucket is full again the tight interval grows; from then on an empty one is tight. */
  lemma TightLater(acts: seq<Action>, key: string, l: Limits, from: int, now: int, later: int)
    requires Timed(acts) && LastTime(acts) == now <= later && Tight(acts, key, l, from, now)
    requires var s := Run(acts, false).state;
             && KeyLevel(s, key, l, later) == Min(Capacity(l), KeyLevel(s, key, l, now) + l.rate * (later - now))
             && KeyLevel(s, key, l, now) <= Capacity(l)
    ensures Tight(acts, key, l,
                  if KeyLevel(Run(acts, false).state, key, l, now) + l.rate * (later - now) <= Capacity(l)
                  then from else later,
                  later)
  {
    hide Run, Admitted, KeyLevel, Timed, Capacity;
    var o := Run(acts, false);
    var level := KeyLevel(o.state, key, l, now);
    AdmittedTo(acts, o.verdicts, key, from, now, later);
    Distribute(l.rate, from, now, later);
    if level + l.rate * (later - now) > Capacity(l) {
      Later(l.rate, now, later);
      NothingYet(acts, o.verdicts, key, later, later);
    }
  }

  lemma Distribute(r: int, a: int, b: int, c: int)
    ensures r * (b - a) + r * (c - b) == r * (c - a)
  {
  }

  lemma Later(r: int, now: int, later: int)
    ensures r * (later - now) > 0 && now <= later ==> now < later
    ensures r * (later - later) == 0
  {
  }

  lemma AdmittedLast(acts: seq<Action>, key: string, from: int)
    requires acts != [] && acts[|acts| - 1].Check? && Key(acts[|acts| - 1].user, acts[|acts| - 1].msgType) == key
    requires from <= LastTime(acts)
    ensures var init, a := acts[..|acts| - 1], acts[|acts| - 1];
            Admitted(acts, Run(acts, false).verdicts, key, from, a.now)
            == Admitted(init, Run(init, false).verdicts, key, from, a.now)
               + if Verdict(Run(init, false).state, a.user, a.msgType, a.now) then 1 else 0
  {
    var v := Run(acts[..|acts| - 1], false).verdicts;
    assert Run(acts, false).verdicts[..|v|] == v;
    hide Verdict, AfterCheck, CreateLimiter;
  }

  lemma LevelAfterCheck(s: State, a: Action, key: string, l: Limits, before: int, later: int)
    requires a.Check? && Key(a.user, a.msgType) == key && CreateLimiter(a.msgType) == l
    requires KeyBucket(s, key, l, before) && before <= a.now <= later
    ensures var s' := AfterCheck(s, a.user, a.msgType, a.now);
            && KeyLevel(s', key, l, a.now)
                 == KeyLevel(s, key, l, a.now) - (if Verdict(s, a.user, a.msgType, a.now) then TOKEN else 0)
            && KeyLevel(s', key, l, later) == Min(Capacity(l), KeyLevel(s', key, l, a.now) + l.rate * (later - a.now))
            && KeyLevel(s', key, l, a.now) <= Capacity(l)
  {
    var b := BucketFor(s, a.user, a.msgType, a.now);
    LevelSplits(b, a.now, later);
    MulMonotone(0, l.rate, later - a.now);
  }

  lemma LevelSplits(b: Bucket, now: int, later: int)
    requires b.last <= now <= later
    ensures Level(b, later) == Min(Capacity(b.limits), Level(b, now) + b.limits.rate * (later - now))
  {
    assert b.limits.rate * (later - b.last) == b.limits.rate * (now - b.last) + b.limits.rate * (later - now);
    MulMonotone(0, b.limits.rate, later - now);
  }

  /** No check lies behind the last one. */
  lemma {:induction false} AdmittedTo(
      acts: seq<Action>, verdicts: seq<bool>, key: string, from: int, end: int, later: int)
    requires Timed(acts) && LastTime(acts) <= end <= later
    ensures Admitted(acts, verdicts, key, from, end) == Admitted(acts, verdicts, key, from, later)
    decreases acts
  {
    if acts != [] {
      var init := acts[..|acts| - 1];
      assert init != [] ==> LastTime(init) <= LastTime(acts);
      if verdicts != [] {
        AdmittedTo(init, verdicts[..|verdicts| - 1], key, from, end, later);
      }
      AdmittedTo(init, verdicts, key, from, end, later);
    }
  }

  /** One more admission now would break the bound of `AdmissionBound` for the interval from `from` on. */
  ghost predicate Exceeds(acts: seq<Action>, key: string, l: Limits, from: int, now: int) {
    && from <= now
    && (Admitted(acts, Run(acts, true).verdicts, key, from, now) + 1) * TOKEN > l.burst * TOKEN + l.rate * (now - from)
  }

  lemma VerdictOfLevel(s: State, user: string, msgType: string, now: int)
    ensures Verdict(s, user, msgType, now) <==> KeyLevel(s, Key(user, msgType), CreateLimiter(msgType), now) >= TOKEN
  {
    hide Key, CreateLimiter;
  }

  lemma VerdictIsLevel(acts: seq<Action>, user: string, msgType: string, now: int)
    requires Timed(acts) && LastTime(acts) <= now && KeysAgree(acts + [Check(user, msgType, 0)]) && KeysAgree(acts)
    ensures Run(acts, true).verdicts == Run(acts, false).verdicts
    ensures Verdict(Run(acts, true).state, user, msgType, now)
            <==> KeyLevel(Run(acts, false).state, Key(user, msgType), CreateLimiter(msgType), now) >= TOKEN
  {
    var r := Run(acts, false).state;
    EvictionUnobservable(acts);
    if Key(user, msgType) in r.limiters {
      LimitsOfKeys(acts, msgType, user);
    }
    assert 0 <= LastTime(acts);
    hide Run, KeysAgree, Key, CreateLimiter, Timed, Simulates, AfterCheck;
    CheckSimulates(Run(acts, true).state, r, user, msgType, LastTime(acts), now);
    VerdictOfLevel(r, user, msgType, now);
  }

  /** A check is refused exactly when admitting it would exceed the rate over some interval that ends now. */
  lemma RefusedIff(acts: seq<Action>, user: string, msgType: string, now: int)
    requires Timed(acts) && LastTime(acts) <= now && KeysAgree(acts + [Check(user, msgType, 0)])
    ensures !Verdict(Run(acts, true).state, user, msgType, now)
            <==> exists from :: Exceeds(acts, Key(user, msgType), CreateLimiter(msgType), from, now)
  {
    hide Timed, KeysAgree, KeyHasLimits, Run, Verdict, Admitted, KeyLevel, Key, CreateLimiter;
    var key, l := Key(user, msgType), CreateLimiter(msgType);
    AgreeingTail(acts, user, msgType);
    VerdictIsLevel(acts, user, msgType, now);
    var from := TightAt(acts, key, l, now);
    if !Verdict(Run(acts, true).state, user, msgType, now) {
      assert Exceeds(acts, key, l, from, now);
    }
    forall from' | Exceeds(acts, key, l, from', now) ensures !Verdict(Run(acts, true).state, user, msgType, now) {
      Budget(acts, key, l, from', now, now);
    }
  }

  lemma AgreeingTail(acts: seq<Action>, user: string, msgType: string)
    requires KeysAgree(acts + [Check(user, msgType, 0)])
    ensures KeysAgree(acts) && KeyHasLimits(acts, Key(user, msgType), CreateLimiter(msgType))
  {
    var all := acts + [Check(user, msgType, 0)];
    assert all[|acts|] == Check(user, msgType, 0);
    assert forall i :: 0 <= i < |acts| ==> all[i] == acts[i];
  }

  // ---------- What each type of message is allowed ----------

  /** A bucket asked n times at one moment. */
  function Asked(b: Bucket, now: int, n: nat): Bucket
    decreases n
  {
    if n == 0 then b else Take(Asked(b, now, n - 1), now)
  }

  lemma {:induction false} AskedLevel(l: Limits, now: int, n: nat)
    ensures Asked(NewBucket(l, now), now, n).limits == l && Asked(NewBucket(l, now), now, n).last == now
    ensures Asked(NewBucket(l, now), now, n).level == (if n <= l.burst then l.burst - n else 0) * TOKEN
    decreases n
  {
    assert l.rate * 0 == 0;
    if n > 0 {
      AskedLevel(l, now, n - 1);
    }
  }

  /** A new bucket lets exactly its burst through at once. */
  lemma BurstAtOnce(l: Limits, now: int, n: nat)
    ensures Allows(Asked(NewBucket(l, now), now, n), now) <==> n < l.burst
  {
    AskedLevel(l, now, n);
    assert l.rate * 0 == 0;
  }

  /** A drained bucket holds its rate after a second, as far as its burst goes. */
  lemma RateAfterSecond(l: Limits, now: int)
    ensures Level(Asked(NewBucket(l, now), now, l.burst), now + SECOND)
            == (if l.rate <= l.burst then l.rate else l.burst) * TOKEN
  {
    AskedLevel(l, now, l.burst);
    assert l.rate * (now + SECOND - now) == l.rate * SECOND;
  }

  /**
   The first checks of a user at one moment: ten texts are let through and no more, two commands, five
   typing signs, three files, and fifty of anything else.
   */
  lemma FirstChecks(msgType: string, now: int, n: nat)
    ensures Allows(Asked(NewBucket(CreateLimiter(msgType), now), now, n), now)
            <==> n < (match msgType
                  case "text" => 10 case "command" => 2 case "typing" => 5 case "file" => 3 case _ => 50)
  {
    BurstAtOnce(CreateLimiter(msgType), now, n);
  }

  /** A second later a drained bucket lets as many through again, but of files only one. */
  lemma ChecksAfterSecond(msgType: string, now: int)
    ensures var l := CreateLimiter(msgType);
            Level(Asked(NewBucket(l, now), now, l.burst), now + SECOND)
            == TOKEN * (match msgType
                  case "text" => 10 case "command" => 2 case "typing" => 5 case "file" => 1 case _ => 50)
  {
    RateAfterSecond(CreateLimiter(msgType), now);
  }

  /** A check asks its key's bucket and no other, notes the time, and makes the bucket if there is none. */
  lemma CheckDoes(s: State, user: string, msgType: string, now: int, k: string)
    ensures var s' := AfterCheck(s, user, msgType, now);
            var key := user + ":" + msgType;
            && key in s'.limiters && key in s'.lastUsed && s'.lastUsed[key] == now
            && (key !in s.limiters ==>
                 Verdict(s, user, msgType, now) == Allows(NewBucket(CreateLimiter(msgType), now), now))
            && (key in s.limiters ==> Verdict(s, user, msgType, now) == Allows(s.limiters[key], now))
            && (k != key ==> && (k in s'.limiters <==> k in s.limiters) && (k in s'.lastUsed <==> k in s.lastUsed)
                             && (k in s.limiters ==> s'.limiters[k] == s.limiters[k])
                             && (k in s.lastUsed ==> s'.lastUsed[k] == s.lastUsed[k]))
  {
  }

  /** The cleanup keeps exactly the keys used in the last ten minutes, with their buckets. */
  lemma CleanupDoes(s: State, now: int, k: string)
    requires s.lastUsed.Keys == s.limiters.Keys
    ensures var s' := AfterCleanup(s, now);
            && (k in s'.limiters <==> k in s.limiters && now - s.lastUsed[k] <= 600_000_000_000)
            && s'.lastUsed.Keys == s'.limiters.Keys
            && (k in s'.limiters ==> s'.limiters[k] == s.limiters[k] && s'.lastUsed[k] == s.lastUsed[k])
  {
  }
}
