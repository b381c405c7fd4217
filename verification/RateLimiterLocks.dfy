/**
 The rate limiter at the grain of its locks: a check takes its bucket from the map under one lock
 and asks the bucket later, under the bucket's own; the cleanup may come in between.
 */
module RateLimiterLocks {
  import opened Wrappers
  import RateLimiter

  type Bucket = RateLimiter.Bucket

  /** A check that took bucket `bucket` of its key from the map at time `at`, and is yet to ask it. */
  datatype Call = Call(key: string, bucket: nat, at: int)

  /**
   The two maps and the buckets; and as history the bucket each key would have were none ever
   evicted, the verdicts given, and the verdicts those buckets would have given.
   */
  datatype State = State(
    limiters: map<string, nat>,
    lastUsed: map<string, int>,
    buckets: seq<Bucket>,
    calls: map<nat, Call>,
    reference: map<string, Bucket>,
    verdicts: seq<bool>,
    expected: seq<bool>)

  datatype Action =
    | Lookup(call: nat, user: string, msgType: string, now: int)
    | Ask(call: nat, now: int)
    | Cleanup(now: int)

  const INIT := State(map[], map[], [], map[], map[], [], [])

  /** Checks that share a key ask for the same limits. */
  ghost predicate Enabled(s: State, before: int, a: Action) {
    before <= a.now &&
    match a
    case Lookup(c, user, msgType, _) =>
      var key := RateLimiter.Key(user, msgType);
      && c !in s.calls
      && (key in s.reference ==> s.reference[key].limits == RateLimiter.CreateLimiter(msgType))
    case Ask(c, _) => c in s.calls && s.calls[c].bucket < |s.buckets| && s.calls[c].key in s.reference
    case Cleanup(_) => true
  }

  function AfterLookup(s: State, c: nat, key: string, limits: RateLimiter.Limits, now: int): State {
    var full := RateLimiter.NewBucket(limits, now);
    var b := if key in s.limiters then s.limiters[key] else |s.buckets|;
    s.(limiters := s.limiters[key := b], lastUsed := s.lastUsed[key := now],
       buckets := if key in s.limiters then s.buckets else s.buckets + [full],
       calls := s.calls[c := Call(key, b, now)],
       reference := if key in s.reference then s.reference else s.reference[key := full])
  }

  function AfterAsk(s: State, c: nat, now: int): State
    requires c in s.calls && s.calls[c].bucket < |s.buckets| && s.calls[c].key in s.reference
  {
    var b, r := s.buckets[s.calls[c].bucket], s.reference[s.calls[c].key];
    s.(buckets := s.buckets[s.calls[c].bucket := RateLimiter.Take(b, now)], calls := s.calls - {c},
       reference := s.reference[s.calls[c].key := RateLimiter.Take(r, now)],
       verdicts := s.verdicts + [RateLimiter.Allows(b, now)], expected := s.expected + [RateLimiter.Allows(r, now)])
  }

  predicate Idle(s: State, key: string, now: int) {
    key in s.limiters && (key !in s.lastUsed || now - s.lastUsed[key] > RateLimiter.IDLE)
  }

  function AfterCleanup(s: State, now: int): State {
    var idle := set k | k in s.limiters && Idle(s, k, now);
    s.(limiters := s.limiters - idle, lastUsed := s.lastUsed - idle)
  }

  ghost function Step(s: State, before: int, a: Action): State
    requires Enabled(s, before, a)
  {
    match a
    case Lookup(c, user, msgType, now) =>
      AfterLookup(s, c, RateLimiter.Key(user, msgType), RateLimiter.CreateLimiter(msgType), now)
    case Ask(c, now) => AfterAsk(s, c, now)
    case Cleanup(now) => AfterCleanup(s, now)
  }

  // ---------- When does an eviction show? ----------

  /** The two buckets answer alike from now on: they are one, or both have nothing left to refill. */
  ghost predicate Alike(b: Bucket, r: Bucket, now: int) {
    b == r || (b.limits == r.limits && RateLimiter.Full(b, now) && RateLimiter.Full(r, now))
  }

  ghost predicate Bounded(b: Bucket, now: int) {
    && b.limits.rate >= 1 && b.limits.burst >= 1 && 0 <= b.level <= RateLimiter.Capacity(b.limits) && b.last <= now
  }

  /** The map holds each key's own bucket, alike to the reference, and so does each call. */
  ghost predicate MapsOk(s: State, now: int) {
    && s.lastUsed.Keys == s.limiters.Keys && s.limiters.Keys <= s.reference.Keys
    && (forall k <- s.limiters :: s.limiters[k] < |s.buckets| && Alike(s.buckets[s.limiters[k]], s.reference[k], now))
    && (forall k, l :: k in s.limiters && l in s.limiters && s.limiters[k] == s.limiters[l] ==> k == l)
    && (forall k <- s.reference :: k !in s.limiters ==> RateLimiter.Full(s.reference[k], now))
  }

  ghost predicate CallsOk(s: State) {
    forall c <- s.calls ::
      && s.calls[c].key in s.limiters && s.limiters[s.calls[c].key] == s.calls[c].bucket
      && s.calls[c].key in s.lastUsed && s.calls[c].at <= s.lastUsed[s.calls[c].key]
  }

  ghost predicate BucketsOk(s: State, now: int) {
    && (forall i :: 0 <= i < |s.buckets| ==> Bounded(s.buckets[i], now))
    && (forall k <- s.reference :: Bounded(s.reference[k], now))
    && (forall k <- s.lastUsed :: s.lastUsed[k] <= now)
  }

  ghost predicate Inv(s: State, now: int) {
    MapsOk(s, now) && CallsOk(s) && BucketsOk(s, now) && s.verdicts == s.expected
  }

  /** Every bucket that is evicted is full, and no check is about to ask it. */
  ghost predicate Safe(s: State, a: Action) {
    a.Cleanup? ==> forall k :: Idle(s, k, a.now) ==>
                     && s.limiters[k] < |s.buckets| && RateLimiter.Full(s.buckets[s.limiters[k]], a.now)
                     && forall c <- s.calls :: s.calls[c].key != k
  }

  lemma AlikeLater(b: Bucket, r: Bucket, before: int, now: int)
    requires Alike(b, r, before) && before <= now && b.limits.rate >= 0
    ensures Alike(b, r, now) && RateLimiter.Level(b, now) == RateLimiter.Level(r, now)
  {
    if b != r {
      RateLimiter.FullStaysFull(b, before, now);
      RateLimiter.FullStaysFull(r, before, now);
    }
  }

  lemma TakeAlike(b: Bucket, r: Bucket, before: int, now: int)
    requires Alike(b, r, before) && before <= now && Bounded(b, before) && Bounded(r, before)
    ensures RateLimiter.Allows(b, now) == RateLimiter.Allows(r, now)
    ensures Alike(RateLimiter.Take(b, now), RateLimiter.Take(r, now), now)
    ensures Bounded(RateLimiter.Take(b, now), now) && Bounded(RateLimiter.Take(r, now), now)
  {
    AlikeLater(b, r, before, now);
    RateLimiter.LevelBounds(b, now);
    RateLimiter.LevelBounds(r, now);
  }

  lemma LimitsOfTypes(msgType: string, now: int)
    ensures Bounded(RateLimiter.NewBucket(RateLimiter.CreateLimiter(msgType), now), now)
    ensures RateLimiter.Full(RateLimiter.NewBucket(RateLimiter.CreateLimiter(msgType), now), now)
  {
    assert RateLimiter.CreateLimiter(msgType).rate * 0 == 0;
  }

  lemma LaterKeeps(s: State, before: int, now: int)
    requires Inv(s, before) && before <= now
    ensures Inv(s, now)
  {
    forall k <- s.limiters ensures Alike(s.buckets[s.limiters[k]], s.reference[k], now) {
      AlikeLater(s.buckets[s.limiters[k]], s.reference[k], before, now);
    }
    forall k <- s.reference | k !in s.limiters ensures RateLimiter.Full(s.reference[k], now) {
      RateLimiter.FullStaysFull(s.reference[k], before, now);
    }
  }

  lemma LookupKeepsMaps(s: State, a: Action, now: int)
    requires a.Lookup? && MapsOk(s, now) && Enabled(s, now, a) && a.now == now
    ensures MapsOk(Step(s, now, a), now)
  {
    LimitsOfTypes(a.msgType, now);
    var key, limits := RateLimiter.Key(a.user, a.msgType), RateLimiter.CreateLimiter(a.msgType);
    var full := RateLimiter.NewBucket(limits, now);
    assert full.limits == limits;
    hide RateLimiter.CreateLimiter, RateLimiter.Key, RateLimiter.Full, RateLimiter.NewBucket, Bounded;
    assert key in s.reference && key !in s.limiters ==> Alike(full, s.reference[key], now);
    hide Alike;
    if key in s.limiters {
      assert s.limiters[key := s.limiters[key]] == s.limiters;
    } else {
      NewKeyKeepsMaps(s, key, full, now);
    }
  }

  lemma NewKeyKeepsMaps(s: State, key: string, full: Bucket, now: int)
    requires MapsOk(s, now) && key !in s.limiters
    requires key in s.reference ==> Alike(full, s.reference[key], now)
    ensures MapsOk(s.(limiters := s.limiters[key := |s.buckets|], lastUsed := s.lastUsed[key := now],
                      buckets := s.buckets + [full],
                      reference := if key in s.reference then s.reference else s.reference[key := full]), now)
  {
    assert Alike(full, full, now);
    hide Alike, RateLimiter.Full;
  }

  lemma LookupKeepsCalls(s: State, a: Action, now: int)
    requires a.Lookup? && MapsOk(s, now) && CallsOk(s) && BucketsOk(s, now) && Enabled(s, now, a) && a.now == now
    ensures CallsOk(Step(s, now, a))
  {
    hide RateLimiter.CreateLimiter, RateLimiter.Key, RateLimiter.Full, RateLimiter.NewBucket, Bounded, Alike;
    assert forall k <- s.limiters :: k in s.lastUsed && s.lastUsed[k] <= now;
    hide MapsOk, BucketsOk;
  }

  lemma LookupKeepsBuckets(s: State, a: Action, now: int)
    requires a.Lookup? && BucketsOk(s, now) && Enabled(s, now, a) && a.now == now
    ensures BucketsOk(Step(s, now, a), now)
  {
    LimitsOfTypes(a.msgType, now);
    hide RateLimiter.CreateLimiter, RateLimiter.Key, RateLimiter.Full, RateLimiter.NewBucket, Bounded;
  }

  lemma AskKeeps(s: State, a: Action, now: int)
    requires a.Ask? && Inv(s, now) && Enabled(s, now, a) && a.now == now
    ensures Inv(Step(s, now, a), now)
  {
    var key, b := s.calls[a.call].key, s.calls[a.call].bucket;
    assert key in s.limiters && s.limiters[key] == b;
    assert Bounded(s.buckets[b], now) && Bounded(s.reference[key], now);
    TakeAlike(s.buckets[b], s.reference[key], now, now);
    hide RateLimiter.Full, RateLimiter.Allows, RateLimiter.Take, Bounded, Alike, MapsOk, CallsOk, BucketsOk;
    TakenMaps(s, a.call, now);
    TakenBuckets(s, a.call, now);
    TakenCalls(s, a.call, now);
  }

  lemma TakenMaps(s: State, c: nat, now: int)
    requires MapsOk(s, now) && c in s.calls && s.calls[c].key in s.limiters
    requires s.limiters[s.calls[c].key] == s.calls[c].bucket
    requires Alike(RateLimiter.Take(s.buckets[s.calls[c].bucket], now),
            RateLimiter.Take(s.reference[s.calls[c].key], now), now)
    ensures MapsOk(AfterAsk(s, c, now), now)
  {
    hide RateLimiter.Full, RateLimiter.Allows, RateLimiter.Take, Alike;
  }

  lemma TakenBuckets(s: State, c: nat, now: int)
    requires BucketsOk(s, now) && c in s.calls && s.calls[c].bucket < |s.buckets| && s.calls[c].key in s.reference
    requires Bounded(RateLimiter.Take(s.buckets[s.calls[c].bucket], now), now)
    requires Bounded(RateLimiter.Take(s.reference[s.calls[c].key], now), now)
    ensures BucketsOk(AfterAsk(s, c, now), now)
  {
    hide RateLimiter.Allows, RateLimiter.Take, Bounded;
  }

  lemma TakenCalls(s: State, c: nat, now: int)
    requires CallsOk(s) && c in s.calls && s.calls[c].bucket < |s.buckets| && s.calls[c].key in s.reference
    ensures CallsOk(AfterAsk(s, c, now))
  {
    hide RateLimiter.Allows, RateLimiter.Take;
  }

  lemma SafeCleanup(s: State, a: Action, now: int)
    requires a.Cleanup? && Inv(s, now) && a.now == now && Safe(s, a)
    ensures Inv(Step(s, now, a), now)
  {
    var s' := Step(s, now, a);
    hide RateLimiter.Full, Bounded, Alike;
    assert forall c <- s.calls :: !Idle(s, s.calls[c].key, now);
    assert CallsOk(s') by { hide MapsOk, BucketsOk; }
    assert BucketsOk(s', now) by { hide MapsOk, CallsOk; }
    hide CallsOk, BucketsOk;
    CleanMaps(s, a, now);
  }

  lemma CleanMaps(s: State, a: Action, now: int)
    requires a.Cleanup? && MapsOk(s, now) && a.now == now && Safe(s, a)
    ensures MapsOk(AfterCleanup(s, now), now)
  {
    var s' := AfterCleanup(s, now);
    forall k <- s.reference | k !in s'.limiters ensures RateLimiter.Full(s.reference[k], now) {
      if k in s.limiters {
        assert Idle(s, k, now) && Alike(s.buckets[s.limiters[k]], s.reference[k], now);
      }
    }
    hide RateLimiter.Full, Alike, Idle, Safe;
  }

  lemma UnsafeCleanup(s: State, a: Action, now: int)
    requires a.Cleanup? && Inv(s, now) && a.now == now && !Safe(s, a)
    ensures !Inv(Step(s, now, a), now)
  {
    var s' := Step(s, now, a);
    var k :| && Idle(s, k, now)
             && !(s.limiters[k] < |s.buckets| && RateLimiter.Full(s.buckets[s.limiters[k]], now)
                  && forall c <- s.calls :: s.calls[c].key != k);
    assert k !in s'.limiters && k in s'.reference && Alike(s.buckets[s.limiters[k]], s.reference[k], now);
    hide Bounded, BucketsOk, Idle;
  }

  /**
   A step keeps the maps alike to a limiter that never evicts exactly if it is safe: only a cleanup can
   fail to be, by evicting a bucket that has not refilled or one that a check is about to ask.
   */
  lemma StepKeepsIff(s: State, before: int, a: Action)
    requires Inv(s, before) && Enabled(s, before, a)
    ensures Inv(Step(s, before, a), a.now) <==> Safe(s, a)
  {
    hide Inv, MapsOk, CallsOk, BucketsOk, Safe;
    LaterKeeps(s, before, a.now);
    SafeUnlessCleanup(s, a);
    match a
    case Lookup(_, _, _, now) => LookupKeeps(s, a, now);
    case Ask(_, now) => AskKeeps(s, a, now);
    case Cleanup(now) => CleanupKeepsIff(s, a, now);
  }

  lemma SafeUnlessCleanup(s: State, a: Action)
    ensures !a.Cleanup? ==> Safe(s, a)
  {
  }

  lemma LookupKeeps(s: State, a: Action, now: int)
    requires a.Lookup? && Inv(s, now) && Enabled(s, now, a) && a.now == now
    ensures Inv(Step(s, now, a), now)
  {
    LookupKeepsMaps(s, a, now);
    LookupKeepsCalls(s, a, now);
    LookupKeepsBuckets(s, a, now);
    hide MapsOk, CallsOk, BucketsOk, RateLimiter.CreateLimiter, RateLimiter.Key, RateLimiter.NewBucket;
  }

  lemma CleanupKeepsIff(s: State, a: Action, now: int)
    requires a.Cleanup? && Inv(s, now) && a.now == now
    ensures Inv(Step(s, now, a), now) <==> Safe(s, a)
  {
    hide Inv, Safe, Step;
    if Safe(s, a) {
      SafeCleanup(s, a, now);
    } else {
      UnsafeCleanup(s, a, now);
    }
  }

  // ---------- Checks that do not stall ----------

  const REFILL := 3 * SECOND

  /** A check asks its bucket within nine minutes and 57 seconds, and no cleanup finds one that is overdue. */
  ghost predicate Prompt(s: State, a: Action) {
    match a
    case Lookup(_, _, _, _) => true
    case Ask(c, now) => c in s.calls && now - s.calls[c].at <= RateLimiter.IDLE - REFILL
    case Cleanup(now) => forall c <- s.calls :: now - s.calls[c].at <= RateLimiter.IDLE - REFILL
  }

  /** A bucket was last asked, or made, less than the idle time short of its refill after its key was last used. */
  ghost predicate AskedEarly(s: State) {
    && s.lastUsed.Keys == s.limiters.Keys
    && (forall k <- s.limiters ::
          && s.limiters[k] < |s.buckets|
          && s.buckets[s.limiters[k]].last <= s.lastUsed[k] + (RateLimiter.IDLE - REFILL)
          && Quick(s.buckets[s.limiters[k]].limits))
  }

  /** The limits of the table: an empty bucket refills in three seconds. */
  ghost predicate Quick(l: RateLimiter.Limits) { RateLimiter.Capacity(l) <= l.rate * REFILL }

  lemma QuickTypes(msgType: string)
    ensures Quick(RateLimiter.CreateLimiter(msgType))
  {
  }

  lemma QuickIsFull(b: Bucket, now: int)
    requires Quick(b.limits) && 0 <= b.level && now - b.last >= REFILL
    ensures RateLimiter.Full(b, now)
  {
    RateLimiter.MulMonotone(REFILL, now - b.last, b.limits.rate);
    assert b.limits.rate * REFILL == REFILL * b.limits.rate;
    assert b.limits.rate * (now - b.last) == (now - b.last) * b.limits.rate;
  }

  lemma PromptIsSafe(s: State, before: int, a: Action)
    requires Inv(s, before) && Enabled(s, before, a) && AskedEarly(s) && Prompt(s, a)
    ensures Safe(s, a)
  {
    if a.Cleanup? {
      forall k | Idle(s, k, a.now)
        ensures s.limiters[k] < |s.buckets| && RateLimiter.Full(s.buckets[s.limiters[k]], a.now)
        ensures forall c <- s.calls :: s.calls[c].key != k {
        assert Bounded(s.buckets[s.limiters[k]], before);
        QuickIsFull(s.buckets[s.limiters[k]], a.now);
      }
    }
  }

  lemma PromptKeepsEarly(s: State, before: int, a: Action)
    requires Inv(s, before) && Enabled(s, before, a) && AskedEarly(s) && Prompt(s, a)
    ensures AskedEarly(Step(s, before, a))
  {
    hide Alike, Bounded, Quick;
    match a
    case Lookup(_, user, msgType, now) =>
      QuickTypes(msgType);
      assert forall k <- s.lastUsed :: s.lastUsed[k] <= now;
      assert RateLimiter.NewBucket(RateLimiter.CreateLimiter(msgType), now).last == now;
      hide MapsOk, CallsOk, BucketsOk;
      LookupIsEarly(s, a.call, RateLimiter.Key(user, msgType), RateLimiter.CreateLimiter(msgType), now);
    case Ask(c, now) =>
      hide BucketsOk;
      AskIsEarly(s, c, now);
    case Cleanup(_) =>
      hide MapsOk, CallsOk, BucketsOk;
  }

  lemma LookupIsEarly(s: State, c: nat, key: string, limits: RateLimiter.Limits, now: int)
    requires AskedEarly(s) && Quick(limits) && forall k <- s.lastUsed :: s.lastUsed[k] <= now
    ensures AskedEarly(AfterLookup(s, c, key, limits, now))
  {
    hide Quick;
  }

  lemma AskIsEarly(s: State, c: nat, now: int)
    requires AskedEarly(s) && CallsOk(s) && c in s.calls && s.calls[c].bucket < |s.buckets|
            && s.calls[c].key in s.reference
    requires forall k, l :: k in s.limiters && l in s.limiters && s.limiters[k] == s.limiters[l] ==> k == l
    requires now - s.calls[c].at <= RateLimiter.IDLE - REFILL
    ensures AskedEarly(AfterAsk(s, c, now))
  {
    hide Quick;
  }

  // ---------- Whole runs ----------

  ghost predicate ValidRun(s: State, before: int, acts: seq<Action>)
    decreases acts
  {
    acts == [] || (Enabled(s, before, acts[0]) && ValidRun(Step(s, before, acts[0]), acts[0].now, acts[1..]))
  }

  ghost function Run(s: State, before: int, acts: seq<Action>): State
    requires ValidRun(s, before, acts)
    decreases acts
  {
    if acts == [] then s else Run(Step(s, before, acts[0]), acts[0].now, acts[1..])
  }

  ghost predicate PromptRun(s: State, before: int, acts: seq<Action>)
    requires ValidRun(s, before, acts)
    decreases acts
  {
    acts == [] || (Prompt(s, acts[0]) && PromptRun(Step(s, before, acts[0]), acts[0].now, acts[1..]))
  }

  lemma {:induction false} PromptRunKeeps(s: State, before: int, acts: seq<Action>)
    requires Inv(s, before) && AskedEarly(s) && ValidRun(s, before, acts) && PromptRun(s, before, acts)
    ensures Run(s, before, acts).verdicts == Run(s, before, acts).expected
    decreases acts
  {
    hide Enabled, Step, Prompt, AskedEarly, MapsOk, CallsOk, BucketsOk, Safe;
    if acts != [] {
      PromptIsSafe(s, before, acts[0]);
      StepKeepsIff(s, before, acts[0]);
      PromptKeepsEarly(s, before, acts[0]);
      PromptRunKeeps(Step(s, before, acts[0]), acts[0].now, acts[1..]);
    }
  }

  /**
   In every interleaving of lookups, questions and cleanups in which no check stalls for more than nine
   minutes and 57 seconds, each verdict is that of a limiter that never evicts.
   */
  lemma EvictionUnobservable(acts: seq<Action>)
    requires ValidRun(INIT, 0, acts) && PromptRun(INIT, 0, acts)
    ensures Run(INIT, 0, acts).verdicts == Run(INIT, 0, acts).expected
  {
    PromptRunKeeps(INIT, 0, acts);
  }

  // ---------- A check that does stall ----------

  ghost predicate Reached(s: State, now: int) {
    exists acts :: ValidRun(INIT, 0, acts) && Run(INIT, 0, acts) == s && LastTime(acts) == now
  }

  function LastTime(acts: seq<Action>): int { if acts == [] then 0 else acts[|acts| - 1].now }

  lemma {:induction false} RunSnoc(s: State, before: int, acts: seq<Action>, a: Action)
    requires ValidRun(s, before, acts)
    requires Enabled(Run(s, before, acts), if acts == [] then before else LastTime(acts), a)
    ensures ValidRun(s, before, acts + [a])
    ensures Run(s, before, acts + [a])
            == Step(Run(s, before, acts), if acts == [] then before else LastTime(acts), a)
    decreases acts
  {
    hide Enabled, Step;
    if acts == [] {
      var t := Step(s, before, a);
      assert ValidRun(t, a.now, []) && Run(t, a.now, []) == t;
      assert (acts + [a])[1..] == [];
      assert ValidRun(s, before, acts + [a]);
      assert Run(s, before, acts + [a]) == Run(t, a.now, (acts + [a])[1..]);
    } else {
      assert (acts + [a])[1..] == acts[1..] + [a];
      RunSnoc(Step(s, before, acts[0]), acts[0].now, acts[1..], a);
    }
  }

  lemma Then(s: State, before: int, a: Action) returns (s': State)
    requires Reached(s, before) && Enabled(s, before, a)
    ensures s' == Step(s, before, a) && Reached(s', a.now)
  {
    hide Enabled, Step;
    var acts :| ValidRun(INIT, 0, acts) && Run(INIT, 0, acts) == s && LastTime(acts) == before;
    RunSnoc(INIT, 0, acts, a);
    s' := Step(s, before, a);
  }

  const TWO := RateLimiter.Limits(2, 2)

  /** Two checks have looked their bucket up at 0. */
  lemma TwoStall(user: string) returns (s: State)
    ensures Reached(s, 0)
    ensures var key := RateLimiter.Key(user, "command");
            s == State(map[key := 0], map[key := 0], [RateLimiter.NewBucket(TWO, 0)],
                       map[0 := Call(key, 0, 0), 1 := Call(key, 0, 0)], map[key := RateLimiter.NewBucket(TWO, 0)], [],
                           [])
  {
    assert RateLimiter.CreateLimiter("command") == TWO;
    assert ValidRun(INIT, 0, []) && Run(INIT, 0, []) == INIT && LastTime([]) == 0;
    assert Reached(INIT, 0);
    hide Reached, RateLimiter.Key, RateLimiter.CreateLimiter, RateLimiter.NewBucket;
    var s1 := Then(INIT, 0, Lookup(0, user, "command", 0));
    s := Then(s1, 0, Lookup(1, user, "command", 0));
  }

  /** They drain it ten minutes later. */
  lemma TwoDrain(user: string) returns (s: State)
    ensures Reached(s, RateLimiter.IDLE)
    ensures var key := RateLimiter.Key(user, "command");
            var b := RateLimiter.Bucket(TWO, 0, RateLimiter.IDLE);
            s == State(map[key := 0], map[key := 0], [b], map[], map[key := b], [true, true], [true, true])
  {
    var late := RateLimiter.IDLE;
    var s0 := TwoStall(user);
    var b0 := RateLimiter.NewBucket(TWO, 0);
    var b1 := RateLimiter.Take(b0, late);
    assert RateLimiter.Allows(b0, late) && b1 == RateLimiter.Bucket(TWO, RateLimiter.TOKEN, late);
    assert RateLimiter.Allows(b1, late) && RateLimiter.Take(b1, late) == RateLimiter.Bucket(TWO, 0, late);
    hide Reached, RateLimiter.Key, RateLimiter.NewBucket, RateLimiter.Take, RateLimiter.Allows;
    var s1 := Then(s0, 0, Ask(0, late));
    s := Then(s1, late, Ask(1, late));
    assert s.calls == map[];
  }

  /**
   Two checks look their bucket up and stall for ten minutes before they drain it. Their key is idle
   all the same, the bucket is evicted, and the next check is let through by a full one.
   */
  lemma StalledChecksShow(user: string)
    ensures exists s, now :: Reached(s, now) && s.verdicts == [true, true, true] && s.expected == [true, true, false]
  {
    var key, late := RateLimiter.Key(user, "command"), RateLimiter.IDLE + 1;
    assert RateLimiter.CreateLimiter("command") == TWO;
    var s0 := TwoDrain(user);
    assert !RateLimiter.Allows(s0.reference[key], late) && RateLimiter.Allows(RateLimiter.NewBucket(TWO, late), late);
    hide Reached, RateLimiter.Key, RateLimiter.NewBucket, RateLimiter.Take, RateLimiter.Allows,
        RateLimiter.CreateLimiter;
    var s1 := Then(s0, RateLimiter.IDLE, Cleanup(late));
    assert s1.limiters == map[];
    var s2 := Then(s1, late, Lookup(0, user, "command", late));
    var s3 := Then(s2, late, Ask(0, late));
    assert s3.verdicts == [true, true, true];
  }

  // ---------- The two steps as one ----------

  /** The maps as the limiter of one step per check has them. */
  function Maps(s: State): RateLimiter.State {
    RateLimiter.State(map k | k in s.limiters && s.limiters[k] < |s.buckets| :: s.buckets[s.limiters[k]], s.lastUsed)
  }

  /** A check whose two steps follow one another is the check of one step. */
  lemma CheckInOneStep(s: State, c: nat, user: string, msgType: string, now: int)
    requires MapsOk(s, now) && Enabled(s, now, Lookup(c, user, msgType, now))
    ensures var u := AfterLookup(s, c, RateLimiter.Key(user, msgType), RateLimiter.CreateLimiter(msgType), now);
            var t := AfterAsk(u, c, now);
            && t.calls == s.calls && Maps(t) == RateLimiter.AfterCheck(Maps(s), user, msgType, now)
            && t.verdicts == s.verdicts + [RateLimiter.Verdict(Maps(s), user, msgType, now)]
  {
    var key, limits := RateLimiter.Key(user, msgType), RateLimiter.CreateLimiter(msgType);
    hide RateLimiter.Take, RateLimiter.Allows, RateLimiter.NewBucket, RateLimiter.CreateLimiter, RateLimiter.Key;
    hide RateLimiter.Full, Alike;
    var u := AfterLookup(s, c, key, limits, now);
    assert u.buckets[u.limiters[key]] == RateLimiter.BucketFor(Maps(s), user, msgType, now);
    LookupMaps(s, c, key, limits, now);
    AskMaps(u, c, key, now);
  }

  lemma LookupMaps(s: State, c: nat, key: string, limits: RateLimiter.Limits, now: int)
    requires MapsOk(s, now) && c !in s.calls
    ensures var u := AfterLookup(s, c, key, limits, now);
            && u.calls - {c} == s.calls && (forall k <- u.limiters :: u.limiters[k] < |u.buckets|)
            && (forall k :: k in u.limiters && k != key ==> u.limiters[k] != u.limiters[key])
            && Maps(u) == RateLimiter.State(Maps(s).limiters[key := u.buckets[u.limiters[key]]], s.lastUsed[key := now])
  {
    hide RateLimiter.NewBucket, RateLimiter.Full, Alike;
    var u := AfterLookup(s, c, key, limits, now);
    assert Maps(u).limiters == Maps(s).limiters[key := u.buckets[u.limiters[key]]];
  }

  lemma AskMaps(u: State, c: nat, key: string, now: int)
    requires c in u.calls && key in u.limiters && u.calls[c].key == key && u.calls[c].bucket == u.limiters[key]
    requires key in u.reference && forall k <- u.limiters :: u.limiters[k] < |u.buckets|
    requires forall k :: k in u.limiters && k != key ==> u.limiters[k] != u.limiters[key]
    ensures Maps(AfterAsk(u, c, now))
            == RateLimiter.State(
                 Maps(u).limiters[key := RateLimiter.Take(u.buckets[u.limiters[key]], now)], u.lastUsed)
  {
    hide RateLimiter.Take, RateLimiter.Allows;
    assert Maps(AfterAsk(u, c, now)).limiters
        == Maps(u).limiters[key := RateLimiter.Take(u.buckets[u.limiters[key]], now)];
  }

  /** The cleanup of the one is that of the other. */
  lemma SameCleanup(s: State, now: int)
    requires forall k <- s.limiters :: s.limiters[k] < |s.buckets|
    ensures Maps(AfterCleanup(s, now)) == RateLimiter.AfterCleanup(Maps(s), now)
  {
    var m := Maps(s);
    var idle := RateLimiter.IdleKeys(m, now);
    assert idle == set k | k in s.limiters && Idle(s, k, now);
    hide RateLimiter.IdleKeys, Idle;
    var limiters := s.limiters - idle;
    assert (map k | k in limiters && limiters[k] < |s.buckets| :: s.buckets[limiters[k]]) == m.limiters - idle;
  }
}
