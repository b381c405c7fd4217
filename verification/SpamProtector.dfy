/** The sliding-window spam check: at most twenty messages a minute for each user. */
module SpamProtector {
  import opened Wrappers

  const LIMIT := 20

  /** The times of the list that are less than a minute before `now`, in their order. */
  function Recent(times: seq<int>, now: int): seq<int>
    decreases times
  {
    if times == [] then []
    else
      var rest := Recent(times[..|times| - 1], now);
      if now - times[|times| - 1] < MINUTE then rest + [times[|times| - 1]] else rest
  }

  type Table = map<string, seq<int>>

  function Times(t: Table, user: string): seq<int> { if user in t then t[user] else [] }

  /** The code's verdict, over the list as it was pruned at the last allowed message. */
  function Verdict(t: Table, user: string, now: int): bool { |Recent(Times(t, user), now)| < LIMIT }

  /** A refused message leaves the list as it was, unpruned. */
  function AfterAllow(t: Table, user: string, now: int): Table {
    if Verdict(t, user, now) then t[user := Recent(Times(t, user), now) + [now]] else t
  }

  class SpamProtector {
    var lastMessages: Table

    constructor ()
      ensures lastMessages == map[]
    {
      lastMessages := map[];
    }

    method Allow(user: string, now: int) returns (ok: bool)
      modifies this
      ensures ok == Verdict(old(lastMessages), user, now)
      ensures lastMessages == AfterAllow(old(lastMessages), user, now)
    {
      var messages := if user in lastMessages then lastMessages[user] else [];
      var filtered := [];
      for i := 0 to |messages|
        invariant filtered == Recent(messages[..i], now)
      {
        assert messages[..i + 1][..i] == messages[..i];
        if now - messages[i] < MINUTE {
          filtered := filtered + [messages[i]];
        }
      }
      assert messages[..|messages|] == messages;
      if |filtered| >= LIMIT {
        return false;
      }
      filtered := filtered + [now];
      lastMessages := lastMessages[user := filtered];
      return true;
    }
  }

  // ---------- Runs, and the history nothing is pruned from ----------

  datatype Request = Request(user: string, now: int)

  function Run(reqs: seq<Request>): Table
    decreases reqs
  {
    if reqs == [] then map[]
    else AfterAllow(Run(reqs[..|reqs| - 1]), reqs[|reqs| - 1].user, reqs[|reqs| - 1].now)
  }

  ghost predicate Timed(reqs: seq<Request>) {
    forall i, j :: 0 <= i < j < |reqs| ==> reqs[i].now <= reqs[j].now
  }

  /** How many of the times lie less than a minute before `now`. */
  function CountRecent(times: seq<int>, now: int): nat
    decreases times
  {
    if times == [] then 0
    else CountRecent(times[..|times| - 1], now) + if now - times[|times| - 1] < MINUTE then 1 else 0
  }

  /** The reference: the times of all of a user's allowed messages, each admitted by counting all before it. */
  function History(reqs: seq<Request>, user: string): seq<int>
    decreases reqs
  {
    if reqs == [] then []
    else
      var h := History(reqs[..|reqs| - 1], user);
      var r := reqs[|reqs| - 1];
      if r.user == user && CountRecent(h, r.now) < LIMIT then h + [r.now] else h
  }

  lemma {:induction false} RecentCounts(times: seq<int>, now: int)
    ensures |Recent(times, now)| == CountRecent(times, now)
    decreases times
  {
    if times != [] {
      RecentCounts(times[..|times| - 1], now);
    }
  }

  /** Pruning earlier does not change what is recent later. */
  lemma {:induction false} RecentOfRecent(times: seq<int>, now: int, later: int)
    requires now <= later
    ensures Recent(Recent(times, now), later) == Recent(times, later)
    decreases times
  {
    if times != [] {
      var init, t := times[..|times| - 1], times[|times| - 1];
      RecentOfRecent(init, now, later);
      if now - t < MINUTE {
        assert Recent(times, now)[..|Recent(init, now)|] == Recent(init, now);
      }
    }
  }

  lemma RecentSnoc(times: seq<int>, t: int, now: int)
    ensures Recent(times + [t], now) == Recent(times, now) + if now - t < MINUTE then [t] else []
  {
    assert (times + [t])[..|times|] == times;
  }

  function Last(reqs: seq<Request>, default: int): int {
    if reqs == [] then default else reqs[|reqs| - 1].now
  }

  /** What is stored and what was ever allowed agree on what is recent, from now on. */
  lemma {:induction false} StoredIsEnough(reqs: seq<Request>, user: string, later: int)
    requires Timed(reqs) && Last(reqs, later) <= later
    ensures Recent(Times(Run(reqs), user), later) == Recent(History(reqs, user), later)
    decreases reqs
  {
    if reqs != [] {
      var init, r := reqs[..|reqs| - 1], reqs[|reqs| - 1];
      StoredIsEnough(init, user, later);
      if r.user == user {
        var times, h := Times(Run(init), user), History(init, user);
        StoredIsEnough(init, user, r.now);
        RecentCounts(h, r.now);
        RecentCounts(times, r.now);
        if Verdict(Run(init), user, r.now) {
          RecentSnoc(Recent(times, r.now), r.now, later);
          RecentSnoc(h, r.now, later);
          RecentOfRecent(times, r.now, later);
        }
      }
    }
  }

  /** The verdict over the pruned list is the verdict over everything ever allowed. */
  lemma PrunedListSuffices(reqs: seq<Request>, r: Request)
    requires Timed(reqs) && Last(reqs, r.now) <= r.now
    ensures Verdict(Run(reqs), r.user, r.now) <==> CountRecent(History(reqs, r.user), r.now) < LIMIT
  {
    StoredIsEnough(reqs, r.user, r.now);
    RecentCounts(History(reqs, r.user), r.now);
  }

  /** The times at which the code let the user through. */
  function Allowed(reqs: seq<Request>, user: string): seq<int>
    decreases reqs
  {
    if reqs == [] then []
    else
      var init, r := reqs[..|reqs| - 1], reqs[|reqs| - 1];
      if r.user == user && Verdict(Run(init), user, r.now) then Allowed(init, user) + [r.now]
      else Allowed(init, user)
  }

  /** So over a whole run the code lets through exactly what the unpruned reference lets through. */
  lemma {:induction false} AllowedIsHistory(reqs: seq<Request>, user: string)
    requires Timed(reqs)
    ensures Allowed(reqs, user) == History(reqs, user)
    decreases reqs
  {
    if reqs != [] {
      var init, r := reqs[..|reqs| - 1], reqs[|reqs| - 1];
      AllowedIsHistory(init, user);
      PrunedListSuffices(init, r);
    }
  }

  // ---------- The window bound ----------

  /** How many of the times lie in [from, from + one minute). */
  function InWindow(times: seq<int>, from: int): nat
    decreases times
  {
    if times == [] then 0
    else InWindow(times[..|times| - 1], from)
         + if from <= times[|times| - 1] < from + MINUTE then 1 else 0
  }

  lemma {:induction false} WindowIsRecent(times: seq<int>, from: int, now: int)
    requires now < from + MINUTE
    ensures InWindow(times, from) <= CountRecent(times, now)
    decreases times
  {
    if times != [] {
      WindowIsRecent(times[..|times| - 1], from, now);
    }
  }

  /** In every run, every half-open minute holds at most twenty allowed messages of a user. */
  lemma WindowBound(reqs: seq<Request>, user: string, from: int)
    requires Timed(reqs)
    ensures InWindow(Allowed(reqs, user), from) <= LIMIT
  {
    AllowedIsHistory(reqs, user);
    HistoryBound(reqs, user, from);
  }

  lemma {:induction false} HistoryBound(reqs: seq<Request>, user: string, from: int)
    ensures InWindow(History(reqs, user), from) <= LIMIT
    decreases reqs
  {
    if reqs != [] {
      var init, r := reqs[..|reqs| - 1], reqs[|reqs| - 1];
      var h := History(init, user);
      HistoryBound(init, user, from);
      if r.user == user && CountRecent(h, r.now) < LIMIT {
        assert (h + [r.now])[..|h|] == h;
        if from <= r.now < from + MINUTE {
          WindowIsRecent(h, from, r.now);
        }
      }
    }
  }

  // ---------- What one message leaves ----------

  /** An allowed message is noted at its time behind those of the last minute; a refused one changes nothing. */
  lemma AllowDoes(t: Table, user: string, now: int, u: string)
    ensures var t' := AfterAllow(t, user, now);
            && (Verdict(t, user, now) <==> CountRecent(Times(t, user), now) < 20)
            && (!Verdict(t, user, now) ==> t' == t)
            && (Verdict(t, user, now) ==> Times(t', user) != [] && Times(t', user)[|Times(t', user)| - 1] == now)
            && (u != user ==> Times(t', u) == Times(t, u))
  {
    RecentCounts(Times(t, user), now);
  }
}
