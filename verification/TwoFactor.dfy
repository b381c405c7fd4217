/**
 E-mail codes for the second factor: the table two_fa_codes and the calls on it. A call is
 several statements without a transaction, so calls overlap, and any of them may stop or
 find an update refused.
 */
module TwoFactor {
  import opened Wrappers

  const REQUEST_SPAN := 15 * MINUTE
  const ATTEMPT_SPAN := 10 * MINUTE
  const LIFETIME := 5 * MINUTE

  datatype Code = Code(user: int, code: string, createdAt: int, expiresAt: int, attempts: nat, isUsed: bool)

  // ---------- The queries ----------

  function CountSince(codes: seq<Code>, user: int, since: int): nat
    decreases codes
  {
    if codes == [] then 0
    else
      var c := codes[|codes| - 1];
      CountSince(codes[..|codes| - 1], user, since) + if c.user == user && c.createdAt >= since then 1 else 0
  }

  function CountAttemptedSince(codes: seq<Code>, user: int, since: int): nat
    decreases codes
  {
    if codes == [] then 0
    else
      var c := codes[|codes| - 1];
      CountAttemptedSince(codes[..|codes| - 1], user, since)
      + if c.user == user && c.createdAt >= since && c.attempts > 0 then 1 else 0
  }

  predicate Live(c: Code, user: int, now: int) { c.user == user && !c.isUsed && c.expiresAt > now }

  /** ORDER BY created_at DESC LIMIT 1 over the live rows; rows created at one instant may come in any order. */
  predicate Picks(codes: seq<Code>, user: int, now: int, pick: Option<nat>) {
    match pick
    case None => forall i :: 0 <= i < |codes| ==> !Live(codes[i], user, now)
    case Some(p) =>
      && p < |codes| && Live(codes[p], user, now)
      && forall i :: 0 <= i < |codes| && Live(codes[i], user, now) ==> codes[i].createdAt <= codes[p].createdAt
  }

  // ---------- A call that runs alone ----------

  datatype SendResult = Sent | InvalidTempToken | TooManyRequests | SendFailed

  datatype VerifyResult =
    | Tokens(user: int)
    | BadTempToken
    | TooManyRecentAttempts
    | NoCode
    | TooManyAttempts
    | InvalidCode(remaining: int)
    | VerifyFailed

  /** What goes wrong in a call: a query, a write, or what follows the write (the e-mail, the making of tokens). */
  datatype Fault = NoFault | CountFails | SelectFails | WriteFails | LastFails

  /** `user` is what the temp token yields; None if it is not valid. */
  function SendOutcome(codes: seq<Code>, user: Option<int>, now: int, fault: Fault): SendResult {
    if user.None? then InvalidTempToken
    else if fault == CountFails then SendFailed
    else if CountSince(codes, user.value, now - REQUEST_SPAN) >= 3 then TooManyRequests
    else if fault == WriteFails || fault == LastFails then SendFailed
    else Sent
  }

  function AfterSend(codes: seq<Code>, user: Option<int>, code: string, now: int, fault: Fault): seq<Code> {
    if SendOutcome(codes, user, now, fault) == Sent
        || (SendOutcome(codes, user, now, NoFault) == Sent && fault == LastFails)
    then codes + [Code(user.value, code, now, now + LIFETIME, 0, false)]
    else codes
  }

  /** `pick` is the row the query returns. */
  function VerifyOutcome(
      codes: seq<Code>, user: Option<int>, entered: string, now: int, pick: Option<nat>, fault: Fault):
    VerifyResult
  {
    if user.None? then BadTempToken
    else if fault == CountFails then VerifyFailed
    else if CountAttemptedSince(codes, user.value, now - ATTEMPT_SPAN) >= 5 then TooManyRecentAttempts
    else if fault == SelectFails || pick.None? || pick.value >= |codes| then NoCode
    else
      var c := codes[pick.value];
      if c.attempts >= 3 then TooManyAttempts
      else if fault == WriteFails then VerifyFailed
      else if c.code != entered then InvalidCode(3 - (c.attempts + 1))
      else if fault == LastFails then VerifyFailed
      else Tokens(c.user)
  }

  function AfterVerify(codes: seq<Code>, user: Option<int>, entered: string, now: int, pick: Option<nat>, fault: Fault):
    seq<Code>
  {
    var r := VerifyOutcome(codes, user, entered, now, pick, if fault == LastFails then NoFault else fault);
    match r
    case InvalidCode(_) => codes[pick.value := codes[pick.value].(attempts := codes[pick.value].attempts + 1)]
    case Tokens(_) => codes[pick.value := codes[pick.value].(isUsed := true)]
    case _ => codes
  }

  class TwoFA {
    var codes: seq<Code>

    constructor ()
      ensures codes == []
    {
      codes := [];
    }

    method SelectTwoFaCodeByUserID(user: int, now: int) returns (pick: Option<nat>)
      ensures Picks(codes, user, now, pick)
    {
      pick := None;
      for i := 0 to |codes|
        invariant pick.None? ==> forall j :: 0 <= j < i ==> !Live(codes[j], user, now)
        invariant pick.Some? ==>
                    && pick.value < i && Live(codes[pick.value], user, now)
                    && forall j :: 0 <= j < i && Live(codes[j], user, now) ==>
                         codes[j].createdAt <= codes[pick.value].createdAt
      {
        if Live(codes[i], user, now) && (pick.None? || codes[pick.value].createdAt < codes[i].createdAt) {
          pick := Some(i);
        }
      }
    }

    method UsersSendEmailCode(user: Option<int>, code: string, now: int, fault: Fault) returns (r: SendResult)
      modifies this
      ensures r == SendOutcome(old(codes), user, now, fault)
      ensures codes == AfterSend(old(codes), user, code, now, fault)
    {
      if user.None? {
        return InvalidTempToken;
      }
      if fault == CountFails {
        return SendFailed;
      }
      var recentRequests := CountSince(codes, user.value, now - REQUEST_SPAN);
      if recentRequests >= 3 {
        return TooManyRequests;
      }
      if fault == WriteFails {
        return SendFailed;
      }
      codes := codes + [Code(user.value, code, now, now + LIFETIME, 0, false)];
      if fault == LastFails {
        return SendFailed;
      }
      return Sent;
    }

    /** The tests for a used and for an expired code repeat what the query already guarantees. */
    method VerifyCode(user: Option<int>, entered: string, now: int, fault: Fault)
      returns (r: VerifyResult, ghost pick: Option<nat>)
      modifies this
      ensures user.Some? ==> Picks(old(codes), user.value, now, pick)
      ensures r == VerifyOutcome(old(codes), user, entered, now, pick, fault)
      ensures codes == AfterVerify(old(codes), user, entered, now, pick, fault)
    {
      pick := None;
      if user.None? {
        return BadTempToken, pick;
      }
      var found := SelectTwoFaCodeByUserID(user.value, now);
      pick := found;
      if fault == CountFails {
        return VerifyFailed, pick;
      }
      var recentAttempts := CountAttemptedSince(codes, user.value, now - ATTEMPT_SPAN);
      if recentAttempts >= 5 {
        return TooManyRecentAttempts, pick;
      }
      if fault == SelectFails || found.None? {
        return NoCode, pick;
      }
      var c := codes[found.value];
      if c.attempts >= 3 {
        return TooManyAttempts, pick;
      }
      if fault == WriteFails {
        return VerifyFailed, pick;
      }
      if c.code != entered {
        codes := codes[found.value := c.(attempts := c.attempts + 1)];
        return InvalidCode(3 - (c.attempts + 1)), pick;
      }
      codes := codes[found.value := c.(isUsed := true)];
      if fault == LastFails {
        return VerifyFailed, pick;
      }
      return Tokens(c.user), pick;
    }
  }

  // ---------- Overlapping calls, statement by statement ----------

  /**
   A call between two of its statements: a send that has counted the codes, when `have` of
   them were stored; a check that has passed the recent attempts; a check that has read a row,
   when `since` rows had been marked used.
   */
  datatype Call =
    | Counted(user: int, code: string, at: int, have: nat)
    | Cleared(user: int, entered: string)
    | Holding(user: int, entered: string, row: nat, seen: Code, since: nat)

  predicate Wrong(k: Call) { k.Holding? && k.entered != k.seen.code }

  /** A failed comparison: whose, when, and with which row. */
  datatype Failure = Failure(user: int, at: int, row: nat)

  /** A row marked used by a call that read it when `since` had been, and whether tokens were issued then. */
  datatype Mark = Mark(row: nat, since: nat, issued: bool)

  /**
   The table and the calls in flight; and as history, for each row the `have` of the call that
   stored it, by how much its attempts stand behind its finished comparisons, the failed
   comparisons, and the marks.
   */
  datatype State = State(
    codes: seq<Code>,
    calls: map<nat, Call>,
    counts: seq<nat>,
    uncounted: seq<int>,
    failures: seq<Failure>,
    marks: seq<Mark>)

  /**
   `stamped` is when a send computes the expiry; `expired` is whether the row expires between the
   query and the test in the code; `issued` is whether the tokens could be made.
   */
  datatype Action =
    | CountCodes(call: nat, user: int, code: string, now: int)
    | InsertCode(call: nat, stamped: int, now: int, ok: bool)
    | CountAttempts(call: nat, user: int, entered: string, now: int)
    | Select(call: nat, pick: Option<nat>, now: int, expired: bool)
    | Write(call: nat, now: int, ok: bool, issued: bool)
    | Stop(call: nat, now: int)

  const INIT := State([], map[], [], [], [], [])

  ghost predicate Enabled(s: State, before: int, a: Action) {
    before <= a.now &&
    match a
    case CountCodes(c, _, _, _) => c !in s.calls
    case InsertCode(c, stamped, now, _) => c in s.calls && s.calls[c].Counted? && s.calls[c].at <= stamped <= now
    case CountAttempts(c, _, _, _) => c !in s.calls
    case Select(c, pick, now, _) => c in s.calls && s.calls[c].Cleared? && Picks(s.codes, s.calls[c].user, now, pick)
    case Write(c, _, _, _) => c in s.calls && s.calls[c].Holding? && s.calls[c].row < |s.codes| == |s.uncounted|
    case Stop(c, _) => c in s.calls && (s.calls[c].Holding? ==> s.calls[c].row < |s.uncounted|)
  }

  function AfterCountCodes(s: State, c: nat, user: int, code: string, now: int): State {
    if CountSince(s.codes, user, now - REQUEST_SPAN) >= 3 then s
    else s.(calls := s.calls[c := Counted(user, code, now, |s.codes|)])
  }

  function AfterInsertCode(s: State, c: nat, stamped: int, now: int, ok: bool): State
    requires c in s.calls && s.calls[c].Counted?
  {
    var k := s.calls[c];
    if !ok then s.(calls := s.calls - {c})
    else
      s.(codes := s.codes + [Code(k.user, k.code, now, stamped + LIFETIME, 0, false)],
         calls := s.calls - {c}, counts := s.counts + [k.have], uncounted := s.uncounted + [0])
  }

  function AfterCountAttempts(s: State, c: nat, user: int, entered: string, now: int): State {
    if CountAttemptedSince(s.codes, user, now - ATTEMPT_SPAN) >= 5 then s
    else s.(calls := s.calls[c := Cleared(user, entered)])
  }

  function AfterSelect(s: State, c: nat, pick: Option<nat>, now: int, expired: bool): State
    requires c in s.calls && s.calls[c].Cleared? && (pick.Some? ==> pick.value < |s.codes|)
  {
    if pick.None? || s.codes[pick.value].attempts >= 3 || expired then s.(calls := s.calls - {c})
    else
      var row := s.codes[pick.value];
      var k := Holding(s.calls[c].user, s.calls[c].entered, pick.value, row, |s.marks|);
      s.(calls := s.calls[c := k],
         failures := if Wrong(k) then s.failures + [Failure(k.user, now, k.row)] else s.failures)
  }

  /** SET attempts = $2 writes what was computed from the row as it was read. */
  function AfterWrite(s: State, c: nat, ok: bool, issued: bool): State
    requires c in s.calls && s.calls[c].Holding? && s.calls[c].row < |s.codes| == |s.uncounted|
  {
    var k := s.calls[c];
    var row := s.codes[k.row];
    var rest := s.calls - {c};
    if Wrong(k) && ok then
      s.(calls := rest, codes := s.codes[k.row := row.(attempts := k.seen.attempts + 1)],
         uncounted := s.uncounted[k.row := s.uncounted[k.row] + row.attempts - k.seen.attempts])
    else if Wrong(k) then s.(calls := rest, uncounted := s.uncounted[k.row := s.uncounted[k.row] + 1])
    else if !ok then s.(calls := rest)
    else
      s.(calls := rest, codes := s.codes[k.row := row.(isUsed := true)],
         marks := s.marks + [Mark(k.row, k.since, issued)])
  }

  function AfterStop(s: State, c: nat): State
    requires c in s.calls && (s.calls[c].Holding? ==> s.calls[c].row < |s.uncounted|)
  {
    var k := s.calls[c];
    if Wrong(k) then s.(calls := s.calls - {c}, uncounted := s.uncounted[k.row := s.uncounted[k.row] + 1])
    else s.(calls := s.calls - {c})
  }

  ghost function Step(s: State, before: int, a: Action): State
    requires Enabled(s, before, a)
  {
    match a
    case CountCodes(c, user, code, now) => AfterCountCodes(s, c, user, code, now)
    case InsertCode(c, stamped, now, ok) => AfterInsertCode(s, c, stamped, now, ok)
    case CountAttempts(c, user, entered, now) => AfterCountAttempts(s, c, user, entered, now)
    case Select(c, pick, now, expired) => AfterSelect(s, c, pick, now, expired)
    case Write(c, _, ok, issued) => AfterWrite(s, c, ok, issued)
    case Stop(c, _) => AfterStop(s, c)
  }

  ghost predicate ValidRun(s: State, before: int, acts: seq<Action>)
    decreases acts
  {
    acts == [] || (Enabled(s, before, acts[0]) && ValidRun(Step(s, before, acts[0]), acts[0].now, acts[1..]))
  }

  ghost function Run(s: State, before: int, acts: seq<Action>): State
    requires ValidRun(s, before, acts)
    decreases acts
  {
    if acts == [] then s else Run(Step(s, before, acts[0]), acts[0].now, acts[1..])
  }

  function LastTime(before: int, acts: seq<Action>): int {
    if acts == [] then before else acts[|acts| - 1].now
  }

  // ---------- What every run keeps ----------

  ghost predicate SameRow(a: Code, b: Code) {
    a.user == b.user && a.code == b.code && a.createdAt == b.createdAt && a.expiresAt == b.expiresAt
  }

  /** The table: in order of creation, no code outliving its five minutes, no more than three attempts. */
  ghost predicate CodesOk(codes: seq<Code>, now: int) {
    && (forall i :: 0 <= i < |codes| ==>
         codes[i].createdAt <= now && codes[i].expiresAt <= codes[i].createdAt + LIFETIME)
    && (forall i :: 0 <= i < |codes| ==> codes[i].attempts <= 3)
    && (forall i, j :: 0 <= i < j < |codes| ==> codes[i].createdAt <= codes[j].createdAt)
  }

  /** Among the first `have` codes fewer than three of the user lie in the quarter of an hour before `at`. */
  ghost predicate RoomFor(codes: seq<Code>, have: nat, user: int, at: int)
    requires have <= |codes|
  {
    CountSince(codes[..have], user, at - REQUEST_SPAN) < 3
  }

  /** Each code was counted for: the codes stored when its call counted left room for it. */
  ghost predicate CountsOk(codes: seq<Code>, counts: seq<nat>) {
    && |counts| == |codes|
    && forall n :: 0 <= n < |codes| ==> counts[n] <= n && RoomFor(codes, counts[n], codes[n].user, codes[n].createdAt)
  }

  ghost predicate CallOk(s: State, k: Call, now: int) {
    match k
    case Counted(user, _, at, have) => at <= now && have <= |s.codes| && RoomFor(s.codes, have, user, at)
    case Cleared(_, _) => true
    case Holding(user, _, row, seen, since) =>
      && row < |s.codes| && SameRow(seen, s.codes[row]) && seen.user == user && seen.attempts < 3
      && since <= |s.marks|
      && forall l :: 0 <= l < since ==> s.marks[l].row != row
  }

  ghost predicate CallsOk(s: State, now: int) { forall c <- s.calls :: CallOk(s, s.calls[c], now) }

  ghost predicate Marked(marks: seq<Mark>, row: nat) { exists l :: 0 <= l < |marks| && marks[l].row == row }

  /**
   Used codes are the marked ones; when a code is marked twice, the later call had read it before the earlier
   mark.
   */
  ghost predicate MarksOk(s: State) {
    && (forall k :: 0 <= k < |s.marks| ==> s.marks[k].row < |s.codes|)
    && (forall i: nat :: i < |s.codes| ==> (s.codes[i].isUsed <==> Marked(s.marks, i)))
    && (forall k, l :: 0 <= k < l < |s.marks| && s.marks[k].row == s.marks[l].row ==> s.marks[l].since <= k)
  }

  ghost predicate FailureOk(codes: seq<Code>, f: Failure) {
    f.row < |codes| && codes[f.row].user == f.user && codes[f.row].createdAt <= f.at < codes[f.row].createdAt + LIFETIME
  }

  ghost predicate FailuresOk(s: State) { forall i :: 0 <= i < |s.failures| ==> FailureOk(s.codes, s.failures[i]) }

  function FailuresOn(fs: seq<Failure>, row: nat): nat
    decreases fs
  {
    if fs == [] then 0 else FailuresOn(fs[..|fs| - 1], row) + if fs[|fs| - 1].row == row then 1 else 0
  }

  function WaitingOn(calls: map<nat, Call>, row: nat): set<nat> {
    set c | c in calls && Wrong(calls[c]) && calls[c].row == row
  }

  /** Each failed comparison of a code is one of its attempts, or uncounted, or its write is still to come. */
  ghost predicate Accounted(s: State) {
    && |s.uncounted| == |s.codes|
    && forall r: nat :: r < |s.codes| ==>
                          FailuresOn(s.failures, r) == s.codes[r].attempts + s.uncounted[r] + |WaitingOn(s.calls, r)|
  }

  ghost predicate Inv(s: State, now: int) {
    && CodesOk(s.codes, now) && CountsOk(s.codes, s.counts) && CallsOk(s, now)
    && MarksOk(s) && FailuresOk(s) && Accounted(s)
  }

  // ---------- Counting codes ----------

  /** Counting by user and creation time looks at nothing else. */
  lemma {:induction false} CountSinceStable(codes: seq<Code>, codes': seq<Code>, user: int, since: int)
    requires |codes| == |codes'|
    requires forall i :: 0 <= i < |codes| ==> SameRow(codes[i], codes'[i])
    ensures CountSince(codes, user, since) == CountSince(codes', user, since)
    decreases codes
  {
    if codes != [] {
      CountSinceStable(codes[..|codes| - 1], codes'[..|codes| - 1], user, since);
    }
  }

  lemma {:induction false} CountLater(codes: seq<Code>, user: int, a: int, b: int)
    requires a <= b
    ensures CountSince(codes, user, b) <= CountSince(codes, user, a)
    decreases codes
  {
    if codes != [] {
      CountLater(codes[..|codes| - 1], user, a, b);
    }
  }

  /** codes' may have more rows, and attempts and used marks of its own. */
  ghost predicate Extends(codes: seq<Code>, codes': seq<Code>) {
    |codes| <= |codes'| && forall i :: 0 <= i < |codes| ==> SameRow(codes[i], codes'[i])
  }

  lemma RoomStays(codes: seq<Code>, codes': seq<Code>, have: nat, user: int, at: int, later: int)
    requires Extends(codes, codes') && have <= |codes| && at <= later && RoomFor(codes, have, user, at)
    ensures RoomFor(codes', have, user, later)
  {
    CountSinceStable(codes[..have], codes'[..have], user, later - REQUEST_SPAN);
    CountLater(codes[..have], user, at - REQUEST_SPAN, later - REQUEST_SPAN);
  }

  lemma CountsStay(codes: seq<Code>, codes': seq<Code>, counts: seq<nat>)
    requires CountsOk(codes, counts) && Extends(codes, codes') && |codes| == |codes'|
    ensures CountsOk(codes', counts)
  {
    forall n | 0 <= n < |codes| ensures RoomFor(codes', counts[n], codes'[n].user, codes'[n].createdAt) {
      RoomStays(codes, codes', counts[n], codes[n].user, codes[n].createdAt, codes[n].createdAt);
    }
  }

  lemma CallStays(s: State, s': State, k: Call, now: int, later: int)
    requires CallOk(s, k, now) && now <= later && Extends(s.codes, s'.codes)
    requires |s.marks| <= |s'.marks| && s'.marks[..|s.marks|] == s.marks
    ensures CallOk(s', k, later)
  {
    if k.Counted? {
      RoomStays(s.codes, s'.codes, k.have, k.user, k.at, k.at);
    } else if k.Holding? {
      assert forall l :: 0 <= l < k.since ==> s'.marks[l] == s'.marks[..|s.marks|][l];
    }
  }

  // ---------- The steps keep the invariant ----------

  /** The failures stay what they were while rows are only added or change their attempts and used marks. */
  lemma FailuresStay(s: State, s': State)
    requires FailuresOk(s) && Extends(s.codes, s'.codes) && s'.failures == s.failures
    ensures FailuresOk(s')
  {
    assert forall i :: 0 <= i < |s.failures| ==> FailureOk(s.codes, s.failures[i]);
  }

  lemma AccountsStay(s: State, s': State)
    requires Accounted(s) && s'.codes == s.codes && s'.failures == s.failures && s'.uncounted == s.uncounted
    requires forall r: nat :: WaitingOn(s'.calls, r) == WaitingOn(s.calls, r)
    ensures Accounted(s')
  {
  }

  lemma MarksStay(s: State, s': State)
    requires MarksOk(s) && s'.marks == s.marks && |s.codes| <= |s'.codes|
    requires forall i :: 0 <= i < |s.codes| ==> s'.codes[i].isUsed == s.codes[i].isUsed
    requires forall i :: |s.codes| <= i < |s'.codes| ==> !s'.codes[i].isUsed
    ensures MarksOk(s')
  {
    forall i: nat | i < |s'.codes| ensures s'.codes[i].isUsed <==> Marked(s'.marks, i) {
      assert i < |s.codes| ==> (s.codes[i].isUsed <==> Marked(s.marks, i));
    }
  }

  /** A call enters flight: nothing else changes. */
  lemma EnterKeeps(s: State, before: int, c: nat, k: Call, now: int)
    requires Inv(s, before) && c !in s.calls && before <= now && !k.Holding? && CallOk(s, k, now)
    ensures Inv(s.(calls := s.calls[c := k]), now)
  {
    var s' := s.(calls := s.calls[c := k]);
    assert s'.marks[..|s.marks|] == s.marks;
    hide CountsOk, MarksOk, FailuresOk, Accounted;
    forall d <- s'.calls ensures CallOk(s', s'.calls[d], now) {
      if d == c {
        CallStays(s, s', k, now, now);
      } else {
        CallStays(s, s', s.calls[d], before, now);
      }
    }
    hide CodesOk, CallsOk;
    FailuresStay(s, s');
    MarksStay(s, s');
    forall r: nat ensures WaitingOn(s'.calls, r) == WaitingOn(s.calls, r) {}
    AccountsStay(s, s');
  }

  lemma LaterKeeps(s: State, before: int, now: int)
    requires Inv(s, before) && before <= now
    ensures Inv(s, now)
  {
    assert s.marks[..|s.marks|] == s.marks;
    CallsStay(s, s, before, now);
    hide CallsOk;
  }

  lemma CountCodesKeeps(s: State, before: int, a: Action)
    requires Inv(s, before) && Enabled(s, before, a) && a.CountCodes?
    ensures Inv(Step(s, before, a), a.now)
  {
    assert s.codes[..|s.codes|] == s.codes;
    hide CountSince, Inv;
    if Step(s, before, a) == s {
      LaterKeeps(s, before, a.now);
    } else {
      EnterKeeps(s, before, a.call, Counted(a.user, a.code, a.now, |s.codes|), a.now);
    }
  }

  lemma CallsStay(s: State, s': State, now: int, later: int)
    requires CallsOk(s, now) && now <= later && Extends(s.codes, s'.codes) && s'.calls.Keys <= s.calls.Keys
    requires |s.marks| <= |s'.marks| && s'.marks[..|s.marks|] == s.marks
    requires forall c <- s'.calls :: s'.calls[c] == s.calls[c]
    ensures CallsOk(s', later)
  {
    forall c <- s'.calls ensures CallOk(s', s'.calls[c], later) {
      CallStays(s, s', s.calls[c], now, later);
    }
  }

  lemma InsertCodeKeeps(s: State, before: int, a: Action)
    requires Inv(s, before) && Enabled(s, before, a) && a.InsertCode?
    ensures Inv(Step(s, before, a), a.now)
  {
    var s' := Step(s, before, a);
    InsertKeepsCodes(s, before, a);
    InsertKeepsCounts(s, before, a);
    InsertKeepsAccounts(s, before, a);
    assert s'.marks[..|s.marks|] == s.marks;
    assert Extends(s.codes, s'.codes);
    hide CodesOk, CountsOk, CallsOk, MarksOk, FailuresOk, Accounted, Extends;
    CallsStay(s, s', before, a.now);
    MarksStay(s, s');
    FailuresStay(s, s');
  }

  lemma InsertKeepsCodes(s: State, before: int, a: Action)
    requires CodesOk(s.codes, before) && CallsOk(s, before) && Enabled(s, before, a) && a.InsertCode?
    ensures CodesOk(Step(s, before, a).codes, a.now)
  {
  }

  lemma InsertKeepsAccounts(s: State, before: int, a: Action)
    requires Accounted(s) && CallsOk(s, before) && FailuresOk(s) && Enabled(s, before, a) && a.InsertCode?
    ensures Accounted(Step(s, before, a))
  {
    var s' := Step(s, before, a);
    forall r: nat ensures WaitingOn(s'.calls, r) == WaitingOn(s.calls, r) {}
    NoFailuresBeyond(s.failures, |s.codes|);
    NothingWaits(s, before, |s.codes|);
    hide CallsOk;
  }

  lemma {:induction false} NoFailuresBeyond(fs: seq<Failure>, n: nat)
    ensures (forall i :: 0 <= i < |fs| ==> fs[i].row < n) ==> FailuresOn(fs, n) == 0
    decreases fs
  {
    if fs != [] {
      NoFailuresBeyond(fs[..|fs| - 1], n);
    }
  }

  lemma NothingWaits(s: State, now: int, n: nat)
    requires CallsOk(s, now) && n >= |s.codes|
    ensures WaitingOn(s.calls, n) == {}
  {
  }

  lemma InsertKeepsCounts(s: State, before: int, a: Action)
    requires Inv(s, before) && Enabled(s, before, a) && a.InsertCode?
    ensures CountsOk(Step(s, before, a).codes, Step(s, before, a).counts)
  {
    var s' := Step(s, before, a);
    if a.ok {
      var k := s.calls[a.call];
      assert CallOk(s, k, before);
      forall n | 0 <= n < |s'.codes|
        ensures s'.counts[n] <= n && RoomFor(s'.codes, s'.counts[n], s'.codes[n].user, s'.codes[n].createdAt) {
        if n < |s.codes| {
          RoomStays(s.codes, s'.codes, s.counts[n], s.codes[n].user, s.codes[n].createdAt, s.codes[n].createdAt);
        } else {
          RoomStays(s.codes, s'.codes, k.have, k.user, k.at, a.now);
        }
      }
    }
  }

  lemma CountAttemptsKeeps(s: State, before: int, a: Action)
    requires Inv(s, before) && Enabled(s, before, a) && a.CountAttempts?
    ensures Inv(Step(s, before, a), a.now)
  {
    hide CountAttemptedSince, Inv;
    if Step(s, before, a) == s {
      LaterKeeps(s, before, a.now);
    } else {
      EnterKeeps(s, before, a.call, Cleared(a.user, a.entered), a.now);
    }
  }

  lemma SelectKeeps(s: State, before: int, a: Action)
    requires Inv(s, before) && Enabled(s, before, a) && a.Select?
    ensures Inv(Step(s, before, a), a.now)
  {
    SelectKeepsCalls(s, before, a);
    SelectKeepsAccounts(s, before, a);
    SelectKeepsFailures(s, before, a);
    MarksStay(s, Step(s, before, a));
    hide CountsOk, CallsOk, MarksOk, FailuresOk, Accounted;
  }

  lemma SelectKeepsFailures(s: State, before: int, a: Action)
    requires CodesOk(s.codes, before) && FailuresOk(s) && Enabled(s, before, a) && a.Select?
    ensures FailuresOk(Step(s, before, a))
  {
    var s' := Step(s, before, a);
    if s'.failures != s.failures {
      assert FailureOk(s.codes, s'.failures[|s.failures|]);
    }
    assert forall i :: 0 <= i < |s.failures| ==> FailureOk(s.codes, s.failures[i]);
  }

  lemma SelectKeepsCalls(s: State, before: int, a: Action)
    requires CallsOk(s, before) && MarksOk(s) && Enabled(s, before, a) && a.Select?
    ensures CallsOk(Step(s, before, a), a.now)
  {
    var s' := Step(s, before, a);
    assert s'.marks[..|s.marks|] == s.marks;
    forall c <- s'.calls ensures CallOk(s', s'.calls[c], a.now) {
      if c != a.call {
        CallStays(s, s', s.calls[c], before, a.now);
      }
    }
  }

  lemma SelectKeepsAccounts(s: State, before: int, a: Action)
    requires Accounted(s) && Enabled(s, before, a) && a.Select?
    ensures Accounted(Step(s, before, a))
  {
    var s' := Step(s, before, a);
    if s'.calls == s.calls - {a.call} {
      forall r: nat ensures |WaitingOn(s'.calls, r)| == |WaitingOn(s.calls, r)| {
        LeavesWaiting(s.calls, a.call, r);
      }
    } else {
      forall r: nat
        ensures FailuresOn(s'.failures, r) - |WaitingOn(s'.calls, r)|
                == FailuresOn(s.failures, r) - |WaitingOn(s.calls, r)| {
        SelectKeepsAccount(s, s', a.call, r);
      }
    }
  }

  lemma SelectKeepsAccount(s: State, s': State, c: nat, r: nat)
    requires c in s.calls && s.calls[c].Cleared? && c in s'.calls && s'.calls == s.calls[c := s'.calls[c]]
    requires s'.calls[c].Holding?
    requires if Wrong(s'.calls[c]) then |s'.failures| == |s.failures| + 1 && s'.failures[..|s.failures|] == s.failures
                                        && s'.failures[|s.failures|].row == s'.calls[c].row
             else s'.failures == s.failures
    ensures FailuresOn(s'.failures, r) - |WaitingOn(s'.calls, r)| == FailuresOn(s.failures, r) - |WaitingOn(s.calls, r)|
  {
    LeavesWaiting(s'.calls, c, r);
    LeavesWaiting(s.calls, c, r);
    assert s'.calls - {c} == s.calls - {c};
    hide WaitingOn;
  }

  /** Taking a wrong guess out of flight. */
  lemma LeavesWaiting(calls: map<nat, Call>, c: nat, r: nat)
    requires c in calls
    ensures |WaitingOn(calls, r)|
            == |WaitingOn(calls - {c}, r)| + if Wrong(calls[c]) && calls[c].row == r then 1 else 0
  {
    if Wrong(calls[c]) && calls[c].row == r {
      assert WaitingOn(calls, r) == WaitingOn(calls - {c}, r) + {c};
    } else {
      assert WaitingOn(calls, r) == WaitingOn(calls - {c}, r);
    }
  }

  lemma FinishKeepsAccounts(s: State, before: int, a: Action)
    requires Accounted(s) && Enabled(s, before, a) && (a.Write? || a.Stop?)
    ensures Accounted(Step(s, before, a))
  {
    var s' := Step(s, before, a);
    forall r: nat | r < |s.codes|
      ensures s'.codes[r].attempts + s'.uncounted[r] + |WaitingOn(s'.calls, r)|
              == s.codes[r].attempts + s.uncounted[r] + |WaitingOn(s.calls, r)| {
      LeavesWaiting(s.calls, a.call, r);
    }
  }

  lemma FinishKeeps(s: State, before: int, a: Action)
    requires Inv(s, before) && Enabled(s, before, a) && (a.Write? || a.Stop?)
    ensures Inv(Step(s, before, a), a.now)
  {
    var s' := Step(s, before, a);
    assert s'.marks[..|s.marks|] == s.marks;
    FinishKeepsAccounts(s, before, a);
    FinishKeepsMarks(s, before, a);
    FinishKeepsCodes(s, before, a);
    hide CodesOk, CountsOk, CallsOk, MarksOk, FailuresOk, Accounted, Extends;
    CountsStay(s.codes, s'.codes, s.counts);
    CallsStay(s, s', before, a.now);
    FailuresStay(s, s');
  }

  lemma FinishKeepsCodes(s: State, before: int, a: Action)
    requires CodesOk(s.codes, before) && CallsOk(s, before) && Enabled(s, before, a) && (a.Write? || a.Stop?)
    ensures CodesOk(Step(s, before, a).codes, a.now) && Extends(s.codes, Step(s, before, a).codes)
    ensures |Step(s, before, a).codes| == |s.codes|
  {
    var k, codes := s.calls[a.call], Step(s, before, a).codes;
    assert CallOk(s, k, before);
    hide CallsOk, CodesOk;
    assert codes == s.codes || (k.Holding? && k.row < |s.codes| && codes == s.codes[k.row := codes[k.row]]);
    if codes == s.codes {
      CodesLater(s.codes, before, a.now);
    } else {
      RowKeepsCodes(s.codes, before, a.now, k.row, codes[k.row]);
    }
  }

  lemma CodesLater(codes: seq<Code>, before: int, now: int)
    requires CodesOk(codes, before) && before <= now
    ensures CodesOk(codes, now) && Extends(codes, codes)
  {
  }

  lemma RowKeepsCodes(codes: seq<Code>, before: int, now: int, row: nat, c: Code)
    requires CodesOk(codes, before) && before <= now && row < |codes| && SameRow(codes[row], c)
    requires c.attempts <= codes[row].attempts || c.attempts <= 3
    ensures CodesOk(codes[row := c], now) && Extends(codes, codes[row := c])
  {
  }

  lemma FinishKeepsMarks(s: State, before: int, a: Action)
    requires MarksOk(s) && CallsOk(s, before) && Enabled(s, before, a) && (a.Write? || a.Stop?)
    ensures MarksOk(Step(s, before, a))
  {
    var s' := Step(s, before, a);
    assert CallOk(s, s.calls[a.call], before);
    hide CallsOk, CodesOk;
    if s'.marks == s.marks {
      MarksStay(s, s');
    } else {
      MarkKeepsMarks(s, s', s.calls[a.call].row);
    }
  }

  lemma MarkKeepsMarks(s: State, s': State, row: nat)
    requires MarksOk(s) && row < |s.codes| && s'.codes == s.codes[row := s.codes[row].(isUsed := true)]
    requires |s'.marks| == |s.marks| + 1 && s'.marks[..|s.marks|] == s.marks && s'.marks[|s.marks|].row == row
    requires forall l :: 0 <= l < s'.marks[|s.marks|].since <= |s.marks| ==> s.marks[l].row != row
    ensures s'.marks[|s.marks|].since <= |s.marks| ==> MarksOk(s')
  {
    var n := |s.marks|;
    assert forall l :: 0 <= l < n ==> s'.marks[l] == s'.marks[..n][l];
    forall i: nat | i < |s'.codes| ensures s'.codes[i].isUsed <==> Marked(s'.marks, i) {
      if i != row && Marked(s.marks, i) {
        var l :| 0 <= l < n && s.marks[l].row == i;
        assert s'.marks[l].row == i;
      }
      assert i == row ==> s'.marks[n].row == i;
    }
  }

  lemma {:induction false} RunKeeps(s: State, before: int, acts: seq<Action>)
    requires Inv(s, before) && ValidRun(s, before, acts)
    ensures Inv(Run(s, before, acts), LastTime(before, acts))
    decreases acts
  {
    hide Inv;
    if acts != [] {
      StepKeeps(s, before, acts[0]);
      RunKeeps(Step(s, before, acts[0]), acts[0].now, acts[1..]);
    }
  }

  lemma StepKeeps(s: State, before: int, a: Action)
    requires Inv(s, before) && Enabled(s, before, a)
    ensures Inv(Step(s, before, a), a.now)
  {
    hide Inv;
    match a
    case CountCodes(_, _, _, _) => CountCodesKeeps(s, before, a);
    case InsertCode(_, _, _, _) => InsertCodeKeeps(s, before, a);
    case CountAttempts(_, _, _, _) => CountAttemptsKeeps(s, before, a);
    case Select(_, _, _, _) => SelectKeeps(s, before, a);
    case _ => FinishKeeps(s, before, a);
  }

  // ---------- When does a code yield tokens twice? ----------

  lemma InitKeeps(acts: seq<Action>)
    requires ValidRun(INIT, 0, acts)
    ensures Inv(Run(INIT, 0, acts), LastTime(0, acts))
  {
    RunKeeps(INIT, 0, acts);
  }

  /** How often tokens were issued for the row. */
  function TokensFor(marks: seq<Mark>, row: nat): nat
    decreases marks
  {
    if marks == [] then 0
    else
      var k := marks[|marks| - 1];
      TokensFor(marks[..|marks| - 1], row) + if k.row == row && k.issued then 1 else 0
  }

  ghost predicate MarkedSince(marks: seq<Mark>, row: nat, since: nat) {
    exists l :: since <= l < |marks| && marks[l].row == row
  }

  ghost predicate IssuedSince(marks: seq<Mark>, row: nat, since: nat) {
    exists l :: since <= l < |marks| && marks[l].row == row && marks[l].issued
  }

  lemma {:induction false} TokensForIssued(marks: seq<Mark>, row: nat)
    ensures TokensFor(marks, row) > 0 <==> IssuedSince(marks, row, 0)
    decreases marks
  {
    if marks != [] {
      var init, n := marks[..|marks| - 1], |marks| - 1;
      TokensForIssued(init, row);
      if l :| 0 <= l < n && init[l].row == row && init[l].issued {
        assert marks[l] == init[l];
      }
      if marks[n].row == row && marks[n].issued {
        assert IssuedSince(marks, row, 0);
      }
    }
  }

  /**
   The step at which a right call marks its code and gets tokens, in any run. They are further tokens
   of the code exactly if others were issued since it read the row; and the row is marked used
   already, which the update does not test, exactly if it was marked since.
   */
  lemma FurtherTokensIff(acts: seq<Action>, c: nat, now: int)
    requires ValidRun(INIT, 0, acts) && LastTime(0, acts) <= now
    requires var s := Run(INIT, 0, acts); c in s.calls && s.calls[c].Holding? && !Wrong(s.calls[c])
    ensures var s := Run(INIT, 0, acts);
            var k := s.calls[c];
            && Enabled(s, LastTime(0, acts), Write(c, now, true, true))
            && TokensFor(Step(s, LastTime(0, acts), Write(c, now, true, true)).marks, k.row)
                 == TokensFor(s.marks, k.row) + 1
            && (TokensFor(s.marks, k.row) > 0 <==> IssuedSince(s.marks, k.row, k.since))
            && k.row < |s.codes| && (s.codes[k.row].isUsed <==> MarkedSince(s.marks, k.row, k.since))
  {
    InitKeeps(acts);
    WriteIssues(Run(INIT, 0, acts), LastTime(0, acts), c, now);
  }

  lemma WriteIssues(s: State, before: int, c: nat, now: int)
    requires Inv(s, before) && before <= now && c in s.calls && s.calls[c].Holding? && !Wrong(s.calls[c])
    ensures var k := s.calls[c];
            && Enabled(s, before, Write(c, now, true, true))
            && TokensFor(Step(s, before, Write(c, now, true, true)).marks, k.row) == TokensFor(s.marks, k.row) + 1
            && (TokensFor(s.marks, k.row) > 0 <==> IssuedSince(s.marks, k.row, k.since))
            && k.row < |s.codes| && (s.codes[k.row].isUsed <==> MarkedSince(s.marks, k.row, k.since))
  {
    var k := s.calls[c];
    assert CallOk(s, k, before);
    hide CallsOk, CodesOk, CountsOk, FailuresOk;
    TokensForIssued(s.marks, k.row);
    assert (s.marks + [Mark(k.row, k.since, true)])[..|s.marks|] == s.marks;
  }

  // ---------- How many comparisons fail? ----------

  /** Failed comparisons of the user at times in [from, from + 10 minutes]. */
  function FailuresIn(fs: seq<Failure>, user: int, from: int): nat
    decreases fs
  {
    if fs == [] then 0
    else
      var f := fs[|fs| - 1];
      FailuresIn(fs[..|fs| - 1], user, from) + if f.user == user && from <= f.at <= from + ATTEMPT_SPAN then 1 else 0
  }

  /** A code that a comparison in [from, from + 10 minutes] can have been made with. */
  predicate Comparable(c: Code, user: int, from: int) {
    c.user == user && from - LIFETIME < c.createdAt <= from + ATTEMPT_SPAN
  }

  function ComparableCount(codes: seq<Code>, user: int, from: int): nat
    decreases codes
  {
    if codes == [] then 0
    else ComparableCount(codes[..|codes| - 1], user, from) + if Comparable(codes[|codes| - 1], user, from) then 1 else 0
  }

  /** Another code of the user was stored between the count for code n and its insert. */
  ghost predicate Overtaken(codes: seq<Code>, counts: seq<nat>, n: nat)
    requires n < |codes| == |counts|
  {
    exists i :: counts[n] <= i < n && codes[i].user == codes[n].user
  }

  /** How many of the first n codes are comparable and were overtaken. */
  ghost function OvertakenCount(codes: seq<Code>, counts: seq<nat>, user: int, from: int, n: nat): nat
    requires n <= |codes| == |counts|
  {
    if n == 0 then 0
    else
      OvertakenCount(codes, counts, user, from, n - 1)
      + if Comparable(codes[n - 1], user, from) && Overtaken(codes, counts, n - 1) then 1 else 0
  }

  lemma {:induction false} ComparableAreRecent(codes: seq<Code>, user: int, from: int, now: int)
    requires now <= from + ATTEMPT_SPAN
    ensures ComparableCount(codes, user, from) <= CountSince(codes, user, now - REQUEST_SPAN)
    decreases codes
  {
    if codes != [] {
      ComparableAreRecent(codes[..|codes| - 1], user, from, now);
    }
  }

  lemma {:induction false} NoneBetween(codes: seq<Code>, user: int, from: int, m: nat, n: nat)
    requires m <= n <= |codes| && forall i :: m <= i < n ==> codes[i].user != user
    ensures ComparableCount(codes[..n], user, from) == ComparableCount(codes[..m], user, from)
    decreases n
  {
    if m < n {
      assert codes[..n][..n - 1] == codes[..n - 1];
      NoneBetween(codes, user, from, m, n - 1);
    }
  }

  lemma TwoBefore(codes: seq<Code>, counts: seq<nat>, user: int, from: int, n: nat)
    requires CountsOk(codes, counts) && n < |codes| && Comparable(codes[n], user, from) && !Overtaken(codes, counts, n)
    ensures ComparableCount(codes[..n], user, from) < 3
  {
    NoneBetween(codes, user, from, counts[n], n);
    assert RoomFor(codes, counts[n], user, codes[n].createdAt);
    ComparableAreRecent(codes[..counts[n]], user, from, codes[n].createdAt);
  }

  /** At most three codes can be compared within ten minutes, and one more for each that was overtaken. */
  lemma {:induction false} ComparableBound(codes: seq<Code>, counts: seq<nat>, user: int, from: int, n: nat)
    requires CountsOk(codes, counts) && n <= |codes|
    ensures ComparableCount(codes[..n], user, from) <= 3 + OvertakenCount(codes, counts, user, from, n)
    decreases n
  {
    if n > 0 {
      var c := codes[n - 1];
      assert codes[..n][..n - 1] == codes[..n - 1];
      ComparableBound(codes, counts, user, from, n - 1);
      if Comparable(c, user, from) && !Overtaken(codes, counts, n - 1) {
        TwoBefore(codes, counts, user, from, n - 1);
      }
      hide CountsOk, Overtaken;
    }
  }

  /** Failed comparisons with the first n codes, as far as these are comparable. */
  function FailuresWith(codes: seq<Code>, fs: seq<Failure>, user: int, from: int, n: nat): nat
    requires n <= |codes|
  {
    if n == 0 then 0
    else
      FailuresWith(codes, fs, user, from, n - 1)
      + if Comparable(codes[n - 1], user, from) then FailuresOn(fs, n - 1) else 0
  }

  lemma {:induction false} FailuresWithSnoc(
      codes: seq<Code>, fs: seq<Failure>, f: Failure, user: int, from: int, n: nat)
    requires n <= |codes| && f.row < |codes|
    ensures FailuresWith(codes, fs + [f], user, from, n)
            == FailuresWith(codes, fs, user, from, n)
               + if f.row < n && Comparable(codes[f.row], user, from) then 1 else 0
    decreases n
  {
    if n > 0 {
      FailuresWithSnoc(codes, fs, f, user, from, n - 1);
      assert (fs + [f])[..|fs|] == fs;
    }
  }

  lemma {:induction false} FailuresAreWith(codes: seq<Code>, fs: seq<Failure>, user: int, from: int)
    requires forall i :: 0 <= i < |fs| ==> FailureOk(codes, fs[i])
    ensures FailuresIn(fs, user, from) <= FailuresWith(codes, fs, user, from, |codes|)
    decreases fs
  {
    if fs != [] {
      var init, f := fs[..|fs| - 1], fs[|fs| - 1];
      FailuresAreWith(codes, init, user, from);
      assert fs == init + [f] && FailureOk(codes, f);
      FailuresWithSnoc(codes, init, f, user, from, |codes|);
    }
  }

  /** What is uncounted, or still to be written, of the comparable ones among the first n codes. */
  ghost function Excess(s: State, user: int, from: int, n: nat): int
    requires n <= |s.codes| == |s.uncounted|
  {
    if n == 0 then 0
    else
      Excess(s, user, from, n - 1)
      + if Comparable(s.codes[n - 1], user, from) then s.uncounted[n - 1] + |WaitingOn(s.calls, n - 1)| else 0
  }

  lemma {:induction false} FailuresAreAttempts(s: State, user: int, from: int, n: nat)
    requires Accounted(s) && n <= |s.codes| && forall i :: 0 <= i < |s.codes| ==> s.codes[i].attempts <= 3
    ensures FailuresWith(s.codes, s.failures, user, from, n)
            <= 3 * ComparableCount(s.codes[..n], user, from) + Excess(s, user, from, n)
    decreases n
  {
    if n > 0 {
      FailuresAreAttempts(s, user, from, n - 1);
      assert s.codes[..n][..n - 1] == s.codes[..n - 1];
    }
  }

  /**
   In every run: no more than nine failed comparisons of a user in ten minutes, and three more
   for each code that was overtaken, and what refused, abandoned or overwritten updates have
   left uncounted.
   */
  lemma FailuresBound(acts: seq<Action>, user: int, from: int)
    requires ValidRun(INIT, 0, acts)
    ensures var s := Run(INIT, 0, acts);
            && |s.codes| == |s.counts| == |s.uncounted|
            && FailuresIn(s.failures, user, from)
               <= 9 + 3 * OvertakenCount(s.codes, s.counts, user, from, |s.codes|) + Excess(s, user, from, |s.codes|)
  {
    InitKeeps(acts);
    var s := Run(INIT, 0, acts);
    hide Run, ValidRun;
    assert s.codes[..|s.codes|] == s.codes;
    ComparableBound(s.codes, s.counts, user, from, |s.codes|);
    FailuresAreWith(s.codes, s.failures, user, from);
    FailuresAreAttempts(s, user, from, |s.codes|);
  }

  /** Exactly: a code's failed comparisons are its attempts, what is uncounted and what is still to be written. */
  lemma ThreeOnCodeIff(acts: seq<Action>, row: nat)
    requires ValidRun(INIT, 0, acts) && row < |Run(INIT, 0, acts).codes|
    ensures var s := Run(INIT, 0, acts);
            && row < |s.uncounted|
            && (FailuresOn(s.failures, row) <= 3 <==>
                s.uncounted[row] + |WaitingOn(s.calls, row)| <= 3 - s.codes[row].attempts)
  {
    InitKeeps(acts);
    hide Run, ValidRun;
  }

  // ---------- The refusal for five recent attempts ----------

  lemma {:induction false} AttemptedAreComparable(codes: seq<Code>, user: int, now: int)
    requires forall i :: 0 <= i < |codes| ==> codes[i].createdAt <= now
    ensures CountAttemptedSince(codes, user, now - ATTEMPT_SPAN) <= ComparableCount(codes, user, now - ATTEMPT_SPAN)
    decreases codes
  {
    if codes != [] {
      AttemptedAreComparable(codes[..|codes| - 1], user, now);
    }
  }

  lemma CodesOfThePast(acts: seq<Action>)
    requires ValidRun(INIT, 0, acts)
    ensures var s := Run(INIT, 0, acts);
            && CountsOk(s.codes, s.counts)
            && forall i :: 0 <= i < |s.codes| ==> s.codes[i].createdAt <= LastTime(0, acts)
  {
    InitKeeps(acts);
  }

  /** The query counts codes, so the refusal needs at least two overtaken ones in the span. */
  lemma RefusalNeedsOvertaking(acts: seq<Action>, user: int, entered: string, now: int, pick: Option<nat>, fault: Fault)
    requires ValidRun(INIT, 0, acts) && LastTime(0, acts) <= now
    ensures var s := Run(INIT, 0, acts);
            && |s.codes| == |s.counts|
            && (VerifyOutcome(s.codes, Some(user), entered, now, pick, fault) == TooManyRecentAttempts
                ==> OvertakenCount(s.codes, s.counts, user, now - ATTEMPT_SPAN, |s.codes|) >= 2)
  {
    CodesOfThePast(acts);
    var s := Run(INIT, 0, acts);
    hide Run, ValidRun, CountsOk, CountAttemptedSince, ComparableCount;
    assert s.codes[..|s.codes|] == s.codes;
    AttemptedAreComparable(s.codes, user, now);
    ComparableBound(s.codes, s.counts, user, now - ATTEMPT_SPAN, |s.codes|);
    CountsLong(s.codes, s.counts);
    CountedFirst(s.codes, user, entered, now, pick, fault);
    hide VerifyOutcome;
  }

  lemma CountsLong(codes: seq<Code>, counts: seq<nat>)
    requires CountsOk(codes, counts)
    ensures |codes| == |counts|
  {
  }

  // ---------- Calls of one user that do not overlap ----------

  ghost predicate InFlight(s: State, c: nat, user: int) { c in s.calls && s.calls[c].user == user }

  /** No call of the user begins beside another one, and none leaves a failed comparison uncounted. */
  ghost predicate Apart(s: State, a: Action, user: int) {
    match a
    case CountCodes(_, u, _, _) => u == user ==> forall c :: !InFlight(s, c, user)
    case CountAttempts(_, u, _, _) => u == user ==> forall c :: !InFlight(s, c, user)
    case Write(c, _, ok, _) => InFlight(s, c, user) && Wrong(s.calls[c]) ==> ok
    case Stop(c, _) => InFlight(s, c, user) ==> !Wrong(s.calls[c])
    case _ => true
  }

  ghost predicate SerialRun(s: State, before: int, acts: seq<Action>, user: int)
    requires ValidRun(s, before, acts)
    decreases acts
  {
    acts == [] || (Apart(s, acts[0], user) && SerialRun(Step(s, before, acts[0]), acts[0].now, acts[1..], user))
  }

  ghost predicate SerialCall(s: State, k: Call, user: int) {
    match k
    case Counted(_, _, _, have) => forall i :: have <= i < |s.codes| ==> s.codes[i].user != user
    case Cleared(_, _) => true
    case Holding(_, _, row, seen, _) => row < |s.codes| && s.codes[row] == seen && !seen.isUsed
  }

  ghost predicate SerialCalls(s: State, user: int) {
    && (forall c, d :: InFlight(s, c, user) && InFlight(s, d, user) ==> c == d)
    && (forall c :: InFlight(s, c, user) ==> SerialCall(s, s.calls[c], user))
  }

  ghost predicate SerialCodes(s: State, user: int) {
    && |s.counts| == |s.codes| == |s.uncounted|
    && (forall r :: 0 <= r < |s.codes| && s.codes[r].user == user ==>
         s.uncounted[r] == 0 && !Overtaken(s.codes, s.counts, r))
  }

  ghost predicate SerialMarks(s: State, user: int) {
    forall k, l :: 0 <= k < l < |s.marks| && s.marks[k].row == s.marks[l].row
                   ==> s.marks[k].row < |s.codes| && s.codes[s.marks[k].row].user != user
  }

  ghost predicate Serial(s: State, user: int) { SerialCalls(s, user) && SerialCodes(s, user) && SerialMarks(s, user) }

  lemma SerialKeepsCalls(s: State, before: int, a: Action, user: int)
    requires Enabled(s, before, a) && CallsOk(s, before) && SerialCalls(s, user) && Apart(s, a, user)
    ensures SerialCalls(Step(s, before, a), user)
  {
    var s' := Step(s, before, a);
    forall c | c != a.call ensures InFlight(s', c, user) <==> InFlight(s, c, user) {}
    forall c | InFlight(s', c, user) ensures SerialCall(s', s'.calls[c], user) {
      if c != a.call {
        SerialOther(s, before, a, c, user);
      }
    }
  }

  /** A step leaves a user's call alone that it is not a step of. */
  lemma SerialOther(s: State, before: int, a: Action, c: nat, user: int)
    requires Enabled(s, before, a) && CallsOk(s, before) && SerialCalls(s, user) && InFlight(s, c, user) && c != a.call
    ensures c in Step(s, before, a).calls && SerialCall(Step(s, before, a), s.calls[c], user)
  {
    assert a.call in s.calls ==> !InFlight(s, a.call, user) && CallOk(s, s.calls[a.call], before);
    assert CallOk(s, s.calls[c], before) && SerialCall(s, s.calls[c], user);
  }

  lemma SerialKeepsCodes(s: State, before: int, a: Action, user: int)
    requires Enabled(s, before, a) && CallsOk(s, before) && SerialCalls(s, user) && SerialCodes(s, user)
            && Apart(s, a, user)
    requires CountsOk(s.codes, s.counts)
    ensures SerialCodes(Step(s, before, a), user)
  {
    assert a.call in s.calls ==> CallOk(s, s.calls[a.call], before);
    assert InFlight(s, a.call, user) ==> SerialCall(s, s.calls[a.call], user);
    hide CallsOk, SerialCalls, CountsOk;
    if a.InsertCode? {
      SerialInsert(s, before, a, user);
    } else if a.Write? || a.Stop? {
      SerialFinish(s, before, a, user);
    } else {
      hide SerialCodes;
      var s' := Step(s, before, a);
      assert s'.codes == s.codes && s'.counts == s.counts && s'.uncounted == s.uncounted;
      SameCodes(s, s', user);
    }
  }

  lemma SameCodes(s: State, s': State, user: int)
    requires SerialCodes(s, user) && s'.codes == s.codes && s'.counts == s.counts && s'.uncounted == s.uncounted
    ensures SerialCodes(s', user)
  {
  }

  lemma SerialFinish(s: State, before: int, a: Action, user: int)
    requires Enabled(s, before, a) && SerialCodes(s, user) && Apart(s, a, user) && (a.Write? || a.Stop?)
    requires var k := s.calls[a.call];
             && (k.Holding? ==> k.row < |s.codes| && s.codes[k.row].user == k.user)
             && (InFlight(s, a.call, user) ==> SerialCall(s, k, user))
    ensures SerialCodes(Step(s, before, a), user)
  {
    var s' := Step(s, before, a);
    forall r | 0 <= r < |s.codes| && s.codes[r].user == user
      ensures s'.uncounted[r] == 0 && !Overtaken(s'.codes, s'.counts, r) {
      assert !Overtaken(s.codes, s.counts, r);
    }
  }

  lemma SerialInsert(s: State, before: int, a: Action, user: int)
    requires Enabled(s, before, a) && a.InsertCode? && SerialCodes(s, user)
    requires s.calls[a.call].have <= |s.codes| && (InFlight(s, a.call, user) ==> SerialCall(s, s.calls[a.call], user))
    ensures SerialCodes(Step(s, before, a), user)
  {
    var s' := Step(s, before, a);
    forall r | 0 <= r < |s.codes| && s.codes[r].user == user ensures !Overtaken(s'.codes, s'.counts, r) {
      assert !Overtaken(s.codes, s.counts, r);
    }
  }

  lemma SerialKeepsMarks(s: State, before: int, a: Action, user: int)
    requires Enabled(s, before, a) && CallsOk(s, before) && SerialCalls(s, user) && SerialMarks(s, user) && MarksOk(s)
    ensures SerialMarks(Step(s, before, a), user)
  {
    assert a.call in s.calls ==> CallOk(s, s.calls[a.call], before);
    assert InFlight(s, a.call, user) ==> SerialCall(s, s.calls[a.call], user);
  }

  lemma SerialStepKeeps(s: State, before: int, a: Action, user: int)
    requires Inv(s, before) && Serial(s, user) && Enabled(s, before, a) && Apart(s, a, user)
    ensures Serial(Step(s, before, a), user)
  {
    hide SerialCalls, SerialCodes, SerialMarks, CodesOk, CountsOk, CallsOk, MarksOk, FailuresOk, Accounted, Enabled,
        Apart;
    SerialKeepsCalls(s, before, a, user);
    SerialKeepsCodes(s, before, a, user);
    SerialKeepsMarks(s, before, a, user);
  }

  lemma {:induction false} SerialRunKeeps(s: State, before: int, acts: seq<Action>, user: int)
    requires Inv(s, before) && Serial(s, user) && ValidRun(s, before, acts) && SerialRun(s, before, acts, user)
    ensures Inv(Run(s, before, acts), LastTime(before, acts)) && Serial(Run(s, before, acts), user)
    decreases acts
  {
    hide Inv, Serial, Enabled, Apart;
    if acts != [] {
      StepKeeps(s, before, acts[0]);
      SerialStepKeeps(s, before, acts[0], user);
      SerialRunKeeps(Step(s, before, acts[0]), acts[0].now, acts[1..], user);
    }
  }

  lemma SerialInit(acts: seq<Action>, user: int)
    requires ValidRun(INIT, 0, acts) && SerialRun(INIT, 0, acts, user)
    ensures Inv(Run(INIT, 0, acts), LastTime(0, acts)) && Serial(Run(INIT, 0, acts), user)
  {
    SerialRunKeeps(INIT, 0, acts, user);
  }

  lemma {:induction false} NoneOvertaken(s: State, user: int, from: int, n: nat)
    requires SerialCodes(s, user) && n <= |s.codes|
    ensures OvertakenCount(s.codes, s.counts, user, from, n) == 0
    decreases n
  {
    if n > 0 {
      NoneOvertaken(s, user, from, n - 1);
    }
  }

  /** A code has at most three failed comparisons: its attempts, or one more that is about to be written. */
  lemma ThreeOnCode(s: State, now: int, user: int, row: nat)
    requires Inv(s, now) && Serial(s, user) && row < |s.codes| && s.codes[row].user == user
    ensures FailuresOn(s.failures, row) <= 3
  {
    var w := WaitingOn(s.calls, row);
    if w != {} {
      var c :| c in w;
      assert CallOk(s, s.calls[c], now) && InFlight(s, c, user) && SerialCall(s, s.calls[c], user);
      forall d <- w ensures d == c {
        assert CallOk(s, s.calls[d], now) && InFlight(s, d, user);
      }
      assert w == {c};
    }
  }

  lemma {:induction false} ThreePerCode(s: State, now: int, user: int, from: int, n: nat)
    requires Inv(s, now) && Serial(s, user) && n <= |s.codes|
    ensures FailuresWith(s.codes, s.failures, user, from, n) <= 3 * ComparableCount(s.codes[..n], user, from)
    decreases n
  {
    hide Inv, Serial, FailuresOn;
    if n > 0 {
      ThreePerCode(s, now, user, from, n - 1);
      assert s.codes[..n][..n - 1] == s.codes[..n - 1];
      if s.codes[n - 1].user == user {
        ThreeOnCode(s, now, user, n - 1);
      }
    }
  }

  lemma AtMostThreeCodes(s: State, now: int, user: int, from: int)
    requires Inv(s, now) && Serial(s, user)
    ensures ComparableCount(s.codes, user, from) <= 3
  {
    assert s.codes[..|s.codes|] == s.codes;
    NoneOvertaken(s, user, from, |s.codes|);
    ComparableBound(s.codes, s.counts, user, from, |s.codes|);
  }

  /** In every run in which the user's calls do not overlap, no ten minutes hold more than nine failed comparisons. */
  lemma NineFailuresAtMost(acts: seq<Action>, user: int, from: int)
    requires ValidRun(INIT, 0, acts) && SerialRun(INIT, 0, acts, user)
    ensures FailuresIn(Run(INIT, 0, acts).failures, user, from) <= 9
  {
    SerialInit(acts, user);
    var s, now := Run(INIT, 0, acts), LastTime(0, acts);
    hide Run, ValidRun, SerialRun;
    assert s.codes[..|s.codes|] == s.codes;
    ThreePerCode(s, now, user, from, |s.codes|);
    AtMostThreeCodes(s, now, user, from);
    FailuresAreWith(s.codes, s.failures, user, from);
  }

  /** And each of the user's codes yields tokens at most once. */
  lemma TokensOnce(acts: seq<Action>, user: int, row: nat)
    requires ValidRun(INIT, 0, acts) && SerialRun(INIT, 0, acts, user)
    requires row < |Run(INIT, 0, acts).codes| && Run(INIT, 0, acts).codes[row].user == user
    ensures TokensFor(Run(INIT, 0, acts).marks, row) <= 1
  {
    SerialInit(acts, user);
    var s := Run(INIT, 0, acts);
    hide Run, ValidRun, SerialRun, Inv, SerialCalls, SerialCodes;
    MarkedOnce(s.marks, row);
  }

  lemma {:induction false} MarkedOnce(marks: seq<Mark>, row: nat)
    requires forall k, l :: 0 <= k < l < |marks| && marks[k].row == marks[l].row ==> marks[k].row != row
    ensures TokensFor(marks, row) <= 1
    decreases marks
  {
    if marks != [] {
      var init := marks[..|marks| - 1];
      MarkedOnce(init, row);
      TokensForIssued(init, row);
    }
  }

  lemma CountedFirst(codes: seq<Code>, user: int, entered: string, now: int, pick: Option<nat>, fault: Fault)
    ensures VerifyOutcome(codes, Some(user), entered, now, pick, fault) == TooManyRecentAttempts
            ==> CountAttemptedSince(codes, user, now - ATTEMPT_SPAN) >= 5
  {
  }

  /** And the refusal for five recent attempts never happens. */
  lemma RecentAttemptsNeverReached(
      acts: seq<Action>, user: int, entered: string, now: int, pick: Option<nat>, fault: Fault)
    requires ValidRun(INIT, 0, acts) && SerialRun(INIT, 0, acts, user) && LastTime(0, acts) <= now
    ensures CountAttemptedSince(Run(INIT, 0, acts).codes, user, now - ATTEMPT_SPAN) <= 3
    ensures VerifyOutcome(Run(INIT, 0, acts).codes, Some(user), entered, now, pick, fault) != TooManyRecentAttempts
  {
    SerialInit(acts, user);
    var s := Run(INIT, 0, acts);
    hide Run, ValidRun, SerialRun;
    AttemptedAreComparable(s.codes, user, now);
    hide CodesOk, CountsOk, CallsOk, MarksOk, FailuresOk, Accounted, Serial, VerifyOutcome;
    AtMostThreeCodes(s, LastTime(0, acts), user, now - ATTEMPT_SPAN);
    CountedFirst(s.codes, user, entered, now, pick, fault);
  }

  // ---------- Calls that do overlap ----------

  lemma {:induction false} RunSnoc(s: State, before: int, acts: seq<Action>, a: Action)
    requires ValidRun(s, before, acts) && Enabled(Run(s, before, acts), LastTime(before, acts), a)
    ensures ValidRun(s, before, acts + [a]) && LastTime(before, acts + [a]) == a.now
    ensures Run(s, before, acts + [a]) == Step(Run(s, before, acts), LastTime(before, acts), a)
    decreases acts
  {
    hide Enabled, Step;
    if acts != [] {
      assert (acts + [a])[1..] == acts[1..] + [a];
      RunSnoc(Step(s, before, acts[0]), acts[0].now, acts[1..], a);
    } else {
      assert (acts + [a])[1..] == [];
    }
  }

  /** Some run of statements, all at time 0, leads to the state. */
  ghost predicate Reached(s: State) {
    exists acts :: ValidRun(INIT, 0, acts) && Run(INIT, 0, acts) == s && LastTime(0, acts) == 0
  }

  lemma Extend(s: State, a: Action)
    requires Reached(s) && Enabled(s, 0, a) && a.now == 0
    ensures Reached(Step(s, 0, a))
  {
    hide Enabled, Step;
    var acts :| ValidRun(INIT, 0, acts) && Run(INIT, 0, acts) == s && LastTime(0, acts) == 0;
    RunSnoc(INIT, 0, acts, a);
  }

  function Fresh(user: int, code: string): Code { Code(user, code, 0, LIFETIME, 0, false) }

  function Reader(user: int, code: string, entered: string): Call {
    Holding(user, entered, 0, Fresh(user, code), 0)
  }

  /** The calls from `first` to n-1 have read the code and are yet to write. */
  ghost predicate Readers(calls: map<nat, Call>, k: Call, first: nat, n: nat) {
    && (forall c: nat :: c in calls <==> first <= c < n)
    && (forall c <- calls :: calls[c] == k)
  }

  lemma NoneAttempted(c: Code, user: int, since: int)
    requires c.attempts == 0
    ensures CountAttemptedSince([c], user, since) == 0
  {
    assert [c][..0] == [];
  }

  lemma FailuresInSnoc(fs: seq<Failure>, f: Failure, user: int, from: int)
    ensures FailuresIn(fs + [f], user, from)
            == FailuresIn(fs, user, from) + if f.user == user && from <= f.at <= from + ATTEMPT_SPAN then 1 else 0
  {
    assert (fs + [f])[..|fs|] == fs;
  }

  lemma SelectFresh(s: State, c: nat, user: int, code: string, entered: string)
    requires s.codes == [Fresh(user, code)] && c !in s.calls && s.marks == []
    ensures Enabled(s, 0, CountAttempts(c, user, entered, 0))
    ensures var s1 := Step(s, 0, CountAttempts(c, user, entered, 0));
            && Enabled(s1, 0, Select(c, Some(0), 0, false))
            && var s2 := Step(s1, 0, Select(c, Some(0), 0, false));
               && s2.codes == s.codes && s2.marks == s.marks && s2.uncounted == s.uncounted
               && s2.calls == s.calls[c := Reader(user, code, entered)]
               && FailuresIn(s2.failures, user, 0) == FailuresIn(s.failures, user, 0) + if entered == code then 0 else 1
  {
    hide CountAttemptedSince, FailuresIn;
    NoneAttempted(Fresh(user, code), user, -ATTEMPT_SPAN);
    FailuresInSnoc(s.failures, Failure(user, 0, 0), user, 0);
    var s1 := Step(s, 0, CountAttempts(c, user, entered, 0));
    var s2 := Step(s1, 0, Select(c, Some(0), 0, false));
    assert s2.calls == s.calls[c := Reader(user, code, entered)];
  }

  lemma ReadOnce(s: State, c: nat, user: int, code: string, entered: string) returns (s2: State)
    requires Reached(s) && s.codes == [Fresh(user, code)] && c !in s.calls && s.marks == []
    ensures Reached(s2) && s2.codes == s.codes && s2.marks == s.marks && s2.uncounted == s.uncounted
    ensures s2.calls == s.calls[c := Reader(user, code, entered)]
    ensures FailuresIn(s2.failures, user, 0) == FailuresIn(s.failures, user, 0) + if entered == code then 0 else 1
  {
    SelectFresh(s, c, user, code, entered);
    hide Reached, Enabled, Step, FailuresIn;
    Extend(s, CountAttempts(c, user, entered, 0));
    var s1 := Step(s, 0, CountAttempts(c, user, entered, 0));
    Extend(s1, Select(c, Some(0), 0, false));
    s2 := Step(s1, 0, Select(c, Some(0), 0, false));
  }

  /** One code of the user, read by the calls 0 to n-1 before any of them has written. */
  ghost predicate ReadByAll(s: State, user: int, code: string, entered: string, n: nat) {
    && s.codes == [Fresh(user, code)] && s.marks == [] && s.uncounted == [0]
    && Readers(s.calls, Reader(user, code, entered), 0, n)
    && FailuresIn(s.failures, user, 0) == (if entered == code then 0 else n)
  }

  lemma OneCode(user: int, code: string) returns (s: State)
    ensures Reached(s) && ReadByAll(s, user, code, code, 0) && s.failures == []
  {
    assert ValidRun(INIT, 0, []) && Run(INIT, 0, []) == INIT;
    Extend(INIT, CountCodes(0, user, code, 0));
    var s1 := Step(INIT, 0, CountCodes(0, user, code, 0));
    Extend(s1, InsertCode(0, 0, 0, true));
    s := Step(s1, 0, InsertCode(0, 0, 0, true));
  }

  lemma {:induction false} ManyReaders(user: int, code: string, entered: string, n: nat) returns (s: State)
    ensures Reached(s) && ReadByAll(s, user, code, entered, n)
    decreases n
  {
    if n == 0 {
      s := OneCode(user, code);
    } else {
      var s0 := ManyReaders(user, code, entered, n - 1);
      hide Reached, FailuresIn;
      s := ReadOnce(s0, n - 1, user, code, entered);
    }
  }

  /** All of them then write, one after the other: j have, and the others are still to. */
  lemma {:induction false} ManyWriters(user: int, code: string, entered: string, n: nat, j: nat) returns (s: State)
    requires j <= n
    ensures Reached(s) && |s.codes| == |s.uncounted| == 1
    ensures Readers(s.calls, Reader(user, code, entered), j, n)
    ensures s.codes[0] == if j == 0 then Fresh(user, code)
                          else if entered == code then Fresh(user, code).(isUsed := true)
                          else Fresh(user, code).(attempts := 1)
    ensures FailuresIn(s.failures, user, 0) == (if entered == code then 0 else n)
    ensures TokensFor(s.marks, 0) == (if entered == code then j else 0)
    decreases j
  {
    if j == 0 {
      s := ManyReaders(user, code, entered, n);
    } else {
      var s0 := ManyWriters(user, code, entered, n, j - 1);
      hide Reached;
      assert s0.calls[j - 1] == Reader(user, code, entered);
      Extend(s0, Write(j - 1, 0, true, true));
      s := Step(s0, 0, Write(j - 1, 0, true, true));
    }
  }

  /**
   Overlapping calls know no bound. Any number of them that all read a code before one of them
   writes can all fail and leave its counter at 1, or all be right and all get tokens.
   */
  lemma OverlappingChecks(user: int, code: string, entered: string, n: nat)
    requires n > 0
    ensures exists s :: Reached(s) && |s.codes| == 1
                        && FailuresIn(s.failures, user, 0) == (if entered == code then 0 else n)
                        && s.codes[0].attempts == (if entered == code then 0 else 1)
                        && TokensFor(s.marks, 0) == (if entered == code then n else 0)
  {
    var s := ManyWriters(user, code, entered, n, n);
  }

  /**
   A refused update leaves a comparison uncounted: any number of calls, one after the other, can fail at
   attempt 0.
   */
  lemma {:induction false} RefusedUpdates(user: int, code: string, entered: string, n: nat) returns (s: State)
    requires entered != code
    ensures Reached(s) && s.codes == [Fresh(user, code)] && s.calls == map[] && |s.uncounted| == 1 && s.marks == []
    ensures FailuresIn(s.failures, user, 0) == n
    decreases n
  {
    if n == 0 {
      s := OneCode(user, code);
    } else {
      var s0 := RefusedUpdates(user, code, entered, n - 1);
      hide Reached, FailuresIn;
      var s2 := ReadOnce(s0, 0, user, code, entered);
      Extend(s2, Write(0, 0, false, false));
      s := Step(s2, 0, Write(0, 0, false, false));
    }
  }

  /** Sends from `first` to n-1 that counted the codes when there were none, and are yet to insert. */
  ghost predicate Senders(s: State, user: int, code: string, first: nat, n: nat) {
    && (forall c: nat :: c in s.calls <==> first <= c < n)
    && (forall c <- s.calls :: s.calls[c] == Counted(user, code, 0, 0))
    && |s.uncounted| == |s.codes|
  }

  lemma {:induction false} ManySenders(user: int, code: string, n: nat) returns (s: State)
    ensures Reached(s) && s.codes == [] && Senders(s, user, code, 0, n)
    decreases n
  {
    if n == 0 {
      assert ValidRun(INIT, 0, []) && Run(INIT, 0, []) == INIT;
      s := INIT;
    } else {
      var s0 := ManySenders(user, code, n - 1);
      hide Reached;
      Extend(s0, CountCodes(n - 1, user, code, 0));
      s := Step(s0, 0, CountCodes(n - 1, user, code, 0));
    }
  }

  /** Any number of overlapping sends are all let through: n codes of one user at one moment. */
  lemma {:induction false} OverlappingSends(user: int, code: string, n: nat, j: nat) returns (s: State)
    requires j <= n
    ensures Reached(s) && Senders(s, user, code, j, n)
    ensures CountSince(s.codes, user, -REQUEST_SPAN) == |s.codes| == j
    decreases j
  {
    if j == 0 {
      s := ManySenders(user, code, n);
    } else {
      var s0 := OverlappingSends(user, code, n, j - 1);
      hide Reached;
      Extend(s0, InsertCode(j - 1, 0, 0, true));
      s := Step(s0, 0, InsertCode(j - 1, 0, 0, true));
      assert s.codes[..|s0.codes|] == s0.codes;
    }
  }

  /** One wrong guess on the newest code, beside the senders. */
  lemma GuessNewest(s: State, c: nat, user: int, code: string, entered: string)
    requires Reached(s) && c !in s.calls && entered != code && s.codes != [] && |s.uncounted| == |s.codes|
    requires s.codes[|s.codes| - 1] == Fresh(user, code) && forall i :: 0 <= i < |s.codes| ==> s.codes[i].createdAt == 0
    requires CountAttemptedSince(s.codes, user, -ATTEMPT_SPAN) < 5
    ensures exists t :: Reached(t) && t.calls == s.calls && |t.uncounted| == |s.codes|
                        && t.codes == s.codes[|s.codes| - 1 := Fresh(user, code).(attempts := 1)]
  {
    var p := |s.codes| - 1;
    hide Reached, CountAttemptedSince;
    Extend(s, CountAttempts(c, user, entered, 0));
    var s1 := Step(s, 0, CountAttempts(c, user, entered, 0));
    Extend(s1, Select(c, Some(p), 0, false));
    var s2 := Step(s1, 0, Select(c, Some(p), 0, false));
    Extend(s2, Write(c, 0, true, true));
    var t := Step(s2, 0, Write(c, 0, true, true));
    assert t.calls == s.calls;
  }

  lemma InsertNext(s: State, user: int, code: string, c: nat, n: nat) returns (s': State)
    requires Reached(s) && Senders(s, user, code, c, n) && c < n
    ensures Reached(s') && Senders(s', user, code, c + 1, n) && s'.codes == s.codes + [Fresh(user, code)]
    ensures s'.codes[..|s.codes|] == s.codes
    ensures CountAttemptedSince(s'.codes, user, -ATTEMPT_SPAN) == CountAttemptedSince(s.codes, user, -ATTEMPT_SPAN)
  {
    hide Reached;
    Extend(s, InsertCode(c, 0, 0, true));
    s' := Step(s, 0, InsertCode(c, 0, 0, true));
    assert s'.codes[..|s.codes|] == s.codes;
  }

  lemma {:induction false} GuessedSends(user: int, code: string, entered: string, j: nat) returns (s: State)
    requires j <= 5 && entered != code
    ensures Reached(s) && Senders(s, user, code, j, 5)
    ensures |s.codes| == j && forall i :: 0 <= i < j ==> s.codes[i] == Fresh(user, code).(attempts := 1)
    ensures CountAttemptedSince(s.codes, user, -ATTEMPT_SPAN) == j
    decreases j
  {
    if j == 0 {
      s := ManySenders(user, code, 5);
    } else {
      var s0 := GuessedSends(user, code, entered, j - 1);
      var s1 := InsertNext(s0, user, code, j - 1, 5);
      GuessNewest(s1, j - 1, user, code, entered);
      hide Reached, Enabled, Step;
      s :| Reached(s) && s.calls == s1.calls && |s.uncounted| == |s1.codes|
           && s.codes == s1.codes[|s1.codes| - 1 := Fresh(user, code).(attempts := 1)];
      assert s.codes[..|s0.codes|] == s0.codes;
    }
  }

  /** Five overlapping sends, each with one wrong guess, do reach the refusal for five recent attempts. */
  lemma OverlappingSendsAreRefused(user: int, code: string, entered: string, pick: Option<nat>)
    requires entered != code
    ensures exists s ::
              Reached(s) && VerifyOutcome(s.codes, Some(user), code, 0, pick, NoFault) == TooManyRecentAttempts
  {
    var s := GuessedSends(user, code, entered, 5);
  }

  // ---------- A code that was sent can be used ----------

  /** A used code stays used, and no later query finds it. */
  lemma {:induction false} UsedNeverPicked(
      s: State, before: int, acts: seq<Action>, row: nat, later: int, pick: Option<nat>)
    requires Inv(s, before) && ValidRun(s, before, acts) && row < |s.codes| && s.codes[row].isUsed
    requires Picks(Run(s, before, acts).codes, s.codes[row].user, later, pick)
    ensures row < |Run(s, before, acts).codes| && Run(s, before, acts).codes[row].isUsed && pick != Some(row)
    decreases acts
  {
    if acts != [] {
      StepKeeps(s, before, acts[0]);
      var s' := Step(s, before, acts[0]);
      StaysUsed(s, before, acts[0], row);
      hide Inv, Enabled, Picks;
      UsedNeverPicked(s', acts[0].now, acts[1..], row, later, pick);
    }
  }

  lemma StaysUsed(s: State, before: int, a: Action, row: nat)
    requires Inv(s, before) && Enabled(s, before, a) && row < |s.codes| && s.codes[row].isUsed
    ensures var codes := Step(s, before, a).codes;
            row < |codes| && codes[row].isUsed && codes[row].user == s.codes[row].user
  {
    assert a.call in s.calls ==> CallOk(s, s.calls[a.call], before);
  }

  /** No live code of the user is newer; `strictly`, none is as new either. */
  ghost predicate Newest(codes: seq<Code>, row: nat, later: int, strictly: bool)
    requires row < |codes|
  {
    forall i :: 0 <= i < |codes| && i != row && Live(codes[i], codes[row].user, later)
                ==> if strictly then codes[i].createdAt < codes[row].createdAt
                    else codes[i].createdAt <= codes[row].createdAt
  }

  /** Entering the row's code, when the query returns `pick`, gets tokens for it. */
  predicate Accepts(codes: seq<Code>, row: nat, later: int, pick: Option<nat>)
    requires row < |codes|
  {
    && pick == Some(row)
    && VerifyOutcome(codes, Some(codes[row].user), codes[row].code, later, pick, NoFault) == Tokens(codes[row].user)
  }

  /** Some live code at least as new as code i is picked. */
  lemma {:induction false} PickAbove(codes: seq<Code>, user: int, now: int, i: nat, n: nat) returns (p: nat)
    requires i < n <= |codes| && Live(codes[i], user, now)
    ensures p < n && Live(codes[p], user, now) && codes[p].createdAt >= codes[i].createdAt
    ensures forall j :: 0 <= j < n && Live(codes[j], user, now) ==> codes[j].createdAt <= codes[p].createdAt
    decreases n
  {
    if n == i + 1 {
      p := i;
      for j := 0 to i
        invariant p < n && Live(codes[p], user, now) && codes[p].createdAt >= codes[i].createdAt
        invariant forall k :: 0 <= k < j && Live(codes[k], user, now) ==> codes[k].createdAt <= codes[p].createdAt
      {
        if Live(codes[j], user, now) && codes[j].createdAt > codes[p].createdAt {
          p := j;
        }
      }
    } else {
      p := PickAbove(codes, user, now, i, n - 1);
      if Live(codes[n - 1], user, now) && codes[n - 1].createdAt > codes[p].createdAt {
        p := n - 1;
      }
    }
  }

  /**
   On any table: a code that lives, is unused, has fewer than three attempts, while fewer than five
   were attempted lately, may get its tokens exactly if no live code is newer, and is sure to exactly
   if it is the only newest. Codes stored at one moment come in any order.
   */
  lemma AcceptedIff(codes: seq<Code>, row: nat, later: int)
    requires row < |codes|
    ensures var c := codes[row];
            var fit := later < c.expiresAt && !c.isUsed && c.attempts < 3
                       && CountAttemptedSince(codes, c.user, later - ATTEMPT_SPAN) < 5;
            && ((exists pick :: Picks(codes, c.user, later, pick) && Accepts(codes, row, later, pick))
                <==> fit && Newest(codes, row, later, false))
            && ((forall pick :: Picks(codes, c.user, later, pick) ==> Accepts(codes, row, later, pick))
                <==> fit && Newest(codes, row, later, true))
  {
    hide CountAttemptedSince;
    var c := codes[row];
    if Live(c, c.user, later) {
      if Newest(codes, row, later, false) {
        assert Picks(codes, c.user, later, Some(row));
      }
      var p := PickAbove(codes, c.user, later, row, |codes|);
      assert Picks(codes, c.user, later, Some(p));
      if i :| 0 <= i < |codes| && i != row && Live(codes[i], c.user, later) && codes[i].createdAt >= c.createdAt {
        var q := PickAbove(codes, c.user, later, i, |codes|);
        var r := if q == row then i else q;
        assert Picks(codes, c.user, later, Some(r)) && !Accepts(codes, row, later, Some(r));
      }
    } else {
      NotAccepted(codes, row, later);
    }
  }

  /** What the query returns is not a code that is dead, and it returns something. */
  lemma NotAccepted(codes: seq<Code>, row: nat, later: int)
    requires row < |codes| && !Live(codes[row], codes[row].user, later)
    ensures forall pick :: Picks(codes, codes[row].user, later, pick) ==> !Accepts(codes, row, later, pick)
    ensures exists pick :: Picks(codes, codes[row].user, later, pick)
  {
    if i :| 0 <= i < |codes| && Live(codes[i], codes[row].user, later) {
      var p := PickAbove(codes, codes[row].user, later, i, |codes|);
      assert Picks(codes, codes[row].user, later, Some(p));
    } else {
      assert Picks(codes, codes[row].user, later, None);
    }
  }

  /**
   Send and verify. After any run in which the user's calls do not overlap, and with none in flight, a
   code that lives, is unused and has had fewer than three failed comparisons may get its tokens
   exactly if no live code of the user is newer, and is sure to exactly if it is the only newest.
   */
  lemma SentCodeVerifiesIff(acts: seq<Action>, user: int, row: nat, later: int)
    requires ValidRun(INIT, 0, acts) && SerialRun(INIT, 0, acts, user) && LastTime(0, acts) <= later
    requires row < |Run(INIT, 0, acts).codes| && Run(INIT, 0, acts).codes[row].user == user
    requires forall c :: !InFlight(Run(INIT, 0, acts), c, user)
    ensures var s := Run(INIT, 0, acts);
            var fit := later < s.codes[row].expiresAt && !s.codes[row].isUsed && FailuresOn(s.failures, row) < 3;
            && ((exists pick :: Picks(s.codes, user, later, pick) && Accepts(s.codes, row, later, pick))
                <==> fit && Newest(s.codes, row, later, false))
            && ((forall pick :: Picks(s.codes, user, later, pick) ==> Accepts(s.codes, row, later, pick))
                <==> fit && Newest(s.codes, row, later, true))
  {
    SerialInit(acts, user);
    AcceptedIff(Run(INIT, 0, acts).codes, row, later);
    RecentAttemptsNeverReached(acts, user, "", later, None, NoFault);
    AttemptsAreFailures(Run(INIT, 0, acts), LastTime(0, acts), user, row);
    hide Run, ValidRun, SerialRun, Picks, Accepts, Newest;
  }

  lemma AttemptsAreFailures(s: State, now: int, user: int, row: nat)
    requires Inv(s, now) && Serial(s, user) && row < |s.codes| && s.codes[row].user == user
    requires forall c :: !InFlight(s, c, user)
    ensures FailuresOn(s.failures, row) == s.codes[row].attempts
  {
    forall c <- WaitingOn(s.calls, row) ensures false {
      assert CallOk(s, s.calls[c], now) && InFlight(s, c, user);
    }
    assert WaitingOn(s.calls, row) == {};
  }

  // ---------- A call that runs alone is a run ----------

  function SendActions(codes: seq<Code>, c: nat, user: int, code: string, now: int, fault: Fault): seq<Action> {
    if fault == CountFails then []
    else if CountSince(codes, user, now - REQUEST_SPAN) >= 3 then [CountCodes(c, user, code, now)]
    else [CountCodes(c, user, code, now), InsertCode(c, now, now, fault != WriteFails)]
  }

  lemma RunOne(s: State, before: int, a: Action)
    requires Enabled(s, before, a)
    ensures ValidRun(s, before, [a]) && Run(s, before, [a]) == Step(s, before, a)
  {
    assert [a][1..] == [];
  }

  lemma RunTwo(s: State, before: int, a: Action, b: Action)
    requires Enabled(s, before, a) && Enabled(Step(s, before, a), a.now, b)
    ensures ValidRun(s, before, [a, b]) && Run(s, before, [a, b]) == Step(Step(s, before, a), a.now, b)
  {
    hide Enabled, Step;
    assert [a, b][1..] == [b];
    RunOne(Step(s, before, a), a.now, b);
  }

  lemma SendIsRun(s: State, before: int, c: nat, user: int, code: string, now: int, fault: Fault)
    requires before <= now && c !in s.calls
    ensures var acts := SendActions(s.codes, c, user, code, now, fault);
            && ValidRun(s, before, acts)
            && Run(s, before, acts).codes == AfterSend(s.codes, Some(user), code, now, fault)
            && Run(s, before, acts).calls == s.calls
  {
    hide CountSince, Run, ValidRun;
    var count, insert := CountCodes(c, user, code, now), InsertCode(c, now, now, fault != WriteFails);
    if CountSince(s.codes, user, now - REQUEST_SPAN) >= 3 {
      RunOne(s, before, count);
    } else {
      RunTwo(s, before, count, insert);
      assert Step(s, before, count).calls - {c} == s.calls;
    }
    RunNothing(s, before);
  }

  lemma RunNothing(s: State, before: int)
    ensures ValidRun(s, before, []) && Run(s, before, []) == s
  {
  }

  /** From s to t tokens were issued. */
  ghost predicate TokensIn(s: State, t: State) { |t.marks| == |s.marks| + 1 && t.marks[|s.marks|].issued }

  function VerifyActions(
      codes: seq<Code>, c: nat, user: int, entered: string, now: int, pick: Option<nat>, fault: Fault):
    seq<Action>
  {
    var count := CountAttempts(c, user, entered, now);
    if fault == CountFails then []
    else if CountAttemptedSince(codes, user, now - ATTEMPT_SPAN) >= 5 then [count]
    else if fault == SelectFails then [count, Stop(c, now)]
    else if pick.None? || pick.value >= |codes|
        || codes[pick.value].attempts >= 3 then [count, Select(c, pick, now, false)]
    else [count, Select(c, pick, now, false), Write(c, now, fault != WriteFails, fault != LastFails)]
  }

  lemma VerifyIsRun(
      s: State, before: int, c: nat, user: int, entered: string, now: int, pick: Option<nat>, fault: Fault)
    requires before <= now && c !in s.calls && Picks(s.codes, user, now, pick) && |s.uncounted| == |s.codes|
    ensures var acts := VerifyActions(s.codes, c, user, entered, now, pick, fault);
            && ValidRun(s, before, acts)
            && Run(s, before, acts).codes == AfterVerify(s.codes, Some(user), entered, now, pick, fault)
            && Run(s, before, acts).calls == s.calls
            && (TokensIn(s, Run(s, before, acts))
                <==> VerifyOutcome(s.codes, Some(user), entered, now, pick, fault).Tokens?)
  {
    hide CountAttemptedSince, Run, ValidRun;
    RunNothing(s, before);
    var count, select := CountAttempts(c, user, entered, now), Select(c, pick, now, false);
    if fault == CountFails {
      return;
    }
    if CountAttemptedSince(s.codes, user, now - ATTEMPT_SPAN) >= 5 {
      RunOne(s, before, count);
    } else {
      assert s.calls[c := Cleared(user, entered)] - {c} == s.calls;
      if fault == SelectFails {
        RunTwo(s, before, count, Stop(c, now));
      } else if pick.None? || s.codes[pick.value].attempts >= 3 {
        RunTwo(s, before, count, select);
      } else {
        ReadAndWrite(s, before, c, user, entered, now, pick.value, fault);
      }
    }
  }

  lemma ReadAndWrite(s: State, before: int, c: nat, user: int, entered: string, now: int, p: nat, fault: Fault)
    requires before <= now && c !in s.calls && Picks(s.codes, user, now, Some(p)) && |s.uncounted| == |s.codes|
    requires CountAttemptedSince(s.codes, user, now - ATTEMPT_SPAN) < 5 && s.codes[p].attempts < 3
    requires fault != CountFails && fault != SelectFails
    ensures var acts := [CountAttempts(c, user, entered, now), Select(c, Some(p), now, false),
                         Write(c, now, fault != WriteFails, fault != LastFails)];
            && ValidRun(s, before, acts)
            && Run(s, before, acts).codes == AfterVerify(s.codes, Some(user), entered, now, Some(p), fault)
            && Run(s, before, acts).calls == s.calls
            && (TokensIn(s, Run(s, before, acts))
                <==> VerifyOutcome(s.codes, Some(user), entered, now, Some(p), fault).Tokens?)
  {
    hide CountAttemptedSince, Run, ValidRun;
    var count, select := CountAttempts(c, user, entered, now), Select(c, Some(p), now, false);
    var write := Write(c, now, fault != WriteFails, fault != LastFails);
    var s2 := Step(Step(s, before, count), now, select);
    assert s2.calls - {c} == s.calls;
    RunThree(s, before, count, select, write);
  }

  lemma RunThree(s: State, before: int, a: Action, b: Action, d: Action)
    requires Enabled(s, before, a) && Enabled(Step(s, before, a), a.now, b)
    requires Enabled(Step(Step(s, before, a), a.now, b), b.now, d)
    ensures ValidRun(s, before, [a, b, d])
    ensures Run(s, before, [a, b, d]) == Step(Step(Step(s, before, a), a.now, b), b.now, d)
  {
    hide Enabled, Step;
    assert [a, b, d][1..] == [b, d];
    RunTwo(Step(s, before, a), a.now, b, d);
  }

  // ---------- What one call leaves ----------

  /** The codes of the user that are not older than `since`. */
  ghost function PlacesSince(codes: seq<Code>, user: int, since: int): set<nat> {
    set i: nat | i < |codes| && codes[i].user == user && codes[i].createdAt >= since
  }

  lemma {:induction false} CountIsCard(codes: seq<Code>, user: int, since: int)
    ensures CountSince(codes, user, since) == |PlacesSince(codes, user, since)|
    decreases codes
  {
    if codes != [] {
      var n := |codes| - 1;
      CountIsCard(codes[..n], user, since);
      var before := PlacesSince(codes[..n], user, since);
      assert n !in before;
      assert PlacesSince(codes, user, since)
          == if codes[n].user == user && codes[n].createdAt >= since then before + {n} else before;
    } else {
      assert PlacesSince(codes, user, since) == {};
    }
  }

  ghost function AttemptedSince(codes: seq<Code>, user: int, since: int): set<nat> {
    set i <- PlacesSince(codes, user, since) | codes[i].attempts > 0
  }

  lemma {:induction false} CountAttemptedIsCard(codes: seq<Code>, user: int, since: int)
    ensures CountAttemptedSince(codes, user, since) == |AttemptedSince(codes, user, since)|
    decreases codes
  {
    if codes != [] {
      var n := |codes| - 1;
      CountAttemptedIsCard(codes[..n], user, since);
      var before := AttemptedSince(codes[..n], user, since);
      assert n !in before;
      assert AttemptedSince(codes, user, since)
          == if codes[n].user == user && codes[n].createdAt >= since && codes[n].attempts > 0 then before + {n}
             else before;
    } else {
      assert AttemptedSince(codes, user, since) == {};
    }
  }

  /**
   A send with a valid token and a working database is refused exactly if three codes of the user are from
   the last fifteen minutes; else it adds one row: the code, for the user, unused, unattempted, and good for
   five minutes. A failing e-mail leaves the row. Nothing else changes.
   */
  lemma SendDoes(codes: seq<Code>, user: int, code: string, now: int, fault: Fault)
    ensures var many := |PlacesSince(codes, user, now - 900_000_000_000)| >= 3;
            && (SendOutcome(codes, Some(user), now, NoFault) == if many then TooManyRequests else Sent)
            && AfterSend(codes, Some(user), code, now, fault)
               == (if many || fault == CountFails || fault == WriteFails then codes
                   else codes + [Code(user, code, now, now + 300_000_000_000, 0, false)])
            && SendOutcome(codes, None, now, fault) == InvalidTempToken
            && AfterSend(codes, None, code, now, fault) == codes
  {
    CountIsCard(codes, user, now - REQUEST_SPAN);
  }

  /**
   A check that reads a row with attempts left: the right code marks this row used and gives its user
   tokens; a wrong one adds an attempt to it, and reports how many of three are left. All other rows, and
   all other columns, stay.
   */
  lemma VerifyDoes(codes: seq<Code>, user: int, entered: string, now: int, p: nat)
    requires p < |codes| && codes[p].attempts < 3
    requires CountAttemptedSince(codes, user, now - ATTEMPT_SPAN) < 5
    ensures var r, codes' := VerifyOutcome(codes, Some(user), entered, now, Some(p), NoFault),
                             AfterVerify(codes, Some(user), entered, now, Some(p), NoFault);
            && |codes'| == |codes| && (forall i :: 0 <= i < |codes| && i != p ==> codes'[i] == codes[i])
            && SameRow(codes[p], codes'[p])
            && (entered == codes[p].code
                ==> r == Tokens(codes[p].user) && codes'[p].isUsed && codes'[p].attempts == codes[p].attempts)
            && (entered != codes[p].code
                ==> && r.InvalidCode? && codes'[p].isUsed == codes[p].isUsed
                    && codes'[p].attempts == codes[p].attempts + 1 && r.remaining + codes'[p].attempts == 3)
  {
  }

  /** The refusals of a check, which change nothing, in their order. */
  lemma VerifyRefuses(codes: seq<Code>, user: Option<int>, entered: string, now: int, pick: Option<nat>)
    requires pick.Some? ==> pick.value < |codes|
    ensures var r := VerifyOutcome(codes, user, entered, now, pick, NoFault);
            && (r == BadTempToken <==> user.None?)
            && (r == TooManyRecentAttempts
                <==> user.Some? && |AttemptedSince(codes, user.value, now - 600_000_000_000)| >= 5)
            && (r == NoCode <==> user.Some? && r != TooManyRecentAttempts && pick.None?)
            && (r == TooManyAttempts
                <==> user.Some? && r != TooManyRecentAttempts && pick.Some? && codes[pick.value].attempts >= 3)
            && r != VerifyFailed
            && (r.BadTempToken? || r.TooManyRecentAttempts? || r.NoCode? || r.TooManyAttempts?
                ==> AfterVerify(codes, user, entered, now, pick, NoFault) == codes)
  {
    if user.Some? {
      CountAttemptedIsCard(codes, user.value, now - ATTEMPT_SPAN);
    }
  }

  /** A send that something fails under: what it reports, and whether the code is stored all the same. */
  lemma SendFails(codes: seq<Code>, user: int, code: string, now: int, fault: Fault)
    requires SendOutcome(codes, Some(user), now, NoFault) == Sent
    ensures fault == CountFails || fault == WriteFails || fault == LastFails
            <==> SendOutcome(codes, Some(user), now, fault) == SendFailed
    ensures AfterSend(codes, Some(user), code, now, fault) == codes <==> fault == CountFails || fault == WriteFails
  {
  }

  /**
   A check that something fails under. A failing count or write gives an error and changes nothing; a
   failing query reads as no code; and tokens that cannot be made leave the code used.
   */
  lemma VerifyFails(codes: seq<Code>, user: int, entered: string, now: int, p: nat)
    requires p < |codes| && codes[p].attempts < 3
    requires CountAttemptedSince(codes, user, now - ATTEMPT_SPAN) < 5
    ensures forall fault | fault == CountFails || fault == WriteFails ::
              && VerifyOutcome(codes, Some(user), entered, now, Some(p), fault) == VerifyFailed
              && AfterVerify(codes, Some(user), entered, now, Some(p), fault) == codes
    ensures VerifyOutcome(codes, Some(user), entered, now, Some(p), SelectFails) == NoCode
    ensures AfterVerify(codes, Some(user), entered, now, Some(p), SelectFails) == codes
    ensures entered == codes[p].code ==>
              && VerifyOutcome(codes, Some(user), entered, now, Some(p), LastFails) == VerifyFailed
              && AfterVerify(codes, Some(user), entered, now, Some(p), LastFails)
                 == codes[p := codes[p].(isUsed := true)]
  {
  }
}
