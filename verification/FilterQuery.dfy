/**
 The message filters as SQL: `BuildFilters` renders numbered placeholders and collects the
 positional arguments, and the meaning of the resulting text is what the database would answer.
 */
module FilterQuery {
  import opened Wrappers

  datatype Arg = Text(text: string) | Flag(flag: bool) | Number(number: int)

  datatype Filters = Filters(
    roomId: Option<string>,
    userId: Option<string>,
    topicId: Option<string>,
    messageType: Option<string>,
    hasAttachments: Option<bool>,
    hasReactions: Option<bool>,
    hasPoll: Option<bool>,
    mentionsUserId: Option<string>,
    fromTimestamp: Option<int>,
    toTimestamp: Option<int>)

  datatype Row = Row(
    roomId: string,
    userId: string,
    topicId: string,
    messageType: string,
    hasAttachments: bool,
    reactionCount: int,
    hasPoll: bool,
    timestamp: int)

  /** What the filters that are set ask of a row. `mentionsUserId` is not among them. */
  predicate Satisfies(f: Filters, row: Row) {
    && (f.roomId.Some? ==> row.roomId == f.roomId.value)
    && (f.userId.Some? ==> row.userId == f.userId.value)
    && (f.topicId.Some? ==> row.topicId == f.topicId.value)
    && (f.messageType.Some? ==> row.messageType == f.messageType.value)
    && (f.hasAttachments.Some? ==> row.hasAttachments == f.hasAttachments.value)
    && (f.hasReactions.Some? ==> row.reactionCount > 0)
    && (f.hasPoll.Some? ==> row.hasPoll == f.hasPoll.value)
    && (f.fromTimestamp.Some? ==> row.timestamp >= f.fromTimestamp.value)
    && (f.toTimestamp.Some? ==> row.timestamp <= f.toTimestamp.value)
  }

  // ---------- Numerals ----------

  predicate IsDigit(c: char) { '0' <= c <= '9' }

  function Itoa(n: nat): (s: string)
    ensures s != [] && forall c <- s :: IsDigit(c)
    decreases n
  {
    if n < 10 then ['0' + n as char] else Itoa(n / 10) + ['0' + (n % 10) as char]
  }

  function Atoi(s: string): Option<nat>
    decreases s
  {
    if s == [] || !IsDigit(s[|s| - 1]) then None
    else
      var d: nat := (s[|s| - 1] - '0') as nat;
      if |s| == 1 then Some(d)
      else
        match Atoi(s[..|s| - 1])
        case None => None
        case Some(n) => Some(10 * n + d)
  }

  lemma {:induction false} AtoiItoa(n: nat)
    ensures Atoi(Itoa(n)) == Some(n)
    decreases n
  {
    if n >= 10 {
      AtoiItoa(n / 10);
      assert Itoa(n)[..|Itoa(n)| - 1] == Itoa(n / 10);
    }
  }

  // ---------- The text of a query ----------

  datatype Comparison = RoomIs | UserIs | TopicIs | TypeIs | AttachmentsAre | PollIs | NotBefore | NotAfter

  /** A condition's text up to the number of its placeholder. */
  function Prefix(comparison: Comparison): string {
    match comparison
    case RoomIs => "room_id = $"
    case UserIs => "user_id = $"
    case TopicIs => "topic_id = $"
    case TypeIs => "type = $"
    case AttachmentsAre => "has_attachments = $"
    case PollIs => "has_poll = $"
    case NotBefore => "timestamp >= $"
    case NotAfter => "timestamp <= $"
  }

  const REACTED := "reaction_count > 0"

  function Placeholder(comparison: Comparison, n: nat): string { Prefix(comparison) + Itoa(n) }

  /** One condition: a column compared with a numbered placeholder, or the bare reaction test. */
  datatype Entry = Numbered(comparison: Comparison, value: Arg) | Bare

  function ConditionText(e: Entry, n: nat): string {
    match e
    case Numbered(comparison, _) => Placeholder(comparison, n)
    case Bare => REACTED
  }

  function Next(e: Entry, n: nat): nat { if e.Bare? then n else n + 1 }

  function Count(es: seq<Entry>): nat
    decreases es
  {
    if es == [] then 0 else Next(es[0], Count(es[1..]))
  }

  /** The conditions, the first placeholder of which is `n`. */
  function Conditions(es: seq<Entry>, n: nat): (r: seq<string>)
    ensures |r| == |es|
    decreases es
  {
    if es == [] then [] else [ConditionText(es[0], n)] + Conditions(es[1..], Next(es[0], n))
  }

  function ArgOf(e: Entry): Arg { if e.Bare? then Flag(true) else e.value }

  function Args(es: seq<Entry>): (r: seq<Arg>)
    ensures |r| == |es|
    decreases es
  {
    if es == [] then [] else [ArgOf(es[0])] + Args(es[1..])
  }

  lemma {:induction false} Snoc(es: seq<Entry>, e: Entry, n: nat)
    ensures Conditions(es + [e], n) == Conditions(es, n) + [ConditionText(e, n + Count(es))]
    ensures Args(es + [e]) == Args(es) + [ArgOf(e)]
    ensures Count(es + [e]) == Next(e, Count(es))
    decreases es
  {
    hide ConditionText;
    if es == [] {
      assert Conditions([], Next(e, n)) == [];
      assert Args([]) == [] && Count([]) == 0;
      assert [e][1..] == [];
    } else {
      assert (es + [e])[1..] == es[1..] + [e];
      Snoc(es[1..], e, Next(es[0], n));
    }
  }

  function Join(conditions: seq<string>): string
    decreases conditions
  {
    if conditions == [] then ""
    else if |conditions| == 1 then conditions[0]
    else conditions[0] + " AND " + Join(conditions[1..])
  }

  function WhereText(conditions: seq<string>): string {
    if conditions == [] then "" else "WHERE " + Join(conditions)
  }

  function WithText(es: seq<Entry>, comparison: Comparison, o: Option<string>): seq<Entry> {
    if o.None? then es else es + [Numbered(comparison, Text(o.value))]
  }

  function WithFlag(es: seq<Entry>, comparison: Comparison, o: Option<bool>): seq<Entry> {
    if o.None? then es else es + [Numbered(comparison, Flag(o.value))]
  }

  function WithTime(es: seq<Entry>, comparison: Comparison, o: Option<int>): seq<Entry> {
    if o.None? then es else es + [Numbered(comparison, Number(o.value))]
  }

  function WithReactions(es: seq<Entry>, o: Option<bool>): seq<Entry> { if o.None? then es else es + [Bare] }

  /** The filters that are set, in the order in which they are added. */
  function Entries(f: Filters): seq<Entry> {
    var es := WithText([], RoomIs, f.roomId);
    var es := WithText(es, UserIs, f.userId);
    var es := WithText(es, TopicIs, f.topicId);
    var es := WithText(es, TypeIs, f.messageType);
    var es := WithFlag(es, AttachmentsAre, f.hasAttachments);
    var es := WithReactions(es, f.hasReactions);
    var es := WithFlag(es, PollIs, f.hasPoll);
    var es := WithTime(es, NotBefore, f.fromTimestamp);
    WithTime(es, NotAfter, f.toTimestamp)
  }

  /** The builder's two lists. */
  datatype Query = Query(conditions: seq<string>, args: seq<Arg>)

  function Push(q: Query, condition: string, arg: Arg): Query { Query(q.conditions + [condition], q.args + [arg]) }

  class QueryBuilder {
    var conditions: seq<string>
    var args: seq<Arg>

    constructor ()
      ensures Contents() == Query([], [])
    {
      conditions, args := [], [];
    }

    ghost function Contents(): Query
      reads this
    {
      Query(conditions, args)
    }

    method Add(condition: string, arg: Arg)
      modifies this
      ensures Contents() == Push(old(Contents()), condition, arg)
    {
      conditions := conditions + [condition];
      args := args + [arg];
    }

    method Build() returns (text: string, values: seq<Arg>)
      ensures text == WhereText(conditions) && values == args
    {
      if |conditions| == 0 {
        return "", args;
      }
      return "WHERE " + Join(conditions), args;
    }
  }

  /** Numbering starts at 1 whatever the builder `base` already holds. */
  function Extended(base: Query, es: seq<Entry>): Query {
    Query(base.conditions + Conditions(es, 1), base.args + Args(es))
  }

  /** Where `BuildFilters` stands: the entries so far are rendered, and `arg` is the next placeholder. */
  ghost predicate Rendered(base: Query, q: Query, es: seq<Entry>, arg: nat) {
    q == Extended(base, es) && arg == 1 + Count(es)
  }

  lemma AddEntry(base: Query, q: Query, es: seq<Entry>, arg: nat, e: Entry)
    requires Rendered(base, q, es, arg)
    ensures Rendered(base, Push(q, ConditionText(e, arg), ArgOf(e)), es + [e], Next(e, arg))
  {
    Snoc(es, e, 1);
  }

  method AddText(
      builder: QueryBuilder, arg: nat, comparison: Comparison, o: Option<string>, ghost base: Query,
      ghost es: seq<Entry>) returns (next: nat)
    requires Rendered(base, builder.Contents(), es, arg)
    modifies builder
    ensures Rendered(base, builder.Contents(), WithText(es, comparison, o), next)
  {
    next := arg;
    if o.Some? {
      AddEntry(base, builder.Contents(), es, arg, Numbered(comparison, Text(o.value)));
      builder.Add(Placeholder(comparison, arg), Text(o.value));
      next := arg + 1;
    }
  }

  method AddFlag(
      builder: QueryBuilder, arg: nat, comparison: Comparison, o: Option<bool>, ghost base: Query,
      ghost es: seq<Entry>) returns (next: nat)
    requires Rendered(base, builder.Contents(), es, arg)
    modifies builder
    ensures Rendered(base, builder.Contents(), WithFlag(es, comparison, o), next)
  {
    next := arg;
    if o.Some? {
      AddEntry(base, builder.Contents(), es, arg, Numbered(comparison, Flag(o.value)));
      builder.Add(Placeholder(comparison, arg), Flag(o.value));
      next := arg + 1;
    }
  }

  method AddTime(
      builder: QueryBuilder, arg: nat, comparison: Comparison, o: Option<int>, ghost base: Query,
      ghost es: seq<Entry>) returns (next: nat)
    requires Rendered(base, builder.Contents(), es, arg)
    modifies builder
    ensures Rendered(base, builder.Contents(), WithTime(es, comparison, o), next)
  {
    next := arg;
    if o.Some? {
      AddEntry(base, builder.Contents(), es, arg, Numbered(comparison, Number(o.value)));
      builder.Add(Placeholder(comparison, arg), Number(o.value));
      next := arg + 1;
    }
  }

  lemma FirstText()
    ensures Placeholder(RoomIs, 1) == "room_id = $1"
  {
    assert Itoa(1) == ['0' + 1 as char] == "1";
  }

  /** The source repeats one block for every filter; only the room's has its number written out. */
  method BuildFilters(f: Filters, builder: QueryBuilder)
    modifies builder
    ensures builder.Contents() == Extended(old(builder.Contents()), Entries(f))
  {
    var arg: nat := 1;
    ghost var base := builder.Contents();
    assert Rendered(base, base, [], 1);
    ghost var es: seq<Entry> := WithText([], RoomIs, f.roomId);
    if f.roomId.Some? {
      AddEntry(base, builder.Contents(), [], 1, Numbered(RoomIs, Text(f.roomId.value)));
      FirstText();
      builder.Add("room_id = $1", Text(f.roomId.value));
      arg := arg + 1;
    }
    arg := AddText(builder, arg, UserIs, f.userId, base, es);
    es := WithText(es, UserIs, f.userId);
    arg := AddText(builder, arg, TopicIs, f.topicId, base, es);
    es := WithText(es, TopicIs, f.topicId);
    arg := AddText(builder, arg, TypeIs, f.messageType, base, es);
    es := WithText(es, TypeIs, f.messageType);
    arg := AddFlag(builder, arg, AttachmentsAre, f.hasAttachments, base, es);
    es := WithFlag(es, AttachmentsAre, f.hasAttachments);
    if f.hasReactions.Some? {
      AddEntry(base, builder.Contents(), es, arg, Bare);
      builder.Add(REACTED, Flag(true));
    }
    es := WithReactions(es, f.hasReactions);
    arg := AddFlag(builder, arg, PollIs, f.hasPoll, base, es);
    es := WithFlag(es, PollIs, f.hasPoll);
    arg := AddTime(builder, arg, NotBefore, f.fromTimestamp, base, es);
    es := WithTime(es, NotBefore, f.fromTimestamp);
    arg := AddTime(builder, arg, NotAfter, f.toTimestamp, base, es);
    es := WithTime(es, NotAfter, f.toTimestamp);
  }

  // ---------- What the database makes of the text ----------

  /** The words between the blanks. */
  function Split(s: string): (r: seq<string>)
    ensures r != []
    decreases s
  {
    if s == "" then [""]
    else
      var r := Split(s[1..]);
      if s[0] == ' ' then [""] + r else [[s[0]] + r[0]] + r[1..]
  }

  datatype Operand = Param(n: nat) | Zero

  datatype Condition = Condition(column: string, op: string, operand: Operand)

  function ParseOperand(s: string): Option<Operand> {
    if s == "0" then Some(Zero)
    else if s != "" && s[0] == '$' then
      match Atoi(s[1..])
      case None => None
      case Some(n) => Some(Param(n))
    else None
  }

  function ParseConditions(words: seq<string>): Option<seq<Condition>>
    decreases |words|
  {
    if |words| < 3 then None
    else
      match ParseOperand(words[2])
      case None => None
      case Some(operand) =>
        var c := Condition(words[0], words[1], operand);
        if |words| == 3 then Some([c])
        else if words[3] != "AND" then None
        else
          match ParseConditions(words[4..])
          case None => None
          case Some(rest) => Some([c] + rest)
  }

  /** No WHERE clause at all, or WHERE and its conditions. */
  function Parse(text: string): Option<seq<Condition>> {
    if text == "" then Some([])
    else
      var words := Split(text);
      if words[0] != "WHERE" then None else ParseConditions(words[1..])
  }

  function Column(row: Row, column: string): Option<Arg> {
    if column == "room_id" then Some(Text(row.roomId))
    else if column == "user_id" then Some(Text(row.userId))
    else if column == "topic_id" then Some(Text(row.topicId))
    else if column == "type" then Some(Text(row.messageType))
    else if column == "has_attachments" then Some(Flag(row.hasAttachments))
    else if column == "reaction_count" then Some(Number(row.reactionCount))
    else if column == "has_poll" then Some(Flag(row.hasPoll))
    else if column == "timestamp" then Some(Number(row.timestamp))
    else None
  }

  function Compare(a: Arg, op: string, b: Arg): Option<bool> {
    if op == "=" then
      match (a, b)
      case (Text(x), Text(y)) => Some(x == y)
      case (Flag(x), Flag(y)) => Some(x == y)
      case (Number(x), Number(y)) => Some(x == y)
      case _ => None
    else if !a.Number? || !b.Number? then None
    else if op == ">=" then Some(a.number >= b.number)
    else if op == "<=" then Some(a.number <= b.number)
    else if op == ">" then Some(a.number > b.number)
    else None
  }

  function Operate(o: Operand, args: seq<Arg>): Option<Arg> {
    match o
    case Zero => Some(Number(0))
    case Param(n) => if 1 <= n <= |args| then Some(args[n - 1]) else None
  }

  function Test(c: Condition, args: seq<Arg>, row: Row): Option<bool> {
    match (Column(row, c.column), Operate(c.operand, args))
    case (Some(a), Some(b)) => Compare(a, c.op, b)
    case _ => None
  }

  function TestAll(cs: seq<Condition>, args: seq<Arg>, row: Row): Option<bool>
    decreases cs
  {
    if cs == [] then Some(true)
    else
      match (Test(cs[0], args, row), TestAll(cs[1..], args, row))
      case (Some(a), Some(b)) => Some(a && b)
      case _ => None
  }

  function Highest(cs: seq<Condition>): nat
    decreases cs
  {
    if cs == [] then 0
    else
      var rest := Highest(cs[1..]);
      if cs[0].operand.Param? && cs[0].operand.n > rest then cs[0].operand.n else rest
  }

  /**
   Is the row selected? None is an error of the query: a text that does not parse, operands of
   the wrong type, or more or fewer arguments than the placeholders ask for.
   */
  function Selects(text: string, args: seq<Arg>, row: Row): Option<bool> {
    match Parse(text)
    case None => None
    case Some(cs) => if Highest(cs) != |args| then None else TestAll(cs, args, row)
  }

  // ---------- From the text back to the conditions ----------

  lemma {:induction false} SplitAt(a: string, b: string)
    ensures Split(a + " " + b) == Split(a) + Split(b)
    decreases a
  {
    if a == "" {
      assert (a + " " + b)[1..] == b;
    } else {
      assert (a + " " + b)[1..] == a[1..] + " " + b;
      SplitAt(a[1..], b);
    }
  }

  lemma {:induction false} SplitWord(s: string)
    requires ' ' !in s
    ensures Split(s) == [s]
    decreases s
  {
    if s != "" {
      SplitWord(s[1..]);
      assert s == [s[0]] + s[1..] && s[0] != ' ';
    }
  }

  function ColumnName(c: Comparison): string {
    match c
    case RoomIs => "room_id"
    case UserIs => "user_id"
    case TopicIs => "topic_id"
    case TypeIs => "type"
    case AttachmentsAre => "has_attachments"
    case PollIs => "has_poll"
    case _ => "timestamp"
  }

  function Op(c: Comparison): string {
    match c
    case NotBefore => ">="
    case NotAfter => "<="
    case _ => "="
  }

  function Meaning(e: Entry, n: nat): Condition {
    match e
    case Numbered(comparison, _) => Condition(ColumnName(comparison), Op(comparison), Param(n))
    case Bare => Condition("reaction_count", ">", Zero)
  }

  function Meanings(es: seq<Entry>, n: nat): seq<Condition>
    decreases es
  {
    if es == [] then [] else [Meaning(es[0], n)] + Meanings(es[1..], Next(es[0], n))
  }

  lemma PrefixText(c: Comparison)
    ensures Prefix(c) == ColumnName(c) + " " + (Op(c) + " " + "$")
  {
  }

  lemma NoBlanks(c: Comparison)
    ensures ' ' !in ColumnName(c) && ' ' !in Op(c)
  {
  }

  lemma {:induction false} SplitCondition(e: Entry, n: nat)
    ensures var w := Split(ConditionText(e, n));
            && |w| == 3 && ParseOperand(w[2]).Some?
            && Condition(w[0], w[1], ParseOperand(w[2]).value) == Meaning(e, n)
  {
    hide Split, Placeholder;
    SplitBare();
    if e.Numbered? {
      SplitNumbered(e.comparison, n);
      AtoiItoa(n);
      assert ("$" + Itoa(n))[1..] == Itoa(n);
    }
  }

  lemma {:induction false} SplitBare()
    ensures Split(REACTED) == ["reaction_count", ">", "0"]
  {
    hide Split;
    assert REACTED == "reaction_count" + " " + (">" + " " + "0");
    SplitAt("reaction_count", ">" + " " + "0");
    SplitAt(">", "0");
    SplitWord("reaction_count");
    SplitWord(">");
    SplitWord("0");
  }

  lemma SplitNumbered(c: Comparison, n: nat)
    ensures Split(Placeholder(c, n)) == [ColumnName(c), Op(c), "$" + Itoa(n)]
  {
    hide Prefix, ColumnName, Op, Itoa;
    PrefixText(c);
    NoBlanks(c);
    var tail := "$" + Itoa(n);
    assert Placeholder(c, n) == ColumnName(c) + " " + (Op(c) + " " + tail);
    SplitAt(ColumnName(c), Op(c) + " " + tail);
    SplitAt(Op(c), tail);
    SplitWord(ColumnName(c));
    SplitWord(Op(c));
    assert ' ' !in tail;
    SplitWord(tail);
  }

  /** The conditions come back from the text as they went in. */
  lemma {:induction false} ParseJoined(es: seq<Entry>, n: nat)
    requires es != []
    ensures ParseConditions(Split(Join(Conditions(es, n)))) == Some(Meanings(es, n))
    decreases es
  {
    hide Split, ParseOperand, ConditionText, Meaning;
    var c := Conditions(es, n);
    var w := Split(c[0]);
    var k := Next(es[0], n);
    SplitCondition(es[0], n);
    assert c == [c[0]] + Conditions(es[1..], k);
    if |es| == 1 {
      assert es[1..] == [] && Meanings(es, n) == [Meaning(es[0], n)];
      assert Join(c) == c[0] && ParseConditions(w) == Some([Meaning(es[0], n)]);
    } else {
      var rest := Conditions(es[1..], k);
      ParseJoined(es[1..], k);
      SplitAt(c[0], "AND" + " " + Join(rest));
      SplitAt("AND", Join(rest));
      AndWord();
      assert c[0] + " AND " + Join(rest) == c[0] + " " + ("AND" + " " + Join(rest));
      var words := Split(Join(c));
      assert words == w + ["AND"] + Split(Join(rest));
      assert words[4..] == Split(Join(rest));
    }
  }

  lemma AndWord()
    ensures Split("AND") == ["AND"] && Split("WHERE") == ["WHERE"]
  {
    SplitWord("AND");
    SplitWord("WHERE");
  }

  lemma ParseBuilt(es: seq<Entry>)
    ensures Parse(WhereText(Conditions(es, 1))) == Some(Meanings(es, 1))
  {
    if es != [] {
      var joined := Join(Conditions(es, 1));
      ParseJoined(es, 1);
      assert "WHERE " + joined == "WHERE" + " " + joined;
      SplitAt("WHERE", joined);
      AndWord();
    }
  }

  // ---------- What the conditions mean ----------

  predicate Holds(e: Entry, row: Row) {
    match e
    case Bare => row.reactionCount > 0
    case Numbered(RoomIs, v) => v == Text(row.roomId)
    case Numbered(UserIs, v) => v == Text(row.userId)
    case Numbered(TopicIs, v) => v == Text(row.topicId)
    case Numbered(TypeIs, v) => v == Text(row.messageType)
    case Numbered(AttachmentsAre, v) => v == Flag(row.hasAttachments)
    case Numbered(PollIs, v) => v == Flag(row.hasPoll)
    case Numbered(NotBefore, v) => v.Number? && row.timestamp >= v.number
    case Numbered(NotAfter, v) => v.Number? && row.timestamp <= v.number
  }

  /** Every argument has its column's type. */
  predicate Typed(e: Entry) {
    e.Numbered? ==>
      match e.comparison
      case RoomIs | UserIs | TopicIs | TypeIs => e.value.Text?
      case AttachmentsAre | PollIs => e.value.Flag?
      case NotBefore | NotAfter => e.value.Number?
  }

  predicate AllHold(es: seq<Entry>, row: Row) { forall e <- es :: Holds(e, row) }

  lemma {:induction false} HighestIs(es: seq<Entry>, n: nat)
    ensures Highest(Meanings(es, n)) == if Count(es) == 0 then 0 else n + Count(es) - 1
    decreases es
  {
    if es != [] {
      HighestIs(es[1..], Next(es[0], n));
    }
  }

  lemma {:induction false} CountIs(es: seq<Entry>)
    ensures Count(es) <= |es|
    ensures Count(es) == |es| <==> Bare !in es
    decreases es
  {
    if es != [] {
      CountIs(es[1..]);
      assert Bare in es <==> es[0] == Bare || Bare in es[1..];
    }
  }

  lemma {:induction false} TestsAre(es: seq<Entry>, n: nat, before: seq<Arg>, row: Row)
    requires Bare !in es && |before| == n && forall e <- es :: Typed(e)
    ensures TestAll(Meanings(es, n + 1), before + Args(es), row) == Some(AllHold(es, row))
    decreases es
  {
    if es != [] {
      assert es[0] in es;
      assert before + Args(es) == before + [ArgOf(es[0])] + Args(es[1..]);
      TestsAre(es[1..], n + 1, before + [ArgOf(es[0])], row);
      TestIs(es[0], n, before + Args(es), row);
      assert forall e :: e in es <==> e == es[0] || e in es[1..];
      assert Meanings(es, n + 1) == [Meaning(es[0], n + 1)] + Meanings(es[1..], n + 2);
    }
  }

  lemma TestIs(e: Entry, n: nat, args: seq<Arg>, row: Row)
    requires e.Numbered? && n < |args| && args[n] == e.value && Typed(e)
    ensures Test(Meaning(e, n + 1), args, row) == Some(Holds(e, row))
  {
  }

  lemma AllTyped(f: Filters)
    ensures forall e <- Entries(f) :: Typed(e)
    ensures Bare in Entries(f) <==> f.hasReactions.Some?
  {
  }

  lemma AllHoldSnoc(row: Row)
    ensures AllHold([], row)
    ensures forall es, e :: AllHold(es + [e], row) <==> AllHold(es, row) && Holds(e, row)
  {
    forall es: seq<Entry>, e ensures AllHold(es + [e], row) <==> AllHold(es, row) && Holds(e, row) {
      assert forall x :: x in es + [e] <==> x in es || x == e;
    }
  }

  lemma AllHoldIffSatisfies(f: Filters, row: Row)
    ensures AllHold(Entries(f), row) <==> Satisfies(f, row)
  {
    hide AllHold;
    AllHoldSnoc(row);
  }

  /**
   The query that `BuildFilters` makes selects exactly the rows the filters ask for, if and only
   if the reaction filter is unset. With it the query is refused for every row, because its
   argument has no placeholder.
   */
  lemma SelectsIff(f: Filters, row: Row)
    ensures Selects(WhereText(Conditions(Entries(f), 1)), Args(Entries(f)), row)
            == if f.hasReactions.None? then Some(Satisfies(f, row)) else None
  {
    hide Entries, Satisfies, WhereText, Conditions, Args, Parse, TestAll, AllHold, Meanings, Highest, Count, Typed;
    var es := Entries(f);
    ParseBuilt(es);
    HighestIs(es, 1);
    CountIs(es);
    AllTyped(f);
    if f.hasReactions.None? {
      TestsAre(es, 0, [], row);
      assert [] + Args(es) == Args(es);
      AllHoldIffSatisfies(f, row);
    }
  }

  /** With the reaction filter unset the i-th condition compares its column with placeholder i. */
  lemma {:induction false} PlaceholderIs(es: seq<Entry>, n: nat, i: nat)
    requires Bare !in es && i < |es|
    ensures Conditions(es, n)[i] == Placeholder(es[i].comparison, n + i) && Args(es)[i] == es[i].value
    decreases es
  {
    assert es[0] in es;
    if i > 0 {
      PlaceholderIs(es[1..], n + 1, i - 1);
    }
  }
}
