/** The request log and its retention: detail rows past their window are folded into
    per-day totals and deleted, batch by batch, and spend is read across both tables. */
module Retention {
  import opened Prelude

  /** One logged request; times are microseconds since the epoch. */
  datatype Detail = Detail(
    id: string, ts: int, team: string, provider: Option<string>, model: Option<string>, status: int,
    inputTokens: int, outputTokens: int, costMicros: int, fallbackDelta: Option<int>, savings: Option<int>)

  datatype Group = Group(day: int, team: string, provider: string, model: string)

  datatype Totals = Totals(
    requests: int, errors: int, inputTokens: int, outputTokens: int, costMicros: int, fallbackDelta: int, savings: int)

  function Plus(a: Totals, b: Totals): Totals {
    Totals(a.requests + b.requests, a.errors + b.errors, a.inputTokens + b.inputTokens, a.outputTokens + b.outputTokens,
           a.costMicros + b.costMicros, a.fallbackDelta + b.fallbackDelta, a.savings + b.savings)
  }

  datatype Daily = Daily(group: Group, totals: Totals)

  datatype Log = Log(requests: seq<Detail>, daily: seq<Daily>)

  const DayLength := 86_400_000_000

  /** The UTC day a moment falls on. */
  function Day(ts: int): int {
    ts / DayLength
  }

  function OrElse<T>(o: Option<T>, default: T): T {
    if o.Some? then o.value else default
  }

  function GroupOf(row: Detail): Group {
    Group(Day(row.ts), row.team, OrElse(row.provider, ""), OrElse(row.model, ""))
  }

  function TotalsOf(row: Detail): Totals {
    Totals(1, if row.status >= 400 then 1 else 0, row.inputTokens, row.outputTokens, row.costMicros,
           OrElse(row.fallbackDelta, 0), OrElse(row.savings, 0))
  }

  // ----- one batch -----

  /** Adds to a group's row, or starts one. */
  function Upsert(daily: seq<Daily>, g: Group, t: Totals): seq<Daily> {
    if daily == [] then [Daily(g, t)]
    else if daily[0].group == g then [Daily(g, Plus(daily[0].totals, t))] + daily[1..]
    else [daily[0]] + Upsert(daily[1..], g, t)
  }

  function GroupBy(rows: seq<Detail>): seq<Daily> {
    if rows == [] then []
    else var last := rows[|rows| - 1]; Upsert(GroupBy(rows[..|rows| - 1]), GroupOf(last), TotalsOf(last))
  }

  function Merge(daily: seq<Daily>, more: seq<Daily>): seq<Daily>
    decreases |more|
  {
    if more == [] then daily
    else var last := more[|more| - 1]; Upsert(Merge(daily, more[..|more| - 1]), last.group, last.totals)
  }

  function Taken(rows: seq<Detail>, ids: set<string>): seq<Detail> {
    if rows == [] then []
    else
      var last := rows[|rows| - 1];
      Taken(rows[..|rows| - 1], ids) + if last.id in ids then [last] else []
  }

  function Kept(rows: seq<Detail>, ids: set<string>): seq<Detail> {
    if rows == [] then []
    else
      var last := rows[|rows| - 1];
      Kept(rows[..|rows| - 1], ids) + if last.id in ids then [] else [last]
  }

  /** Rolls the doomed rows up and deletes them, in one statement. */
  function Swept(log: Log, doomed: set<string>): Log {
    Log(Kept(log.requests, doomed), Merge(log.daily, GroupBy(Taken(log.requests, doomed))))
  }

  // ----- nothing is lost, nothing is counted twice -----

  datatype Column = Requests | Errors | InputTokens | OutputTokens | CostMicros | FallbackDelta | Savings

  function Value(t: Totals, c: Column): int {
    match c
    case Requests => t.requests
    case Errors => t.errors
    case InputTokens => t.inputTokens
    case OutputTokens => t.outputTokens
    case CostMicros => t.costMicros
    case FallbackDelta => t.fallbackDelta
    case Savings => t.savings
  }

  /** Which part of the log is totalled, and over which column. */
  datatype Scope = Everything | Only(group: Group) | TeamFrom(team: string, day: int)

  predicate Covers(s: Scope, g: Group) {
    match s
    case Everything => true
    case Only(group) => g == group
    case TeamFrom(team, day) => g.team == team && g.day >= day
  }

  function Part(s: Scope, c: Column, g: Group, t: Totals): int {
    if Covers(s, g) then Value(t, c) else 0
  }

  function DailyTotal(daily: seq<Daily>, s: Scope, c: Column): int {
    if daily == [] then 0 else Part(s, c, daily[0].group, daily[0].totals) + DailyTotal(daily[1..], s, c)
  }

  /** What a logged request adds to a column. */
  function Figure(row: Detail, c: Column): int {
    match c
    case Requests => 1
    case Errors => if row.status >= 400 then 1 else 0
    case InputTokens => row.inputTokens
    case OutputTokens => row.outputTokens
    case CostMicros => row.costMicros
    case FallbackDelta => if row.fallbackDelta.Some? then row.fallbackDelta.value else 0
    case Savings => if row.savings.Some? then row.savings.value else 0
  }

  predicate Named(o: Option<string>, name: string) {
    o == Some(name) || (o.None? && name == "")
  }

  /** The moment lies on the day. */
  predicate Falls(ts: int, day: int) {
    day * DayLength <= ts < (day + 1) * DayLength
  }

  predicate CoversRow(s: Scope, row: Detail) {
    match s
    case Everything => true
    case Only(g) => Falls(row.ts, g.day) && row.team == g.team && Named(row.provider, g.provider) && Named(row.model, g.model)
    case TeamFrom(team, day) => row.team == team && row.ts >= day * DayLength
  }

  function RowPart(s: Scope, c: Column, row: Detail): int {
    if CoversRow(s, row) then Figure(row, c) else 0
  }

  /** Read from the detail rows themselves, without grouping anything. */
  function DetailTotal(rows: seq<Detail>, s: Scope, c: Column): int {
    if rows == [] then 0 else DetailTotal(rows[..|rows| - 1], s, c) + RowPart(s, c, rows[|rows| - 1])
  }

  lemma DayIff(ts: int, day: int)
    ensures Day(ts) == day <==> Falls(ts, day)
  {
  }

  /** A row counts the same on its own as it does once grouped. */
  lemma GroupedRow(s: Scope, c: Column, row: Detail)
    ensures Part(s, c, GroupOf(row), TotalsOf(row)) == RowPart(s, c, row)
  {
    match s {
      case Everything =>
      case Only(g) => DayIff(row.ts, g.day);
      case TeamFrom(_, day) => DayFrom(row.ts, day);
    }
  }

  function Total(log: Log, s: Scope, c: Column): int {
    DetailTotal(log.requests, s, c) + DailyTotal(log.daily, s, c)
  }

  lemma {:induction false} UpsertTotal(daily: seq<Daily>, g: Group, t: Totals, s: Scope, c: Column)
    ensures DailyTotal(Upsert(daily, g, t), s, c) == DailyTotal(daily, s, c) + Part(s, c, g, t)
  {
    if daily != [] && daily[0].group != g { UpsertTotal(daily[1..], g, t, s, c); }
  }

  lemma {:induction false} GroupByTotal(rows: seq<Detail>, s: Scope, c: Column)
    ensures DailyTotal(GroupBy(rows), s, c) == DetailTotal(rows, s, c)
  {
    if rows != [] {
      var last := rows[|rows| - 1];
      GroupByTotal(rows[..|rows| - 1], s, c);
      UpsertTotal(GroupBy(rows[..|rows| - 1]), GroupOf(last), TotalsOf(last), s, c);
      GroupedRow(s, c, last);
    }
  }

  lemma {:induction false} DailyAppend(daily: seq<Daily>, d: Daily, s: Scope, c: Column)
    ensures DailyTotal(daily + [d], s, c) == DailyTotal(daily, s, c) + Part(s, c, d.group, d.totals)
  {
    if daily == [] {
      assert daily + [d] == [d];
    } else {
      assert (daily + [d])[1..] == daily[1..] + [d];
      DailyAppend(daily[1..], d, s, c);
    }
  }

  lemma {:induction false} MergeTotal(daily: seq<Daily>, more: seq<Daily>, s: Scope, c: Column)
    ensures DailyTotal(Merge(daily, more), s, c) == DailyTotal(daily, s, c) + DailyTotal(more, s, c)
    decreases |more|
  {
    if more != [] {
      var rest, last := more[..|more| - 1], more[|more| - 1];
      MergeTotal(daily, rest, s, c);
      UpsertTotal(Merge(daily, rest), last.group, last.totals, s, c);
      DailyAppend(rest, last, s, c);
      assert rest + [last] == more;
    }
  }

  lemma DetailAppend(rows: seq<Detail>, row: Detail, s: Scope, c: Column)
    ensures DetailTotal(rows + [row], s, c) == DetailTotal(rows, s, c) + RowPart(s, c, row)
  {
  }

  lemma SplitLast(rows: seq<Detail>, ids: set<string>)
    requires rows != []
    ensures var rest, last := rows[..|rows| - 1], rows[|rows| - 1];
            if last.id in ids then Taken(rows, ids) == Taken(rest, ids) + [last] && Kept(rows, ids) == Kept(rest, ids)
            else Taken(rows, ids) == Taken(rest, ids) && Kept(rows, ids) == Kept(rest, ids) + [last]
  {
  }

  lemma {:induction false} SplitTotal(rows: seq<Detail>, ids: set<string>, s: Scope, c: Column)
    ensures DetailTotal(rows, s, c) == DetailTotal(Kept(rows, ids), s, c) + DetailTotal(Taken(rows, ids), s, c)
  {
    if rows != [] {
      var rest, last := rows[..|rows| - 1], rows[|rows| - 1];
      SplitTotal(rest, ids, s, c);
      SplitLast(rows, ids);
      if last.id in ids {
        DetailAppend(Taken(rest, ids), last, s, c);
      } else {
        DetailAppend(Kept(rest, ids), last, s, c);
      }
    }
  }

  /** A batch moves rows between the tables and changes no total of any column: not of
      the whole log, not of any group, not of a team from any day on. */
  lemma BatchConserves(log: Log, doomed: set<string>, s: Scope, c: Column)
    ensures Total(Swept(log, doomed), s, c) == Total(log, s, c)
  {
    var gone := Taken(log.requests, doomed);
    SplitTotal(log.requests, doomed, s, c);
    GroupByTotal(gone, s, c);
    MergeTotal(log.daily, GroupBy(gone), s, c);
  }

  /** Groups stay unique, as the table's primary key demands. */
  ghost predicate UniqueGroups(daily: seq<Daily>) {
    forall i, j :: 0 <= i < j < |daily| ==> daily[i].group != daily[j].group
  }

  ghost predicate HasGroup(daily: seq<Daily>, g: Group) {
    exists i :: 0 <= i < |daily| && daily[i].group == g
  }

  lemma {:induction false} UpsertGroups(daily: seq<Daily>, g: Group, t: Totals, x: Group)
    ensures HasGroup(Upsert(daily, g, t), x) ==> HasGroup(daily, x) || x == g
  {
    if daily != [] {
      var r := Upsert(daily, g, t);
      UpsertGroups(daily[1..], g, t, x);
      if HasGroup(r, x) && x != daily[0].group && x != g {
        var i :| 0 <= i < |r| && r[i].group == x;
        assert r[1..][i - 1].group == x;
        assert HasGroup(daily[1..], x);
        var j :| 0 <= j < |daily| - 1 && daily[1..][j].group == x;
        assert daily[j + 1].group == x;
      } else if x == daily[0].group {
        assert HasGroup(daily, x);
      }
    }
  }

  lemma {:induction false} UpsertUnique(daily: seq<Daily>, g: Group, t: Totals)
    requires UniqueGroups(daily)
    ensures UniqueGroups(Upsert(daily, g, t))
  {
    if daily != [] && daily[0].group != g {
      var rest := Upsert(daily[1..], g, t);
      UpsertUnique(daily[1..], g, t);
      UpsertGroups(daily[1..], g, t, daily[0].group);
      assert !HasGroup(daily[1..], daily[0].group);
      assert forall i :: 0 <= i < |rest| ==> rest[i].group != daily[0].group;
    }
  }

  lemma {:induction false} MergeUnique(daily: seq<Daily>, more: seq<Daily>)
    requires UniqueGroups(daily)
    ensures UniqueGroups(Merge(daily, more))
    decreases |more|
  {
    if more != [] {
      var rest, last := more[..|more| - 1], more[|more| - 1];
      MergeUnique(daily, rest);
      UpsertUnique(Merge(daily, rest), last.group, last.totals);
    }
  }

  // ----- spend, read across both tables -----

  /** A team's logged cost from a moment on, over detail rows only. */
  function CostFrom(rows: seq<Detail>, team: string, since: int): int {
    if rows == [] then 0
    else
      var last := rows[|rows| - 1];
      CostFrom(rows[..|rows| - 1], team, since) + if last.team == team && last.ts >= since then last.costMicros else 0
  }

  /** What is asked of the two tables together: whole days of the summary. */
  function SpendSince(log: Log, team: string, since: int): int {
    CostFrom(log.requests, team, since) + DailyTotal(log.daily, TeamFrom(team, Day(since)), CostMicros)
  }

  /** A team's cost earlier on the day of a moment. */
  function CostEarlierThatDay(rows: seq<Detail>, team: string, since: int): int {
    CostFrom(rows, team, Day(since) * DayLength) - CostFrom(rows, team, since)
  }

  lemma DayFrom(ts: int, day: int)
    ensures Day(ts) >= day <==> ts >= day * DayLength
  {
  }

  lemma {:induction false} CostFromIsDetailTotal(rows: seq<Detail>, team: string, day: int)
    ensures CostFrom(rows, team, day * DayLength) == DetailTotal(rows, TeamFrom(team, day), CostMicros)
  {
    if rows != [] {
      CostFromIsDetailTotal(rows[..|rows| - 1], team, day);
      DayFrom(rows[|rows| - 1].ts, day);
    }
  }

  lemma CostFromAppend(rows: seq<Detail>, row: Detail, team: string, since: int)
    ensures CostFrom(rows + [row], team, since)
            == CostFrom(rows, team, since) + if row.team == team && row.ts >= since then row.costMicros else 0
  {
  }

  lemma {:induction false} CostFromSplit(rows: seq<Detail>, ids: set<string>, team: string, since: int)
    ensures CostFrom(rows, team, since) == CostFrom(Kept(rows, ids), team, since) + CostFrom(Taken(rows, ids), team, since)
  {
    if rows != [] {
      var rest, last := rows[..|rows| - 1], rows[|rows| - 1];
      CostFromSplit(rest, ids, team, since);
      SplitLast(rows, ids);
      if last.id in ids {
        CostFromAppend(Taken(rest, ids), last, team, since);
      } else {
        CostFromAppend(Kept(rest, ids), last, team, since);
      }
    }
  }

  /** What one batch does to a team's reported spend: it gains the cost of the rows
      rolled up from earlier on the day `since` falls on, and nothing else. */
  lemma BatchDrift(log: Log, doomed: set<string>, team: string, since: int)
    ensures SpendSince(Swept(log, doomed), team, since)
            == SpendSince(log, team, since) + CostEarlierThatDay(Taken(log.requests, doomed), team, since)
  {
    var day := Day(since);
    var kept := Kept(log.requests, doomed);
    BatchConserves(log, doomed, TeamFrom(team, day), CostMicros);
    CostFromIsDetailTotal(log.requests, team, day);
    CostFromIsDetailTotal(kept, team, day);
    CostFromSplit(log.requests, doomed, team, since);
    CostFromSplit(log.requests, doomed, team, day * DayLength);
  }

  // ----- over whole runs -----

  datatype Op = Write(row: Detail) | Batch(doomed: set<string>)

  predicate HasId(rows: seq<Detail>, id: string) {
    exists i :: 0 <= i < |rows| && rows[i].id == id
  }

  function Step(log: Log, op: Op): Log {
    match op
    case Write(row) => if HasId(log.requests, row.id) then log else log.(requests := log.requests + [row])
    case Batch(doomed) => Swept(log, doomed)
  }

  function Run(ops: seq<Op>): Log {
    if ops == [] then Log([], []) else Step(Run(ops[..|ops| - 1]), ops[|ops| - 1])
  }

  /** Every row the log ever accepted. */
  function Accepted(ops: seq<Op>): seq<Detail> {
    if ops == [] then []
    else
      var before, op := ops[..|ops| - 1], ops[|ops| - 1];
      Accepted(before) + if op.Write? && !HasId(Run(before).requests, op.row.id) then [op.row] else []
  }

  /** Every row ever folded into the summary. */
  function RolledUp(ops: seq<Op>): seq<Detail> {
    if ops == [] then []
    else
      var before, op := ops[..|ops| - 1], ops[|ops| - 1];
      RolledUp(before) + if op.Batch? then Taken(Run(before).requests, op.doomed) else []
  }

  lemma {:induction false} CostFromConcat(a: seq<Detail>, b: seq<Detail>, team: string, since: int)
    ensures CostFrom(a + b, team, since) == CostFrom(a, team, since) + CostFrom(b, team, since)
    decreases |b|
  {
    if b == [] {
      assert a + b == a;
    } else {
      assert (a + b)[..|a + b| - 1] == a + b[..|b| - 1];
      CostFromConcat(a, b[..|b| - 1], team, since);
    }
  }

  lemma WriteSpend(log: Log, row: Detail, team: string, since: int)
    requires !HasId(log.requests, row.id)
    ensures SpendSince(Step(log, Write(row)), team, since)
            == SpendSince(log, team, since) + if row.team == team && row.ts >= since then row.costMicros else 0
  {
  }

  /** Over every run of writes and batches, the reported spend is what was ever logged
      from `since` on, plus what was rolled up from earlier that day. */
  lemma {:induction false} SpendIsExact(ops: seq<Op>, team: string, since: int)
    ensures SpendSince(Run(ops), team, since)
            == CostFrom(Accepted(ops), team, since) + CostEarlierThatDay(RolledUp(ops), team, since)
  {
    if ops != [] {
      var before, op := ops[..|ops| - 1], ops[|ops| - 1];
      var log := Run(before);
      var start := Day(since) * DayLength;
      SpendIsExact(before, team, since);
      match op {
        case Write(row) =>
          assert RolledUp(before) + [] == RolledUp(before) && Accepted(before) + [] == Accepted(before);
          if !HasId(log.requests, row.id) {
            WriteSpend(log, row, team, since);
            CostFromAppend(Accepted(before), row, team, since);
          }
        case Batch(doomed) =>
          assert Accepted(before) + [] == Accepted(before);
          BatchDrift(log, doomed, team, since);
          CostFromConcat(RolledUp(before), Taken(log.requests, doomed), team, since);
          CostFromConcat(RolledUp(before), Taken(log.requests, doomed), team, start);
      }
    }
  }

  lemma WriteTotal(log: Log, row: Detail, s: Scope, c: Column)
    requires !HasId(log.requests, row.id)
    ensures Total(Step(log, Write(row)), s, c) == Total(log, s, c) + RowPart(s, c, row)
  {
    DetailAppend(log.requests, row, s, c);
  }

  /** Over every run of writes and batches, the two tables together hold, in every column and
      every part of the log, exactly what the accepted requests themselves add up to. */
  lemma {:induction false} NothingIsLost(ops: seq<Op>, s: Scope, c: Column)
    ensures Total(Run(ops), s, c) == DetailTotal(Accepted(ops), s, c)
  {
    if ops != [] {
      var before, op := ops[..|ops| - 1], ops[|ops| - 1];
      NothingIsLost(before, s, c);
      assert Accepted(before) + [] == Accepted(before);
      match op {
        case Write(row) =>
          if !HasId(Run(before).requests, row.id) {
            WriteTotal(Run(before), row, s, c);
            DetailAppend(Accepted(before), row, s, c);
          }
        case Batch(doomed) => BatchConserves(Run(before), doomed, s, c);
      }
    }
  }

  predicate StartsADay(since: int) {
    since == Day(since) * DayLength
  }

  /** From the start of a day, no run of batches of any size and cutoff ever changes
      what was logged. */
  lemma SpendIsUnchangedByRetention(ops: seq<Op>, team: string, since: int)
    requires StartsADay(since)
    ensures SpendSince(Run(ops), team, since) == CostFrom(Accepted(ops), team, since)
  {
    SpendIsExact(ops, team, since);
  }

  ghost predicate AlwaysExact(since: int) {
    forall ops, team :: SpendSince(Run(ops), team, since) == CostFrom(Accepted(ops), team, since)
  }

  const Sample := Detail("r", 0, "t", None, None, 200, 0, 0, 1, None, None)

  /** From any other moment one row of that day, logged earlier and rolled up, is enough. */
  lemma UnalignedSpendDrifts(since: int) returns (ops: seq<Op>)
    requires !StartsADay(since)
    ensures SpendSince(Run(ops), "t", since) == CostFrom(Accepted(ops), "t", since) + 1
  {
    var row := Sample.(ts := since - 1);
    var write, sweep := Write(row), Batch({"r"});
    ops := [write, sweep];
    var log := Log([row], []);
    assert ops[..1] == [write] && [write][..0] == [];
    assert Run([write]) == log && Accepted([write]) == [row] by { assert [] + [row] == [row]; }
    assert RolledUp([write]) == [];
    assert Taken([row], {"r"}) == [row] by { assert [row][..0] == [] && [] + [row] == [row]; }
    assert Accepted(ops) == [row] && RolledUp(ops) == [row];
    SpendIsExact(ops, "t", since);
    OneRow(row, since);
  }

  lemma OneRow(row: Detail, since: int)
    requires row == Sample.(ts := since - 1) && !StartsADay(since)
    ensures CostFrom([row], "t", since) == 0 && CostFrom([row], "t", Day(since) * DayLength) == 1
  {
  }

  lemma ExactIffStartOfDay(since: int)
    ensures AlwaysExact(since) <==> StartsADay(since)
  {
    if StartsADay(since) {
      forall ops, team ensures SpendSince(Run(ops), team, since) == CostFrom(Accepted(ops), team, since) {
        SpendIsUnchangedByRetention(ops, team, since);
      }
    } else {
      var ops := UnalignedSpendDrifts(since);
      assert SpendSince(Run(ops), "t", since) != CostFrom(Accepted(ops), "t", since);
    }
  }

  // ----- choosing a batch -----

  ghost predicate UniqueIds(rows: seq<Detail>) {
    forall i, j :: 0 <= i < j < |rows| ==> rows[i].id != rows[j].id
  }

  /** Only expired rows, and no older expired row passed over. */
  ghost predicate OldestFirst(rows: seq<Detail>, cutoff: int, ids: set<string>) {
    && (forall i :: 0 <= i < |rows| && rows[i].id in ids ==> rows[i].ts < cutoff)
    && forall i, j :: 0 <= i < |rows| && 0 <= j < |rows| && rows[i].id in ids && rows[j].id !in ids && rows[j].ts < cutoff
         ==> rows[i].ts <= rows[j].ts
  }

  ghost predicate NoneExpired(rows: seq<Detail>, cutoff: int) {
    forall i :: 0 <= i < |rows| ==> rows[i].ts >= cutoff
  }

  /** The oldest expired rows: as many as the limit allows, or all of them. */
  ghost predicate IsBatch(rows: seq<Detail>, cutoff: int, limit: nat, ids: set<string>) {
    && OldestFirst(rows, cutoff, ids)
    && |Taken(rows, ids)| <= limit
    && (|Taken(rows, ids)| == limit || NoneExpired(Kept(rows, ids), cutoff))
  }

  lemma {:induction false} KeptRows(rows: seq<Detail>, ids: set<string>)
    ensures |Kept(rows, ids)| + |Taken(rows, ids)| == |rows|
    ensures forall row :: row in Kept(rows, ids) <==> row in rows && row.id !in ids
  {
    if rows != [] {
      var rest, last := rows[..|rows| - 1], rows[|rows| - 1];
      KeptRows(rest, ids);
      assert rows == rest + [last];
    }
  }

  lemma {:induction false} KeptUnique(rows: seq<Detail>, ids: set<string>)
    requires UniqueIds(rows)
    ensures UniqueIds(Kept(rows, ids))
  {
    if rows != [] {
      var rest, last := rows[..|rows| - 1], rows[|rows| - 1];
      var kept := Kept(rest, ids);
      KeptUnique(rest, ids);
      KeptRows(rest, ids);
      forall i | 0 <= i < |kept| ensures kept[i].id != last.id {
        assert kept[i] in rest;
      }
    }
  }

  lemma {:induction false} TakeOneMore(rows: seq<Detail>, ids: set<string>, at: nat)
    requires UniqueIds(rows) && at < |rows| && rows[at].id !in ids
    ensures |Taken(rows, ids + {rows[at].id})| == |Taken(rows, ids)| + 1
  {
    var n := |rows| - 1;
    if at < n {
      TakeOneMore(rows[..n], ids, at);
    } else {
      TakeNoMore(rows[..n], ids, rows[n].id);
    }
  }

  lemma {:induction false} TakeNoMore(rows: seq<Detail>, ids: set<string>, id: string)
    requires forall i :: 0 <= i < |rows| ==> rows[i].id != id
    ensures Taken(rows, ids + {id}) == Taken(rows, ids)
  {
    if rows != [] { TakeNoMore(rows[..|rows| - 1], ids, id); }
  }

  predicate Candidate(row: Detail, cutoff: int, ids: set<string>) {
    row.ts < cutoff && row.id !in ids
  }

  method Oldest(rows: seq<Detail>, cutoff: int, ids: set<string>) returns (at: nat)
    ensures at <= |rows|
    ensures at < |rows| ==>
              && Candidate(rows[at], cutoff, ids)
              && forall j :: 0 <= j < |rows| && Candidate(rows[j], cutoff, ids) ==> rows[at].ts <= rows[j].ts
    ensures at == |rows| ==> forall j :: 0 <= j < |rows| ==> !Candidate(rows[j], cutoff, ids)
  {
    at := |rows|;
    for i := 0 to |rows|
      invariant at < i || at == |rows|
      invariant at < i ==>
                  && Candidate(rows[at], cutoff, ids)
                  && forall j :: 0 <= j < i && Candidate(rows[j], cutoff, ids) ==> rows[at].ts <= rows[j].ts
      invariant at == |rows| ==> forall j :: 0 <= j < i ==> !Candidate(rows[j], cutoff, ids)
    {
      if Candidate(rows[i], cutoff, ids) && (at == |rows| || rows[i].ts < rows[at].ts) { at := i; }
    }
  }

  lemma {:induction false} TakenNone(rows: seq<Detail>)
    ensures Taken(rows, {}) == []
  {
    if rows != [] { TakenNone(rows[..|rows| - 1]); }
  }

  /** Picks a batch; which of several equally old rows it takes is left open. */
  method Doomed(rows: seq<Detail>, cutoff: int, limit: nat) returns (ids: set<string>)
    requires UniqueIds(rows)
    ensures IsBatch(rows, cutoff, limit, ids)
  {
    ids := {};
    TakenNone(rows);
    for n := 0 to limit
      invariant OldestFirst(rows, cutoff, ids) && |Taken(rows, ids)| == n
    {
      var at := Oldest(rows, cutoff, ids);
      KeptRows(rows, ids);
      if at == |rows| { return; }
      TakeOneMore(rows, ids, at);
      ids := ids + {rows[at].id};
    }
  }

  // ----- the sweep -----

  /** What asking for the sweep's lock comes to. Another replica may hold it. */
  datatype LockReply = NoConnection | Unanswered | Refused | Granted

  class RequestLog {
    var log: Log

    ghost predicate Valid()
      reads this
    {
      UniqueIds(log.requests) && UniqueGroups(log.daily)
    }

    constructor ()
      ensures Valid() && log == Log([], [])
    {
      log := Log([], []);
    }

    method Insert(row: Detail)
      requires Valid()
      modifies this
      ensures Valid() && log == Step(old(log), Write(row))
    {
      if !HasId(log.requests, row.id) { log := log.(requests := log.requests + [row]); }
    }

    /** One statement: the doomed rows become totals and disappear. */
    method SweepBatch(cutoff: int, limit: nat) returns (n: nat, ghost doomed: set<string>)
      requires Valid()
      modifies this
      ensures Valid() && log == Swept(old(log), doomed)
      ensures IsBatch(old(log).requests, cutoff, limit, doomed) && n == |Taken(old(log).requests, doomed)|
    {
      var ids := Doomed(log.requests, cutoff, limit);
      var gone := Taken(log.requests, ids);
      KeptUnique(log.requests, ids);
      MergeUnique(log.daily, GroupBy(gone));
      n, doomed := |gone|, ids;
      log := Swept(log, ids);
    }

    /** One batch of a pass that began with the log as it was at the start. */
    method NextBatch(ghost start: Log, cutoff: int, limit: nat) returns (n: nat)
      requires Valid() && SameTotals(start, log) && Survives(start.requests, log.requests, cutoff)
      modifies this
      ensures Valid() && SameTotals(start, log) && Survives(start.requests, log.requests, cutoff)
      ensures |log.requests| + n == |old(log).requests| && n <= limit
      ensures n < limit ==> NoneExpired(log.requests, cutoff)
    {
      ghost var before := log;
      ghost var doomed;
      n, doomed := SweepBatch(cutoff, limit);
      BatchEffect(start, before, doomed, cutoff);
    }

    /** Rows that arrive meanwhile; those whose identifier is present are ignored. */
    method Arrive(rows: seq<Detail>, ghost start: Log, cutoff: int) returns (ghost accepted: seq<Detail>)
      requires Valid() && SameTotals(start, log) && Survives(start.requests, log.requests, cutoff)
      modifies this
      ensures Valid() && log.daily == old(log).daily && log.requests == old(log).requests + accepted
      ensures var s := Log(start.requests + accepted, start.daily);
              SameTotals(s, log) && Survives(s.requests, log.requests, cutoff)
      ensures forall row :: row in accepted ==> row in rows
    {
      accepted := [];
      assert start.requests + [] == start.requests && log.requests + [] == log.requests;
      for i := 0 to |rows|
        invariant Valid() && log.daily == old(log).daily && log.requests == old(log).requests + accepted
        invariant SameTotals(Log(start.requests + accepted, start.daily), log)
        invariant Survives(start.requests + accepted, log.requests, cutoff)
        invariant forall row :: row in accepted ==> row in rows
      {
        ghost var before := log;
        Insert(rows[i]);
        if |log.requests| > |before.requests| {
          ArrivalEffect(Log(start.requests + accepted, start.daily), before, rows[i], cutoff);
          Regroup(start.requests, accepted, rows[i]);
          Regroup(old(log).requests, accepted, rows[i]);
          accepted := accepted + [rows[i]];
        }
      }
    }

    /** One pass: batches until one is short, the bound is reached or one fails. Rows may
        arrive before each batch. The pass keeps every total and every row not yet expired,
        of those that were there and of those that arrived; one that ends without an error
        and under its bound leaves nothing expired. */
    method Sweep(enabled: bool, lock: LockReply, cutoff: int, batchSize: nat, maxBatches: nat, deliveries: seq<Delivery>,
                 arrivals: seq<seq<Detail>>)
      returns (total: nat, ok: bool, ghost accepted: seq<Detail>)
      requires Valid() && batchSize > 0 && |deliveries| == |arrivals| == maxBatches
      modifies this
      ensures Valid()
      ensures var start := Log(old(log).requests + accepted, old(log).daily);
              && SameTotals(start, log) && Survives(start.requests, log.requests, cutoff)
              && |log.requests| + total <= |start.requests|
              && (ok ==> |log.requests| + total == |start.requests|)
      ensures !enabled || !lock.Granted? ==> total == 0 && log == old(log) && accepted == [] && (ok <==> !enabled || lock.Refused?)
      ensures enabled && lock.Granted? && ok ==> NoneExpired(log.requests, cutoff) || total == maxBatches * batchSize
      ensures enabled && lock.Granted? && !ok ==> exists i :: 0 <= i < maxBatches && !deliveries[i].Delivered?
    {
      total, ok, accepted := 0, true, [];
      ghost var was := log;
      ghost var start := log;
      assert was.requests + [] == was.requests;
      if !enabled { return; }
      if lock.NoConnection? || lock.Unanswered? { return total, false, accepted; }
      if lock.Refused? { return; }
      for i := 0 to maxBatches
        invariant Valid() && ok && total == i * batchSize
        invariant start == Log(was.requests + accepted, was.daily)
        invariant SameTotals(start, log) && Survives(start.requests, log.requests, cutoff)
        invariant |log.requests| + total == |start.requests|
      {
        ghost var more := Arrive(arrivals[i], start, cutoff);
        Reassociate(was.requests, accepted, more);
        accepted := accepted + more;
        start := Log(was.requests + accepted, was.daily);
        if deliveries[i].Lost? { return total, false, accepted; }
        var n := NextBatch(start, cutoff, batchSize);
        if deliveries[i].AppliedButErrored? { return total, false, accepted; }
        total := total + n;
        if n < batchSize { return; }
      }
    }

    /** Spend per team: each team with a row in either table, with its spend. */
    method SpendByTeamSince(since: int) returns (out: map<string, int>)
      ensures Tallied(out, log.requests, log.daily, since)
    {
      out := map[];
      var rows, daily := log.requests, log.daily;
      for i := 0 to |rows|
        invariant Tallied(out, rows[..i], [], since)
      {
        TallyDetail(out, rows, i, since);
        if rows[i].ts >= since { out := Credit(out, rows[i].team, rows[i].costMicros); }
      }
      assert rows[..|rows|] == rows;
      for i := 0 to |daily|
        invariant Tallied(out, rows, daily[..i], since)
      {
        TallyDaily(out, rows, daily, i, since);
        if daily[i].group.day >= Day(since) { out := Credit(out, daily[i].group.team, daily[i].totals.costMicros); }
      }
      assert daily[..|daily|] == daily;
    }
  }

  /** Every total of every column is the same. */
  ghost predicate SameTotals(a: Log, b: Log) {
    forall s, c :: Total(a, s, c) == Total(b, s, c)
  }

  /** Nothing appears, and only expired rows disappear. */
  ghost predicate Survives(was: seq<Detail>, now: seq<Detail>, cutoff: int) {
    && (forall row :: row in now ==> row in was)
    && forall row :: row in was && row.ts >= cutoff ==> row in now
  }

  lemma Reassociate(a: seq<Detail>, b: seq<Detail>, c: seq<Detail>)
    ensures (a + b) + c == a + (b + c)
  {
  }

  lemma Regroup(a: seq<Detail>, b: seq<Detail>, row: Detail)
    ensures (a + b) + [row] == a + (b + [row])
  {
  }

  /** A row that arrives adds to every total what it would have added at the start. */
  lemma ArrivalEffect(start: Log, before: Log, row: Detail, cutoff: int)
    requires SameTotals(start, before) && Survives(start.requests, before.requests, cutoff)
    ensures SameTotals(start.(requests := start.requests + [row]), before.(requests := before.requests + [row]))
    ensures Survives(start.requests + [row], before.requests + [row], cutoff)
  {
    forall s, c ensures Total(start.(requests := start.requests + [row]), s, c)
                        == Total(before.(requests := before.requests + [row]), s, c) {
      DetailAppend(start.requests, row, s, c);
      DetailAppend(before.requests, row, s, c);
      assert Total(start, s, c) == Total(before, s, c);
    }
  }

  lemma BatchEffect(start: Log, before: Log, doomed: set<string>, cutoff: int)
    requires Survives(start.requests, before.requests, cutoff) && OldestFirst(before.requests, cutoff, doomed)
    requires SameTotals(start, before)
    ensures Survives(start.requests, Swept(before, doomed).requests, cutoff) && SameTotals(start, Swept(before, doomed))
    ensures |Swept(before, doomed).requests| + |Taken(before.requests, doomed)| == |before.requests|
  {
    KeptRows(before.requests, doomed);
    forall s, c ensures Total(Swept(before, doomed), s, c) == Total(start, s, c) {
      BatchConserves(before, doomed, s, c);
    }
  }

  function OrZero(m: map<string, int>, team: string): int {
    if team in m then m[team] else 0
  }

  function Credit(m: map<string, int>, team: string, amount: int): map<string, int> {
    m[team := OrZero(m, team) + amount]
  }

  ghost predicate InDetail(rows: seq<Detail>, team: string, since: int) {
    exists i :: 0 <= i < |rows| && rows[i].team == team && rows[i].ts >= since
  }

  ghost predicate InDaily(daily: seq<Daily>, team: string, since: int) {
    exists i :: 0 <= i < |daily| && daily[i].group.team == team && daily[i].group.day >= Day(since)
  }

  ghost predicate Appears(log: Log, team: string, since: int) {
    InDetail(log.requests, team, since) || InDaily(log.daily, team, since)
  }

  ghost predicate TalliedFor(out: map<string, int>, log: Log, team: string, since: int) {
    (team in out <==> Appears(log, team, since)) && OrZero(out, team) == SpendSince(log, team, since)
  }

  /** Exactly the teams with a row since then, each with its spend across both tables. */
  ghost predicate Tallied(out: map<string, int>, rows: seq<Detail>, daily: seq<Daily>, since: int) {
    forall team :: TalliedFor(out, Log(rows, daily), team, since)
  }

  lemma TallyDetail(out: map<string, int>, rows: seq<Detail>, i: nat, since: int)
    requires i < |rows| && Tallied(out, rows[..i], [], since)
    ensures Tallied(if rows[i].ts >= since then Credit(out, rows[i].team, rows[i].costMicros) else out,
                    rows[..i + 1], [], since)
  {
    var row, before := rows[i], rows[..i];
    var next := if row.ts >= since then Credit(out, row.team, row.costMicros) else out;
    assert rows[..i + 1] == before + [row];
    forall team ensures TalliedFor(next, Log(before + [row], []), team, since) {
      assert TalliedFor(out, Log(before, []), team, since);
      CostFromAppend(before, row, team, since);
      InDetailAppend(before, row, team, since);
    }
  }

  lemma InDetailAppend(rows: seq<Detail>, row: Detail, team: string, since: int)
    ensures InDetail(rows + [row], team, since) <==> InDetail(rows, team, since) || (row.team == team && row.ts >= since)
  {
    var all := rows + [row];
    assert all[|rows|] == row && forall k :: 0 <= k < |rows| ==> all[k] == rows[k];
  }

  lemma TallyDaily(out: map<string, int>, rows: seq<Detail>, daily: seq<Daily>, i: nat, since: int)
    requires i < |daily| && Tallied(out, rows, daily[..i], since)
    ensures Tallied(if daily[i].group.day >= Day(since) then Credit(out, daily[i].group.team, daily[i].totals.costMicros)
                    else out, rows, daily[..i + 1], since)
  {
    var d, before := daily[i], daily[..i];
    var next := if d.group.day >= Day(since) then Credit(out, d.group.team, d.totals.costMicros) else out;
    assert daily[..i + 1] == before + [d];
    forall team ensures TalliedFor(next, Log(rows, before + [d]), team, since) {
      assert TalliedFor(out, Log(rows, before), team, since);
      DailyAppend(before, d, TeamFrom(team, Day(since)), CostMicros);
      InDailyAppend(before, d, team, since);
    }
  }

  lemma InDailyAppend(daily: seq<Daily>, d: Daily, team: string, since: int)
    ensures InDaily(daily + [d], team, since)
            <==> InDaily(daily, team, since) || (d.group.team == team && d.group.day >= Day(since))
  {
    var all := daily + [d];
    assert all[|daily|] == d && forall k :: 0 <= k < |daily| ==> all[k] == daily[k];
  }
}
