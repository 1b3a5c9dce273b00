/** Range reports over the durable log, and their agreement with the live counters. */
module Analytics {
  import opened Prelude
  import opened Calendar
  import opened Metering

  /** A half-open range of instants, [start, end). */
  datatype TimeRange = TimeRange(start: nat, end: nat)

  predicate InRange(range: TimeRange, t: nat) {
    range.start <= t < range.end
  }

  datatype TokenCounts = TokenCounts(requestCount: nat, promptTokens: nat, completionTokens: nat, totalTokens: nat)

  const NO_COUNTS := TokenCounts(0, 0, 0, 0)

  function Plus(a: TokenCounts, b: TokenCounts): TokenCounts {
    TokenCounts(a.requestCount + b.requestCount, a.promptTokens + b.promptTokens,
                a.completionTokens + b.completionTokens, a.totalTokens + b.totalTokens)
  }

  datatype Column = Rows | Prompt | Completion | Total

  function ColumnOf(r: UsageRecord, c: Column): nat {
    match c
    case Rows => 1
    case Prompt => r.promptTokens
    case Completion => r.completionTokens
    case Total => r.totalTokens
  }

  /** COUNT or SUM of a column over the rows a WHERE clause keeps. */
  function Sum(rows: seq<UsageRecord>, c: Column, where_: UsageRecord -> bool): nat {
    SumWhere(rows, (r: UsageRecord) => ColumnOf(r, c), where_)
  }

  function Aggregate(rows: seq<UsageRecord>, where_: UsageRecord -> bool): TokenCounts {
    TokenCounts(Sum(rows, Rows, where_), Sum(rows, Prompt, where_), Sum(rows, Completion, where_),
                Sum(rows, Total, where_))
  }

  /** The report of one subject over a range. */
  function SubjectReport(rows: seq<UsageRecord>, range: TimeRange, k: Subject, id: Id): TokenCounts {
    Aggregate(rows, (r: UsageRecord) => InRange(range, r.createdAt) && SubjectId(r, k) == id)
  }

  /** The aggregate over every row of a range, whatever its subject. */
  function UnfilteredTotals(rows: seq<UsageRecord>, range: TimeRange): TokenCounts {
    Aggregate(rows, (r: UsageRecord) => InRange(range, r.createdAt))
  }

  function SumOf(rows: seq<UsageRecord>, f: UsageRecord -> nat): nat {
    if rows == [] then 0 else SumOf(rows[..|rows| - 1], f) + f(rows[|rows| - 1])
  }

  /** A report's four columns: how many rows it covers, and their prompt, completion and total
      tokens. */
  lemma {:induction false} ReportSays(rows: seq<UsageRecord>, where_: UsageRecord -> bool)
    ensures var report, some := Aggregate(rows, where_), Filter(rows, where_);
            && report.requestCount == |some|
            && report.promptTokens == SumOf(some, (r: UsageRecord) => r.promptTokens)
            && report.completionTokens == SumOf(some, (r: UsageRecord) => r.completionTokens)
            && report.totalTokens == SumOf(some, (r: UsageRecord) => r.totalTokens)
    decreases |rows|
  {
    if rows != [] {
      var n := |rows| - 1;
      assert rows[..n + 1] == rows;
      ReportSays(rows[..n], where_);
      FilterSnoc(rows, n, where_);
      var some := Filter(rows[..n], where_);
      if where_(rows[n]) {
        assert (some + [rows[n]])[..|some|] == some;
      } else {
        NothingAdded(some);
      }
      hide Filter;
    }
  }

  lemma SumSplit(rows: seq<UsageRecord>, c: Column, p: UsageRecord -> bool, q: UsageRecord -> bool,
                 either: UsageRecord -> bool)
    requires forall i | 0 <= i < |rows| :: either(rows[i]) == (p(rows[i]) || q(rows[i])) && !(p(rows[i]) && q(rows[i]))
    ensures Sum(rows, c, either) == Sum(rows, c, p) + Sum(rows, c, q)
  {
    SumWhereSplit(rows, (r: UsageRecord) => ColumnOf(r, c), p, q, either);
  }

  lemma AggregateSplit(rows: seq<UsageRecord>, p: UsageRecord -> bool, q: UsageRecord -> bool,
                       either: UsageRecord -> bool)
    requires forall i | 0 <= i < |rows| :: either(rows[i]) == (p(rows[i]) || q(rows[i])) && !(p(rows[i]) && q(rows[i]))
    ensures Aggregate(rows, either) == Plus(Aggregate(rows, p), Aggregate(rows, q))
  {
    hide Sum;
    SumSplit(rows, Rows, p, q, either);
    SumSplit(rows, Prompt, p, q, either);
    SumSplit(rows, Completion, p, q, either);
    SumSplit(rows, Total, p, q, either);
  }

  lemma AggregateNone(rows: seq<UsageRecord>, p: UsageRecord -> bool)
    requires forall i | 0 <= i < |rows| :: !p(rows[i])
    ensures Aggregate(rows, p) == NO_COUNTS
  {
    hide Sum;
    SumSplit(rows, Rows, p, p, p);
    SumSplit(rows, Prompt, p, p, p);
    SumSplit(rows, Completion, p, p, p);
    SumSplit(rows, Total, p, p, p);
  }

  /** Reports over adjacent ranges add up to the report over their union. */
  lemma AdjacentRangesAdd(rows: seq<UsageRecord>, a: nat, b: nat, c: nat, k: Subject, id: Id)
    requires a <= b <= c
    ensures SubjectReport(rows, TimeRange(a, c), k, id)
            == Plus(SubjectReport(rows, TimeRange(a, b), k, id), SubjectReport(rows, TimeRange(b, c), k, id))
    ensures UnfilteredTotals(rows, TimeRange(a, c))
            == Plus(UnfilteredTotals(rows, TimeRange(a, b)), UnfilteredTotals(rows, TimeRange(b, c)))
  {
    AggregateSplit(rows,
      (r: UsageRecord) => InRange(TimeRange(a, b), r.createdAt) && SubjectId(r, k) == id,
      (r: UsageRecord) => InRange(TimeRange(b, c), r.createdAt) && SubjectId(r, k) == id,
      (r: UsageRecord) => InRange(TimeRange(a, c), r.createdAt) && SubjectId(r, k) == id);
    AggregateSplit(rows,
      (r: UsageRecord) => InRange(TimeRange(a, b), r.createdAt),
      (r: UsageRecord) => InRange(TimeRange(b, c), r.createdAt),
      (r: UsageRecord) => InRange(TimeRange(a, c), r.createdAt));
  }

  /** The reports of several subjects, added up. */
  function SumOfReports(rows: seq<UsageRecord>, range: TimeRange, k: Subject, ids: seq<Id>): TokenCounts {
    if ids == [] then NO_COUNTS
    else Plus(SumOfReports(rows, range, k, ids[..|ids| - 1]), SubjectReport(rows, range, k, ids[|ids| - 1]))
  }

  ghost predicate Distinct<T(!new)>(s: seq<T>) {
    forall i, j | 0 <= i < j < |s| :: s[i] != s[j]
  }

  lemma {:induction false} SumOfReportsIsUnion(rows: seq<UsageRecord>, range: TimeRange, k: Subject, ids: seq<Id>)
    requires Distinct(ids)
    ensures SumOfReports(rows, range, k, ids)
            == Aggregate(rows, (r: UsageRecord) => InRange(range, r.createdAt) && SubjectId(r, k) in ids)
  {
    if ids == [] {
      AggregateNone(rows, (r: UsageRecord) => InRange(range, r.createdAt) && SubjectId(r, k) in ids);
    } else {
      var init, last := ids[..|ids| - 1], ids[|ids| - 1];
      SumOfReportsIsUnion(rows, range, k, init);
      assert ids == init + [last];
      AggregateSplit(rows,
        (r: UsageRecord) => InRange(range, r.createdAt) && SubjectId(r, k) in init,
        (r: UsageRecord) => InRange(range, r.createdAt) && SubjectId(r, k) == last,
        (r: UsageRecord) => InRange(range, r.createdAt) && SubjectId(r, k) in ids);
    }
  }

  lemma AllSubjectsAddUp(rows: seq<UsageRecord>, range: TimeRange, k: Subject, ids: seq<Id>)
    requires Distinct(ids) && forall i | 0 <= i < |rows| :: SubjectId(rows[i], k) in ids
    ensures SumOfReports(rows, range, k, ids) == UnfilteredTotals(rows, range)
  {
    var listed := (r: UsageRecord) => InRange(range, r.createdAt) && SubjectId(r, k) in ids;
    var none := (r: UsageRecord) => false;
    SumOfReportsIsUnion(rows, range, k, ids);
    AggregateNone(rows, none);
    AggregateSplit(rows, listed, none, (r: UsageRecord) => InRange(range, r.createdAt));
  }

  /** Every record is metered once for its token and once for its account, so the two sets
      of reports have the same total. */
  lemma TokensAndAccountsAgree(rows: seq<UsageRecord>, range: TimeRange, tokens: seq<Id>, accounts: seq<Id>)
    requires Distinct(tokens) && forall i | 0 <= i < |rows| :: rows[i].clientTokenId in tokens
    requires Distinct(accounts) && forall i | 0 <= i < |rows| :: rows[i].accountId in accounts
    ensures SumOfReports(rows, range, Token, tokens) == SumOfReports(rows, range, Account, accounts)
  {
    AllSubjectsAddUp(rows, range, Token, tokens);
    AllSubjectsAddUp(rows, range, Account, accounts);
  }

  // --- Agreement with the counters -------------------------------------------

  /** The UTC day, or calendar month, of an instant. */
  function PeriodRange(w: Window, t: nat): TimeRange
    requires w.Daily? || w.Monthly?
  {
    if w.Daily? then TimeRange(t / DAY * DAY, (t / DAY + 1) * DAY)
    else
      var d := DateOf(t / DAY);
      TimeRange(MonthStart(d.year, d.month), MonthStart(d.year, d.month) + DaysInMonth(d.year, d.month) * DAY)
  }

  function MonthStart(year: nat, month: nat): nat {
    (DaysBeforeYear(year) + DaysBeforeMonth(year, month)) * DAY
  }

  lemma MonthIsItsRange(t: nat, u: nat)
    ensures InRange(PeriodRange(Monthly, t), u) <==> SamePeriod(Monthly, u, t)
  {
    var d, e := DateOf(t / DAY), DateOf(u / DAY);
    DateOfInverse(t / DAY);
    DateOfInverse(u / DAY);
    if d.year < e.year || (d.year == e.year && d.month < e.month) {
      MonthsInOrder(d, e);
    } else if e.year < d.year || (e.year == d.year && e.month < d.month) {
      MonthsInOrder(e, d);
    }
  }

  lemma MonthsInOrder(d: Date, e: Date)
    requires ValidDate(d) && ValidDate(e)
    requires d.year < e.year || (d.year == e.year && d.month < e.month)
    ensures MonthStart(d.year, d.month) + DaysInMonth(d.year, d.month) * DAY <= MonthStart(e.year, e.month)
  {
    YearLength(d.year);
    if d.year < e.year {
      DaysBeforeMonthMonotonic(d.year, d.month + 1, 13);
      DaysBeforeYearMonotonic(d.year, e.year);
    } else {
      DaysBeforeMonthMonotonic(d.year, d.month + 1, e.month);
    }
  }

  function MetricOf(c: TokenCounts, m: Metric): nat {
    match m
    case RequestCount => c.requestCount
    case TokenCount => c.totalTokens
    case CostEstimate => 0
    case Percentage => 0
  }

  /** The column a counter's metric is reported in; there is none for the others. */
  function ColumnFor(m: Metric): Option<Column> {
    match m
    case RequestCount => Some(Rows)
    case TokenCount => Some(Total)
    case CostEstimate => None
    case Percentage => None
  }

  lemma AggregateIsSum(log: seq<Entry>, m: Metric, p: UsageRecord -> bool)
    ensures MetricOf(Aggregate(Records(log), p), m) == SumOver(log, m, p)
  {
    var column := ColumnFor(m);
    var weight := (r: UsageRecord) => if column.Some? then ColumnOf(r, column.value) else 0;
    ColumnIsSum(log, m, weight, p);
    hide SumWhere, SumOver;
    if column.None? {
      SumOfNothing(Records(log), weight, p);
    } else {
      SumWhereEqual(Records(log), weight, (r: UsageRecord) => ColumnOf(r, column.value), p);
    }
  }

  lemma {:induction false} ColumnIsSum(log: seq<Entry>, m: Metric, weight: UsageRecord -> nat, p: UsageRecord -> bool)
    requires forall r :: weight(r) == Amount(r, m)
    ensures SumWhere(Records(log), weight, p) == SumOver(log, m, p)
  {
    if log != [] {
      var init, last := log[..|log| - 1], log[|log| - 1];
      assert Records(log) == Records(init) + [last.record];
      SumOverLast(log, m, p);
      SumWhereLast(Records(log), weight, p);
      hide SumWhere, SumOver, Records;
      ColumnIsSum(init, m, weight, p);
    }
  }

  /** While its counter is live, a report over exactly one day or month reads the same as
      the counter of that period. */
  lemma PeriodReportIsCounter(log: seq<Entry>, k: Subject, id: Id, m: Metric, w: Window, t: nat, now: int)
    requires w.Daily? || w.Monthly?
    requires Orderly(log) && WrittenBy(log, now) && Unexpired(log, w, t, now)
    ensures MetricOf(SubjectReport(Records(log), PeriodRange(w, t), k, id), m)
            == CounterValue(Replay(log), k, id, m, w, t, now)
  {
    LiveReadIsExact(log, k, id, m, w, t, now);
    var inRange := (r: UsageRecord) => InRange(PeriodRange(w, t), r.createdAt) && SubjectId(r, k) == id;
    var covered := (r: UsageRecord) => SubjectId(r, k) == id && Covers(w, r.createdAt, t);
    AggregateIsSum(log, m, inRange);
    forall e | e in log
      ensures inRange(e.record) == covered(e.record)
    {
      if w.Monthly? {
        MonthIsItsRange(t, e.record.createdAt);
      }
    }
    SumOverEqual(log, m, inRange, covered);
  }
}
