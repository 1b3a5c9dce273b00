/** The durable usage log and the Redis counters that index it.

    `usage_record` rows are the source of truth; the counters are a fast index keyed by
    subject, metric and calendar bucket, whose windowed keys expire. The main result,
    `ReadIsExact`, says the index and the log agree on every read. */
module Metering {
  import opened Prelude
  import opened Calendar

  datatype Subject = Account | Token
  datatype Metric = RequestCount | TokenCount | CostEstimate | Percentage
  datatype Window = Cumulative | Daily | Monthly | Rolling24h

  /** A UUID in its text form: the one fact used is that it holds no colon. */
  type Id = s: string | ':' !in s witness ""

  const SUBJECTS: seq<Subject> := [Account, Token]
  const WINDOWS: seq<Window> := [Cumulative, Daily, Monthly, Rolling24h]
  const TRACKED_METRICS: seq<Metric> := [RequestCount, TokenCount]
  const ROLLING_HOURS: nat := 24
  const SLOTS: nat := 16 // subjects x windows x tracked metrics

  function SubjectText(k: Subject): string {
    match k case Account => "account" case Token => "token"
  }

  function MetricText(m: Metric): string {
    match m
    case RequestCount => "request_count"
    case TokenCount => "token_count"
    case CostEstimate => "cost_estimate"
    case Percentage => "percentage"
  }

  function Ttl(w: Window): Option<nat> {
    match w
    case Cumulative => None
    case Daily => Some(2 * DAY)
    case Monthly => Some(40 * DAY)
    case Rolling24h => Some(25 * HOUR)
  }

  // --- Buckets and keys ------------------------------------------------------

  /** The current period of a window, and (`BucketText`) its label. */
  datatype Bucket = AllTime | DayBucket(day: nat) | MonthBucket(year: nat, month: nat) | HourBucket(hour: nat)

  function WindowBucket(w: Window, t: nat): Bucket {
    match w
    case Cumulative => AllTime
    case Daily => DayBucket(t / DAY)
    case Monthly => MonthBucket(DateOf(t / DAY).year, DateOf(t / DAY).month)
    case Rolling24h => HourBucket(t / HOUR)
  }

  function BucketText(b: Bucket): string {
    match b
    case AllTime => "all"
    case DayBucket(day) => DayLabel(DateOf(day))
    case MonthBucket(year, month) => MonthLabel(Date(year, month, 1))
    case HourBucket(hour) => DayLabel(DateOf(hour / 24)) + Digits(hour % 24, 2)
  }

  /** A Redis key by its parts. `KeyText` is the string the service sends; it is injective
      (`KeyTextInjective`), so a store over keys is a store over those strings. */
  datatype Key = Key(subject: Subject, id: Id, metric: Metric, bucket: Bucket)

  function KeyText(key: Key): string {
    "usage:"
      + (SubjectText(key.subject) + ":" + (key.id + ":" + (MetricText(key.metric) + ":" + BucketText(key.bucket))))
  }

  function CounterKey(k: Subject, id: Id, m: Metric, w: Window, t: nat): Key {
    Key(k, id, m, WindowBucket(w, t))
  }

  /** `strftime("%Y")` writes exactly four digits for these years. */
  predicate FourDigitYear(b: Bucket) {
    match b
    case AllTime => true
    case DayBucket(day) => 1000 <= DateOf(day).year <= 9999
    case MonthBucket(year, month) => 1000 <= year <= 9999 && 1 <= month <= 12
    case HourBucket(hour) => 1000 <= DateOf(hour / 24).year <= 9999
  }

  /** `t` and `u` lie in the same calendar period of the window. */
  predicate SamePeriod(w: Window, t: nat, u: nat) {
    match w
    case Cumulative => true
    case Daily => t / DAY == u / DAY
    case Monthly => DateOf(t / DAY).year == DateOf(u / DAY).year && DateOf(t / DAY).month == DateOf(u / DAY).month
    case Rolling24h => t / HOUR == u / HOUR
  }

  lemma SplitAtColon(a: string, x: string, b: string, y: string)
    requires ':' !in a && ':' !in b && a + ":" + x == b + ":" + y
    ensures a == b && x == y
  {
    var s := a + ":" + x;
    assert s[|a|] == ':' && s[|b|] == ':';
    assert forall i | 0 <= i < |a| :: s[i] == a[i];
    assert forall i | 0 <= i < |b| :: s[i] == b[i];
    assert |a| == |b|;
    assert a == s[..|a|] && b == s[..|b|];
    assert x == s[|a| + 1..] && y == s[|b| + 1..];
  }

  lemma SubjectTextInjective(k: Subject, k': Subject)
    ensures ':' !in SubjectText(k)
    ensures SubjectText(k) == SubjectText(k') <==> k == k'
  {
    assert SubjectText(k)[0] == (if k.Account? then 'a' else 't');
    assert SubjectText(k')[0] == (if k'.Account? then 'a' else 't');
  }

  lemma MetricTextInjective(m: Metric, m': Metric)
    ensures ':' !in MetricText(m)
    ensures MetricText(m) == MetricText(m') <==> m == m'
  {
    assert MetricText(m)[0]
           == match m case RequestCount => 'r' case TokenCount => 't' case CostEstimate => 'c' case Percentage => 'p';
    assert MetricText(m')[0]
           == match m' case RequestCount => 'r' case TokenCount => 't' case CostEstimate => 'c' case Percentage => 'p';
  }

  /** Labels of different windows have different lengths, and a label spells its period. */
  lemma BucketTextInjective(b: Bucket, c: Bucket)
    requires FourDigitYear(b) && FourDigitYear(c)
    ensures BucketText(b) == BucketText(c) <==> b == c
  {
    var s, s' := BucketText(b), BucketText(c);
    if s == s' {
      match b {
        case AllTime =>
        case DayBucket(day) =>
          DateOfInverse(day);
          DateOfInverse(c.day);
          DayLabelInjective(DateOf(day), DateOf(c.day));
        case MonthBucket(year, month) =>
          MonthLabelInjective(Date(year, month, 1), Date(c.year, c.month, 1));
        case HourBucket(hour) =>
          HourTextInjective(hour, c.hour);
      }
    }
  }

  lemma HourTextInjective(h: nat, g: nat)
    requires FourDigitYear(HourBucket(h)) && FourDigitYear(HourBucket(g))
    requires BucketText(HourBucket(h)) == BucketText(HourBucket(g))
    ensures h == g
  {
    var s, s' := BucketText(HourBucket(h)), BucketText(HourBucket(g));
    DateOfInverse(h / 24);
    DateOfInverse(g / 24);
    assert s[..8] == DayLabel(DateOf(h / 24)) && s'[..8] == DayLabel(DateOf(g / 24));
    assert s[8..] == Digits(h % 24, 2) && s'[8..] == Digits(g % 24, 2);
    DayLabelInjective(DateOf(h / 24), DateOf(g / 24));
    assert Pow10(2) == 100;
    DigitsInjective(h % 24, g % 24, 2);
  }

  /** No two counters are written under the same string, although the window's name is not
      part of the key. */
  lemma KeyTextInjective(a: Key, b: Key)
    requires FourDigitYear(a.bucket) && FourDigitYear(b.bucket)
    ensures KeyText(a) == KeyText(b) <==> a == b
  {
    SubjectTextInjective(a.subject, b.subject);
    SubjectTextInjective(b.subject, a.subject);
    MetricTextInjective(a.metric, b.metric);
    MetricTextInjective(b.metric, a.metric);
    if KeyText(a) == KeyText(b) {
      var x, x' := MetricText(a.metric) + ":" + BucketText(a.bucket), MetricText(b.metric) + ":" + BucketText(b.bucket);
      var y, y' := a.id + ":" + x, b.id + ":" + x';
      assert KeyText(a)[6..] == SubjectText(a.subject) + ":" + y;
      assert KeyText(b)[6..] == SubjectText(b.subject) + ":" + y';
      SplitAtColon(SubjectText(a.subject), y, SubjectText(b.subject), y');
      SplitAtColon(a.id, x, b.id, x');
      SplitAtColon(MetricText(a.metric), BucketText(a.bucket), MetricText(b.metric), BucketText(b.bucket));
      BucketTextInjective(a.bucket, b.bucket);
    }
  }

  /** Equal key strings mean the same subject, metric, window and calendar period. */
  lemma CounterKeyInjective(k: Subject, id: Id, m: Metric, w: Window, t: nat,
                            k': Subject, id': Id, m': Metric, w': Window, t': nat)
    requires FourDigitYear(WindowBucket(w, t)) && FourDigitYear(WindowBucket(w', t'))
    ensures KeyText(CounterKey(k, id, m, w, t)) == KeyText(CounterKey(k', id', m', w', t'))
       <==> k == k' && id == id' && m == m' && w == w' && SamePeriod(w, t, t')
  {
    KeyTextInjective(CounterKey(k, id, m, w, t), CounterKey(k', id', m', w', t'));
  }

  predicate Tracked(m: Metric) {
    m.RequestCount? || m.TokenCount?
  }

  predicate SpellsDay(name: string, d: Date) {
    |name| == 8 && Value(name[..4]) == d.year && Value(name[4..6]) == d.month && Value(name[6..]) == d.day
  }

  /** A period's label: `all`, the date, the year and month, or the date and hour. */
  lemma PeriodSpelled(w: Window, t: nat)
    requires DateOf(t / DAY).year <= 9999
    ensures var text, d := BucketText(WindowBucket(w, t)), DateOf(t / 86400);
            match w
            case Cumulative => text == "all"
            case Daily => SpellsDay(text, d)
            case Monthly => |text| == 6 && Value(text[..4]) == d.year && Value(text[4..]) == d.month
            case Rolling24h => |text| == 10 && SpellsDay(text[..8], d) && Value(text[8..]) == t / 3600 % 24
  {
    var d := DateOf(t / DAY);
    DateOfInverse(t / DAY);
    LabelsSpell(d);
    hide DayLabel, MonthLabel, Value, DateOf;
    match w {
      case Cumulative =>
      case Daily =>
      case Monthly => MonthSpelled(d);
      case Rolling24h => HourSpelled(t);
    }
  }

  lemma MonthSpelled(d: Date)
    requires ValidDate(d) && d.year <= 9999
    ensures var text := MonthLabel(Date(d.year, d.month, 1));
            |text| == 6 && Value(text[..4]) == d.year && Value(text[4..]) == d.month
  {
    var first := Date(d.year, d.month, 1);
    LabelsSpell(first);
    var s := DayLabel(first);
    assert s[..6][..4] == s[..4] && s[..6][4..] == s[4..6];
  }

  lemma HourSpelled(t: nat)
    ensures var text := BucketText(HourBucket(t / HOUR));
            && |text| == 10 && text[..8] == DayLabel(DateOf(t / DAY)) && Value(text[8..]) == t / HOUR % 24
  {
    assert t / HOUR / 24 == t / DAY;
    var text := BucketText(HourBucket(t / HOUR));
    assert text[..8] == DayLabel(DateOf(t / DAY)) && text[8..] == Digits(t / HOUR % 24, 2);
    assert Pow10(2) == 100;
    DigitsSpell(t / HOUR % 24, 2);
  }

  /** The string a counter is kept under: `usage`, whose it is, the id, what it counts and the
      period's label, between colons. */
  lemma KeySpelled(k: Subject, id: Id, m: Metric, w: Window, t: nat)
    requires Tracked(m)
    ensures KeyText(CounterKey(k, id, m, w, t))
            == "usage:" + (if k == Token then "token" else "account") + ":" + id + ":"
               + (if m == TokenCount then "token_count" else "request_count") + ":"
               + BucketText(WindowBucket(w, t))
  {
    hide BucketText, WindowBucket;
  }

  // --- Usage records ---------------------------------------------------------

  datatype UsageEvent = UsageEvent(
    correlationId: Id, clientTokenId: Id, accountId: Id, provider: string,
    promptTokens: Option<int>, completionTokens: Option<int>, totalTokens: Option<int>)

  datatype UsageRecord = UsageRecord(
    correlationId: Id, clientTokenId: Id, accountId: Id, provider: string,
    promptTokens: nat, completionTokens: nat, totalTokens: nat,
    meteringMissing: bool, createdAt: nat)

  function OrZero(n: Option<int>): int {
    if n.Some? then n.value else 0
  }

  /** The row an event is stored as, or None for a negative count. */
  function ResolveCounts(e: UsageEvent, now: nat): Option<UsageRecord> {
    var prompt, completion := OrZero(e.promptTokens), OrZero(e.completionTokens);
    var total := if e.totalTokens.Some? then e.totalTokens.value else prompt + completion;
    if prompt < 0 || completion < 0 || total < 0 then None
    else Some(UsageRecord(e.correlationId, e.clientTokenId, e.accountId, e.provider, prompt, completion, total,
                          e.promptTokens.None? && e.completionTokens.None? && e.totalTokens.None?, now))
  }

  /** What an event's row says: its ids and counts, a missing count read as none and a missing
      total as the sum of the others. A row is flagged when the event counted nothing, and an
      event with a negative count has no row. */
  lemma RowSays(e: UsageEvent, now: nat)
    ensures var row, total := ResolveCounts(e, now),
                              if e.totalTokens.Some? then e.totalTokens.value
                              else OrZero(e.promptTokens) + OrZero(e.completionTokens);
            && (row.None? <==> (e.promptTokens.Some? && e.promptTokens.value < 0)
                               || (e.completionTokens.Some? && e.completionTokens.value < 0) || total < 0)
            && (row.Some? ==>
                  && row.value.correlationId == e.correlationId && row.value.clientTokenId == e.clientTokenId
                  && row.value.accountId == e.accountId && row.value.provider == e.provider
                  && (e.promptTokens.Some? ==> row.value.promptTokens == e.promptTokens.value)
                  && (e.promptTokens.None? ==> row.value.promptTokens == 0)
                  && (e.completionTokens.Some? ==> row.value.completionTokens == e.completionTokens.value)
                  && (e.completionTokens.None? ==> row.value.completionTokens == 0)
                  && row.value.totalTokens == total && row.value.createdAt == now
                  && (row.value.meteringMissing <==>
                        e.promptTokens.None? && e.completionTokens.None? && e.totalTokens.None?))
  {
  }

  function SubjectId(r: UsageRecord, k: Subject): Id {
    match k case Account => r.accountId case Token => r.clientTokenId
  }

  /** What one record adds to a metric; only two of the four metrics are metered. */
  function Amount(r: UsageRecord, m: Metric): nat {
    match m
    case RequestCount => 1
    case TokenCount => r.totalTokens
    case CostEstimate => 0
    case Percentage => 0
  }

  // --- The counter store -----------------------------------------------------

  datatype Cell = Cell(value: int, expiry: Option<int>)
  type Store = map<Key, Cell>
  datatype Command = IncrBy(key: Key, amount: int) | Expire(key: Key, ttl: nat)

  function Lookup(store: Store, key: Key): Option<Cell> {
    if key in store then Some(store[key]) else None
  }

  predicate Live(cell: Option<Cell>, now: int) {
    cell.Some? && (cell.value.expiry.Some? ==> now < cell.value.expiry.value)
  }

  function ReadCell(cell: Option<Cell>, now: int): int {
    if Live(cell, now) then cell.value.value else 0
  }

  /** GET, with an absent or expired key read as zero. */
  function ReadKey(store: Store, key: Key, now: int): int {
    ReadCell(Lookup(store, key), now)
  }

  function RunCommand(store: Store, c: Command, now: int): Store {
    var cell := Lookup(store, c.key);
    match c
    case IncrBy(key, amount) =>
      store[key := if Live(cell, now) then cell.value.(value := cell.value.value + amount) else Cell(amount, None)]
    case Expire(key, ttl) =>
      if Live(cell, now) then store[key := cell.value.(expiry := Some(now + ttl))] else store
  }

  function RunAll(store: Store, pipe: seq<Command>, now: int): Store {
    if pipe == [] then store
    else RunCommand(RunAll(store, pipe[..|pipe| - 1], now), pipe[|pipe| - 1], now)
  }

  function Increment(key: Key, amount: int, ttl: Option<nat>): seq<Command> {
    [IncrBy(key, amount)] + if ttl.Some? then [Expire(key, ttl.value)] else []
  }

  /** What an INCRBY and its cleanup EXPIRE make of a cell. */
  function Bumped(cell: Option<Cell>, amount: int, ttl: Option<nat>, now: int): Cell {
    Cell(ReadCell(cell, now) + amount,
         if ttl.Some? then Some(now + ttl.value) else if Live(cell, now) then cell.value.expiry else None)
  }

  lemma IncrementBumps(store: Store, pipe: seq<Command>, key: Key, amount: int, ttl: Option<nat>, now: int)
    ensures var before := RunAll(store, pipe, now);
            RunAll(store, pipe + Increment(key, amount, ttl), now)
            == before[key := Bumped(Lookup(before, key), amount, ttl, now)]
  {
    var q := pipe + [IncrBy(key, amount)];
    assert q[..|q| - 1] == pipe;
    if ttl.Some? {
      var p := q + [Expire(key, ttl.value)];
      assert p == pipe + Increment(key, amount, ttl);
      assert p[..|p| - 1] == q;
    } else {
      assert q == pipe + Increment(key, amount, ttl);
    }
  }

  // The sixteen counters of one record, numbered in the order of the nested loop.
  type Slot = i: nat | i < SLOTS

  function SlotSubject(i: Slot): Subject {
    if i < 8 then Account else Token
  }

  function SlotWindow(i: Slot): Window {
    var j := i % 8;
    if j < 2 then Cumulative else if j < 4 then Daily else if j < 6 then Monthly else Rolling24h
  }

  function SlotMetric(i: Slot): Metric {
    if i % 2 == 0 then RequestCount else TokenCount
  }

  function SlotKey(r: UsageRecord, i: Slot): Key {
    CounterKey(SlotSubject(i), SubjectId(r, SlotSubject(i)), SlotMetric(i), SlotWindow(i), r.createdAt)
  }

  function SlotOf(k: Subject, w: Window, m: Metric): nat {
    (if k.Account? then 0 else 8) + (if m.RequestCount? then 0 else 1)
    + match w case Cumulative => 0 case Daily => 2 case Monthly => 4 case Rolling24h => 6
  }

  /** The store after the first `n` counters of a record were bumped. */
  function Recorded(store: Store, r: UsageRecord, n: nat, now: int): Store
    requires n <= SLOTS
  {
    if n == 0 then store
    else
      var before := Recorded(store, r, n - 1, now);
      var key := SlotKey(r, n - 1);
      before[key := Bumped(Lookup(before, key), Amount(r, SlotMetric(n - 1)), Ttl(SlotWindow(n - 1)), now)]
  }

  /** A committed record together with the instant Redis executed its increments. */
  datatype Entry = Entry(record: UsageRecord, written: nat)

  /** The store left by a run of records over an empty Redis. */
  function Replay(log: seq<Entry>): Store {
    if log == [] then map[]
    else
      var e := log[|log| - 1];
      Recorded(Replay(log[..|log| - 1]), e.record, SLOTS, e.written)
  }

  /** The record counts towards this counter. */
  predicate Hits(r: UsageRecord, k: Subject, id: Id, m: Metric, w: Window, t: nat) {
    Tracked(m) && SubjectId(r, k) == id && SamePeriod(w, r.createdAt, t)
  }

  lemma SlotNames(r: UsageRecord, i: Slot, k: Subject, id: Id, m: Metric, w: Window, t: nat)
    ensures CounterKey(k, id, m, w, t) == SlotKey(r, i) <==> Hits(r, k, id, m, w, t) && SlotOf(k, w, m) == i
    ensures CounterKey(k, id, m, w, t) == SlotKey(r, i) ==> SlotMetric(i) == m && SlotWindow(i) == w
  {
  }

  /** A record bumps exactly the counters it belongs to, each of them once. */
  lemma {:induction false} RecordedEffect(store: Store, r: UsageRecord, n: nat, now: int,
                                          k: Subject, id: Id, m: Metric, w: Window, t: nat, key: Key)
    requires n <= SLOTS && key == CounterKey(k, id, m, w, t)
    ensures Lookup(Recorded(store, r, n, now), key)
            == if Hits(r, k, id, m, w, t) && SlotOf(k, w, m) < n
               then Some(Bumped(Lookup(store, key), Amount(r, m), Ttl(w), now))
               else Lookup(store, key)
  {
    if n > 0 {
      RecordedEffect(store, r, n - 1, now, k, id, m, w, t, key);
      SlotNames(r, n - 1, k, id, m, w, t);
    }
  }

  // --- Consumption, as the log defines it ------------------------------------

  /** The records a read at instant `t` must count: the current calendar period, or the
      current hour and the 23 before it. */
  predicate Covers(w: Window, created: nat, t: nat) {
    if w.Rolling24h? then 0 <= t / HOUR - created / HOUR < ROLLING_HOURS else SamePeriod(w, created, t)
  }

  /** The metric summed over the log records `p` selects. */
  function SumOver(log: seq<Entry>, m: Metric, p: UsageRecord -> bool): nat {
    SumWhere(log, (e: Entry) => Amount(e.record, m), (e: Entry) => p(e.record))
  }

  /** The last record of a log adds its amount where it is selected. */
  lemma SumOverLast(log: seq<Entry>, m: Metric, p: UsageRecord -> bool)
    requires log != []
    ensures var e := log[|log| - 1];
            SumOver(log, m, p) == SumOver(log[..|log| - 1], m, p) + if p(e.record) then Amount(e.record, m) else 0
  {
  }

  function Consumption(log: seq<Entry>, k: Subject, id: Id, m: Metric, w: Window, t: nat): nat {
    SumOver(log, m, (r: UsageRecord) => SubjectId(r, k) == id && Covers(w, r.createdAt, t))
  }

  function BucketSum(log: seq<Entry>, k: Subject, id: Id, m: Metric, w: Window, t: nat): nat {
    SumOver(log, m, (r: UsageRecord) => SubjectId(r, k) == id && SamePeriod(w, r.createdAt, t))
  }

  // --- Reading the counters --------------------------------------------------

  /** The sum of the `n` latest hourly buckets. */
  function RollingRead(store: Store, k: Subject, id: Id, m: Metric, t: nat, now: int, n: nat): int
    requires n * HOUR <= t + HOUR
  {
    if n == 0 then 0
    else
      var newer := RollingRead(store, k, id, m, t, now, n - 1);
      newer + ReadKey(store, CounterKey(k, id, m, Rolling24h, t - (n - 1) * HOUR), now)
  }

  function CounterValue(store: Store, k: Subject, id: Id, m: Metric, w: Window, t: nat, now: int): int
    requires HasHours(w, t)
  {
    if w.Rolling24h? then RollingRead(store, k, id, m, t, now, ROLLING_HOURS)
    else ReadKey(store, CounterKey(k, id, m, w, t), now)
  }

  /** A run of committed records: Redis executes them in log order, none before the
      instant it is stamped with. */
  predicate Orderly(log: seq<Entry>) {
    forall i | 0 <= i < |log| ::
      && log[i].record.createdAt <= log[i].written
      && (forall j | i < j < |log| :: log[i].written <= log[j].written)
  }

  predicate WrittenBy(log: seq<Entry>, now: int) {
    log != [] ==> log[|log| - 1].written <= now
  }

  /** A log stays orderly exactly when each record's increments are executed after its instant
      and not before those of the record in front of it. */
  lemma OrderlySnoc(log: seq<Entry>, e: Entry)
    ensures Orderly(log + [e])
       <==> Orderly(log) && e.record.createdAt <= e.written && WrittenBy(log, e.written)
  {
    var all := log + [e];
    assert all[|log|] == e && forall i | 0 <= i < |log| :: all[i] == log[i];
    if Orderly(all) {
      assert forall i | 0 <= i < |log| :: all[i].written <= all[|log|].written;
    }
    if Orderly(log) && e.record.createdAt <= e.written && WrittenBy(log, e.written) {
      var n := |log| - 1;
      assert forall i | 0 <= i < |log| :: log[i].written <= log[n].written;
    }
  }

  /** No counter of the period of `t` has expired by `now`. */
  ghost predicate Unexpired(log: seq<Entry>, w: Window, t: nat, now: int) {
    forall i | 0 <= i < |log| && SamePeriod(w, log[i].record.createdAt, t) ::
      Ttl(w).Some? ==> now < log[i].written + Ttl(w).value
  }

  /** The last record of a run bumps the counters it hits and leaves the rest alone. */
  lemma ReplayStep(log: seq<Entry>, k: Subject, id: Id, m: Metric, w: Window, t: nat, key: Key)
    requires log != [] && Orderly(log) && key == CounterKey(k, id, m, w, t)
    ensures var e := log[|log| - 1];
            var before := Lookup(Replay(log[..|log| - 1]), key);
            Lookup(Replay(log), key)
            == if Hits(e.record, k, id, m, w, t) then Some(Bumped(before, Amount(e.record, m), Ttl(w), e.written))
               else before
  {
    var e := log[|log| - 1];
    RecordedEffect(Replay(log[..|log| - 1]), e.record, SLOTS, e.written, k, id, m, w, t, key);
  }

  lemma {:induction false} CumulativeNeverExpires(log: seq<Entry>, k: Subject, id: Id, m: Metric, t: nat, key: Key)
    requires Orderly(log) && key == CounterKey(k, id, m, Cumulative, t)
    ensures Lookup(Replay(log), key).Some? ==> Lookup(Replay(log), key).value.expiry.None?
  {
    if log != [] {
      ReplayStep(log, k, id, m, Cumulative, t, key);
      CumulativeNeverExpires(log[..|log| - 1], k, id, m, t, key);
    }
  }

  /** A counter none of whose writes can have expired holds exactly the sum of the log. */
  lemma {:induction false} BucketExact(log: seq<Entry>, k: Subject, id: Id, m: Metric, w: Window, t: nat, now: int,
                                       key: Key)
    requires Orderly(log) && WrittenBy(log, now) && Unexpired(log, w, t, now)
    requires key == CounterKey(k, id, m, w, t)
    ensures ReadKey(Replay(log), key, now) == BucketSum(log, k, id, m, w, t)
  {
    if log != [] {
      var prev, e := log[..|log| - 1], log[|log| - 1];
      ReplayStep(log, k, id, m, w, t, key);
      if Hits(e.record, k, id, m, w, t) {
        BucketExact(prev, k, id, m, w, t, e.written, key);
        if w.Cumulative? {
          CumulativeNeverExpires(prev, k, id, m, t, key);
        }
      } else {
        BucketExact(prev, k, id, m, w, t, now, key);
      }
    }
  }

  // --- Sums over the log -----------------------------------------------------

  lemma SumOverSplit(log: seq<Entry>, m: Metric, p: UsageRecord -> bool, q: UsageRecord -> bool,
                     either: UsageRecord -> bool)
    requires forall e | e in log :: either(e.record) == (p(e.record) || q(e.record)) && !(p(e.record) && q(e.record))
    ensures SumOver(log, m, either) == SumOver(log, m, p) + SumOver(log, m, q)
  {
    SumWhereSplit(log, (e: Entry) => Amount(e.record, m), (e: Entry) => p(e.record), (e: Entry) => q(e.record),
                  (e: Entry) => either(e.record));
  }

  lemma {:induction false} SumOverMonotonic(log: seq<Entry>, m: Metric, p: UsageRecord -> bool, q: UsageRecord -> bool)
    requires forall e | e in log :: p(e.record) ==> q(e.record)
    ensures SumOver(log, m, p) <= SumOver(log, m, q)
  {
    if log != [] {
      assert log[|log| - 1] in log;
      SumOverMonotonic(log[..|log| - 1], m, p, q);
    }
  }

  lemma SumOverEqual(log: seq<Entry>, m: Metric, p: UsageRecord -> bool, q: UsageRecord -> bool)
    requires forall e | e in log :: p(e.record) == q(e.record)
    ensures SumOver(log, m, p) == SumOver(log, m, q)
  {
    SumOverMonotonic(log, m, p, q);
    SumOverMonotonic(log, m, q, p);
  }

  // --- The counters refine the log -------------------------------------------

  /** How long after its instant a read of a window is still exact; None when always. */
  function Margin(w: Window): Option<nat> {
    match w
    case Cumulative => None
    case Daily => Some(DAY)
    case Monthly => Some(9 * DAY)
    case Rolling24h => Some(HOUR)
  }

  /** A read at `now` for the instant `t` is within the window's margin. */
  predicate Timely(w: Window, t: nat, now: int) {
    Margin(w).Some? ==> now <= t + Margin(w).value
  }

  /** Within its margin a counter of the current calendar period is live. */
  lemma TtlOutlastsPeriod(log: seq<Entry>, w: Window, t: nat, now: int)
    requires Orderly(log) && Timely(w, t, now) && !w.Rolling24h?
    ensures Unexpired(log, w, t, now)
  {
    forall i | 0 <= i < |log| && SamePeriod(w, log[i].record.createdAt, t)
      ensures Ttl(w).Some? ==> now < log[i].written + Ttl(w).value
    {
      if w.Monthly? {
        SameMonthIsClose(t, log[i].record.createdAt);
      }
    }
  }

  lemma TtlOutlastsHours(log: seq<Entry>, t: nat, now: int, ago: nat)
    requires Orderly(log) && now <= t + HOUR && ago < ROLLING_HOURS && ago * HOUR <= t
    ensures Unexpired(log, Rolling24h, t - ago * HOUR, now)
  {
  }

  lemma HourExact(log: seq<Entry>, k: Subject, id: Id, m: Metric, t: nat, now: int, ago: nat)
    requires Orderly(log) && WrittenBy(log, now) && 23 * HOUR <= t && now <= t + HOUR && ago < ROLLING_HOURS
    ensures var u := t - ago * HOUR;
            ReadKey(Replay(log), CounterKey(k, id, m, Rolling24h, u), now) == BucketSum(log, k, id, m, Rolling24h, u)
  {
    var u := t - ago * HOUR;
    TtlOutlastsHours(log, t, now, ago);
    BucketExact(log, k, id, m, Rolling24h, u, now, CounterKey(k, id, m, Rolling24h, u));
  }

  /** The records of the `n` latest hours. */
  function HoursSum(log: seq<Entry>, k: Subject, id: Id, m: Metric, t: nat, n: nat): nat {
    SumOver(log, m, (r: UsageRecord) => SubjectId(r, k) == id && 0 <= t / HOUR - r.createdAt / HOUR < n)
  }

  lemma HoursSumStep(log: seq<Entry>, k: Subject, id: Id, m: Metric, t: nat, n: nat)
    requires n * HOUR <= t
    ensures HoursSum(log, k, id, m, t, 0) == 0
    ensures HoursSum(log, k, id, m, t, n + 1)
            == HoursSum(log, k, id, m, t, n) + BucketSum(log, k, id, m, Rolling24h, t - n * HOUR)
  {
    var none := (r: UsageRecord) => SubjectId(r, k) == id && 0 <= t / HOUR - r.createdAt / HOUR < 0;
    SumOverSplit(log, m, none, none, none);
    assert (t - n * HOUR) / HOUR == t / HOUR - n;
    SumOverSplit(log, m,
      (r: UsageRecord) => SubjectId(r, k) == id && 0 <= t / HOUR - r.createdAt / HOUR < n,
      (r: UsageRecord) => SubjectId(r, k) == id && SamePeriod(Rolling24h, r.createdAt, t - n * HOUR),
      (r: UsageRecord) => SubjectId(r, k) == id && 0 <= t / HOUR - r.createdAt / HOUR < n + 1);
  }

  lemma {:induction false} RollingExact(log: seq<Entry>, k: Subject, id: Id, m: Metric, t: nat, now: int, n: nat)
    requires Orderly(log) && WrittenBy(log, now) && 23 * HOUR <= t && now <= t + HOUR && n <= ROLLING_HOURS
    ensures RollingRead(Replay(log), k, id, m, t, now, n) == HoursSum(log, k, id, m, t, n)
  {
    if n == 0 {
      HoursSumStep(log, k, id, m, t, 0);
    } else {
      RollingExact(log, k, id, m, t, now, n - 1);
      HourExact(log, k, id, m, t, now, n - 1);
      HoursSumStep(log, k, id, m, t, n - 1);
    }
  }

  /** A calendar counter that is live reads what the durable log says of its period. */
  lemma LiveReadIsExact(log: seq<Entry>, k: Subject, id: Id, m: Metric, w: Window, t: nat, now: int)
    requires Orderly(log) && WrittenBy(log, now) && !w.Rolling24h? && Unexpired(log, w, t, now)
    ensures CounterValue(Replay(log), k, id, m, w, t, now) == Consumption(log, k, id, m, w, t)
  {
    BucketExact(log, k, id, m, w, t, now, CounterKey(k, id, m, w, t));
    SumOverEqual(log, m,
      (r: UsageRecord) => SubjectId(r, k) == id && SamePeriod(w, r.createdAt, t),
      (r: UsageRecord) => SubjectId(r, k) == id && Covers(w, r.createdAt, t));
  }

  /** The clock is far enough from the calendar's first instant for 24 hourly buckets. */
  predicate HasHours(w: Window, t: nat) {
    w.Rolling24h? ==> 23 * HOUR <= t
  }

  /** Reading a counter gives what the durable log says: for every run of records, subject,
      metric and window, as long as the read comes within the window's margin. */
  lemma ReadIsExact(log: seq<Entry>, k: Subject, id: Id, m: Metric, w: Window, t: nat, now: int)
    requires Orderly(log) && WrittenBy(log, now) && HasHours(w, t) && Timely(w, t, now)
    ensures CounterValue(Replay(log), k, id, m, w, t, now) == Consumption(log, k, id, m, w, t)
  {
    if w.Rolling24h? {
      RollingExact(log, k, id, m, t, now, ROLLING_HOURS);
      SumOverEqual(log, m,
        (r: UsageRecord) => SubjectId(r, k) == id && 0 <= t / HOUR - r.createdAt / HOUR < ROLLING_HOURS,
        (r: UsageRecord) => SubjectId(r, k) == id && Covers(w, r.createdAt, t));
    } else {
      TtlOutlastsPeriod(log, w, t, now);
      LiveReadIsExact(log, k, id, m, w, t, now);
    }
  }

  /** The rolling reading counts everything of the last 23 hours and nothing that is 24 or
      more hours old. */
  lemma RollingSandwich(log: seq<Entry>, k: Subject, id: Id, m: Metric, t: nat, now: int)
    requires Orderly(log) && WrittenBy(log, now) && 23 * HOUR <= t && now <= t + HOUR
    requires forall e | e in log :: e.record.createdAt <= t
    ensures var reading := CounterValue(Replay(log), k, id, m, Rolling24h, t, now);
            && SumOver(log, m, (r: UsageRecord) => SubjectId(r, k) == id && t - 23 * HOUR <= r.createdAt) <= reading
            && reading <= SumOver(log, m, (r: UsageRecord) => SubjectId(r, k) == id && t - 24 * HOUR < r.createdAt)
  {
    ReadIsExact(log, k, id, m, Rolling24h, t, now);
    var covered := (r: UsageRecord) => SubjectId(r, k) == id && Covers(Rolling24h, r.createdAt, t);
    assert Consumption(log, k, id, m, Rolling24h, t) == SumOver(log, m, covered);
    SumOverMonotonic(log, m, (r: UsageRecord) => SubjectId(r, k) == id && t - 23 * HOUR <= r.createdAt, covered);
    SumOverMonotonic(log, m, covered, (r: UsageRecord) => SubjectId(r, k) == id && t - 24 * HOUR < r.createdAt);
  }

  /** Every read of a window made within `delay` seconds of its instant is exact. */
  ghost predicate ExactWithin(w: Window, delay: nat) {
    forall log: seq<Entry>, k: Subject, id: Id, m: Metric, t: nat, now: nat ::
      Orderly(log) && WrittenBy(log, now) && HasHours(w, t) && now <= t + delay ==>
        CounterValue(Replay(log), k, id, m, w, t, now) == Consumption(log, k, id, m, w, t)
  }

  /** The counter of a single record reads zero once its TTL has passed. */
  lemma ExpiredBucket(e: Entry, w: Window, u: nat, now: nat, key: Key)
    requires Orderly([e]) && Ttl(w).Some? && now == e.written + Ttl(w).value
    requires key == CounterKey(Account, e.record.accountId, RequestCount, w, u)
    ensures ReadKey(Replay([e]), key, now) == 0
  {
    assert [e][..0] == [];
    ReplayStep([e], Account, e.record.accountId, RequestCount, w, u, key);
  }

  lemma {:induction false} OldestHourLost(e: Entry, t: nat, now: nat, n: nat)
    requires Orderly([e]) && 23 * HOUR <= t && n <= ROLLING_HOURS && now == e.written + 25 * HOUR
    ensures RollingRead(Replay([e]), Account, e.record.accountId, RequestCount, t, now, n) == 0
  {
    if n > 0 {
      var u := t - (n - 1) * HOUR;
      OldestHourLost(e, t, now, n - 1);
      ExpiredBucket(e, Rolling24h, u, now, CounterKey(Account, e.record.accountId, RequestCount, Rolling24h, u));
    }
  }

  lemma SumOverOne(e: Entry, m: Metric, p: UsageRecord -> bool)
    ensures SumOver([e], m, p) == if p(e.record) then Amount(e.record, m) else 0
  {
    SumOverLast([e], m, p);
    assert [e][..0] == [];
  }

  lemma OneRecordConsumption(e: Entry, w: Window, t: nat)
    requires Covers(w, e.record.createdAt, t)
    ensures Consumption([e], Account, e.record.accountId, RequestCount, w, t) == 1
  {
    SumOverOne(e, RequestCount,
               (r: UsageRecord) => SubjectId(r, Account) == e.record.accountId && Covers(w, r.createdAt, t));
  }

  /** The last second of the month, or of the day, that begins at `start`. */
  function LastSecond(w: Window, start: nat): nat
    requires !w.Cumulative?
  {
    start + (if w.Monthly? then 31 * DAY else DAY) - 1
  }

  lemma FirstMonth(u: nat)
    requires u < 31
    ensures DateOf(u) == Date(1, 1, u + 1)
  {
    assert DaysInYear(1) == 365 && DaysInMonth(1, 1) == 31;
  }

  /** A record at the start of a period, read for the period's last second when the record's
      TTL has just run out: the log has it and the counter does not. */
  lemma LateReadMisses(w: Window, e: Entry, start: nat, t: nat, now: nat, delay: nat)
    requires !w.Cumulative? && start == (if w.Rolling24h? then DAY else 0)
    requires e.record.createdAt == e.written == start && t == LastSecond(w, start)
    requires now == start + Ttl(w).value && now <= t + delay
    ensures !ExactWithin(w, delay)
  {
    if w.Monthly? {
      FirstMonth(0);
      FirstMonth(30);
      assert t / DAY == 30;
    }
    OneRecordConsumption(e, w, t);
    if w.Rolling24h? {
      OldestHourLost(e, t, now, ROLLING_HOURS);
    } else {
      ExpiredBucket(e, w, t, now, CounterKey(Account, e.record.accountId, RequestCount, w, t));
    }
    assert CounterValue(Replay([e]), Account, e.record.accountId, RequestCount, w, t, now) == 0;
    assert Orderly([e]) && WrittenBy([e], now) && HasHours(w, t);
  }

  /** Each window's margin is exact: reads within it always agree with the log, and beyond
      it some read misses a record. */
  lemma ReadDelayBound(w: Window, delay: nat)
    ensures ExactWithin(w, delay) <==> Margin(w).None? || delay <= Margin(w).value
  {
    if Margin(w).None? || delay <= Margin(w).value {
      forall log: seq<Entry>, k: Subject, id: Id, m: Metric, t: nat, now: nat
        | Orderly(log) && WrittenBy(log, now) && HasHours(w, t) && now <= t + delay
        ensures CounterValue(Replay(log), k, id, m, w, t, now) == Consumption(log, k, id, m, w, t)
      {
        ReadIsExact(log, k, id, m, w, t, now);
      }
    } else {
      var start := if w.Rolling24h? then DAY else 0;
      var e := Entry(UsageRecord("c", "t", "a", "openai", 0, 0, 0, true, start), start);
      LateReadMisses(w, e, start, LastSecond(w, start), start + Ttl(w).value, delay);
    }
  }

  // --- The service -----------------------------------------------------------

  function Records(log: seq<Entry>): seq<UsageRecord> {
    if log == [] then [] else Records(log[..|log| - 1]) + [log[|log| - 1].record]
  }

  lemma NextSlot(store: Store, r: UsageRecord, pipe: seq<Command>, k: Subject, w: Window, m: Metric, i: Slot, now: int)
    requires Tracked(m) && SlotOf(k, w, m) == i
    requires RunAll(store, pipe, now) == Recorded(store, r, i, now)
    ensures var key := CounterKey(k, SubjectId(r, k), m, w, r.createdAt);
            RunAll(store, pipe + Increment(key, Amount(r, m), Ttl(w)), now)
            == Recorded(store, r, i + 1, now)
  {
    hide RunAll, Increment;
    IncrementBumps(store, pipe, SlotKey(r, i), Amount(r, m), Ttl(w), now);
  }

  /** The usage_record table, the Redis counters, and (ghost) when each row's increments
      were executed. */
  class UsageRecorder {
    var records: seq<UsageRecord>
    var store: Store
    ghost var log: seq<Entry>

    ghost predicate Valid()
      reads this
    {
      records == Records(log) && store == Replay(log)
    }

    constructor ()
      ensures Valid() && log == []
    {
      records, store, log := [], map[], [];
    }

    /** MULTI/EXEC: every queued command at one instant. */
    method Execute(pipe: seq<Command>, now: nat)
      modifies this`store
      ensures store == RunAll(old(store), pipe, now)
    {
      for i := 0 to |pipe|
        invariant store == RunAll(old(store), pipe[..i], now)
      {
        assert pipe[..i + 1][..i] == pipe[..i];
        store := RunCommand(store, pipe[i], now);
      }
      assert pipe[..|pipe|] == pipe;
    }

    /** Both subjects, every window, every tracked metric: one increment each. */
    method IncrementCounters(r: UsageRecord, executedAt: nat)
      modifies this`store
      ensures store == Recorded(old(store), r, SLOTS, executedAt)
    {
      var pipe: seq<Command> := [];
      for i := 0 to |SUBJECTS|
        invariant store == old(store) && RunAll(store, pipe, executedAt) == Recorded(store, r, 8 * i, executedAt)
      {
        pipe := QueueSubject(r, SUBJECTS[i], pipe, store, executedAt);
      }
      Execute(pipe, executedAt);
    }

    static method QueueSubject(r: UsageRecord, k: Subject, queued: seq<Command>, ghost before: Store, ghost at: nat)
      returns (pipe: seq<Command>)
      requires RunAll(before, queued, at) == Recorded(before, r, SlotOf(k, Cumulative, RequestCount), at)
      ensures RunAll(before, pipe, at) == Recorded(before, r, SlotOf(k, Cumulative, RequestCount) + 8, at)
    {
      hide RunAll, Recorded, Increment, CounterKey, SubjectId, Amount;
      pipe := queued;
      ghost var base := SlotOf(k, Cumulative, RequestCount);
      for j := 0 to |WINDOWS|
        invariant RunAll(before, pipe, at) == Recorded(before, r, base + 2 * j, at)
      {
        var w, ttl := WINDOWS[j], Ttl(WINDOWS[j]);
        for n := 0 to |TRACKED_METRICS|
          invariant RunAll(before, pipe, at) == Recorded(before, r, base + 2 * j + n, at)
        {
          var metric := TRACKED_METRICS[n];
          NextSlot(before, r, pipe, k, w, metric, base + 2 * j + n, at);
          pipe := pipe + Increment(CounterKey(k, SubjectId(r, k), metric, w, r.createdAt), Amount(r, metric), ttl);
        }
      }
    }

    /** Store one row and advance its counters; a negative count changes nothing. */
    method RecordUsage(event: UsageEvent, now: nat, executedAt: nat) returns (stored: Option<UsageRecord>)
      requires Valid()
      modifies this
      ensures Valid()
      ensures stored == ResolveCounts(event, now)
      ensures stored.Some? ==> log == old(log) + [Entry(stored.value, executedAt)]
      ensures stored.None? ==> log == old(log)
    {
      stored := ResolveCounts(event, now);
      if stored.Some? {
        var r := stored.value;
        ghost var e := Entry(r, executedAt);
        assert (log + [e])[..|log|] == log;
        records := records + [r];
        IncrementCounters(r, executedAt);
        log := log + [e];
      }
    }

    /** The counter read behind limit checks and usage views. */
    method ReadCounter(k: Subject, id: Id, m: Metric, w: Window, t: nat, now: nat) returns (total: int)
      requires Valid() && HasHours(w, t)
      ensures total == CounterValue(store, k, id, m, w, t, now)
      ensures Orderly(log) && WrittenBy(log, now) && Timely(w, t, now) ==> total == Consumption(log, k, id, m, w, t)
    {
      if w.Rolling24h? {
        total := 0;
        for hoursAgo := 0 to ROLLING_HOURS
          invariant total == RollingRead(store, k, id, m, t, now, hoursAgo)
        {
          total := total + ReadKey(store, CounterKey(k, id, m, w, t - hoursAgo * HOUR), now);
        }
      } else {
        total := ReadKey(store, CounterKey(k, id, m, w, t), now);
      }
      if Orderly(log) && WrittenBy(log, now) && Timely(w, t, now) {
        ReadIsExact(log, k, id, m, w, t, now);
      }
    }
  }
}
