/** Usage limits, and how far past one concurrent requests of a token can run. */
module Limits {
  import opened Prelude
  import opened Calendar
  import opened Metering

  datatype UsageLimitSpec = UsageLimitSpec(metric: Metric, limitValue: real, capacity: Option<real>, window: Window)

  predicate ValidSpec(spec: UsageLimitSpec) {
    spec.limitValue >= 0.0 && (spec.metric.Percentage? ==> spec.capacity.Some? && spec.capacity.value > 0.0)
  }

  /** A limit as its validator lets it be stored. */
  type ValidLimit = spec: UsageLimitSpec | ValidSpec(spec) witness UsageLimitSpec(RequestCount, 0.0, None, Cumulative)

  function ConsumedPercentage(usage: real, capacity: real): real
    requires capacity > 0.0
  {
    usage / capacity * 100.0
  }

  predicate LimitReached(consumption: real, spec: UsageLimitSpec)
    requires ValidSpec(spec)
  {
    if spec.metric.Percentage? then ConsumedPercentage(consumption, spec.capacity.value) >= spec.limitValue
    else consumption >= spec.limitValue
  }

  /** The counter that backs a limit: only request counts have one of their own. */
  function CounterMetric(spec: UsageLimitSpec): Metric {
    if spec.metric.RequestCount? then RequestCount else TokenCount
  }

  /** The consumption at which a limit is reached, in units of its counter. */
  function Threshold(spec: UsageLimitSpec): real
    requires ValidSpec(spec)
  {
    if spec.metric.Percentage? then spec.limitValue * spec.capacity.value / 100.0 else spec.limitValue
  }

  lemma ScaleCompare(x: real, y: real, c: real)
    requires c > 0.0
    ensures x >= y <==> x * c >= y * c
  {
    assert (x - y) * c == x * c - y * c;
  }

  lemma PercentageThreshold(usage: real, capacity: real, limit: real)
    requires capacity > 0.0
    ensures ConsumedPercentage(usage, capacity) >= limit <==> usage >= limit * capacity / 100.0
  {
    var p := ConsumedPercentage(usage, capacity);
    ScaleCompare(p, limit, capacity);
    assert p * capacity == usage * 100.0;
  }

  /** A limit is reached exactly at its threshold, whatever its metric. */
  lemma ReachedAtThreshold(consumption: real, spec: UsageLimitSpec)
    requires ValidSpec(spec)
    ensures LimitReached(consumption, spec) <==> consumption >= Threshold(spec)
  {
    if spec.metric.Percentage? {
      PercentageThreshold(consumption, spec.capacity.value, spec.limitValue);
    }
  }

  /** The check behind every limit: the subject's counter against its limit. */
  predicate CounterReached(store: Store, k: Subject, id: Id, spec: ValidLimit, now: nat, readAt: int)
    requires HasHours(spec.window, now)
  {
    LimitReached(CounterValue(store, k, id, CounterMetric(spec), spec.window, now, readAt) as real, spec)
  }

  // --- What a limit counts, read off the log -----------------------------------

  /** The record is the subject's, and in the period of `t`. */
  predicate Counts(r: UsageRecord, k: Subject, id: Id, w: Window, t: nat) {
    (if k.Token? then r.clientTokenId == id else r.accountId == id) && Covers(w, r.createdAt, t)
  }

  /** How many requests of the subject the log has in the period of `t`. */
  function RequestsLogged(log: seq<Entry>, k: Subject, id: Id, w: Window, t: nat): nat {
    |Filter(log, (e: Entry) => Counts(e.record, k, id, w, t))|
  }

  /** How many tokens those requests took in all. */
  function TokensLogged(log: seq<Entry>, k: Subject, id: Id, w: Window, t: nat): nat {
    SumWhere(log, (e: Entry) => e.record.totalTokens, (e: Entry) => Counts(e.record, k, id, w, t))
  }

  /** What the limit's period has consumed: requests, or for every other metric tokens. */
  function Consumed(log: seq<Entry>, k: Subject, id: Id, spec: UsageLimitSpec, t: nat): nat {
    if spec.metric.RequestCount? then RequestsLogged(log, k, id, spec.window, t)
    else TokensLogged(log, k, id, spec.window, t)
  }

  /** What one record adds to that. */
  function Worth(r: UsageRecord, spec: UsageLimitSpec): nat {
    if spec.metric.RequestCount? then 1 else r.totalTokens
  }

  lemma {:induction false} RequestsAreSummed(log: seq<Entry>, k: Subject, id: Id, w: Window, t: nat)
    ensures RequestsLogged(log, k, id, w, t) == Consumption(log, k, id, RequestCount, w, t)
    decreases |log|
  {
    if log != [] {
      var n := |log| - 1;
      RequestsAreSummed(log[..n], k, id, w, t);
      assert log[..n + 1] == log;
      FilterSnoc(log, n, (e: Entry) => Counts(e.record, k, id, w, t));
      SumOverLast(log, RequestCount, (r: UsageRecord) => SubjectId(r, k) == id && Covers(w, r.createdAt, t));
      hide Filter, SumOver, Covers;
    }
  }

  lemma {:induction false} TokensAreSummed(log: seq<Entry>, k: Subject, id: Id, w: Window, t: nat)
    ensures TokensLogged(log, k, id, w, t) == Consumption(log, k, id, TokenCount, w, t)
    decreases |log|
  {
    if log != [] {
      TokensAreSummed(log[..|log| - 1], k, id, w, t);
      SumOverLast(log, TokenCount, (r: UsageRecord) => SubjectId(r, k) == id && Covers(w, r.createdAt, t));
      hide SumOver, Covers;
    }
  }

  /** The counter behind a limit counts what the limit is about. */
  lemma CounterCounts(log: seq<Entry>, k: Subject, id: Id, spec: UsageLimitSpec, t: nat)
    ensures Consumption(log, k, id, CounterMetric(spec), spec.window, t) == Consumed(log, k, id, spec, t)
  {
    RequestsAreSummed(log, k, id, spec.window, t);
    TokensAreSummed(log, k, id, spec.window, t);
    hide Consumption, RequestsLogged, TokensLogged;
  }

  /** The log's consumption of the limit's period is below the limit, as far as a read at
      `readAt` can tell. */
  ghost predicate ConsumedLess(log: seq<Entry>, k: Subject, id: Id, spec: ValidLimit, now: nat, readAt: int) {
    Orderly(log) && WrittenBy(log, readAt) && Timely(spec.window, now, readAt) ==>
      Consumed(log, k, id, spec, now) as real < Threshold(spec)
  }

  /** What the counter lets through, the log has below its limit. */
  lemma CheckedIsBelow(log: seq<Entry>, k: Subject, id: Id, spec: ValidLimit, now: nat, readAt: int)
    requires HasHours(spec.window, now) && !CounterReached(Replay(log), k, id, spec, now, readAt)
    ensures ConsumedLess(log, k, id, spec, now, readAt)
  {
    if Orderly(log) && WrittenBy(log, readAt) && Timely(spec.window, now, readAt) {
      ReadIsExact(log, k, id, CounterMetric(spec), spec.window, now, readAt);
      CounterCounts(log, k, id, spec, now);
      ReachedAtThreshold(Consumed(log, k, id, spec, now) as real, spec);
    }
  }

  // --- Check, then record: a token's requests in flight ----------------------

  /** What one token's gate sees: the committed log, and the instants of the admitted
      requests that have not ended yet. */
  datatype Gate = Gate(log: seq<Entry>, flight: seq<nat>)

  datatype Event =
    | Admit(now: nat, readAt: nat) // the limit check let a request through
    | Settle(i: nat, entry: Entry) // an admitted request recorded its usage
    | Abandon(i: nat)              // an admitted request ended without a record
    | Unrelated(entry: Entry)      // another token's request recorded its usage

  /** The pre-upstream check as the gateway makes it, on the counters of the log. */
  predicate UnderLimit(g: Gate, token: Id, spec: UsageLimitSpec, now: nat, readAt: nat)
    requires ValidSpec(spec) && HasHours(spec.window, now)
  {
    !CounterReached(Replay(g.log), Token, token, spec, now, readAt)
  }

  /** No record of the token is stamped in a later hour: requests are admitted in clock
      order. Only the rolling window needs it. */
  predicate ClockOrdered(log: seq<Entry>, token: Id, now: nat) {
    forall e | e in log && e.record.clientTokenId == token :: e.record.createdAt / HOUR <= now / HOUR
  }

  function Without(flight: seq<nat>, i: nat): seq<nat>
    requires i < |flight|
  {
    flight[..i] + flight[i + 1..]
  }

  /** What the gateway sees to in a step: it admits only what its check lets through, and a
      record is stamped with the instant of its request. */
  predicate Guarded(g: Gate, e: Event, g': Gate, token: Id, spec: UsageLimitSpec)
    requires ValidSpec(spec)
  {
    match e
    case Admit(now, readAt) =>
      HasHours(spec.window, now) && UnderLimit(g, token, spec, now, readAt) && g' == Gate(g.log, g.flight + [now])
    case Settle(i, entry) =>
      && i < |g.flight| && entry.record.clientTokenId == token && entry.record.createdAt == g.flight[i]
      && g' == Gate(g.log + [entry], Without(g.flight, i))
    case Abandon(i) =>
      i < |g.flight| && g' == Gate(g.log, Without(g.flight, i))
    case Unrelated(entry) =>
      entry.record.clientTokenId != token && g' == Gate(g.log + [entry], g.flight)
  }

  /** What its surroundings see to: timely reads, increments in log order, and no request that
      adds more than `most` to the counter. */
  predicate Timed(g: Gate, e: Event, g': Gate, token: Id, spec: UsageLimitSpec, most: nat) {
    match e
    case Admit(now, readAt) =>
      && Timely(spec.window, now, readAt) && WrittenBy(g.log, readAt)
      && (spec.window.Rolling24h? ==> ClockOrdered(g.log, token, now))
    case Settle(_, entry) => Worth(entry.record, spec) <= most && Orderly(g'.log)
    case Abandon(_) => true
    case Unrelated(_) => Orderly(g'.log)
  }

  /** One step of any interleaving. */
  predicate Step(g: Gate, e: Event, g': Gate, token: Id, spec: UsageLimitSpec, most: nat)
    requires ValidSpec(spec)
  {
    Guarded(g, e, g', token, spec) && Timed(g, e, g', token, spec, most)
  }

  /** A run from an empty log that never has more than `k` requests in flight. */
  ghost predicate Run(states: seq<Gate>, events: seq<Event>, token: Id, spec: UsageLimitSpec, most: nat, k: nat)
    requires ValidSpec(spec)
  {
    && |states| == |events| + 1
    && states[0] == Gate([], [])
    && (forall i | 0 <= i < |states| :: |states[i].flight| <= k)
    && (forall i | 0 <= i < |events| :: Step(states[i], events[i], states[i + 1], token, spec, most))
  }

  /** The most the requests in flight can still add to the period of `t`. */
  function Reserved(flight: seq<nat>, w: Window, t: nat, most: nat): nat {
    if flight == [] then 0
    else Reserved(flight[..|flight| - 1], w, t, most) + if Covers(w, flight[|flight| - 1], t) then most else 0
  }

  lemma {:induction false} ReservedAppend(a: seq<nat>, b: seq<nat>, w: Window, t: nat, most: nat)
    ensures Reserved(a + b, w, t, most) == Reserved(a, w, t, most) + Reserved(b, w, t, most)
  {
    if b == [] {
      assert a + b == a;
    } else {
      assert (a + b)[..|a + b| - 1] == a + b[..|b| - 1];
      ReservedAppend(a, b[..|b| - 1], w, t, most);
    }
  }

  lemma ReservedOne(now: nat, w: Window, t: nat, most: nat)
    ensures Reserved([now], w, t, most) == if Covers(w, now, t) then most else 0
  {
    assert [now][..0] == [];
  }

  lemma {:induction false} ReservedAtMost(flight: seq<nat>, w: Window, t: nat, most: nat)
    ensures Reserved(flight, w, t, most) <= |flight| * most
  {
    if flight != [] {
      ReservedAtMost(flight[..|flight| - 1], w, t, most);
      assert |flight| * most == (|flight| - 1) * most + most;
    }
  }

  lemma ReservedWithout(flight: seq<nat>, i: nat, w: Window, t: nat, most: nat)
    requires i < |flight|
    ensures Reserved(flight, w, t, most)
            == Reserved(Without(flight, i), w, t, most) + if Covers(w, flight[i], t) then most else 0
  {
    assert flight == flight[..i] + ([flight[i]] + flight[i + 1..]);
    ReservedAppend(flight[..i], [flight[i]] + flight[i + 1..], w, t, most);
    ReservedAppend([flight[i]], flight[i + 1..], w, t, most);
    ReservedAppend(flight[..i], flight[i + 1..], w, t, most);
    ReservedOne(flight[i], w, t, most);
  }

  /** Either nothing was admitted to the period, or its consumption plus everything still
      in flight stays below the bound. */
  ghost predicate Bounded(g: Gate, token: Id, spec: UsageLimitSpec, most: nat, slack: nat, t: nat)
    requires ValidSpec(spec)
  {
    var c := Consumption(g.log, Token, token, CounterMetric(spec), spec.window, t);
    var n := Reserved(g.flight, spec.window, t, most);
    (c == 0 && n == 0) || (c + n) as real < Threshold(spec) + slack as real
  }

  lemma ConsumptionAppend(log: seq<Entry>, e: Entry, token: Id, m: Metric, w: Window, t: nat)
    ensures Consumption(log + [e], Token, token, m, w, t)
            == Consumption(log, Token, token, m, w, t)
             + if e.record.clientTokenId == token && Covers(w, e.record.createdAt, t) then Amount(e.record, m) else 0
  {
    assert (log + [e])[..|log|] == log;
  }

  /** What the period of `t` has consumed, the check of a request falling into that period
      has seen. */
  lemma CheckSees(log: seq<Entry>, token: Id, m: Metric, w: Window, t: nat, now: nat)
    requires Covers(w, now, t) && (w.Rolling24h? ==> ClockOrdered(log, token, now))
    ensures Consumption(log, Token, token, m, w, t) <= Consumption(log, Token, token, m, w, now)
  {
    SumOverMonotonic(log, m,
      (r: UsageRecord) => SubjectId(r, Token) == token && Covers(w, r.createdAt, t),
      (r: UsageRecord) => SubjectId(r, Token) == token && Covers(w, r.createdAt, now));
  }

  lemma AdmitKeepsBound(g: Gate, now: nat, readAt: nat, token: Id, spec: UsageLimitSpec, most: nat, slack: nat, t: nat)
    requires ValidSpec(spec) && Orderly(g.log) && (spec.window.Rolling24h? ==> ClockOrdered(g.log, token, now))
    requires HasHours(spec.window, now) && Timely(spec.window, now, readAt) && WrittenBy(g.log, readAt)
    requires UnderLimit(g, token, spec, now, readAt)
    requires Reserved(g.flight, spec.window, t, most) + most <= slack
    requires Bounded(g, token, spec, most, slack, t)
    ensures Bounded(Gate(g.log, g.flight + [now]), token, spec, most, slack, t)
  {
    var w, m := spec.window, CounterMetric(spec);
    ReservedAppend(g.flight, [now], w, t, most);
    ReservedOne(now, w, t, most);
    if Covers(w, now, t) {
      ReadIsExact(g.log, Token, token, m, w, now, readAt);
      CheckSees(g.log, token, m, w, t, now);
      ReachedAtThreshold(Consumption(g.log, Token, token, m, w, now) as real, spec);
    }
  }

  lemma SettleKeepsBound(g: Gate, i: nat, entry: Entry, token: Id, spec: UsageLimitSpec, most: nat, slack: nat, t: nat)
    requires ValidSpec(spec) && i < |g.flight|
    requires entry.record.clientTokenId == token && entry.record.createdAt == g.flight[i]
    requires Worth(entry.record, spec) <= most
    requires Bounded(g, token, spec, most, slack, t)
    ensures Bounded(Gate(g.log + [entry], Without(g.flight, i)), token, spec, most, slack, t)
  {
    ConsumptionAppend(g.log, entry, token, CounterMetric(spec), spec.window, t);
    ReservedWithout(g.flight, i, spec.window, t, most);
    assert Amount(entry.record, CounterMetric(spec)) == Worth(entry.record, spec);
    hide Consumption, Reserved, Covers, Without, Threshold, CounterMetric;
  }

  lemma AbandonKeepsBound(g: Gate, i: nat, token: Id, spec: UsageLimitSpec, most: nat, slack: nat, t: nat)
    requires ValidSpec(spec) && i < |g.flight|
    requires Bounded(g, token, spec, most, slack, t)
    ensures Bounded(Gate(g.log, Without(g.flight, i)), token, spec, most, slack, t)
  {
    ReservedWithout(g.flight, i, spec.window, t, most);
  }

  lemma UnrelatedKeepsBound(g: Gate, entry: Entry, token: Id, spec: UsageLimitSpec, most: nat, slack: nat, t: nat)
    requires ValidSpec(spec) && entry.record.clientTokenId != token
    requires Bounded(g, token, spec, most, slack, t)
    ensures Bounded(Gate(g.log + [entry], g.flight), token, spec, most, slack, t)
  {
    ConsumptionAppend(g.log, entry, token, CounterMetric(spec), spec.window, t);
  }

  lemma RoomForOne(n: nat, k: nat, most: nat)
    requires n < k
    ensures n * most + most <= k * most
  {
    var spare := k - n - 1;
    assert (n + 1 + spare) * most == n * most + most + spare * most;
  }

  lemma FlightFits(flight: seq<nat>, w: Window, t: nat, most: nat, k: nat)
    requires |flight| < k
    ensures Reserved(flight, w, t, most) + most <= k * most
  {
    ReservedAtMost(flight, w, t, most);
    RoomForOne(|flight|, k, most);
  }

  lemma StepKeepsBound(g: Gate, e: Event, g': Gate, token: Id, spec: UsageLimitSpec, most: nat, k: nat, t: nat)
    requires ValidSpec(spec)
    requires Orderly(g.log) && |g'.flight| <= k && Step(g, e, g', token, spec, most)
    requires Bounded(g, token, spec, most, k * most, t)
    ensures Orderly(g'.log) && Bounded(g', token, spec, most, k * most, t)
  {
    hide Bounded, Orderly, CounterMetric, Without;
    match e {
      case Admit(now, readAt) =>
        FlightFits(g.flight, spec.window, t, most, k);
        AdmitKeepsBound(g, now, readAt, token, spec, most, k * most, t);
      case Settle(i, entry) => SettleKeepsBound(g, i, entry, token, spec, most, k * most, t);
      case Abandon(i) => AbandonKeepsBound(g, i, token, spec, most, k * most, t);
      case Unrelated(entry) => UnrelatedKeepsBound(g, entry, token, spec, most, k * most, t);
    }
  }

  lemma NothingYetBounded(token: Id, spec: UsageLimitSpec, most: nat, slack: nat, t: nat)
    requires ValidSpec(spec)
    ensures Orderly([]) && Bounded(Gate([], []), token, spec, most, slack, t)
  {
  }

  lemma {:induction false} RunKeepsBound(states: seq<Gate>, events: seq<Event>, token: Id, spec: UsageLimitSpec,
                                         most: nat, k: nat,
                                         n: nat, t: nat)
    requires ValidSpec(spec)
    requires Run(states, events, token, spec, most, k) && n < |states|
    ensures Orderly(states[n].log) && Bounded(states[n], token, spec, most, k * most, t)
  {
    hide Bounded, Orderly, Step, Consumption, Reserved;
    if n == 0 {
      NothingYetBounded(token, spec, most, k * most, t);
    } else {
      RunKeepsBound(states, events, token, spec, most, k, n - 1, t);
      StepKeepsBound(states[n - 1], events[n - 1], states[n], token, spec, most, k, t);
    }
  }

  /** In every interleaving with at most `k` requests in flight, no period's consumption
      passes the limit by `k` requests' worth. */
  lemma ConcurrentOvershoot(states: seq<Gate>, events: seq<Event>, token: Id, spec: UsageLimitSpec, most: nat, k: nat,
                            n: nat, t: nat)
    requires ValidSpec(spec) && Threshold(spec) > 0.0
    requires Run(states, events, token, spec, most, k) && n < |states|
    ensures Consumed(states[n].log, Token, token, spec, t) as real < Threshold(spec) + (k * most) as real
  {
    RunKeepsBound(states, events, token, spec, most, k, n, t);
    CounterCounts(states[n].log, Token, token, spec, t);
    assert k * most >= 0;
  }

  /** The events of a run keep time, and none of its requests takes more than `tokens`. */
  predicate TokensTimed(states: seq<Gate>, events: seq<Event>, token: Id, w: Window, tokens: nat)
    requires |states| == |events| + 1
  {
    forall i | 0 <= i < |events| ::
      match events[i]
      case Admit(now, readAt) =>
        && Timely(w, now, readAt) && WrittenBy(states[i].log, readAt)
        && (w.Rolling24h? ==> ClockOrdered(states[i].log, token, now))
      case Settle(_, entry) => entry.record.totalTokens <= tokens && Orderly(states[i + 1].log)
      case Abandon(_) => true
      case Unrelated(_) => Orderly(states[i + 1].log)
  }

  /** Every limit that does not count requests bounds the tokens of the log: with at most `k`
      requests in flight of at most `tokens` tokens each, no period's records take more than
      the limit and `k` requests' tokens. A token or cost limit of L means L tokens, a
      percentage limit L percent of its capacity. */
  lemma TokenLimitOvershoot(states: seq<Gate>, events: seq<Event>, token: Id, spec: UsageLimitSpec, tokens: nat, k: nat,
                            n: nat, t: nat)
    requires ValidSpec(spec) && !spec.metric.RequestCount? && spec.limitValue > 0.0
    requires |states| == |events| + 1 && states[0] == Gate([], []) && n < |states|
    requires forall i | 0 <= i < |states| :: |states[i].flight| <= k
    requires forall i | 0 <= i < |events| :: Guarded(states[i], events[i], states[i + 1], token, spec)
    requires TokensTimed(states, events, token, spec.window, tokens)
    ensures var used := TokensLogged(states[n].log, Token, token, spec.window, t) as real;
            if spec.metric.Percentage? then
              used < spec.limitValue * spec.capacity.value / 100.0 + (k * tokens) as real
            else used < spec.limitValue + (k * tokens) as real
  {
    hide Guarded;
    forall i | 0 <= i < |events|
      ensures Step(states[i], events[i], states[i + 1], token, spec, tokens)
    {
      assert Guarded(states[i], events[i], states[i + 1], token, spec);
    }
    ThresholdPositive(spec);
    ConcurrentOvershoot(states, events, token, spec, tokens, k, n, t);
  }

  lemma ThresholdPositive(spec: UsageLimitSpec)
    requires ValidSpec(spec) && spec.limitValue > 0.0
    ensures Threshold(spec) > 0.0
  {
    if spec.metric.Percentage? {
      var product := spec.limitValue * spec.capacity.value;
      assert product > 0.0;
    }
  }

  function Ceiling(x: real): int { -(-x).Floor }

  /** A request-count limit of L lets at most ceil(L) - 1 + k requests into a period. */
  lemma RequestCountOvershoot(states: seq<Gate>, events: seq<Event>, token: Id, spec: UsageLimitSpec, k: nat, n: nat,
                              t: nat)
    requires ValidSpec(spec) && spec.metric.RequestCount? && spec.limitValue > 0.0
    requires Run(states, events, token, spec, 1, k) && n < |states|
    ensures RequestsLogged(states[n].log, Token, token, spec.window, t) <= Ceiling(spec.limitValue) - 1 + k
  {
    ConcurrentOvershoot(states, events, token, spec, 1, k, n, t);
  }

  /** A limit of zero admits nothing, ever. */
  lemma ZeroLimitAdmitsNothing(states: seq<Gate>, events: seq<Event>, token: Id, spec: UsageLimitSpec, most: nat,
                               k: nat, n: nat)
    requires ValidSpec(spec) && spec.limitValue == 0.0
    requires Run(states, events, token, spec, most, k) && n < |events|
    ensures !events[n].Admit?
  {
    RunKeepsBound(states, events, token, spec, most, k, n, 0);
    if events[n].Admit? {
      var e := events[n];
      assert Step(states[n], e, states[n + 1], token, spec, most);
      ReadIsExact(states[n].log, Token, token, CounterMetric(spec), spec.window, e.now, e.readAt);
      ReachedAtThreshold(Consumption(states[n].log, Token, token, CounterMetric(spec), spec.window, e.now) as real,
                         spec);
      assert false;
    }
  }
}
