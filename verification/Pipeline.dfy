/** The buffered request pipelines: chat completions and embeddings.

    Both loops refine the machine of module Fallback; around them a request opens one
    trace, finalizes it once, and meters exactly its successes. */
module Pipeline {
  import opened Prelude
  import opened Calendar
  import opened Metering
  import opened Routing
  import opened Fallback
  import opened Admission

  // --- Traces and metering ---------------------------------------------------

  datatype TraceOutcome = Success | ClientError | AllFallbacksFailed | NoAccount

  function OutcomeForError(e: GozarError): TraceOutcome {
    match e.kind
    case NoAvailable => NoAccount
    case UpstreamFailed => AllFallbacksFailed
    case _ => ClientError
  }

  function StatusCode(e: GozarError): int {
    match e.kind
    case UpstreamFailed => 502
    case NoAvailable => 503
    case RateLimited => 429
    case AuthFailed => 401
    case Misconfigured => 500
    case Missing => 404
    case Invalid => 400
  }

  /** What a trace says of the request itself; the session id is empty when there is none. */
  datatype InboundMeta = InboundMeta(endpoint: RouteKind, model: string, stream: bool, sessionId: string,
                                     chainId: Option<nat>)

  datatype TraceRow = TraceRow(inbound: InboundMeta, startedAt: nat, endedAt: Option<nat>,
                               outcome: Option<TraceOutcome>, accountId: Option<Id>, statusCode: Option<int>)

  /** The row of a request that has arrived and not ended. */
  function OpenRow(inbound: InboundMeta, now: nat): TraceRow {
    TraceRow(inbound, now, None, None, None, None)
  }

  function ClosedRow(row: TraceRow, endedAt: nat, outcome: TraceOutcome, account: Option<Id>, status: int): TraceRow {
    TraceRow(row.inbound, row.startedAt, Some(endedAt), Some(outcome), account, Some(status))
  }

  function ServedRow(row: TraceRow, r: Request, account: Id): TraceRow {
    ClosedRow(row, r.endedAt, Success, Some(account), 200)
  }

  function FailedRow(row: TraceRow, r: Request, account: Option<Id>, e: GozarError): TraceRow {
    ClosedRow(row, r.endedAt, OutcomeForError(e), account, StatusCode(e))
  }

  /** What a finished request's row says: a served one success, its account and 200; a failed one
      what its error means, and the account only when a stream had been opened on it. */
  lemma RowsSay(row: TraceRow, r: Request, account: Option<Id>, e: GozarError)
    ensures account.Some? ==>
              ServedRow(row, r, account.value)
              == TraceRow(row.inbound, row.startedAt, Some(r.endedAt), Some(Success), account, Some(200))
    ensures var failed := FailedRow(row, r, account, e);
            && failed.inbound == row.inbound && failed.startedAt == row.startedAt
            && failed.endedAt == Some(r.endedAt) && failed.accountId == account
            && (failed.outcome == Some(NoAccount) <==> e.kind == NoAvailable)
            && (failed.outcome == Some(AllFallbacksFailed) <==> e.kind == UpstreamFailed)
            && failed.outcome != Some(Success)
            && (failed.statusCode == Some(401) <==> e.kind == AuthFailed)
            && (failed.statusCode == Some(429) <==> e.kind == RateLimited)
            && (failed.statusCode == Some(502) <==> e.kind == UpstreamFailed)
            && (failed.statusCode == Some(503) <==> e.kind == NoAvailable)
  {
  }

  /** What a refused request's client and trace are told. */
  lemma RefusalSays(refusal: Refusal)
    ensures var e := RefusalError(refusal);
            match refusal
            case BadToken => StatusCode(e) == 401 && OutcomeForError(e) == ClientError
            case OverLimit => StatusCode(e) == 429 && OutcomeForError(e) == ClientError
            case _ => StatusCode(e) == 503 && OutcomeForError(e) == NoAccount
  {
  }

  /** And one whose every attempt failed. */
  lemma ExhaustionSays(last: Option<GozarError>)
    ensures var e := ExhaustedError(last);
            && StatusCode(e) == 502 && OutcomeForError(e) == AllFallbacksFailed
            && e.upstreamStatus == if last.Some? then last.value.upstreamStatus else None
  {
  }

  datatype TraceOp = Opened(id: Id) | Finalized(id: Id, outcome: TraceOutcome)

  datatype UsageCounts = UsageCounts(prompt: nat, completion: nat, total: nat)

  /** All-zero counts mean the provider reported none. */
  function EventFor(correlationId: Id, tokenId: Id, accountId: Id, provider: string, c: UsageCounts): UsageEvent {
    if c == UsageCounts(0, 0, 0) then UsageEvent(correlationId, tokenId, accountId, provider, None, None, None)
    else UsageEvent(correlationId, tokenId, accountId, provider, Some(c.prompt), Some(c.completion), Some(c.total))
  }

  /** What a request's event is stored as: the reported counts, or zeros and a flag. */
  lemma EventIsStored(correlationId: Id, tokenId: Id, accountId: Id, provider: string, c: UsageCounts, now: nat)
    ensures var row := ResolveCounts(EventFor(correlationId, tokenId, accountId, provider, c), now);
            && row.Some? && row.value.accountId == accountId && row.value.clientTokenId == tokenId
            && row.value.promptTokens == c.prompt && row.value.completionTokens == c.completion
            && row.value.totalTokens == c.total
            && (row.value.meteringMissing <==> c == UsageCounts(0, 0, 0))
  {
  }

  /** The log record of a served request. */
  function RecordFor(r: Request, tokenId: Id, accountId: Id, provider: string, c: UsageCounts): (row: UsageRecord)
    ensures row.clientTokenId == tokenId && row.accountId == accountId && row.provider == provider
    ensures row.correlationId == r.correlationId && row.createdAt == r.now
    ensures row.promptTokens == c.prompt && row.completionTokens == c.completion && row.totalTokens == c.total
    ensures row.meteringMissing <==> c == UsageCounts(0, 0, 0)
  {
    EventIsStored(r.correlationId, tokenId, accountId, provider, c, r.now);
    ResolveCounts(EventFor(r.correlationId, tokenId, accountId, provider, c), r.now).value
  }

  /** The answers the nodes of an order meet; `upstream(i, t)` is what the i-th attempt meets. */
  function Scripts<A>(order: seq<RoutingTarget>,
                      upstream: (nat, RoutingTarget) -> NodeScript<A>): (scripts: seq<NodeScript<A>>)
    ensures |scripts| == |order| && forall i: nat | i < |order| :: scripts[i] == upstream(i, order[i])
  {
    seq(|order|, i requires 0 <= i < |order| => upstream(i, order[i]))
  }

  /** How each node answers, in attempt order. */
  function Outcomes<A>(scripts: seq<NodeScript<A>>): seq<Result<Served<A>, GozarError>> {
    seq(|scripts|, i requires 0 <= i < |scripts| => CallWithReactiveRefresh(scripts[i]).0)
  }

  function ParsedOutcome<A, P>(s: NodeScript<A>, parse: A -> Option<P>): Result<Served<P>, GozarError> {
    var r := CallWithReactiveRefresh(s).0;
    if r.Err? then Err(r.error)
    else
      var parsed := parse(r.value.answer);
      if parsed.Some? then Ok(Served(r.value.provider, parsed.value, r.value.refreshed))
      else Err(GozarError(UpstreamFailed, None, "upstream provider returned an invalid embeddings response"))
  }

  function ParsedOutcomes<A, P>(scripts: seq<NodeScript<A>>,
                                parse: A -> Option<P>): seq<Result<Served<P>, GozarError>> {
    seq(|scripts|, i requires 0 <= i < |scripts| => ParsedOutcome(scripts[i], parse))
  }

  /** An embeddings answer that does not parse fails its node as an upstream failure without a
      status, so that a strict edge lets it pass; everything else is the buffered call's. */
  lemma UnparsableFails<A, P>(s: NodeScript<A>, parse: A -> Option<P>)
    ensures var call, parsed := CallWithReactiveRefresh(s).0, ParsedOutcome(s, parse);
            && (call.Err? ==> parsed == Err(call.error))
            && (call.Ok? && parse(call.value.answer).Some? ==>
                  parsed.Ok? && parsed.value.answer == parse(call.value.answer).value
                  && parsed.value.provider == call.value.provider && parsed.value.refreshed == call.value.refreshed)
            && (call.Ok? && parse(call.value.answer).None? ==>
                  parsed.Err? && parsed.error.kind == UpstreamFailed && parsed.error.upstreamStatus == None
                  && AllowsFallback(Retryable, parsed.error))
  {
  }

  /** The nodes whose account the snapshots know and whose provider has an embeddings
      endpoint. */
  predicate EmbeddingCapable(providers: map<Id, string>, supports: string -> bool, account: Id) {
    account in providers && supports(providers[account])
  }

  function CapableTargets(targets: seq<RoutingTarget>, providers: map<Id, string>,
                          supports: string -> bool): seq<RoutingTarget> {
    Filter(targets, (t: RoutingTarget) => EmbeddingCapable(providers, supports, t.accountId))
  }

  /** The providers of the credentials, as their snapshots name them. */
  function ProvidersOf(credentials: map<Id, Credential>): map<Id, string> {
    map account | account in credentials :: credentials[account].provider
  }

  /** A node is tried for embeddings when its account is known and its provider has the
      endpoint. */
  lemma CapableAre(targets: seq<RoutingTarget>, credentials: map<Id, Credential>, supports: string -> bool,
                   t: RoutingTarget)
    ensures t in CapableTargets(targets, ProvidersOf(credentials), supports)
       <==> t in targets && t.accountId in credentials && supports(credentials[t.accountId].provider)
  {
  }

  // --- The two fallback loops ------------------------------------------------

  method ChatLoop<A(!new)>(order: seq<RoutingTarget>, scripts: seq<NodeScript<A>>, trace: PipelineTrace)
    returns (n: nat, result: Result<Served<A>, GozarError>, calls: nat)
    requires |scripts| == |order| && trace.Fresh()
    modifies trace
    ensures IsRun(order, Outcomes(scripts), n) && trace.Holds(order, Outcomes(scripts), n)
    ensures n <= |scripts| && calls == UpstreamCalls(scripts, n)
    ensures result == RunResult(Outcomes(scripts), n)
    ensures result.Ok? ==> 0 < n <= |scripts| && trace.attempts[n - 1].outcome == Succeeded(result.value.refreshed)
  {
    hide CallWithReactiveRefresh, TokenRejected;
    var lastError: Option<GozarError> := None;
    n, calls := 0, 0;
    while n < |order|
      invariant n <= |order| && calls == UpstreamCalls(scripts, n) && trace.SoFar(order, Outcomes(scripts), n)
      invariant lastError == if n == 0 then None else Some(Outcomes(scripts)[n - 1].error)
    {
      var target := order[n];
      var (outcome, made) := CallWithReactiveRefresh(scripts[n]);
      calls := calls + made;
      assert outcome == Outcomes(scripts)[n];
      n := n + 1;
      if outcome.Err? {
        lastError := Some(outcome.error);
        var allowed := AllowsFallback(target.policy, outcome.error);
        trace.RecordFailed(target, outcome.error, allowed && n - 1 < |order| - 1);
        if !allowed {
          break;
        }
      } else {
        trace.RecordSuccessful(target, outcome.value.refreshed);
        result := outcome;
        return;
      }
    }
    result := Err(ExhaustedError(lastError));
  }

  method EmbeddingsLoop<A(!new), P(!new)>(capable: seq<RoutingTarget>, scripts: seq<NodeScript<A>>,
                                          parse: A -> Option<P>,
                                          trace: PipelineTrace)
    returns (n: nat, result: Result<Served<P>, GozarError>, calls: nat)
    requires |scripts| == |capable| && trace.Fresh()
    modifies trace
    ensures IsRun(capable, ParsedOutcomes(scripts, parse), n) && trace.Holds(capable, ParsedOutcomes(scripts, parse), n)
    ensures n <= |scripts| && calls == UpstreamCalls(scripts, n)
    ensures result == RunResult(ParsedOutcomes(scripts, parse), n)
    ensures result.Ok? ==> 0 < n <= |scripts| && trace.attempts[n - 1].outcome == Succeeded(result.value.refreshed)
  {
    hide ParsedOutcome, TokenRejected;
    var lastError: Option<GozarError> := None;
    n, calls := 0, 0;
    while n < |capable|
      invariant n <= |capable| && calls == UpstreamCalls(scripts, n)
                && trace.SoFar(capable, ParsedOutcomes(scripts, parse), n)
      invariant lastError == if n == 0 then None else Some(ParsedOutcomes(scripts, parse)[n - 1].error)
    {
      var target := capable[n];
      var outcome := ParsedOutcome(scripts[n], parse);
      calls := calls + CallWithReactiveRefresh(scripts[n]).1;
      assert outcome == ParsedOutcomes(scripts, parse)[n];
      n := n + 1;
      if outcome.Err? {
        lastError := Some(outcome.error);
        var allowed := AllowsFallback(target.policy, outcome.error);
        trace.RecordFailed(target, outcome.error, allowed && n - 1 < |capable| - 1);
        if !allowed {
          break;
        }
      } else {
        trace.RecordSuccessful(target, outcome.value.refreshed);
        result := outcome;
        return;
      }
    }
    result := Err(ExhaustedError(lastError));
  }

  /** The embeddings lane's capable nodes, in order. */
  method SelectCapable(targets: seq<RoutingTarget>, providers: map<Id, string>, supports: string -> bool)
    returns (capable: seq<RoutingTarget>)
    ensures capable == CapableTargets(targets, providers, supports)
  {
    capable := [];
    for i := 0 to |targets|
      invariant capable == CapableTargets(targets[..i], providers, supports)
    {
      FilterSnoc(targets, i, (t: RoutingTarget) => EmbeddingCapable(providers, supports, t.accountId));
      var target := targets[i];
      if target.accountId in providers {
        if supports(providers[target.accountId]) {
          capable := capable + [target];
        }
      }
    }
    assert targets[..|targets|] == targets;
  }

  /** Select the capable nodes and run the machine over them. */
  method EmbeddingAttempts<A(!new), P(!new)>(order: seq<RoutingTarget>, providers: map<Id, string>,
                                             supports: string -> bool,
                                             upstream: (nat, RoutingTarget) -> NodeScript<A>, parse: A -> Option<P>,
                                             trace: PipelineTrace)
    returns (n: nat, served: Result<Served<P>, GozarError>, account: Id, calls: nat)
    requires trace.Fresh()
    modifies trace
    ensures var capable := CapableTargets(order, providers, supports);
            var scripts := Scripts(capable, upstream);
            var outcomes := ParsedOutcomes(scripts, parse);
            && IsRun(capable, outcomes, n) && trace.Holds(capable, outcomes, n) && calls == UpstreamCalls(scripts, n)
            && (capable == [] ==> served.Err? && served.error.kind.NoAvailable? && RunResult(outcomes, n).Err?)
            && (capable != [] ==> served == RunResult(outcomes, n))
            && (served.Ok? ==>
                  && 0 < n <= |capable| && account == capable[n - 1].accountId
                  && trace.attempts[n - 1].outcome == Succeeded(served.value.refreshed))
  {
    n, account, calls := 0, "", 0;
    var capable := SelectCapable(order, providers, supports);
    if capable == [] {
      served := Err(GozarError(NoAvailable, None, "the selected chain needs an active embeddings-capable credential"));
      return;
    }
    n, served, calls := EmbeddingsLoop(capable, Scripts(capable, upstream), parse, trace);
    account := capable[n - 1].accountId;
  }

  class Gateway {
    var traces: map<Id, TraceRow>
    ghost var history: seq<TraceOp>
    const router: Router

    ghost predicate Valid()
      reads router, router.tokens, router.recorder, router.tables
    {
      router.Valid()
    }

    constructor (router: Router)
      requires router.Valid()
      ensures Valid() && traces == map[] && history == [] && this.router == router
    {
      traces, history := map[], [];
      this.router := router;
    }

    method OpenTrace(id: Id, inbound: InboundMeta, now: nat)
      modifies this`traces, this`history
      ensures traces == old(traces)[id := TraceRow(inbound, now, None, None, None, None)]
      ensures history == old(history) + [Opened(id)]
    {
      traces := traces[id := OpenRow(inbound, now)];
      history := history + [Opened(id)];
    }

    /** Note the effective chain on an open trace row. */
    method SetTraceChain(id: Id, chain: Option<nat>)
      requires id in traces
      modifies this`traces
      ensures traces == old(traces)[id := old(traces)[id].(inbound := old(traces)[id].inbound.(chainId := chain))]
    {
      traces := traces[id := traces[id].(inbound := traces[id].inbound.(chainId := chain))];
    }

    /** Complete an open trace row. */
    method FinalizeTrace(id: Id, outcome: TraceOutcome, status: int, account: Option<Id>, endedAt: nat)
      requires id in traces
      modifies this`traces, this`history
      ensures traces == old(traces)[id := TraceRow(old(traces)[id].inbound, old(traces)[id].startedAt, Some(endedAt),
                                                   Some(outcome), account, Some(status))]
      ensures history == old(history) + [Finalized(id, outcome)]
    {
      traces := traces[id := ClosedRow(traces[id], endedAt, outcome, account, status)];
      history := history + [Finalized(id, outcome)];
    }

    /** The trace row of a request once it is routed. */
    ghost function RoutedRow(r: Request, kind: RouteKind, stream: bool): TraceRow
      requires 23 * HOUR <= r.now
      reads router, router.tokens, router.recorder, router.tables
    {
      OpenRow(InboundMeta(kind, r.model, stream, r.sessionId, router.TracedChain(r, kind)), r.now)
    }

    /** Metered once: the log and the counters gained this record and nothing else. */
    twostate predicate Metered(r: Request, tokenId: Id, account: Id, provider: string, counts: UsageCounts)
      reads router.recorder
    {
      router.recorder.log
        == old(router.recorder.log) + [Entry(RecordFor(r, tokenId, account, provider, counts), r.executedAt)]
    }

    /** The session is bound to the account, if the request names one. */
    twostate predicate BoundTo(r: Request, account: Id, kind: RouteKind)
      reads router.sessions
    {
      router.sessions.bindings == if r.sessionId == [] then old(router.sessions.bindings)
        else old(router.sessions.bindings)[SessionKey(r.sessionId, kind) := Binding(account, r.bindAt + r.sessionTtl)]
    }

    twostate predicate UsageUnchanged()
      reads router.recorder, router.sessions
    {
      && router.recorder.log == old(router.recorder.log) && router.recorder.store == old(router.recorder.store)
      && router.recorder.records == old(router.recorder.records)
      && router.sessions.bindings == old(router.sessions.bindings)
    }

    /** The successful end of a request: meter it, bind its session, close its trace. */
    method Complete(r: Request, tokenId: Id, account: Id, provider: string, counts: UsageCounts, kind: RouteKind)
      requires Valid() && r.correlationId in traces
      modifies this`traces, this`history, router.recorder, router.sessions
      ensures Valid() && Metered(r, tokenId, account, provider, counts) && BoundTo(r, account, kind)
      ensures traces == old(traces)[r.correlationId := ServedRow(old(traces)[r.correlationId], r, account)]
      ensures history == old(history) + [Finalized(r.correlationId, Success)]
    {
      hide *;
      MeterAndBind(r, tokenId, account, provider, counts, kind);
      CloseServed(r, account);
    }

    method CloseServed(r: Request, account: Id)
      requires r.correlationId in traces
      modifies this`traces, this`history
      ensures traces == old(traces)[r.correlationId := ServedRow(old(traces)[r.correlationId], r, account)]
      ensures history == old(history) + [Finalized(r.correlationId, Success)]
    {
      FinalizeTrace(r.correlationId, Success, 200, Some(account), r.endedAt);
    }

    method MeterAndBind(r: Request, tokenId: Id, account: Id, provider: string, counts: UsageCounts, kind: RouteKind)
      requires Valid()
      modifies router.recorder, router.sessions
      ensures Valid() && Metered(r, tokenId, account, provider, counts) && BoundTo(r, account, kind)
    {
      EventIsStored(r.correlationId, tokenId, account, provider, counts, r.now);
      hide EventFor, ResolveCounts, SessionKey, UsageRecorder.Valid, Tokens.TokenTable.Valid,
        Tables.ChainTables.Valid, Router.ChainsKnown;
      var _ := router.recorder.RecordUsage(EventFor(r.correlationId, tokenId, account, provider, counts), r.now,
                                           r.executedAt);
      router.sessions.Record(r.sessionId, account, kind, r.bindAt, r.sessionTtl);
    }

    /** Nothing but the trace log changed, and it gained this one failed request. */
    twostate predicate OnlyTraced(r: Request, kind: RouteKind, stream: bool, e: GozarError)
      requires 23 * HOUR <= r.now
      reads this, router, router.tokens, router.recorder, router.tables, router.sessions
    {
      && UsageUnchanged()
      && traces == old(traces)[r.correlationId := FailedRow(old(RoutedRow(r, kind, stream)), r, None, e)]
      && history == old(history) + [Opened(r.correlationId), Finalized(r.correlationId, OutcomeForError(e))]
    }

    /** The request was served by `account`: metered once for it, its session bound to it,
        its trace closed as a success. */
    twostate predicate ServedBy(r: Request, tokenId: Id, account: Id, provider: string, counts: UsageCounts,
                                kind: RouteKind, stream: bool)
      requires 23 * HOUR <= r.now
      reads this, router, router.tokens, router.recorder, router.tables, router.sessions
    {
      && Metered(r, tokenId, account, provider, counts) && BoundTo(r, account, kind)
      && traces == old(traces)[r.correlationId := ServedRow(old(RoutedRow(r, kind, stream)), r, account)]
      && history == old(history) + [Opened(r.correlationId), Finalized(r.correlationId, Success)]
    }

    /** The terminal failure of a request whose trace is open. */
    method Fail(r: Request, e: GozarError)
      requires r.correlationId in traces
      modifies this`traces, this`history
      ensures traces == old(traces)[r.correlationId := FailedRow(old(traces)[r.correlationId], r, None, e)]
      ensures history == old(history) + [Finalized(r.correlationId, OutcomeForError(e))]
    {
      FinalizeTrace(r.correlationId, OutcomeForError(e), StatusCode(e), None, r.endedAt);
    }

    /** Decide on a request; nothing is written. */
    method Decide(r: Request, kind: RouteKind, stream: bool)
      returns (plan: Result<RoutePlan, GozarError>, chain: Option<nat>)
      requires Valid() && 23 * HOUR <= r.now
      ensures router.DecidesRightly(r, kind) && plan == Decided(router.Decision(r, kind))
      ensures RoutedRow(r, kind, stream)
              == OpenRow(InboundMeta(kind, r.model, stream, r.sessionId, chain), r.now)
    {
      router.DecisionIsRight(r, kind);
      hide Router.Decision, Router.DecidesRightly, Router.TracedChain, Router.Valid;
      plan, chain := router.AuthenticateAndRoute(r, kind);
    }

    /** Open the trace of a request and note its chain. */
    method OpenRouted(r: Request, kind: RouteKind, stream: bool, chain: Option<nat>)
      modifies this`traces, this`history
      ensures traces == old(traces)[r.correlationId :=
                OpenRow(InboundMeta(kind, r.model, stream, r.sessionId, chain), r.now)]
      ensures history == old(history) + [Opened(r.correlationId)]
    {
      OpenTrace(r.correlationId, InboundMeta(kind, r.model, stream, r.sessionId, r.chainOverride), r.now);
      SetTraceChain(r.correlationId, chain);
    }

    /** A request arrives: it is decided on, and its trace is opened and told the chain. */
    method Begin(r: Request, kind: RouteKind, stream: bool) returns (plan: Result<RoutePlan, GozarError>)
      requires Valid() && 23 * HOUR <= r.now
      modifies this`traces, this`history
      ensures old(router.DecidesRightly(r, kind)) && plan == Decided(old(router.Decision(r, kind)))
      ensures traces == old(traces)[r.correlationId := old(RoutedRow(r, kind, stream))]
      ensures history == old(history) + [Opened(r.correlationId)]
    {
      hide *;
      var chain;
      plan, chain := Decide(r, kind, stream);
      OpenRouted(r, kind, stream, chain);
    }

    /** A routed request ends: served, it is metered, bound and closed as a success; failed,
        only its trace is closed. */
    method Settle<A>(r: Request, tokenId: Id, account: Id, served: Result<Served<A>, GozarError>,
                     counts: A -> UsageCounts,
                     kind: RouteKind)
      requires Valid() && r.correlationId in traces
      modifies this`traces, this`history, router.recorder, router.sessions
      ensures Valid()
      ensures served.Ok? ==>
        Metered(r, tokenId, account, served.value.provider, counts(served.value.answer)) && BoundTo(r, account, kind)
      ensures served.Err? ==> UsageUnchanged()
      ensures traces == old(traces)[r.correlationId :=
        if served.Ok? then ServedRow(old(traces)[r.correlationId], r, account)
        else FailedRow(old(traces)[r.correlationId], r, None, served.error)]
      ensures history
              == old(history)
                 + [Finalized(r.correlationId, if served.Ok? then Success else OutcomeForError(served.error))]
    {
      if served.Ok? {
        Complete(r, tokenId, account, served.value.provider, counts(served.value.answer), kind);
      } else {
        Fail(r, served.error);
      }
    }

    /** The twostate facts of a routed request's end, from an open trace. */
    twostate predicate Ended(r: Request, tokenId: Id, account: Id, provider: string, counts: UsageCounts,
                             kind: RouteKind, error: Option<GozarError>)
      requires r.correlationId in old(traces)
      reads this, router.recorder, router.sessions
    {
      && (if error.None? then Metered(r, tokenId, account, provider, counts) && BoundTo(r, account, kind)
          else UsageUnchanged())
      && traces == old(traces)[r.correlationId :=
           if error.None? then ServedRow(old(traces)[r.correlationId], r, account)
           else FailedRow(old(traces)[r.correlationId], r, None, error.value)]
      && history
         == old(history) + [Finalized(r.correlationId, if error.None? then Success else OutcomeForError(error.value))]
    }

    /** What a chat request over these nodes did and answers. */
    ghost predicate ChatRun<A(!new), R>(order: seq<RoutingTarget>, scripts: seq<NodeScript<A>>, n: nat, calls: nat,
                                        trace: PipelineTrace, translate: A -> R, result: Result<R, GozarError>)
      reads trace
    {
      var outcomes := Outcomes(scripts);
      && |scripts| == |order| && IsRun(order, outcomes, n) && trace.Holds(order, outcomes, n)
      && calls == UpstreamCalls(scripts, n)
      && result == (match RunResult(outcomes, n) case Ok(served) => Ok(translate(served.answer)) case Err(e) => Err(e))
      && (result.Ok? ==> 0 < n && trace.attempts[n - 1].outcome == Succeeded(outcomes[n - 1].value.refreshed))
    }

    /** Run the chat machine over a plan and settle the request. */
    method RunChat<A(!new), R>(r: Request, plan: RoutePlan, upstream: (nat, RoutingTarget) -> NodeScript<A>,
                               translate: A -> R, counts: A -> UsageCounts, trace: PipelineTrace)
      returns (result: Result<R, GozarError>, calls: nat, ghost n: nat)
      requires Valid() && trace.Fresh() && r.correlationId in traces
      modifies this`traces, this`history, router.recorder, router.sessions, trace
      ensures Valid() && ChatRun(plan.order, Scripts(plan.order, upstream), n, calls, trace, translate, result)
      ensures result.Err? ==> Ended(r, "", "", "", UsageCounts(0, 0, 0), Chat, Some(result.error))
      ensures result.Ok? ==> (
        var served := Outcomes(Scripts(plan.order, upstream))[n - 1].value;
        Ended(r, plan.tokenId, plan.order[n - 1].accountId, served.provider, counts(served.answer), Chat, None))
    {
      hide Router.Valid, IsRun, Traces, StatusCode, OutcomeForError, RecordFor, UpstreamCalls;
      var attempted, served, made := ChatLoop(plan.order, Scripts(plan.order, upstream), trace);
      n, calls := attempted, made;
      var account := if served.Ok? then plan.order[attempted - 1].accountId else "";
      Settle(r, plan.tokenId, account, served, counts, Chat);
      result := if served.Ok? then Ok(translate(served.value.answer)) else Err(served.error);
    }

    /** A non-streaming chat completion. It is admitted or refused by the router on the state
        it arrives in. Refused, it attempts nothing. Admitted, it is a run of the fallback
        machine over the planned nodes, of at most two upstream calls each; success exactly
        when the last attempted node served, and then one log record and any session binding
        for that node's account. Otherwise only its trace changed. */
    method CompleteChat<A(!new), R>(r: Request, upstream: (nat, RoutingTarget) -> NodeScript<A>,
                                    translate: A -> R, counts: A -> UsageCounts, trace: PipelineTrace)
      returns (result: Result<R, GozarError>, calls: nat, ghost n: nat)
      requires Valid() && 23 * HOUR <= r.now && trace.Fresh()
      modifies this`traces, this`history, router.recorder, router.sessions, trace
      ensures Valid() && old(router.DecidesRightly(r, Chat))
      ensures var decision := old(router.Decision(r, Chat));
        (decision.Err? ==> result == Err(RefusalError(decision.error)) && n == 0 && calls == 0 && trace.Fresh())
      ensures var decision := old(router.Decision(r, Chat));
        (decision.Ok? ==>
          ChatRun(decision.value.order, Scripts(decision.value.order, upstream), n, calls, trace, translate, result))
      ensures result.Ok? ==> old(router.Decision(r, Chat)).Ok?
      ensures result.Ok? ==> (
        var plan := old(router.Decision(r, Chat)).value;
        var served := Outcomes(Scripts(plan.order, upstream))[n - 1].value;
        ServedBy(r, plan.tokenId, plan.order[n - 1].accountId, served.provider, counts(served.answer), Chat,
                 r.stream))
      ensures result.Err? ==> OnlyTraced(r, Chat, r.stream, result.error)
    {
      hide Router.Decision, Router.DecidesRightly, Router.Valid, StatusCode, OutcomeForError, RecordFor, ChatRun,
        Outcomes, Scripts, ServedRow, FailedRow, ClosedRow, OpenRow;
      n, calls := 0, 0;
      var plan := Begin(r, Chat, r.stream);
      if plan.Err? {
        Fail(r, plan.error);
        result := Err(plan.error);
      } else {
        result, calls, n := RunChat(r, plan.value, upstream, translate, counts, trace);
      }
    }

    /** What an embeddings request over these nodes did and answers. */
    ghost predicate EmbeddingRun<A(!new), P(!new)>(capable: seq<RoutingTarget>, scripts: seq<NodeScript<A>>, n: nat,
                                                   calls: nat,
                                                   trace: PipelineTrace, parse: A -> Option<P>,
                                                   result: Result<P, GozarError>)
      reads trace
    {
      var outcomes := ParsedOutcomes(scripts, parse);
      && |scripts| == |capable| && IsRun(capable, outcomes, n) && trace.Holds(capable, outcomes, n)
      && calls == UpstreamCalls(scripts, n)
      && (if capable == [] then result.Err? && result.error.kind.NoAvailable?
          else result == (match RunResult(outcomes, n) case Ok(served) => Ok(served.answer) case Err(e) => Err(e)))
      && (result.Ok? ==> 0 < n && trace.attempts[n - 1].outcome == Succeeded(outcomes[n - 1].value.refreshed))
    }

    /** Run the embeddings machine over a plan and settle the request. */
    method RunEmbedding<A(!new), P(!new)>(r: Request, plan: RoutePlan, supports: string -> bool,
                                          upstream: (nat, RoutingTarget) -> NodeScript<A>, parse: A -> Option<P>,
                                          counts: P -> UsageCounts, trace: PipelineTrace)
      returns (result: Result<P, GozarError>, calls: nat, ghost n: nat)
      requires Valid() && trace.Fresh() && r.correlationId in traces
      modifies this`traces, this`history, router.recorder, router.sessions, trace
      ensures Valid()
      ensures var capable := CapableTargets(plan.order, ProvidersOf(router.credentials), supports);
              EmbeddingRun(capable, Scripts(capable, upstream), n, calls, trace, parse, result)
      ensures result.Err? ==> Ended(r, "", "", "", UsageCounts(0, 0, 0), Embeddings, Some(result.error))
      ensures result.Ok? ==> (
        var capable := CapableTargets(plan.order, ProvidersOf(router.credentials), supports);
        var served := ParsedOutcomes(Scripts(capable, upstream), parse)[n - 1].value;
        Ended(r, plan.tokenId, capable[n - 1].accountId, served.provider, counts(served.answer), Embeddings, None))
    {
      hide Router.Valid, IsRun, Traces, StatusCode, OutcomeForError, RecordFor, UpstreamCalls, CapableTargets,
        ParsedOutcome;
      var attempted, served, account, made :=
        EmbeddingAttempts(plan.order, ProvidersOf(router.credentials), supports, upstream, parse, trace);
      n, calls := attempted, made;
      Settle(r, plan.tokenId, account, served, counts, Embeddings);
      result := if served.Ok? then Ok(served.value.answer) else Err(served.error);
    }

    /** An embeddings request: routed through the embeddings lane, then the same machine over
        the capable nodes, where an answer that does not parse is one more failed attempt. */
    method CompleteEmbedding<A(!new), P(!new)>(r: Request, supports: string -> bool,
                                               upstream: (nat, RoutingTarget) -> NodeScript<A>, parse: A -> Option<P>,
                                               counts: P -> UsageCounts, trace: PipelineTrace)
      returns (result: Result<P, GozarError>, calls: nat, ghost n: nat)
      requires Valid() && 23 * HOUR <= r.now && trace.Fresh()
      modifies this`traces, this`history, router.recorder, router.sessions, trace
      ensures Valid() && old(router.DecidesRightly(r, Embeddings))
      ensures var decision := old(router.Decision(r, Embeddings));
        (decision.Err? ==> result == Err(RefusalError(decision.error)) && n == 0 && calls == 0 && trace.Fresh())
      ensures var decision := old(router.Decision(r, Embeddings));
        (decision.Ok? ==>
          var capable := CapableTargets(decision.value.order, ProvidersOf(old(router.credentials)), supports);
          EmbeddingRun(capable, Scripts(capable, upstream), n, calls, trace, parse, result))
      ensures result.Ok? ==> old(router.Decision(r, Embeddings)).Ok?
      ensures result.Ok? ==> (
        var plan := old(router.Decision(r, Embeddings)).value;
        var capable := CapableTargets(plan.order, ProvidersOf(old(router.credentials)), supports);
        var served := ParsedOutcomes(Scripts(capable, upstream), parse)[n - 1].value;
        ServedBy(r, plan.tokenId, capable[n - 1].accountId, served.provider, counts(served.answer), Embeddings,
                 false))
      ensures result.Err? ==> OnlyTraced(r, Embeddings, false, result.error)
    {
      hide Router.Decision, Router.DecidesRightly, Router.Valid, StatusCode, OutcomeForError, RecordFor, EmbeddingRun,
        ParsedOutcomes, CapableTargets, ProvidersOf;
      n, calls := 0, 0;
      var plan := Begin(r, Embeddings, false);
      if plan.Err? {
        Fail(r, plan.error);
        result := Err(plan.error);
      } else {
        result, calls, n := RunEmbedding(r, plan.value, supports, upstream, parse, counts, trace);
      }
    }
  }

  /** A chat request of a session and the next one of it: if the first is served and the
      second comes within the binding's life and is admitted, it tries the usable nodes of the
      account that served the first before all others. */
  method ChatThenChat<A(!new), R>(gw: Gateway, r: Request, next: Request,
                                  upstream: (nat, RoutingTarget) -> NodeScript<A>, translate: A -> R,
                                  counts: A -> UsageCounts, trace: PipelineTrace)
    returns (result: Result<R, GozarError>, plan: Result<RoutePlan, GozarError>, ghost n: nat)
    requires gw.Valid() && 23 * HOUR <= r.now && 23 * HOUR <= next.now && trace.Fresh()
    requires next.sessionId == r.sessionId != [] && next.lookupAt < r.bindAt + r.sessionTtl
    modifies gw`traces, gw`history, gw.router.recorder, gw.router.sessions, trace
    ensures var decision := old(gw.router.Decision(r, Chat));
            result.Ok? ==> decision.Ok? && 0 < n <= |decision.value.order|
    ensures result.Ok? && plan.Ok? ==>
      var account := old(gw.router.Decision(r, Chat)).value.order[n - 1].accountId;
      plan.value.order == Mine(gw.router.UsableNodes(next, Chat), account)
                          + Others(gw.router.UsableNodes(next, Chat), account)
  {
    hide Router.Decision, Router.DecidesRightly, Router.Valid, Router.UsableNodes, Mine, Others, IsRun, Outcomes,
      UpstreamCalls, Scripts;
    ghost var decision := gw.router.Decision(r, Chat);
    var calls;
    result, calls, n := gw.CompleteChat(r, upstream, translate, counts, trace);
    if result.Ok? && gw.router.Decision(next, Chat).Ok? {
      gw.router.SessionSticks(next, Chat, decision.value.order[n - 1].accountId);
    }
    plan := gw.Begin(next, Chat, next.stream);
  }
}
