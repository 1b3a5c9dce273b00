/** Any interleaving of requests at the gateway, as one token's limit sees it. */
module Interleaving {
  import opened Prelude
  import opened Calendar
  import opened Metering
  import opened Limits
  import opened Routing
  import opened Fallback
  import opened Admission
  import opened Pipeline

  /** What happens next at the gateway: a request arrives, or one that is under way ends.
      `own` tells whether it is of the watched token. */
  datatype Act =
    | Arrive(r: Request, kind: RouteKind)
    | Serve(own: bool, i: nat, account: Id, provider: string, counts: UsageCounts)
    | Lose(own: bool, i: nat, error: GozarError)

  /** An admitted request that has not ended. */
  datatype Flying = Flying(r: Request, tokenId: Id, kind: RouteKind)

  function Instants(flying: seq<Flying>): seq<nat> {
    Map(flying, (f: Flying) => f.r.now)
  }

  function Landed(flying: seq<Flying>, i: nat): seq<Flying>
    requires i < |flying|
  {
    flying[..i] + flying[i + 1..]
  }

  lemma InstantsLanded(flying: seq<Flying>, i: nat)
    requires i < |flying|
    ensures i < |Instants(flying)| && Instants(flying)[i] == flying[i].r.now
    ensures Instants(Landed(flying, i)) == Without(Instants(flying), i)
  {
  }

  lemma InstantsMore(flying: seq<Flying>, f: Flying)
    ensures Instants(flying + [f]) == Instants(flying) + [f.r.now]
  {
  }

  lemma RecordIs(r: Request, tokenId: Id, account: Id, provider: string, counts: UsageCounts)
    ensures var row := RecordFor(r, tokenId, account, provider, counts);
            row.clientTokenId == tokenId && row.createdAt == r.now
  {
  }

  /** The gate as the gateway's log and the watched token's requests under way make it. */
  ghost function GateOf(gw: Gateway, mine: seq<Flying>): Gate
    reads gw.router.recorder
  {
    Gate(gw.router.recorder.log, Instants(mine))
  }

  /** The requests under way are the watched token's and others', and their traces are open. */
  ghost predicate Apart(gw: Gateway, id: Id, mine: seq<Flying>, others: seq<Flying>)
    reads gw
  {
    && (forall f | f in mine :: f.tokenId == id && f.r.correlationId in gw.traces)
    && (forall f | f in others :: f.tokenId != id && f.r.correlationId in gw.traces)
  }

  /** The states and events of a run of the gate the gateway has seen to. */
  ghost predicate Chained(states: seq<Gate>, events: seq<Event>, token: Id, spec: ValidLimit) {
    && |states| == |events| + 1
    && forall i | 0 <= i < |events| :: Guarded(states[i], events[i], states[i + 1], token, spec)
  }

  /** A request the router admits has passed its token's check on the counters of the log. */
  lemma AdmittedPassed(router: Router, r: Request, kind: RouteKind, token: nat)
    requires router.Valid() && 23 * HOUR <= r.now && token in router.tokens.limits
    requires router.Decision(r, kind).Ok? && router.Decision(r, kind).value.tokenId == router.tokenText(token)
    ensures var id, spec := router.tokenText(token), router.tokens.limits[token];
            !CounterReached(Replay(router.recorder.log), Token, id, spec, r.now, r.readAt(id))
  {
    hide Router.OrderOf, Router.Lane, Router.ChosenChain, CounterReached, Router.Authenticates,
      Tokens.TokenTable.Valid;
  }

  /** Nothing happened at the gate, or one event it has seen to. */
  ghost predicate Advanced(g: Gate, event: Option<Event>, g': Gate, id: Id, spec: ValidLimit) {
    if event.None? then g' == g else Guarded(g, event.value, g', id, spec)
  }

  /** A request arrives: admitted it is under way, refused its trace is closed. */
  method Arriving(gw: Gateway, r: Request, kind: RouteKind, token: nat, mine: seq<Flying>, others: seq<Flying>)
    returns (mine': seq<Flying>, others': seq<Flying>, ghost event: Option<Event>)
    requires gw.Valid() && token in gw.router.tokens.limits && 23 * HOUR <= r.now
    requires Apart(gw, gw.router.tokenText(token), mine, others)
    modifies gw`traces, gw`history
    ensures Apart(gw, gw.router.tokenText(token), mine', others')
    ensures Advanced(old(GateOf(gw, mine)), event, GateOf(gw, mine'), gw.router.tokenText(token),
                     gw.router.tokens.limits[token])
  {
    hide Router.Decision, Router.DecidesRightly, Router.Valid, Gateway.RoutedRow, CounterReached, Instants;
    mine', others', event := mine, others, None;
    var id := gw.router.tokenText(token);
    if gw.router.Decision(r, kind).Ok? && gw.router.Decision(r, kind).value.tokenId == id {
      AdmittedPassed(gw.router, r, kind, token);
    }
    var plan := gw.Begin(r, kind, r.stream);
    if plan.Err? {
      gw.Fail(r, plan.error);
      return;
    }
    var f := Flying(r, plan.value.tokenId, kind);
    if f.tokenId == id {
      InstantsMore(mine, f);
      mine', event := mine + [f], Some(Admit(r.now, r.readAt(id)));
    } else {
      others' := others + [f];
    }
  }

  /** A request under way is served: one record of its token, stamped with its instant. */
  method Serving(gw: Gateway, f: Flying, account: Id, provider: string, counts: UsageCounts)
    returns (ghost entry: Entry)
    requires gw.Valid() && f.r.correlationId in gw.traces
    modifies gw`traces, gw`history, gw.router.recorder, gw.router.sessions
    ensures gw.Valid() && gw.router.recorder.log == old(gw.router.recorder.log) + [entry]
    ensures gw.traces.Keys == old(gw.traces.Keys)
    ensures entry.record.clientTokenId == f.tokenId && entry.record.createdAt == f.r.now
  {
    hide Gateway.Valid, RecordFor, Gateway.BoundTo;
    RecordIs(f.r, f.tokenId, account, provider, counts);
    entry := Entry(RecordFor(f.r, f.tokenId, account, provider, counts), f.r.executedAt);
    gw.Complete(f.r, f.tokenId, account, provider, counts, f.kind);
  }

  /** One act at the gateway is at most one event of the gate. */
  method Perform(gw: Gateway, act: Act, token: nat, mine: seq<Flying>, others: seq<Flying>)
    returns (mine': seq<Flying>, others': seq<Flying>, ghost event: Option<Event>)
    requires gw.Valid() && token in gw.router.tokens.limits && (act.Arrive? ==> 23 * HOUR <= act.r.now)
    requires Apart(gw, gw.router.tokenText(token), mine, others)
    modifies gw`traces, gw`history, gw.router.recorder, gw.router.sessions
    ensures gw.Valid() && Apart(gw, gw.router.tokenText(token), mine', others')
    ensures Advanced(old(GateOf(gw, mine)), event, GateOf(gw, mine'), gw.router.tokenText(token),
                     gw.router.tokens.limits[token])
  {
    hide Gateway.Valid, Instants, UnderLimit;
    mine', others', event := mine, others, None;
    match act {
      case Arrive(r, kind) =>
        mine', others', event := Arriving(gw, r, kind, token, mine, others);
      case Serve(own, i, account, provider, counts) =>
        if own && i < |mine| {
          ghost var entry := Serving(gw, mine[i], account, provider, counts);
          InstantsLanded(mine, i);
          mine', event := Landed(mine, i), Some(Settle(i, entry));
        } else if !own && i < |others| {
          ghost var entry := Serving(gw, others[i], account, provider, counts);
          others', event := Landed(others, i), Some(Unrelated(entry));
        }
      case Lose(own, i, error) =>
        if own && i < |mine| {
          gw.Fail(mine[i].r, error);
          InstantsLanded(mine, i);
          mine', event := Landed(mine, i), Some(Abandon(i));
        } else if !own && i < |others| {
          gw.Fail(others[i].r, error);
          others' := Landed(others, i);
        }
    }
  }

  /** Over every interleaving of requests at the gateway, of this token and of any others, the
      log is that of a run of the gate. So if its surroundings keep time, no request adds more
      than `most`, and never more than `k` requests of the token are under way, its consumption
      of any period stays below the limit plus `k` requests' worth. */
  method Interleave(gw: Gateway, acts: seq<Act>, token: nat, ghost most: nat, ghost k: nat)
    returns (mine: seq<Flying>, others: seq<Flying>, ghost states: seq<Gate>, ghost events: seq<Event>)
    requires gw.Valid() && token in gw.router.tokens.limits && gw.router.recorder.log == []
    requires forall act | act in acts && act.Arrive? :: 23 * HOUR <= act.r.now
    modifies gw`traces, gw`history, gw.router.recorder, gw.router.sessions
    ensures gw.Valid() && Chained(states, events, gw.router.tokenText(token), gw.router.tokens.limits[token])
    ensures states[0] == Gate([], []) && states[|events|] == GateOf(gw, mine)
    ensures var id, spec := gw.router.tokenText(token), gw.router.tokens.limits[token];
            (forall i | 0 <= i < |events| :: Timed(states[i], events[i], states[i + 1], id, spec, most))
            && (forall i | 0 <= i < |states| :: |states[i].flight| <= k) && Threshold(spec) > 0.0 ==>
              forall t: nat ::
                Consumed(gw.router.recorder.log, Token, id, spec, t) as real < Threshold(spec) + (k * most) as real
  {
    hide Gateway.Valid, Guarded, Timed, Instants, Consumed, Threshold;
    ghost var id, spec := gw.router.tokenText(token), gw.router.tokens.limits[token];
    mine, others, events := [], [], [];
    assert Instants([]) == [] by { NoInstants(); }
    states := [GateOf(gw, [])];
    for n := 0 to |acts|
      invariant gw.Valid() && Apart(gw, id, mine, others) && Chained(states, events, id, spec)
      invariant states[0] == Gate([], []) && states[|events|] == GateOf(gw, mine)
    {
      ghost var event;
      mine, others, event := Perform(gw, acts[n], token, mine, others);
      if event.Some? {
        events, states := events + [event.value], states + [GateOf(gw, mine)];
      }
    }
    GatewayOvershoot(states, events, id, spec, most, k);
  }

  lemma NoInstants()
    ensures Instants([]) == []
  {
  }

  lemma GatewayOvershoot(states: seq<Gate>, events: seq<Event>, id: Id, spec: ValidLimit, most: nat, k: nat)
    requires Chained(states, events, id, spec) && states[0] == Gate([], [])
    ensures (forall i | 0 <= i < |events| :: Timed(states[i], events[i], states[i + 1], id, spec, most))
            && (forall i | 0 <= i < |states| :: |states[i].flight| <= k) && Threshold(spec) > 0.0 ==>
              forall t: nat ::
                Consumed(states[|events|].log, Token, id, spec, t) as real < Threshold(spec) + (k * most) as real
  {
    hide Guarded, Timed, Consumed, Threshold;
    if (forall i | 0 <= i < |events| :: Timed(states[i], events[i], states[i + 1], id, spec, most))
       && (forall i | 0 <= i < |states| :: |states[i].flight| <= k) && Threshold(spec) > 0.0 {
      forall t: nat
        ensures Consumed(states[|events|].log, Token, id, spec, t) as real < Threshold(spec) + (k * most) as real
      {
        ConcurrentOvershoot(states, events, id, spec, most, k, |events|, t);
      }
    }
  }
}
