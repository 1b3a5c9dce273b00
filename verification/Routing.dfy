/** Fallback chains, availability and session affinity. */
module Routing {
  import opened Prelude
  import opened Metering

  datatype FallbackPolicy = AnyError | AuthOrRetryable | Retryable
  datatype RouteKind = Chat | Embeddings

  datatype RoutingTarget = RoutingTarget(
    accountId: Id, modelId: Option<string>, policy: FallbackPolicy, routeKind: RouteKind,
    nodeId: Option<nat>, position: Option<nat>)

  /** The facts that decide whether a credential may serve; a missing one counts as deleted. */
  datatype CredentialState = CredentialState(deleted: bool, enabled: bool, requiresReauth: bool, limitReached: bool)

  type States = map<Id, CredentialState>

  predicate IsAvailable(s: CredentialState) {
    !s.deleted && s.enabled && !s.requiresReauth && !s.limitReached
  }

  predicate Available(states: States, account: Id) {
    account in states && IsAvailable(states[account])
  }

  /** The chain's nodes of one request lane. */
  function ForRoute(entries: seq<RoutingTarget>, kind: RouteKind): seq<RoutingTarget> {
    Filter(entries, (e: RoutingTarget) => e.routeKind == kind)
  }

  function AvailableEntries(entries: seq<RoutingTarget>, states: States): seq<RoutingTarget> {
    Filter(entries, (e: RoutingTarget) => Available(states, e.accountId))
  }

  function Mine(some: seq<RoutingTarget>, account: Id): seq<RoutingTarget> {
    Filter(some, (t: RoutingTarget) => t.accountId == account)
  }

  function Others(some: seq<RoutingTarget>, account: Id): seq<RoutingTarget> {
    Filter(some, (t: RoutingTarget) => t.accountId != account)
  }

  /** The nodes to attempt: the available ones in chain order, every node of the preferred
      account before all others. */
  function EvaluateChain(entries: seq<RoutingTarget>, states: States, pref: Option<Id>): seq<RoutingTarget> {
    var available := AvailableEntries(entries, states);
    if pref.Some? && (exists e | e in available :: e.accountId == pref.value) then
      Mine(available, pref.value) + Others(available, pref.value)
    else available
  }

  /** Evaluation never invents, drops or repeats a node: each available node is attempted
      as often as the chain lists it, and no other node is. */
  lemma EvaluationKeepsNodes(entries: seq<RoutingTarget>, states: States, pref: Option<Id>, e: RoutingTarget)
    ensures Count(EvaluateChain(entries, states, pref), e)
            == if Available(states, e.accountId) then Count(entries, e) else 0
  {
    var available := AvailableEntries(entries, states);
    CountFilter(entries, (x: RoutingTarget) => Available(states, x.accountId), e);
    if pref.Some? {
      CountFilter(available, (t: RoutingTarget) => t.accountId == pref.value, e);
      CountFilter(available, (t: RoutingTarget) => t.accountId != pref.value, e);
      CountAppend(Mine(available, pref.value), Others(available, pref.value), e);
    }
  }

  /** With a preferred account, evaluation is a split whether or not the chain has it. */
  lemma EvaluationSplits(targets: seq<RoutingTarget>, states: States, pref: Option<Id>)
    ensures var some := AvailableEntries(targets, states);
            EvaluateChain(targets, states, pref)
              == if pref.Some? then Mine(some, pref.value) + Others(some, pref.value) else some
  {
    var some := AvailableEntries(targets, states);
    if pref.Some? && forall t | t in some :: t.accountId != pref.value {
      FilterAll(some, (t: RoutingTarget) => t.accountId == pref.value);
      FilterAll(some, (t: RoutingTarget) => t.accountId != pref.value);
    }
  }

  lemma PartitionFilters<T>(s: seq<T>, p: T -> bool, q: T -> bool)
    requires forall x | x in s :: q(x) == !p(x)
    ensures var order := Filter(s, p) + Filter(s, q);
            Filter(order, p) == Filter(s, p) && Filter(order, q) == Filter(s, q)
  {
    var first, rest := Filter(s, p), Filter(s, q);
    FilterAll(first, p);
    FilterAll(first, q);
    FilterAll(rest, p);
    FilterAll(rest, q);
    FilterAppend(first, rest, p);
    FilterAppend(first, rest, q);
  }

  /** Session affinity moves the preferred account's nodes to the front and keeps chain
      order on both sides, for every account, also when it occurs several times. */
  lemma AffinityIsStable(entries: seq<RoutingTarget>, states: States, pref: Id)
    ensures var order, available := EvaluateChain(entries, states, Some(pref)), AvailableEntries(entries, states);
            && Mine(order, pref) == Mine(available, pref) && Others(order, pref) == Others(available, pref)
            && order == Mine(order, pref) + Others(order, pref)
  {
    var available := AvailableEntries(entries, states);
    EvaluationSplits(entries, states, Some(pref));
    hide Filter, AvailableEntries, EvaluateChain;
    PartitionFilters(available, (t: RoutingTarget) => t.accountId == pref, (t: RoutingTarget) => t.accountId != pref);
  }

  /** A node is attempted exactly when the chain lists it and its account is available. */
  lemma EvaluationMembers(entries: seq<RoutingTarget>, states: States, pref: Option<Id>, e: RoutingTarget)
    ensures e in EvaluateChain(entries, states, pref) <==> e in entries && Available(states, e.accountId)
  {
  }

  // --- The session-affinity map ----------------------------------------------

  const SESSION_PREFIX := "route:session:"
  const EMBEDDINGS_PREFIX := "embeddings:"

  function SessionKey(sessionId: string, kind: RouteKind): string {
    if kind.Chat? then SESSION_PREFIX + sessionId else SESSION_PREFIX + (EMBEDDINGS_PREFIX + sessionId)
  }

  /** The Redis key of a session's binding. */
  lemma SessionKeySpelled(sessionId: string)
    ensures SessionKey(sessionId, Chat) == "route:session:" + sessionId
    ensures SessionKey(sessionId, Embeddings) == "route:session:embeddings:" + sessionId
  {
  }

  /** Sessions of one lane never share a key; a chat session shares the key of an embeddings
      session exactly when its id is that session's id behind the lane prefix. */
  lemma SessionKeysCollideIff(a: string, k: RouteKind, b: string, l: RouteKind)
    ensures SessionKey(a, k) == SessionKey(b, l)
       <==> if k == l then a == b else if k.Chat? then a == EMBEDDINGS_PREFIX + b else b == EMBEDDINGS_PREFIX + a
  {
    var x := if k.Chat? then a else EMBEDDINGS_PREFIX + a;
    var y := if l.Chat? then b else EMBEDDINGS_PREFIX + b;
    assert SessionKey(a, k)[|SESSION_PREFIX|..] == x && SessionKey(b, l)[|SESSION_PREFIX|..] == y;
    if k == l && k.Embeddings? && x == y {
      assert x[|EMBEDDINGS_PREFIX|..] == a && y[|EMBEDDINGS_PREFIX|..] == b;
    }
  }

  datatype Binding = Binding(account: Id, expiry: int)

  /** The Redis map of session bindings. */
  class SessionMap {
    var bindings: map<string, Binding>

    constructor ()
      ensures bindings == map[]
    {
      bindings := map[];
    }

    /** Bind a session to the account that served it; an empty session id binds nothing. */
    method Record(sessionId: string, account: Id, kind: RouteKind, now: int, ttl: nat)
      modifies this
      ensures bindings == if sessionId == [] then old(bindings)
                          else old(bindings)[SessionKey(sessionId, kind) := Binding(account, now + ttl)]
      ensures sessionId != [] ==>
        forall other, lane, later: int :: SessionKey(other, lane) == SessionKey(sessionId, kind) && other != [] ==>
          Get(other, lane, later) == if later < now + ttl then Some(account) else None
    {
      if sessionId != [] {
        bindings := bindings[SessionKey(sessionId, kind) := Binding(account, now + ttl)];
      }
    }

    function Get(sessionId: string, kind: RouteKind, now: int): Option<Id>
      reads this
    {
      var key := SessionKey(sessionId, kind);
      if sessionId != [] && key in bindings && now < bindings[key].expiry then Some(bindings[key].account) else None
    }

    /** The attempt order of a request of this session: while its binding lives, every
        available node of the bound account before all others; else chain order. */
    function AttemptOrder(entries: seq<RoutingTarget>, states: States, sessionId: string, kind: RouteKind,
                          now: int): (order: seq<RoutingTarget>)
      reads this
      ensures var available := AvailableEntries(entries, states);
              var bound := Get(sessionId, kind, now);
              order == if bound.None? then available
                       else Mine(available, bound.value) + Others(available, bound.value)
    {
      EvaluationSplits(entries, states, Get(sessionId, kind, now));
      EvaluateChain(entries, states, Get(sessionId, kind, now))
    }
  }

  /** An embeddings session's binding answers for the chat session that shares its key. */
  method BindingCrossesLanes(s: string, account: Id, now: int, ttl: nat) returns (seen: Option<Id>)
    requires s != [] && ttl > 0
    ensures seen == Some(account)
  {
    var sessions := new SessionMap();
    sessions.Record(s, account, Embeddings, now, ttl);
    var chatSession := EMBEDDINGS_PREFIX + s;
    SessionKeysCollideIff(chatSession, Chat, s, Embeddings);
    seen := sessions.Get(chatSession, Chat, now);
  }
}
