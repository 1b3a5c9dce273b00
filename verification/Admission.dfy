/** Everything between a request's arrival and its first upstream call: its token, the token's
    limit, its chain, the state of the chain's credentials, and its session. */
module Admission {
  import opened Prelude
  import opened Calendar
  import opened Metering
  import opened Limits
  import opened Routing
  import opened Fallback
  import Tokens
  import Tables = ChainTables

  datatype CredentialStatus = Active | Disabled | RequiresReauth

  /** A row of the account table. */
  datatype Credential = Credential(provider: string, deleted: bool, status: CredentialStatus)

  /** One request: what its client sent, and the instants of what is done for it. `readAt` is
      when the counters of a subject are read. */
  datatype Request = Request(
    correlationId: Id, presented: Option<string>, trusted: Option<nat>, model: string, stream: bool,
    chainOverride: Option<nat>, sessionId: string, now: nat, readAt: Id -> nat, lookupAt: int, executedAt: nat,
    endedAt: nat, bindAt: int, sessionTtl: nat)

  datatype RoutePlan = RoutePlan(tokenId: Id, order: seq<RoutingTarget>)

  /** The gates a request passes before any upstream call. */
  datatype Refusal = BadToken | OverLimit | NoChain | NoLane | NoneAvailable

  function RefusalText(r: Refusal): string {
    match r
    case BadToken => "the presented Client_Token is invalid or not active"
    case OverLimit => "client token has reached its configured usage limit"
    case NoChain => "no fallback chain is configured for the requested model"
    case NoLane => "the selected chain has no nodes of this route"
    case NoneAvailable => "every credential in the fallback chain is unavailable"
  }

  function RefusalError(r: Refusal): GozarError {
    var kind := if r.BadToken? then AuthFailed else if r.OverLimit? then RateLimited else NoAvailable;
    GozarError(kind, None, RefusalText(r))
  }

  /** A decision as the caller sees it: a refusal is its typed error. */
  function Decided(decision: Result<RoutePlan, Refusal>): Result<RoutePlan, GozarError> {
    match decision
    case Ok(plan) => Ok(plan)
    case Err(refusal) => Err(RefusalError(refusal))
  }

  function Accounts(entries: seq<RoutingTarget>): seq<Id> {
    Map(entries, (e: RoutingTarget) => e.accountId)
  }

  class Router {
    const tokens: Tokens.TokenTable
    const recorder: UsageRecorder
    const tables: Tables.ChainTables
    const sessions: SessionMap
    const tokenText: nat -> Id // a token row's id as counters and log name it
    var credentials: map<Id, Credential>
    var accountLimits: map<Id, ValidLimit>

    ghost predicate Valid()
      reads this, tokens, recorder, tables
    {
      && tokens.Valid() && recorder.Valid() && tables.Valid()
      && ChainsKnown() && forall i, j :: tokenText(i) == tokenText(j) ==> i == j
    }

    /** The chains a token may be assigned to are the chains there are. */
    ghost predicate ChainsKnown()
      reads tokens, tables
    {
      forall c: nat :: c in tokens.chains <==> Tables.HasChain(tables.chains, c)
    }

    constructor (tokens: Tokens.TokenTable, recorder: UsageRecorder, tables: Tables.ChainTables, sessions: SessionMap,
                 tokenText: nat -> Id, credentials: map<Id, Credential>, accountLimits: map<Id, ValidLimit>)
      requires tokens.Valid() && recorder.Valid() && tables.Valid()
      requires forall i, j :: tokenText(i) == tokenText(j) ==> i == j
      requires forall c: nat :: c in tokens.chains <==> Tables.HasChain(tables.chains, c)
      ensures Valid() && this.tokens == tokens && this.recorder == recorder && this.tables == tables
      ensures this.sessions == sessions && this.credentials == credentials && this.accountLimits == accountLimits
    {
      this.tokens, this.recorder, this.tables, this.sessions := tokens, recorder, tables, sessions;
      this.tokenText := tokenText;
      this.credentials, this.accountLimits := credentials, accountLimits;
    }

    method ApplyToTables(c: Tables.Command) returns (added: Option<nat>, ghost newId: nat)
      requires tables.Valid()
      modifies tables
      ensures tables.Valid() && !Tables.HasChain(old(tables.chains), newId)
      ensures tables.book == Tables.After(old(tables.book), c, newId)
      ensures c.Delete? ==> added.None?
      ensures forall x: nat :: Tables.HasChain(tables.chains, x)
                          <==> (Tables.HasChain(old(tables.chains), x) && c != Tables.Delete(x)) || added == Some(x)
    {
      assert Tables.ChainsUnique(Tables.Rows(tables.book));
      ghost var before := tables.book;
      added, newId := tables.Apply(c);
      Tables.IdsAfter(before, c, newId);
      assert tables.chains == Tables.Rows(tables.book);
      assert c.Delete? ==> |tables.book| <= |before|;
    }

    /** Keep the chains tokens may be assigned to, and their assignments, in step. */
    method TellTokens(c: Tables.Command, added: Option<nat>)
      requires tokens.Valid()
      modifies tokens`tokens, tokens`chains
      ensures tokens.Valid()
      ensures tokens.chains == if added.Some? then old(tokens.chains) + {added.value}
                               else if c.Delete? then old(tokens.chains) - {c.id}
                               else old(tokens.chains)
      ensures tokens.tokens == if added.None? && c.Delete? && c.id in old(tokens.chains)
                then Tokens.Unassigned(old(tokens.tokens), c.id) else old(tokens.tokens)
    {
      hide *;
      if added.Some? {
        tokens.AddChain(added.value);
      } else if c.Delete? && c.id in tokens.chains {
        tokens.ForgetChain(c.id);
      }
    }

    /** An operator's command on the chains. A deleted chain leaves the tokens assigned to it
        with none. */
    method ChangeChains(c: Tables.Command) returns (ghost newId: nat)
      requires Valid()
      modifies tables, tokens`tokens, tokens`chains
      ensures Valid() && !Tables.HasChain(old(tables.chains), newId)
      ensures tables.book == Tables.After(old(tables.book), c, newId)
      ensures tokens.tokens == if c.Delete? && Tables.HasChain(old(tables.chains), c.id)
                then Tokens.Unassigned(old(tokens.tokens), c.id) else old(tokens.tokens)
    {
      hide Tables.ChainTables.Valid, Tokens.TokenTable.Valid, UsageRecorder.Valid, Tables.HasChain, Tables.After,
        Tokens.Unassigned;
      var added;
      added, newId := ApplyToTables(c);
      TellTokens(c, added);
    }

    /** A token assigned to a chain is always routed through it, unless the request asks for
        another chain. */
    lemma AssignedChainRoutes(r: Request, kind: RouteKind, token: nat)
      requires Valid() && token < |tokens.tokens| && r.chainOverride.None? && tokens.tokens[token].chain.Some?
      ensures ChosenChain(r, kind, token) == tokens.tokens[token].chain
    {
      hide Tokens.ValidRows, Tables.HasChain;
      assert tokens.tokens[token].chain.value in tokens.chains;
    }

    /** The chain a request asks for comes before the one its token is assigned to; one that is
        not there is not replaced by another. */
    lemma AskedChainRoutes(r: Request, kind: RouteKind, token: nat)
      requires token < |tokens.tokens| && r.chainOverride.Some?
      ensures ChosenChain(r, kind, token)
              == if Tables.HasChain(tables.chains, r.chainOverride.value) then r.chainOverride else None
    {
    }

    // --- Authentication ----------------------------------------------------------

    /** The request carries this token: it is active, and the request names it from inside or
        presents the key that was issued for it. */
    ghost predicate Authenticates(r: Request, id: nat)
      reads tokens
    {
      && id < |tokens.tokens| == |tokens.keys| && tokens.tokens[id].status.Active?
      && if r.trusted.Some? then r.trusted.value == id else r.presented == Some(tokens.keys[id])
    }

    method Authenticate(r: Request) returns (token: Option<nat>)
      requires Valid()
      ensures token.Some? ==> Authenticates(r, token.value)
      ensures token.None? ==> forall id: nat :: !Authenticates(r, id)
    {
      if r.trusted.Some? {
        var id := r.trusted.value;
        return if id < |tokens.tokens| && tokens.tokens[id].status == Tokens.Active then Some(id) else None;
      }
      if r.presented.None? {
        return None;
      }
      var auth := tokens.Verify(r.presented.value);
      token := if auth.Some? then Some(auth.value.tokenId) else None;
    }

    // --- Limits ------------------------------------------------------------------

    method LimitReachedFor(k: Subject, id: Id, spec: ValidLimit, now: nat, readAt: nat) returns (reached: bool)
      requires Valid() && HasHours(spec.window, now)
      ensures reached == CounterReached(recorder.store, k, id, spec, now, readAt)
    {
      var consumption := recorder.ReadCounter(k, id, CounterMetric(spec), spec.window, now, readAt);
      reached := LimitReached(consumption as real, spec);
    }

    /** The token has a limit and its counter has reached it. */
    predicate TokenLimited(r: Request, id: nat)
      requires 23 * HOUR <= r.now
      reads tokens, recorder
    {
      id in tokens.limits
      && CounterReached(recorder.store, Token, tokenText(id), tokens.limits[id], r.now, r.readAt(tokenText(id)))
    }

    predicate AccountLimited(r: Request, account: Id)
      requires 23 * HOUR <= r.now
      reads this, recorder
    {
      account in accountLimits
      && CounterReached(recorder.store, Account, account, accountLimits[account], r.now, r.readAt(account))
    }

    /** A credential's state as the snapshot sees it. */
    function StateOf(r: Request, account: Id): CredentialState
      requires 23 * HOUR <= r.now
      reads this, recorder
    {
      if account !in credentials || credentials[account].deleted then CredentialState(true, true, false, false)
      else
        CredentialState(false, !credentials[account].status.Disabled?, credentials[account].status.RequiresReauth?,
                        AccountLimited(r, account))
    }

    ghost function Snapshot(r: Request, accounts: seq<Id>): States
      requires 23 * HOUR <= r.now
      reads this, recorder
    {
      map account | account in accounts :: StateOf(r, account)
    }

    /** The credential exists, is active, and is under its own limit. */
    ghost predicate Usable(r: Request, account: Id)
      requires 23 * HOUR <= r.now
      reads this, recorder
    {
      account in credentials && !credentials[account].deleted && credentials[account].status.Active?
        && !AccountLimited(r, account)
    }

    /** A credential's state now, its limit checked against its counter. */
    method CurrentState(r: Request, account: Id) returns (state: CredentialState)
      requires Valid() && 23 * HOUR <= r.now
      ensures state == StateOf(r, account)
    {
      if account !in credentials || credentials[account].deleted {
        return CredentialState(true, true, false, false);
      }
      var reached := false;
      if account in accountLimits {
        reached := LimitReachedFor(Account, account, accountLimits[account], r.now, r.readAt(account));
      }
      var status := credentials[account].status;
      state := CredentialState(false, status != Disabled, status == RequiresReauth, reached);
    }

    method SnapshotStates(r: Request, accounts: seq<Id>) returns (states: States)
      requires Valid() && 23 * HOUR <= r.now
      ensures states == Snapshot(r, accounts)
    {
      hide StateOf, Valid;
      states := map[];
      for i := 0 to |accounts|
        invariant states == Snapshot(r, accounts[..i])
      {
        var account := accounts[i];
        assert forall a :: a in accounts[..i + 1] <==> a in accounts[..i] || a == account;
        if account !in states {
          var state := CurrentState(r, account);
          states := states[account := state];
        }
      }
      assert accounts[..|accounts|] == accounts;
    }

    // --- Routing -----------------------------------------------------------------

    /** The chain a request of this token is routed through. */
    function ChosenChain(r: Request, kind: RouteKind, token: nat): Option<nat>
      requires token < |tokens.tokens|
      reads tokens, tables
    {
      Tables.SelectChain(tables.chains, tables.entries, r.model, kind,
                         if r.chainOverride.Some? then r.chainOverride else tokens.tokens[token].chain)
    }

    function Lane(chainId: nat, kind: RouteKind): seq<RoutingTarget>
      reads tables
    {
      ForRoute(Tables.LoadRoutingChain(tables.entries, chainId), kind)
    }

    /** A lane's attempt order for the request: its snapshot and its session decide. */
    ghost function OrderOf(r: Request, kind: RouteKind, lane: seq<RoutingTarget>): seq<RoutingTarget>
      requires 23 * HOUR <= r.now
      reads this, recorder, sessions
    {
      sessions.AttemptOrder(lane, Snapshot(r, Accounts(lane)), r.sessionId, kind, r.lookupAt)
    }

    /** The request may go upstream as planned. */
    ghost predicate Admits(r: Request, kind: RouteKind, token: nat, plan: RoutePlan)
      requires 23 * HOUR <= r.now
      reads this, tokens, recorder, tables, sessions
    {
      && Authenticates(r, token) && plan.tokenId == tokenText(token) && !TokenLimited(r, token)
      && ChosenChain(r, kind, token).Some?
      && var lane := Lane(ChosenChain(r, kind, token).value, kind);
         && plan.order == OrderOf(r, kind, lane)
         && plan.order != []
         && forall e :: e in plan.order <==> e in lane && Usable(r, e.accountId)
    }

    /** The request is refused for this reason. */
    ghost predicate Refuses(r: Request, kind: RouteKind, refusal: Refusal)
      requires 23 * HOUR <= r.now
      reads this, tokens, recorder, tables
    {
      if refusal.BadToken? then forall id: nat :: !Authenticates(r, id)
      else exists token: nat :: Authenticates(r, token) && RefusesToken(r, kind, token, refusal)
    }

    ghost predicate RefusesToken(r: Request, kind: RouteKind, token: nat, refusal: Refusal)
      requires 23 * HOUR <= r.now && token < |tokens.tokens|
      reads this, tokens, recorder, tables
    {
      if refusal.OverLimit? then TokenLimited(r, token)
      else
        && !TokenLimited(r, token)
        && var chain := ChosenChain(r, kind, token);
           if refusal.NoChain? then chain.None?
           else
             && chain.Some? && !refusal.BadToken?
             && (refusal.NoLane? <==> Lane(chain.value, kind) == [])
             && forall e | e in Lane(chain.value, kind) :: !Usable(r, e.accountId)
    }

    /** By the durable log, the token and every planned account are below their limits. */
    ghost predicate WithinLimits(r: Request, token: nat, order: seq<RoutingTarget>)
      reads this, tokens, recorder
    {
      && (token in tokens.limits ==>
            ConsumedLess(recorder.log, Token, tokenText(token), tokens.limits[token], r.now,
                         r.readAt(tokenText(token))))
      && forall e | e in order && e.accountId in accountLimits ::
           ConsumedLess(recorder.log, Account, e.accountId, accountLimits[e.accountId], r.now, r.readAt(e.accountId))
    }

    /** The token a request carries, if any. */
    ghost function TokenOf(r: Request): (token: Option<nat>)
      reads tokens
      ensures token.Some? ==> Authenticates(r, token.value)
      ensures token.None? ==> forall id: nat :: !Authenticates(r, id)
    {
      if exists id: nat :: Authenticates(r, id) then
        var id: nat :| Authenticates(r, id);
        Some(id)
      else None
    }

    /** What the gates decide of a request, in their order. */
    ghost function Decision(r: Request, kind: RouteKind): Result<RoutePlan, Refusal>
      requires 23 * HOUR <= r.now
      reads this, tokens, recorder, tables, sessions
    {
      var token := TokenOf(r);
      if token.None? then Err(BadToken)
      else if TokenLimited(r, token.value) then Err(OverLimit)
      else RouteDecision(r, kind, token.value)
    }

    ghost function RouteDecision(r: Request, kind: RouteKind, token: nat): Result<RoutePlan, Refusal>
      requires 23 * HOUR <= r.now && token < |tokens.tokens|
      reads this, tokens, recorder, tables, sessions
    {
      var chain := ChosenChain(r, kind, token);
      if chain.None? then Err(NoChain)
      else
        var lane := Lane(chain.value, kind);
        var order := OrderOf(r, kind, lane);
        if lane == [] then Err(NoLane)
        else if order == [] then Err(NoneAvailable)
        else Ok(RoutePlan(tokenText(token), order))
    }

    /** The decision is right: an admitted request carries an active token's key, that token
        and every planned account are below their limits, and the plan is the usable nodes of
        its lane; a refused one has the reason it is refused for. */
    ghost predicate DecidesRightly(r: Request, kind: RouteKind)
      requires 23 * HOUR <= r.now
      reads this, tokens, recorder, tables, sessions
    {
      match Decision(r, kind)
      case Ok(plan) =>
        TokenOf(r).Some? && Admits(r, kind, TokenOf(r).value, plan) && WithinLimits(r, TokenOf(r).value, plan.order)
      case Err(refusal) => Refuses(r, kind, refusal)
    }

    lemma TokenInRange(r: Request, id: nat)
      requires Authenticates(r, id)
      ensures id < |tokens.tokens|
    {
    }

    /** A request carries at most one token. */
    lemma OneToken(r: Request, i: nat, j: nat)
      requires Valid() && Authenticates(r, i) && Authenticates(r, j)
      ensures i == j
    {
      if r.trusted.None? {
        Tokens.LookupFinds(tokens.crypto, tokens.tokens, tokens.keys, r.presented.value, i);
        Tokens.LookupFinds(tokens.crypto, tokens.tokens, tokens.keys, r.presented.value, j);
      }
    }

    lemma SnapshotHas(r: Request, lane: seq<RoutingTarget>, e: RoutingTarget)
      requires 23 * HOUR <= r.now && e in lane
      ensures Available(Snapshot(r, Accounts(lane)), e.accountId) <==> Usable(r, e.accountId)
    {
      var i :| 0 <= i < |lane| && lane[i] == e;
      assert Accounts(lane)[i] == e.accountId;
    }

    lemma LaneMembers(r: Request, kind: RouteKind, lane: seq<RoutingTarget>)
      requires 23 * HOUR <= r.now
      ensures forall e :: e in OrderOf(r, kind, lane) <==> e in lane && Usable(r, e.accountId)
    {
      var states := Snapshot(r, Accounts(lane));
      forall e
        ensures e in OrderOf(r, kind, lane) <==> e in lane && Usable(r, e.accountId)
      {
        EvaluationMembers(lane, states, sessions.Get(r.sessionId, kind, r.lookupAt), e);
        if e in lane {
          SnapshotHas(r, lane, e);
        }
      }
    }

    lemma PlannedWithinLimits(r: Request, token: nat, order: seq<RoutingTarget>)
      requires Valid() && 23 * HOUR <= r.now && !TokenLimited(r, token)
      requires forall e | e in order :: Usable(r, e.accountId)
      ensures WithinLimits(r, token, order)
    {
      if token in tokens.limits {
        CheckedIsBelow(recorder.log, Token, tokenText(token), tokens.limits[token], r.now, r.readAt(tokenText(token)));
      }
      forall e | e in order && e.accountId in accountLimits
        ensures ConsumedLess(recorder.log, Account, e.accountId, accountLimits[e.accountId], r.now,
                             r.readAt(e.accountId))
      {
        CheckedIsBelow(recorder.log, Account, e.accountId, accountLimits[e.accountId], r.now, r.readAt(e.accountId));
      }
    }

    lemma LimitRefuses(r: Request, kind: RouteKind, id: nat)
      requires 23 * HOUR <= r.now && id < |tokens.tokens| && TokenLimited(r, id)
      ensures RefusesToken(r, kind, id, OverLimit)
    {
    }

    lemma PlanIsAdmitted(r: Request, kind: RouteKind, token: nat)
      requires Valid() && 23 * HOUR <= r.now && Authenticates(r, token) && !TokenLimited(r, token)
      requires RouteDecision(r, kind, token).Ok?
      ensures var plan := RouteDecision(r, kind, token).value;
              Admits(r, kind, token, plan) && WithinLimits(r, token, plan.order)
    {
      TokenInRange(r, token);
      hide TokenLimited, Valid, Usable, OrderOf, ChosenChain, Lane, Authenticates, WithinLimits;
      LaneMembers(r, kind, Lane(ChosenChain(r, kind, token).value, kind));
      PlannedWithinLimits(r, token, RouteDecision(r, kind, token).value.order);
    }

    lemma NoPlanIsRefused(r: Request, kind: RouteKind, token: nat)
      requires Valid() && 23 * HOUR <= r.now && token < |tokens.tokens| && !TokenLimited(r, token)
      requires RouteDecision(r, kind, token).Err?
      ensures var refusal := RouteDecision(r, kind, token).error;
              !refusal.BadToken? && RefusesToken(r, kind, token, refusal)
    {
      hide TokenLimited, Valid, Usable, OrderOf, ChosenChain, Lane, Authenticates;
      var chain := ChosenChain(r, kind, token);
      if chain.Some? {
        LaneMembers(r, kind, Lane(chain.value, kind));
      }
    }

    /** The nodes of a request's lane whose credentials are usable, in chain order. */
    ghost function UsableNodes(r: Request, kind: RouteKind): seq<RoutingTarget>
      requires 23 * HOUR <= r.now
      reads this, tokens, recorder, tables
    {
      var token := TokenOf(r);
      if token.None? || ChosenChain(r, kind, token.value).None? then []
      else
        var lane := Lane(ChosenChain(r, kind, token.value).value, kind);
        AvailableEntries(lane, Snapshot(r, Accounts(lane)))
    }

    /** While a session's binding lives, its requests try the usable nodes of the bound account
        before all others. */
    lemma SessionSticks(r: Request, kind: RouteKind, account: Id)
      requires 23 * HOUR <= r.now && sessions.Get(r.sessionId, kind, r.lookupAt) == Some(account)
      requires Decision(r, kind).Ok?
      ensures Decision(r, kind).value.order
              == Mine(UsableNodes(r, kind), account) + Others(UsableNodes(r, kind), account)
    {
      hide TokenLimited, Authenticates, ChosenChain, Lane, Snapshot, Mine, Others, AvailableEntries;
    }

    /** The lane a request is routed through has exactly the nodes its operators last gave for
        it, each with its own account, policy and model, in their order. */
    lemma LaneIsGiven(i: nat, kind: RouteKind)
      requires Valid() && i < |tables.book|
      ensures var lane := Lane(tables.book[i].row.id, kind);
              var given := Tables.GivenFor(tables.book[i].inputs, kind);
              && |lane| == |given|
              && forall j | 0 <= j < |lane| ::
                   && Tables.NodeIs(given[j], lane[j].accountId, lane[j].modelId, lane[j].policy)
                   && lane[j].routeKind == kind && lane[j].position == Some(j)
    {
      Tables.WrittenRoundTrip(tables, tables.entries, i, kind);
    }

    /** So a planned node is one of them, of the request's own kind. */
    lemma PlanIsGiven(r: Request, kind: RouteKind, i: nat, e: RoutingTarget)
      requires Valid() && 23 * HOUR <= r.now && Decision(r, kind).Ok? && e in Decision(r, kind).value.order
      requires TokenOf(r).Some? && i < |tables.book|
      requires ChosenChain(r, kind, TokenOf(r).value) == Some(tables.book[i].row.id)
      ensures e.routeKind == kind
      ensures exists g | g in Tables.GivenFor(tables.book[i].inputs, kind) ::
                Tables.NodeIs(g, e.accountId, e.modelId, e.policy)
    {
      hide TokenLimited, Valid, Usable, OrderOf, ChosenChain, Lane, Authenticates, Tables.NodeIs, Tables.GivenFor;
      var lane := Lane(tables.book[i].row.id, kind);
      LaneMembers(r, kind, lane);
      LaneIsGiven(i, kind);
      var j :| 0 <= j < |lane| && lane[j] == e;
      var given := Tables.GivenFor(tables.book[i].inputs, kind);
      assert given[j] in given && Tables.NodeIs(given[j], e.accountId, e.modelId, e.policy);
    }

    /** Every decision is right. */
    lemma DecisionIsRight(r: Request, kind: RouteKind)
      requires Valid() && 23 * HOUR <= r.now
      ensures DecidesRightly(r, kind)
    {
      hide TokenLimited, Valid, Admits, WithinLimits, RouteDecision, Authenticates;
      var token := TokenOf(r);
      if token.Some? {
        var id := token.value;
        TokenInRange(r, id);
        if TokenLimited(r, id) {
          LimitRefuses(r, kind, id);
        } else {
          var decision := RouteDecision(r, kind, id);
          if decision.Ok? {
            PlanIsAdmitted(r, kind, id);
          } else {
            NoPlanIsRefused(r, kind, id);
          }
        }
      }
    }

    /** The chain the request's trace names: the one it is routed through once there is one,
        until then the one it asks for. */
    ghost function TracedChain(r: Request, kind: RouteKind): Option<nat>
      requires 23 * HOUR <= r.now
      reads this, tokens, recorder, tables
    {
      var token := TokenOf(r);
      if token.Some? && !TokenLimited(r, token.value) && ChosenChain(r, kind, token.value).Some? then
        ChosenChain(r, kind, token.value)
      else r.chainOverride
    }

    /** An admitted request's token has fewer tokens logged in its limit's period than a token
        limit says, and so has every account in the plan, as far as timely reads can tell. */
    lemma AdmittedBelowTokenLimits(r: Request, kind: RouteKind, e: RoutingTarget)
      requires Valid() && 23 * HOUR <= r.now && Decision(r, kind).Ok? && e in Decision(r, kind).value.order
      requires Orderly(recorder.log)
      ensures TokenOf(r).Some?
      ensures var id := TokenOf(r).value;
              var text, log := tokenText(id), recorder.log;
              id in tokens.limits && tokens.limits[id].metric.TokenCount?
              && WrittenBy(log, r.readAt(text)) && Timely(tokens.limits[id].window, r.now, r.readAt(text)) ==>
                TokensLogged(log, Token, text, tokens.limits[id].window, r.now) as real < tokens.limits[id].limitValue
      ensures var a, log := e.accountId, recorder.log;
              a in accountLimits && accountLimits[a].metric.TokenCount?
              && WrittenBy(log, r.readAt(a)) && Timely(accountLimits[a].window, r.now, r.readAt(a)) ==>
                TokensLogged(log, Account, a, accountLimits[a].window, r.now) as real < accountLimits[a].limitValue
    {
      hide Valid, Admits, TokensLogged, RequestsLogged, Decision, Authenticates, Timely, Orderly, WrittenBy;
      DecisionIsRight(r, kind);
    }

    /** The token's own limit, if it has one, against its counter. */
    method EnforceTokenLimit(r: Request, id: nat) returns (limited: bool)
      requires Valid() && 23 * HOUR <= r.now
      ensures limited == TokenLimited(r, id)
    {
      limited := false;
      if id in tokens.limits {
        limited := LimitReachedFor(Token, tokenText(id), tokens.limits[id], r.now, r.readAt(tokenText(id)));
      }
    }

    /** Route a request of an authenticated token under its limit through its chain. */
    method RouteToken(r: Request, kind: RouteKind, id: nat, chain: nat) returns (plan: Result<RoutePlan, GozarError>)
      requires Valid() && 23 * HOUR <= r.now && id < |tokens.tokens| && ChosenChain(r, kind, id) == Some(chain)
      ensures plan == Decided(RouteDecision(r, kind, id))
    {
      hide RefusalText, Valid, Snapshot, ChosenChain;
      var lane := Lane(chain, kind);
      if lane == [] {
        return Err(RefusalError(NoLane));
      }
      var states := SnapshotStates(r, Accounts(lane));
      var order := sessions.AttemptOrder(lane, states, r.sessionId, kind, r.lookupAt);
      if order == [] {
        return Err(RefusalError(NoneAvailable));
      }
      plan := Ok(RoutePlan(tokenText(id), order));
    }

    /** Authenticate, enforce the token's limit, select the chain, snapshot its credentials and
        order its lane. */
    method AuthenticateAndRoute(r: Request, kind: RouteKind)
      returns (plan: Result<RoutePlan, GozarError>, traced: Option<nat>)
      requires Valid() && 23 * HOUR <= r.now
      ensures plan == Decided(Decision(r, kind)) && traced == TracedChain(r, kind)
    {
      hide RefusalText, TokenLimited, Valid, Authenticates, ChosenChain;
      traced := r.chainOverride;
      var token := Authenticate(r);
      if token.None? {
        return Err(RefusalError(BadToken)), traced;
      }
      var id := token.value;
      OneToken(r, id, TokenOf(r).value);
      TokenInRange(r, id);
      var limited := EnforceTokenLimit(r, id);
      if limited {
        return Err(RefusalError(OverLimit)), traced;
      }
      var chain := ChosenChain(r, kind, id);
      if chain.None? {
        return Err(RefusalError(NoChain)), traced;
      }
      traced := chain;
      plan := RouteToken(r, kind, id, chain.value);
    }

    lemma AdmitsSome(r: Request, kind: RouteKind, token: nat, plan: RoutePlan)
      requires 23 * HOUR <= r.now
      ensures Admits(r, kind, token, plan) ==>
        var e := plan.order[0]; e in Lane(ChosenChain(r, kind, token).value, kind) && Usable(r, e.accountId)
    {
      hide TokenLimited, Usable, Snapshot, Lane, ChosenChain, Authenticates;
      assert Admits(r, kind, token, plan) ==> plan.order[0] in plan.order;
    }

    lemma RefusesOnce(r: Request, kind: RouteKind, id: nat, refusal: Refusal, other: Refusal, plan: RoutePlan)
      requires 23 * HOUR <= r.now && id < |tokens.tokens| && RefusesToken(r, kind, id, refusal)
      ensures !Admits(r, kind, id, plan)
      ensures !refusal.BadToken? && !other.BadToken? && RefusesToken(r, kind, id, other) ==> other == refusal
    {
      hide TokenLimited, Usable, Snapshot, Lane, ChosenChain, Authenticates;
      AdmitsSome(r, kind, id, plan);
    }

    lemma AdmitsAuthentic(r: Request, kind: RouteKind, token: nat, plan: RoutePlan)
      requires 23 * HOUR <= r.now
      ensures Admits(r, kind, token, plan) ==> Authenticates(r, token)
    {
    }

    /** No request is both admitted and refused, and a refused one is refused for one reason. */
    lemma RefusedIsNotAdmitted(r: Request, kind: RouteKind, refusal: Refusal, other: Refusal, token: nat,
                               plan: RoutePlan)
      requires Valid() && 23 * HOUR <= r.now && Refuses(r, kind, refusal)
      ensures !Admits(r, kind, token, plan)
      ensures Refuses(r, kind, other) ==> other == refusal
    {
      hide RefusesToken, Valid, Admits;
      AdmitsAuthentic(r, kind, token, plan);
      if !refusal.BadToken? {
        var id: nat :| Authenticates(r, id) && RefusesToken(r, kind, id, refusal);
        RefusesOnce(r, kind, id, refusal, other, plan);
        if Authenticates(r, token) {
          OneToken(r, id, token);
        }
        if Refuses(r, kind, other) && !other.BadToken? {
          var id': nat :| Authenticates(r, id') && RefusesToken(r, kind, id', other);
          OneToken(r, id, id');
        }
      }
    }
  }
}
