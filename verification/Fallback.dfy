/** The fallback machine the chat, streaming and embeddings loops all refine, and the
    one-shot refresh retry under it. */
module Fallback {
  import opened Prelude
  import opened Routing

  // --- Errors ----------------------------------------------------------------

  datatype ErrorKind = UpstreamFailed | NoAvailable | RateLimited | AuthFailed | Misconfigured | Missing | Invalid

  /** A typed error; `upstreamStatus` is the provider status its details carry. */
  datatype GozarError = GozarError(kind: ErrorKind, upstreamStatus: Option<int>, message: string)

  function LowerChar(c: char): char {
    if 'A' <= c <= 'Z' then (c as int + 32) as char else c
  }

  predicate Contains(text: string, word: string) {
    exists i | 0 <= i <= |text| :: word <= text[i..]
  }

  predicate IsRetryable(e: GozarError) {
    e.kind.UpstreamFailed?
    && (e.upstreamStatus.None? || e.upstreamStatus.value == 429 || 500 <= e.upstreamStatus.value <= 599)
  }

  predicate IsAuthError(e: GozarError) {
    || (e.upstreamStatus.Some? && (e.upstreamStatus.value == 401 || e.upstreamStatus.value == 403))
    || (e.kind.NoAvailable? && Contains(Map(e.message, LowerChar), "reauth"))
  }

  /** The policy of a failed node's outgoing edge. */
  predicate AllowsFallback(policy: FallbackPolicy, e: GozarError) {
    match policy
    case AnyError => true
    case Retryable => IsRetryable(e)
    case AuthOrRetryable => IsRetryable(e) || IsAuthError(e)
  }

  /** The text has the lower-case word at `i`, in any mixture of cases. */
  predicate SpelledAt(text: string, word: string, i: nat) {
    i + |word| <= |text| && forall j | 0 <= j < |word| :: SameLetter(text[i + j], word[j])
  }

  predicate SameLetter(c: char, lower: char) {
    c == lower || ('A' <= c <= 'Z' && c as int + 32 == lower as int)
  }

  lemma LowerIs(c: char, lower: char)
    requires 'a' <= lower <= 'z'
    ensures LowerChar(c) == lower <==> SameLetter(c, lower)
  {
  }

  lemma SpelledIs(text: string, word: string, i: nat)
    requires i <= |text| && forall j | 0 <= j < |word| :: 'a' <= word[j] <= 'z'
    ensures word <= Map(text, LowerChar)[i..] <==> SpelledAt(text, word, i)
  {
    var tail := Map(text, LowerChar)[i..];
    if i + |word| <= |text| {
      forall j | 0 <= j < |word|
        ensures tail[j] == word[j] <==> SameLetter(text[i + j], word[j])
      {
        assert tail[j] == LowerChar(text[i + j]);
        LowerIs(text[i + j], word[j]);
      }
    }
    hide LowerChar, SameLetter;
  }

  lemma ContainsIgnoringCase(text: string, word: string)
    requires forall j | 0 <= j < |word| :: 'a' <= word[j] <= 'z'
    ensures Contains(Map(text, LowerChar), word) <==> exists i: nat :: SpelledAt(text, word, i)
  {
    var lower := Map(text, LowerChar);
    if Contains(lower, word) {
      var i :| 0 <= i <= |lower| && word <= lower[i..];
      SpelledIs(text, word, i);
    }
    if i: nat :| SpelledAt(text, word, i) {
      SpelledIs(text, word, i);
    }
  }

  /** Which errors an edge lets pass: all of them, or an upstream failure without a status, with
      429 or with a server error, or also a rejected credential. */
  lemma EdgeLetsPass(e: GozarError)
    ensures AllowsFallback(AnyError, e)
    ensures AllowsFallback(Retryable, e)
       <==> e.kind == UpstreamFailed
            && match e.upstreamStatus case None => true case Some(s) => s == 429 || 500 <= s < 600
    ensures e.upstreamStatus == Some(401) || e.upstreamStatus == Some(403) ==> AllowsFallback(AuthOrRetryable, e)
    ensures e.kind != NoAvailable && e.upstreamStatus != Some(401) && e.upstreamStatus != Some(403) ==>
              (AllowsFallback(AuthOrRetryable, e) <==> AllowsFallback(Retryable, e))
    ensures e.kind == NoAvailable && e.upstreamStatus != Some(401) && e.upstreamStatus != Some(403) ==>
              (AllowsFallback(AuthOrRetryable, e)
               <==> exists i: nat :: SpelledAt(e.message, "reauth", i))
  {
    hide Contains;
    if e.kind == NoAvailable {
      ContainsIgnoringCase(e.message, "reauth");
    }
  }

  /** `p` lets through whatever `q` lets through. */
  predicate AtLeastAsLoose(p: FallbackPolicy, q: FallbackPolicy) {
    p.AnyError? || q.Retryable? || p == q
  }

  lemma LooserAllowsMore(p: FallbackPolicy, q: FallbackPolicy, e: GozarError)
    requires AtLeastAsLoose(p, q) && AllowsFallback(q, e)
    ensures AllowsFallback(p, e)
  {
  }

  const EXHAUSTED := "all fallbacks failed: every available credential errored while serving the request"

  /** The terminal error keeps the last failure's upstream details and says its message. */
  function ExhaustedError(last: Option<GozarError>): GozarError {
    if last.None? then GozarError(UpstreamFailed, None, EXHAUSTED)
    else
      GozarError(UpstreamFailed, last.value.upstreamStatus, EXHAUSTED + "; last error: " + last.value.message)
  }

  // --- One node: call, and refresh once --------------------------------------

  datatype CredentialKind = Subscription | ApiKey
  datatype Material = Material(provider: string, kind: CredentialKind)

  /** How the surroundings answer one node: what acquiring its credential and calling
      upstream give the first time, what a forced refresh reports, and what a second
      acquisition and call give. */
  datatype NodeScript<A> = NodeScript(
    acquire: Result<Material, GozarError>, call: Result<A, GozarError>,
    refresh: Result<bool, GozarError>,
    acquireAgain: Result<Material, GozarError>, callAgain: Result<A, GozarError>)

  datatype Served<A> = Served(provider: string, answer: A, refreshed: bool)

  /** A subscription's rejected access token is the one failure a refresh can repair. */
  predicate ShouldRefresh(e: GozarError, m: Material) {
    m.kind.Subscription? && e.kind.UpstreamFailed? && e.upstreamStatus == Some(401)
  }

  /** The first call was made with a subscription's access token and answered 401. */
  predicate TokenRejected<A>(s: NodeScript<A>) {
    && s.acquire.Ok? && s.acquire.value.kind == Subscription
    && s.call.Err? && s.call.error.kind == UpstreamFailed && s.call.error.upstreamStatus == Some(401)
  }

  /** One node's outcome and how many upstream calls it took. */
  function CallWithReactiveRefresh<A>(s: NodeScript<A>): (r: (Result<Served<A>, GozarError>, nat))
    ensures r.1 <= 2 && (r.1 == 0 <==> s.acquire.Err?)
    ensures r.1 == 2 <==> TokenRejected(s) && s.refresh == Ok(true) && s.acquireAgain.Ok?
    ensures r.0.Ok? ==> 1 <= r.1 && r.0.value.refreshed == (r.1 == 2)
    ensures r.0.Ok? ==> Ok(r.0.value.answer) == if r.1 == 2 then s.callAgain else s.call
  {
    if s.acquire.Err? then (Err(s.acquire.error), 0)
    else if s.call.Ok? then (Ok(Served(s.acquire.value.provider, s.call.value, false)), 1)
    else if !ShouldRefresh(s.call.error, s.acquire.value) then (Err(s.call.error), 1)
    else if s.refresh.Err? then (Err(s.refresh.error), 1)
    else if !s.refresh.value then (Err(s.call.error), 1)
    else if s.acquireAgain.Err? then (Err(s.acquireAgain.error), 1)
    else if s.callAgain.Ok? then (Ok(Served(s.acquireAgain.value.provider, s.callAgain.value, true)), 2)
    else (Err(s.callAgain.error), 2)
  }

  /** Which failure a node answers with: its first call's, unless that was a rejected token;
      then the refresh's own, the second acquisition's or the second call's, and the first
      call's again when the refresh reported that nothing was refreshed. */
  lemma RefreshFailures<A>(s: NodeScript<A>)
    requires CallWithReactiveRefresh(s).0.Err?
    ensures var error := CallWithReactiveRefresh(s).0.error;
            if s.acquire.Err? then error == s.acquire.error
            else
              && s.call.Err?
              && (!TokenRejected(s) || s.refresh == Ok(false) ==> error == s.call.error)
              && (TokenRejected(s) && s.refresh.Err? ==> error == s.refresh.error)
              && (TokenRejected(s) && s.refresh == Ok(true) && s.acquireAgain.Err? ==> error == s.acquireAgain.error)
              && (TokenRejected(s) && s.refresh == Ok(true) && s.acquireAgain.Ok? ==> s.callAgain == Err(error))
  {
  }

  /** A served node names the credential that served it: the one acquired again when the token
      was refreshed. */
  lemma ServedCredential<A>(s: NodeScript<A>)
    requires CallWithReactiveRefresh(s).0.Ok?
    ensures var served := CallWithReactiveRefresh(s).0.value;
            if served.refreshed then s.acquireAgain.Ok? && served.provider == s.acquireAgain.value.provider
            else s.acquire.Ok? && served.provider == s.acquire.value.provider
  {
  }

  // --- The abstract machine --------------------------------------------------

  datatype AttemptOutcome = Succeeded(refreshed: bool) | Failed(error: GozarError) | StreamFailed(error: GozarError)
  datatype Attempt = Attempt(target: RoutingTarget, outcome: AttemptOutcome, fallbackTaken: bool)

  /** `n` attempts in order, each but the last a failure its policy lets pass, the last one
      a success, a failure its policy stops at, or the end of the order. */
  ghost predicate IsRun<S>(targets: seq<RoutingTarget>, outcomes: seq<Result<S, GozarError>>, n: nat) {
    && |outcomes| == |targets| && n <= |targets| && (n == 0 <==> targets == [])
    && (forall i | 0 <= i < n - 1 :: outcomes[i].Err? && AllowsFallback(targets[i].policy, outcomes[i].error))
    && (0 < n < |targets| ==> outcomes[n - 1].Ok? || !AllowsFallback(targets[n - 1].policy, outcomes[n - 1].error))
  }

  /** What a run of `n` attempts answers. */
  function RunResult<S>(outcomes: seq<Result<S, GozarError>>, n: nat): Result<S, GozarError>
    requires n <= |outcomes|
  {
    if n == 0 then Err(ExhaustedError(None))
    else if outcomes[n - 1].Ok? then outcomes[n - 1]
    else Err(ExhaustedError(Some(outcomes[n - 1].error)))
  }

  /** The trace names the attempted nodes in order, and says a fallback was taken exactly
      where another attempt follows. */
  ghost predicate Traces<S>(attempts: seq<Attempt>, targets: seq<RoutingTarget>, outcomes: seq<Result<S, GozarError>>,
                            n: nat) {
    && |attempts| == n <= |targets| && |outcomes| == |targets|
    && forall i | 0 <= i < n ::
      && attempts[i].target == targets[i]
      && attempts[i].fallbackTaken == (i + 1 < n)
      && (outcomes[i].Err? ==> attempts[i].outcome == Failed(outcomes[i].error))
      && (outcomes[i].Ok? ==> attempts[i].outcome.Succeeded?)
  }

  /** The machine is deterministic: attempt order and answers fix the run. */
  lemma RunUnique<S>(targets: seq<RoutingTarget>, outcomes: seq<Result<S, GozarError>>, n: nat, m: nat)
    requires IsRun(targets, outcomes, n) && IsRun(targets, outcomes, m)
    ensures n == m
  {
    if n < m {
      assert false; // the n-th failure would both stop the run and let it pass
    } else if m < n {
      assert false;
    }
  }

  predicate EndsWith(text: string, tail: string) {
    |tail| <= |text| && text[|text| - |tail|..] == tail
  }

  /** A run that fails answers an upstream failure with the last attempt's provider status and
      message, or none when it had no node to try. */
  lemma FailedRun<S>(targets: seq<RoutingTarget>, outcomes: seq<Result<S, GozarError>>, n: nat)
    requires IsRun(targets, outcomes, n) && RunResult(outcomes, n).Err?
    ensures var error := RunResult(outcomes, n).error;
            && error.kind == UpstreamFailed
            && (targets == [] ==> error.upstreamStatus == None)
            && (targets != [] ==>
                  n > 0 && outcomes[n - 1].Err? && error.upstreamStatus == outcomes[n - 1].error.upstreamStatus
                  && EndsWith(error.message, outcomes[n - 1].error.message))
  {
  }

  /** A run stops before its order's end only at a success or at an error its node's edge does
      not let pass; a strict edge passes on exactly the transient upstream failures. */
  lemma StrictEdgeStops<S>(targets: seq<RoutingTarget>, outcomes: seq<Result<S, GozarError>>, n: nat, i: nat)
    requires IsRun(targets, outcomes, n) && i < n && targets[i].policy == Retryable && outcomes[i].Err?
    requires i + 1 < |targets|
    ensures var e := outcomes[i].error;
            i + 1 < n
            <==> e.kind == UpstreamFailed
                 && match e.upstreamStatus case None => true case Some(s) => s == 429 || 500 <= s < 600
  {
    EdgeLetsPass(outcomes[i].error);
    hide AllowsFallback;
  }

  /** Only the last attempt can have succeeded. */
  lemma SuccessIsLast<S>(targets: seq<RoutingTarget>, outcomes: seq<Result<S, GozarError>>, n: nat, i: nat)
    requires IsRun(targets, outcomes, n) && i < n && outcomes[i].Ok?
    ensures i == n - 1 && RunResult(outcomes, n) == outcomes[i]
  {
  }

  /** Loosening policies only extends a run: the strict run's nodes are a prefix of the
      loose run's, and a strict success is the same success on the same node. */
  lemma LooserExtends<S>(strict: seq<RoutingTarget>, loose: seq<RoutingTarget>, outcomes: seq<Result<S, GozarError>>,
                         n: nat, m: nat)
    requires |strict| == |loose|
    requires forall i | 0 <= i < |strict| ::
               loose[i] == strict[i].(policy := loose[i].policy) && AtLeastAsLoose(loose[i].policy, strict[i].policy)
    requires IsRun(strict, outcomes, n) && IsRun(loose, outcomes, m)
    ensures n <= m
    ensures RunResult(outcomes, n).Ok? ==> n == m
  {
    if m < n {
      assert outcomes[m - 1].Err? && AllowsFallback(strict[m - 1].policy, outcomes[m - 1].error);
      LooserAllowsMore(loose[m - 1].policy, strict[m - 1].policy, outcomes[m - 1].error);
    }
    if RunResult(outcomes, n).Ok? && n < m {
      assert false;
    }
  }

  // --- The trace a request collects ------------------------------------------

  class PipelineTrace {
    var attempts: seq<Attempt>
    var selectedNode: Option<nat>
    var selectedPosition: Option<nat>

    constructor ()
      ensures attempts == [] && selectedNode == None && selectedPosition == None
    {
      attempts, selectedNode, selectedPosition := [], None, None;
    }

    method RecordFailed(target: RoutingTarget, error: GozarError, fallbackTaken: bool)
      modifies this`attempts
      ensures attempts == old(attempts) + [Attempt(target, Failed(error), fallbackTaken)]
    {
      attempts := attempts + [Attempt(target, Failed(error), fallbackTaken)];
    }

    method RecordSuccessful(target: RoutingTarget, refreshed: bool)
      modifies this
      ensures attempts == old(attempts) + [Attempt(target, Succeeded(refreshed), false)]
      ensures selectedNode == target.nodeId && selectedPosition == target.position
    {
      attempts := attempts + [Attempt(target, Succeeded(refreshed), false)];
      selectedNode, selectedPosition := target.nodeId, target.position;
    }

    /** A committed stream failed: the selected attempt becomes a stream error. */
    method UpdateSelectedStreamAttempt(error: GozarError)
      modifies this`attempts
      ensures old(attempts) == [] ==> attempts == []
      ensures old(attempts) != [] ==> (
        var last := |old(attempts)| - 1;
        attempts == old(attempts)[last := old(attempts)[last].(outcome := StreamFailed(error))])
    {
      if attempts != [] {
        var last := |attempts| - 1;
        attempts := attempts[last := attempts[last].(outcome := StreamFailed(error))];
      }
    }

    ghost predicate Fresh()
      reads this
    {
      attempts == [] && selectedNode == None && selectedPosition == None
    }

    /** The loop has moved past its first `n` nodes: each failed and let a fallback pass,
        or is the last one of the order. */
    ghost predicate SoFar<S>(targets: seq<RoutingTarget>, outcomes: seq<Result<S, GozarError>>, n: nat)
      reads this
    {
      && |outcomes| == |targets| && |attempts| == n <= |targets|
      && selectedNode == None && selectedPosition == None
      && forall i | 0 <= i < n ::
        && outcomes[i].Err? && AllowsFallback(targets[i].policy, outcomes[i].error)
        && attempts[i] == Attempt(targets[i], Failed(outcomes[i].error), i < |targets| - 1)
    }

    /** A finished run is traced: its attempts, and a selected node exactly on success. */
    ghost predicate Holds<S>(targets: seq<RoutingTarget>, outcomes: seq<Result<S, GozarError>>, n: nat)
      reads this
    {
      && Traces(attempts, targets, outcomes, n)
      && if n > 0 && outcomes[n - 1].Ok? then
           selectedNode == targets[n - 1].nodeId && selectedPosition == targets[n - 1].position
         else
           selectedNode == None && selectedPosition == None
    }

    /** A run that was served by a stream which then failed: every earlier attempt failed and
        passed on, the last is a stream error, and its node stays selected. */
    ghost predicate HoldsBroken<S>(targets: seq<RoutingTarget>, outcomes: seq<Result<S, GozarError>>, n: nat,
                                   error: GozarError)
      reads this
    {
      && 0 < n == |attempts| <= |targets| && |outcomes| == |targets|
      && (forall i | 0 <= i < n - 1 ::
            outcomes[i].Err? && attempts[i] == Attempt(targets[i], Failed(outcomes[i].error), true))
      && attempts[n - 1] == Attempt(targets[n - 1], StreamFailed(error), false)
      && selectedNode == targets[n - 1].nodeId && selectedPosition == targets[n - 1].position
    }
  }

  // --- Upstream calls of a run ---------------------------------------------------

  /** How many upstream calls the first `n` nodes make. */
  function UpstreamCalls<A>(scripts: seq<NodeScript<A>>, n: nat): (calls: nat)
    requires n <= |scripts|
    ensures calls <= 2 * n
  {
    if n == 0 then 0 else UpstreamCalls(scripts, n - 1) + CallWithReactiveRefresh(scripts[n - 1]).1
  }
}
