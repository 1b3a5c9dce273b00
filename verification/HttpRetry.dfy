/** The bounded HTTP retry loops, buffered and streaming.

    The network is a script: `world(n)` is what the n-th call of a client meets. */
module HttpRetry {
  import opened Prelude
  import opened Utf8

  /** One HTTP exchange. `Refused` is a transport failure before a response; a broken reply
      fails after its listed chunks were delivered. */
  datatype Exchange = Refused | Reply(status: int, chunks: seq<seq<Byte>>, broken: bool)

  datatype UpstreamFailure = TransportFailure(attempts: nat) | StatusFailure(status: int)

  predicate IsRetryableStatus(status: int) {
    status == 429 || 500 <= status <= 599
  }

  /** A buffered call reads the whole body inside the call, so a broken body is a
      transport failure too. */
  predicate RequestTransient(x: Exchange) {
    x.Refused? || x.broken || IsRetryableStatus(x.status)
  }

  /** The bytes an exchange forwards to a streaming caller. */
  function Delivered(x: Exchange): seq<seq<Byte>> {
    if x.Reply? && x.status < 400 then Filter(x.chunks, (c: seq<Byte>) => c != []) else []
  }

  /** A streaming exchange is retried when it failed in a retryable way before any byte. */
  predicate StreamTransient(x: Exchange) {
    || x.Refused?
    || (x.status >= 400 && (x.broken || IsRetryableStatus(x.status)))
    || (x.status < 400 && x.broken && Delivered(x) == [])
  }

  /** The call at which retrying from call `n` stops. */
  function FinalCall(world: nat -> Exchange, transient: Exchange -> bool, maxAttempts: nat, n: nat): (last: nat)
    requires 1 <= n <= maxAttempts
    ensures n <= last <= maxAttempts
    ensures forall i | n <= i < last :: transient(world(i))
    ensures last < maxAttempts ==> !transient(world(last))
    decreases maxAttempts - n
  {
    if n < maxAttempts && transient(world(n)) then FinalCall(world, transient, maxAttempts, n + 1) else n
  }

  lemma FinalCallUnique(world: nat -> Exchange, transient: Exchange -> bool, maxAttempts: nat, n: nat, last: nat)
    requires 1 <= n <= last <= maxAttempts
    requires forall i | n <= i < last :: transient(world(i))
    requires last < maxAttempts ==> !transient(world(last))
    ensures FinalCall(world, transient, maxAttempts, n) == last
  {
    var f := FinalCall(world, transient, maxAttempts, n);
    if f != last {
      assert false; // the smaller of the two would be both final and transient
    }
  }

  /** How the exchange of the last call ends a buffered request. */
  function RequestEnd(x: Exchange, calls: nat): Result<Exchange, UpstreamFailure> {
    if x.Refused? || x.broken then Err(TransportFailure(calls))
    else if x.status >= 400 then Err(StatusFailure(x.status))
    else Ok(x)
  }

  /** How the exchange of the last call ends a stream, after its delivered bytes. */
  function StreamEnd(x: Exchange, calls: nat): Option<UpstreamFailure> {
    if x.Refused? || x.broken then Some(TransportFailure(calls))
    else if x.status >= 400 then Some(StatusFailure(x.status))
    else None
  }

  /** What is tried again: a transport failure, a broken body, 429 and server errors; of a
      streamed answer a broken success only while no byte of it has been forwarded. */
  lemma TriedAgain(x: Exchange)
    ensures RequestTransient(x) <==> x.Refused? || x.broken || x.status == 429 || 500 <= x.status < 600
    ensures StreamTransient(x)
       <==> || x.Refused?
            || (x.status >= 400 && (x.broken || x.status == 429 || 500 <= x.status < 600))
            || (x.status < 400 && x.broken && forall c | c in x.chunks :: c == [])
  {
    if x.Reply? && x.status < 400 {
      DeliveredIsAll(x);
    }
  }

  /** A successful answer forwards every byte it delivers, in order. */
  lemma DeliveredIsAll(x: Exchange)
    requires x.Reply? && x.status < 400
    ensures Flatten(Delivered(x)) == Flatten(x.chunks)
    ensures Delivered(x) == [] <==> forall c | c in x.chunks :: c == []
  {
    FilledIsAll(x.chunks);
  }

  lemma {:induction false} FilledIsAll(chunks: seq<seq<Byte>>)
    ensures var filled := Filter(chunks, (c: seq<Byte>) => c != []);
            Flatten(filled) == Flatten(chunks) && (filled == [] <==> forall c | c in chunks :: c == [])
  {
    if chunks != [] {
      FilledIsAll(chunks[1..]);
      FilterFirst(chunks, (c: seq<Byte>) => c != []);
      var filled := Filter(chunks[1..], (c: seq<Byte>) => c != []);
      assert forall c :: c in chunks <==> c == chunks[0] || c in chunks[1..];
      if chunks[0] != [] {
        assert ([chunks[0]] + filled)[1..] == filled;
      } else {
        NothingAdded(filled);
      }
      hide Filter;
    }
  }

  /** How the last answer ends a call: a whole success is the answer, an error status is a
      failure with that status, and anything cut off a transport failure. */
  lemma EndSays(x: Exchange, calls: nat)
    ensures RequestEnd(x, calls) == Ok(x) <==> x.Reply? && !x.broken && x.status < 400
    ensures x.Reply? && !x.broken && x.status >= 400 ==>
              && RequestEnd(x, calls) == Err(StatusFailure(x.status))
              && StreamEnd(x, calls) == Some(StatusFailure(x.status))
    ensures x.Refused? || x.broken ==>
              && RequestEnd(x, calls) == Err(TransportFailure(calls))
              && StreamEnd(x, calls) == Some(TransportFailure(calls))
    ensures StreamEnd(x, calls) == None <==> x.Reply? && !x.broken && x.status < 400
  {
  }

  /** A whole streamed call: the bytes forwarded, and the failure that ended it, if any. */
  datatype ByteStream = ByteStream(chunks: seq<seq<Byte>>, failure: Option<UpstreamFailure>)

  function StreamOutcome(world: nat -> Exchange, maxAttempts: nat): ByteStream
    requires 1 <= maxAttempts
  {
    var n := FinalCall(world, StreamTransient, maxAttempts, 1);
    ByteStream(Delivered(world(n)), StreamEnd(world(n), n))
  }

  // --- Backoff ---------------------------------------------------------------

  function Pow2(n: nat): nat {
    if n == 0 then 1 else 2 * Pow2(n - 1)
  }

  /** The capped exponential term before the `attempt`-th retry. */
  function CappedTerm(base: real, cap: real, attempt: nat): real
    requires attempt >= 1
  {
    var exponential := base * Pow2(attempt - 1) as real;
    if cap > 0.0 && cap < exponential then cap else exponential
  }

  /** Equal jitter; `u` is the random draw as a fraction of the jittered half. */
  function BackoffDelay(base: real, cap: real, attempt: nat, u: real): real
    requires attempt >= 1
  {
    if base <= 0.0 then 0.0
    else
      var half := CappedTerm(base, cap, attempt) / 2.0;
      half + u * half
  }

  function Total(delays: seq<real>): real {
    if delays == [] then 0.0 else Total(delays[..|delays| - 1]) + delays[|delays| - 1]
  }

  /** A fraction of the jittered half, as the random source draws it. */
  ghost predicate Draws(draw: nat -> real) {
    forall k :: 0.0 <= draw(k) <= 1.0
  }

  /** The i-th wait is the backoff before the i-th retry. */
  predicate IsBackoff(delays: seq<real>, base: real, cap: real, draw: nat -> real) {
    forall i | 0 <= i < |delays| :: delays[i] == BackoffDelay(base, cap, i + 1, draw(i + 1))
  }

  lemma JitterBounds(c: real, u: real)
    requires 0.0 <= u <= 1.0 && c >= 0.0
    ensures var half := c / 2.0; half <= half + u * half <= c
  {
    var half := c / 2.0;
    assert u * half >= 0.0 && (1.0 - u) * half >= 0.0;
    assert u * half + (1.0 - u) * half == half;
  }

  lemma TermPositive(base: real, cap: real, attempt: nat)
    requires base > 0.0 && attempt >= 1
    ensures CappedTerm(base, cap, attempt) > 0.0
  {
    PowPositive(attempt - 1);
    assert base * Pow2(attempt - 1) as real > 0.0;
  }

  lemma {:induction false} PowPositive(n: nat)
    ensures Pow2(n) >= 1
  {
    if n > 0 {
      PowPositive(n - 1);
    }
  }

  /** Every wait lies between half the capped term and the whole of it. */
  lemma DelayBounds(base: real, cap: real, attempt: nat, u: real)
    requires base > 0.0 && attempt >= 1 && 0.0 <= u <= 1.0
    ensures var c := CappedTerm(base, cap, attempt);
            c / 2.0 <= BackoffDelay(base, cap, attempt, u) <= c
  {
    hide CappedTerm;
    TermPositive(base, cap, attempt);
    JitterBounds(CappedTerm(base, cap, attempt), u);
  }

  /** The waits grow: each is at least half the doubled base, up to half the cap. */
  lemma WaitsGrow(base: real, cap: real, attempt: nat, u: real)
    requires base > 0.0 && attempt >= 1 && 0.0 <= u <= 1.0
    ensures var wait, doubled := BackoffDelay(base, cap, attempt, u), base * Pow2(attempt - 1) as real;
            if cap <= 0.0 || doubled <= cap then doubled / 2.0 <= wait <= doubled else cap / 2.0 <= wait <= cap
  {
    DelayBounds(base, cap, attempt, u);
    hide BackoffDelay;
  }

  /** Without a cap the first wait is drawn from the base, and every next one from twice as
      much. */
  lemma TermsDouble(base: real, attempt: nat)
    requires attempt >= 1
    ensures CappedTerm(base, 0.0, 1) == base
    ensures CappedTerm(base, 0.0, attempt + 1) == 2.0 * CappedTerm(base, 0.0, attempt)
  {
    var p := Pow2(attempt - 1) as real;
    assert Pow2(attempt) as real == 2.0 * p;
    assert base * (2.0 * p) == 2.0 * (base * p);
  }

  /** Every wait from half the capped term up to the whole of it can be drawn. */
  lemma JitterSpans(base: real, cap: real, attempt: nat, wait: real) returns (u: real)
    requires base > 0.0 && attempt >= 1
    requires var c := CappedTerm(base, cap, attempt); c / 2.0 <= wait <= c
    ensures 0.0 <= u <= 1.0 && BackoffDelay(base, cap, attempt, u) == wait
  {
    TermPositive(base, cap, attempt);
    u := Share(wait, CappedTerm(base, cap, attempt) / 2.0);
  }

  lemma Share(wait: real, half: real) returns (u: real)
    requires half > 0.0 && half <= wait <= half + half
    ensures 0.0 <= u <= 1.0 && half + u * half == wait
  {
    u := (wait - half) / half;
    assert u * half == wait - half;
    assert (1.0 - u) * half == half - (wait - half);
  }

  /** Without a base there is no waiting. */
  lemma NoWaits(base: real, cap: real, attempt: nat, u: real)
    requires base <= 0.0 && attempt >= 1
    ensures BackoffDelay(base, cap, attempt, u) == 0.0
  {
  }

  lemma TermBounds(base: real, cap: real, attempt: nat)
    requires base > 0.0 && attempt >= 1
    ensures CappedTerm(base, cap, attempt) <= base * Pow2(attempt - 1) as real
    ensures cap > 0.0 ==> CappedTerm(base, cap, attempt) <= cap
  {
  }

  lemma DoubleStep(base: real, p: real)
    ensures base * p + base * (p - 1.0) == base * (2.0 * p - 1.0)
  {
  }

  lemma AddOneCap(n: nat, cap: real)
    requires n > 0
    ensures (n - 1) as real * cap + cap == n as real * cap
  {
    var m := (n - 1) as real;
    assert m * cap + cap == (m + 1.0) * cap;
  }

  /** All the waits of a call together stay under both the geometric and the linear bound. */
  lemma {:induction false} TotalWaitBound(delays: seq<real>, base: real, cap: real, draw: nat -> real)
    requires base > 0.0 && Draws(draw) && IsBackoff(delays, base, cap, draw)
    ensures Total(delays) <= base * (Pow2(|delays|) as real - 1.0)
    ensures cap > 0.0 ==> Total(delays) <= |delays| as real * cap
  {
    hide CappedTerm, BackoffDelay;
    var n := |delays|;
    if n > 0 {
      TotalWaitBound(delays[..n - 1], base, cap, draw);
      assert delays[n - 1] == BackoffDelay(base, cap, n, draw(n));
      DelayBounds(base, cap, n, draw(n));
      TermBounds(base, cap, n);
      DoubleStep(base, Pow2(n - 1) as real);
      AddOneCap(n, cap);
    }
  }

  // --- The client ------------------------------------------------------------

  /** What one streaming call settles: an answer that is not transient, or the last call
      allowed, ends the loop; otherwise nothing was forwarded and it goes on. */
  lemma StreamStep(world: nat -> Exchange, maxAttempts: nat, attempt: nat)
    requires 1 <= attempt <= maxAttempts && forall i | 1 <= i < attempt :: StreamTransient(world(i))
    ensures attempt == maxAttempts || !StreamTransient(world(attempt)) ==>
              && FinalCall(world, StreamTransient, maxAttempts, 1) == attempt
              && StreamOutcome(world, maxAttempts)
                 == ByteStream(Delivered(world(attempt)), StreamEnd(world(attempt), attempt))
    ensures StreamTransient(world(attempt)) ==> Delivered(world(attempt)) == []
  {
    if attempt == maxAttempts || !StreamTransient(world(attempt)) {
      FinalCallUnique(world, StreamTransient, maxAttempts, 1, attempt);
    }
    if StreamTransient(world(attempt)) {
      TransientForwardsNothing(world(attempt));
    }
  }

  /** An exchange that is retried has forwarded nothing, so no byte is ever replayed. */
  lemma TransientForwardsNothing(x: Exchange)
    requires StreamTransient(x)
    ensures Delivered(x) == []
  {
  }

  class UpstreamClient {
    const maxAttempts: nat
    const backoffBase: real
    const backoffMax: real
    const ownsClient: bool
    var connected: bool // whether an HTTP client handle is held

    ghost predicate Valid()
      reads this
    {
      maxAttempts >= 1
    }

    constructor (configuredAttempts: int, base: real, cap: real, injected: bool)
      ensures Valid() && maxAttempts as int == if configuredAttempts < 1 then 1 else configuredAttempts
      ensures backoffBase == base && backoffMax == cap && ownsClient == !injected && connected == injected
    {
      maxAttempts := if configuredAttempts < 1 then 1 else configuredAttempts;
      backoffBase, backoffMax, ownsClient, connected := base, cap, !injected, injected;
    }

    /** Close the handle if this client made it. */
    method Aclose()
      modifies this`connected
      ensures connected == (old(connected) && !ownsClient)
    {
      if ownsClient && connected {
        connected := false;
      }
    }

    /** Send until an exchange is not transient or the attempts run out. The last call
        alone decides the result, and every earlier one was transient. */
    method Request(world: nat -> Exchange, draw: nat -> real)
      returns (result: Result<Exchange, UpstreamFailure>, calls: nat, delays: seq<real>)
      requires Valid()
      modifies this`connected
      ensures connected
      ensures 1 <= calls <= maxAttempts && calls == FinalCall(world, RequestTransient, maxAttempts, 1)
      ensures result == RequestEnd(world(calls), calls)
      ensures |delays| == calls - 1 && IsBackoff(delays, backoffBase, backoffMax, draw)
    {
      connected := true;
      delays := [];
      var attempt: nat := 0;
      while attempt < maxAttempts
        invariant attempt < maxAttempts && |delays| == attempt
        invariant forall i | 1 <= i <= attempt :: RequestTransient(world(i))
        invariant IsBackoff(delays, backoffBase, backoffMax, draw)
        invariant connected
      {
        attempt := attempt + 1;
        var response := world(attempt);
        if response.Refused? || response.broken {
          if attempt < maxAttempts {
            delays := delays + [BackoffDelay(backoffBase, backoffMax, attempt, draw(attempt))];
            continue;
          }
          FinalCallUnique(world, RequestTransient, maxAttempts, 1, attempt);
          return Err(TransportFailure(attempt)), attempt, delays;
        }
        if IsRetryableStatus(response.status) && attempt < maxAttempts {
          delays := delays + [BackoffDelay(backoffBase, backoffMax, attempt, draw(attempt))];
          continue;
        }
        FinalCallUnique(world, RequestTransient, maxAttempts, 1, attempt);
        if response.status >= 400 {
          return Err(StatusFailure(response.status)), attempt, delays;
        }
        return Ok(response), attempt, delays;
      }
      assert false; // every iteration of the last attempt returns
    }

    /** Yield the non-empty chunks as they arrive. */
    static method ForwardChunks(chunks: seq<seq<Byte>>) returns (forwarded: seq<seq<Byte>>, yielded: bool)
      ensures forwarded == Filter(chunks, (c: seq<Byte>) => c != []) && (yielded <==> forwarded != [])
    {
      forwarded, yielded := [], false;
      assert Filter(chunks[..0], (c: seq<Byte>) => c != []) == [];
      hide Filter;
      for i := 0 to |chunks|
        invariant forwarded == Filter(chunks[..i], (c: seq<Byte>) => c != []) && (yielded <==> forwarded != [])
      {
        FilterSnoc(chunks, i, (c: seq<Byte>) => c != []);
        if chunks[i] != [] {
          yielded := true;
          forwarded := forwarded + [chunks[i]];
        }
      }
      assert chunks[..|chunks|] == chunks;
    }

    /** Stream with retries before the first byte only: the bytes forwarded are those of
        the last exchange, and every exchange before it forwarded none. */
    method Stream(world: nat -> Exchange, draw: nat -> real)
      returns (stream: ByteStream, calls: nat, delays: seq<real>)
      requires Valid()
      modifies this`connected
      ensures connected
      ensures stream == StreamOutcome(world, maxAttempts)
      ensures 1 <= calls <= maxAttempts && calls == FinalCall(world, StreamTransient, maxAttempts, 1)
      ensures stream.chunks == Delivered(world(calls)) && forall i | 1 <= i < calls :: Delivered(world(i)) == []
      ensures |delays| == calls - 1 && IsBackoff(delays, backoffBase, backoffMax, draw)
    {
      hide Filter, BackoffDelay, FinalCall, StreamOutcome;
      connected := true;
      delays := [];
      var forwarded: seq<seq<Byte>> := [];
      var attempt: nat := 0;
      while attempt < maxAttempts
        invariant attempt < maxAttempts && |delays| == attempt
        invariant forall i | 1 <= i <= attempt :: StreamTransient(world(i)) && Delivered(world(i)) == []
        invariant forwarded == [] && connected
        invariant IsBackoff(delays, backoffBase, backoffMax, draw)
      {
        attempt := attempt + 1;
        StreamStep(world, maxAttempts, attempt);
        var yielded := false;
        var response := world(attempt);
        if response.Reply? && response.status < 400 {
          forwarded, yielded := ForwardChunks(response.chunks);
        }
        assert forwarded == Delivered(response);
        if response.Reply? && !response.broken {
          if response.status >= 400 && IsRetryableStatus(response.status) && attempt < maxAttempts {
            delays := delays + [BackoffDelay(backoffBase, backoffMax, attempt, draw(attempt))];
            continue;
          }
        } else if !yielded && attempt < maxAttempts {
          delays := delays + [BackoffDelay(backoffBase, backoffMax, attempt, draw(attempt))];
          continue;
        }
        if response.Refused? || response.broken {
          return ByteStream(forwarded, Some(TransportFailure(attempt))), attempt, delays;
        } else if response.status >= 400 {
          return ByteStream(forwarded, Some(StatusFailure(response.status))), attempt, delays;
        }
        return ByteStream(forwarded, None), attempt, delays;
      }
      assert false; // every iteration of the last attempt returns
    }
  }
}
