/** Provider protection: a sliding-window rate limiter, a circuit breaker and a
    token bucket, each proved against the history of everything it has seen. */
module Limiters {

  /** Times are seconds of a clock that never goes back. */
  type Time = real

  predicate Rising(times: seq<Time>) {
    forall i, j :: 0 <= i <= j < |times| ==> times[i] <= times[j]
  }

  /** The times of a history that lie in the closed interval [a, b]. */
  function Between(times: seq<Time>, a: Time, b: Time): seq<Time> {
    if times == [] then []
    else
      var front, t := times[..|times| - 1], times[|times| - 1];
      if a <= t <= b then Between(front, a, b) + [t] else Between(front, a, b)
  }

  lemma {:induction false} NarrowerHoldsFewer(times: seq<Time>, a: Time, b: Time, a': Time, b': Time)
    requires forall i :: 0 <= i < |times| && a <= times[i] <= b ==> a' <= times[i] <= b'
    ensures |Between(times, a, b)| <= |Between(times, a', b')|
  {
    if times != [] {
      NarrowerHoldsFewer(times[..|times| - 1], a, b, a', b');
    }
  }

  /** On a rising history the times from `a` on are a suffix. */
  lemma {:induction false} RecentIsSuffix(times: seq<Time>, k: nat, a: Time, b: Time)
    requires k <= |times|
    requires forall i :: 0 <= i < k ==> times[i] < a
    requires forall i :: k <= i < |times| ==> a <= times[i] <= b
    ensures Between(times, a, b) == times[k..]
  {
    if times != [] {
      var front := times[..|times| - 1];
      if k == |times| {
        assert forall i :: 0 <= i < |front| ==> front[i] < a;
        RecentIsSuffix(front, k - 1, a, b);
      } else {
        RecentIsSuffix(front, k, a, b);
        assert times[k..] == front[k..] + [times[|times| - 1]];
      }
    }
  }

  /** The kept part of a history: a suffix, everything before it out of the window. */
  ghost predicate Kept(history: seq<Time>, kept: seq<Time>, now: Time, window: Time) {
    && |kept| <= |history|
    && kept == history[|history| - |kept|..]
    && forall i :: 0 <= i < |history| - |kept| ==> now - history[i] > window
  }

  /** Drop what has left the window from the front of a queue. */
  method Prune(ghost history: seq<Time>, queue: seq<Time>, now: Time, window: Time) returns (kept: seq<Time>)
    requires Tracked(history, queue, now, window)
    ensures Tracked(history, kept, now, window)
    ensures kept == Between(history, now - window, now)
  {
    kept := queue;
    while kept != [] && now - kept[0] > window
      invariant Kept(history, kept, now, window)
      decreases |kept|
    {
      kept := kept[1..];
    }
    var k := |history| - |kept|;
    assert forall i :: k <= i < |history| ==> history[i] == kept[i - k];
    if kept != [] {
      assert forall i :: k <= i < |history| ==> history[k] <= history[i];
    }
    RecentIsSuffix(history, k, now - window, now);
  }

  /** One provider's queue and history at a given time. */
  ghost predicate Tracked(history: seq<Time>, kept: seq<Time>, now: Time, window: Time) {
    Rising(history) && (forall i :: 0 <= i < |history| ==> history[i] <= now) && Kept(history, kept, now, window)
  }

  lemma TrackedLater(history: seq<Time>, kept: seq<Time>, now: Time, later: Time, window: Time)
    requires Tracked(history, kept, now, window) && now <= later
    ensures Tracked(history, kept, later, window)
  {
  }

  lemma TrackedGrows(history: seq<Time>, kept: seq<Time>, now: Time, window: Time)
    requires Tracked(history, kept, now, window)
    ensures Tracked(history + [now], kept + [now], now, window)
  {
  }

  function HistoryOf(histories: map<string, seq<Time>>, provider: string): seq<Time> {
    if provider in histories then histories[provider] else []
  }

  // ------------------------------------------------ sliding window

  /** What the window admits: fewer than `maxCalls` grants in [now - window, now]. */
  predicate Admits(grants: seq<Time>, maxCalls: int, window: Time, now: Time) {
    |Between(grants, now - window, now)| < maxCalls
  }

  function Granted(maxCalls: int, window: Time, requests: seq<Time>): seq<Time> {
    if requests == [] then []
    else
      var before, now := Granted(maxCalls, window, requests[..|requests| - 1]), requests[|requests| - 1];
      if Admits(before, maxCalls, window, now) then before + [now] else before
  }

  lemma {:induction false} GrantedWithin(maxCalls: int, window: Time, requests: seq<Time>, now: Time)
    requires Rising(requests + [now])
    ensures forall i :: 0 <= i < |Granted(maxCalls, window, requests)| ==> Granted(maxCalls, window, requests)[i] <= now
  {
    if requests != [] {
      var front, last := requests[..|requests| - 1], requests[|requests| - 1];
      assert forall i :: 0 <= i < |requests| ==> (requests + [now])[i] == requests[i];
      assert (requests + [now])[|requests|] == now;
      assert front + [last] == requests;
      GrantedWithin(maxCalls, window, front, last);
    }
  }

  /** Main result: at most `maxCalls` grants in any closed interval as long as the window. */
  lemma {:induction false} WindowBound(maxCalls: int, window: Time, requests: seq<Time>, a: Time)
    requires Rising(requests)
    ensures |Between(Granted(maxCalls, window, requests), a, a + window)| <= if maxCalls < 0 then 0 else maxCalls
  {
    hide Between;
    if requests != [] {
      var front, now := requests[..|requests| - 1], requests[|requests| - 1];
      var before := Granted(maxCalls, window, front);
      RisingFront(requests);
      WindowBound(maxCalls, window, front, a);
      assert front + [now] == requests;
      GrantedWithin(maxCalls, window, front, now);
      BetweenAppend(before, now, a, a + window);
      if a <= now <= a + window {
        NarrowerHoldsFewer(before, a, a + window, now - window, now);
      }
    } else {
      assert Between([], a, a + window) == [] by { BetweenNothing(a, a + window); }
    }
  }

  lemma BetweenNothing(a: Time, b: Time)
    ensures Between([], a, b) == []
  {
  }

  lemma RisingFront(times: seq<Time>)
    requires Rising(times) && times != []
    ensures Rising(times[..|times| - 1])
  {
  }

  class ProviderRateLimiter {
    const maxCalls: int
    const window: Time
    var calls: map<string, seq<Time>>
    ghost var grants: map<string, seq<Time>>
    ghost var clock: Time

    ghost predicate Valid() reads this {
      grants.Keys == calls.Keys && forall p :: p in grants ==> Tracked(grants[p], calls[p], clock, window)
    }

    constructor (maxCalls: int, window: Time, now: Time)
      ensures Valid() && this.maxCalls == maxCalls && this.window == window && grants == map[] && clock == now
    {
      this.maxCalls, this.window := maxCalls, window;
      calls, grants, clock := map[], map[], now;
    }

    /** Main result: a call is granted exactly when fewer than `maxCalls` grants
        of its provider lie in the current window. */
    method Allow(provider: string, now: Time) returns (ok: bool)
      requires Valid() && clock <= now
      modifies this
      ensures Valid() && clock == now
      ensures ok == Admits(HistoryOf(old(grants), provider), maxCalls, window, now)
      ensures grants == old(grants)[provider := HistoryOf(old(grants), provider) + (if ok then [now] else [])]
    {
      hide Tracked, Between;
      var queue := if provider in calls then calls[provider] else [];
      ghost var history := HistoryOf(grants, provider);
      forall p | p in grants ensures Tracked(grants[p], calls[p], now, window) {
        TrackedLater(grants[p], calls[p], clock, now, window);
      }
      TrackedNothing(now, window);
      clock := now;
      queue := Prune(history, queue, now, window);
      if |queue| >= maxCalls {
        calls, grants := calls[provider := queue], grants[provider := history];
        assert history + [] == history;
        return false;
      }
      TrackedGrows(history, queue, now, window);
      calls, grants := calls[provider := queue + [now]], grants[provider := history + [now]];
      return true;
    }
  }

  lemma TrackedNothing(now: Time, window: Time)
    ensures Tracked([], [], now, window)
  {
  }

  // ------------------------------------------------ circuit breaker

  /** The breaker is open: some failure reached the threshold within its window,
      and that failure's cooldown is not over. */
  ghost predicate Tripped(failures: seq<Time>, threshold: int, window: Time, cooldown: Time, now: Time) {
    exists i :: 0 <= i < |failures| && Trips(failures, i, threshold, window) && now < failures[i] + cooldown
  }

  predicate Trips(failures: seq<Time>, i: nat, threshold: int, window: Time)
    requires i < |failures|
  {
    |Between(failures, failures[i] - window, failures[i])| >= threshold
  }

  /** The deadline the history implies: the last tripping failure's cooldown. */
  ghost predicate Deadline(failures: seq<Time>, threshold: int, window: Time, cooldown: Time, openUntil: Time) {
    || (openUntil == 0.0 && forall i :: 0 <= i < |failures| ==> !Trips(failures, i, threshold, window))
    || (exists i :: 0 <= i < |failures| && Trips(failures, i, threshold, window) && openUntil == failures[i] + cooldown
          && forall j :: 0 <= j < |failures| && Trips(failures, j, threshold, window) ==> failures[j] <= failures[i])
  }

  lemma BetweenAppend(times: seq<Time>, t: Time, a: Time, b: Time)
    ensures Between(times + [t], a, b) == Between(times, a, b) + (if a <= t <= b then [t] else [])
  {
    assert (times + [t])[..|times|] == times;
  }

  /** One more failure moves the deadline exactly when it trips. */
  lemma DeadlineMoves(failures: seq<Time>, threshold: int, window: Time, cooldown: Time, openUntil: Time, now: Time)
    requires Deadline(failures, threshold, window, cooldown, openUntil)
    requires forall i :: 0 <= i < |failures| ==> failures[i] <= now
    ensures var more := failures + [now];
            var trips := |Between(more, now - window, now)| >= threshold;
            Deadline(more, threshold, window, cooldown, if trips then now + cooldown else openUntil)
  {
    hide Between;
    var more, n := failures + [now], |failures|;
    assert more[n] == now && forall i :: 0 <= i < n ==> more[i] == failures[i];
    var trips := |Between(more, now - window, now)| >= threshold;
    assert trips == Trips(more, n, threshold, window);
    forall i | 0 <= i < n ensures Trips(more, i, threshold, window)
      ==> Trips(failures, i, threshold, window) || (failures[i] == now && trips)
      ensures Trips(failures, i, threshold, window) ==> Trips(more, i, threshold, window)
    {
      BetweenAppend(failures, now, failures[i] - window, failures[i]);
      assert failures[i] == now ==>
        Between(more, failures[i] - window, failures[i]) == Between(more, now - window, now);
    }
    if !trips && exists i :: 0 <= i < n && Trips(failures, i, threshold, window) {
      var i :| 0 <= i < n && Trips(failures, i, threshold, window) && openUntil == failures[i] + cooldown
        && forall j :: 0 <= j < n && Trips(failures, j, threshold, window) ==> failures[j] <= failures[i];
      assert Trips(more, i, threshold, window) && openUntil == more[i] + cooldown;
      assert forall j :: 0 <= j < |more| && Trips(more, j, threshold, window) ==> j < n && more[j] <= more[i];
    }
  }

  lemma DeadlineDecides(failures: seq<Time>, threshold: int, window: Time, cooldown: Time, openUntil: Time, now: Time)
    requires Deadline(failures, threshold, window, cooldown, openUntil) && now >= 0.0
    ensures now < openUntil <==> Tripped(failures, threshold, window, cooldown, now)
  {
    hide Trips;
  }

  datatype Circuit = Circuit(failures: seq<Time>, openUntil: Time)

  class ProviderCircuitBreaker {
    const threshold: int
    const window: Time
    const cooldown: Time
    var states: map<string, Circuit>
    /** Each provider's failures since its last success. */
    ghost var history: map<string, seq<Time>>
    ghost var clock: Time

    ghost predicate Valid() reads this {
      && history.Keys == states.Keys
      && forall p :: p in history ==>
           && Tracked(history[p], states[p].failures, clock, window)
           && Deadline(history[p], threshold, window, cooldown, states[p].openUntil)
    }

    constructor (threshold: int, window: Time, cooldown: Time, now: Time)
      ensures Valid() && history == map[] && clock == now
      ensures this.threshold == threshold && this.window == window && this.cooldown == cooldown
    {
      this.threshold, this.window, this.cooldown := threshold, window, cooldown;
      states, history, clock := map[], map[], now;
    }

    /** Main result: a call is refused exactly when the history since the last success says so. */
    method Allow(provider: string, now: Time) returns (ok: bool)
      requires Valid() && clock <= now && now >= 0.0
      ensures ok == !Tripped(HistoryOf(history, provider), threshold, window, cooldown, now)
    {
      if provider !in states {
        return true;
      }
      DeadlineDecides(history[provider], threshold, window, cooldown, states[provider].openUntil, now);
      return now >= states[provider].openUntil;
    }

    method RecordSuccess(provider: string)
      requires Valid()
      modifies this
      ensures Valid() && clock == old(clock) && history == old(history)[provider := []]
    {
      states := states[provider := Circuit([], 0.0)];
      history := history[provider := []];
    }

    method RecordFailure(provider: string, now: Time)
      requires Valid() && clock <= now
      modifies this
      ensures Valid() && clock == now && history == old(history)[provider := HistoryOf(old(history), provider) + [now]]
    {
      hide Deadline, Between, Tracked;
      var circuit := if provider in states then states[provider] else Circuit([], 0.0);
      ghost var failures := HistoryOf(history, provider);
      forall p | p in history ensures Tracked(history[p], states[p].failures, now, window) {
        TrackedLater(history[p], states[p].failures, clock, now, window);
      }
      NoDeadline(threshold, window, cooldown);
      TrackedNothing(now, window);
      clock := now;
      TrackedGrows(failures, circuit.failures, now, window);
      var recent := Prune(failures + [now], circuit.failures + [now], now, window);
      NotAfter(failures, circuit.failures, now, window);
      DeadlineMoves(failures, threshold, window, cooldown, circuit.openUntil, now);
      var openUntil := if |recent| >= threshold then now + cooldown else circuit.openUntil;
      states := states[provider := Circuit(recent, openUntil)];
      history := history[provider := failures + [now]];
    }
  }

  lemma NotAfter(history: seq<Time>, kept: seq<Time>, now: Time, window: Time)
    requires Tracked(history, kept, now, window)
    ensures forall i :: 0 <= i < |history| ==> history[i] <= now
  {
  }

  lemma NoDeadline(threshold: int, window: Time, cooldown: Time)
    ensures Deadline([], threshold, window, cooldown, 0.0)
  {
  }

  // ------------------------------------------------ both in one policy

  datatype Verdict = Callable | CircuitOpen | RateLimited

  class ProviderPolicy {
    const breaker: ProviderCircuitBreaker
    const limiter: ProviderRateLimiter

    constructor (breaker: ProviderCircuitBreaker, limiter: ProviderRateLimiter)
      ensures this.breaker == breaker && this.limiter == limiter
    {
      this.breaker, this.limiter := breaker, limiter;
    }

    /** A call the open circuit refuses takes no place in the window; the
        fixture provider passes both untouched. */
    method CanCall(provider: string, now: Time) returns (v: Verdict)
      requires breaker.Valid() && limiter.Valid() && breaker.clock <= now && limiter.clock <= now && now >= 0.0
      modifies limiter
      ensures limiter.Valid()
      ensures var failures, grants := HistoryOf(breaker.history, provider), HistoryOf(old(limiter.grants), provider);
              v == if provider == "fixture" then Callable
                   else if Tripped(failures, breaker.threshold, breaker.window, breaker.cooldown, now) then CircuitOpen
                   else if Admits(grants, limiter.maxCalls, limiter.window, now) then Callable
                   else RateLimited
      ensures provider == "fixture" || v == CircuitOpen ==> limiter.grants == old(limiter.grants)
    {
      if provider == "fixture" {
        return Callable;
      }
      var closed := breaker.Allow(provider, now);
      if !closed {
        return CircuitOpen;
      }
      var free := limiter.Allow(provider, now);
      return if free then Callable else RateLimited;
    }
  }

  // ------------------------------------------------ token bucket

  datatype Bucket = Bucket(capacity: int, rate: real, tokens: real, updatedAt: Time)

  datatype Request = Request(at: Time, cost: int)

  function Min(a: real, b: real): real { if a < b then a else b }

  /** What flows in over a span of time. */
  function Flow(rate: real, span: real): real { rate * span }

  function Refilled(b: Bucket, now: Time): real {
    Min(b.capacity as real, b.tokens + Flow(b.rate, now - b.updatedAt))
  }

  predicate Grants(b: Bucket, r: Request) {
    Refilled(b, r.at) >= r.cost as real
  }

  function Take(b: Bucket, r: Request): Bucket {
    b.(tokens := Refilled(b, r.at) - (if Grants(b, r) then r.cost as real else 0.0), updatedAt := r.at)
  }

  function BucketAfter(b: Bucket, requests: seq<Request>): Bucket {
    if requests == [] then b else Take(BucketAfter(b, requests[..|requests| - 1]), requests[|requests| - 1])
  }

  /** The total cost granted at times in [t1, t2]. */
  function Spent(b: Bucket, requests: seq<Request>, t1: Time, t2: Time): int {
    if requests == [] then 0
    else
      var front, r := requests[..|requests| - 1], requests[|requests| - 1];
      Spent(b, front, t1, t2) + (if t1 <= r.at <= t2 && Grants(BucketAfter(b, front), r) then r.cost else 0)
  }

  /** The clock never goes back. */
  ghost predicate InOrder(b: Bucket, requests: seq<Request>) {
    && (forall i :: 0 <= i < |requests| ==> b.updatedAt <= requests[i].at)
    && (forall i, j :: 0 <= i <= j < |requests| ==> requests[i].at <= requests[j].at)
  }

  lemma {:induction false} BucketShape(b: Bucket, requests: seq<Request>)
    ensures BucketAfter(b, requests).capacity == b.capacity && BucketAfter(b, requests).rate == b.rate
    ensures BucketAfter(b, requests).updatedAt == if requests == [] then b.updatedAt else requests[|requests| - 1].at
  {
    if requests != [] {
      BucketShape(b, requests[..|requests| - 1]);
    }
  }

  lemma FlowGrows(rate: real, d: real, e: real)
    requires rate >= 0.0 && 0.0 <= d <= e
    ensures 0.0 <= Flow(rate, d) <= Flow(rate, e)
  {
    assert rate * e == rate * d + rate * (e - d);
  }

  lemma FlowAdds(rate: real, d: real, e: real)
    ensures Flow(rate, d) + Flow(rate, e) == Flow(rate, d + e)
  {
  }

  /** What is left plus what was spent since `t1` never exceeds the capacity plus the refill. */
  lemma {:induction false} Potential(b: Bucket, requests: seq<Request>, t1: Time, t2: Time)
    requires b.rate >= 0.0 && InOrder(b, requests) && requests != []
    requires t1 <= requests[|requests| - 1].at <= t2
    ensures var after := BucketAfter(b, requests);
            after.tokens + Spent(b, requests, t1, t2) as real <= b.capacity as real + Flow(b.rate, after.updatedAt - t1)
  {
    var front, r := requests[..|requests| - 1], requests[|requests| - 1];
    hide Flow;
    var before := BucketAfter(b, front);
    BucketShape(b, front);
    if front != [] && t1 <= front[|front| - 1].at {
      Potential(b, front, t1, t2);
      FlowAdds(b.rate, before.updatedAt - t1, r.at - before.updatedAt);
    } else {
      assert forall i :: 0 <= i < |front| ==> front[i].at <= front[|front| - 1].at;
      SpentNothing(b, front, t1, t2);
      FlowGrows(b.rate, 0.0, r.at - t1);
    }
  }

  lemma {:induction false} SpentNothing(b: Bucket, requests: seq<Request>, t1: Time, t2: Time)
    requires forall i :: 0 <= i < |requests| ==> !(t1 <= requests[i].at <= t2)
    ensures Spent(b, requests, t1, t2) == 0
  {
    if requests != [] {
      SpentNothing(b, requests[..|requests| - 1], t1, t2);
    }
  }

  /** Main result: in any interval the bucket grants at most its capacity plus
      what flows in meanwhile, whatever the costs. */
  lemma {:induction false} BucketBound(b: Bucket, requests: seq<Request>, t1: Time, t2: Time)
    requires b.rate >= 0.0 && b.capacity >= 0 && InOrder(b, requests) && t1 <= t2
    ensures Spent(b, requests, t1, t2) as real <= b.capacity as real + Flow(b.rate, t2 - t1)
  {
    hide Flow;
    if requests == [] {
      FlowGrows(b.rate, 0.0, t2 - t1);
    } else {
      var front, r := requests[..|requests| - 1], requests[|requests| - 1];
      BucketBound(b, front, t1, t2);
      if t1 <= r.at <= t2 && Grants(BucketAfter(b, front), r) {
        Potential(b, requests, t1, t2);
        BucketShape(b, requests);
        FlowGrows(b.rate, r.at - t1, t2 - t1);
      }
    }
  }

  class TokenBucket {
    const capacity: int
    const rate: real
    var tokens: real
    var updatedAt: Time

    function State(): Bucket reads this { Bucket(capacity, rate, tokens, updatedAt) }

    constructor (capacity: int, rate: real, now: Time)
      ensures State() == Bucket(capacity, rate, capacity as real, now)
    {
      this.capacity, this.rate, tokens, updatedAt := capacity, rate, capacity as real, now;
    }

    method Allow(now: Time, cost: int) returns (ok: bool)
      modifies this
      ensures ok == Grants(old(State()), Request(now, cost)) && State() == Take(old(State()), Request(now, cost))
    {
      var elapsed := now - updatedAt;
      tokens := Min(capacity as real, tokens + Flow(rate, elapsed));
      updatedAt := now;
      if tokens >= cost as real {
        tokens := tokens - cost as real;
        return true;
      }
      return false;
    }
  }
}
