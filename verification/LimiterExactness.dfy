/** The limiters grant whatever their bounds allow: a refusal always means that a
    grant would have broken one. */
module LimiterExactness {
  import opened Limiters

  // ------------------------------------------------ sliding window

  /** The positions of a history whose times lie in [a, b]. */
  function Positions(times: seq<Time>, a: Time, b: Time): set<nat> {
    set i: nat | i < |times| && a <= times[i] <= b
  }

  lemma {:induction false} BetweenCounts(times: seq<Time>, a: Time, b: Time)
    ensures |Between(times, a, b)| == |Positions(times, a, b)|
    ensures forall t :: t in Between(times, a, b) ==> a <= t <= b && t in times
  {
    if times != [] {
      var front, n := times[..|times| - 1], |times| - 1;
      BetweenCounts(front, a, b);
      if a <= times[n] <= b {
        assert Positions(times, a, b) == Positions(front, a, b) + {n};
      } else {
        assert Positions(times, a, b) == Positions(front, a, b);
      }
    }
  }

  /** Main result: a request is granted exactly if fewer than `maxCalls` earlier
      grants lie in the window that ends with it. */
  lemma {:induction false} WindowExactly(maxCalls: int, window: Time, requests: seq<Time>, now: Time)
    ensures var grants := Granted(maxCalls, window, requests);
            Granted(maxCalls, window, requests + [now]) ==
              if |Positions(grants, now - window, now)| < maxCalls then grants + [now] else grants
  {
    hide Between, Positions;
    assert (requests + [now])[..|requests|] == requests;
    BetweenCounts(Granted(maxCalls, window, requests), now - window, now);
  }

  /** With enough room every request is granted. */
  lemma {:induction false} FewAreAllGranted(maxCalls: int, window: Time, requests: seq<Time>)
    requires |requests| <= maxCalls
    ensures Granted(maxCalls, window, requests) == requests
  {
    if requests != [] {
      var front, now := requests[..|requests| - 1], requests[|requests| - 1];
      FewAreAllGranted(maxCalls, window, front);
      BetweenShorter(front, now - window, now);
    }
  }

  lemma {:induction false} BetweenShorter(times: seq<Time>, a: Time, b: Time)
    ensures |Between(times, a, b)| <= |times|
  {
    if times != [] {
      BetweenShorter(times[..|times| - 1], a, b);
    }
  }

  // ------------------------------------------------ circuit breaker

  /** Main result: the breaker is open exactly while the cooldown runs of some
      failure with at least `threshold` failures in the window that ends with it. */
  lemma {:induction false} OpenExactly(failures: seq<Time>, threshold: int, window: Time, cooldown: Time, now: Time)
    ensures Tripped(failures, threshold, window, cooldown, now) <==>
              exists i: nat :: i < |failures| && now < failures[i] + cooldown
                && |Positions(failures, failures[i] - window, failures[i])| >= threshold
  {
    hide Between, Positions;
    forall i: nat | i < |failures|
      ensures Trips(failures, i, threshold, window) <==>
                |Positions(failures, failures[i] - window, failures[i])| >= threshold
    {
      BetweenCounts(failures, failures[i] - window, failures[i]);
    }
  }

  // ------------------------------------------------ token bucket

  /** What was granted from request `i` on. */
  function SpentFrom(b: Bucket, requests: seq<Request>, i: nat): int {
    if |requests| <= i then 0
    else
      var front, r := requests[..|requests| - 1], requests[|requests| - 1];
      SpentFrom(b, front, i) + if Grants(BucketAfter(b, front), r) then r.cost else 0
  }

  /** The bucket was full at most at request `i`, and what came in since has not all been spent. */
  function LevelSince(b: Bucket, requests: seq<Request>, i: nat, now: Time): real
    requires i < |requests|
  {
    b.capacity as real + Flow(b.rate, now - requests[i].at) - SpentFrom(b, requests, i) as real
  }

  function LevelSinceStart(b: Bucket, requests: seq<Request>, now: Time): real {
    b.tokens + Flow(b.rate, now - b.updatedAt) - SpentFrom(b, requests, 0) as real
  }

  /** A cost is within every such level, the full bucket included. */
  predicate Affordable(b: Bucket, requests: seq<Request>, cost: real, now: Time) {
    && cost <= b.capacity as real
    && cost <= LevelSinceStart(b, requests, now)
    && forall i :: 0 <= i < |requests| ==> cost <= LevelSince(b, requests, i, now)
  }

  /** What is in the bucket just after the last request is the least of the levels there. */
  ghost predicate HoldsLeast(b: Bucket, requests: seq<Request>, at: Time) {
    var held := BucketAfter(b, requests).tokens;
    && held <= LevelSinceStart(b, requests, at)
    && (forall i :: 0 <= i < |requests| ==> held <= LevelSince(b, requests, i, at))
    && (held == LevelSinceStart(b, requests, at)
        || exists i :: 0 <= i < |requests| && held == LevelSince(b, requests, i, at))
  }

  lemma LevelsMove(b: Bucket, front: seq<Request>, r: Request, i: nat)
    requires i < |front|
    ensures var spent := if Grants(BucketAfter(b, front), r) then r.cost else 0;
            LevelSince(b, front + [r], i, r.at) == LevelSince(b, front, i, r.at) - spent as real
  {
    hide Flow;
    assert (front + [r])[..|front|] == front && (front + [r])[i] == front[i];
  }

  lemma LevelNow(b: Bucket, front: seq<Request>, r: Request)
    ensures var spent := if Grants(BucketAfter(b, front), r) then r.cost else 0;
            && LevelSince(b, front + [r], |front|, r.at) == b.capacity as real - spent as real
            && LevelSinceStart(b, front + [r], r.at) == LevelSinceStart(b, front, r.at) - spent as real
  {
    assert (front + [r])[..|front|] == front && (front + [r])[|front|] == r;
    assert Flow(b.rate, 0.0) == 0.0;
    SpentNone(b, front);
    hide Flow;
  }

  lemma {:induction false} SpentNone(b: Bucket, requests: seq<Request>)
    ensures SpentFrom(b, requests, |requests|) == 0
  {
  }

  lemma LaterLevels(b: Bucket, requests: seq<Request>, at: Time, later: Time)
    ensures LevelSinceStart(b, requests, later) == LevelSinceStart(b, requests, at) + Flow(b.rate, later - at)
    ensures forall i :: 0 <= i < |requests| ==>
              LevelSince(b, requests, i, later) == LevelSince(b, requests, i, at) + Flow(b.rate, later - at)
  {
    FlowAdds(b.rate, at - b.updatedAt, later - at);
    forall i | 0 <= i < |requests|
      ensures LevelSince(b, requests, i, later) == LevelSince(b, requests, i, at) + Flow(b.rate, later - at)
    {
      FlowAdds(b.rate, at - requests[i].at, later - at);
    }
  }

  /** What a request finds after refilling: the least of the levels and the capacity. */
  lemma RefilledIs(b: Bucket, requests: seq<Request>, now: Time, x: real)
    requires HoldsLeast(b, requests, BucketAfter(b, requests).updatedAt)
    ensures x <= Refilled(BucketAfter(b, requests), now) <==> Affordable(b, requests, x, now)
  {
    hide Flow, LevelSince, LevelSinceStart, BucketAfter;
    var after := BucketAfter(b, requests);
    BucketShape(b, requests);
    LaterLevels(b, requests, after.updatedAt, now);
  }

  lemma {:induction false} HoldsTheLeast(b: Bucket, requests: seq<Request>)
    ensures HoldsLeast(b, requests, BucketAfter(b, requests).updatedAt)
  {
    BucketShape(b, requests);
    if requests == [] {
      assert Flow(b.rate, 0.0) == 0.0;
    } else {
      hide Flow, Grants, LevelSince, LevelSinceStart;
      var front, r := requests[..|requests| - 1], requests[|requests| - 1];
      assert requests == front + [r];
      HoldsTheLeast(b, front);
      LeastStep(b, front, r);
    }
  }

  lemma LeastStep(b: Bucket, front: seq<Request>, r: Request)
    requires HoldsLeast(b, front, BucketAfter(b, front).updatedAt)
    ensures HoldsLeast(b, front + [r], r.at)
  {
    hide Flow, Grants, LevelSince, LevelSinceStart;
    var requests, before := front + [r], BucketAfter(b, front);
    var spent := if Grants(before, r) then r.cost else 0;
    assert requests[..|front|] == front && requests[|front|] == r;
    assert BucketAfter(b, requests) == Take(before, r);
    BucketShape(b, front);
    LevelNow(b, front, r);
    LaterLevels(b, front, before.updatedAt, r.at);
    forall i | 0 <= i < |front|
      ensures LevelSince(b, requests, i, r.at) == LevelSince(b, front, i, r.at) - spent as real {
      LevelsMove(b, front, r, i);
    }
    var held := BucketAfter(b, requests).tokens;
    assert held == Refilled(before, r.at) - spent as real;
    if Refilled(before, r.at) == b.capacity as real {
      assert held == LevelSince(b, requests, |front|, r.at);
    } else if before.tokens != LevelSinceStart(b, front, before.updatedAt) {
      var i :| 0 <= i < |front| && before.tokens == LevelSince(b, front, i, before.updatedAt);
      assert held == LevelSince(b, requests, i, r.at);
    }
  }

  /** Main result: a cost is granted exactly if it fits the capacity and, together
      with what was granted since, stays within the initial tokens and, from every
      earlier request on, within the capacity plus what has flowed in. */
  lemma {:induction false} GrantedExactly(b: Bucket, requests: seq<Request>, r: Request)
    ensures Grants(BucketAfter(b, requests), r) <==> Affordable(b, requests, r.cost as real, r.at)
  {
    HoldsTheLeast(b, requests);
    RefilledIs(b, requests, r.at, r.cost as real);
  }
}
