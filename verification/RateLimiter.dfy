/** The token bucket shared by the api-poll threads.  Each attempt under the
    lock is one step; any interleaving of callers is a sequence of attempts. */
module RateLimiter {

  /** Tokens are added at `rate` per second, up to `capacity`. */
  datatype Bucket = Bucket(rate: real, capacity: real, tokens: real, lastRefill: real)

  ghost predicate Sane(b: Bucket) {
    b.rate > 0.0 && b.capacity >= 1.0 && 0.0 <= b.tokens <= b.capacity
  }

  function MinReal(x: real, y: real): real {
    if x <= y then x else y
  }

  /** What `seconds` add. */
  function Earned(rate: real, seconds: real): real {
    seconds * rate
  }

  lemma EarnedIs(rate: real, seconds: real)
    ensures Earned(rate, seconds) == seconds * rate
  {
  }

  lemma EarnedFacts(rate: real, x: real, y: real)
    requires rate > 0.0
    ensures Earned(rate, 0.0) == 0.0 && Earned(rate, x + y) == Earned(rate, x) + Earned(rate, y)
    ensures x < y <==> Earned(rate, x) < Earned(rate, y)
  {
    var d := y - x;
    assert y * rate == x * rate + d * rate;
    if d > 0.0 {
      assert d * rate > 0.0;
    } else if d < 0.0 {
      assert d * rate < 0.0;
    }
  }

  /** A clock that stands still or goes back adds nothing. */
  function Refilled(b: Bucket, now: real): Bucket {
    if now - b.lastRefill > 0.0
    then b.(tokens := MinReal(b.capacity, b.tokens + Earned(b.rate, now - b.lastRefill)), lastRefill := now)
    else b
  }

  predicate Succeeds(b: Bucket, now: real) {
    Refilled(b, now).tokens >= 1.0
  }

  function Attempted(b: Bucket, now: real): Bucket {
    var r := Refilled(b, now);
    if r.tokens >= 1.0 then r.(tokens := r.tokens - 1.0) else r
  }

  /** How long a failed attempt waits. */
  function Wait(b: Bucket, now: real): real
    requires b.rate > 0.0
  {
    (1.0 - Refilled(b, now).tokens) / b.rate
  }

  function AfterAll(b: Bucket, times: seq<real>): Bucket
    decreases |times|
  {
    if times == [] then b else Attempted(AfterAll(b, times[..|times| - 1]), times[|times| - 1])
  }

  function Successes(b: Bucket, times: seq<real>): nat
    decreases |times|
  {
    if times == [] then 0
    else
      var n := |times| - 1;
      Successes(b, times[..n]) + (if Succeeds(AfterAll(b, times[..n]), times[n]) then 1 else 0)
  }

  // --- The bound -------------------------------------------------------------

  /** The tokens there are, and those that will be added up to time `hi`. */
  function Potential(b: Bucket, hi: real): real {
    b.tokens + (if hi > b.lastRefill then Earned(b.rate, hi - b.lastRefill) else 0.0)
  }

  /** An attempt by time `hi` uses up what it takes. */
  lemma AttemptUsesPotential(b: Bucket, now: real, hi: real)
    requires Sane(b) && now <= hi
    ensures var c := Attempted(b, now);
            && Sane(c) && c.rate == b.rate && c.capacity == b.capacity
            && Potential(c, hi) <= Potential(b, hi) - (if Succeeds(b, now) then 1.0 else 0.0)
            && (c.lastRefill == b.lastRefill || c.lastRefill == now)
            && now <= c.lastRefill
            && Potential(c, hi) >= 0.0
  {
    hide Earned;
    EarnedFacts(b.rate, 0.0, now - b.lastRefill);
    EarnedFacts(b.rate, 0.0, hi - now);
    EarnedFacts(b.rate, 0.0, hi - b.lastRefill);
    EarnedFacts(b.rate, hi - now, now - b.lastRefill);
    assert hi - now + (now - b.lastRefill) == hi - b.lastRefill;
  }

  /** Tokens stay within 0 and the capacity, whatever the clock does, and the
      successes so far are paid for by the first refill and the time since. */
  lemma {:induction false} RunUsesPotential(b: Bucket, times: seq<real>, hi: real)
    requires Sane(b) && forall i :: 0 <= i < |times| ==> times[i] <= hi
    ensures var c := AfterAll(b, times);
            && Sane(c) && c.rate == b.rate && c.capacity == b.capacity
            && Successes(b, times) as real <= Potential(b, hi) - Potential(c, hi)
    decreases |times|
  {
    if times != [] {
      var n := |times| - 1;
      RunUsesPotential(b, times[..n], hi);
      AttemptUsesPotential(AfterAll(b, times[..n]), times[n], hi);
    }
  }

  lemma {:induction false} RefillFirst(b: Bucket, times: seq<real>)
    requires Sane(b) && times != []
    ensures AfterAll(b, times) == AfterAll(Refilled(b, times[0]), times)
    ensures Successes(b, times) == Successes(Refilled(b, times[0]), times)
    decreases |times|
  {
    var n, c := |times| - 1, Refilled(b, times[0]);
    if n == 0 {
      assert times[..0] == [];
    } else {
      assert times[..n][0] == times[0];
      RefillFirst(b, times[..n]);
    }
  }

  /** In any window of time, however the callers interleave, at most the bucket
      and what is added during the window is taken. */
  lemma WindowBound(b: Bucket, times: seq<real>, lo: real, hi: real)
    requires Sane(b) && lo <= hi && forall i :: 0 <= i < |times| ==> lo <= times[i] <= hi
    ensures Sane(AfterAll(b, times))
    ensures Successes(b, times) as real <= b.capacity + (hi - lo) * b.rate
  {
    hide Successes, AfterAll, Sane;
    WindowUses(b, times, lo, hi);
  }

  lemma WindowUses(b: Bucket, times: seq<real>, lo: real, hi: real)
    requires Sane(b) && lo <= hi && forall i :: 0 <= i < |times| ==> lo <= times[i] <= hi
    ensures Sane(AfterAll(b, times))
    ensures Successes(b, times) as real <= b.capacity + Earned(b.rate, hi - lo)
  {
    hide Earned, Successes, AfterAll;
    EarnedFacts(b.rate, 0.0, hi - lo);
    RunUsesPotential(b, times, hi);
    if times == [] {
      NoSuccess(b);
    } else {
      var c := Refilled(b, times[0]);
      EarnedFacts(b.rate, 0.0, times[0] - b.lastRefill);
      RefillFirst(b, times);
      RunUsesPotential(c, times, hi);
      var d := AfterAll(c, times);
      EarnedFacts(b.rate, 0.0, hi - d.lastRefill);
      EarnedFacts(b.rate, hi - c.lastRefill, hi - lo);
    }
  }

  lemma NoSuccess(b: Bucket)
    ensures Successes(b, []) == 0
  {
  }

  /** The bound is met: from a full bucket, that many attempts at once. */
  lemma {:induction false} FullBucketServes(b: Bucket, now: real, n: nat)
    requires Sane(b) && b.lastRefill == now && n as real <= b.tokens
    ensures var times := seq(n, i => now);
            Successes(b, times) == n && AfterAll(b, times) == b.(tokens := b.tokens - n as real)
    decreases n
  {
    if n > 0 {
      FullBucketServes(b, now, n - 1);
      assert seq(n, i => now)[..n - 1] == seq(n - 1, i => now);
    }
  }

  /** From any bucket, what it holds by time `now`: `n` attempts at that time all
      succeed if and only if there are that many tokens, those added since the
      last refill included, up to the capacity.  A clock that has gone back adds
      nothing. */
  lemma ServesIff(b: Bucket, now: real, n: nat)
    requires Sane(b)
    ensures var elapsed := if now > b.lastRefill then now - b.lastRefill else 0.0;
            Successes(b, seq(n, i => now)) == n <==>
              n as real <= b.capacity && n as real <= b.tokens + elapsed * b.rate
  {
    hide Earned, Successes, AfterAll, Attempted;
    var elapsed := if now > b.lastRefill then now - b.lastRefill else 0.0;
    EarnedIs(b.rate, elapsed);
    EarnedFacts(b.rate, 0.0, elapsed);
    var times, c := seq(n, i => now), Refilled(b, now);
    assert Earned(b.rate, 0.0) == 0.0 <= elapsed * b.rate;
    if n == 0 {
      assert times == [];
      NoSuccess(b);
    } else {
      RefillFirst(b, times);
      ServesWhileLasts(c, now, n);
    }
  }

  /** With nothing to add. */
  lemma {:induction false} ServesWhileLasts(b: Bucket, now: real, n: nat)
    requires Sane(b) && b.lastRefill >= now
    ensures Successes(b, seq(n, i => now)) <= n
    ensures Successes(b, seq(n, i => now)) == n <==> n as real <= b.tokens
    ensures n as real <= b.tokens ==> AfterAll(b, seq(n, i => now)) == b.(tokens := b.tokens - n as real)
    decreases n
  {
    if n > 0 {
      ServesWhileLasts(b, now, n - 1);
      assert seq(n, i => now)[..n - 1] == seq(n - 1, i => now);
    }
  }

  /** A bucket left alone long enough serves its whole size at once, and no more. */
  lemma IdleBucketServes(b: Bucket, now: real, n: nat)
    requires Sane(b) && now >= b.lastRefill + b.capacity / b.rate
    ensures Successes(b, seq(n, i => now)) == n <==> n as real <= b.capacity
  {
    hide Earned, Successes;
    var elapsed := now - b.lastRefill;
    assert b.capacity / b.rate > 0.0 && b.capacity / b.rate * b.rate == b.capacity;
    assert elapsed * b.rate >= b.capacity by {
      EarnedFacts(b.rate, b.capacity / b.rate, elapsed);
      EarnedIs(b.rate, elapsed);
      EarnedIs(b.rate, b.capacity / b.rate);
    }
    ServesIff(b, now, n);
  }

  /** After a failed attempt the next one succeeds exactly if the computed time
      has passed, if nobody else took a token. */
  lemma WaitIsExact(b: Bucket, now: real, later: real)
    requires Sane(b) && !Succeeds(b, now) && b.lastRefill <= now <= later
    ensures Wait(b, now) > 0.0
    ensures Succeeds(Attempted(b, now), later) <==> later >= now + Wait(b, now)
  {
    var c, w := Attempted(b, now), Wait(b, now);
    assert Earned(b.rate, w) == 1.0 - c.tokens;
    hide Earned, Wait;
    EarnedFacts(b.rate, 0.0, w);
    EarnedFacts(b.rate, later - now, w);
    EarnedFacts(b.rate, 0.0, later - now);
    EarnedFacts(b.rate, 0.0, now - b.lastRefill);
    assert c.lastRefill == now;
  }

  // --- The code --------------------------------------------------------------

  /** One turn of the retry loop: when the clock is read, what other callers do
      while this one waits, and whether the stop event is set meanwhile. */
  datatype Round = Round(now: real, others: seq<real>, stopped: bool)

  datatype Outcome = Acquired | Abandoned | StillWaiting

  /** All attempts up to the end of the rounds that took place. */
  function Attempts(b: Bucket, rounds: seq<Round>): seq<real>
    decreases |rounds|
  {
    if rounds == [] then []
    else if Succeeds(b, rounds[0].now) then [rounds[0].now]
    else if rounds[0].stopped then [rounds[0].now] + rounds[0].others
    else
      var first := [rounds[0].now] + rounds[0].others;
      first + Attempts(AfterAll(b, first), rounds[1..])
  }

  function Result(b: Bucket, rounds: seq<Round>): Outcome
    decreases |rounds|
  {
    if rounds == [] then StillWaiting
    else if Succeeds(b, rounds[0].now) then Acquired
    else if rounds[0].stopped then Abandoned
    else Result(AfterAll(b, [rounds[0].now] + rounds[0].others), rounds[1..])
  }

  lemma {:induction false} AfterConcat(b: Bucket, xs: seq<real>, ys: seq<real>)
    ensures AfterAll(b, xs + ys) == AfterAll(AfterAll(b, xs), ys)
    decreases |ys|
  {
    if ys == [] {
      assert xs + ys == xs;
    } else {
      var n := |ys| - 1;
      assert (xs + ys)[..|xs + ys| - 1] == xs + ys[..n];
      AfterConcat(b, xs, ys[..n]);
    }
  }

  lemma AfterOne(b: Bucket, now: real)
    ensures AfterAll(b, [now]) == Attempted(b, now)
  {
    assert [now][..0] == [];
  }

  lemma NoRounds(b: Bucket, rounds: seq<Round>)
    ensures AfterAll(b, []) == b && rounds[0..] == rounds && [] + Attempts(b, rounds) == Attempts(b, rounds)
    ensures Attempts(b, rounds[|rounds|..]) == [] && Result(b, rounds[|rounds|..]) == StillWaiting
  {
  }

  lemma RoundStep(b0: Bucket, b: Bucket, rounds: seq<Round>, i: nat, past: seq<real>)
    requires i < |rounds| && b == AfterAll(b0, past)
    ensures var r := rounds[i];
            var first := [r.now] + r.others;
            && Attempted(b, r.now) == AfterAll(b0, past + [r.now])
            && AfterAll(Attempted(b, r.now), r.others) == AfterAll(b0, past + first)
            && (if Succeeds(b, r.now) then Attempts(b, rounds[i..]) == [r.now] && Result(b, rounds[i..]).Acquired?
                else if r.stopped then Attempts(b, rounds[i..]) == first && Result(b, rounds[i..]).Abandoned?
                else
                  && past + Attempts(b, rounds[i..])
                     == past + first + Attempts(AfterAll(b0, past + first), rounds[i + 1..])
                  && Result(b, rounds[i..]) == Result(AfterAll(b0, past + first), rounds[i + 1..]))
  {
    hide Attempted, Succeeds, AfterAll;
    var r := rounds[i];
    var first := [r.now] + r.others;
    AfterOne(b, r.now);
    AfterConcat(b0, past, [r.now]);
    AfterConcat(b, [r.now], r.others);
    AfterConcat(b0, past, first);
    assert rounds[i..][1..] == rounds[i + 1..];
    var rest := Attempts(AfterAll(b0, past + first), rounds[i + 1..]);
    assert past + (first + rest) == past + first + rest;
  }

  class TokenBucket {
    const rate: real
    const capacity: real
    var tokens: real
    var lastRefill: real

    function Value(): Bucket
      reads this
    {
      Bucket(rate, capacity, tokens, lastRefill)
    }

    ghost predicate Valid()
      reads this
    {
      Sane(Value())
    }

    constructor (rate: real, capacity: real, now: real)
      requires rate > 0.0 && capacity >= 1.0
      ensures Valid() && Value() == Bucket(rate, capacity, capacity, now)
    {
      this.rate, this.capacity, tokens, lastRefill := rate, capacity, capacity, now;
    }

    method Refill(now: real)
      modifies this
      ensures Value() == Refilled(old(Value()), now)
    {
      var elapsed := now - lastRefill;
      if elapsed > 0.0 {
        tokens := MinReal(capacity, tokens + Earned(rate, elapsed));
        lastRefill := now;
      }
    }

    /** The locked section: a token, or how long to wait. */
    method TryAcquire(now: real) returns (ok: bool, wait: real)
      requires Valid()
      modifies this
      ensures Valid() && Value() == Attempted(old(Value()), now)
      ensures ok == Succeeds(old(Value()), now) && (!ok ==> wait == Wait(old(Value()), now))
    {
      AttemptUsesPotential(Value(), now, now);
      Refill(now);
      if tokens >= 1.0 {
        tokens := tokens - 1.0;
        return true, 0.0;
      }
      return false, (1.0 - tokens) / rate;
    }

    /** Retries until a token is there or the stop event is set, while others
        take tokens too. */
    method Acquire(rounds: seq<Round>) returns (outcome: Outcome)
      requires Valid()
      modifies this
      ensures Valid() && Value() == AfterAll(old(Value()), Attempts(old(Value()), rounds))
      ensures outcome == Result(old(Value()), rounds)
    {
      hide Attempts, Result, Attempted, Succeeds, Wait, AfterAll, Sane;
      ghost var b0, before := Value(), [];
      NoRounds(b0, rounds);
      for i := 0 to |rounds|
        invariant Valid() && Value() == AfterAll(b0, before)
        invariant Attempts(b0, rounds) == before + Attempts(Value(), rounds[i..])
        invariant Result(b0, rounds) == Result(Value(), rounds[i..])
      {
        ghost var past := before;
        RoundStep(b0, Value(), rounds, i, past);
        var ok, wait := TryAcquire(rounds[i].now);
        if ok {
          return Acquired;
        }
        Others(rounds[i].others);
        before := past + ([rounds[i].now] + rounds[i].others);
        if rounds[i].stopped {
          return Abandoned;
        }
      }
      NoRounds(Value(), rounds);
      assert before + [] == before;
      outcome := StillWaiting;
    }

    /** Attempts of the other callers. */
    method Others(times: seq<real>)
      requires Valid()
      modifies this
      ensures Valid() && Value() == AfterAll(old(Value()), times)
    {
      for i := 0 to |times|
        invariant Valid() && Value() == AfterAll(old(Value()), times[..i])
      {
        assert times[..i + 1][..i] == times[..i];
        var _, _ := TryAcquire(times[i]);
      }
      assert times[..|times|] == times;
    }
  }

  /** The constructor's checks. */
  method NewTokenBucket(requestsPerMinute: real, bucketSize: int, now: real) returns (b: TokenBucket?)
    ensures b == null <==> requestsPerMinute <= 0.0 || bucketSize < 1
    ensures b != null ==> fresh(b) && b.Valid()
    ensures b != null ==> b.Value() == Bucket(requestsPerMinute / 60.0, bucketSize as real, bucketSize as real, now)
  {
    if requestsPerMinute <= 0.0 || bucketSize < 1 {
      return null;
    }
    b := new TokenBucket(requestsPerMinute / 60.0, bucketSize as real, now);
  }

  /** Alone, a caller that waits the computed time gets its token in the second
      round at the latest. */
  lemma AloneSecondRoundSucceeds(b: Bucket, now: real, later: real)
    requires Sane(b) && b.lastRefill <= now
    requires !Succeeds(b, now) ==> later >= now + Wait(b, now)
    ensures Result(b, [Round(now, [], false), Round(later, [], false)]).Acquired?
  {
    if !Succeeds(b, now) {
      var rest := [Round(now, [], false), Round(later, [], false)][1..];
      assert rest == [Round(later, [], false)];
      assert [now] + [] == [now];
      AfterOne(b, now);
      if later >= now {
        WaitIsExact(b, now, later);
      } else {
        WaitIsExact(b, now, now);
      }
    }
  }
}
