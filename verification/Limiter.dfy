/** The token bucket of the Binance adapter (internal/adapters/binance/binance.go). Tokens are reals, times
    and waits whole nanoseconds; the zero time stands for a bucket never used. */
module Limiter {
  import opened RailTypes

  const NANOS_PER_SECOND := 1000000000.0
  const SHORTEST_WAIT := 1_000_000

  datatype Bucket = Bucket(tokens: real, last: Time)

  datatype Plan = Plan(capacity: real, perSecond: real)
  {
    predicate Valid() {
      0.0 < capacity && 0.0 < perSecond
    }

    function PerNano(): (r: real)
      ensures 0.0 < perSecond ==> 0.0 < r
    {
      perSecond / NANOS_PER_SECOND
    }

    /** Tokens that come back in `nanos` nanoseconds. */
    function Refill(nanos: int): real {
      nanos as real * PerNano()
    }

    function Wait(missing: real): (wait: int)
      requires Valid()
      ensures wait >= SHORTEST_WAIT
    {
      var nanos := (missing / perSecond * NANOS_PER_SECOND).Floor;
      if nanos < SHORTEST_WAIT then SHORTEST_WAIT else nanos
    }
  }

  predicate InRange(p: Plan, b: Bucket) {
    p.Valid() && 0.0 <= b.tokens <= p.capacity
  }

  function Min(a: real, b: real): real {
    if a <= b then a else b
  }

  /** The bucket at a time, refilled for the time since it was last; a clock that went back adds nothing. */
  function Refilled(p: Plan, b: Bucket, now: Time): Bucket {
    var last := if b.last == ZERO_TIME then now else b.last;
    if now > last then Bucket(Min(p.capacity, b.tokens + p.Refill(now - last)), now) else Bucket(b.tokens, last)
  }

  predicate Fits(p: Plan, b: Bucket, n: int, now: Time) {
    Refilled(p, b, now).tokens >= n as real
  }

  function Taken(p: Plan, b: Bucket, n: int, now: Time): Bucket {
    var r := Refilled(p, b, now);
    if Fits(p, b, n, now) then r.(tokens := r.tokens - n as real) else r
  }

  // --- Any sequence of calls ---

  datatype Call = Call(n: int, now: Time)

  /** Weights are positive, and no call is made at the zero time or before. */
  predicate Calls(calls: seq<Call>) {
    forall c <- calls :: 0 < c.n && ZERO_TIME < c.now
  }

  function After(p: Plan, b: Bucket, calls: seq<Call>): Bucket {
    if calls == [] then b
    else
      var before, last := After(p, b, calls[..|calls| - 1]), calls[|calls| - 1];
      Taken(p, before, last.n, last.now)
  }

  /** The total weight granted. */
  function Granted(p: Plan, b: Bucket, calls: seq<Call>): int {
    if calls == [] then 0
    else
      var front, last := calls[..|calls| - 1], calls[|calls| - 1];
      Granted(p, b, front) + if Fits(p, After(p, b, front), last.n, last.now) then last.n else 0
  }

  lemma RefillAdds(p: Plan, a: int, b: int)
    ensures p.Refill(a) + p.Refill(b) == p.Refill(a + b)
  {
  }

  lemma RefillIsPositive(p: Plan, nanos: int)
    requires p.Valid() && nanos > 0
    ensures p.Refill(nanos) > 0.0
  {
  }

  /** When the bucket's own time starts: at the call if it was never used. */
  function Since(b: Bucket, now: Time): Time {
    if b.last == ZERO_TIME then now else b.last
  }

  /** What one call grants is paid for by what the bucket held and what its own time brings back. */
  lemma CallIsPaidFor(p: Plan, b: Bucket, n: int, now: Time)
    requires InRange(p, b) && 0 < n && ZERO_TIME < now && ZERO_TIME <= b.last
    ensures var a := Taken(p, b, n, now);
            && InRange(p, a) && ZERO_TIME < a.last && Since(b, now) <= a.last
            && a.tokens + (if Fits(p, b, n, now) then n else 0) as real <= b.tokens + p.Refill(a.last - Since(b, now))
  {
    if now > Since(b, now) {
      RefillIsPositive(p, now - Since(b, now));
    }
  }

  // --- The balance, exactly ---

  /** What a bucket would hold at a time if it had no limit: its rate is per second, its clock in nanoseconds,
      and a clock that went back, or a bucket never used, brings nothing. */
  function Held(p: Plan, b: Bucket, now: Time): real {
    if b.last == 0 || now <= b.last then b.tokens
    else b.tokens + (now - b.last) as real / 1000000000.0 * p.perSecond
  }

  /** What it cannot hold. */
  function Overflow(p: Plan, b: Bucket, now: Time): real {
    if Held(p, b, now) > p.capacity then Held(p, b, now) - p.capacity else 0.0
  }

  /** A call is met exactly when the bucket holds its weight, and then takes just that; what it does not grant
      and can hold it keeps. */
  lemma CallIsExact(p: Plan, b: Bucket, n: int, now: Time)
    requires InRange(p, b) && ZERO_TIME < now && ZERO_TIME <= b.last
    ensures var tokens := Held(p, b, now) - Overflow(p, b, now);
            && (Fits(p, b, n, now) <==> tokens >= n as real)
            && Taken(p, b, n, now).tokens == (if tokens >= n as real then tokens - n as real else tokens)
            && Taken(p, b, n, now).last == (if now > b.last then now else b.last)
  {
    RefillIsRate(p, now - b.last);
  }

  lemma RefillIsRate(p: Plan, nanos: int)
    ensures p.Refill(nanos) == nanos as real / 1000000000.0 * p.perSecond
  {
    var x := nanos as real;
    calc {
      x * (p.perSecond / NANOS_PER_SECOND);
      x / NANOS_PER_SECOND * p.perSecond;
    }
  }

  /** All that the calls made the bucket overflow. */
  function Spilled(p: Plan, b: Bucket, calls: seq<Call>): (spilled: real)
    ensures spilled >= 0.0
  {
    if calls == [] then 0.0
    else
      var front, last := calls[..|calls| - 1], calls[|calls| - 1];
      Spilled(p, b, front) + Overflow(p, After(p, b, front), last.now)
  }

  /** What is granted, held and spilled is what was held at first and what the time since has brought. */
  predicate Balanced(p: Plan, b: Bucket, start: Time, a: Bucket, granted: int, spilled: real) {
    && InRange(p, a) && ZERO_TIME < a.last
    && granted as real + a.tokens + spilled == b.tokens + (a.last - start) as real / 1000000000.0 * p.perSecond
  }

  lemma RatesAdd(p: Plan, a: int, b: int)
    ensures a as real / 1000000000.0 * p.perSecond + b as real / 1000000000.0 * p.perSecond
         == (a + b) as real / 1000000000.0 * p.perSecond
  {
    RefillIsRate(p, a);
    RefillIsRate(p, b);
    RefillIsRate(p, a + b);
    RefillAdds(p, a, b);
  }

  lemma BalancedOneMore(p: Plan, b: Bucket, start: Time, a: Bucket, granted: int, spilled: real, c: Call)
    requires Balanced(p, b, start, a, granted, spilled) && 0 < c.n && ZERO_TIME < c.now
    ensures Balanced(p, b, start, Taken(p, a, c.n, c.now), granted + if Fits(p, a, c.n, c.now) then c.n else 0,
                     spilled + Overflow(p, a, c.now))
  {
    CallIsExact(p, a, c.n, c.now);
    CallIsPaidFor(p, a, c.n, c.now);
    RatesAdd(p, a.last - start, Taken(p, a, c.n, c.now).last - a.last);
  }

  lemma FirstCallBalances(p: Plan, b: Bucket, c: Call)
    requires InRange(p, b) && 0 < c.n && ZERO_TIME < c.now && ZERO_TIME <= b.last
    ensures Balanced(p, b, Since(b, c.now), Taken(p, b, c.n, c.now), if Fits(p, b, c.n, c.now) then c.n else 0,
                     Overflow(p, b, c.now))
  {
    CallIsExact(p, b, c.n, c.now);
    CallIsPaidFor(p, b, c.n, c.now);
  }

  /** Nothing gets lost: over every sequence of calls, whatever the clock does, the weight granted, the tokens
      left and what overflowed are the tokens held at first and the rate times the advance of the bucket's
      time. */
  lemma {:induction false} BalanceIsExact(p: Plan, b: Bucket, calls: seq<Call>)
    requires InRange(p, b) && Calls(calls) && ZERO_TIME <= b.last && calls != []
    ensures Balanced(p, b, Since(b, calls[0].now), After(p, b, calls), Granted(p, b, calls), Spilled(p, b, calls))
  {
    var front, last := calls[..|calls| - 1], calls[|calls| - 1];
    assert calls == front + [last];
    if front == [] {
      FirstCallBalances(p, b, last);
    } else {
      BalanceIsExact(p, b, front);
      BalancedOneMore(p, b, Since(b, calls[0].now), After(p, b, front), Granted(p, b, front), Spilled(p, b, front),
                      last);
    }
  }

  /** `granted` is paid for by `tokens` at the time `start` and what came back until `a`. */
  predicate PaidFor(p: Plan, tokens: real, start: Time, a: Bucket, granted: int) {
    && InRange(p, a) && start <= a.last && ZERO_TIME < a.last
    && granted as real + a.tokens <= tokens + p.Refill(a.last - start)
  }

  lemma PaidForOneMore(p: Plan, tokens: real, start: Time, b: Bucket, granted: int, c: Call)
    requires PaidFor(p, tokens, start, b, granted) && 0 < c.n && ZERO_TIME < c.now
    ensures PaidFor(p, tokens, start, Taken(p, b, c.n, c.now), granted + if Fits(p, b, c.n, c.now) then c.n else 0)
  {
    CallIsPaidFor(p, b, c.n, c.now);
    RefillAdds(p, b.last - start, Taken(p, b, c.n, c.now).last - b.last);
  }

  /** Whatever the clock does, the bucket's own time never goes back, it never holds more than its capacity
      or less than nothing, and what it grants plus what it then holds is at most what it held plus what
      its own time has brought back. */
  lemma {:induction false} GrantsArePaidFor(p: Plan, b: Bucket, calls: seq<Call>)
    requires InRange(p, b) && Calls(calls) && ZERO_TIME <= b.last && calls != []
    ensures PaidFor(p, b.tokens, Since(b, calls[0].now), After(p, b, calls), Granted(p, b, calls))
  {
    var front, last := calls[..|calls| - 1], calls[|calls| - 1];
    assert calls == front + [last];
    if front == [] {
      CallIsPaidFor(p, b, last.n, last.now);
    } else {
      GrantsArePaidFor(p, b, front);
      PaidForOneMore(p, b.tokens, Since(b, calls[0].now), After(p, b, front), Granted(p, b, front), last);
    }
  }

  /** So over any stretch of calls the bucket grants at most its capacity plus its rate times the advance
      of its own time. */
  lemma GrantsAreBounded(p: Plan, b: Bucket, calls: seq<Call>)
    requires InRange(p, b) && Calls(calls) && ZERO_TIME <= b.last && calls != []
    ensures Granted(p, b, calls) as real <= p.capacity + p.Refill(After(p, b, calls).last - Since(b, calls[0].now))
  {
    GrantsArePaidFor(p, b, calls);
  }

  // --- Waiting ---

  lemma Scale(a: real, b: real, c: real)
    requires a > b && c > 0.0
    ensures a * c > b * c
  {
  }

  /** A wait brings back all that was missing, but for less than what one nanosecond brings. */
  lemma WaitCovers(p: Plan, missing: real, elapsed: int)
    requires p.Valid() && missing > 0.0 && elapsed >= p.Wait(missing)
    ensures missing - p.Refill(elapsed) < p.Refill(1)
  {
    var x := missing / p.perSecond * NANOS_PER_SECOND;
    assert x * p.PerNano() == missing;
    Scale(elapsed as real + 1.0, x, p.PerNano());
  }

  /** After the wait that a refusal asked for, less than one nanosecond's tokens can still be missing. */
  lemma FirstWaitAlmostSuffices(p: Plan, b: Bucket, n: int, now: Time)
    requires InRange(p, b) && b.tokens < n as real <= p.capacity && ZERO_TIME < b.last
    requires now >= b.last + p.Wait(n as real - b.tokens)
    ensures n as real - Refilled(p, b, now).tokens < p.Refill(1)
  {
    WaitCovers(p, n as real - b.tokens, now - b.last);
  }

  /** The rest comes back within the shortest wait. */
  lemma SecondWaitSuffices(p: Plan, b: Bucket, n: int, now: Time)
    requires InRange(p, b) && n as real <= p.capacity && ZERO_TIME < b.last
    requires n as real - b.tokens < p.Refill(1) && now >= b.last + SHORTEST_WAIT
    ensures Fits(p, b, n, now)
  {
    Scale((now - b.last) as real, 1.0, p.PerNano());
    assert p.Refill(now - b.last) == (now - b.last) as real * p.PerNano() > p.Refill(1);
  }

  /** How long what is missing takes to come back, in nanoseconds. */
  function Due(p: Plan, missing: real): real
    requires p.Valid()
  {
    missing / p.perSecond * 1000000000.0
  }

  /** A request that a bucket cannot meet is met later exactly when what was missing has come back. */
  lemma FitsExactlyWhenDue(p: Plan, b: Bucket, n: int, now: Time)
    requires InRange(p, b) && b.tokens < n as real <= p.capacity && ZERO_TIME < b.last < now
    ensures Fits(p, b, n, now) <==> (now - b.last) as real >= Due(p, n as real - b.tokens)
  {
    var missing, elapsed := n as real - b.tokens, (now - b.last) as real;
    var x := Due(p, missing);
    assert x * p.PerNano() == missing;
    if elapsed > x {
      Scale(elapsed, x, p.PerNano());
    } else if elapsed < x {
      Scale(x, elapsed, p.PerNano());
    }
    assert p.Refill(now - b.last) == elapsed * p.PerNano();
  }

  /** A second call made exactly after the wait that a refusal asked for is met exactly when that wait was the
      shortest one and long enough, or what was missing takes a whole number of nanoseconds: else the wait is
      cut off, and a third call is needed. */
  lemma SecondCallFitsExactly(p: Plan, b: Bucket, n: int)
    requires InRange(p, b) && b.tokens < n as real <= p.capacity && ZERO_TIME < b.last
    ensures var x := Due(p, n as real - b.tokens);
            Fits(p, b, n, b.last + p.Wait(n as real - b.tokens)) <==> x <= 1000000.0 || x == x.Floor as real
  {
    FitsExactlyWhenDue(p, b, n, b.last + p.Wait(n as real - b.tokens));
  }

  /** For instance, one token at three per second takes a third of a second, which is not whole. */
  lemma TwoCallsMayNotSuffice()
    ensures var p, b := Plan(1.0, 3.0), Bucket(0.0, 1);
            && p.Valid() && !Fits(p, b, 1, 1)
            && !Fits(p, Taken(p, b, 1, 1), 1, 1 + p.Wait(1.0))
  {
    var p, b := Plan(1.0, 3.0), Bucket(0.0, 1);
    SecondCallFitsExactly(p, b, 1);
    assert 333333333.0 < Due(p, 1.0) < 333333334.0;
  }

  /** A refused bucket and a time at which the wait it asked for is over. */
  predicate Waited(p: Plan, b: Bucket, n: int, now: Time)
    requires p.Valid()
  {
    ZERO_TIME < b.last && b.tokens < n as real && now >= b.last + p.Wait(n as real - b.tokens)
  }

  /** How many shortest waits it takes a clock to catch up with a time it is behind. */
  function WaitsBehind(behind: int): nat {
    if behind <= 0 then 0 else (behind + SHORTEST_WAIT - 1) / SHORTEST_WAIT
  }

  // --- Several callers, and a clock that goes back ---

  /** When another caller asks for `m` just before, a request for `n` is met exactly when the bucket holds
      both, or holds `n` but not `m`. */
  lemma FitsAfterAnother(p: Plan, b: Bucket, m: int, n: int, now: Time)
    requires InRange(p, b) && 0 < m && 0 < n && ZERO_TIME < now
    ensures var tokens := Refilled(p, b, now).tokens;
            Fits(p, Taken(p, b, m, now), n, now) <==>
            (if tokens >= m as real then tokens >= m as real + n as real else tokens >= n as real)
  {
  }

  /** The most another caller can ask for and get, if it can get anything. */
  function Rival(p: Plan, b: Bucket, n: int, now: Time): int {
    var tokens := Refilled(p, b, now).tokens;
    if tokens >= 1.0 then tokens.Floor else n
  }

  /** Whatever a bucket holds, another caller has a weight it could be given that means a refusal for us. */
  lemma RivalRefuses(p: Plan, b: Bucket, n: int, now: Time)
    requires InRange(p, b) && 0 < n && n as real <= p.capacity && ZERO_TIME < now && ZERO_TIME <= b.last
    ensures var m := Rival(p, b, n, now);
            && 0 < m && m as real <= p.capacity
            && !Fits(p, Taken(p, b, m, now), n, now)
  {
    CallIsPaidFor(p, b, n, now);
    var tokens := Refilled(p, b, now).tokens;
    if tokens >= 1.0 {
      assert tokens.Floor as real <= tokens < tokens.Floor as real + 1.0;
    }
    FitsAfterAnother(p, b, Rival(p, b, n, now), n, now);
  }

  /** When we call again: as late as we like after the wait that our last refusal asked for. */
  function NextCall(p: Plan, b: Bucket, n: int, last: Time, late: nat): Time
    requires p.Valid()
  {
    last + p.Wait(n as real - b.tokens) + late
  }

  /** The next turn of another caller and us, the other just ahead with the weight that hurts. */
  function Turn(p: Plan, b: Bucket, n: int, start: Time, late: nat, before: seq<Call>): (turn: seq<Call>)
    requires p.Valid()
    ensures |turn| == 2
  {
    var now := if before == [] then start else NextCall(p, After(p, b, before), n, before[|before| - 1].now, late);
    [Call(Rival(p, After(p, b, before), n, now), now), Call(n, now)]
  }

  /** As many turns as `lates` says how late we are each time. */
  function Turns(p: Plan, b: Bucket, n: int, start: Time, lates: seq<nat>): (calls: seq<Call>)
    requires p.Valid()
    ensures |calls| == 2 * |lates|
  {
    if lates == [] then []
    else
      var before := Turns(p, b, n, start, lates[..|lates| - 1]);
      before + Turn(p, b, n, start, lates[|lates| - 1], before)
  }

  /** In each turn the other caller's request, no more than the bucket can hold, comes just ahead of ours, ours
      comes no earlier than its own last wait, and is refused. */
  predicate AllRefused(p: Plan, b: Bucket, n: int, start: Time, lates: seq<nat>, calls: seq<Call>)
    requires p.Valid()
  {
    && |calls| == 2 * |lates|
    && forall i :: 0 <= i < |lates| ==> Refused(p, b, n, start, lates[i], calls, i)
  }

  predicate Refused(p: Plan, b: Bucket, n: int, start: Time, late: nat, calls: seq<Call>, i: nat)
    requires p.Valid() && 2 * i + 1 < |calls|
  {
    var other, ours := calls[2 * i], calls[2 * i + 1];
    && 0 < other.n && other.n as real <= p.capacity && other.now == ours.now
    && ours.n == n && !Fits(p, After(p, b, calls[..2 * i + 1]), n, ours.now)
    && ours.now == if i == 0 then start else NextCall(p, After(p, b, calls[..2 * i]), n, calls[2 * i - 1].now, late)
  }

  lemma TurnIsRefused(p: Plan, b: Bucket, n: int, start: Time, late: nat, before: seq<Call>, calls: seq<Call>)
    requires InRange(p, b) && 0 < n && n as real <= p.capacity && ZERO_TIME < start && ZERO_TIME <= b.last
    requires Calls(before) && |before| % 2 == 0 && calls == before + Turn(p, b, n, start, late, before)
    ensures Calls(calls) && Refused(p, b, n, start, late, calls, |before| / 2)
  {
    var a, other, ours := After(p, b, before), calls[|before|], calls[|before| + 1];
    if before != [] {
      assert before[|before| - 1] in before;
      GrantsArePaidFor(p, b, before);
    }
    RivalRefuses(p, a, n, ours.now);
    assert calls[..|before|] == before;
    assert calls[..|before| + 1] == before + [other];
    assert (before + [other])[..|before|] == before;
    assert After(p, b, calls[..|before| + 1]) == Taken(p, a, other.n, other.now);
  }

  /** What was refused stays refused as calls are added. */
  lemma RefusedStays(p: Plan, b: Bucket, n: int, start: Time, late: nat, before: seq<Call>, calls: seq<Call>, i: nat)
    requires p.Valid() && 2 * i + 1 < |before| && before <= calls
    requires Refused(p, b, n, start, late, before, i)
    ensures Refused(p, b, n, start, late, calls, i)
  {
    assert calls[..2 * i + 1] == before[..2 * i + 1];
    assert calls[..2 * i] == before[..2 * i];
  }

  lemma AllRefusedStays(p: Plan, b: Bucket, n: int, start: Time, lates: seq<nat>, late: nat,
                        before: seq<Call>, calls: seq<Call>)
    requires p.Valid() && before <= calls && |calls| == |before| + 2
    requires AllRefused(p, b, n, start, lates, before) && Refused(p, b, n, start, late, calls, |lates|)
    ensures AllRefused(p, b, n, start, lates + [late], calls)
  {
    forall i | 0 <= i < |lates| ensures Refused(p, b, n, start, (lates + [late])[i], calls, i) {
      RefusedStays(p, b, n, start, lates[i], before, calls, i);
    }
  }

  /** Every one of our calls in those turns is refused, and all of them are proper calls. */
  predicate Starved(p: Plan, b: Bucket, n: int, start: Time, lates: seq<nat>)
    requires p.Valid()
  {
    var calls := Turns(p, b, n, start, lates);
    Calls(calls) && AllRefused(p, b, n, start, lates, calls)
  }

  lemma OneMoreTurn(p: Plan, b: Bucket, n: int, start: Time, lates: seq<nat>, late: nat, before: seq<Call>,
                    calls: seq<Call>)
    requires InRange(p, b) && 0 < n && n as real <= p.capacity && ZERO_TIME < start && ZERO_TIME <= b.last
    requires Calls(before) && AllRefused(p, b, n, start, lates, before)
    requires calls == before + Turn(p, b, n, start, late, before)
    ensures Calls(calls) && AllRefused(p, b, n, start, lates + [late], calls)
  {
    TurnIsRefused(p, b, n, start, late, before, calls);
    AllRefusedStays(p, b, n, start, lates, late, before, calls);
  }

  /** Among several callers no number of calls suffices, for any weight: whatever the bucket holds at first, and
      however late we are each time, there are requests of another caller that have every one of our calls
      refused, though each comes no earlier than the wait its own refusal asked for. */
  lemma {:induction false} OtherCallersStarve(p: Plan, b: Bucket, n: int, start: Time, lates: seq<nat>)
    requires InRange(p, b) && 0 < n && n as real <= p.capacity && ZERO_TIME < start && ZERO_TIME <= b.last
    ensures Starved(p, b, n, start, lates)
  {
    if lates != [] {
      var front, late := lates[..|lates| - 1], lates[|lates| - 1];
      OtherCallersStarve(p, b, n, start, front);
      assert lates == front + [late];
      OneMoreTurn(p, b, n, start, front, late, Turns(p, b, n, start, front), Turns(p, b, n, start, lates));
    }
  }

  /** A clock that stays behind the bucket's time brings nothing back: calls that do not fit never will. */
  lemma {:induction false} ClockBehindStarves(p: Plan, b: Bucket, calls: seq<Call>)
    requires ZERO_TIME < b.last && forall c <- calls :: c.now <= b.last && b.tokens < c.n as real
    ensures After(p, b, calls) == b && Granted(p, b, calls) == 0
  {
    if calls != [] {
      assert calls == calls[..|calls| - 1] + [calls[|calls| - 1]];
      ClockBehindStarves(p, b, calls[..|calls| - 1]);
    }
  }

  // --- The limiter ---

  datatype WaitResult = Admitted | Cancelled | TooHeavy

  class WeightedLimiter {
    const plan: Plan
    var tokens: real
    var last: Time

    constructor (plan: Plan, now: Time)
      requires plan.Valid()
      ensures this.plan == plan && Valid() && Now() == Bucket(plan.capacity, now)
    {
      this.plan := plan;
      tokens, last := plan.capacity, now;
    }

    function Now(): Bucket
      reads this
    {
      Bucket(tokens, last)
    }

    ghost predicate Valid()
      reads this
    {
      InRange(plan, Now())
    }

    /** Refills the bucket and takes `n` tokens if it has them; else says how long to wait. */
    method Reserve(n: int, now: Time) returns (wait: int, ok: bool)
      requires Valid() && 0 < n
      modifies this
      ensures Valid() && Now() == Taken(plan, old(Now()), n, now)
      ensures ok <==> Fits(plan, old(Now()), n, now)
      ensures wait == if ok then 0 else plan.Wait(n as real - tokens)
    {
      if last == ZERO_TIME {
        last := now;
      }
      if now > last {
        RefillIsPositive(plan, now - last);
        tokens := tokens + plan.Refill(now - last);
        if tokens > plan.capacity {
          tokens := plan.capacity;
        }
        last := now;
      }
      if tokens >= n as real {
        tokens := tokens - n as real;
        return 0, true;
      }
      return plan.Wait(n as real - tokens), false;
    }

    /** Waits until `n` tokens are taken, as the only caller, with a clock that does not go back and timers
        that never fire early. Only cancellation keeps a weight within the capacity from being admitted. It
        makes at most three calls, all refused but the last; if the clock starts behind the bucket's time,
        one more for each shortest wait it is behind. */
    method WaitN(n: int, start: Time) returns (result: WaitResult, ghost calls: seq<Call>)
      requires Valid() && ZERO_TIME < start && ZERO_TIME <= last
      modifies this
      ensures Valid() && Now() == After(plan, old(Now()), calls)
      ensures |calls| <= 3 + WaitsBehind(old(last) - start)
      ensures n <= 0 ==> result == Admitted && calls == []
      ensures 0 < n && n as real > plan.capacity ==> result in {TooHeavy, Cancelled} && calls == []
      ensures 0 < n && n as real <= plan.capacity ==> result in {Admitted, Cancelled}
      ensures Granted(plan, old(Now()), calls) == if 0 < n && result == Admitted then n else 0
    {
      calls := [];
      if n <= 0 {
        return Admitted, calls;
      }
      var cancelled: bool := *;
      if cancelled {
        return Cancelled, calls;
      }
      if n as real > plan.capacity {
        return TooHeavy, calls;
      }
      var now := start;
      ghost var late := 0;
      while true
        invariant Valid() && ZERO_TIME <= last && ZERO_TIME < now
        invariant Now() == After(plan, old(Now()), calls) && Granted(plan, old(Now()), calls) == 0
        invariant late <= WaitsBehind(old(last) - start)
        invariant now < last ==> |calls| == late && last == old(last) && late * SHORTEST_WAIT <= now - start
        invariant late <= |calls| <= late + 2
        invariant |calls| > late ==> Waited(plan, Now(), n, now)
        invariant |calls| == late + 2 ==> n as real - tokens < plan.Refill(1)
        decreases 3 + WaitsBehind(old(last) - start) - |calls|
      {
        ghost var before := Now();
        if |calls| == late + 1 {
          FirstWaitAlmostSuffices(plan, before, n, now);
        } else if |calls| == late + 2 {
          SecondWaitSuffices(plan, before, n, now);
        }
        var wait, ok := Reserve(n, now);
        assert (calls + [Call(n, now)])[..|calls|] == calls;
        calls := calls + [Call(n, now)];
        if ok {
          return Admitted, calls;
        }
        cancelled := *;
        if cancelled {
          return Cancelled, calls;
        }
        if now < last {
          late := late + 1;
        }
        var woken: Time :| woken >= now + wait;
        now := woken;
      }
    }
  }

  /** A limiter without a positive rate and burst limits nothing. */
  method NewWeightedLimiter(weightPerMinute: int, burst: int, now: Time) returns (l: WeightedLimiter?)
    ensures l == null <==> weightPerMinute <= 0 || burst <= 0
    ensures l != null ==> fresh(l) && l.Valid() && l.plan == Plan(burst as real, weightPerMinute as real / 60.0)
                          && l.Now() == Bucket(burst as real, now)
  {
    if weightPerMinute <= 0 || burst <= 0 {
      return null;
    }
    l := new WeightedLimiter(Plan(burst as real, weightPerMinute as real / 60.0), now);
  }
}
