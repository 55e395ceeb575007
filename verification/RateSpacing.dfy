/** When the calls of the adaptive rate limiter keep their distance, and when they come at twice its rate. */
module RateSpacing {
  import opened Prelude
  import opened RateLimiting
  import opened RateBounds

  // ---------------------------------------------------------------- when calls keep their distance

  /** Every two grants, immediate or reserved, are at least `gap` apart. */
  ghost predicate GrantsApart(times: seq<real>, gap: real) {
    forall i, j :: 0 <= i < j < |times| ==> times[j] - times[i] >= gap || times[i] - times[j] >= gap
  }

  /** What docs/architecture.md says of `acquire`: a call is let through no sooner than 1/rate after any
      call before it, at the rate it meets. */
  ghost predicate SpacedAtRate(calls: seq<Call>) {
    && (forall i :: 0 <= i < |calls| ==> calls[i].rate > 0.0)
    && (forall i, j :: 0 <= i < j < |calls| ==> calls[j].at - calls[i].at >= 1.0 / calls[j].rate)
  }

  ghost predicate AlwaysApart(maxRate: real, minRate: real)
    requires maxRate > 0.0
  {
    forall now: real, events: seq<Event>, r: Run ::
      now >= 0.0 && Reaches(Begin(maxRate, minRate, now), events, r) ==>
        GrantsApart(r.immediate + r.wakeUps, 1.0 / maxRate)
  }

  /** A bucket smaller than one token never grants at once. */
  lemma {:induction false} NeverImmediate(start: Run, events: seq<Event>, end: Run)
    requires RatesOk(start) && start.limiter.maxRate < 1.0 && start.immediate == []
    requires Reaches(start, events, end)
    ensures end.immediate == []
    decreases |events|
  {
    if events != [] {
      var e := events[0];
      RatesKept(start, e);
      NeverImmediate(Step(start, e), events[1..], end);
    }
  }

  lemma GapOfOne(m: real, span: real)
    requires 0.0 < m && 1.0 <= m * span
    ensures span >= 1.0 / m
  {
    MulMono(1.0 / m, 1.0, m * span);
    assert 1.0 / m * (m * span) == span;
  }

  lemma AtLeastOne(m: real, first: real, last: real, k: int)
    requires 0.0 < m && 1 <= k && k as real <= m * (last - first)
    ensures last - first >= 1.0 / m
  {
    GapOfOne(m, last - first);
  }

  lemma SpacedApart(w: seq<real>, m: real)
    requires 0.0 < m && Spaced(w, m)
    ensures GrantsApart(w, 1.0 / m)
  {
    forall i, j | 0 <= i < j < |w|
      ensures w[j] - w[i] >= 1.0 / m
    {
      assert WakeGap(w, m, i, j);
      AtLeastOne(m, w[i], w[j], j - i);
    }
  }

  lemma SlowKeepsApart(maxRate: real, minRate: real, now: real, events: seq<Event>, r: Run)
    requires ValidConfig(maxRate, minRate) && maxRate < 1.0 && now >= 0.0
    requires Reaches(Begin(maxRate, minRate, now), events, r)
    ensures GrantsApart(r.immediate + r.wakeUps, 1.0 / maxRate)
  {
    var start := Begin(maxRate, minRate, now);
    assert start.all429 == [] + start.limiter.times429;
    InvReaches(start, events, r);
    NeverImmediate(start, events, r);
    assert [] + r.wakeUps == r.wakeUps;
    SpacedApart(r.wakeUps, maxRate);
  }

  lemma SecondSlot(m: real)
    requires 1.0 < m < 2.0
    ensures Slot(0.0, m - 1.0, m, 0.0) == (2.0 - m) / m
    ensures 0.0 < (2.0 - m) / m < 1.0 / m
  {
    SlotAtBurst(0.0, m - 1.0, m, 0.0);
    assert 1.0 / m - (2.0 - m) / m == (m - 1.0) / m;
    Reciprocals(m, m, 2.0 - m);
  }

  /** Two calls at once on a new limiter faster than one a second come too close together. */
  lemma TwoAtOnce(maxRate: real, minRate: real) returns (r: Run, second: real)
    requires ValidConfig(maxRate, minRate) && maxRate > 1.0
    ensures Reaches(Begin(maxRate, minRate, 0.0), [Acquire(0.0), Acquire(0.0)], r)
    ensures r.immediate + r.wakeUps == [0.0, second] && 0.0 <= second < 1.0 / maxRate
    ensures r.calls == [Call(0.0, 0.0, maxRate, false), Call(0.0, second, maxRate, maxRate < 2.0)]
  {
    var r0 := Begin(maxRate, minRate, 0.0);
    var r1 := Step(r0, Acquire(0.0));
    StillFull(maxRate, maxRate);
    StillFull(maxRate - 1.0, maxRate);
    Reciprocals(maxRate, maxRate, 0.0);
    assert r1.immediate == [0.0] && r1.wakeUps == [] && r1.limiter.tokens == maxRate - 1.0;
    second := 0.0;
    if maxRate < 2.0 {
      SecondSlot(maxRate);
      second := (2.0 - maxRate) / maxRate;
    }
    r := Step(r1, Acquire(0.0));
    OneMore(r0, Acquire(0.0));
    OneMore(r1, Acquire(0.0));
    ReachesAppend(r0, [Acquire(0.0)], r1, [Acquire(0.0)], r);
    assert [Acquire(0.0)] + [Acquire(0.0)] == [Acquire(0.0), Acquire(0.0)];
  }

  /** At exactly one call a second a third call, a second later, finds a token and is granted at the
      instant the second call wakes. */
  lemma ThirdMeetsSecond(minRate: real) returns (r: Run)
    requires ValidConfig(1.0, minRate)
    ensures Reaches(Begin(1.0, minRate, 0.0), [Acquire(0.0), Acquire(0.0), Acquire(1.0)], r)
    ensures r.immediate + r.wakeUps == [0.0, 1.0, 1.0]
    ensures r.calls == [Call(0.0, 0.0, 1.0, false), Call(0.0, 1.0, 1.0, true), Call(1.0, 1.0, 1.0, false)]
  {
    var r0 := Begin(1.0, minRate, 0.0);
    var r1 := Step(r0, Acquire(0.0));
    var r2 := Step(r1, Acquire(0.0));
    r := Step(r2, Acquire(1.0));
    assert r2.immediate == [0.0] && r2.wakeUps == [1.0] && r2.limiter.tokens == 0.0;
    OneMore(r0, Acquire(0.0));
    OneMore(r1, Acquire(0.0));
    OneMore(r2, Acquire(1.0));
    ReachesAppend(r0, [Acquire(0.0)], r1, [Acquire(0.0)], r2);
    ReachesAppend(r0, [Acquire(0.0)] + [Acquire(0.0)], r2, [Acquire(1.0)], r);
    assert [Acquire(0.0)] + [Acquire(0.0)] + [Acquire(1.0)] == [Acquire(0.0), Acquire(0.0), Acquire(1.0)];
  }

  lemma FasterTooClose(maxRate: real, minRate: real) returns (events: seq<Event>, r: Run)
    requires ValidConfig(maxRate, minRate) && maxRate > 1.0
    ensures Reaches(Begin(maxRate, minRate, 0.0), events, r)
    ensures !GrantsApart(r.immediate + r.wakeUps, 1.0 / maxRate) && !SpacedAtRate(r.calls)
  {
    var second;
    r, second := TwoAtOnce(maxRate, minRate);
    events := [Acquire(0.0), Acquire(0.0)];
    TooClose(r.immediate + r.wakeUps, r.calls, 0, 1, 1.0 / maxRate);
  }

  /** A run at one call a second or more whose last two grants are too close, counted either way. */
  lemma FastComesTooClose(maxRate: real, minRate: real) returns (events: seq<Event>, r: Run)
    requires ValidConfig(maxRate, minRate) && maxRate >= 1.0
    ensures Reaches(Begin(maxRate, minRate, 0.0), events, r)
    ensures !GrantsApart(r.immediate + r.wakeUps, 1.0 / maxRate) && !SpacedAtRate(r.calls)
  {
    if maxRate > 1.0 {
      events, r := FasterTooClose(maxRate, minRate);
    } else {
      events, r := UnitTooClose(minRate);
    }
  }

  lemma UnitTooClose(minRate: real) returns (events: seq<Event>, r: Run)
    requires ValidConfig(1.0, minRate)
    ensures Reaches(Begin(1.0, minRate, 0.0), events, r)
    ensures !GrantsApart(r.immediate + r.wakeUps, 1.0 / 1.0) && !SpacedAtRate(r.calls)
  {
    r := ThirdMeetsSecond(minRate);
    events := [Acquire(0.0), Acquire(0.0), Acquire(1.0)];
    TooClose(r.immediate + r.wakeUps, r.calls, 1, 2, 1.0);
  }

  lemma TooClose(times: seq<real>, calls: seq<Call>, i: nat, j: nat, gap: real)
    requires i < j < |times| == |calls| && times[i] <= times[j] < times[i] + gap && gap > 0.0
    requires calls[i].at == times[i] && calls[j].at == times[j] && calls[j].rate > 0.0
    requires gap == 1.0 / calls[j].rate
    ensures !GrantsApart(times, gap) && !SpacedAtRate(calls)
  {}

  /** Every run of a configuration keeps all grants at least 1/maxRate apart, through any rate changes,
      if and only if its rate is below one call a second. */
  lemma SpacingIff(maxRate: real, minRate: real)
    requires ValidConfig(maxRate, minRate)
    ensures AlwaysApart(maxRate, minRate) <==> maxRate < 1.0
  {
    if maxRate < 1.0 {
      forall now: real, events: seq<Event>, r: Run
        | now >= 0.0 && Reaches(Begin(maxRate, minRate, now), events, r)
        ensures GrantsApart(r.immediate + r.wakeUps, 1.0 / maxRate)
      {
        SlowKeepsApart(maxRate, minRate, now, events, r);
      }
    } else {
      var events, r := FastComesTooClose(maxRate, minRate);
    }
  }

  // ---------------------------------------------------------------- the documented spacing

  ghost predicate AlwaysSpacedAtRate(maxRate: real, minRate: real) {
    forall now: real, events: seq<Event>, r: Run ::
      now >= 0.0 && Reaches(Begin(maxRate, minRate, now), events, r) ==> SpacedAtRate(r.calls)
  }

  /** With no immediate grants the calls are the wake-ups, each at some rate of the configuration. */
  ghost predicate CallsWake(r: Run) {
    && r.immediate == [] && |r.calls| == |r.wakeUps|
    && forall i :: 0 <= i < |r.calls| ==>
         r.calls[i].at == r.wakeUps[i] && r.limiter.minRate <= r.calls[i].rate <= r.limiter.maxRate
  }

  lemma {:induction false} SlowCalls(start: Run, events: seq<Event>, end: Run)
    requires RatesOk(start) && start.limiter.maxRate < 1.0 && CallsWake(start)
    requires Reaches(start, events, end)
    ensures CallsWake(end)
    decreases |events|
  {
    if events != [] {
      var e := events[0];
      RatesKept(start, e);
      NeverImmediate(start, [e], Step(start, e)) by {
        OneMore(start, e);
      }
      SlowCalls(Step(start, e), events[1..], end);
    }
  }

  lemma FixedRateSpaced(rate: real, now: real, events: seq<Event>, r: Run)
    requires 0.0 < rate < 1.0 && now >= 0.0 && Reaches(Begin(rate, rate, now), events, r)
    ensures SpacedAtRate(r.calls)
  {
    var start := Begin(rate, rate, now);
    assert start.all429 == [] + start.limiter.times429;
    InvReaches(start, events, r);
    SlowCalls(start, events, r);
    SpacedCalls(r, rate);
  }

  lemma SpacedCalls(r: Run, rate: real)
    requires CallsWake(r) && r.limiter.minRate == rate == r.limiter.maxRate && 0.0 < rate
    requires Spaced(r.wakeUps, rate)
    ensures SpacedAtRate(r.calls)
  {
    forall i, j | 0 <= i < j < |r.calls|
      ensures r.calls[j].at - r.calls[i].at >= 1.0 / r.calls[j].rate
    {
      assert WakeGap(r.wakeUps, rate, i, j);
      AtLeastOne(rate, r.wakeUps[i], r.wakeUps[j], j - i);
      assert r.calls[j].rate == rate;
    }
  }

  /** Enough 429s at one instant halve the rate once. */
  lemma ReportsHalve(r: Run) returns (events: seq<Event>, r': Run)
    requires r.clock == 0.0 && 0.0 < r.limiter.rate
    requires r.limiter.times429 != [] ==> r.limiter.times429[0] >= 0.0
    ensures Reaches(r, events, r') && r'.clock == 0.0
    ensures r'.wakeUps == r.wakeUps && r'.calls == r.calls
    ensures r'.limiter == r.limiter.(times429 := r'.limiter.times429,
                                     rate := MaxReal(r.limiter.minRate, r.limiter.rate * RATE_BACKOFF))
    decreases (6.0 * r.limiter.rate).Floor + 1 - |r.limiter.times429|
  {
    var e := Report429(0.0);
    var next := Step(r, e);
    assert next.limiter.times429 == r.limiter.times429 + [0.0];
    if (|r.limiter.times429| + 1) as real > 6.0 * r.limiter.rate {
      events, r' := [e], next;
      OneMore(r, e);
    } else {
      OneMore(r, e);
      var rest;
      rest, r' := ReportsHalve(next);
      events := [e] + rest;
      ReachesAppend(r, [e], next, rest, r');
    }
  }

  lemma SlowerStep(m: real, rate: real)
    requires 0.0 < m < 1.0 && m * 0.5 <= rate < m
    ensures 1.0 / m < 1.0 / rate <= 3.0 / m - 1.0
  {
    Reciprocals(rate, m, 0.0);
    Reciprocals(m * 0.5, rate, 0.0);
    assert 1.0 / (m * 0.5) == 2.0 / m;
    assert 1.0 / m > 1.0 by {
      MulMono(1.0 / m, m, 1.0);
    }
    assert 3.0 / m == 2.0 / m + 1.0 / m;
    assert 1.0 / rate - 1.0 / m == (m - rate) / (rate * m);
  }

  /** Two calls at once on a new limiter below one a second. */
  lemma TwoSlow(maxRate: real, minRate: real) returns (r: Run)
    requires ValidConfig(maxRate, minRate) && maxRate < 1.0
    ensures Reaches(Begin(maxRate, minRate, 0.0), Burst(0.0, 2), r)
    ensures |r.calls| == 2 && r.calls[1].at == (1.0 - maxRate) / maxRate + 1.0 / maxRate
    ensures r.clock == 0.0
    ensures r.limiter == Limiter(maxRate, maxRate, minRate, 0.0, 0.0, r.calls[1].at + 1.0 / maxRate, [])
  {
    var start := Begin(maxRate, minRate, 0.0);
    r := BurstSchedule(maxRate, minRate, 0.0, 2);
    assert start.all429 == [] + start.limiter.times429;
    InvReaches(start, Burst(0.0, 2), r);
    SlowCalls(start, Burst(0.0, 2), r);
  }

  lemma ThirdCall(r: Run, m: real)
    requires 0.0 < m < 1.0 && m * 0.5 <= r.limiter.rate < m
    requires |r.calls| == 2 && r.calls[1].at == (1.0 - m) / m + 1.0 / m
    requires r.limiter.tokens == 0.0 && r.limiter.refillAt == 0.0
    requires r.limiter.nextTokenAt == r.calls[1].at + 1.0 / m
    ensures var calls := Step(r, Acquire(0.0)).calls;
            && |calls| == 3 && calls[1] == r.calls[1]
            && calls[2] == Call(0.0, r.calls[1].at + 1.0 / m, r.limiter.rate, true)
  {
    SlowerStep(m, r.limiter.rate);
    StillFull(0.0, r.limiter.rate);
    ThirdSlot(m, r.limiter.rate, r.calls[1].at);
  }

  /** The slot after the last is still only 1/maxRate behind when a call meets a halved rate: two calls,
      enough 429s, and a third call, all at one instant. */
  lemma HalvedTooClose(maxRate: real, minRate: real) returns (events: seq<Event>, r: Run)
    requires ValidConfig(maxRate, minRate) && minRate < maxRate < 1.0
    ensures Reaches(Begin(maxRate, minRate, 0.0), events, r)
    ensures |r.calls| == 3 && r.calls[2].rate == MaxReal(minRate, maxRate * RATE_BACKOFF) < maxRate
    ensures r.calls[2].at - r.calls[1].at == 1.0 / maxRate < 1.0 / r.calls[2].rate
  {
    var start := Begin(maxRate, minRate, 0.0);
    var two := TwoSlow(maxRate, minRate);
    var reports, slowed := ReportsHalve(two);
    ReachesAppend(start, Burst(0.0, 2), two, reports, slowed);
    ThirdCall(slowed, maxRate);
    SlowerStep(maxRate, slowed.limiter.rate);
    r := Step(slowed, Acquire(0.0));
    OneMore(slowed, Acquire(0.0));
    events := Burst(0.0, 2) + reports + [Acquire(0.0)];
    ReachesAppend(start, Burst(0.0, 2) + reports, slowed, [Acquire(0.0)], r);
  }

  lemma ThirdSlot(m: real, rate: real, last: real)
    requires 0.0 < m < 1.0 && 0.0 < rate && 1.0 / rate <= 3.0 / m - 1.0
    requires last == (1.0 - m) / m + 1.0 / m
    ensures Slot(0.0, 0.0, rate, last + 1.0 / m) == last + 1.0 / m
  {
    assert (1.0 - m) / m == 1.0 / m - 1.0;
  }

  /** The documented spacing holds of a configuration if and only if its rate is below one call a second
      and can never change. */
  lemma DocumentedSpacingIff(maxRate: real, minRate: real)
    requires ValidConfig(maxRate, minRate)
    ensures AlwaysSpacedAtRate(maxRate, minRate) <==> maxRate < 1.0 && minRate == maxRate
  {
    if maxRate < 1.0 && minRate == maxRate {
      forall now: real, events: seq<Event>, r: Run
        | now >= 0.0 && Reaches(Begin(maxRate, minRate, now), events, r)
        ensures SpacedAtRate(r.calls)
      {
        FixedRateSpaced(maxRate, now, events, r);
      }
    } else if maxRate < 1.0 {
      var events, r := HalvedTooClose(maxRate, minRate);
      assert !SpacedAtRate(r.calls);
    } else {
      var events, r := FastComesTooClose(maxRate, minRate);
    }
  }

  // ---------------------------------------------------------------- one rate or two

  /** At most maxRate * T + 1 grants of either kind in a window of T seconds. */
  ghost predicate SingleRate(maxRate: real, minRate: real) {
    forall now: real, events: seq<Event>, r: Run, lo: real, hi: real ::
      now >= 0.0 && lo <= hi && Reaches(Begin(maxRate, minRate, now), events, r) ==>
        WakeUpsFit(r.immediate + r.wakeUps, maxRate, lo, hi)
  }

  function TickTimes(m: real, from: nat, count: nat): (ticks: seq<real>)
    requires m > 0.0
    ensures |ticks| == count && forall i :: 0 <= i < count ==> ticks[i] == (from + i) as real / m
  {
    if count == 0 then [] else TickTimes(m, from, count - 1) + [(from + count - 1) as real / m]
  }

  /** After k ticks of 1/maxRate, each with a call that finds a token and a call that must reserve. */
  ghost predicate Ticked(r: Run, m: real, k: nat, grants: seq<real>, wakes: seq<real>)
    requires m > 0.0
  {
    var l := r.limiter;
    && l.rate == m && l.tokens == 0.0 && l.refillAt == r.clock == k as real / m
    && l.nextTokenAt <= (k + 2) as real / m
    && r.immediate == grants + TickTimes(m, 1, k) && r.wakeUps == wakes + TickTimes(m, 2, k)
  }

  lemma TickArithmetic(m: real, k: nat)
    requires m > 0.0
    ensures k as real / m + 1.0 / m == (k + 1) as real / m > k as real / m
    ensures ((k + 1) as real / m - k as real / m) * m == 1.0
  {
    assert (k + 1) as real == k as real + 1.0;
    assert (k as real + 1.0) / m == k as real / m + 1.0 / m;
    Reciprocals(m, m, 0.0);
    assert (1.0 / m) * m == 1.0;
  }

  lemma TickStep(r: Run, m: real, k: nat, grants: seq<real>, wakes: seq<real>) returns (events: seq<Event>, r': Run)
    requires m >= 1.0 && Ticked(r, m, k, grants, wakes)
    ensures Reaches(r, events, r') && Ticked(r', m, k + 1, grants, wakes)
  {
    var t := (k + 1) as real / m;
    TickArithmetic(m, k);
    TickArithmetic(m, k + 1);
    TickArithmetic(m, k + 2);
    var e := Acquire(t);
    var mid := Step(r, e);
    assert Refilled(r.limiter, t) == 1.0;
    assert mid.immediate == grants + TickTimes(m, 1, k + 1) && mid.limiter.tokens == 0.0;
    StillFull(0.0, m);
    r' := Step(mid, e);
    assert Slot(t, 0.0, m, mid.limiter.nextTokenAt) == (k + 2) as real / m;
    assert r'.wakeUps == wakes + TickTimes(m, 2, k + 1);
    OneMore(r, e);
    OneMore(mid, e);
    ReachesAppend(r, [e], mid, [e], r');
    events := [e] + [e];
  }

  lemma {:induction false} TicksReach(start: Run, m: real, k: nat, grants: seq<real>, wakes: seq<real>)
    returns (events: seq<Event>, r: Run)
    requires m >= 1.0 && Ticked(start, m, 0, grants, wakes)
    ensures Reaches(start, events, r) && Ticked(r, m, k, grants, wakes)
  {
    if k == 0 {
      events, r := [], start;
    } else {
      var before, mid := TicksReach(start, m, k - 1, grants, wakes);
      var more;
      more, r := TickStep(mid, m, k - 1, grants, wakes);
      ReachesAppend(start, before, mid, more, r);
      events := before + more;
    }
  }

  /** Counting the ticks of a window, whatever came before them. */
  lemma CountTickTimes(m: real, before: seq<real>, from: nat, count: nat, n: nat)
    requires m > 0.0 && 1 <= from && from + n <= count + 1
    ensures CountIn(before + TickTimes(m, from, count), 1.0 / m, count as real / m) >= n
  {
    var lo, hi := 1.0 / m, count as real / m;
    var ticks := TickTimes(m, from, count);
    var first, rest := ticks[..n], ticks[n..];
    forall i | 0 <= i < n
      ensures lo <= first[i] <= hi
    {
      DivMono(m, 1.0, (from + i) as real);
      DivMono(m, (from + i) as real, count as real);
    }
    CountInAll(first, lo, hi);
    assert before + ticks == before + first + rest;
    CountInSplit(before + first, rest, lo, hi);
    CountInSplit(before, first, lo, hi);
  }

  lemma DivMono(m: real, a: real, b: real)
    requires m > 0.0 && a <= b
    ensures a / m <= b / m
  {
    assert b / m - a / m == (b - a) / m;
  }

  /** A burst to empty the bucket, then ticks. */
  lemma BurstThenTicks(maxRate: real, minRate: real, k: nat)
    returns (events: seq<Event>, r: Run, grants: seq<real>, wakes: seq<real>)
    requires ValidConfig(maxRate, minRate) && maxRate >= 1.0
    ensures Reaches(Begin(maxRate, minRate, 0.0), events, r) && Ticked(r, maxRate, k, grants, wakes)
  {
    var calls := maxRate.Floor + 1;
    var first := BurstSchedule(maxRate, minRate, 0.0, calls);
    FirstSlot(maxRate);
    grants, wakes := first.immediate, first.wakeUps;
    assert Ticked(first, maxRate, 0, grants, wakes);
    var more;
    more, r := TicksReach(first, maxRate, k, grants, wakes);
    ReachesAppend(Begin(maxRate, minRate, 0.0), Burst(0.0, calls), first, more, r);
    events := Burst(0.0, calls) + more;
  }

  /** Twice the rate: at any rate of one call a second or more, for every n some run grants 2n + 1 calls
      in a window of n / maxRate seconds, which is 2 * maxRate * T + 1. */
  lemma DoubledRate(maxRate: real, minRate: real, n: nat) returns (events: seq<Event>, r: Run)
    requires ValidConfig(maxRate, minRate) && maxRate >= 1.0
    ensures Reaches(Begin(maxRate, minRate, 0.0), events, r)
    ensures CountIn(r.immediate + r.wakeUps, 1.0 / maxRate, (n + 1) as real / maxRate) >= 2 * n + 1
    ensures maxRate * ((n + 1) as real / maxRate - 1.0 / maxRate) == n as real
  {
    var grants, wakes;
    events, r, grants, wakes := BurstThenTicks(maxRate, minRate, n + 1);
    CountInSplit(r.immediate, r.wakeUps, 1.0 / maxRate, (n + 1) as real / maxRate);
    CountTickTimes(maxRate, grants, 1, n + 1, n + 1);
    CountTickTimes(maxRate, wakes, 2, n + 1, n);
    WindowOfTicks(maxRate, n);
  }

  lemma FirstSlot(m: real)
    requires m >= 1.0
    ensures (1.0 - (m - m.Floor as real)) / m + 1.0 / m <= 2.0 / m
  {
    DivMono(m, 1.0 - (m - m.Floor as real), 1.0);
    assert 1.0 / m + 1.0 / m == 2.0 / m;
  }

  lemma WindowOfTicks(m: real, n: nat)
    requires m > 0.0
    ensures m * ((n + 1) as real / m - 1.0 / m) == n as real
  {
    assert (n + 1) as real / m - 1.0 / m == ((n + 1) as real - 1.0) / m;
    assert m * (n as real / m) == n as real;
  }

  /** Calls of both kinds together keep to the configured rate, in every window of every run, if and only
      if it is below one call a second. */
  lemma SingleRateIff(maxRate: real, minRate: real)
    requires ValidConfig(maxRate, minRate)
    ensures SingleRate(maxRate, minRate) <==> maxRate < 1.0
  {
    if maxRate < 1.0 {
      forall now: real, events: seq<Event>, r: Run, lo: real, hi: real
        | now >= 0.0 && lo <= hi && Reaches(Begin(maxRate, minRate, now), events, r)
        ensures WakeUpsFit(r.immediate + r.wakeUps, maxRate, lo, hi)
      {
        SlowFits(maxRate, minRate, now, events, r, lo, hi);
      }
    } else {
      var events, r, lo, hi := TooMany(maxRate, minRate);
    }
  }

  lemma TooMany(maxRate: real, minRate: real) returns (events: seq<Event>, r: Run, lo: real, hi: real)
    requires ValidConfig(maxRate, minRate) && maxRate >= 1.0
    ensures Reaches(Begin(maxRate, minRate, 0.0), events, r) && lo <= hi
    ensures !WakeUpsFit(r.immediate + r.wakeUps, maxRate, lo, hi)
  {
    events, r := DoubledRate(maxRate, minRate, 1);
    lo, hi := 1.0 / maxRate, (1 + 1) as real / maxRate;
    DivMono(maxRate, 1.0, 2.0);
    ThreeInOne(r.immediate + r.wakeUps, maxRate, lo, hi);
  }

  lemma ThreeInOne(grants: seq<real>, m: real, lo: real, hi: real)
    requires CountIn(grants, lo, hi) >= 3 && m * (hi - lo) == 1.0
    ensures !WakeUpsFit(grants, m, lo, hi)
  {}

  lemma SlowFits(maxRate: real, minRate: real, now: real, events: seq<Event>, r: Run, lo: real, hi: real)
    requires ValidConfig(maxRate, minRate) && maxRate < 1.0 && now >= 0.0 && lo <= hi
    requires Reaches(Begin(maxRate, minRate, now), events, r)
    ensures WakeUpsFit(r.immediate + r.wakeUps, maxRate, lo, hi)
  {
    var start := Begin(maxRate, minRate, now);
    assert start.all429 == [] + start.limiter.times429;
    InvReaches(start, events, r);
    NeverImmediate(start, events, r);
    assert [] + r.wakeUps == r.wakeUps;
    WakeUpsInWindow(r.wakeUps, maxRate, lo, hi);
  }
}
