/** What the adaptive rate limiter does exactly, at any rate it has come to: who is let through at once,
    when the others wake, and when the rate moves. */
module RateExact {
  import opened Prelude
  import opened RateWindow
  import opened RateLimiting
  import opened RateBounds

  // ---------------------------------------------------------------- decided by the calls alone

  /** The tokens a call finds at `now`, at the rate it meets, from the calls made before it: as many as
      the one before left over and the time since earned, in a bucket of one second's calls. */
  function LevelFound(calls: seq<Call>, now: real, rate: real): real {
    if calls == [] then rate
    else
      var last := calls[|calls| - 1];
      var left := if last.waits then 0.0 else LevelFound(calls[..|calls| - 1], last.made, last.rate) - 1.0;
      MinReal(rate, left + (now - last.made) * rate)
  }

  /** The latest call that had to wait. */
  function LastWait(calls: seq<Call>): Option<Call> {
    if calls == [] then None
    else if calls[|calls| - 1].waits then Some(calls[|calls| - 1])
    else LastWait(calls[..|calls| - 1])
  }

  /** The first slot after the latest reservation: one call later, at the rate of that call. */
  function NextSlot(calls: seq<Call>): real
    requires forall i :: 0 <= i < |calls| ==> calls[i].rate > 0.0
  {
    match LastWait(calls)
    case None => 0.0
    case Some(c) => LastWaitIn(calls); c.at + 1.0 / c.rate
  }

  lemma {:induction false} LastWaitIn(calls: seq<Call>)
    ensures LastWait(calls).Some? ==> LastWait(calls).value in calls
  {
    if calls != [] && !calls[|calls| - 1].waits {
      LastWaitIn(calls[..|calls| - 1]);
    }
  }

  ghost predicate CallsOk(r: Run) {
    && RatesOk(r)
    && (forall i :: 0 <= i < |r.calls| ==> r.calls[i].rate > 0.0)
    && r.limiter.nextTokenAt == NextSlot(r.calls)
    && (r.calls == [] ==> r.limiter.tokens == r.limiter.maxRate)
    && (r.calls != [] ==>
          var last := r.calls[|r.calls| - 1];
          && r.limiter.refillAt == last.made
          && r.limiter.tokens == if last.waits then 0.0
                                 else LevelFound(r.calls[..|r.calls| - 1], last.made, last.rate) - 1.0)
  }

  lemma FullStaysFull(tokens: real, elapsed: real, rate: real)
    requires 0.0 <= elapsed && 0.0 < rate <= tokens
    ensures Topped(tokens, elapsed, rate) == rate
  {
    MulLe(0.0, elapsed, rate);
  }

  lemma LevelIsRefilled(r: Run, now: real)
    requires CallsOk(r) && r.clock <= now
    ensures Refilled(r.limiter, now) == LevelFound(r.calls, now, r.limiter.rate)
  {
    if r.calls == [] {
      FullStaysFull(r.limiter.maxRate, now - r.limiter.refillAt, r.limiter.rate);
    }
  }

  lemma CallsKept(r: Run, e: Event)
    requires CallsOk(r) && r.clock <= e.at
    ensures CallsOk(Step(r, e))
  {
    var r' := Step(r, e);
    RatesKept(r, e);
    if e.Acquire? {
      LevelIsRefilled(r, e.at);
      assert r'.calls[..|r'.calls| - 1] == r.calls;
    }
  }

  lemma {:induction false} CallsReach(start: Run, events: seq<Event>, end: Run)
    requires CallsOk(start) && Reaches(start, events, end)
    ensures CallsOk(end)
    decreases |events|
  {
    if events != [] {
      CallsKept(start, events[0]);
      CallsReach(Step(start, events[0]), events[1..], end);
    }
  }

  lemma CallsReachable(r: Run)
    requires Reachable(r)
    ensures CallsOk(r)
  {
    var maxRate, minRate, now, events :|
      ValidConfig(maxRate, minRate) && now >= 0.0 && Reaches(Begin(maxRate, minRate, now), events, r);
    CallsReach(Begin(maxRate, minRate, now), events, r);
  }

  /** Every call is decided by the calls before it and the rate it meets: it is let through at once exactly
      if it finds a token, and otherwise wakes when the missing part will have been earned, but not
      before the slot after the latest reservation. */
  lemma CallFromHistory(r: Run, now: real)
    requires Reachable(r) && r.clock <= now
    ensures r.limiter.rate > 0.0 && forall i :: 0 <= i < |r.calls| ==> r.calls[i].rate > 0.0
    ensures var rate := r.limiter.rate;
            var level := LevelFound(r.calls, now, rate);
            var wakeUp := MaxReal(now + (1.0 - level) / rate, NextSlot(r.calls));
            Step(r, Acquire(now)).calls ==
              r.calls + [if level >= 1.0 then Call(now, now, rate, false) else Call(now, wakeUp, rate, true)]
  {
    CallsReachable(r);
    LevelIsRefilled(r, now);
  }

  // ---------------------------------------------------------------- bursts at any rate

  /** After k calls at `now` on `r`, of which g were let through: the tokens left and those granted fit
      in one second's calls, and starting from a full bucket they are exactly that. */
  ghost predicate InBurst(r: Run, r': Run, now: real, k: nat, full: bool) {
    var q, left := r.limiter.rate, Refilled(r'.limiter, now);
    var g := |r'.immediate| - |r.immediate|;
    && RatesOk(r') && r'.limiter.rate == q && r'.clock <= now
    && 0 <= g && 0.0 <= left && g as real + left <= q
    && (full ==> g == MinInt(k, q.Floor) && left == if k <= q.Floor then q - k as real else 0.0)
  }

  lemma InBurstStep(r: Run, r': Run, now: real, k: nat, full: bool)
    requires InBurst(r, r', now, k, full)
    ensures InBurst(r, Step(r', Acquire(now)), now, k + 1, full)
  {
    var next := Step(r', Acquire(now));
    RatesKept(r', Acquire(now));
    assert next.limiter.refillAt == now;
    StillFull(next.limiter.tokens, next.limiter.rate);
  }

  lemma {:induction false} BurstOn(r: Run, now: real, n: nat, full: bool) returns (r': Run)
    requires InBurst(r, r, now, 0, full)
    ensures Reaches(r, Burst(now, n), r') && InBurst(r, r', now, n, full)
  {
    if n == 0 {
      r' := r;
    } else {
      var before := BurstOn(r, now, n - 1, full);
      InBurstStep(r, before, now, n - 1, full);
      r' := Step(before, Acquire(now));
      OneMore(before, Acquire(now));
      ReachesAppend(r, Burst(now, n - 1), before, [Acquire(now)], r');
    }
  }

  /** A second without a call fills the bucket, whatever the rate. */
  predicate Rested(r: Run, now: real) {
    r.calls == [] || r.calls[|r.calls| - 1].made + 1.0 <= now
  }

  lemma SecondFills(tokens: real, elapsed: real, rate: real)
    requires 0.0 <= tokens && 1.0 <= elapsed && 0.0 < rate
    ensures Topped(tokens, elapsed, rate) == rate
  {
    MulLe(1.0, elapsed, rate);
  }

  lemma RestedIsFull(r: Run, now: real)
    requires CallsOk(r) && r.clock <= now && Rested(r, now)
    ensures Refilled(r.limiter, now) == r.limiter.rate
  {
    var l := r.limiter;
    if r.calls == [] {
      FullStaysFull(l.tokens, now - l.refillAt, l.rate);
    } else {
      SecondFills(l.tokens, now - l.refillAt, l.rate);
    }
  }

  /** Bursts at any rate the limiter has come to: of n calls at one instant at most floor(rate) are let
      through at once, and exactly the first floor(rate) if no call was made in the second before. */
  lemma BurstAtAnyRate(r: Run, now: real, n: nat) returns (r': Run)
    requires Reachable(r) && r.clock <= now
    ensures Reaches(r, Burst(now, n), r') && r'.limiter.rate == r.limiter.rate
    ensures 0 <= |r'.immediate| - |r.immediate| <= r.limiter.rate.Floor
    ensures Rested(r, now) ==> |r'.immediate| - |r.immediate| == MinInt(n, r.limiter.rate.Floor)
  {
    CallsReachable(r);
    RefilledBounds(r, now);
    ToppedBounds(r.limiter.tokens, now - r.limiter.refillAt, r.limiter.rate, r.limiter.rate);
    if Rested(r, now) {
      RestedIsFull(r, now);
    }
    r' := BurstOn(r, now, n, Rested(r, now));
  }

  // ---------------------------------------------------------------- stretches at one rate

  /** A run in which the rate never moves. */
  ghost predicate SteadyReaches(start: Run, events: seq<Event>, end: Run)
    decreases |events|
  {
    if events == [] then end == start
    else
      && start.limiter.rate > 0.0 && start.clock <= events[0].at
      && Step(start, events[0]).limiter.rate == start.limiter.rate
      && SteadyReaches(Step(start, events[0]), events[1..], end)
  }

  function Level(r: Run): real {
    Refilled(r.limiter, r.clock)
  }

  lemma LevelBounds(r: Run)
    requires RatesOk(r)
    ensures 0.0 <= Level(r) <= r.limiter.rate
  {
    ToppedBounds(r.limiter.tokens, r.clock - r.limiter.refillAt, r.limiter.rate, r.limiter.rate);
  }

  /** From `r` to `r'` no more was given out than the bucket held and the time between earned. */
  ghost predicate SpentWithin(r: Run, r': Run) {
    (|r'.immediate| - |r.immediate|) as real + Level(r') <= Level(r) + r.limiter.rate * (r'.clock - r.clock)
  }

  /** A step gives out no more than it finds. */
  lemma StepSpends(r: Run, e: Event)
    requires RatesOk(r) && r.clock <= e.at && Step(r, e).limiter.rate == r.limiter.rate
    ensures (|Step(r, e).immediate| - |r.immediate|) as real + Level(Step(r, e)) <= Refilled(r.limiter, e.at)
  {
    if e.Acquire? {
      RefilledBounds(r, e.at);
      ToppedNow(Step(r, e).limiter.tokens, r.limiter.rate);
    }
  }

  lemma LevelGrows(r: Run, now: real)
    requires RatesOk(r) && r.clock <= now
    ensures Refilled(r.limiter, now) <= Level(r) + r.limiter.rate * (now - r.clock)
  {
    ToppedGrows(r.limiter.tokens, r.limiter.refillAt, r.clock, now, r.limiter.rate);
  }

  lemma WithinFound(r: Run, r': Run)
    requires RatesOk(r) && r.clock <= r'.clock
    requires (|r'.immediate| - |r.immediate|) as real + Level(r') <= Refilled(r.limiter, r'.clock)
    ensures SpentWithin(r, r')
  {
    LevelGrows(r, r'.clock);
  }

  lemma SpentInTurn(r: Run, r': Run, r'': Run)
    requires SpentWithin(r, r') && SpentWithin(r', r'') && r'.limiter.rate == r.limiter.rate
    ensures SpentWithin(r, r'')
  {
    Distribute(r.limiter.rate, r'.clock - r.clock, r''.clock - r'.clock);
  }

  lemma {:induction false} LevelSpent(start: Run, events: seq<Event>, end: Run)
    requires RatesOk(start) && SteadyReaches(start, events, end)
    ensures RatesOk(end) && start.clock <= end.clock && end.limiter.rate == start.limiter.rate
    ensures SpentWithin(start, end)
    decreases |events|
  {
    if events == [] {
      Distribute(start.limiter.rate, 0.0, 0.0);
    } else {
      var next := Step(start, events[0]);
      RatesKept(start, events[0]);
      StepSpends(start, events[0]);
      WithinFound(start, next);
      LevelSpent(next, events[1..], end);
      SpentInTurn(start, next, end);
    }
  }

  /** While the rate stays at q, at most q * (T + 1) calls are let through at once in T seconds. */
  lemma SteadyBound(r: Run, events: seq<Event>, end: Run)
    requires Reachable(r) && SteadyReaches(r, events, end)
    ensures (|end.immediate| - |r.immediate|) as real <= r.limiter.rate * (end.clock - r.clock + 1.0)
  {
    CallsReachable(r);
    LevelSpent(r, events, end);
    LevelBounds(r);
    LevelBounds(end);
    Distribute(r.limiter.rate, end.clock - r.clock, 1.0);
  }

  lemma {:induction false} ReportsKeepTokens(start: Run, events: seq<Event>, end: Run)
    requires RatesOk(start) && Reaches(start, events, end) && forall e :: e in events ==> !e.Acquire?
    ensures RatesOk(end) && end.limiter.tokens == start.limiter.tokens
    ensures end.limiter.refillAt == start.limiter.refillAt && end.immediate == start.immediate
    decreases |events|
  {
    if events != [] {
      RatesKept(start, events[0]);
      ReportsKeepTokens(Step(start, events[0]), events[1..], end);
    }
  }

  lemma SlotEarns(tokens: real, elapsed: real, rate: real)
    requires 0.0 <= tokens && 1.0 <= rate && 1.0 / rate <= elapsed
    ensures Topped(tokens, elapsed, rate) >= 1.0
  {
    Reciprocals(rate, rate, 0.0);
    MulLe(1.0 / rate, elapsed, rate);
  }

  /** A caller that keeps its distance never waits: a call made 1/q after the one before it, when the rate
      is q >= 1 by then, is let through at once. */
  lemma SpacedCallerPasses(r: Run, first: real, events: seq<Event>, end: Run, now: real)
    requires Reachable(r) && r.clock <= first && r.limiter.rate > 0.0
    requires Reaches(Step(r, Acquire(first)), events, end) && forall e :: e in events ==> !e.Acquire?
    requires end.clock <= now && end.limiter.rate >= 1.0 && now - first >= 1.0 / end.limiter.rate
    ensures Step(end, Acquire(now)).immediate == end.immediate + [now]
  {
    CallsReachable(r);
    RatesKept(r, Acquire(first));
    ReportsKeepTokens(Step(r, Acquire(first)), events, end);
    SlotEarns(end.limiter.tokens, now - first, end.limiter.rate);
  }

  // ---------------------------------------------------------------- when the rate moves

  /** The 429s of `times` from `since` on. */
  function Recent(times: seq<real>, since: real): set<int> {
    set i | 0 <= i < |times| && times[i] >= since
  }

  lemma RecentCounts(times: seq<real>, since: real, now: real)
    requires forall i :: 0 <= i < |times| ==> times[i] <= now
    ensures CountIn(times, since, now) == |Recent(times, since)|
  {
    CountInExact(times, since, now);
    assert (set i | 0 <= i < |times| && since <= times[i] <= now) == Recent(times, since);
  }

  lemma NoneRecent(times: seq<real>, since: real)
    ensures |Recent(times, since)| == 0 <==> forall i :: 0 <= i < |times| ==> times[i] < since
  {
    if i :| 0 <= i < |times| && times[i] >= since {
      assert i in Recent(times, since);
    }
  }

  lemma InThePast(all: seq<real>, times: seq<real>, clock: real)
    requires HistoryOk(all, times, clock)
    ensures forall i :: 0 <= i < |all| ==> all[i] <= clock
  {
    var dropped :| all == dropped + times && WindowOk(dropped, times, clock);
  }

  /** What the two reports count is what the history says. */
  lemma Counts429(all: seq<real>, times: seq<real>, clock: real, now: real)
    requires HistoryOk(all, times, clock) && clock <= now
    ensures |Prune(times + [now], now - RATE_429_WINDOW)| == |Recent(all, now - 30.0)| + 1
  {
    WindowExact429(all, times, clock, now);
    InThePast(all, times, clock);
    RecentCounts(all, now - 30.0, now);
    assert (all + [now])[..|all|] == all;
  }

  lemma CountsSuccess(all: seq<real>, times: seq<real>, clock: real, now: real)
    requires HistoryOk(all, times, clock) && clock <= now
    ensures Prune(times, now - RATE_RECOVERY_WINDOW) == [] <==> forall i :: 0 <= i < |all| ==> all[i] < now - 60.0
  {
    WindowExactSuccess(all, times, clock, now);
    InThePast(all, times, clock);
    RecentCounts(all, now - 60.0, now);
    NoneRecent(all, now - 60.0);
  }

  lemma HalvesBy(l: Limiter, now: real, recent: nat)
    requires |Prune(l.times429 + [now], now - RATE_429_WINDOW)| == recent
    ensures Report429Step(l, now).rate
         == if recent as real > 6.0 * l.rate then MaxReal(l.minRate, l.rate / 2.0) else l.rate
  {}

  lemma DoublesBy(l: Limiter, now: real)
    requires 0.0 < l.rate <= l.maxRate
    ensures ReportSuccessStep(l, now).rate
         == if Prune(l.times429, now - RATE_RECOVERY_WINDOW) == [] then MinReal(l.maxRate, 2.0 * l.rate) else l.rate
  {}

  /** The rate halves, down to the minimum, exactly when a 429 makes more than 20% of thirty seconds'
      calls in the last thirty, and doubles, up to the maximum, exactly when a success finds no 429 in the
      last sixty; nothing else moves it. */
  lemma RateFromHistory(r: Run, now: real)
    requires Reachable(r) && r.clock <= now
    ensures r.limiter.rate > 0.0
    ensures var l := r.limiter;
            && Step(r, Report429(now)).limiter.rate
               == (if (|Recent(r.all429, now - 30.0)| + 1) as real > 6.0 * l.rate
                   then MaxReal(l.minRate, l.rate / 2.0) else l.rate)
            && Step(r, ReportSuccess(now)).limiter.rate
               == (if forall i :: 0 <= i < |r.all429| ==> r.all429[i] < now - 60.0
                   then MinReal(l.maxRate, 2.0 * l.rate) else l.rate)
            && Step(r, Acquire(now)).limiter.rate == l.rate
  {
    InvReachable(r);
    Counts429(r.all429, r.limiter.times429, r.clock, now);
    CountsSuccess(r.all429, r.limiter.times429, r.clock, now);
    HalvesBy(r.limiter, now, |Recent(r.all429, now - 30.0)| + 1);
    DoublesBy(r.limiter, now);
  }
}
