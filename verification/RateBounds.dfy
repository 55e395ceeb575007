/** What the adaptive rate limiter promises over whole runs: how many calls it grants, how long a caller
    waits, that pruning its history changes nothing, and when calls keep their distance. */
module RateBounds {
  import opened Prelude
  import opened RateWindow
  import opened RateLimiting

  // ---------------------------------------------------------------- throughput

  lemma WiderSpan(m: real, k: real, extra: real, first: real, last: real, lo: real, hi: real)
    requires 0.0 < m && k <= m * (last - first + extra) && lo <= first && last <= hi
    ensures k <= m * (hi - lo + extra)
  {
    MulMono(m, last - first + extra, hi - lo + extra);
  }

  lemma GrantsInWindow(g: seq<real>, m: real, lo: real, hi: real)
    requires 0.0 < m && Packed(g, m) && lo <= hi
    ensures GrantsFit(g, m, lo, hi)
  {
    if CountIn(g, lo, hi) > 0 {
      var i, j := WindowSpan(g, lo, hi);
      assert GrantBlock(g, m, i, j);
      WiderSpan(m, (j - i + 1) as real, 1.0, g[i], g[j], lo, hi);
    } else {
      WiderSpan(m, 0.0, 1.0, hi, hi, lo, hi);
    }
  }

  lemma WakeUpsInWindow(w: seq<real>, m: real, lo: real, hi: real)
    requires 0.0 < m && Spaced(w, m) && lo <= hi
    ensures WakeUpsFit(w, m, lo, hi)
  {
    if CountIn(w, lo, hi) > 0 {
      var i, j := WindowSpan(w, lo, hi);
      assert WakeGap(w, m, i, j);
      WiderSpan(m, (j - i) as real, 0.0, w[i], w[j], lo, hi);
    } else {
      WiderSpan(m, 0.0, 0.0, hi, hi, lo, hi);
    }
  }

  ghost predicate GrantsFit(g: seq<real>, m: real, lo: real, hi: real) {
    CountIn(g, lo, hi) as real <= m * (hi - lo + 1.0)
  }

  ghost predicate WakeUpsFit(w: seq<real>, m: real, lo: real, hi: real) {
    CountIn(w, lo, hi) as real <= m * (hi - lo) + 1.0
  }

  ghost predicate AllFit(g: seq<real>, w: seq<real>, m: real, lo: real, hi: real) {
    CountIn(g + w, lo, hi) as real <= m * (hi - lo + 1.0) + (m * (hi - lo) + 1.0)
  }

  lemma FitTogether(g: seq<real>, w: seq<real>, m: real, lo: real, hi: real)
    requires GrantsFit(g, m, lo, hi) && WakeUpsFit(w, m, lo, hi)
    ensures AllFit(g, w, m, lo, hi)
  {
    CountInSplit(g, w, lo, hi);
  }

  /** Throughput: in every run, every closed window of T seconds holds at most
      maxRate * (T + 1) immediate grants and at most maxRate * T + 1 reserved wake-ups. */
  lemma ThroughputBound(r: Run, lo: real, hi: real)
    requires Reachable(r) && lo <= hi
    ensures GrantsFit(r.immediate, r.limiter.maxRate, lo, hi)
    ensures WakeUpsFit(r.wakeUps, r.limiter.maxRate, lo, hi)
    ensures AllFit(r.immediate, r.wakeUps, r.limiter.maxRate, lo, hi)
  {
    InvReachable(r);
    GrantsInWindow(r.immediate, r.limiter.maxRate, lo, hi);
    WakeUpsInWindow(r.wakeUps, r.limiter.maxRate, lo, hi);
    FitTogether(r.immediate, r.wakeUps, r.limiter.maxRate, lo, hi);
  }

  // ---------------------------------------------------------------- how long a caller sleeps

  /** How many reserved wake-ups are still ahead of `now`. */
  function CountAfter(w: seq<real>, now: real): nat {
    if w == [] then 0
    else CountAfter(w[..|w| - 1], now) + (if w[|w| - 1] > now then 1 else 0)
  }

  lemma {:induction false} WaitChain(w: seq<real>, clock: real, step: real, now: real)
    requires Soon(w, clock, step) && clock <= now && 0.0 < step
    ensures w != [] ==> w[|w| - 1] <= now + CountAfter(w, now) as real * step
  {
    if w != [] {
      var n := |w| - 1;
      var init := w[..n];
      forall i | 0 <= i < n
        ensures SoonAt(init, clock, step, i)
      {
        assert SoonAt(w, clock, step, i);
      }
      WaitChain(init, clock, step, now);
      assert SoonAt(w, clock, step, n);
      assert n > 0 ==> init[n - 1] == w[n - 1];
      OneMoreStep(CountAfter(init, now), step);
    }
  }

  lemma OneMoreStep(k: nat, step: real)
    requires 0.0 < step
    ensures 0.0 <= k as real * step
    ensures (k + 1) as real * step == k as real * step + step
  {}

  lemma WaitBound(w: seq<real>, clock: real, step: real, now: real, wakeUp: real)
    requires Soon(w, clock, step) && clock <= now && 0.0 < step
    requires wakeUp <= MaxReal(now, if w == [] then now else w[|w| - 1]) + step
    ensures wakeUp - now <= (CountAfter(w, now) + 1) as real * step
  {
    WaitChain(w, clock, step, now);
    OneMoreStep(CountAfter(w, now), step);
  }

  lemma SpacedIncreases(w: seq<real>, m: real, i: nat)
    requires 0.0 < m && Spaced(w, m) && i < |w|
    ensures w[i] <= w[|w| - 1]
  {
    assert WakeGap(w, m, i, |w| - 1);
    NotBefore(m, w[i], w[|w| - 1], (|w| - 1 - i) as real);
  }

  lemma NotBefore(m: real, first: real, last: real, k: real)
    requires 0.0 < m && 0.0 <= k <= m * (last - first)
    ensures first <= last
  {}

  lemma WaitOfParts(r: Run, now: real, wakeUp: real)
    requires RatesOk(r) && WakeUpsOk(r) && r.clock <= now
    requires var last := if r.wakeUps == [] then now else r.wakeUps[|r.wakeUps| - 1];
             && now < wakeUp <= MaxReal(now, last) + 1.0 / r.limiter.minRate
             && (r.wakeUps != [] ==> last + 1.0 / r.limiter.maxRate <= wakeUp)
    ensures WaitHolds(r, now, wakeUp)
  {
    Reciprocals(r.limiter.minRate, r.limiter.maxRate, 0.0);
    WaitBound(r.wakeUps, r.clock, 1.0 / r.limiter.minRate, now, wakeUp);
    forall i | 0 <= i < |r.wakeUps|
      ensures r.wakeUps[i] < wakeUp
    {
      SpacedIncreases(r.wakeUps, r.limiter.maxRate, i);
    }
  }

  ghost predicate WaitHolds(r: Run, now: real, wakeUp: real)
    requires r.limiter.minRate > 0.0
  {
    && (forall i :: 0 <= i < |r.wakeUps| ==> r.wakeUps[i] < wakeUp)
    && 0.0 < wakeUp - now
    && wakeUp - now <= (CountAfter(r.wakeUps, now) + 1) as real * (1.0 / r.limiter.minRate)
  }

  /** Bounded wait: a caller that must wait gets a wake-up later than every earlier one, and
      with m earlier wake-ups still ahead it sleeps more than 0 and at most (m + 1) / minRate
      seconds, whatever the rate does meanwhile. */
  lemma BoundedWait(r: Run, now: real)
    requires Reachable(r) && r.clock <= now && 0.0 < r.limiter.rate && 0.0 < r.limiter.minRate
    ensures var grant := AcquireStep(r.limiter, now).1;
            grant.Reserved? ==> WaitHolds(r, now, grant.wakeUp)
  {
    InvReachable(r);
    if AcquireStep(r.limiter, now).1.Reserved? {
      ReservationBounds(r, now);
      WaitOfParts(r, now, AcquireStep(r.limiter, now).1.wakeUp);
    }
  }

  // ---------------------------------------------------------------- pruning changes nothing

  /** A limiter that never prunes: it decides on windows of the complete history. */
  function UnprunedStep(l: Limiter, e: Event): Limiter
    requires l.rate > 0.0
  {
    match e
    case Acquire(now) => AcquireStep(l, now).0
    case Report429(now) =>
      var all := l.times429 + [now];
      var recent := CountIn(all, now - RATE_429_WINDOW, now);
      l.(times429 := all,
         rate := if recent as real > RATE_429_WINDOW * l.rate * RATE_429_THRESHOLD
                 then MaxReal(l.minRate, l.rate * RATE_BACKOFF) else l.rate)
    case ReportSuccess(now) =>
      var recent := CountIn(l.times429, now - RATE_RECOVERY_WINDOW, now);
      l.(rate := if recent == 0 && l.rate < l.maxRate
                 then MinReal(l.maxRate, l.rate * RATE_RECOVERY) else l.rate)
  }

  ghost predicate UnprunedReaches(start: Limiter, events: seq<Event>, end: Limiter)
    decreases |events|
  {
    if events == [] then end == start
    else start.rate > 0.0 && UnprunedReaches(UnprunedStep(start, events[0]), events[1..], end)
  }

  /** The same limiter with the complete 429 history put back in place of the deque. */
  ghost function Unpruned(r: Run): Limiter {
    r.limiter.(times429 := r.all429)
  }

  lemma AcquireIgnoresHistory(l: Limiter, times: seq<real>, now: real)
    requires l.rate > 0.0
    ensures AcquireStep(l.(times429 := times), now).0 == AcquireStep(l, now).0.(times429 := times)
  {}

  lemma UnprunedStepAgrees(r: Run, e: Event)
    requires r.limiter.rate > 0.0 && HistoryOk(r.all429, r.limiter.times429, r.clock)
    requires r.clock <= e.at
    ensures UnprunedStep(Unpruned(r), e) == Unpruned(Step(r, e))
  {
    match e
    case Acquire(now) => AcquireIgnoresHistory(r.limiter, r.all429, now);
    case Report429(now) => WindowExact429(r.all429, r.limiter.times429, r.clock, now);
    case ReportSuccess(now) => WindowExactSuccess(r.all429, r.limiter.times429, r.clock, now);
  }

  /** Pruning is invisible: over any run the deque limiter and the one that keeps the complete
      history have the same rate, tokens and reservations at every step. */
  lemma {:induction false} PruningIsInvisible(start: Run, events: seq<Event>, end: Run)
    requires Inv(start) && Reaches(start, events, end)
    ensures UnprunedReaches(Unpruned(start), events, Unpruned(end))
    decreases |events|
  {
    if events != [] {
      var e := events[0];
      UnprunedStepAgrees(start, e);
      OneMore(start, e);
      InvReaches(start, [e], Step(start, e));
      PruningIsInvisible(Step(start, e), events[1..], end);
    }
  }

  // ---------------------------------------------------------------- the bound is attained

  function Burst(now: real, n: nat): seq<Event> {
    if n == 0 then [] else Burst(now, n - 1) + [Acquire(now)]
  }

  /** The run after `n` calls made at the same instant as the limiter. */
  ghost predicate AfterBurst(r: Run, maxRate: real, now: real, n: nat)
    requires 0.0 < maxRate
  {
    var l := r.limiter;
    var whole := maxRate.Floor;
    && l.rate == maxRate && l.refillAt == now && r.clock == now && l.times429 == []
    && |r.immediate| == MinInt(n, whole) && |r.wakeUps| == n - MinInt(n, whole)
    && l.tokens == (if n <= whole then maxRate - n as real else 0.0)
    && (r.wakeUps == [] ==> l.nextTokenAt == 0.0)
    && (r.wakeUps != [] ==>
          && r.wakeUps[0] == now + (1.0 - (maxRate - whole as real)) / maxRate
          && l.nextTokenAt == r.wakeUps[|r.wakeUps| - 1] + 1.0 / maxRate
          && now < r.wakeUps[|r.wakeUps| - 1])
    && (forall k :: 0 < k < |r.wakeUps| ==> r.wakeUps[k] == r.wakeUps[k - 1] + 1.0 / maxRate)
  }

  lemma SlotAtBurst(now: real, tokens: real, rate: real, last: real)
    requires 0.0 < rate && 0.0 <= now && 0.0 <= tokens < 1.0
    ensures Slot(now, tokens, rate, 0.0) == now + (1.0 - tokens) / rate > now
    ensures now < last ==> Slot(now, 0.0, rate, last + 1.0 / rate) == last + 1.0 / rate > now
  {
    Reciprocals(rate, rate, tokens);
  }

  lemma BurstStep(r: Run, maxRate: real, now: real, n: nat)
    requires 0.0 < maxRate && 0.0 <= now && AfterBurst(r, maxRate, now, n)
    ensures AfterBurst(Step(r, Acquire(now)), maxRate, now, n + 1)
  {
    var l := r.limiter;
    var last := if r.wakeUps == [] then now else r.wakeUps[|r.wakeUps| - 1];
    StillFull(l.tokens, maxRate);
    if l.tokens < 1.0 {
      SlotAtBurst(now, l.tokens, maxRate, last);
      assert Slot(now, l.tokens, l.rate, l.nextTokenAt)
          == if r.wakeUps == [] then now + (1.0 - l.tokens) / maxRate else last + 1.0 / maxRate;
    }
  }

  lemma StillFull(tokens: real, rate: real)
    requires tokens <= rate
    ensures Topped(tokens, 0.0, rate) == tokens
  {}

  /** A burst drains at the configured rate: of n calls at one instant the first floor(maxRate)
      return at once, and the others wake exactly 1/maxRate apart, not all together. */
  lemma {:induction false} BurstSchedule(maxRate: real, minRate: real, now: real, n: nat) returns (r: Run)
    requires ValidConfig(maxRate, minRate) && 0.0 <= now
    ensures Reaches(Begin(maxRate, minRate, now), Burst(now, n), r)
    ensures AfterBurst(r, maxRate, now, n)
  {
    if n == 0 {
      r := Begin(maxRate, minRate, now);
    } else {
      var before := BurstSchedule(maxRate, minRate, now, n - 1);
      BurstStep(before, maxRate, now, n - 1);
      r := Step(before, Acquire(now));
      OneMore(before, Acquire(now));
      ReachesAppend(Begin(maxRate, minRate, now), Burst(now, n - 1), before, [Acquire(now)], r);
    }
  }

  function Ticks(from: int, count: nat): (ticks: seq<real>)
    ensures |ticks| == count
  {
    if count == 0 then [] else Ticks(from, count - 1) + [(from + count - 1) as real]
  }

  /** Whole seconds in a window from `lo` to `hi`, both inclusive. */
  lemma {:induction false} CountTicks(from: int, count: nat, lo: int, hi: int)
    ensures CountIn(Ticks(from, count), lo as real, hi as real)
         == MaxInt(0, MinInt(hi, from + count - 1) - MaxInt(lo, from) + 1)
  {
    if count > 0 {
      CountTicks(from, count - 1, lo, hi);
      assert Ticks(from, count)[..count - 1] == Ticks(from, count - 1);
    }
  }

  /** One second's demand: a call that finds the refilled token and a call that must reserve. */
  function Busy(second: nat): seq<Event> {
    [Acquire(second as real), Acquire(second as real)]
  }

  function BusyRun(seconds: nat): Run {
    Run(Limiter(1.0, 1.0, 1.0, 0.0, seconds as real, (seconds + 2) as real, []),
        seconds as real, Ticks(0, seconds + 1), Ticks(1, seconds + 1), [], BusyCalls(seconds + 1))
  }

  function BusyCalls(seconds: nat): seq<Call> {
    if seconds == 0 then []
    else
      var now := (seconds - 1) as real;
      BusyCalls(seconds - 1) + [Call(now, now, 1.0, false)] + [Call(now, seconds as real, 1.0, true)]
  }

  lemma BusySecond(seconds: nat)
    ensures Reaches(BusyRun(seconds), Busy(seconds + 1), BusyRun(seconds + 1))
  {
    var r0 := BusyRun(seconds);
    var e := Acquire((seconds + 1) as real);
    var r1 := Step(r0, e);
    var r2 := Step(r1, e);
    assert r2 == BusyRun(seconds + 1);
    assert Busy(seconds + 1)[1..] == [e] && [e][1..] == [];
    assert Reaches(r2, [], r2);
    assert Reaches(r1, [e], r2);
  }

  lemma BusyStart()
    ensures Reaches(Begin(1.0, 1.0, 0.0), Busy(0), BusyRun(0))
  {
    var r0 := Begin(1.0, 1.0, 0.0);
    var e := Acquire(0.0);
    var r1 := Step(r0, e);
    var r2 := Step(r1, e);
    assert Ticks(0, 0) == [] && Ticks(0, 1) == [0.0];
    assert Ticks(1, 0) == [] && Ticks(1, 1) == [1.0];
    assert BusyCalls(1) == [Call(0.0, 0.0, 1.0, false), Call(0.0, 1.0, 1.0, true)];
    assert r2 == BusyRun(0);
    assert Busy(0)[1..] == [e] && [e][1..] == [];
    assert Reaches(r2, [], r2);
    assert Reaches(r1, [e], r2);
  }

  lemma {:induction false} BusyReaches(seconds: nat) returns (events: seq<Event>)
    ensures Reaches(Begin(1.0, 1.0, 0.0), events, BusyRun(seconds))
  {
    if seconds == 0 {
      BusyStart();
      events := Busy(0);
    } else {
      var before := BusyReaches(seconds - 1);
      BusySecond(seconds - 1);
      events := before + Busy(seconds);
      ReachesAppend(Begin(1.0, 1.0, 0.0), before, BusyRun(seconds - 1), Busy(seconds), BusyRun(seconds));
    }
  }

  /** The sum of the two parts is attained: at one request a second, a run grants 2T + 2 calls
      in a window of T seconds, so no bound on the total near maxRate * (T + 1) holds. */
  lemma ThroughputIsTight(span: nat) returns (r: Run)
    ensures Reachable(r) && r.limiter.maxRate == 1.0
    ensures CountIn(r.immediate + r.wakeUps, 1.0, (span + 1) as real) == 2 * span + 2
    ensures (2 * span + 2) as real == 1.0 * (span as real + 1.0) + 1.0 * span as real + 1.0
  {
    r := BusyRun(span + 1);
    BusyGrants(span);
    var events := BusyReaches(span + 1);
    assert ValidConfig(1.0, 1.0);
  }

  lemma BusyGrants(span: nat)
    ensures var r := BusyRun(span + 1);
            CountIn(r.immediate + r.wakeUps, 1.0, (span + 1) as real) == 2 * span + 2
  {
    var r := BusyRun(span + 1);
    CountInSplit(r.immediate, r.wakeUps, 1.0, (span + 1) as real);
    CountTicks(0, span + 2, 1, span + 1);
    CountTicks(1, span + 2, 1, span + 1);
  }
}
