/** The adaptive token bucket of collector/services/rate_limiter.py.

    `Limiter` holds the fields of the source's class. Every method body runs between two awaits
    under one lock, so each call is one atomic step at the clock value it reads. `Run` adds the
    complete history of a run (every grant, every reserved wake-up, every 429 ever reported), so
    that throughput and waiting can be stated over whole runs. */
module RateLimiting {
  import opened Prelude
  import opened RateWindow

  const RATE_429_THRESHOLD := 0.2
  const RATE_BACKOFF := 0.5
  const RATE_RECOVERY := 2.0

  datatype Limiter = Limiter(
    rate: real,
    maxRate: real,
    minRate: real,
    tokens: real,
    refillAt: real,
    nextTokenAt: real,
    times429: seq<real>)

  /** What `acquire` does: return at once, or sleep until a reserved wake-up time. */
  datatype Grant = Immediate | Reserved(wakeUp: real)

  datatype Event =
    | Acquire(at: real)
    | Report429(at: real)
    | ReportSuccess(at: real)

  /** One call of `acquire`, in calling order: when it is made, when it is let through, the rate it
      meets, and whether it has to wait. */
  datatype Call = Call(made: real, at: real, rate: real, waits: bool)

  datatype Run = Run(
    limiter: Limiter,
    clock: real,
    immediate: seq<real>,
    wakeUps: seq<real>,
    all429: seq<real>,
    calls: seq<Call>)

  predicate ValidConfig(maxRate: real, minRate: real) {
    0.0 < minRate <= maxRate
  }

  // ---------------------------------------------------------------- the steps of the source

  /** A bucket of size `rate` holding `tokens`, after `elapsed` seconds of refilling at `rate`. */
  function Topped(tokens: real, elapsed: real, rate: real): real {
    MinReal(rate, tokens + elapsed * rate)
  }

  function Refilled(l: Limiter, now: real): real {
    Topped(l.tokens, now - l.refillAt, l.rate)
  }

  /** When a token will be there: once the missing part has refilled, and not before the slot
      after the last reservation. */
  function Slot(now: real, tokens: real, rate: real, nextTokenAt: real): real
    requires rate > 0.0
  {
    MaxReal(now + (1.0 - tokens) / rate, nextTokenAt)
  }

  function AcquireStep(l: Limiter, now: real): (Limiter, Grant)
    requires l.rate > 0.0
  {
    var tokens := Refilled(l, now);
    if tokens >= 1.0 then
      (l.(tokens := tokens - 1.0, refillAt := now), Immediate)
    else
      var wakeUp := Slot(now, tokens, l.rate, l.nextTokenAt);
      (l.(tokens := 0.0, refillAt := now, nextTokenAt := wakeUp + 1.0 / l.rate), Reserved(wakeUp))
  }

  function Report429Step(l: Limiter, now: real): Limiter {
    var kept := Prune(l.times429 + [now], now - RATE_429_WINDOW);
    if |kept| as real > RATE_429_WINDOW * l.rate * RATE_429_THRESHOLD then
      l.(times429 := kept, rate := MaxReal(l.minRate, l.rate * RATE_BACKOFF))
    else
      l.(times429 := kept)
  }

  function ReportSuccessStep(l: Limiter, now: real): Limiter {
    var kept := Prune(l.times429, now - RATE_RECOVERY_WINDOW);
    if kept == [] && l.rate < l.maxRate then
      l.(times429 := kept, rate := MinReal(l.maxRate, l.rate * RATE_RECOVERY))
    else
      l.(times429 := kept)
  }

  // ---------------------------------------------------------------- whole runs

  function Begin(maxRate: real, minRate: real, now: real): Run {
    Run(Limiter(maxRate, maxRate, minRate, maxRate, now, 0.0, []), now, [], [], [], [])
  }

  function Step(r: Run, e: Event): Run
    requires r.limiter.rate > 0.0
  {
    match e
    case Acquire(now) =>
      var (l, grant) := AcquireStep(r.limiter, now);
      if grant.Immediate? then
        r.(limiter := l, clock := now, immediate := r.immediate + [now],
           calls := r.calls + [Call(now, now, r.limiter.rate, false)])
      else
        r.(limiter := l, clock := now, wakeUps := r.wakeUps + [grant.wakeUp],
           calls := r.calls + [Call(now, grant.wakeUp, r.limiter.rate, true)])
    case Report429(now) =>
      r.(limiter := Report429Step(r.limiter, now), clock := now, all429 := r.all429 + [now])
    case ReportSuccess(now) =>
      r.(limiter := ReportSuccessStep(r.limiter, now), clock := now)
  }

  /** The run after `events`, if the clock never goes back; `Begin` alone otherwise ends it. */
  ghost predicate Reaches(start: Run, events: seq<Event>, end: Run)
    decreases |events|
  {
    if events == [] then end == start
    else
      && start.limiter.rate > 0.0
      && start.clock <= events[0].at
      && Reaches(Step(start, events[0]), events[1..], end)
  }

  /** `r` is reachable: some schedule of calls leads to it from a freshly built limiter. */
  ghost predicate Reachable(r: Run) {
    exists maxRate: real, minRate: real, now: real, events: seq<Event> ::
      ValidConfig(maxRate, minRate) && now >= 0.0 && Reaches(Begin(maxRate, minRate, now), events, r)
  }

  // ---------------------------------------------------------------- what every step keeps

  ghost predicate RatesOk(r: Run) {
    var l := r.limiter;
    && 0.0 < l.minRate <= l.rate <= l.maxRate
    && 0.0 <= l.tokens <= l.maxRate
    && l.refillAt <= r.clock
    && 0.0 <= r.clock
  }

  /** The most tokens the bucket can hold at the run's clock, at whatever rate it refills. */
  ghost function Potential(r: Run): real {
    Topped(r.limiter.tokens, r.clock - r.limiter.refillAt, r.limiter.maxRate)
  }

  /** One bucketful, and what the time from `since` to `clock` refills at the rate `m`. */
  function Earned(m: real, since: real, clock: real): real {
    m * (clock - since + 1.0)
  }

  /** The grants from the `i`-th on, with what the bucket still holds, fit in one bucketful plus
      what the time since the `i`-th refilled. */
  ghost predicate GrantRoom(r: Run, i: nat)
    requires i < |r.immediate|
  {
    (|r.immediate| - i) as real + Potential(r) <= Earned(r.limiter.maxRate, r.immediate[i], r.clock)
  }

  ghost predicate GrantBlock(g: seq<real>, maxRate: real, i: nat, j: nat)
    requires i <= j < |g|
  {
    (j - i + 1) as real <= maxRate * (g[j] - g[i] + 1.0)
  }

  ghost predicate Packed(g: seq<real>, maxRate: real) {
    forall i, j :: 0 <= i <= j < |g| ==> GrantBlock(g, maxRate, i, j)
  }

  ghost predicate GrantsOk(r: Run) {
    && (forall i :: 0 <= i < |r.immediate| ==> GrantRoom(r, i))
    && Packed(r.immediate, r.limiter.maxRate)
  }

  ghost predicate WakeGap(w: seq<real>, maxRate: real, i: nat, j: nat)
    requires i <= j < |w|
  {
    (j - i) as real <= maxRate * (w[j] - w[i])
  }

  ghost predicate Spaced(w: seq<real>, maxRate: real) {
    forall i, j :: 0 <= i <= j < |w| ==> WakeGap(w, maxRate, i, j)
  }

  /** A wake-up is at most `step` after the later of the present and the one before it. */
  ghost predicate SoonAt(w: seq<real>, clock: real, step: real, i: nat)
    requires i < |w|
  {
    w[i] <= MaxReal(clock, if i == 0 then clock else w[i - 1]) + step
  }

  ghost predicate Soon(w: seq<real>, clock: real, step: real) {
    forall i :: 0 <= i < |w| ==> SoonAt(w, clock, step, i)
  }

  ghost predicate WakeUpsOk(r: Run)
    requires RatesOk(r)
  {
    var l := r.limiter;
    var w := r.wakeUps;
    && Spaced(w, l.maxRate)
    && Soon(w, r.clock, 1.0 / l.minRate)
    && (w == [] ==> l.nextTokenAt == 0.0)
    && (w != [] ==> w[|w| - 1] + 1.0 / l.maxRate <= l.nextTokenAt <= w[|w| - 1] + 1.0 / l.minRate)
  }

  ghost predicate Inv(r: Run) {
    && RatesOk(r) && GrantsOk(r) && WakeUpsOk(r)
    && HistoryOk(r.all429, r.limiter.times429, r.clock)
  }

  lemma MulLe(a: real, b: real, c: real)
    requires 0.0 <= a <= b && 0.0 <= c
    ensures 0.0 <= a * c <= b * c
  {}

  lemma MulMono(m: real, a: real, b: real)
    requires 0.0 <= m && a <= b
    ensures m * a <= m * b
  {}

  lemma Distribute(a: real, b: real, c: real)
    ensures a * (b + c) == a * b + a * c
  {}

  lemma ToppedBounds(tokens: real, elapsed: real, rate: real, maxRate: real)
    requires 0.0 <= tokens && 0.0 <= elapsed && 0.0 < rate <= maxRate
    ensures 0.0 <= Topped(tokens, elapsed, rate) <= Topped(tokens, elapsed, maxRate) <= maxRate
  {
    MulLe(rate, maxRate, elapsed);
  }

  lemma ToppedGrows(tokens: real, refillAt: real, clock: real, now: real, maxRate: real)
    requires 0.0 <= tokens && refillAt <= clock <= now && 0.0 < maxRate
    ensures Topped(tokens, now - refillAt, maxRate)
         <= Topped(tokens, clock - refillAt, maxRate) + maxRate * (now - clock)
  {
    MulLe(0.0, maxRate, now - clock);
    Distribute(maxRate, clock - refillAt, now - clock);
  }

  lemma RefilledBounds(r: Run, now: real)
    requires RatesOk(r) && r.clock <= now
    ensures 0.0 <= Refilled(r.limiter, now) <= Potential(r.(clock := now))
  {
    ToppedBounds(r.limiter.tokens, now - r.limiter.refillAt, r.limiter.rate, r.limiter.maxRate);
  }

  lemma RatesKept(r: Run, e: Event)
    requires RatesOk(r) && r.clock <= e.at
    ensures RatesOk(Step(r, e))
    ensures Step(r, e).limiter.maxRate == r.limiter.maxRate
    ensures Step(r, e).limiter.minRate == r.limiter.minRate
  {
    RefilledBounds(r, e.at);
  }

  lemma ToppedNow(tokens: real, rate: real)
    ensures Topped(tokens, 0.0, rate) <= tokens
  {}

  /** A step never adds to the bucket, and an immediate grant takes one token out of it. */
  lemma PotentialSpent(r: Run, e: Event)
    requires RatesOk(r) && r.clock <= e.at
    ensures Potential(Step(r, e)) <= Potential(r.(clock := e.at))
    ensures e.Acquire? && AcquireStep(r.limiter, e.at).1.Immediate? ==>
              Potential(Step(r, e)) + 1.0 <= Potential(r.(clock := e.at))
  {
    if e.Acquire? {
      RefilledBounds(r, e.at);
      ToppedNow(Step(r, e).limiter.tokens, r.limiter.maxRate);
    }
  }

  lemma PotentialBounds(r: Run)
    requires RatesOk(r)
    ensures 0.0 <= Potential(r) <= r.limiter.maxRate
  {
    ToppedBounds(r.limiter.tokens, r.clock - r.limiter.refillAt, r.limiter.rate, r.limiter.maxRate);
  }

  lemma PotentialGrows(r: Run, now: real)
    requires RatesOk(r) && r.clock <= now
    ensures Potential(r.(clock := now)) <= Potential(r) + r.limiter.maxRate * (now - r.clock)
  {
    ToppedGrows(r.limiter.tokens, r.limiter.refillAt, r.clock, now, r.limiter.maxRate);
  }

  lemma BudgetGrows(m: real, since: real, clock: real, now: real)
    ensures m * (now - since + 1.0) == m * (clock - since + 1.0) + m * (now - clock)
  {}

  /** Waiting alone keeps the grant bound. */
  lemma GrantsKeptByTime(r: Run, now: real)
    requires RatesOk(r) && GrantsOk(r) && r.clock <= now
    ensures GrantsOk(r.(clock := now))
  {
    PotentialGrows(r, now);
    forall i | 0 <= i < |r.immediate|
      ensures GrantRoom(r.(clock := now), i)
    {
      assert GrantRoom(r, i);
      BudgetGrows(r.limiter.maxRate, r.immediate[i], r.clock, now);
    }
  }

  /** One more grant at `now` spends one of the tokens the earlier blocks left over. */
  lemma GrantsKeptByGrant(waited: Run, r': Run)
    requires GrantsOk(waited) && Potential(r') + 1.0 <= Potential(waited) <= waited.limiter.maxRate
    requires 0.0 <= Potential(r')
    requires r'.limiter.maxRate == waited.limiter.maxRate && r'.clock == waited.clock
    requires r'.immediate == waited.immediate + [waited.clock]
    ensures GrantsOk(r')
  {
    var n := |waited.immediate|;
    var m := waited.limiter.maxRate;
    forall i | 0 <= i <= n
      ensures GrantRoom(r', i) && GrantBlock(r'.immediate, m, i, n)
    {
      assert i < n ==> GrantRoom(waited, i);
    }
    forall i, j | 0 <= i <= j < n
      ensures GrantBlock(r'.immediate, m, i, j)
    {
      assert GrantBlock(waited.immediate, m, i, j);
    }
  }

  lemma GrantsKeptBySpending(waited: Run, r': Run)
    requires GrantsOk(waited) && Potential(r') <= Potential(waited)
    requires r'.limiter.maxRate == waited.limiter.maxRate && r'.clock == waited.clock
    requires r'.immediate == waited.immediate
    ensures GrantsOk(r')
  {
    forall i | 0 <= i < |r'.immediate|
      ensures GrantRoom(r', i)
    {
      assert GrantRoom(waited, i);
    }
  }

  lemma GrantsKept(r: Run, e: Event)
    requires RatesOk(r) && GrantsOk(r) && r.clock <= e.at
    ensures GrantsOk(Step(r, e))
  {
    var waited := r.(clock := e.at);
    var r' := Step(r, e);
    RatesKept(r, e);
    PotentialSpent(r, e);
    GrantsKeptByTime(r, e.at);
    PotentialBounds(waited);
    PotentialBounds(r');
    if e.Acquire? && AcquireStep(r.limiter, e.at).1.Immediate? {
      GrantsKeptByGrant(waited, r');
    } else {
      GrantsKeptBySpending(waited, r');
    }
  }

  lemma Reciprocals(a: real, b: real, tokens: real)
    requires 0.0 < a <= b && 0.0 <= tokens < 1.0
    ensures 0.0 < 1.0 / b <= 1.0 / a
    ensures 0.0 < (1.0 - tokens) / a <= 1.0 / a
    ensures b * (1.0 / b) == 1.0
  {}

  lemma GapGrows(m: real, k: real, first: real, last: real, next: real)
    requires 0.0 < m && k <= m * (last - first) && last + 1.0 / m <= next
    ensures k + 1.0 <= m * (next - first)
  {
    Reciprocals(m, m, 0.0);
    MulLe(1.0 / m, next - last, m);
    Distribute(m, last - first, next - last);
    assert m * (next - last) == (next - last) * m && m * (1.0 / m) == (1.0 / m) * m;
  }

  /** The wake-up a reservation at `now` gets: after every earlier one, and soon. */
  lemma ReservationBounds(r: Run, now: real)
    requires RatesOk(r) && WakeUpsOk(r) && r.clock <= now
    requires AcquireStep(r.limiter, now).1.Reserved?
    ensures var (l, grant) := AcquireStep(r.limiter, now);
            var last := if r.wakeUps == [] then now else r.wakeUps[|r.wakeUps| - 1];
            && now < grant.wakeUp <= MaxReal(now, last) + 1.0 / l.minRate
            && (r.wakeUps != [] ==> last + 1.0 / l.maxRate <= grant.wakeUp)
            && grant.wakeUp + 1.0 / l.maxRate <= l.nextTokenAt <= grant.wakeUp + 1.0 / l.minRate
  {
    var l := r.limiter;
    RefilledBounds(r, now);
    Reciprocals(l.rate, l.maxRate, Refilled(l, now));
    Reciprocals(l.minRate, l.rate, 0.0);
  }

  lemma SpacedAppend(w: seq<real>, maxRate: real, next: real)
    requires 0.0 < maxRate && Spaced(w, maxRate)
    requires w != [] ==> w[|w| - 1] + 1.0 / maxRate <= next
    ensures Spaced(w + [next], maxRate)
  {
    var n := |w|;
    var w' := w + [next];
    forall i, j | 0 <= i <= j <= n
      ensures WakeGap(w', maxRate, i, j)
    {
      if j < n {
        assert WakeGap(w, maxRate, i, j);
      } else if i < n {
        assert WakeGap(w, maxRate, i, n - 1);
        GapGrows(maxRate, (n - 1 - i) as real, w[i], w[n - 1], next);
      }
    }
  }

  lemma SoonAppend(w: seq<real>, clock: real, step: real, now: real, next: real)
    requires Soon(w, clock, step) && clock <= now
    requires next <= MaxReal(now, if w == [] then now else w[|w| - 1]) + step
    ensures Soon(w, now, step) && Soon(w + [next], now, step)
  {
    forall i | 0 <= i <= |w|
      ensures SoonAt(w + [next], now, step, i) && (i < |w| ==> SoonAt(w, now, step, i))
    {
      assert i < |w| ==> SoonAt(w, clock, step, i);
    }
  }

  lemma WakeUpsKept(r: Run, e: Event)
    requires RatesOk(r) && WakeUpsOk(r) && r.clock <= e.at
    requires RatesOk(Step(r, e))
    ensures WakeUpsOk(Step(r, e))
  {
    var step := 1.0 / r.limiter.minRate;
    if e.Acquire? && AcquireStep(r.limiter, e.at).1.Reserved? {
      ReservationBounds(r, e.at);
      var wakeUp := AcquireStep(r.limiter, e.at).1.wakeUp;
      SpacedAppend(r.wakeUps, r.limiter.maxRate, wakeUp);
      SoonAppend(r.wakeUps, r.clock, step, e.at, wakeUp);
    } else {
      Reciprocals(r.limiter.minRate, r.limiter.minRate, 0.0);
      SoonAppend(r.wakeUps, r.clock, step, e.at, e.at);
    }
  }

  lemma HistoryKept(r: Run, e: Event)
    requires r.limiter.rate > 0.0 && HistoryOk(r.all429, r.limiter.times429, r.clock)
    requires r.clock <= e.at
    ensures var r' := Step(r, e); HistoryOk(r'.all429, r'.limiter.times429, r'.clock)
  {
    match e
    case Acquire(now) => HistoryAges(r.all429, r.limiter.times429, r.clock, now);
    case Report429(now) => WindowExact429(r.all429, r.limiter.times429, r.clock, now);
    case ReportSuccess(now) => WindowExactSuccess(r.all429, r.limiter.times429, r.clock, now);
  }

  // ---------------------------------------------------------------- over every run

  lemma {:induction false} InvReaches(start: Run, events: seq<Event>, end: Run)
    requires Inv(start) && Reaches(start, events, end)
    ensures Inv(end)
    ensures end.limiter.maxRate == start.limiter.maxRate
    ensures end.limiter.minRate == start.limiter.minRate
    decreases |events|
  {
    if events != [] {
      var e := events[0];
      RatesKept(start, e);
      GrantsKept(start, e);
      WakeUpsKept(start, e);
      HistoryKept(start, e);
      InvReaches(Step(start, e), events[1..], end);
    }
  }

  lemma InvReachable(r: Run)
    requires Reachable(r)
    ensures Inv(r)
  {
    var maxRate, minRate, now, events :|
      ValidConfig(maxRate, minRate) && now >= 0.0 && Reaches(Begin(maxRate, minRate, now), events, r);
    var start := Begin(maxRate, minRate, now);
    assert start.all429 == [] + start.limiter.times429;
    InvReaches(start, events, r);
  }

  lemma {:induction false} ReachesAppend(start: Run, first: seq<Event>, mid: Run, then_: seq<Event>, end: Run)
    requires Reaches(start, first, mid) && Reaches(mid, then_, end)
    ensures Reaches(start, first + then_, end)
    decreases |first|
  {
    if first == [] {
      assert first + then_ == then_;
    } else {
      assert (first + then_)[1..] == first[1..] + then_;
      ReachesAppend(Step(start, first[0]), first[1..], mid, then_, end);
    }
  }

  lemma OneMore(r: Run, e: Event)
    requires r.limiter.rate > 0.0 && r.clock <= e.at
    ensures Reaches(r, [e], Step(r, e))
  {
    assert [e][1..] == [];
  }

  // ---------------------------------------------------------------- the class

  lemma ReachableStep(r: Run, e: Event)
    requires Reachable(r) && r.limiter.rate > 0.0 && r.clock <= e.at
    ensures Reachable(Step(r, e)) && Step(r, e).limiter.rate > 0.0
  {
    var maxRate, minRate, now, events :|
      ValidConfig(maxRate, minRate) && now >= 0.0 && Reaches(Begin(maxRate, minRate, now), events, r);
    OneMore(r, e);
    ReachesAppend(Begin(maxRate, minRate, now), events, r, [e], Step(r, e));
    InvReachable(Step(r, e));
  }

  /** The source's class. `run` records the whole history of calls; `Valid` ties the fields to it,
      so every theorem above about reachable runs is about every state of every limiter. */
  class RateLimiter {
    const maxRate: real
    const minRate: real
    var rate: real
    var tokens: real
    var refillAt: real
    var nextTokenAt: real
    var times429: seq<real>
    ghost var run: Run

    ghost function State(): Limiter
      reads this
    {
      Limiter(rate, maxRate, minRate, tokens, refillAt, nextTokenAt, times429)
    }

    ghost predicate Valid()
      reads this
    {
      Reachable(run) && run.limiter == State() && 0.0 < rate
    }

    constructor (maxRate: real, minRate: real, now: real)
      requires ValidConfig(maxRate, minRate) && now >= 0.0
      ensures Valid() && run == Begin(maxRate, minRate, now)
    {
      this.maxRate, this.minRate := maxRate, minRate;
      rate, tokens, refillAt := maxRate, maxRate, now;
      nextTokenAt, times429 := 0.0, [];
      run := Begin(maxRate, minRate, now);
      new;
      assert Reaches(run, [], run);
    }

    /** Building a limiter raises unless 0 < minRate <= maxRate. */
    static method Create(maxRate: real, minRate: real, now: real) returns (limiter: Outcome<RateLimiter>)
      requires now >= 0.0
      ensures limiter.Ok? <==> 0.0 < maxRate && 0.0 < minRate && minRate <= maxRate
      ensures limiter.Ok? ==> fresh(limiter.value) && limiter.value.Valid()
      ensures limiter.Ok? ==> limiter.value.run == Begin(maxRate, minRate, now)
    {
      if maxRate <= 0.0 || minRate <= 0.0 || minRate > maxRate {
        return Raised;
      }
      var l := new RateLimiter(maxRate, minRate, now);
      return Ok(l);
    }

    /** Take a token or reserve a wake-up: the body under the source's lock. */
    method TakeOrReserve(now: real) returns (grant: Grant)
      requires rate > 0.0
      modifies this`tokens, this`refillAt, this`nextTokenAt
      ensures (State(), grant) == AcquireStep(old(State()), now)
    {
      tokens := Topped(tokens, now - refillAt, rate);
      refillAt := now;
      if tokens >= 1.0 {
        tokens := tokens - 1.0;
        return Immediate;
      }
      var wakeUp := Slot(now, tokens, rate, nextTokenAt);
      nextTokenAt := wakeUp + 1.0 / rate;
      tokens := 0.0;
      return Reserved(wakeUp);
    }

    method Acquire(now: real) returns (grant: Grant)
      requires Valid() && run.clock <= now
      modifies this
      ensures Valid() && run == Step(old(run), Event.Acquire(now))
      ensures |run.calls| == |old(run.calls)| + 1
      ensures var call := run.calls[|old(run.calls)|];
              grant == if call.waits then Reserved(call.at) else Immediate
    {
      ghost var event := Event.Acquire(now);
      ReachableStep(run, event);
      grant := TakeOrReserve(now);
      run := Step(run, event);
    }

    /** The popping loop both report methods share. */
    method PopExpired(cutoff: real)
      modifies this`times429
      ensures times429 == Prune(old(times429), cutoff)
    {
      while times429 != [] && times429[0] < cutoff
        invariant Prune(times429, cutoff) == Prune(old(times429), cutoff)
        decreases |times429|
      {
        times429 := times429[1..];
      }
    }

    method Report429(now: real)
      requires Valid() && run.clock <= now
      modifies this
      ensures Valid() && run == Step(old(run), Event.Report429(now))
    {
      ghost var event := Event.Report429(now);
      ReachableStep(run, event);
      times429 := times429 + [now];
      PopExpired(now - RATE_429_WINDOW);
      var expected := RATE_429_WINDOW * rate;
      if |times429| as real > expected * RATE_429_THRESHOLD {
        rate := MaxReal(minRate, rate * RATE_BACKOFF);
      }
      run := Step(run, event);
    }

    method ReportSuccess(now: real)
      requires Valid() && run.clock <= now
      modifies this
      ensures Valid() && run == Step(old(run), Event.ReportSuccess(now))
    {
      ghost var event := Event.ReportSuccess(now);
      ReachableStep(run, event);
      PopExpired(now - RATE_RECOVERY_WINDOW);
      if times429 == [] && rate < maxRate {
        rate := MinReal(maxRate, rate * RATE_RECOVERY);
      }
      run := Step(run, event);
    }
  }
}
