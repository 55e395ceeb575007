/** Refill gap and empty-pool back-off of collector/proxy/refresh_state.py.

    `Backoff` holds the fields of the source's class, with `None` for a time of minus infinity.
    `Run` adds what happened: every refill outcome and whether it ordered a refetch, every force order and
    every approved refill. */
module RefreshBackoff {
  import opened Prelude

  const AUTO_REFRESH_GAP := 5.0
  const EMPTY_REFETCH_BACKOFF: seq<real> := [60.0, 120.0, 300.0, 600.0]

  datatype Backoff = Backoff(
    gap: real,
    ladder: seq<real>,
    lastAutoRefresh: Option<real>,
    lastForceRefresh: Option<real>,
    autoRefills: nat,
    forceRefetches: nat)

  /** `refill_result` reads the clock twice: once to compare, once to stamp the order. */
  datatype Event =
    | ShouldRefill(at: real, usable: nat, threshold: nat)
    | RefillResult(at: real, stamp: real, usable: nat)

  /** A force order: when it was decided, the time kept for it, and how many consecutive empty
      refills led to it. */
  datatype Order = Order(at: real, stamp: real, empties: nat)

  datatype Approval = Approval(at: real, empties: nat)

  datatype Run = Run(
    state: Backoff,
    clock: real,
    outcomes: seq<nat>,
    ordered: seq<bool>,
    orders: seq<Order>,
    approvals: seq<Approval>)

  predicate Since(now: real, last: Option<real>, limit: real) {
    last.None? || now - last.value > limit
  }

  function ShouldRefillStep(b: Backoff, now: real, usable: nat, threshold: nat): (Backoff, bool) {
    if b.lastAutoRefresh.Some? && now - b.lastAutoRefresh.value < b.gap
       && (usable >= threshold || b.autoRefills > 0)
    then (b, false)
    else (b.(lastAutoRefresh := Some(now)), true)
  }

  function Cooldown(ladder: seq<real>, empties: nat): real
    requires ladder != [] && empties > 0
  {
    ladder[MinInt(empties - 1, |ladder| - 1)]
  }

  function RefillResultStep(b: Backoff, now: real, stamp: real, usable: nat): (Backoff, bool)
    requires b.ladder != []
  {
    if usable > 0 then
      (b.(autoRefills := 0, forceRefetches := 0), false)
    else
      var b' := b.(autoRefills := b.autoRefills + 1);
      if Since(now, b.lastForceRefresh, Cooldown(b.ladder, b'.autoRefills)) then
        (b'.(lastForceRefresh := Some(stamp), forceRefetches := b.forceRefetches + 1), true)
      else
        (b', false)
  }

  function Step(r: Run, e: Event): Run
    requires r.state.ladder != []
  {
    match e
    case ShouldRefill(now, usable, threshold) =>
      var (b, yes) := ShouldRefillStep(r.state, now, usable, threshold);
      r.(state := b, clock := now,
         approvals := if yes then r.approvals + [Approval(now, b.autoRefills)] else r.approvals)
    case RefillResult(now, stamp, usable) =>
      var (b, yes) := RefillResultStep(r.state, now, stamp, usable);
      r.(state := b, clock := stamp, outcomes := r.outcomes + [usable], ordered := r.ordered + [yes],
         orders := if yes then r.orders + [Order(now, stamp, b.autoRefills)] else r.orders)
  }

  predicate InOrder(clock: real, e: Event) {
    clock <= e.at && (e.RefillResult? ==> e.at <= e.stamp)
  }

  function Begin(gap: real, ladder: seq<real>, now: real): Run {
    Run(Backoff(gap, ladder, None, None, 0, 0), now, [], [], [], [])
  }

  ghost predicate Reaches(start: Run, events: seq<Event>, end: Run)
    decreases |events|
  {
    if events == [] then end == start
    else
      && start.state.ladder != []
      && InOrder(start.clock, events[0])
      && Reaches(Step(start, events[0]), events[1..], end)
  }

  /** How many of the latest refills in a row left the pool empty. */
  function TrailingEmpty(outcomes: seq<nat>): nat {
    if outcomes != [] && outcomes[|outcomes| - 1] == 0
    then TrailingEmpty(outcomes[..|outcomes| - 1]) + 1 else 0
  }

  /** It is k exactly if the last k refills were empty and the one before them, if any, was not. */
  lemma {:induction false} TrailingEmptyExact(outcomes: seq<nat>)
    ensures var k := TrailingEmpty(outcomes);
            && k <= |outcomes|
            && (forall i :: |outcomes| - k <= i < |outcomes| ==> outcomes[i] == 0)
            && (k < |outcomes| ==> outcomes[|outcomes| - k - 1] > 0)
  {
    if outcomes != [] && outcomes[|outcomes| - 1] == 0 {
      TrailingEmptyExact(outcomes[..|outcomes| - 1]);
    }
  }

  /** How many of those ordered a refetch. */
  function TrailingOrders(outcomes: seq<nat>, ordered: seq<bool>): nat
    requires |ordered| == |outcomes|
  {
    if outcomes != [] && outcomes[|outcomes| - 1] == 0
    then TrailingOrders(outcomes[..|outcomes| - 1], ordered[..|outcomes| - 1])
         + (if ordered[|outcomes| - 1] then 1 else 0)
    else 0
  }

  ghost predicate CountersOk(r: Run) {
    && |r.ordered| == |r.outcomes|
    && r.state.autoRefills == TrailingEmpty(r.outcomes)
    && r.state.forceRefetches == TrailingOrders(r.outcomes, r.ordered)
  }

  ghost predicate OrdersOk(r: Run) {
    var orders := r.orders;
    && r.state.ladder != []
    && (orders == [] ==> r.state.lastForceRefresh == None)
    && (orders != [] ==> r.state.lastForceRefresh == Some(orders[|orders| - 1].stamp))
    && (forall i :: 0 <= i < |orders| ==> orders[i].at <= orders[i].stamp)
    && (forall i :: 0 < i < |orders| ==> OrderSpaced(r.state.ladder, orders, i))
  }

  ghost predicate OrderSpaced(ladder: seq<real>, orders: seq<Order>, i: nat)
    requires ladder != [] && 0 < i < |orders|
  {
    orders[i].empties > 0 && orders[i].at - orders[i - 1].stamp > Cooldown(ladder, orders[i].empties)
  }

  ghost predicate ApprovalsOk(r: Run) {
    var ok := r.approvals;
    && (ok == [] ==> r.state.lastAutoRefresh == None)
    && (ok != [] ==> r.state.lastAutoRefresh == Some(ok[|ok| - 1].at))
    && (forall i :: 0 < i < |ok| && ok[i].empties > 0 ==> ok[i].at - ok[i - 1].at >= r.state.gap)
  }

  ghost predicate Inv(r: Run) {
    && OrdersOk(r)
    && ApprovalsOk(r)
    && CountersOk(r)
  }

  lemma OrdersKept(r: Run, e: Event)
    requires OrdersOk(r) && InOrder(r.clock, e)
    ensures OrdersOk(Step(r, e))
  {
    var r' := Step(r, e);
    forall i | 0 < i < |r'.orders|
      ensures OrderSpaced(r'.state.ladder, r'.orders, i)
    {
      assert i < |r.orders| ==> OrderSpaced(r.state.ladder, r.orders, i);
    }
  }

  lemma ApprovalsKept(r: Run, e: Event)
    requires r.state.ladder != [] && ApprovalsOk(r) && InOrder(r.clock, e)
    ensures ApprovalsOk(Step(r, e))
  {
    var ok, ok' := r.approvals, Step(r, e).approvals;
    forall i | 0 < i < |ok'| && ok'[i].empties > 0
      ensures ok'[i].at - ok'[i - 1].at >= r.state.gap
    {
      assert i < |ok| ==> ok'[i] == ok[i] && ok'[i - 1] == ok[i - 1];
    }
  }

  lemma StreakKept(r: Run, e: Event)
    requires r.state.ladder != [] && CountersOk(r)
    ensures CountersOk(Step(r, e))
  {
    if e.RefillResult? {
      assert (r.outcomes + [e.usable])[..|r.outcomes|] == r.outcomes;
      assert Step(r, e).ordered[..|r.ordered|] == r.ordered;
    }
  }

  lemma InvStep(r: Run, e: Event)
    requires Inv(r) && InOrder(r.clock, e)
    ensures Inv(Step(r, e))
    ensures Step(r, e).state.ladder == r.state.ladder && Step(r, e).state.gap == r.state.gap
  {
    OrdersKept(r, e);
    ApprovalsKept(r, e);
    StreakKept(r, e);
  }

  lemma {:induction false} InvReaches(start: Run, events: seq<Event>, end: Run)
    requires Inv(start) && Reaches(start, events, end)
    ensures Inv(end) && end.state.ladder == start.state.ladder && end.state.gap == start.state.gap
    decreases |events|
  {
    if events != [] {
      InvStep(start, events[0]);
      InvReaches(Step(start, events[0]), events[1..], end);
    }
  }

  lemma {:induction false} OrdersApart(r: Run, i: nat, j: nat)
    requires OrdersOk(r) && r.state.ladder == EMPTY_REFETCH_BACKOFF && i < j < |r.orders|
    ensures r.orders[j].at - r.orders[i].stamp > 60.0 * (j - i) as real
    decreases j
  {
    assert OrderSpaced(r.state.ladder, r.orders, j);
    if i < j - 1 {
      OrdersApart(r, i, j - 1);
    }
  }

  /** Back-off over runs: whatever recoveries lie between, the i-th and j-th force orders are more
      than (j - i) minutes apart, and an order that ends a streak of k empty refills comes more
      than the k-th rung of the ladder after the order before it. */
  lemma ForceOrdersSpaced(events: seq<Event>, now: real, r: Run, i: nat, j: nat)
    requires Reaches(Begin(AUTO_REFRESH_GAP, EMPTY_REFETCH_BACKOFF, now), events, r)
    requires i < j < |r.orders|
    ensures r.orders[j].at - r.orders[i].stamp > 60.0 * (j - i) as real
    ensures r.orders[j].empties > 0
    ensures var k := r.orders[j].empties;
            r.orders[j].at - r.orders[j - 1].stamp
            > if k == 1 then 60.0 else if k == 2 then 120.0 else if k == 3 then 300.0 else 600.0
  {
    InvReaches(Begin(AUTO_REFRESH_GAP, EMPTY_REFETCH_BACKOFF, now), events, r);
    OrdersApart(r, i, j);
    assert OrderSpaced(r.state.ladder, r.orders, j);
  }

  /** A refill outcome orders a refetch exactly when the complete history says so: the outcome is empty, and
      the latest order, if any, is older than 1, 2, 5 or 10 minutes for the first, second, third or any
      later refill in a row that left the pool empty. */
  lemma ForceDecisionFromHistory(events: seq<Event>, now: real, r: Run, e: Event)
    requires Reaches(Begin(AUTO_REFRESH_GAP, EMPTY_REFETCH_BACKOFF, now), events, r)
    requires e.RefillResult? && InOrder(r.clock, e)
    ensures r.state.ladder != []
    ensures var streak := TrailingEmpty(r.outcomes + [e.usable]);
            var rung := if streak == 1 then 60.0 else if streak == 2 then 120.0
                        else if streak == 3 then 300.0 else 600.0;
            var due := e.usable == 0 && (r.orders == [] || e.at - r.orders[|r.orders| - 1].stamp > rung);
            && Step(r, e).orders == (if due then r.orders + [Order(e.at, e.stamp, streak)] else r.orders)
            && Step(r, e).ordered == r.ordered + [due]
            && Step(r, e).approvals == r.approvals && Step(r, e).outcomes == r.outcomes + [e.usable]
  {
    InvReaches(Begin(AUTO_REFRESH_GAP, EMPTY_REFETCH_BACKOFF, now), events, r);
    assert (r.outcomes + [e.usable])[..|r.outcomes|] == r.outcomes;
  }

  lemma CountersMean(r: Run)
    requires CountersOk(r)
    ensures var k := r.state.autoRefills;
            && k <= |r.outcomes|
            && (forall i :: |r.outcomes| - k <= i < |r.outcomes| ==> r.outcomes[i] == 0)
            && (k < |r.outcomes| ==> r.outcomes[|r.outcomes| - k - 1] > 0)
  {
    TrailingEmptyExact(r.outcomes);
  }

  /** Both counters follow from the outcomes: how many refills in a row left the pool empty, and how many of
      those ordered a refetch. */
  lemma CountersFromHistory(events: seq<Event>, now: real, r: Run)
    requires Reaches(Begin(AUTO_REFRESH_GAP, EMPTY_REFETCH_BACKOFF, now), events, r)
    ensures var k := r.state.autoRefills;
            && k <= |r.outcomes| == |r.ordered|
            && (forall i :: |r.outcomes| - k <= i < |r.outcomes| ==> r.outcomes[i] == 0)
            && (k < |r.outcomes| ==> r.outcomes[|r.outcomes| - k - 1] > 0)
            && r.state.forceRefetches == TrailingOrders(r.outcomes, r.ordered)
  {
    InvReaches(Begin(AUTO_REFRESH_GAP, EMPTY_REFETCH_BACKOFF, now), events, r);
    CountersMean(r);
  }

  /** A refill is approved exactly when the complete history says so: five seconds have passed since the
      latest approval, or the pool is below the threshold and the latest refill was not empty. */
  lemma ApprovalFromHistory(events: seq<Event>, now: real, r: Run, e: Event)
    requires Reaches(Begin(AUTO_REFRESH_GAP, EMPTY_REFETCH_BACKOFF, now), events, r)
    requires e.ShouldRefill? && InOrder(r.clock, e)
    ensures r.state.ladder != []
    ensures var streak := TrailingEmpty(r.outcomes);
            var gapOver := r.approvals == [] || e.at - r.approvals[|r.approvals| - 1].at >= 5.0;
            var filled := r.outcomes == [] || r.outcomes[|r.outcomes| - 1] > 0;
            && Step(r, e).approvals ==
                 (if gapOver || (e.usable < e.threshold && filled)
                  then r.approvals + [Approval(e.at, streak)] else r.approvals)
            && Step(r, e).orders == r.orders && Step(r, e).outcomes == r.outcomes
  {
    InvReaches(Begin(AUTO_REFRESH_GAP, EMPTY_REFETCH_BACKOFF, now), events, r);
  }

  /** While the latest refills were empty, an approved refill is at least the gap after the one
      before it, however starved the pool is. */
  lemma ApprovalsSpaced(events: seq<Event>, now: real, r: Run, i: nat)
    requires Reaches(Begin(AUTO_REFRESH_GAP, EMPTY_REFETCH_BACKOFF, now), events, r)
    requires 0 < i < |r.approvals| && r.approvals[i].empties > 0
    ensures r.approvals[i].at - r.approvals[i - 1].at >= 5.0
  {
    InvReaches(Begin(AUTO_REFRESH_GAP, EMPTY_REFETCH_BACKOFF, now), events, r);
  }

  ghost predicate Reachable(r: Run) {
    exists now: real, events: seq<Event> :: Reaches(Begin(AUTO_REFRESH_GAP, EMPTY_REFETCH_BACKOFF, now), events, r)
  }

  lemma {:induction false} OneMore(start: Run, events: seq<Event>, mid: Run, e: Event)
    requires Reaches(start, events, mid) && mid.state.ladder != [] && InOrder(mid.clock, e)
    ensures Reaches(start, events + [e], Step(mid, e))
    decreases |events|
  {
    if events == [] {
      assert events + [e] == [e] && [e][1..] == [];
    } else {
      assert (events + [e])[0] == events[0] && (events + [e])[1..] == events[1..] + [e];
      OneMore(Step(start, events[0]), events[1..], mid, e);
    }
  }

  lemma ReachableStep(r: Run, e: Event)
    requires Reachable(r) && r.state.ladder != [] && InOrder(r.clock, e)
    ensures Reachable(Step(r, e))
  {
    var now, events :| Reaches(Begin(AUTO_REFRESH_GAP, EMPTY_REFETCH_BACKOFF, now), events, r);
    OneMore(Begin(AUTO_REFRESH_GAP, EMPTY_REFETCH_BACKOFF, now), events, r, e);
  }

  /** The source's class; `run` is its history, which `Valid` says some schedule of calls leads to, so
      the lemmas above hold of every object. */
  class RefreshState {
    const gap: real
    const ladder: seq<real>
    var lastAutoRefresh: Option<real>
    var lastForceRefresh: Option<real>
    var autoRefills: nat
    var forceRefetches: nat
    ghost var run: Run

    ghost function State(): Backoff
      reads this
    {
      Backoff(gap, ladder, lastAutoRefresh, lastForceRefresh, autoRefills, forceRefetches)
    }

    ghost predicate Valid()
      reads this
    {
      ladder != [] && run.state == State() && Reachable(run)
    }

    constructor (ghost now: real)
      ensures Valid() && run == Begin(AUTO_REFRESH_GAP, EMPTY_REFETCH_BACKOFF, now)
    {
      gap, ladder := AUTO_REFRESH_GAP, EMPTY_REFETCH_BACKOFF;
      lastAutoRefresh, lastForceRefresh := None, None;
      autoRefills, forceRefetches := 0, 0;
      run := Begin(AUTO_REFRESH_GAP, EMPTY_REFETCH_BACKOFF, now);
      new;
      assert Reaches(run, [], run);
    }

    method ShouldRefill(usable: nat, threshold: nat, now: real) returns (refill: bool)
      requires Valid() && run.clock <= now
      modifies this
      ensures Valid() && run == Step(old(run), Event.ShouldRefill(now, usable, threshold))
      ensures refill <==> run.approvals != old(run.approvals)
    {
      ReachableStep(run, Event.ShouldRefill(now, usable, threshold));
      run := Step(run, Event.ShouldRefill(now, usable, threshold));
      if lastAutoRefresh.Some? && now - lastAutoRefresh.value < gap {
        if usable >= threshold {
          return false;
        }
        if autoRefills > 0 {
          return false;
        }
      }
      lastAutoRefresh := Some(now);
      return true;
    }

    method RefillResult(usable: nat, now: real, stamp: real) returns (force: bool)
      requires Valid() && run.clock <= now <= stamp
      modifies this
      ensures Valid() && run == Step(old(run), Event.RefillResult(now, stamp, usable))
      ensures force <==> run.orders != old(run.orders)
    {
      ReachableStep(run, Event.RefillResult(now, stamp, usable));
      run := Step(run, Event.RefillResult(now, stamp, usable));
      if usable > 0 {
        autoRefills, forceRefetches := 0, 0;
        return false;
      }
      autoRefills := autoRefills + 1;
      var index := MinInt(autoRefills - 1, |ladder| - 1);
      var cooldown := ladder[index];
      if lastForceRefresh.None? || now - lastForceRefresh.value > cooldown {
        lastForceRefresh := Some(stamp);
        forceRefetches := forceRefetches + 1;
        return true;
      }
      return false;
    }
  }
}
