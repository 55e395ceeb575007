/** Building search tasks and their seed rows: `_dates_between` and `_build_tasks` of
    collector/services/search_pipeline.py over the catalogue of collector/routes.py. */
module TaskBuilding {
  import opened Prelude
  import opened ResultStore

  const HUB := "SIN"

  const DESTINATIONS: seq<string> :=
    ["KUL", "CGK", "BKK", "HKT", "DPS", "MNL", "SGN", "HAN", "NRT", "KIX", "HND", "TPE", "PVG",
     "PEK", "ICN", "PUS"]

  const AIRPORTS: seq<string> := [HUB] + DESTINATIONS

  const ROUND_TRIP_OFFSETS: seq<int> := [7, 14, 21]

  datatype Route = Route(origin: string, dest: string)

  /** A provider's `supports`: `None` for every route. */
  type Supports = Option<set<Route>>

  datatype SearchTask = SearchTask(
    provider: nat,
    origin: string,
    dest: string,
    departure: int,
    returnDate: Option<int>,
    flightType: FlightType)

  function OneWayRoutes(dests: seq<string>): seq<Route> {
    if dests == [] then []
    else
      var d := dests[|dests| - 1];
      OneWayRoutes(dests[..|dests| - 1]) + [Route(HUB, d), Route(d, HUB)]
  }

  function RoundTripRoutes(dests: seq<string>): seq<Route> {
    if dests == [] then [] else RoundTripRoutes(dests[..|dests| - 1]) + [Route(HUB, dests[|dests| - 1])]
  }

  predicate Supported(s: Supports, r: Route) {
    s.None? || r in s.value
  }

  function SupportedRoutes(s: Supports, routes: seq<Route>): seq<Route> {
    if routes == [] then []
    else
      var r := routes[|routes| - 1];
      SupportedRoutes(s, routes[..|routes| - 1]) + (if Supported(s, r) then [r] else [])
  }

  /** `Airport.value` for each code: the full name the flight library gives the airport. */
  type Names = string -> string

  /** The airports of the catalogue have different names, none of them with the separator in it. */
  ghost predicate NamesOk(names: Names) {
    && (forall c :: c in AIRPORTS ==> '|' !in names(c))
    && (forall c, d :: c in AIRPORTS && d in AIRPORTS && names(c) == names(d) ==> c == d)
  }

  function RouteKey(originName: string, destName: string): string {
    originName + "|" + destName
  }

  // ---------------------------------------------------------------- the window

  /** The days from `start` to `end` that are not before `today`. */
  function DatesBetween(start: int, end: int, today: int): seq<int>
    decreases end - start
  {
    if end < start then []
    else DatesBetween(start, end - 1, today) + (if end >= today then [end] else [])
  }

  function WindowLength(start: int, end: int, today: int): nat {
    MaxInt(0, end - MaxInt(start, today) + 1)
  }

  /** The window is exactly the consecutive days from the later of `start` and `today` to `end`. */
  lemma {:induction false} WindowExact(start: int, end: int, today: int)
    ensures |DatesBetween(start, end, today)| == WindowLength(start, end, today)
    ensures forall i :: 0 <= i < |DatesBetween(start, end, today)| ==>
              DatesBetween(start, end, today)[i] == MaxInt(start, today) + i
    decreases end - start
  {
    if start <= end {
      WindowExact(start, end - 1, today);
    }
  }

  // ---------------------------------------------------------------- search tasks

  /** One inner loop's worth of tasks: a route, one-way or returning after `offset` days. */
  datatype Plan = Plan(route: Route, offset: Option<int>)

  function TaskOf(provider: nat, plan: Plan, day: int): SearchTask {
    SearchTask(provider, plan.route.origin, plan.route.dest, day,
               if plan.offset.Some? then Some(day + plan.offset.value) else None,
               if plan.offset.Some? then RoundTrip else OneWay)
  }

  function SeedOf(names: Names, t: SearchTask): Key {
    Key(RouteKey(names(t.origin), names(t.dest)), t.departure, t.returnDate, t.flightType)
  }

  function OneWayPlans(routes: seq<Route>): (plans: seq<Plan>)
    ensures |plans| == |routes|
  {
    seq(|routes|, i requires 0 <= i < |routes| => Plan(routes[i], None))
  }

  function OffsetPlans(r: Route, offsets: seq<int>): (plans: seq<Plan>)
    ensures |plans| == |offsets|
  {
    seq(|offsets|, i requires 0 <= i < |offsets| => Plan(r, Some(offsets[i])))
  }

  function RoundTripPlans(routes: seq<Route>): seq<Plan> {
    if routes == [] then []
    else RoundTripPlans(routes[..|routes| - 1]) + OffsetPlans(routes[|routes| - 1], ROUND_TRIP_OFFSETS)
  }

  function Plans(s: Supports): seq<Plan> {
    OneWayPlans(SupportedRoutes(s, OneWayRoutes(DESTINATIONS)))
    + RoundTripPlans(SupportedRoutes(s, RoundTripRoutes(DESTINATIONS)))
  }

  function Block(provider: nat, plan: Plan, days: seq<int>): (tasks: seq<SearchTask>)
    ensures |tasks| == |days|
  {
    seq(|days|, i requires 0 <= i < |days| => TaskOf(provider, plan, days[i]))
  }

  function Blocks(provider: nat, plans: seq<Plan>, days: seq<int>): seq<SearchTask> {
    if plans == [] then []
    else Blocks(provider, plans[..|plans| - 1], days) + Block(provider, plans[|plans| - 1], days)
  }

  function TasksOf(providers: seq<Supports>, days: seq<int>): seq<SearchTask> {
    if providers == [] then []
    else
      var n := |providers| - 1;
      TasksOf(providers[..n], days) + Blocks(n, Plans(providers[n]), days)
  }

  // ---------------------------------------------------------------- how many, which, and all distinct

  lemma {:induction false} BlocksLength(provider: nat, plans: seq<Plan>, days: seq<int>)
    ensures |Blocks(provider, plans, days)| == |plans| * |days|
  {
    if plans != [] {
      BlocksLength(provider, plans[..|plans| - 1], days);
      assert |plans| * |days| == (|plans| - 1) * |days| + |days|;
    }
  }

  /** The tasks are exactly one per plan and day. */
  lemma {:induction false} BlocksExact(provider: nat, plans: seq<Plan>, days: seq<int>, t: SearchTask)
    ensures t in Blocks(provider, plans, days) <==>
              exists plan, day :: plan in plans && day in days && t == TaskOf(provider, plan, day)
  {
    if plans != [] {
      var n := |plans| - 1;
      BlocksExact(provider, plans[..n], days, t);
      assert plans == plans[..n] + [plans[n]];
      if t in Block(provider, plans[n], days) {
        var i :| 0 <= i < |days| && Block(provider, plans[n], days)[i] == t;
        assert days[i] in days && t == TaskOf(provider, plans[n], days[i]);
      }
      if exists day :: day in days && t == TaskOf(provider, plans[n], day) {
        var day :| day in days && t == TaskOf(provider, plans[n], day);
        var i :| 0 <= i < |days| && days[i] == day;
        assert Block(provider, plans[n], days)[i] == t;
      }
    }
  }

  predicate CodesOk(r: Route) {
    r.origin in AIRPORTS && r.dest in AIRPORTS
  }

  /** A route key gives back the two names it was built from. */
  lemma RouteKeyInjective(origin: string, dest: string, origin': string, dest': string)
    requires '|' !in origin && '|' !in origin' && RouteKey(origin, dest) == RouteKey(origin', dest')
    ensures origin == origin' && dest == dest'
  {
    var key := RouteKey(origin, dest);
    var n, n' := |origin|, |origin'|;
    assert key[n] == '|' && key[n'] == '|';
    assert n == n';
    assert key[..n] == origin && key[..n] == origin';
    assert key[n + 1..] == dest && key[n + 1..] == dest';
  }

  lemma SeedInjective(names: Names, provider: nat, a: Plan, b: Plan, day: int, day': int)
    requires NamesOk(names) && CodesOk(a.route) && CodesOk(b.route)
    requires SeedOf(names, TaskOf(provider, a, day)) == SeedOf(names, TaskOf(provider, b, day'))
    ensures a == b && day == day'
  {
    RouteKeyInjective(names(a.route.origin), names(a.route.dest), names(b.route.origin), names(b.route.dest));
  }

  ghost predicate DistinctKeys(names: Names, tasks: seq<SearchTask>) {
    forall i, j :: 0 <= i < j < |tasks| ==> SeedOf(names, tasks[i]) != SeedOf(names, tasks[j])
  }

  predicate PlansOk(plans: seq<Plan>) {
    forall i, j :: 0 <= i < j < |plans| ==> plans[i] != plans[j]
  }

  lemma {:induction false} BlocksDistinct(names: Names, provider: nat, plans: seq<Plan>, days: seq<int>)
    requires NamesOk(names) && PlansOk(plans) && forall p :: p in plans ==> CodesOk(p.route)
    requires forall i, j :: 0 <= i < j < |days| ==> days[i] != days[j]
    ensures DistinctKeys(names, Blocks(provider, plans, days))
  {
    if plans != [] {
      var n := |plans| - 1;
      var before := Blocks(provider, plans[..n], days);
      var block := Block(provider, plans[n], days);
      BlocksDistinct(names, provider, plans[..n], days);
      forall i, j | 0 <= i < |before| && 0 <= j < |block|
        ensures SeedOf(names, before[i]) != SeedOf(names, block[j])
      {
        BlocksExact(provider, plans[..n], days, before[i]);
        var plan, day :| plan in plans[..n] && day in days && before[i] == TaskOf(provider, plan, day);
        if SeedOf(names, before[i]) == SeedOf(names, block[j]) {
          SeedInjective(names, provider, plan, plans[n], day, days[j]);
        }
      }
      forall i, j | 0 <= i < j < |block|
        ensures SeedOf(names, block[i]) != SeedOf(names, block[j])
      {
        if SeedOf(names, block[i]) == SeedOf(names, block[j]) {
          SeedInjective(names, provider, plans[n], plans[n], days[i], days[j]);
        }
      }
    }
  }

  // ---------------------------------------------------------------- the catalogue

  predicate DestsOk(dests: seq<string>) {
    && (forall i :: 0 <= i < |dests| ==> dests[i] != HUB)
    && (forall i, j :: 0 <= i < j < |dests| ==> dests[i] != dests[j])
  }

  lemma CatalogueOk()
    ensures |DESTINATIONS| == 16 && DestsOk(DESTINATIONS)
  {}

  predicate RoutesOk(routes: seq<Route>) {
    forall i, j :: 0 <= i < j < |routes| ==> routes[i] != routes[j]
  }

  lemma {:induction false} OneWayRoutesOk(dests: seq<string>)
    requires DestsOk(dests)
    ensures RoutesOk(OneWayRoutes(dests)) && |OneWayRoutes(dests)| == 2 * |dests|
    ensures forall r :: r in OneWayRoutes(dests) ==>
              (r.origin == HUB && r.dest in dests) || (r.dest == HUB && r.origin in dests)
  {
    if dests != [] {
      var n := |dests| - 1;
      OneWayRoutesOk(dests[..n]);
      assert dests[n] !in dests[..n];
      var before, there, back := OneWayRoutes(dests[..n]), Route(HUB, dests[n]), Route(dests[n], HUB);
      RouteAppends(before, there);
      RouteAppends(before + [there], back);
      assert before + [there, back] == before + [there] + [back];
    }
  }

  lemma RouteAppends(routes: seq<Route>, r: Route)
    requires RoutesOk(routes) && r !in routes
    ensures RoutesOk(routes + [r])
  {}

  lemma {:induction false} RoundTripRoutesOk(dests: seq<string>)
    requires DestsOk(dests)
    ensures RoutesOk(RoundTripRoutes(dests)) && |RoundTripRoutes(dests)| == |dests|
    ensures forall r :: r in RoundTripRoutes(dests) ==> r.origin == HUB && r.dest in dests
  {
    if dests != [] {
      var n := |dests| - 1;
      RoundTripRoutesOk(dests[..n]);
      assert dests[n] !in dests[..n];
      RouteAppends(RoundTripRoutes(dests[..n]), Route(HUB, dests[n]));
    }
  }

  lemma {:induction false} SupportedIn(s: Supports, routes: seq<Route>, r: Route)
    ensures r in SupportedRoutes(s, routes) <==> r in routes && Supported(s, r)
  {
    if routes != [] {
      var n := |routes| - 1;
      SupportedIn(s, routes[..n], r);
      assert routes == routes[..n] + [routes[n]];
    }
  }

  lemma {:induction false} SupportedKeepsOk(s: Supports, routes: seq<Route>)
    requires RoutesOk(routes)
    ensures RoutesOk(SupportedRoutes(s, routes))
  {
    if routes != [] {
      var n := |routes| - 1;
      SupportedKeepsOk(s, routes[..n]);
      SupportedIn(s, routes[..n], routes[n]);
      assert routes[n] !in routes[..n];
    }
  }

  lemma {:induction false} AllSupported(routes: seq<Route>)
    ensures SupportedRoutes(None, routes) == routes
  {
    if routes != [] {
      AllSupported(routes[..|routes| - 1]);
    }
  }

  lemma SupportedOk(s: Supports, routes: seq<Route>)
    requires RoutesOk(routes)
    ensures RoutesOk(SupportedRoutes(s, routes))
    ensures forall r :: r in SupportedRoutes(s, routes) <==> r in routes && Supported(s, r)
    ensures s.None? ==> SupportedRoutes(s, routes) == routes
  {
    SupportedKeepsOk(s, routes);
    forall r
      ensures r in SupportedRoutes(s, routes) <==> r in routes && Supported(s, r)
    {
      SupportedIn(s, routes, r);
    }
    AllSupported(routes);
  }

  lemma OffsetPlansOk(r: Route, p: Plan)
    ensures var plans := OffsetPlans(r, ROUND_TRIP_OFFSETS);
            && PlansOk(plans) && |plans| == 3
            && (p in plans <==> p.route == r && p.offset.Some? && p.offset.value in ROUND_TRIP_OFFSETS)
  {
    assert OffsetPlans(r, ROUND_TRIP_OFFSETS) == [Plan(r, Some(7)), Plan(r, Some(14)), Plan(r, Some(21))];
  }

  lemma {:induction false} RoundTripIn(routes: seq<Route>, p: Plan)
    ensures p in RoundTripPlans(routes) <==>
              p.route in routes && p.offset.Some? && p.offset.value in ROUND_TRIP_OFFSETS
  {
    if routes != [] {
      var n := |routes| - 1;
      RoundTripIn(routes[..n], p);
      OffsetPlansOk(routes[n], p);
      assert routes == routes[..n] + [routes[n]];
      assert p.route in routes <==> p.route in routes[..n] || p.route == routes[n];
    }
  }

  lemma PlansJoin(a: seq<Plan>, b: seq<Plan>)
    requires PlansOk(a) && PlansOk(b) && forall p :: p in a ==> p !in b
    ensures PlansOk(a + b)
  {
    forall i, j | 0 <= i < j < |a + b|
      ensures (a + b)[i] != (a + b)[j]
    {
      if i < |a| <= j {
        assert a[i] in a && b[j - |a|] in b;
      }
    }
  }

  lemma {:induction false} RoundTripPlansOk(routes: seq<Route>)
    requires RoutesOk(routes)
    ensures PlansOk(RoundTripPlans(routes)) && |RoundTripPlans(routes)| == 3 * |routes|
  {
    if routes != [] {
      var n := |routes| - 1;
      var before, last := RoundTripPlans(routes[..n]), OffsetPlans(routes[n], ROUND_TRIP_OFFSETS);
      RoundTripPlansOk(routes[..n]);
      forall p
        ensures PlansOk(last) && |last| == 3 && (p in before ==> p !in last)
      {
        OffsetPlansOk(routes[n], p);
        RoundTripIn(routes[..n], p);
        assert routes[n] !in routes[..n];
      }
      PlansJoin(before, last);
    }
  }

  /** What one provider's plans are: its supported one-way routes, and its supported round trips
      with each of the three offsets. */
  lemma PlansExact(s: Supports)
    ensures PlansOk(Plans(s))
    ensures |Plans(s)| == |SupportedRoutes(s, OneWayRoutes(DESTINATIONS))|
                          + 3 * |SupportedRoutes(s, RoundTripRoutes(DESTINATIONS))|
    ensures forall p :: p in Plans(s) <==>
              && Supported(s, p.route)
              && if p.offset.None? then p.route in OneWayRoutes(DESTINATIONS)
                 else p.route in RoundTripRoutes(DESTINATIONS) && p.offset.value in ROUND_TRIP_OFFSETS
    ensures s.None? ==> |Plans(s)| == 80
  {
    CatalogueOk();
    CatalogueRoutes();
    var ones := SupportedRoutes(s, OneWayRoutes(DESTINATIONS));
    var rounds := SupportedRoutes(s, RoundTripRoutes(DESTINATIONS));
    SupportedOk(s, OneWayRoutes(DESTINATIONS));
    SupportedOk(s, RoundTripRoutes(DESTINATIONS));
    JoinedPlans(ones, rounds);
  }

  lemma CatalogueRoutes()
    ensures RoutesOk(OneWayRoutes(DESTINATIONS)) && |OneWayRoutes(DESTINATIONS)| == 32
    ensures RoutesOk(RoundTripRoutes(DESTINATIONS)) && |RoundTripRoutes(DESTINATIONS)| == 16
  {
    CatalogueOk();
    OneWayRoutesOk(DESTINATIONS);
    RoundTripRoutesOk(DESTINATIONS);
  }

  lemma JoinedPlans(ones: seq<Route>, rounds: seq<Route>)
    requires RoutesOk(ones) && RoutesOk(rounds)
    ensures var plans := OneWayPlans(ones) + RoundTripPlans(rounds);
            && PlansOk(plans) && |plans| == |ones| + 3 * |rounds|
            && forall p :: p in plans <==>
                 if p.offset.None? then p.route in ones
                 else p.route in rounds && p.offset.value in ROUND_TRIP_OFFSETS
  {
    RoundTripPlansOk(rounds);
    forall p
      ensures p in OneWayPlans(ones) <==> p.route in ones && p.offset.None?
      ensures p in RoundTripPlans(rounds) <==>
                p.route in rounds && p.offset.Some? && p.offset.value in ROUND_TRIP_OFFSETS
    {
      RoundTripIn(rounds, p);
      if p.route in ones && p.offset.None? {
        var i :| 0 <= i < |ones| && ones[i] == p.route;
        assert OneWayPlans(ones)[i] == p;
      }
    }
    PlansJoin(OneWayPlans(ones), RoundTripPlans(rounds));
  }

  /** Task window: with D days in the window, a provider gets exactly D tasks for each supported
      one-way route and 3 * D for each supported round trip (80 * D for the whole catalogue), all
      with distinct keys; a task exists exactly for each supported plan and each day of the window. */
  lemma TaskWindowExact(names: Names, s: Supports, start: int, end: int, today: int, t: SearchTask)
    requires NamesOk(names)
    ensures var tasks := TasksOf([s], DatesBetween(start, end, today));
            var days := WindowLength(start, end, today);
            && |tasks| == (|SupportedRoutes(s, OneWayRoutes(DESTINATIONS))|
                           + 3 * |SupportedRoutes(s, RoundTripRoutes(DESTINATIONS))|) * days
            && (s.None? ==> |tasks| == 80 * days)
            && DistinctKeys(names, tasks)
            && (t in tasks <==>
                  exists plan, day ::
                    && plan in Plans(s) && MaxInt(start, today) <= day <= end
                    && t == TaskOf(0, plan, day))
  {
    TasksOfOne(s, DatesBetween(start, end, today));
    TaskCount(s, start, end, today);
    TaskMembers(names, s, start, end, today, t);
  }

  lemma TaskCount(s: Supports, start: int, end: int, today: int)
    ensures var tasks := Blocks(0, Plans(s), DatesBetween(start, end, today));
            var days := WindowLength(start, end, today);
            && |tasks| == (|SupportedRoutes(s, OneWayRoutes(DESTINATIONS))|
                           + 3 * |SupportedRoutes(s, RoundTripRoutes(DESTINATIONS))|) * days
            && (s.None? ==> |tasks| == 80 * days)
  {
    DatesExact(start, end, today);
    PlansExact(s);
    BlocksLength(0, Plans(s), DatesBetween(start, end, today));
  }

  lemma TaskMembers(names: Names, s: Supports, start: int, end: int, today: int, t: SearchTask)
    requires NamesOk(names)
    ensures var tasks := Blocks(0, Plans(s), DatesBetween(start, end, today));
            && DistinctKeys(names, tasks)
            && (t in tasks <==>
                  exists plan, day ::
                    && plan in Plans(s) && MaxInt(start, today) <= day <= end
                    && t == TaskOf(0, plan, day))
  {
    var dates := DatesBetween(start, end, today);
    DatesExact(start, end, today);
    PlansExact(s);
    PlanCodes(s);
    BlocksDistinct(names, 0, Plans(s), dates);
    BlocksExact(0, Plans(s), dates, t);
  }

  lemma PlanCodes(s: Supports)
    ensures forall p :: p in Plans(s) ==> CodesOk(p.route)
  {
    PlansExact(s);
    CatalogueOk();
    OneWayRoutesOk(DESTINATIONS);
    RoundTripRoutesOk(DESTINATIONS);
    forall c | c == HUB || c in DESTINATIONS
      ensures c in AIRPORTS
    {
      InCatalogue(c);
    }
  }

  lemma InCatalogue(c: string)
    requires c == HUB || c in DESTINATIONS
    ensures c in AIRPORTS
  {
    assert AIRPORTS[0] == HUB && AIRPORTS[1..] == DESTINATIONS;
  }

  lemma TasksOfOne(s: Supports, dates: seq<int>)
    ensures TasksOf([s], dates) == Blocks(0, Plans(s), dates)
  {
    assert [s][..0] == [];
  }

  /** The window as a set of days. */
  lemma DatesExact(start: int, end: int, today: int)
    ensures var dates := DatesBetween(start, end, today);
            && |dates| == WindowLength(start, end, today)
            && (forall i, j :: 0 <= i < j < |dates| ==> dates[i] != dates[j])
            && forall day :: day in dates <==> MaxInt(start, today) <= day <= end
  {
    var dates := DatesBetween(start, end, today);
    WindowExact(start, end, today);
    forall day
      ensures day in dates <==> MaxInt(start, today) <= day <= end
    {
      if MaxInt(start, today) <= day <= end {
        assert dates[day - MaxInt(start, today)] == day;
      }
    }
  }

  // ---------------------------------------------------------------- the loops

  /** The catalogue restricted to what `s` supports, as the source's generator yields it. */
  method YieldSupported(s: Supports, routes: seq<Route>) returns (supported: seq<Route>)
    ensures supported == SupportedRoutes(s, routes)
  {
    supported := [];
    for i := 0 to |routes|
      invariant supported == SupportedRoutes(s, routes[..i])
    {
      assert routes[..i + 1][..i] == routes[..i];
      if s.Some? && routes[i] !in s.value {
        continue;
      }
      supported := supported + [routes[i]];
    }
    assert routes[..|routes|] == routes;
  }

  predicate SeedsMatch(names: Names, tasks: seq<SearchTask>, seeds: seq<Key>) {
    |seeds| == |tasks| && forall i :: 0 <= i < |tasks| ==> seeds[i] == SeedOf(names, tasks[i])
  }

  /** The innermost loop: one task and one seed row per day. */
  method EmitDays(names: Names, provider: nat, plan: Plan, days: seq<int>, tasks: seq<SearchTask>, seeds: seq<Key>)
    returns (tasks': seq<SearchTask>, seeds': seq<Key>)
    requires SeedsMatch(names, tasks, seeds)
    ensures tasks' == tasks + Block(provider, plan, days) && SeedsMatch(names, tasks', seeds')
  {
    tasks', seeds' := tasks, seeds;
    for i := 0 to |days|
      invariant tasks' == tasks + Block(provider, plan, days[..i]) && SeedsMatch(names, tasks', seeds')
    {
      assert Block(provider, plan, days[..i + 1])
          == Block(provider, plan, days[..i]) + [TaskOf(provider, plan, days[i])];
      var returnDate := if plan.offset.Some? then Some(days[i] + plan.offset.value) else None;
      var flightType := if returnDate.Some? then RoundTrip else OneWay;
      tasks' := tasks' + [SearchTask(provider, plan.route.origin, plan.route.dest, days[i], returnDate, flightType)];
      var routeKey := RouteKey(names(plan.route.origin), names(plan.route.dest));
      seeds' := seeds' + [Key(routeKey, days[i], returnDate, flightType)];
    }
    assert days[..|days|] == days;
  }

  method EmitPlans(names: Names, provider: nat, plans: seq<Plan>, start: int, end: int, today: int,
                   tasks: seq<SearchTask>, seeds: seq<Key>)
    returns (tasks': seq<SearchTask>, seeds': seq<Key>)
    requires SeedsMatch(names, tasks, seeds)
    ensures tasks' == tasks + Blocks(provider, plans, DatesBetween(start, end, today))
    ensures SeedsMatch(names, tasks', seeds')
  {
    var days := DatesBetween(start, end, today);
    tasks', seeds' := tasks, seeds;
    for i := 0 to |plans|
      invariant tasks' == tasks + Blocks(provider, plans[..i], days) && SeedsMatch(names, tasks', seeds')
    {
      assert plans[..i + 1][..i] == plans[..i];
      tasks', seeds' := EmitDays(names, provider, plans[i], days, tasks', seeds');
    }
    assert plans[..|plans|] == plans;
  }

  /** The round-trip plans in the order of the source's two inner loops. */
  method ListRoundTrips(routes: seq<Route>) returns (plans: seq<Plan>)
    ensures plans == RoundTripPlans(routes)
  {
    plans := [];
    for i := 0 to |routes|
      invariant plans == RoundTripPlans(routes[..i])
    {
      assert routes[..i + 1][..i] == routes[..i];
      for j := 0 to |ROUND_TRIP_OFFSETS|
        invariant plans == RoundTripPlans(routes[..i]) + OffsetPlans(routes[i], ROUND_TRIP_OFFSETS[..j])
      {
        plans := plans + [Plan(routes[i], Some(ROUND_TRIP_OFFSETS[j]))];
        assert OffsetPlans(routes[i], ROUND_TRIP_OFFSETS[..j + 1])
            == OffsetPlans(routes[i], ROUND_TRIP_OFFSETS[..j]) + [Plan(routes[i], Some(ROUND_TRIP_OFFSETS[j]))];
      }
      assert ROUND_TRIP_OFFSETS[..|ROUND_TRIP_OFFSETS|] == ROUND_TRIP_OFFSETS;
    }
    assert routes[..|routes|] == routes;
  }

  /** The body of the loop over providers: its one-way routes, then its round trips. */
  method EmitProvider(names: Names, p: nat, supports: Supports, start: int, end: int, today: int,
                      tasks: seq<SearchTask>, seeds: seq<Key>)
    returns (tasks': seq<SearchTask>, seeds': seq<Key>)
    requires SeedsMatch(names, tasks, seeds)
    ensures tasks' == tasks + Blocks(p, Plans(supports), DatesBetween(start, end, today))
    ensures SeedsMatch(names, tasks', seeds')
  {
    var ones := YieldSupported(supports, OneWayRoutes(DESTINATIONS));
    tasks', seeds' := EmitPlans(names, p, OneWayPlans(ones), start, end, today, tasks, seeds);
    var rounds := YieldSupported(supports, RoundTripRoutes(DESTINATIONS));
    var trips := ListRoundTrips(rounds);
    tasks', seeds' := EmitPlans(names, p, trips, start, end, today, tasks', seeds');
    BlocksAppend(p, OneWayPlans(ones), trips, DatesBetween(start, end, today));
  }

  lemma TasksOfNext(providers: seq<Supports>, p: nat, days: seq<int>)
    requires p < |providers|
    ensures TasksOf(providers[..p + 1], days)
         == TasksOf(providers[..p], days) + Blocks(p, Plans(providers[p]), days)
  {
    assert providers[..p + 1][..p] == providers[..p];
  }

  /** `_build_tasks`: tasks and seed rows of every provider, agreeing index by index. */
  method BuildTasks(names: Names, providers: seq<Supports>, start: int, end: int, today: int)
    returns (tasks: seq<SearchTask>, seeds: seq<Key>)
    ensures tasks == TasksOf(providers, DatesBetween(start, end, today))
    ensures SeedsMatch(names, tasks, seeds)
  {
    ghost var days := DatesBetween(start, end, today);
    tasks, seeds := [], [];
    for p := 0 to |providers|
      invariant tasks == TasksOf(providers[..p], days) && SeedsMatch(names, tasks, seeds)
    {
      TasksOfNext(providers, p, days);
      tasks, seeds := EmitProvider(names, p, providers[p], start, end, today, tasks, seeds);
    }
    assert providers[..|providers|] == providers;
  }

  lemma {:induction false} BlocksAppend(provider: nat, a: seq<Plan>, b: seq<Plan>, days: seq<int>)
    ensures Blocks(provider, a + b, days) == Blocks(provider, a, days) + Blocks(provider, b, days)
  {
    if b == [] {
      assert a + b == a;
    } else {
      assert (a + b)[..|a + b| - 1] == a + b[..|b| - 1];
      BlocksAppend(provider, a, b[..|b| - 1], days);
    }
  }
}
