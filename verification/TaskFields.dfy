/** Which search tasks and seed rows a run gets, field by field, and in which order. */
module TaskFields {
  import opened Prelude
  import opened ResultStore
  import opened TaskBuilding

  /** The sixteen destinations served from Singapore, in catalogue order. */
  const SERVED: seq<string> :=
    ["KUL", "CGK", "BKK", "HKT", "DPS", "MNL", "SGN", "HAN", "NRT", "KIX", "HND", "TPE", "PVG",
     "PEK", "ICN", "PUS"]

  predicate Serves(s: Supports, origin: string, dest: string) {
    s == None || Route(origin, dest) in s.value
  }

  // ---------------------------------------------------------------- which tasks

  lemma {:induction false} OneWayMeans(dests: seq<string>, r: Route)
    ensures r in OneWayRoutes(dests) <==>
              (r.origin == "SIN" && r.dest in dests) || (r.dest == "SIN" && r.origin in dests)
  {
    if dests != [] {
      var n := |dests| - 1;
      OneWayMeans(dests[..n], r);
      assert dests == dests[..n] + [dests[n]];
    }
  }

  lemma {:induction false} RoundTripMeans(dests: seq<string>, r: Route)
    ensures r in RoundTripRoutes(dests) <==> r.origin == "SIN" && r.dest in dests
  {
    if dests != [] {
      var n := |dests| - 1;
      RoundTripMeans(dests[..n], r);
      assert dests == dests[..n] + [dests[n]];
    }
  }

  /** What a task of a provider looks like: a served airport and the hub, either way without a return date
      or from the hub with a return 7, 14 or 21 days after the departure. */
  predicate TaskOk(s: Supports, t: SearchTask) {
    && Serves(s, t.origin, t.dest)
    && if t.flightType.OneWay? then
         t.returnDate == None
         && ((t.origin == "SIN" && t.dest in SERVED) || (t.dest == "SIN" && t.origin in SERVED))
       else
         t.origin == "SIN" && t.dest in SERVED
         && (t.returnDate == Some(t.departure + 7) || t.returnDate == Some(t.departure + 14)
             || t.returnDate == Some(t.departure + 21))
  }

  function PlanOf(t: SearchTask): Plan {
    Plan(Route(t.origin, t.dest), if t.returnDate.Some? then Some(t.returnDate.value - t.departure) else None)
  }

  lemma PlanMeans(s: Supports, provider: nat, p: Plan, day: int)
    ensures p in Plans(s) <==> TaskOk(s, TaskOf(provider, p, day))
  {
    PlansExact(s);
    OneWayMeans(DESTINATIONS, p.route);
    RoundTripMeans(DESTINATIONS, p.route);
    assert p.route == Route(p.route.origin, p.route.dest);
  }

  lemma ProviderTasks(provider: nat, s: Supports, days: seq<int>, t: SearchTask)
    ensures t in Blocks(provider, Plans(s), days) <==> t.provider == provider && t.departure in days && TaskOk(s, t)
  {
    BlocksExact(provider, Plans(s), days, t);
    PlanMeans(s, provider, PlanOf(t), t.departure);
    if t.provider == provider && TaskOk(s, t) {
      assert t == TaskOf(provider, PlanOf(t), t.departure);
    }
    if plan, day :| plan in Plans(s) && day in days && t == TaskOf(provider, plan, day) {
      assert PlanOf(t) == plan;
    }
  }

  lemma {:induction false} AllTasks(providers: seq<Supports>, days: seq<int>, t: SearchTask)
    ensures t in TasksOf(providers, days) <==>
              t.provider < |providers| && t.departure in days && TaskOk(providers[t.provider], t)
  {
    if providers != [] {
      var n := |providers| - 1;
      var before, last := TasksOf(providers[..n], days), Blocks(n, Plans(providers[n]), days);
      AllTasks(providers[..n], days, t);
      ProviderTasks(n, providers[n], days, t);
      assert TasksOf(providers, days) == before + last;
      assert t.provider < n ==> providers[..n][t.provider] == providers[t.provider];
      assert t in before + last <==> t in before || t in last;
    }
  }

  /** Which tasks there are, field by field: one for each provider, each day from the later of `start` and
      today to `end`, and each of its routes: a served airport and the hub, either way without a return
      date, and from the hub with a return 7, 14 and 21 days after the departure. */
  lemma TasksExact(providers: seq<Supports>, start: int, end: int, today: int, t: SearchTask)
    ensures t in TasksOf(providers, DatesBetween(start, end, today)) <==>
              && start <= t.departure <= end && today <= t.departure
              && t.provider < |providers| && TaskOk(providers[t.provider], t)
  {
    AllTasks(providers, DatesBetween(start, end, today), t);
    DatesExact(start, end, today);
  }

  /** The seed row that goes with a task repeats its dates and type under the route's two names. */
  lemma SeedFields(names: Names, providers: seq<Supports>, days: seq<int>, seeds: seq<Key>, i: nat)
    requires SeedsMatch(names, TasksOf(providers, days), seeds) && i < |seeds|
    ensures var t := TasksOf(providers, days)[i];
            && seeds[i].route == names(t.origin) + "|" + names(t.dest)
            && seeds[i].depDate == t.departure && seeds[i].returnDate == t.returnDate
            && seeds[i].flightType == t.flightType
            && t in TasksOf(providers, days)
  {}

  // ---------------------------------------------------------------- in which order

  /** The place of `c` in a list without repetitions. */
  function PlaceIn(list: seq<string>, c: string): nat {
    if list == [] then 0 else if list[|list| - 1] == c then |list| - 1 else PlaceIn(list[..|list| - 1], c)
  }

  /** The place of a task's block among its provider's 80: the one-way routes, out and back for each
      destination, then for each destination the three round trips by length. */
  function BlockOf(t: SearchTask): int {
    var out := t.origin == "SIN";
    var place := PlaceIn(SERVED, if out then t.dest else t.origin);
    match t.returnDate
    case None => 2 * place + (if out then 0 else 1)
    case Some(back) => 32 + 3 * place + (back - t.departure) / 7 - 1
  }

  /** By provider, then by block, then by day. */
  predicate Before(a: SearchTask, b: SearchTask) {
    || a.provider < b.provider
    || (a.provider == b.provider && BlockOf(a) < BlockOf(b))
    || (a.provider == b.provider && BlockOf(a) == BlockOf(b) && a.departure < b.departure)
  }

  predicate InOrder(tasks: seq<SearchTask>) {
    forall i, j :: 0 <= i < j < |tasks| ==> Before(tasks[i], tasks[j])
  }

  function PlanPlace(p: Plan): int {
    BlockOf(TaskOf(0, p, 0))
  }

  predicate PlansRise(plans: seq<Plan>) {
    forall i, j :: 0 <= i < j < |plans| ==> PlanPlace(plans[i]) < PlanPlace(plans[j])
  }

  predicate Below(plans: seq<Plan>, bound: int) {
    forall i :: 0 <= i < |plans| ==> PlanPlace(plans[i]) < bound
  }

  lemma RiseBy(plans: seq<Plan>, p: Plan)
    requires PlansRise(plans) && Below(plans, PlanPlace(p))
    ensures PlansRise(plans + [p]) && Below(plans + [p], PlanPlace(p) + 1)
  {}

  lemma {:induction false} PlaceInDistinct(list: seq<string>, n: nat)
    requires n < |list| && forall i, j :: 0 <= i < j < |list| ==> list[i] != list[j]
    ensures PlaceIn(list, list[n]) == n
  {
    if n < |list| - 1 {
      PlaceInDistinct(list[..|list| - 1], n);
    }
  }

  lemma PlaceOfServed(n: nat)
    requires n < 16
    ensures |SERVED| == 16 && SERVED == DESTINATIONS && PlaceIn(SERVED, SERVED[n]) == n && SERVED[n] != "SIN"
  {
    CatalogueOk();
    PlaceInDistinct(DESTINATIONS, n);
  }

  lemma OneWayPlansSnoc(routes: seq<Route>, r: Route)
    ensures OneWayPlans(routes + [r]) == OneWayPlans(routes) + [Plan(r, None)]
  {}

  lemma SupportedSnoc(s: Supports, routes: seq<Route>, r: Route)
    ensures SupportedRoutes(s, routes + [r])
         == SupportedRoutes(s, routes) + (if Supported(s, r) then [r] else [])
  {
    assert (routes + [r])[..|routes|] == routes;
  }

  /** One more route on the list, if it is supported, comes after those before it. */
  lemma OneRouteMore(s: Supports, routes: seq<Route>, r: Route, bound: int)
    requires PlansRise(OneWayPlans(SupportedRoutes(s, routes)))
    requires Below(OneWayPlans(SupportedRoutes(s, routes)), bound) && PlanPlace(Plan(r, None)) == bound
    ensures PlansRise(OneWayPlans(SupportedRoutes(s, routes + [r])))
    ensures Below(OneWayPlans(SupportedRoutes(s, routes + [r])), bound + 1)
  {
    SupportedSnoc(s, routes, r);
    var before := SupportedRoutes(s, routes);
    assert before + [] == before;
    OneWayPlansSnoc(before, r);
    RiseBy(OneWayPlans(before), Plan(r, None));
  }

  lemma OneRoutesSnoc(n: nat)
    requires 0 < n <= 16
    ensures |DESTINATIONS| == 16
    ensures var d := DESTINATIONS[n - 1];
            OneWayRoutes(DESTINATIONS[..n])
            == OneWayRoutes(DESTINATIONS[..n - 1]) + [Route("SIN", d)] + [Route(d, "SIN")]
  {
    assert DESTINATIONS[..n][..n - 1] == DESTINATIONS[..n - 1];
    var before, d := OneWayRoutes(DESTINATIONS[..n - 1]), DESTINATIONS[n - 1];
    assert before + [Route("SIN", d), Route(d, "SIN")] == before + [Route("SIN", d)] + [Route(d, "SIN")];
  }

  lemma OnePlaces(n: nat)
    requires n < 16
    ensures PlanPlace(Plan(Route("SIN", DESTINATIONS[n]), None)) == 2 * n
    ensures PlanPlace(Plan(Route(DESTINATIONS[n], "SIN"), None)) == 2 * n + 1
  {
    PlaceOfServed(n);
  }

  lemma {:induction false} OneWaysRise(s: Supports, n: nat)
    requires n <= 16
    ensures PlansRise(OneWayPlans(SupportedRoutes(s, OneWayRoutes(DESTINATIONS[..n]))))
    ensures Below(OneWayPlans(SupportedRoutes(s, OneWayRoutes(DESTINATIONS[..n]))), 2 * n)
  {
    if n > 0 {
      var before, d := OneWayRoutes(DESTINATIONS[..n - 1]), DESTINATIONS[n - 1];
      OneWaysRise(s, n - 1);
      OneRoutesSnoc(n);
      OnePlaces(n - 1);
      OneRouteMore(s, before, Route("SIN", d), 2 * n - 2);
      OneRouteMore(s, before + [Route("SIN", d)], Route(d, "SIN"), 2 * n - 1);
    }
  }

  lemma TripsSnoc(routes: seq<Route>, r: Route)
    ensures RoundTripPlans(routes + [r])
         == RoundTripPlans(routes) + [Plan(r, Some(7))] + [Plan(r, Some(14))] + [Plan(r, Some(21))]
  {
    assert (routes + [r])[..|routes|] == routes;
    assert OffsetPlans(r, ROUND_TRIP_OFFSETS) == [Plan(r, Some(7)), Plan(r, Some(14)), Plan(r, Some(21))];
  }

  /** One more route on the list, if it is supported, comes after those before it. */
  lemma TripsMore(routes: seq<Route>, r: Route, bound: int)
    requires PlansRise(RoundTripPlans(routes)) && Below(RoundTripPlans(routes), bound)
    requires PlanPlace(Plan(r, Some(7))) == bound && PlanPlace(Plan(r, Some(14))) == bound + 1
    requires PlanPlace(Plan(r, Some(21))) == bound + 2
    ensures PlansRise(RoundTripPlans(routes + [r])) && Below(RoundTripPlans(routes + [r]), bound + 3)
  {
    var trips := RoundTripPlans(routes);
    var first, second, third := Plan(r, Some(7)), Plan(r, Some(14)), Plan(r, Some(21));
    TripsSnoc(routes, r);
    RiseBy(trips, first);
    RiseBy(trips + [first], second);
    RiseBy(trips + [first] + [second], third);
  }

  lemma TripPlaces(n: nat)
    requires n < 16
    ensures var r := Route("SIN", DESTINATIONS[n]);
            && PlanPlace(Plan(r, Some(7))) == 32 + 3 * n && PlanPlace(Plan(r, Some(14))) == 33 + 3 * n
            && PlanPlace(Plan(r, Some(21))) == 34 + 3 * n
  {
    PlaceOfServed(n);
  }

  lemma TripRouteMore(s: Supports, routes: seq<Route>, r: Route, bound: int)
    requires PlansRise(RoundTripPlans(SupportedRoutes(s, routes)))
    requires Below(RoundTripPlans(SupportedRoutes(s, routes)), bound)
    requires PlanPlace(Plan(r, Some(7))) == bound && PlanPlace(Plan(r, Some(14))) == bound + 1
    requires PlanPlace(Plan(r, Some(21))) == bound + 2
    ensures PlansRise(RoundTripPlans(SupportedRoutes(s, routes + [r])))
    ensures Below(RoundTripPlans(SupportedRoutes(s, routes + [r])), bound + 3)
  {
    SupportedSnoc(s, routes, r);
    var before := SupportedRoutes(s, routes);
    assert before + [] == before;
    TripsMore(before, r, bound);
  }

  lemma TripRoutesSnoc(n: nat)
    requires 0 < n <= 16
    ensures |DESTINATIONS| == 16
    ensures RoundTripRoutes(DESTINATIONS[..n])
         == RoundTripRoutes(DESTINATIONS[..n - 1]) + [Route("SIN", DESTINATIONS[n - 1])]
  {
    assert DESTINATIONS[..n][..n - 1] == DESTINATIONS[..n - 1];
  }

  lemma {:induction false} RoundTripsRise(s: Supports, n: nat)
    requires n <= 16
    ensures PlansRise(RoundTripPlans(SupportedRoutes(s, RoundTripRoutes(DESTINATIONS[..n]))))
    ensures Below(RoundTripPlans(SupportedRoutes(s, RoundTripRoutes(DESTINATIONS[..n]))), 32 + 3 * n)
  {
    if n > 0 {
      RoundTripsRise(s, n - 1);
      TripRoutesSnoc(n);
      TripPlaces(n - 1);
      TripRouteMore(s, RoundTripRoutes(DESTINATIONS[..n - 1]), Route("SIN", DESTINATIONS[n - 1]), 29 + 3 * n);
    }
  }

  lemma {:induction false} TripsLate(routes: seq<Route>, i: nat)
    requires forall r :: r in routes ==> r.origin == "SIN"
    requires i < |RoundTripPlans(routes)|
    ensures PlanPlace(RoundTripPlans(routes)[i]) >= 32
  {
    RoundTripIn(routes, RoundTripPlans(routes)[i]);
  }

  /** A provider's plans rise: the one-way ones stay below 32, the round trips start there. */
  lemma AllPlansRise(s: Supports)
    ensures PlansRise(Plans(s))
  {
    var ones := OneWayPlans(SupportedRoutes(s, OneWayRoutes(DESTINATIONS)));
    var routes := SupportedRoutes(s, RoundTripRoutes(DESTINATIONS));
    assert DESTINATIONS[..16] == DESTINATIONS;
    OneWaysRise(s, 16);
    RoundTripsRise(s, 16);
    forall r | r in routes
      ensures r.origin == "SIN"
    {
      SupportedIn(s, RoundTripRoutes(DESTINATIONS), r);
      RoundTripMeans(DESTINATIONS, r);
    }
    forall i | 0 <= i < |RoundTripPlans(routes)|
      ensures PlanPlace(RoundTripPlans(routes)[i]) >= 32
    {
      TripsLate(routes, i);
    }
  }

  predicate Ascending(days: seq<int>) {
    forall i, j :: 0 <= i < j < |days| ==> days[i] < days[j]
  }

  lemma PlaceOfTask(provider: nat, p: Plan, day: int)
    ensures BlockOf(TaskOf(provider, p, day)) == PlanPlace(p)
  {}

  lemma BlockRises(provider: nat, p: Plan, days: seq<int>)
    requires Ascending(days)
    ensures InOrder(Block(provider, p, days))
  {
    forall i, j | 0 <= i < j < |days|
      ensures Before(Block(provider, p, days)[i], Block(provider, p, days)[j])
    {
      PlaceOfTask(provider, p, days[i]);
      PlaceOfTask(provider, p, days[j]);
    }
  }

  lemma EarlierPlan(provider: nat, plans: seq<Plan>, days: seq<int>, n: nat, t: SearchTask, day: int)
    requires PlansRise(plans) && n < |plans| && t in Blocks(provider, plans[..n], days)
    ensures Before(t, TaskOf(provider, plans[n], day))
  {
    BlocksExact(provider, plans[..n], days, t);
    var plan, d :| plan in plans[..n] && d in days && t == TaskOf(provider, plan, d);
    var k :| 0 <= k < n && plans[..n][k] == plan;
    assert PlanPlace(plans[k]) < PlanPlace(plans[n]);
    PlaceOfTask(provider, plan, d);
    PlaceOfTask(provider, plans[n], day);
  }

  lemma Joined(a: seq<SearchTask>, b: seq<SearchTask>)
    requires InOrder(a) && InOrder(b) && forall x, y :: x in a && y in b ==> Before(x, y)
    ensures InOrder(a + b)
  {
    forall i, j | 0 <= i < j < |a + b|
      ensures Before((a + b)[i], (a + b)[j])
    {
      if i < |a| <= j {
        assert a[i] in a && b[j - |a|] in b;
      }
    }
  }

  lemma {:induction false} BlocksRise(provider: nat, plans: seq<Plan>, days: seq<int>)
    requires PlansRise(plans) && Ascending(days)
    ensures InOrder(Blocks(provider, plans, days))
  {
    if plans != [] {
      var n := |plans| - 1;
      var before, last := Blocks(provider, plans[..n], days), Block(provider, plans[n], days);
      BlocksRise(provider, plans[..n], days);
      BlockRises(provider, plans[n], days);
      forall x, y | x in before && y in last
        ensures Before(x, y)
      {
        var j :| 0 <= j < |days| && last[j] == y;
        EarlierPlan(provider, plans, days, n, x, days[j]);
      }
      Joined(before, last);
    }
  }

  /** The order of the tasks, which makes them one list only: by provider, then the one-way routes in
      catalogue order, out and back, then the round trips in catalogue order, the shorter first, each
      with its days in order. */
  lemma {:induction false} TasksInOrder(providers: seq<Supports>, start: int, end: int, today: int)
    ensures InOrder(TasksOf(providers, DatesBetween(start, end, today)))
  {
    if providers != [] {
      var n, days := |providers| - 1, DatesBetween(start, end, today);
      var before, last := TasksOf(providers[..n], days), Blocks(n, Plans(providers[n]), days);
      TasksInOrder(providers[..n], start, end, today);
      AllPlansRise(providers[n]);
      WindowExact(start, end, today);
      BlocksRise(n, Plans(providers[n]), days);
      forall x, y | x in before && y in last
        ensures Before(x, y)
      {
        AllTasks(providers[..n], days, x);
        ProviderTasks(n, providers[n], days, y);
      }
      Joined(before, last);
    }
  }
}
