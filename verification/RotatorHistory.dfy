/** The rotator's pool by what was reported: strikes, parks and membership counted from the events, and
    the picks that follow an install or a rate limit. */
module RotationHistory {
  import opened Prelude
  import opened Subsequences
  import opened Rotation

  // ---------------------------------------------------------------- counting reports

  /** The stubs reported of `p`. */
  function StubsOf(events: seq<Event>, p: ProxyId): nat {
    if events == [] then 0
    else (if events[0].Stub? && events[0].proxy == p then 1 else 0) + StubsOf(events[1..], p)
  }

  /** The 429s reported of `p`. */
  function LimitsOf(events: seq<Event>, p: ProxyId): nat {
    if events == [] then 0
    else (if events[0].RateLimited? && events[0].proxy == p then 1 else 0) + LimitsOf(events[1..], p)
  }

  predicate FailedOn(events: seq<Event>, p: ProxyId) {
    exists i :: 0 <= i < |events| && events[i].Failure? && events[i].proxy == p
  }

  /** Until when `p` is parked, having `limited` 429s to its name and being parked until `until`: as the
      latest of its first two 429s says. */
  function ParkedBy(events: seq<Event>, p: ProxyId, limited: nat, until: real): real {
    if events == [] then until
    else
      var e := events[0];
      if e.RateLimited? && e.proxy == p then
        ParkedBy(events[1..], p, limited + 1, if limited < 2 then e.at + e.seconds else until)
      else ParkedBy(events[1..], p, limited, until)
  }

  predicate NoInstall(events: seq<Event>) {
    forall i :: 0 <= i < |events| ==> !events[i].Install?
  }

  predicate Report(e: Event) {
    e.Failure? || e.Stub? || e.RateLimited?
  }

  /** Every field of a proxy, by what was reported of it: its strikes are counted one by one, its park
      follows its latest 429 that did not evict it, and nothing else, least of all a report on another
      proxy, touches it. */
  lemma {:induction false} FieldsFromHistory(start: Run, events: seq<Event>, end: Run, p: ProxyId)
    requires Reaches(start, events, end) && NoInstall(events) && p in start.rotator.info
    ensures p in end.rotator.info
    ensures var was, now := start.rotator.info[p], end.rotator.info[p];
            && now.stubs == was.stubs + StubsOf(events, p) && now.limited == was.limited + LimitsOf(events, p)
            && now.parkedUntil == ParkedBy(events, p, was.limited, was.parkedUntil)
            && now.url == was.url && now.score == was.score && now.validatedAt == was.validatedAt
    decreases |events|
  {
    if events != [] {
      FieldsFromHistory(Step(start, events[0]), events[1..], end, p);
    }
  }

  // ---------------------------------------------------------------- membership

  lemma {:induction false} OthersStay(pool: seq<ProxyId>, info: map<ProxyId, Info>, target: Info, p: ProxyId)
    requires p in pool && p in info && info[p] != target
    ensures p in RemoveEqual(pool, info, target)
  {
    if !(pool[0] in info && info[pool[0]] == target) && pool[0] != p {
      OthersStay(pool[1..], info, target, p);
    }
  }

  /** Reports on other proxies are on ones with other URLs, as long as they are of the installed list. */
  ghost predicate OwnUrl(r: Rotator, events: seq<Event>, p: ProxyId) {
    && p in r.info
    && forall i :: 0 <= i < |events| && Report(events[i]) && events[i].proxy != p ==>
         events[i].proxy in r.info && r.info[events[i].proxy].url != r.info[p].url
  }

  /** A report on a proxy with another URL leaves a member in. */
  lemma OtherStruck(r: Rotator, e: Event, p: ProxyId)
    requires Report(e) && e.proxy in r.info && p in r.proxies && p in r.info
    requires e.proxy != p && r.info[e.proxy].url != r.info[p].url
    ensures e.Failure? ==> p in EvictStep(r, e.proxy).proxies
    ensures e.Stub? ==> p in StubStep(r, e.proxy).proxies
    ensures e.RateLimited? ==> p in RateLimitedStep(r, e.proxy, e.at + e.seconds).proxies
  {
    var i := r.info[e.proxy];
    var struck := if e.Stub? then i.(stubs := i.stubs + 1)
                  else if e.RateLimited? then i.(limited := i.limited + 1) else i;
    var info := r.info[e.proxy := struck];
    assert e.Failure? ==> info == r.info;
    assert info[p] == r.info[p];
    OthersStay(r.proxies, info, struck, p);
  }

  /** One event and a member: it leaves on a failure or a third strike of its own, and on nothing else. */
  lemma MemberStep(run: Run, e: Event, p: ProxyId)
    requires Inv(run) && Enabled(run, e) && !e.Install? && p in run.rotator.proxies
    requires Report(e) && e.proxy != p ==> run.rotator.info[e.proxy].url != run.rotator.info[p].url
    ensures p in Step(run, e).rotator.proxies <==>
              !( Report(e) && e.proxy == p
                 && (e.Failure? || (e.Stub? && run.rotator.info[p].stubs + 1 >= 3)
                     || (e.RateLimited? && run.rotator.info[p].limited + 1 >= 3)))
  {
    var r := run.rotator;
    if Report(e) {
      if e.proxy == p {
        EvictsExactly(run, e);
      } else {
        OtherStruck(r, e, p);
      }
    }
  }

  lemma UrlsKept(run: Run, e: Event, rest: seq<Event>, p: ProxyId)
    requires Enabled(run, e) && !e.Install? && OwnUrl(run.rotator, [e] + rest, p)
    ensures OwnUrl(Step(run, e).rotator, rest, p)
  {
    forall i | 0 <= i < |rest| && Report(rest[i]) && rest[i].proxy != p
      ensures var info := Step(run, e).rotator.info;
              p in info && rest[i].proxy in info && info[rest[i].proxy].url != info[p].url
    {
      assert ([e] + rest)[i + 1] == rest[i];
    }
  }

  /** Membership, by what was reported: a member that had been told of a stubs and b 429s when it was
      installed is in the pool, any number of events later, if and only if it was never reported dead
      and its stubs and its 429s, each counted from a and from b, are fewer than three. */
  lemma {:induction false} MembershipFromHistory(start: Run, events: seq<Event>, end: Run, p: ProxyId)
    requires Inv(start) && Reaches(start, events, end) && NoInstall(events)
    requires p in start.rotator.proxies && OwnUrl(start.rotator, events, p)
    ensures var was := start.rotator.info[p];
            p in end.rotator.proxies <==>
              && !FailedOn(events, p)
              && was.stubs + StubsOf(events, p) < 3 && was.limited + LimitsOf(events, p) < 3
    decreases |events|
  {
    if events != [] {
      var e, rest := events[0], events[1..];
      var next := Step(start, e);
      assert events == [e] + rest;
      InvStep(start, e);
      MemberStep(start, e, p);
      UrlsKept(start, e, rest, p);
      FailedOnSplit(e, rest, p);
      if p in next.rotator.proxies {
        MembershipFromHistory(next, rest, end, p);
      } else {
        EvictedStaysOut(next, rest, end, p);
      }
    }
  }

  lemma FailedOnSplit(e: Event, rest: seq<Event>, p: ProxyId)
    ensures FailedOn([e] + rest, p) <==> (e.Failure? && e.proxy == p) || FailedOn(rest, p)
  {
    var events := [e] + rest;
    if e.Failure? && e.proxy == p {
      assert events[0] == e;
    }
    if i :| 0 <= i < |rest| && rest[i].Failure? && rest[i].proxy == p {
      assert events[i + 1] == rest[i];
    }
    if i :| 0 < i < |events| && events[i].Failure? && events[i].proxy == p {
      assert rest[i - 1] == events[i];
    }
  }

  lemma {:induction false} SameMembers<T>(a: seq<T>, b: seq<T>)
    requires Sub(a, b) && Distinct(b) && forall x :: x in b ==> x in a
    ensures a == b
    decreases |b|
  {
    if b != [] {
      if a != [] && a[0] == b[0] {
        forall x | x in b[1..]
          ensures x in a[1..]
        {
          var j :| 1 <= j < |b| && b[j] == x;
          assert x in a && x != b[0];
        }
        SameMembers(a[1..], b[1..]);
        assert a == [a[0]] + a[1..] && b == [b[0]] + b[1..];
      } else {
        assert b[0] in b && b[0] !in b[1..];
        SubLength(a, b[1..]);
      }
    }
  }

  lemma {:induction false} OnlyShrinks(start: Run, events: seq<Event>, end: Run)
    requires Inv(start) && Reaches(start, events, end) && NoInstall(events)
    ensures Inv(end) && Sub(end.rotator.proxies, start.rotator.proxies)
    decreases |events|
  {
    if events == [] {
      SubSelf(start.rotator.proxies);
    } else {
      var next := Step(start, events[0]);
      InvStep(start, events[0]);
      OnlyShrinks(next, events[1..], end);
      SubTrans(end.rotator.proxies, next.rotator.proxies, start.rotator.proxies);
    }
  }

  /** The members of `pool` that the reports have left in. */
  function Survivors(pool: seq<ProxyId>, info: map<ProxyId, Info>, events: seq<Event>): set<ProxyId> {
    set p | p in pool && p in info && !FailedOn(events, p)
            && info[p].stubs + StubsOf(events, p) < 3 && info[p].limited + LimitsOf(events, p) < 3
  }

  lemma MembersOwnUrls(run: Run, events: seq<Event>, p: ProxyId)
    requires Inv(run) && p in run.rotator.proxies
    requires forall i :: 0 <= i < |events| && Report(events[i]) ==> events[i].proxy in run.rotator.proxies
    ensures OwnUrl(run.rotator, events, p)
  {}

  /** The whole pool, by what was reported since it was installed: the installed list, in its order, less
      those reported dead or three times of one kind. */
  lemma PoolFromHistory(start: Run, events: seq<Event>, end: Run)
    requires Inv(start) && Reaches(start, events, end) && NoInstall(events)
    requires forall i :: 0 <= i < |events| && Report(events[i]) ==> events[i].proxy in start.rotator.proxies
    ensures end.rotator.proxies
         == Keep(start.rotator.proxies, Survivors(start.rotator.proxies, start.rotator.info, events))
  {
    var before, after := start.rotator.proxies, end.rotator.proxies;
    var left := Survivors(before, start.rotator.info, events);
    OnlyShrinks(start, events, end);
    SubLength(after, before);
    forall p | p in before
      ensures p in after <==> p in left
    {
      MembersOwnUrls(start, events, p);
      MembershipFromHistory(start, events, end, p);
    }
    KeepAll(after, left);
    KeepMono(after, before, left, left);
    KeepSub(before, left);
    SubDistinct(Keep(before, left), before);
    SameMembers(after, Keep(before, left));
  }

  // ---------------------------------------------------------------- picks

  /** Who may be picked, by what was reported: a member whose latest park, if any, is over. */
  lemma EligibleFromHistory(start: Run, events: seq<Event>, end: Run, p: ProxyId, now: real)
    requires Inv(start) && Reaches(start, events, end) && NoInstall(events)
    requires p in start.rotator.proxies && OwnUrl(start.rotator, events, p)
    ensures var was := start.rotator.info[p];
            p in Eligible(end.rotator, now) <==>
              && !FailedOn(events, p)
              && was.stubs + StubsOf(events, p) < 3 && was.limited + LimitsOf(events, p) < 3
              && ParkedBy(events, p, was.limited, was.parkedUntil) <= now
  {
    MembershipFromHistory(start, events, end, p);
    FieldsFromHistory(start, events, end, p);
    KeepSub(end.rotator.proxies, Usable(end.rotator, now));
  }

  /** After an install the pool is the installed list, in its order; an installed object has the fields it
      was installed with, and every other proxy the ones it had. */
  lemma InstallExact(run: Run, e: Event, p: ProxyId)
    requires Enabled(run, e) && e.Install?
    ensures var r := Step(run, e).rotator;
            && r.proxies == e.pool && Step(run, e).picks == run.picks
            && (p in r.info <==> p in run.rotator.info || p in e.objects)
            && (p in e.objects ==> r.info[p] == e.objects[p])
            && (p in run.rotator.info && p !in e.objects ==> r.info[p] == run.rotator.info[p])
  {}

  /** After a 429 that does not evict, the next pick goes by the shares the eligible members then have,
      whatever parks have ended: a draw r in (0, total] returns the i-th of them exactly when r lies
      between the scores before it and the scores up to it. */
  lemma LimitReweighs(run: Run, report: Event, pick: Event, i: nat)
    requires Inv(run) && Enabled(run, report) && report.RateLimited? && run.rotator.info[report.proxy].limited < 2
    requires Enabled(Step(run, report), pick) && pick.Pick?
    requires i < |Eligible(Step(run, report).rotator, pick.at)| && pick.draw > 0.0
    ensures var r := Step(run, report).rotator;
            var pool := Eligible(r, pick.at);
            && (forall p :: p in pool ==> p in r.info)
            && (Sum(Scores(pool, r.info)) > 0.0 ==>
                  (PickStep(r, pick.at, pick.draw).1 == Some(pool[i]) <==>
                     Sum(Scores(pool, r.info)[..i]) < pick.draw <= Sum(Scores(pool, r.info)[..i + 1])))
  {
    InvStep(run, report);
    var r := Step(run, report).rotator;
    KeepSub(r.proxies, Usable(r, pick.at));
    if Sum(Scores(Eligible(r, pick.at), r.info)) > 0.0 {
      PickIsWeighted(Step(run, report), pick, i);
    }
  }

  /** Nothing to weigh by and nobody parked: the picks go round from `index` on. */
  ghost predicate GoesRound(run: Run, pool: seq<ProxyId>, index: nat) {
    var r := run.rotator;
    && r.proxies == pool != [] && r.weightPoolLen == |pool| && r.totalWeight == 0.0 && r.index == index
    && forall p :: p in pool ==> p in r.info && r.info[p].parkedUntil <= run.clock
  }

  function Rounds(pool: seq<ProxyId>, index: nat, n: nat): seq<Option<ProxyId>>
    requires pool != []
    decreases n
  {
    if n == 0 then [] else [Some(pool[index % |pool|])] + Rounds(pool, index + 1, n - 1)
  }

  lemma {:induction false} RoundAt(pool: seq<ProxyId>, index: nat, n: nat, k: nat)
    requires pool != [] && k < n
    ensures |Rounds(pool, index, n)| == n && Rounds(pool, index, n)[k] == Some(pool[(index + k) % |pool|])
    decreases n
  {
    if k > 0 {
      RoundAt(pool, index + 1, n - 1, k - 1);
    } else if n > 1 {
      RoundAt(pool, index + 1, n - 1, 0);
    }
  }

  lemma RoundStep(run: Run, e: Event, pool: seq<ProxyId>, index: nat)
    requires GoesRound(run, pool, index) && Enabled(run, e) && e.Pick?
    ensures GoesRound(Step(run, e), pool, index + 1)
    ensures Step(run, e).picks == run.picks + [Some(pool[index % |pool|])]
  {
    KeepAll(pool, Usable(run.rotator, e.at));
  }

  lemma {:induction false} RoundsOfPicks(start: Run, events: seq<Event>, end: Run, pool: seq<ProxyId>, index: nat)
    requires GoesRound(start, pool, index) && Reaches(start, events, end)
    requires forall i :: 0 <= i < |events| ==> events[i].Pick?
    ensures end.picks == start.picks + Rounds(pool, index, |events|)
    decreases |events|
  {
    if events != [] {
      RoundStep(start, events[0], pool, index);
      RoundsOfPicks(Step(start, events[0]), events[1..], end, pool, index + 1);
    }
  }

  lemma {:induction false} ZeroSum(scores: seq<real>)
    requires forall i :: 0 <= i < |scores| ==> scores[i] == 0.0
    ensures Sum(scores) == 0.0
  {
    if scores != [] {
      ZeroSum(scores[..|scores| - 1]);
    }
  }

  lemma RoundsFromZero(pool: seq<ProxyId>, n: nat)
    requires pool != []
    ensures Rounds(pool, 0, n) == seq(n, k requires 0 <= k => Some(pool[k % |pool|]))
  {
    forall k | 0 <= k < n
      ensures |Rounds(pool, 0, n)| == n && Rounds(pool, 0, n)[k] == Some(pool[k % |pool|])
    {
      RoundAt(pool, 0, n, k);
    }
  }

  lemma ZeroPool(run: Run, e: Event)
    requires Enabled(run, e) && e.Install? && e.pool != []
    requires forall p :: p in e.pool ==>
               var i := (run.rotator.info + e.objects)[p]; i.score == 0.0 && i.parkedUntil <= e.at
    ensures GoesRound(Step(run, e), e.pool, 0) && Step(run, e).picks == run.picks
  {
    ZeroSum(Scores(e.pool, run.rotator.info + e.objects));
  }

  /** Round robin: after an install of proxies that all score 0 and are not parked, the k-th pick is the
      k-th of the list, over and over, in list order from its start. */
  lemma RoundRobin(run: Run, install: Event, events: seq<Event>, end: Run)
    requires Enabled(run, install) && install.Install? && install.pool != []
    requires forall p :: p in install.pool ==>
               var i := (run.rotator.info + install.objects)[p]; i.score == 0.0 && i.parkedUntil <= install.at
    requires Reaches(Step(run, install), events, end) && forall i :: 0 <= i < |events| ==> events[i].Pick?
    ensures end.picks == run.picks + seq(|events|, k requires 0 <= k => Some(install.pool[k % |install.pool|]))
  {
    ZeroPool(run, install);
    RoundsOfPicks(Step(run, install), events, end, install.pool, 0);
    RoundsFromZero(install.pool, |events|);
  }
}
