/** Weighted proxy selection and eviction of collector/proxy/rotator.py.

    A `ProxyId` is a reference to a proxy object and `info` the objects' fields, so a worker that
    still holds an evicted proxy reports on the same object. `Run` adds what the selection weights
    were last computed for, and which proxies were handed out. */
module Rotation {
  import opened Prelude
  import opened Subsequences

  const MAX_429_EVICTIONS := 3
  const MAX_STUB_EVICTIONS := 3

  type ProxyId = nat

  /** The fields selection and eviction read; `validatedAt` stands for the other fields that
      equality of two proxy objects compares. */
  datatype Info = Info(
    url: string,
    score: real,
    parkedUntil: real,
    limited: nat,
    stubs: nat,
    validatedAt: real)

  datatype Rotator = Rotator(
    proxies: seq<ProxyId>,
    info: map<ProxyId, Info>,
    cumWeights: seq<real>,
    totalWeight: real,
    weightPoolLen: nat,
    index: nat)

  datatype Event =
    | Install(at: real, pool: seq<ProxyId>, objects: map<ProxyId, Info>)
    | Pick(at: real, draw: real)
    | Failure(at: real, proxy: ProxyId)
    | Stub(at: real, proxy: ProxyId)
    | RateLimited(at: real, proxy: ProxyId, seconds: real)

  datatype Run = Run(
    rotator: Rotator,
    clock: real,
    weighed: seq<ProxyId>,
    weighedAt: real,
    picks: seq<Option<ProxyId>>)

  // ---------------------------------------------------------------- weights

  function Sum(scores: seq<real>): real {
    if scores == [] then 0.0 else Sum(scores[..|scores| - 1]) + scores[|scores| - 1]
  }

  function PrefixSums(scores: seq<real>): (sums: seq<real>)
    ensures |sums| == |scores|
  {
    if scores == [] then [] else PrefixSums(scores[..|scores| - 1]) + [Sum(scores)]
  }

  /** `bisect_left`: the first position whose cumulative weight reaches `r`. */
  function BisectLeft(cum: seq<real>, r: real): (i: nat)
    ensures i <= |cum|
    ensures i < |cum| ==> r <= cum[i]
    ensures forall j :: 0 <= j < i ==> cum[j] < r
  {
    if cum == [] || r <= cum[0] then 0
    else
      assert forall j :: 1 <= j < |cum| ==> cum[j] == cum[1..][j - 1];
      1 + BisectLeft(cum[1..], r)
  }

  predicate NonNegative(scores: seq<real>) {
    forall i :: 0 <= i < |scores| ==> 0.0 <= scores[i]
  }

  lemma {:induction false} PrefixSumAt(scores: seq<real>, i: nat)
    requires i < |scores|
    ensures PrefixSums(scores)[i] == Sum(scores[..i + 1])
  {
    var n := |scores| - 1;
    if i < n {
      PrefixSumAt(scores[..n], i);
      assert scores[..n][..i + 1] == scores[..i + 1];
    } else {
      assert scores[..i + 1] == scores;
    }
  }

  lemma {:induction false} SumGrows(scores: seq<real>, i: nat, j: nat)
    requires NonNegative(scores) && i <= j <= |scores|
    ensures 0.0 <= Sum(scores[..i]) <= Sum(scores[..j])
    decreases j
  {
    if 0 < j {
      assert scores[..j][..j - 1] == scores[..j - 1];
      if i < j {
        SumGrows(scores, i, j - 1);
      } else {
        SumGrows(scores, i - 1, j - 1);
      }
    }
  }

  /** Selection is a partition: a draw r in (0, total] picks member i exactly when r lies between
      the weight before it and the weight up to it, and the index is in range without clamping. */
  lemma SelectionPartition(scores: seq<real>, r: real, i: nat)
    requires NonNegative(scores) && 0.0 < r <= Sum(scores)
    ensures BisectLeft(PrefixSums(scores), r) < |scores|
    ensures i < |scores| ==>
              (BisectLeft(PrefixSums(scores), r) == i <==>
                 Sum(scores[..i]) < r <= Sum(scores[..i + 1]))
  {
    var cum := PrefixSums(scores);
    var k := BisectLeft(cum, r);
    InRange(scores, r);
    PrefixSumAt(scores, k);
    if k > 0 {
      PrefixSumAt(scores, k - 1);
      assert cum[k - 1] < r;
    } else {
      assert scores[..0] == [];
    }
    if i < k {
      SumGrows(scores, i + 1, k);
    } else if k < i < |scores| {
      SumGrows(scores, k + 1, i);
    }
  }

  lemma InRange(scores: seq<real>, r: real)
    requires NonNegative(scores) && scores != [] && r <= Sum(scores)
    ensures BisectLeft(PrefixSums(scores), r) < |scores|
  {
    assert PrefixSums(scores)[|scores| - 1] == Sum(scores);
  }

  // ---------------------------------------------------------------- the steps of the source

  predicate Known(r: Rotator) {
    forall p :: p in r.proxies ==> p in r.info
  }

  function Usable(r: Rotator, now: real): set<ProxyId> {
    set p | p in r.info && r.info[p].parkedUntil <= now
  }

  /** The members selection may choose from: those not parked by a rate limit. */
  function Eligible(r: Rotator, now: real): seq<ProxyId> {
    Keep(r.proxies, Usable(r, now))
  }

  function Scores(pool: seq<ProxyId>, info: map<ProxyId, Info>): seq<real>
    requires forall p :: p in pool ==> p in info
  {
    seq(|pool|, i requires 0 <= i < |pool| => info[pool[i]].score)
  }

  function Weigh(r: Rotator, pool: seq<ProxyId>): Rotator
    requires forall p :: p in pool ==> p in r.info
  {
    var scores := Scores(pool, r.info);
    r.(cumWeights := PrefixSums(scores), totalWeight := Sum(scores), weightPoolLen := |pool|)
  }

  function InstallStep(r: Rotator, pool: seq<ProxyId>, objects: map<ProxyId, Info>): Rotator
    requires forall p :: p in pool ==> p in r.info || p in objects
  {
    Weigh(r.(proxies := pool, info := r.info + objects, index := 0), pool)
  }

  /** Recompute the weights if their number is not the number of eligible members. */
  function Reweigh(r: Rotator, now: real): Rotator
    requires Known(r)
  {
    KeepSub(r.proxies, Usable(r, now));
    var pool := Eligible(r, now);
    if pool == [] || |pool| == r.weightPoolLen then r else Weigh(r, pool)
  }

  function Choose(r: Rotator, pool: seq<ProxyId>, draw: real): (Rotator, ProxyId)
    requires pool != []
  {
    if r.totalWeight <= 0.0 then
      (r.(index := r.index + 1), pool[r.index % |pool|])
    else
      (r, pool[MinInt(BisectLeft(r.cumWeights, draw), |pool| - 1)])
  }

  function PickStep(r: Rotator, now: real, draw: real): (Rotator, Option<ProxyId>)
    requires Known(r)
  {
    var pool := Eligible(r, now);
    if pool == [] then (r, None)
    else
      var (r', p) := Choose(Reweigh(r, now), pool, draw);
      (r', Some(p))
  }

  /** `list.remove`: drop the first member whose fields all equal `target`'s. */
  function RemoveEqual(pool: seq<ProxyId>, info: map<ProxyId, Info>, target: Info): seq<ProxyId> {
    if pool == [] then []
    else if pool[0] in info && info[pool[0]] == target then pool[1..]
    else [pool[0]] + RemoveEqual(pool[1..], info, target)
  }

  function EvictStep(r: Rotator, p: ProxyId): Rotator
    requires p in r.info
  {
    r.(proxies := RemoveEqual(r.proxies, r.info, r.info[p]))
  }

  function StubStep(r: Rotator, p: ProxyId): Rotator
    requires p in r.info
  {
    var counted := r.(info := r.info[p := r.info[p].(stubs := r.info[p].stubs + 1)]);
    if counted.info[p].stubs >= MAX_STUB_EVICTIONS then EvictStep(counted, p) else counted
  }

  function RateLimitedStep(r: Rotator, p: ProxyId, until: real): Rotator
    requires p in r.info
  {
    var counted := r.(info := r.info[p := r.info[p].(limited := r.info[p].limited + 1)]);
    if counted.info[p].limited >= MAX_429_EVICTIONS then EvictStep(counted, p)
    else counted.(info := counted.info[p := counted.info[p].(parkedUntil := until)], weightPoolLen := 0)
  }

  // ---------------------------------------------------------------- runs

  /** What an installed list must be: distinct proxies with distinct URLs, as the source lists are
      deduplicated, fewer than three strikes each and no negative score. */
  predicate PoolOk(pool: seq<ProxyId>, info: map<ProxyId, Info>) {
    && Distinct(pool)
    && (forall p :: p in pool ==> p in info && info[p].limited < MAX_429_EVICTIONS
                                  && info[p].stubs < MAX_STUB_EVICTIONS && 0.0 <= info[p].score)
    && (forall p, q :: p in pool && q in pool && p != q ==> info[p].url != info[q].url)
  }

  predicate Enabled(run: Run, e: Event) {
    var r := run.rotator;
    && run.clock <= e.at
    && (e.Install? ==> PoolOk(e.pool, r.info + e.objects))
    && (e.Pick? ==> Known(r) && 0.0 <= e.draw
                    && (Reweigh(r, e.at).totalWeight > 0.0 ==> e.draw <= Reweigh(r, e.at).totalWeight))
    && (e.Failure? || e.Stub? || e.RateLimited? ==> e.proxy in r.info)
  }

  function Step(run: Run, e: Event): Run
    requires Enabled(run, e)
  {
    var r := run.rotator;
    match e
    case Install(now, pool, objects) =>
      run.(rotator := InstallStep(r, pool, objects), clock := now, weighed := pool, weighedAt := now)
    case Pick(now, draw) =>
      var (r', choice) := PickStep(r, now, draw);
      var pool := Eligible(r, now);
      var run' := run.(rotator := r', clock := now, picks := run.picks + [choice]);
      if pool == [] || |pool| == r.weightPoolLen then run'
      else run'.(weighed := pool, weighedAt := now)
    case Failure(now, p) => run.(rotator := EvictStep(r, p), clock := now)
    case Stub(now, p) => run.(rotator := StubStep(r, p), clock := now)
    case RateLimited(now, p, seconds) => run.(rotator := RateLimitedStep(r, p, now + seconds), clock := now)
  }

  function Begin(now: real): Run {
    Run(Rotator([], map[], [], 0.0, 0, 0), now, [], now, [])
  }

  ghost predicate Reaches(start: Run, events: seq<Event>, end: Run)
    decreases |events|
  {
    if events == [] then end == start
    else Enabled(start, events[0]) && Reaches(Step(start, events[0]), events[1..], end)
  }

  // ---------------------------------------------------------------- what every step keeps

  /** While the weights are trusted, they are the prefix sums of the pool they were computed for,
      members that were weighed are still in that order, and the others were parked then. */
  ghost predicate CacheOk(run: Run) {
    var r := run.rotator;
    r.weightPoolLen != 0 ==>
      && |run.weighed| == r.weightPoolLen
      && (forall p :: p in run.weighed ==> p in r.info && 0.0 <= r.info[p].score)
      && r.cumWeights == PrefixSums(Scores(run.weighed, r.info))
      && r.totalWeight == Sum(Scores(run.weighed, r.info))
      && run.weighedAt <= run.clock
      && Sub(Keep(r.proxies, Members(run.weighed)), run.weighed)
      && (forall p :: p in r.proxies && p !in run.weighed ==>
            p in r.info && r.info[p].parkedUntil > run.weighedAt)
  }

  function Members(pool: seq<ProxyId>): set<ProxyId> {
    set p | p in pool
  }

  ghost predicate Inv(run: Run) {
    PoolOk(run.rotator.proxies, run.rotator.info) && CacheOk(run)
  }

  lemma {:induction false} RemoveSub(pool: seq<ProxyId>, info: map<ProxyId, Info>, target: Info)
    ensures Sub(RemoveEqual(pool, info, target), pool)
  {
    if pool != [] {
      if pool[0] in info && info[pool[0]] == target {
        SubSelf(pool[1..]);
        SubLonger(pool[1..], pool);
      } else {
        RemoveSub(pool[1..], info, target);
      }
    }
  }

  /** Removing a member of a pool with distinct URLs removes exactly that member. */
  lemma {:induction false} RemoveExact(pool: seq<ProxyId>, info: map<ProxyId, Info>, p: ProxyId)
    requires Distinct(pool) && forall q :: q in pool ==> q in info
    requires forall q, s :: q in pool && s in pool && q != s ==> info[q].url != info[s].url
    requires p in pool
    ensures forall q :: q in RemoveEqual(pool, info, info[p]) <==> q in pool && q != p
  {
    if pool[0] == p {
      assert forall j :: 0 < j < |pool| ==> pool[j] == pool[1..][j - 1];
    } else {
      assert pool == [pool[0]] + pool[1..];
      assert info[pool[0]].url != info[p].url;
      RemoveExact(pool[1..], info, p);
    }
  }

  /** Losing members keeps the pool well formed and the weights as good as they were. */
  lemma ShrinkKeeps(run: Run, run': Run)
    requires Inv(run)
    requires run' == run.(rotator := run.rotator.(proxies := run'.rotator.proxies), clock := run'.clock)
    requires run.clock <= run'.clock && Sub(run'.rotator.proxies, run.rotator.proxies)
    ensures Inv(run')
  {
    var before, after := run.rotator.proxies, run'.rotator.proxies;
    SubLength(after, before);
    SubDistinct(after, before);
    KeepMono(after, before, Members(run.weighed), Members(run.weighed));
    if run.rotator.weightPoolLen != 0 {
      SubTrans(Keep(after, Members(run.weighed)), Keep(before, Members(run.weighed)), run.weighed);
    }
  }

  /** Counting a strike keeps everything once a member with three strikes is out. */
  lemma StrikeKeeps(run: Run, p: ProxyId, i: Info, left: seq<ProxyId>, now: real)
    requires Inv(run) && p in run.rotator.info && run.clock <= now
    requires var was := run.rotator.info[p];
             i.url == was.url && i.score == was.score && i.parkedUntil == was.parkedUntil
    requires Sub(left, run.rotator.proxies)
    requires p in left ==> i.limited < MAX_429_EVICTIONS && i.stubs < MAX_STUB_EVICTIONS
    ensures Inv(run.(rotator := run.rotator.(proxies := left, info := run.rotator.info[p := i]), clock := now))
  {
    var r := run.rotator;
    ShrinkKeeps(run, run.(rotator := r.(proxies := left), clock := now));
    if r.weightPoolLen != 0 {
      assert Scores(run.weighed, r.info[p := i]) == Scores(run.weighed, r.info);
    }
  }

  lemma InstallKeeps(run: Run, e: Event)
    requires Enabled(run, e) && e.Install?
    ensures Inv(Step(run, e))
  {
    KeepAll(e.pool, Members(e.pool));
    SubSelf(e.pool);
  }

  lemma PickKeeps(run: Run, e: Event)
    requires Inv(run) && Enabled(run, e) && e.Pick?
    ensures Inv(Step(run, e))
    ensures Step(run, e).rotator.proxies == run.rotator.proxies
  {
    var r := run.rotator;
    var pool := Eligible(r, e.at);
    KeepSub(r.proxies, Usable(r, e.at));
    SubSelf(r.proxies);
    KeepMono(r.proxies, r.proxies, Members(pool), Usable(r, e.at));
  }

  /** The pool after a strike that may evict: a struck member with three strikes is gone. */
  lemma StruckOut(r: Rotator, p: ProxyId, i: Info)
    requires PoolOk(r.proxies, r.info) && p in r.info && i.url == r.info[p].url
    ensures var left := RemoveEqual(r.proxies, r.info[p := i], i);
            Sub(left, r.proxies) && p !in left
  {
    var info' := r.info[p := i];
    RemoveSub(r.proxies, info', i);
    SubLength(RemoveEqual(r.proxies, info', i), r.proxies);
    if p in r.proxies {
      RemoveExact(r.proxies, info', p);
    }
  }

  /** What a stub leaves of the pool and of the proxy it was reported of. */
  lemma StubbedBy(r: Rotator, p: ProxyId)
    requires PoolOk(r.proxies, r.info) && p in r.info
    ensures var was, r' := r.info[p], StubStep(r, p);
            && r' == r.(proxies := r'.proxies, info := r.info[p := was.(stubs := was.stubs + 1)])
            && Sub(r'.proxies, r.proxies)
            && (was.stubs < 2 ==> r'.proxies == r.proxies) && (was.stubs >= 2 ==> p !in r'.proxies)
  {
    StruckOut(r, p, r.info[p].(stubs := r.info[p].stubs + 1));
    SubSelf(r.proxies);
  }

  lemma StubKeeps(run: Run, e: Event)
    requires Inv(run) && Enabled(run, e) && e.Stub?
    ensures Inv(Step(run, e)) && Sub(Step(run, e).rotator.proxies, run.rotator.proxies)
  {
    var r := run.rotator;
    StubbedBy(r, e.proxy);
    StrikeKeeps(run, e.proxy, r.info[e.proxy].(stubs := r.info[e.proxy].stubs + 1), Step(run, e).rotator.proxies, e.at);
  }

  lemma RateLimitedKeeps(run: Run, e: Event)
    requires Inv(run) && Enabled(run, e) && e.RateLimited?
    ensures Inv(Step(run, e)) && Sub(Step(run, e).rotator.proxies, run.rotator.proxies)
  {
    var r := run.rotator;
    var i := r.info[e.proxy].(limited := r.info[e.proxy].limited + 1);
    StruckOut(r, e.proxy, i);
    SubSelf(r.proxies);
    StrikeKeeps(run, e.proxy, i, Step(run, e).rotator.proxies, e.at);
  }

  /** What a 429 leaves of the pool and of the proxy it was reported of. */
  lemma LimitedBy(r: Rotator, p: ProxyId, until: real)
    requires PoolOk(r.proxies, r.info) && p in r.info
    ensures var was, r' := r.info[p], RateLimitedStep(r, p, until);
            && (was.limited < 2 ==>
                  r'.proxies == r.proxies
                  && r'.info == r.info[p := was.(limited := was.limited + 1, parkedUntil := until)])
            && (was.limited >= 2 ==>
                  p !in r'.proxies && r'.info == r.info[p := was.(limited := was.limited + 1)])
  {
    StruckOut(r, p, r.info[p].(limited := r.info[p].limited + 1));
  }

  lemma InvStep(run: Run, e: Event)
    requires Inv(run) && Enabled(run, e)
    ensures Inv(Step(run, e))
    ensures !e.Install? ==> Sub(Step(run, e).rotator.proxies, run.rotator.proxies)
  {
    var r := run.rotator;
    SubSelf(r.proxies);
    match e
    case Install(_, _, _) => InstallKeeps(run, e);
    case Pick(_, _) => PickKeeps(run, e);
    case Failure(_, p) =>
      RemoveSub(r.proxies, r.info, r.info[p]);
      ShrinkKeeps(run, Step(run, e));
    case Stub(_, _) => StubKeeps(run, e);
    case RateLimited(_, _, _) => RateLimitedKeeps(run, e);
  }

  lemma {:induction false} InvReaches(start: Run, events: seq<Event>, end: Run)
    requires Inv(start) && Reaches(start, events, end)
    ensures Inv(end)
    decreases |events|
  {
    if events != [] {
      InvStep(start, events[0]);
      InvReaches(Step(start, events[0]), events[1..], end);
    }
  }

  /** Pool invariant: after any sequence of installs, picks and reports, on members or on proxies
      long gone, the members have distinct URLs and fewer than three strikes of either kind. */
  lemma PoolInvariant(events: seq<Event>, now: real, end: Run)
    requires Reaches(Begin(now), events, end)
    ensures PoolOk(end.rotator.proxies, end.rotator.info)
  {
    InvReaches(Begin(now), events, end);
  }

  // ---------------------------------------------------------------- what a pick returns

  /** In every reachable state the weights a pick uses are as many as the eligible members, the
      bisect index needs no clamp, and the pick is a member whose rate limit has passed. */
  lemma PickIsUsable(run: Run, e: Event)
    requires Inv(run) && Enabled(run, e) && e.Pick?
    ensures var r := run.rotator;
            var pool := Eligible(r, e.at);
            var choice := PickStep(r, e.at, e.draw).1;
            && (choice == None <==> forall p :: p in r.proxies ==> r.info[p].parkedUntil > e.at)
            && (choice.Some? ==> choice.value in r.proxies && r.info[choice.value].parkedUntil <= e.at)
            && (pool != [] ==> |Reweigh(r, e.at).cumWeights| == |pool|)
            && (pool != [] && Reweigh(r, e.at).totalWeight > 0.0 ==>
                  BisectLeft(Reweigh(r, e.at).cumWeights, e.draw) < |pool|)
  {
    var r := run.rotator;
    var pool := Eligible(r, e.at);
    KeepSub(r.proxies, Usable(r, e.at));
    if pool != [] {
      if Reweigh(r, e.at).totalWeight > 0.0 {
        InRange(Scores(if |pool| == r.weightPoolLen then run.weighed else pool, r.info), e.draw);
      }
      assert PickStep(r, e.at, e.draw).1.value in pool;
    }
    forall p | p in r.proxies && r.info[p].parkedUntil <= e.at
      ensures pool != []
    {
      assert p in pool;
    }
  }

  /** The cache is keyed by pool length alone. On a hit it is exact if and only if every eligible
      member was weighed, and so whenever no member's park ended since the last weighing. */
  lemma CacheHitExact(run: Run, now: real)
    requires Inv(run) && run.clock <= now
    requires Eligible(run.rotator, now) != [] && |Eligible(run.rotator, now)| == run.rotator.weightPoolLen
    ensures var r := run.rotator;
            var pool := Eligible(r, now);
            && (run.weighed == pool <==> forall p :: p in pool ==> p in run.weighed)
            && ((forall p :: p in r.proxies ==> !(run.weighedAt < r.info[p].parkedUntil <= now)) ==>
                  run.weighed == pool)
            && (run.weighed == pool ==>
                  (forall p :: p in pool ==> p in r.info)
                  && r.cumWeights == PrefixSums(Scores(pool, r.info))
                  && r.totalWeight == Sum(Scores(pool, r.info)))
  {
    var r := run.rotator;
    var pool := Eligible(r, now);
    KeepSub(r.proxies, Usable(r, now));
    if forall p :: p in pool ==> p in run.weighed {
      SubSelf(r.proxies);
      KeepMono(r.proxies, r.proxies, Usable(r, now), Members(run.weighed));
      SubTrans(pool, Keep(r.proxies, Members(run.weighed)), run.weighed);
      SubLength(pool, run.weighed);
    }
  }

  /** Weighted choice: if no member's park ended since the last weighing, or the weights are
      computed afresh, a draw r in (0, total] returns the i-th eligible member exactly when r lies
      between the scores before it and the scores up to it. */
  lemma PickIsWeighted(run: Run, e: Event, i: nat)
    requires Inv(run) && Enabled(run, e) && e.Pick?
    requires i < |Eligible(run.rotator, e.at)| && e.draw > 0.0
    requires Reweigh(run.rotator, e.at).totalWeight > 0.0
    requires |Eligible(run.rotator, e.at)| == run.rotator.weightPoolLen ==>
               forall p :: p in run.rotator.proxies ==>
                 !(run.weighedAt < run.rotator.info[p].parkedUntil <= e.at)
    ensures var r := run.rotator;
            var pool := Eligible(r, e.at);
            && (forall p :: p in pool ==> p in r.info)
            && (PickStep(r, e.at, e.draw).1 == Some(pool[i]) <==>
                  var scores := Scores(pool, r.info);
                  Sum(scores[..i]) < e.draw <= Sum(scores[..i + 1]))
  {
    var r := run.rotator;
    var pool := Eligible(r, e.at);
    KeepSub(r.proxies, Usable(r, e.at));
    if |pool| == r.weightPoolLen {
      CacheHitExact(run, e.at);
    }
    var scores := Scores(pool, r.info);
    SelectionPartition(scores, e.draw, i);
    SubDistinct(pool, r.proxies);
    var k := BisectLeft(PrefixSums(scores), e.draw);
    assert PickStep(r, e.at, e.draw).1 == Some(pool[k]);
    assert k < i ==> pool[k] != pool[i];
    assert i < k ==> pool[i] != pool[k];
  }

  /** Three proxies; the second is parked until 10. */
  function StaleObjects(parkedUntil: real, limited: nat): map<ProxyId, Info> {
    map[0 := Info("a", 1.0, 0.0, 0, 0, 0.0),
        1 := Info("b", 2.0, parkedUntil, limited, 0, 0.0),
        2 := Info("c", 3.0, 0.0, 0, 0, 0.0)]
  }

  const INSTALLED := Run(
    Rotator([0, 1, 2], StaleObjects(0.0, 0), [1.0, 3.0, 6.0], 6.0, 3, 0), 0.0, [0, 1, 2], 0.0, [])
  const PARKED := Run(
    Rotator([0, 1, 2], StaleObjects(10.0, 1), [1.0, 3.0, 6.0], 6.0, 0, 0), 1.0, [0, 1, 2], 0.0, [])
  const PICKED := Run(
    Rotator([0, 1, 2], StaleObjects(10.0, 1), [1.0, 4.0], 4.0, 2, 0), 2.0, [0, 2], 2.0, [Some(0)])
  const EVICTED := Run(
    Rotator([1, 2], StaleObjects(10.0, 1), [1.0, 4.0], 4.0, 2, 0), 11.0, [0, 2], 2.0, [Some(0)])

  lemma SumOne(a: real)
    ensures Sum([a]) == a && PrefixSums([a]) == [a]
  {
    assert [a][..0] == [];
    assert Sum([]) == 0.0 && PrefixSums([]) == [];
  }

  lemma SumTwo(a: real, b: real)
    ensures Sum([a, b]) == a + b && PrefixSums([a, b]) == [a, a + b]
  {
    assert [a, b][..1] == [a];
    SumOne(a);
  }

  lemma SumThree(a: real, b: real, c: real)
    ensures Sum([a, b, c]) == a + b + c && PrefixSums([a, b, c]) == [a, a + b, a + b + c]
  {
    assert [a, b, c][..2] == [a, b];
    SumTwo(a, b);
  }

  lemma StaleInstalls(objects: map<ProxyId, Info>)
    requires objects == StaleObjects(0.0, 0)
    ensures var e := Install(0.0, [0, 1, 2], objects);
            Enabled(Begin(0.0), e) && Step(Begin(0.0), e) == INSTALLED
  {
    assert map[] + objects == objects;
    assert Scores([0, 1, 2], objects) == [1.0, 2.0, 3.0];
    SumThree(1.0, 2.0, 3.0);
  }

  lemma StaleParks()
    ensures var e := RateLimited(1.0, 1, 9.0);
            Enabled(INSTALLED, e) && Step(INSTALLED, e) == PARKED
  {}

  lemma StalePicks()
    ensures Enabled(PARKED, Pick(2.0, 0.0)) && Step(PARKED, Pick(2.0, 0.0)) == PICKED
  {
    var r := PARKED.rotator;
    assert Usable(r, 2.0) == {0, 2};
    assert Eligible(r, 2.0) == [0, 2] by {
      assert r.proxies[1..] == [1, 2] && [1, 2][1..] == [2] && [2][1..] == [];
    }
    assert Scores([0, 2], r.info) == [1.0, 3.0];
    SumTwo(1.0, 3.0);
  }

  lemma StaleEvicts()
    ensures Enabled(PICKED, Failure(11.0, 0)) && Step(PICKED, Failure(11.0, 0)) == EVICTED
  {
    assert PICKED.rotator.proxies[1..] == [1, 2];
  }

  lemma ReachesFirst(start: Run, e: Event, events: seq<Event>, end: Run)
    requires Enabled(start, e) && Reaches(Step(start, e), events, end)
    ensures Reaches(start, [e] + events, end)
  {
    assert ([e] + events)[1..] == events;
  }

  lemma StaleReaches() returns (events: seq<Event>)
    ensures Reaches(Begin(0.0), events, EVICTED)
  {
    StaleEvicts();
    ReachesFirst(PICKED, Failure(11.0, 0), [], EVICTED);
    StalePicks();
    ReachesFirst(PARKED, Pick(2.0, 0.0), [Failure(11.0, 0)] + [], EVICTED);
    StaleParks();
    events := [Pick(2.0, 0.0)] + ([Failure(11.0, 0)] + []);
    ReachesFirst(INSTALLED, RateLimited(1.0, 1, 9.0), events, EVICTED);
    var objects := StaleObjects(0.0, 0);
    StaleInstalls(objects);
    events := [RateLimited(1.0, 1, 9.0)] + events;
    ReachesFirst(Begin(0.0), Install(0.0, [0, 1, 2], objects), events, EVICTED);
    events := [Install(0.0, [0, 1, 2], objects)] + events;
  }

  /** Why the hypothesis is needed: a park that ends and an eviction leave as many members as were
      weighed, but different ones, and a draw inside the first one's share returns the second. */
  lemma StaleWeights() returns (events: seq<Event>)
    ensures Reaches(Begin(0.0), events, EVICTED) && Enabled(EVICTED, Pick(12.0, 1.5))
    ensures Eligible(EVICTED.rotator, 12.0) == [1, 2] && EVICTED.weighed == [0, 2]
    ensures 0.0 < 1.5 <= EVICTED.rotator.info[1].score
    ensures PickStep(EVICTED.rotator, 12.0, 1.5).1 == Some(2)
  {
    StalePick();
    events := StaleReaches();
  }

  lemma StalePick()
    ensures Enabled(EVICTED, Pick(12.0, 1.5))
    ensures Eligible(EVICTED.rotator, 12.0) == [1, 2]
    ensures PickStep(EVICTED.rotator, 12.0, 1.5).1 == Some(2)
  {
    var r := EVICTED.rotator;
    assert Usable(r, 12.0) == {0, 1, 2};
    KeepAll(r.proxies, Usable(r, 12.0));
    assert BisectLeft([1.0, 4.0], 1.5) == 1 by {
      assert [1.0, 4.0][1..] == [4.0];
    }
  }

  // ---------------------------------------------------------------- evictions are final

  /** A report that evicts: a dead proxy, a third stub or a third 429. */
  predicate Evicts(r: Rotator, e: Event)
    requires (e.Failure? || e.Stub? || e.RateLimited?) && e.proxy in r.info
  {
    || e.Failure?
    || (e.Stub? && r.info[e.proxy].stubs >= 2)
    || (e.RateLimited? && r.info[e.proxy].limited >= 2)
  }

  /** A dead-proxy report, a third 429 and a third stub each remove exactly the member reported; an
      earlier strike removes nobody. */
  lemma EvictsExactly(run: Run, e: Event)
    requires Inv(run) && Enabled(run, e)
    requires (e.Failure? || e.Stub? || e.RateLimited?) && e.proxy in run.rotator.proxies
    ensures forall q :: q in Step(run, e).rotator.proxies <==>
              q in run.rotator.proxies && (q == e.proxy ==> !Evicts(run.rotator, e))
  {
    var r := run.rotator;
    var p := e.proxy;
    var info' := if e.Stub? then r.info[p := r.info[p].(stubs := r.info[p].stubs + 1)]
                 else if e.RateLimited? then r.info[p := r.info[p].(limited := r.info[p].limited + 1)]
                 else r.info;
    RemoveExact(r.proxies, info', p);
  }

  /** A parked proxy stays parked at least as long as it was told, and is not picked before. */
  lemma {:induction false} ParkLasts(start: Run, events: seq<Event>, end: Run, p: ProxyId, until: real, pick: Event)
    requires Inv(start) && Reaches(start, events, end)
    requires p in start.rotator.info && start.rotator.info[p].parkedUntil >= until
    requires forall e :: e in events ==>
               (e.Install? ==> p !in e.objects) && (e.RateLimited? && e.proxy == p ==> e.at + e.seconds >= until)
    requires pick.Pick? && pick.at < until && Enabled(end, pick)
    ensures PickStep(end.rotator, pick.at, pick.draw).1 != Some(p)
    decreases |events|
  {
    if events == [] {
      PickIsUsable(end, pick);
    } else {
      InvStep(start, events[0]);
      ParkLasts(Step(start, events[0]), events[1..], end, p, until, pick);
    }
  }

  /** Once out, a proxy is not handed out again until a later install. */
  lemma {:induction false} EvictedStaysOut(start: Run, events: seq<Event>, end: Run, p: ProxyId)
    requires Inv(start) && Reaches(start, events, end) && p !in start.rotator.proxies
    requires forall e :: e in events ==> !e.Install?
    ensures p !in end.rotator.proxies
    ensures start.picks <= end.picks
    ensures forall k :: |start.picks| <= k < |end.picks| ==> end.picks[k] != Some(p)
    decreases |events|
  {
    if events != [] {
      var e := events[0];
      InvStep(start, e);
      SubLength(Step(start, e).rotator.proxies, start.rotator.proxies);
      if e.Pick? {
        PickIsUsable(start, e);
      }
      EvictedStaysOut(Step(start, e), events[1..], end, p);
    }
  }

  // ---------------------------------------------------------------- the class

  ghost predicate Reachable(run: Run) {
    exists now: real, events: seq<Event> :: Reaches(Begin(now), events, run)
  }

  lemma {:induction false} OneMore(start: Run, events: seq<Event>, mid: Run, e: Event)
    requires Reaches(start, events, mid) && Enabled(mid, e)
    ensures Reaches(start, events + [e], Step(mid, e))
    decreases |events|
  {
    if events == [] {
      assert events + [e] == [e] && [e][1..] == [];
    } else {
      assert (events + [e])[0] == events[0] && (events + [e])[1..] == events[1..] + [e];
      OneMore(Step(start, events[0]), events[1..], mid, e);
    }
  }

  lemma ReachableInv(run: Run)
    requires Reachable(run)
    ensures Inv(run)
  {
    var now, events :| Reaches(Begin(now), events, run);
    InvReaches(Begin(now), events, run);
  }

  lemma ReachableStep(run: Run, e: Event)
    requires Reachable(run) && Enabled(run, e)
    ensures Inv(run) && Reachable(Step(run, e))
  {
    ReachableInv(run);
    var now, events :| Reaches(Begin(now), events, run);
    OneMore(Begin(now), events, run, e);
  }

  /** The source's class; `run` is its history, which `Valid` says some schedule of calls leads to, so
      the lemmas above hold of every object. */
  class ProxyRotator {
    var proxies: seq<ProxyId>
    var info: map<ProxyId, Info>
    var cumWeights: seq<real>
    var totalWeight: real
    var weightPoolLen: nat
    var index: nat
    ghost var run: Run

    ghost function State(): Rotator
      reads this
    {
      Rotator(proxies, info, cumWeights, totalWeight, weightPoolLen, index)
    }

    ghost predicate Valid()
      reads this
    {
      run.rotator == State() && Reachable(run)
    }

    constructor (ghost now: real)
      ensures Valid() && run == Begin(now)
    {
      proxies, info, cumWeights := [], map[], [];
      totalWeight, weightPoolLen, index := 0.0, 0, 0;
      run := Begin(now);
      new;
      assert Reaches(run, [], run);
    }

    method RecomputeWeights(pool: seq<ProxyId>)
      requires forall p :: p in pool ==> p in info
      modifies this`cumWeights, this`totalWeight
      ensures cumWeights == PrefixSums(Scores(pool, info)) && totalWeight == Sum(Scores(pool, info))
    {
      ghost var scores := Scores(pool, info);
      cumWeights := [];
      var total := 0.0;
      for i := 0 to |pool|
        invariant cumWeights == PrefixSums(scores[..i]) && total == Sum(scores[..i])
      {
        assert scores[..i + 1][..i] == scores[..i];
        total := total + info[pool[i]].score;
        cumWeights := cumWeights + [total];
      }
      assert scores[..|pool|] == scores;
      totalWeight := total;
    }

    method SetPool(pool: seq<ProxyId>, objects: map<ProxyId, Info>, now: real)
      requires Valid() && Enabled(run, Install(now, pool, objects))
      modifies this
      ensures Valid() && run == Step(old(run), Install(now, pool, objects))
    {
      ReachableStep(run, Install(now, pool, objects));
      run := Step(run, Install(now, pool, objects));
      info := info + objects;
      proxies := pool;
      index := 0;
      weightPoolLen := |pool|;
      RecomputeWeights(pool);
    }

    /** The members whose rate limit has passed, in pool order. */
    method EligibleMembers(now: real) returns (pool: seq<ProxyId>)
      requires Known(State())
      ensures pool == Eligible(State(), now)
      ensures forall p :: p in pool ==> p in proxies && p in info
    {
      KeepSub(proxies, Usable(State(), now));
      pool := Keep(proxies, set p | p in info && info[p].parkedUntil <= now);
    }

    /** `_pick`: recompute the weights if the eligible members changed in number, then choose. */
    method ChooseUsable(now: real, draw: real) returns (choice: Option<ProxyId>)
      requires Known(State())
      modifies this`cumWeights, this`totalWeight, this`weightPoolLen, this`index
      ensures (State(), choice) == PickStep(old(State()), now, draw)
    {
      var pool := EligibleMembers(now);
      if pool == [] {
        return None;
      }
      if |pool| != weightPoolLen {
        RecomputeWeights(pool);
        weightPoolLen := |pool|;
      }
      if totalWeight <= 0.0 {
        choice := Some(pool[index % |pool|]);
        index := index + 1;
      } else {
        var i := BisectLeft(cumWeights, draw);
        choice := Some(pool[MinInt(i, |pool| - 1)]);
      }
    }

    method PickProxy(now: real, draw: real) returns (choice: Option<ProxyId>)
      requires Valid() && Enabled(run, Pick(now, draw))
      modifies this
      ensures Valid() && run == Step(old(run), Pick(now, draw))
      ensures run.picks == old(run.picks) + [choice]
    {
      ReachableStep(run, Pick(now, draw));
      run := Step(run, Pick(now, draw));
      choice := ChooseUsable(now, draw);
    }

    /** Remove the proxy's first equal from the pool, if there is one. */
    method Evict(p: ProxyId)
      requires p in info
      modifies this`proxies
      ensures State() == EvictStep(old(State()), p)
    {
      proxies := RemoveEqual(proxies, info, info[p]);
    }

    method ReportFailure(p: ProxyId, now: real)
      requires Valid() && Enabled(run, Failure(now, p))
      modifies this
      ensures Valid() && run == Step(old(run), Failure(now, p))
      ensures p !in proxies && info == old(info)
    {
      ReachableStep(run, Failure(now, p));
      assert info[p := info[p]] == info;
      StruckOut(run.rotator, p, info[p]);
      run := Step(run, Failure(now, p));
      Evict(p);
    }

    method ReportStub(p: ProxyId, now: real)
      requires Valid() && Enabled(run, Stub(now, p))
      modifies this
      ensures Valid() && run == Step(old(run), Stub(now, p))
      ensures info == old(info)[p := old(info)[p].(stubs := old(info)[p].stubs + 1)]
      ensures old(info)[p].stubs < 2 ==> proxies == old(proxies)
      ensures old(info)[p].stubs >= 2 ==> p !in proxies
    {
      ReachableStep(run, Stub(now, p));
      StubbedBy(run.rotator, p);
      run := Step(run, Stub(now, p));
      info := info[p := info[p].(stubs := info[p].stubs + 1)];
      if info[p].stubs >= MAX_STUB_EVICTIONS {
        Evict(p);
      }
    }

    /** A 429 strike: the third evicts, an earlier one parks and distrusts the weights. */
    method StrikeRateLimited(p: ProxyId, until: real)
      requires p in info
      modifies this`info, this`proxies, this`weightPoolLen
      ensures State() == RateLimitedStep(old(State()), p, until)
    {
      info := info[p := info[p].(limited := info[p].limited + 1)];
      if info[p].limited >= MAX_429_EVICTIONS {
        Evict(p);
        return;
      }
      info := info[p := info[p].(parkedUntil := until)];
      weightPoolLen := 0;
    }

    method ReportRateLimited(p: ProxyId, seconds: real, now: real)
      requires Valid() && Enabled(run, RateLimited(now, p, seconds))
      modifies this
      ensures Valid() && run == Step(old(run), RateLimited(now, p, seconds))
      ensures var was := old(info)[p];
              && (was.limited < 2 ==>
                    proxies == old(proxies)
                    && info == old(info)[p := was.(limited := was.limited + 1, parkedUntil := now + seconds)])
              && (was.limited >= 2 ==> p !in proxies && info == old(info)[p := was.(limited := was.limited + 1)])
    {
      ReachableStep(run, RateLimited(now, p, seconds));
      LimitedBy(run.rotator, p, now + seconds);
      run := Step(run, RateLimited(now, p, seconds));
      StrikeRateLimited(p, now + seconds);
    }
  }
}
