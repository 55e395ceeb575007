/** The concurrent validation workers of `ProxyRotator._validate` in collector/proxy/rotator.py.

    Candidates are numbered in queue order and followed by one sentinel per worker. `Top(w)` is
    the code from the top of worker `w`'s loop to its await, `Finish(w)` the code after it. `good` are
    the candidates whose validation succeeds. */
module ValidationPool {
  import opened Prelude
  import opened Workers

  datatype Pool = Pool(
    candidates: nat,
    good: set<nat>,
    target: Option<nat>,
    taken: nat,
    workers: seq<Slot>,
    valid: seq<nat>,
    finished: seq<nat>,
    early: nat)

  datatype Event = Top(w: nat) | Finish(w: nat)

  function Start(candidates: nat, good: set<nat>, target: Option<nat>, n: nat): Pool {
    Pool(candidates, good, target, 0, AllReady(n), [], [], 0)
  }

  predicate TargetMet(p: Pool) {
    p.target.Some? && |p.valid| >= p.target.value
  }

  /** Candidates and sentinels still in the queue. */
  function Queued(p: Pool): int {
    p.candidates + |p.workers| - p.taken
  }

  /** `Top` is stuck only when the target is not met and the queue is empty. */
  predicate Enabled(p: Pool, e: Event) {
    && e.w < |p.workers|
    && (e.Top? ==> p.workers[e.w].Ready? && (TargetMet(p) || Queued(p) > 0))
    && (e.Finish? ==> p.workers[e.w].Busy?)
  }

  function Step(p: Pool, e: Event): Pool
    requires Enabled(p, e)
  {
    match e
    case Top(w) =>
      if TargetMet(p) then
        p.(workers := p.workers[w := Gone], early := p.early + 1)
      else if p.taken < p.candidates then
        p.(workers := p.workers[w := Busy(p.taken)], taken := p.taken + 1)
      else
        p.(workers := p.workers[w := Gone], taken := p.taken + 1)
    case Finish(w) =>
      var c := p.workers[w].item;
      p.(workers := p.workers[w := Ready], finished := p.finished + [c],
         valid := if c in p.good then p.valid + [c] else p.valid)
  }

  ghost predicate Reaches(start: Pool, events: seq<Event>, end: Pool)
    decreases |events|
  {
    if events == [] then end == start
    else Enabled(start, events[0]) && Reaches(Step(start, events[0]), events[1..], end)
  }

  ghost predicate Inv(p: Pool) {
    && Accounted(p.workers, p.finished, MinInt(p.taken, p.candidates))
    && p.taken <= p.candidates + |p.workers|
    && DistinctItems(p.valid) && (forall c :: c in p.valid <==> c in p.finished && c in p.good)
    && GoneCount(p.workers) == p.early + MaxInt(p.taken - p.candidates, 0)
    && (p.early > 0 ==> TargetMet(p))
    && (p.target.Some? && |p.workers| > 0 ==>
          |p.valid| + BusyCount(p.workers) <= p.target.value + |p.workers| - 1)
  }

  lemma InvStep(p: Pool, e: Event)
    requires Inv(p) && Enabled(p, e)
    ensures Inv(Step(p, e))
  {
    var taken := MinInt(p.taken, p.candidates);
    CountsRoom(p.workers, e.w);
    match e
    case Top(w) =>
      if !TargetMet(p) && p.taken < p.candidates {
        AccountTake(p.workers, p.finished, taken, w);
        CountsUpdate(p.workers, w, Busy(p.taken));
      } else {
        AccountLeave(p.workers, p.finished, taken, w);
        CountsUpdate(p.workers, w, Gone);
      }
    case Finish(w) =>
      AccountFinish(p.workers, p.finished, taken, w);
      CountsUpdate(p.workers, w, Ready);
  }

  lemma {:induction false} InvReaches(start: Pool, events: seq<Event>, end: Pool)
    requires Inv(start) && Reaches(start, events, end)
    ensures Inv(end) && |end.workers| == |start.workers|
    ensures end.candidates == start.candidates && end.target == start.target && end.good == start.good
    decreases |events|
  {
    if events != [] {
      InvStep(start, events[0]);
      InvReaches(Step(start, events[0]), events[1..], end);
    }
  }

  /** No worker waits forever: in every reachable state every worker that has not returned can
      move, because the queue never runs out of sentinels before it runs out of workers. */
  lemma NoWorkerStuck(candidates: nat, good: set<nat>, target: Option<nat>, n: nat, events: seq<Event>, p: Pool, w: nat)
    requires Reaches(Start(candidates, good, target, n), events, p)
    requires w < |p.workers| && !p.workers[w].Gone?
    ensures Enabled(p, if p.workers[w].Ready? then Top(w) else Finish(w))
  {
    InvReaches(Start(candidates, good, target, n), events, p);
    CountsRoom(p.workers, w);
  }

  /** What is left to do; every step of every schedule makes it smaller, so every run ends. */
  function Measure(p: Pool): int {
    2 * Queued(p) + BusyCount(p.workers) + (|p.workers| - GoneCount(p.workers))
  }

  lemma StepsRunOut(p: Pool, e: Event)
    requires Inv(p) && Enabled(p, e)
    ensures 0 <= Measure(Step(p, e)) < Measure(p)
  {
    CountsUpdate(p.workers, e.w, Step(p, e).workers[e.w]);
  }

  /** In every reachable state no candidate is validated twice, the accepted ones are exactly the good
      ones validated so far, each once, and there are at most target + n - 1 of them. */
  lemma AtMostOnce(candidates: nat, good: set<nat>, target: Option<nat>, n: nat, events: seq<Event>, p: Pool)
    requires n > 0 && Reaches(Start(candidates, good, target, n), events, p)
    ensures DistinctItems(p.finished) && DistinctItems(p.valid)
    ensures forall c :: c in p.valid <==> c in p.finished && c in good
    ensures forall c :: c in p.finished ==> c < candidates
    ensures target.Some? ==> |p.valid| <= target.value + n - 1
  {
    InvReaches(Start(candidates, good, target, n), events, p);
  }

  /** A worker at the top of its loop returns if the target is met; otherwise it takes the first candidate
      not yet begun, and returns if all have been. One whose probe ends accepts its candidate exactly if
      that is good. */
  lemma QueueOrder(candidates: nat, good: set<nat>, target: Option<nat>, n: nat, events: seq<Event>, p: Pool, e: Event)
    requires Reaches(Start(candidates, good, target, n), events, p) && Enabled(p, e)
    ensures var begun, p' := |p.finished| + BusyCount(p.workers), Step(p, e);
            match e
            case Top(w) =>
              && p'.valid == p.valid && p'.finished == p.finished
              && p'.workers == p.workers[w := if (target.Some? && |p.valid| >= target.value) || begun >= candidates
                                              then Gone else Busy(begun)]
            case Finish(w) =>
              var c := p.workers[w].item;
              && p'.workers == p.workers[w := Ready] && p'.finished == p.finished + [c]
              && p'.valid == if c in good then p.valid + [c] else p.valid
  {
    InvReaches(Start(candidates, good, target, n), events, p);
  }

  /** When every worker has returned and the target, if any, was not reached, every candidate has
      been validated, by `AtMostOnce` exactly once, and every good one accepted. */
  lemma AllValidated(candidates: nat, good: set<nat>, target: Option<nat>, n: nat, events: seq<Event>, p: Pool)
    requires n > 0 && Reaches(Start(candidates, good, target, n), events, p)
    requires forall w :: 0 <= w < |p.workers| ==> p.workers[w].Gone?
    requires target.None? || |p.valid| < target.value
    ensures |p.finished| == candidates
    ensures forall c: nat :: c < candidates ==> c in p.finished && (c in p.valid <==> c in good)
  {
    InvReaches(Start(candidates, good, target, n), events, p);
    AllGone(p.workers);
    Pigeonhole(p.finished, candidates);
  }
}
