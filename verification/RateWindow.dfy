/** The deque of 429 times of collector/services/rate_limiter.py, pruned at two different ages by the two
    report methods, against the complete history. */
module RateWindow {
  import opened Prelude

  const RATE_429_WINDOW := 30.0
  const RATE_RECOVERY_WINDOW := 60.0

  /** Pop expired times off the front of the deque. */
  function Prune(times: seq<real>, cutoff: real): seq<real> {
    if times != [] && times[0] < cutoff then Prune(times[1..], cutoff) else times
  }

  ghost predicate Sorted(xs: seq<real>) {
    forall i, j :: 0 <= i <= j < |xs| ==> xs[i] <= xs[j]
  }

  ghost predicate Below(xs: seq<real>, bound: real) {
    forall i :: 0 <= i < |xs| ==> xs[i] < bound
  }

  ghost predicate AtMost(xs: seq<real>, bound: real) {
    forall i :: 0 <= i < |xs| ==> xs[i] <= bound
  }

  /** `kept` is the deque and `dropped` what either pruning has popped off its front: an empty
      deque means the whole history is over a minute old. */
  ghost predicate WindowOk(dropped: seq<real>, kept: seq<real>, clock: real) {
    && Sorted(kept)
    && AtMost(kept, clock)
    && Below(dropped, clock - RATE_429_WINDOW)
    && AtMost(dropped, if kept == [] then clock else kept[0])
    && (kept == [] ==> Below(dropped, clock - RATE_RECOVERY_WINDOW))
  }

  ghost predicate HistoryOk(all: seq<real>, kept: seq<real>, clock: real) {
    exists dropped :: all == dropped + kept && WindowOk(dropped, kept, clock)
  }

  /** Pruning a sorted deque keeps exactly its entries from `cutoff` on. */
  lemma PruneDrops(times: seq<real>, cutoff: real, clock: real) returns (more: seq<real>)
    requires Sorted(times) && AtMost(times, clock)
    ensures times == more + Prune(times, cutoff)
    ensures Below(more, cutoff)
    ensures Sorted(Prune(times, cutoff)) && AtMost(Prune(times, cutoff), clock)
    ensures forall i :: 0 <= i < |Prune(times, cutoff)| ==> cutoff <= Prune(times, cutoff)[i]
  {
    var k := 0;
    while k < |times| && times[k] < cutoff
      invariant k <= |times|
      invariant Prune(times, cutoff) == Prune(times[k..], cutoff)
      invariant Below(times[..k], cutoff)
    {
      assert times[k..][1..] == times[k + 1..];
      k := k + 1;
    }
    more := times[..k];
  }

  /** If the dropped part of a history lies before `lo` and the kept part from `lo` to `hi`,
      the kept part is as long as the history's count in that window. */
  lemma CountKept(dropped: seq<real>, kept: seq<real>, lo: real, hi: real)
    requires Below(dropped, lo)
    requires forall i :: 0 <= i < |kept| ==> lo <= kept[i] <= hi
    ensures CountIn(dropped + kept, lo, hi) == |kept|
  {
    CountInSplit(dropped, kept, lo, hi);
    CountInNone(dropped, lo, hi);
    CountInAll(kept, lo, hi);
  }

  lemma CountAtLeast(dropped: seq<real>, kept: seq<real>, lo: real, hi: real)
    requires forall i :: 0 <= i < |kept| ==> lo <= kept[i] <= hi
    ensures CountIn(dropped + kept, lo, hi) >= |kept|
  {
    CountInSplit(dropped, kept, lo, hi);
    CountInAll(kept, lo, hi);
  }

  /** Entries popped off the front of a deque join the dropped part of the history. */
  lemma WindowMoves(dropped: seq<real>, more: seq<real>, kept: seq<real>, clock: real, now: real, cutoff: real)
    requires Sorted(more + kept) && AtMost(kept, now) && clock <= now
    requires Below(dropped, clock - RATE_429_WINDOW) && Below(more, cutoff)
    requires cutoff <= now - RATE_429_WINDOW
    requires AtMost(dropped, if more + kept == [] then clock else (more + kept)[0])
    requires kept == [] ==>
               cutoff <= now - RATE_RECOVERY_WINDOW
               && (more == [] ==> Below(dropped, clock - RATE_RECOVERY_WINDOW))
    ensures WindowOk(dropped + more, kept, now)
  {
    assert forall i :: 0 <= i < |more| ==> (more + kept)[i] == more[i];
    assert forall i :: 0 <= i < |kept| ==> (more + kept)[|more| + i] == kept[i];
  }

  /** `report_429` counts exactly the 429s of the complete history in the last 30 s. */
  lemma WindowExact429(all: seq<real>, times: seq<real>, clock: real, now: real)
    requires HistoryOk(all, times, clock) && clock <= now
    ensures var kept := Prune(times + [now], now - RATE_429_WINDOW);
            && |kept| == CountIn(all + [now], now - RATE_429_WINDOW, now)
            && HistoryOk(all + [now], kept, now)
  {
    var dropped :| all == dropped + times && WindowOk(dropped, times, clock);
    var cutoff := now - RATE_429_WINDOW;
    AppendSorted(times, clock, now);
    var more := PruneDrops(times + [now], cutoff, now);
    var kept := Prune(times + [now], cutoff);
    Regroup(dropped, times, more, kept, now);
    LatestKept(more, kept, times, cutoff, now);
    WindowMoves(dropped, more, kept, clock, now, cutoff);
    CountKept(dropped + more, kept, cutoff, now);
  }

  lemma AppendSorted(times: seq<real>, clock: real, now: real)
    requires Sorted(times) && AtMost(times, clock) && clock <= now
    ensures Sorted(times + [now]) && AtMost(times + [now], now)
  {}

  lemma Regroup(dropped: seq<real>, times: seq<real>, more: seq<real>, kept: seq<real>, now: real)
    requires times + [now] == more + kept
    ensures (dropped + times) + [now] == (dropped + more) + kept
  {
    assert (dropped + times) + [now] == dropped + (times + [now]);
  }

  lemma LatestKept(more: seq<real>, kept: seq<real>, times: seq<real>, cutoff: real, now: real)
    requires times + [now] == more + kept && Below(more, cutoff) && cutoff <= now
    ensures kept != []
  {
    assert (more + kept)[|times|] == now;
  }

  /** `report_success` finds an empty deque exactly when the complete history, which
      `report_429` may have pruned at 30 s, has nothing in the last 60 s. */
  lemma WindowExactSuccess(all: seq<real>, times: seq<real>, clock: real, now: real)
    requires HistoryOk(all, times, clock) && clock <= now
    ensures var kept := Prune(times, now - RATE_RECOVERY_WINDOW);
            && (kept == [] <==> CountIn(all, now - RATE_RECOVERY_WINDOW, now) == 0)
            && HistoryOk(all, kept, now)
  {
    var dropped :| all == dropped + times && WindowOk(dropped, times, clock);
    var cutoff := now - RATE_RECOVERY_WINDOW;
    var more := PruneDrops(times, cutoff, clock);
    var kept := Prune(times, cutoff);
    assert all == (dropped + more) + kept;
    WindowMoves(dropped, more, kept, clock, now, cutoff);
    if kept == [] {
      CountKept(dropped + more, [], cutoff, now);
    } else {
      CountAtLeast(dropped + more, kept, cutoff, now);
    }
  }

  lemma HistoryAges(all: seq<real>, kept: seq<real>, clock: real, now: real)
    requires HistoryOk(all, kept, clock) && clock <= now
    ensures HistoryOk(all, kept, now)
  {
    var dropped :| all == dropped + kept && WindowOk(dropped, kept, clock);
    assert WindowOk(dropped, kept, now);
  }
}
