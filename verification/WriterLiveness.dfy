/** When the writer of collector/repository.py comes to rest: flushes unblock, and closing ends or hangs. */
module WriterLiveness {
  import opened ResultStore
  import opened BatchWriter
  import opened WriterRefinement

  predicate WriterStep(e: Event) {
    e.Take? || e.CommitEnds?
  }

  function WriterWork(s: Repo): nat {
    2 * |s.queue| + (if s.phase.Committing? then 1 else 0)
  }

  /** The writer has no step left: it waits on an empty queue, or has returned. */
  ghost predicate AtRest(s: Repo) {
    forall e :: WriterStep(e) ==> !Enabled(s, e)
  }

  lemma RestShape(s: Repo, initial: Table)
    requires Inv(s, initial)
    ensures AtRest(s) <==> s.phase.Done? || (s.phase.Waiting? && s.queue == [])
  {
    if s.phase.Committing? {
      assert WriterStep(CommitEnds(true, 0)) && Enabled(s, CommitEnds(true, 0));
    } else if s.phase.Waiting? && s.queue != [] {
      assert WriterStep(Take) && Enabled(s, Take);
    }
  }

  function CountSteps(events: seq<Event>): (steps: nat) {
    if events == [] then 0 else CountSteps(events[1..]) + (if WriterStep(events[0]) then 1 else 0)
  }

  function CountCalls(events: seq<Event>): (calls: nat) {
    if events == [] then 0
    else
      CountCalls(events[1..])
      + (if events[0].Upsert? || events[0].CallFlush? || events[0].CallClose? then 1 else 0)
  }

  /** The writer's steps are bounded by the calls made, whatever its commits do: with finitely many
      producers every run brings it to rest. */
  lemma {:induction false} StepsBounded(start: Repo, events: seq<Event>, end: Repo)
    requires Reaches(start, events, end)
    ensures CountSteps(events) + WriterWork(end) <= WriterWork(start) + 2 * CountCalls(events)
    decreases |events|
  {
    if events != [] {
      StepsBounded(Step(start, events[0]), events[1..], end);
    }
  }

  /** Flush always unblocks: over any run from opening, with any failures, once the writer is at rest
      every flush has been woken, unless the writer has returned and left items behind STOP. The
      writer does come to rest, since it has only two steps for each call. */
  lemma FlushesUnblock(initial: Table, events: seq<Event>, end: Repo)
    requires Reaches(Open(initial), events, end)
    ensures CountSteps(events) <= 2 * CountCalls(events)
    ensures AtRest(end) && !end.phase.Done? ==> end.unfinished == 0
    ensures AtRest(end) && (!end.phase.Done? || end.queue == []) ==>
              forall i :: 0 <= i < |end.flushes| ==> end.flushes[i].state != Joining
  {
    StepsBounded(Open(initial), events, end);
    InvReaches(Open(initial), events, end, initial);
    RestShape(end, initial);
  }

  // ---------------------------------------------------------------- close

  /** How many STOPs the writer has still to deal with. */
  function StopsAhead(s: Repo): nat {
    StopsIn(s.queue) + (if s.phase == Committing(Stop) then 1 else 0)
  }

  function StopsIn(queue: seq<Item>): nat {
    if queue == [] then 0 else StopsIn(queue[1..]) + (if queue[0].Stop? then 1 else 0)
  }

  lemma {:induction false} StopsAppend(a: seq<Item>, item: Item)
    ensures StopsIn(a + [item]) == StopsIn(a) + (if item.Stop? then 1 else 0)
  {
    if a == [] {
      assert a + [item] == [item];
    } else {
      assert (a + [item])[1..] == a[1..] + [item];
      StopsAppend(a[1..], item);
    }
  }

  /** No commit made for STOP fails on the way. An empty batch needs no commit. */
  ghost predicate StopCommitsOk(start: Repo, events: seq<Event>)
    decreases |events|
  {
    events != [] && Enabled(start, events[0]) ==>
      && (start.phase == Committing(Stop) && events[0].CommitEnds? ==> events[0].ok)
      && StopCommitsOk(Step(start, events[0]), events[1..])
  }

  predicate Closing(s: Repo) {
    StopsAhead(s) > 0 || s.phase.Done?
  }

  /** One step and STOP: it uses one up exactly when it ends the writer or is its failed commit. */
  lemma StopStep(s: Repo, e: Event)
    requires Enabled(s, e)
    ensures var s' := Step(s, e);
            var fails := s.phase == Committing(Stop) && e.CommitEnds? && !e.ok;
            && (s.phase.Done? ==> s'.phase.Done?)
            && StopsAhead(s') == StopsAhead(s) + (if e.CallClose? then 1 else 0)
                                 - (if fails || (s'.phase.Done? && !s.phase.Done?) then 1 else 0)
  {
    match e
    case Upsert(w) => StopsAppend(s.queue, Put(w));
    case CallFlush => StopsAppend(s.queue, Flush(|s.accepted|));
    case CallClose => StopsAppend(s.queue, Stop);
    case _ =>
  }

  lemma {:induction false} ClosingGoesOn(start: Repo, events: seq<Event>, end: Repo)
    requires Closing(start) && Reaches(start, events, end) && StopCommitsOk(start, events)
    ensures Closing(end)
    decreases |events|
  {
    if events != [] {
      StopStep(start, events[0]);
      ClosingGoesOn(Step(start, events[0]), events[1..], end);
    }
  }

  /** Closing ends: from any reachable state with STOP ahead, over every run, producers included, in
      which the commits made for STOP succeed (an empty batch needs none), the writer has returned
      once it is at rest. Conversely, if it rests without having returned, such a commit failed. */
  lemma CloseEnds(initial: Table, before: seq<Event>, start: Repo, events: seq<Event>, end: Repo)
    requires Reaches(Open(initial), before, start) && Closing(start)
    requires Reaches(start, events, end) && AtRest(end)
    ensures StopCommitsOk(start, events) ==> end.phase.Done?
    ensures CountSteps(events) <= WriterWork(start) + 2 * CountCalls(events)
  {
    StepsBounded(start, events, end);
    if StopCommitsOk(start, events) {
      ClosingGoesOn(start, events, end);
      ReachesAppend(Open(initial), before, start, events, end);
      InvReaches(Open(initial), before + events, end, initial);
      RestingIsDone(end, initial);
    }
  }

  lemma RestingIsDone(s: Repo, initial: Table)
    requires Inv(s, initial) && AtRest(s) && Closing(s)
    ensures s.phase.Done?
  {
    RestShape(s, initial);
  }

  lemma {:induction false} FailedStopIsLost(start: Repo, events: seq<Event>, end: Repo)
    requires StopsAhead(start) == 0 && !start.phase.Done? && Reaches(start, events, end)
    requires forall e :: e in events ==> !e.CallClose?
    ensures !end.phase.Done?
    decreases |events|
  {
    if events != [] {
      StopStep(start, events[0]);
      FailedStopIsLost(Step(start, events[0]), events[1..], end);
    }
  }

  lemma {:induction false} OneStopEnds(start: Repo, events: seq<Event>, end: Repo)
    requires StopsAhead(start) == 1 && !start.phase.Done? && Reaches(start, events, end)
    requires forall e :: e in events ==> !e.CallClose?
    requires end.phase.Done?
    ensures StopCommitsOk(start, events)
    decreases |events|
  {
    if events != [] {
      var next := Step(start, events[0]);
      StopStep(start, events[0]);
      if next.phase.Done? {
        AfterDoneOk(next, events[1..], end);
      } else if StopsAhead(next) == 0 {
        FailedStopIsLost(next, events[1..], end);
      } else {
        OneStopEnds(next, events[1..], end);
      }
    }
  }

  lemma {:induction false} AfterDoneOk(start: Repo, events: seq<Event>, end: Repo)
    requires start.phase.Done? && Reaches(start, events, end)
    ensures StopCommitsOk(start, events)
    decreases |events|
  {
    if events != [] {
      AfterDoneOk(Step(start, events[0]), events[1..], end);
    }
  }

  /** With a single call of `close`, the writer that rests has returned if and only if the commit made
      for STOP succeeded or was not needed. */
  lemma CloseEndsIff(initial: Table, before: seq<Event>, start: Repo, events: seq<Event>, end: Repo)
    requires Reaches(Open(initial), before, start) && StopsAhead(start) == 1 && !start.phase.Done?
    requires Reaches(start, events, end) && AtRest(end)
    requires forall e :: e in events ==> !e.CallClose?
    ensures end.phase.Done? <==> StopCommitsOk(start, events)
  {
    CloseEnds(initial, before, start, events, end);
    if end.phase.Done? {
      OneStopEnds(start, events, end);
    }
  }

  lemma {:induction false} AllCommitsOk(start: Repo, events: seq<Event>, end: Repo)
    requires Reaches(start, events, end) && forall e :: e in events && e.CommitEnds? ==> e.ok
    ensures StopCommitsOk(start, events)
    decreases |events|
  {
    if events != [] {
      AllCommitsOk(Step(start, events[0]), events[1..], end);
    }
  }

  /** A close that hangs: the commit that STOP triggers for the one row fails, and the writer waits on
      an empty queue for good. */
  lemma CloseHangs(t: Table, w: Write, rows: nat) returns (events: seq<Event>, end: Repo)
    requires rows <= 1
    ensures events == [Upsert(w), CallClose, Take, Take, CommitEnds(false, rows)]
    ensures Reaches(Open(t), events, end)
    ensures AtRest(end) && !end.phase.Done? && StopsAhead(end) == 0 && end.unfinished == 0
  {
    var start := Open(t);
    events, end := [], start;
    Extend(start, events, end, Upsert(w));
    events, end := [Upsert(w)], Step(end, Upsert(w));
    Extend(start, events, end, CallClose);
    events, end := [Upsert(w), CallClose], Step(end, CallClose);
    assert end.queue == [Put(w), Stop];
    Extend(start, events, end, Take);
    events, end := events + [Take], Step(end, Take);
    assert end.queue == [Stop] && end.batch == [w];
    Extend(start, events, end, Take);
    events, end := events + [Take], Step(end, Take);
    Extend(start, events, end, CommitEnds(false, rows));
    events, end := events + [CommitEnds(false, rows)], Step(end, CommitEnds(false, rows));
  }

  /** Upserts accepted behind STOP are accepted in vain: once the writer has returned, nothing more
      reaches the table, whatever is queued. */
  lemma {:induction false} NothingAfterStop(start: Repo, events: seq<Event>, end: Repo)
    requires Reaches(start, events, end) && start.phase.Done?
    ensures end.phase.Done? && Committed(end) == Committed(start) && end.batch == start.batch
    ensures Rows(start.queue) <= Rows(end.queue)
    decreases |events|
  {
    if events != [] {
      var e := events[0];
      var next := Step(start, e);
      if e.Direct? {
        StoresAppend(start.ops, e.op);
      }
      RowsAppend(start.queue, [Stop]);
      RowsAppend(start.queue, [Flush(|start.accepted|)]);
      if e.Upsert? {
        RowsAppend(start.queue, [Put(e.write)]);
      }
      NothingAfterStop(next, events[1..], end);
    }
  }

  /** What a run of the writer alone comes to, once nothing is unfinished or it has returned. */
  lemma LoopAtRest(initial: Table, start: Repo, steps: seq<Event>, end: Repo)
    requires Reachable(start, initial) && Reaches(start, steps, end) && forall e :: e in steps ==> WriterStep(e)
    requires end.unfinished == 0 || end.phase.Done?
    ensures AtRest(end)
    ensures !Closing(start) ==> end.unfinished == 0
    ensures end.unfinished == 0 ==> forall i :: 0 <= i < |end.flushes| ==> end.flushes[i].state != Joining
    ensures end.unfinished == 0 && !end.failed ==> end.accepted == Committed(end) + end.batch
    ensures Closing(start) && StopCommitsOk(start, steps) ==> end.phase.Done?
    ensures StopsAhead(start) == 1 && !start.phase.Done? ==> (end.phase.Done? <==> StopCommitsOk(start, steps))
    ensures Closing(start) && (forall e :: e in steps && e.CommitEnds? ==> e.ok) ==> end.phase.Done?
  {
    var before :| Reaches(Open(initial), before, start);
    ReachesAppend(Open(initial), before, start, steps, end);
    InvReaches(Open(initial), before + steps, end, initial);
    RestShape(end, initial);
    if Closing(start) {
      CloseEnds(initial, before, start, steps, end);
      if forall e :: e in steps && e.CommitEnds? ==> e.ok {
        AllCommitsOk(start, steps, end);
      }
      if StopsAhead(start) == 1 && !start.phase.Done? {
        CloseEndsIff(initial, before, start, steps, end);
      }
    } else {
      FailedStopIsLost(start, steps, end);
    }
  }
}
