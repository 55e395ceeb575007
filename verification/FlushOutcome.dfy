/** How a flush of collector/repository.py ends, decided by the commits alone, and a run in which it returns. */
module FlushOutcomes {
  import opened Prelude
  import opened ResultStore
  import opened BatchWriter
  import opened WriterRefinement
  import opened WriterLiveness

  /** A commit has failed. */
  predicate CommitFailed(events: seq<Event>) {
    exists i :: 0 <= i < |events| && events[i].CommitEnds? && !events[i].ok
  }

  lemma {:induction false} FailedFromHistory(start: Repo, events: seq<Event>, end: Repo)
    requires Reaches(start, events, end)
    ensures end.failed <==> start.failed || CommitFailed(events)
    decreases |events|
  {
    if events != [] {
      var e, rest := events[0], events[1..];
      FailedFromHistory(Step(start, e), rest, end);
      assert CommitFailed(events) <==> (e.CommitEnds? && !e.ok) || CommitFailed(rest) by {
        if i :| 0 <= i < |rest| && rest[i].CommitEnds? && !rest[i].ok {
          assert events[i + 1] == rest[i];
        }
        if i :| 0 < i < |events| && events[i].CommitEnds? && !events[i].ok {
          assert rest[i - 1] == events[i];
        }
      }
    }
  }

  /** How a flush ends: over any run from opening, the one that goes on next returns normally if no commit
      has failed so far and raises if one has, and changes nothing else. An upsert is taken in or
      refused by the same rule. */
  lemma FlushOutcome(initial: Table, events: seq<Event>, s: Repo, i: nat, w: Write)
    requires Reaches(Open(initial), events, s)
    ensures Enabled(s, FlushResumes(i)) ==>
              var state := if CommitFailed(events) then RaisedError else Returned;
              Step(s, FlushResumes(i)) == s.(flushes := s.flushes[i := FlushCall(s.flushes[i].mark, state)])
    ensures Step(s, Upsert(w)).accepted == s.accepted + (if CommitFailed(events) then [] else [w])
    ensures Rows(Step(s, Upsert(w)).queue) == Rows(s.queue) + (if CommitFailed(events) then [] else [w])
  {
    FailedFromHistory(Open(initial), events, s);
    RowsAppend(s.queue, [Put(w)]);
    assert s.accepted + [] == s.accepted && Rows(s.queue) + [] == Rows(s.queue);
  }

  // ---------------------------------------------------------------- a flush that returns

  /** A repository in use: nothing has failed, and it is neither closed nor being closed. */
  ghost predicate InUse(s: Repo, initial: Table) {
    Inv(s, initial) && !s.failed && !Closing(s)
  }

  /** What the writer does when every commit succeeds. */
  predicate SmoothStep(e: Event) {
    e.Take? || (e.CommitEnds? && e.ok)
  }

  predicate SmoothSteps(events: seq<Event>) {
    forall i :: 0 <= i < |events| ==> SmoothStep(events[i])
  }

  /** The writer's own steps leave the flush calls, and who is waiting, as they were, but for waking. */
  ghost predicate SameCalls(s: Repo, s': Repo) {
    && s'.accepted == s.accepted && |s'.flushes| == |s.flushes|
    && forall i :: 0 <= i < |s.flushes| ==>
         && s'.flushes[i].mark == s.flushes[i].mark
         && (s'.flushes[i].state == s.flushes[i].state
             || (s.flushes[i].state.Joining? && s'.flushes[i].state.Woken?))
  }

  function SmoothTurn(s: Repo): Event {
    if s.phase.Committing? then CommitEnds(true, 0) else Take
  }

  lemma SmoothTurnOk(s: Repo, initial: Table)
    requires InUse(s, initial) && (s.phase.Committing? || s.queue != [])
    ensures Enabled(s, SmoothTurn(s)) && InUse(Step(s, SmoothTurn(s)), initial)
    ensures SameCalls(s, Step(s, SmoothTurn(s))) && WriterWork(Step(s, SmoothTurn(s))) < WriterWork(s)
  {
    InvStep(s, SmoothTurn(s), initial);
    StopStep(s, SmoothTurn(s));
  }

  /** Left alone, with commits that succeed, the writer empties its queue. */
  lemma {:induction false} Drains(s: Repo, initial: Table) returns (steps: seq<Event>, end: Repo)
    requires InUse(s, initial)
    ensures Reaches(s, steps, end) && SmoothSteps(steps) && InUse(end, initial)
    ensures SameCalls(s, end) && end.queue == [] && end.phase.Waiting? && end.unfinished == 0
    decreases WriterWork(s)
  {
    if !s.phase.Committing? && s.queue == [] {
      steps, end := [], s;
    } else {
      var e := SmoothTurn(s);
      SmoothTurnOk(s, initial);
      var rest, last := Drains(Step(s, e), initial);
      steps, end := [e] + rest, last;
      assert steps[1..] == rest;
    }
  }

  lemma Smooth(steps: seq<Event>)
    requires SmoothSteps(steps)
    ensures NoDirect(steps) && !CommitFailed(steps)
  {}

  lemma CallsFlush(s: Repo, initial: Table)
    requires InUse(s, initial)
    ensures InUse(Step(s, CallFlush), initial)
  {
    InvStep(s, CallFlush, initial);
    StopStep(s, CallFlush);
  }

  lemma ResumesFlush(s: Repo, initial: Table, i: nat)
    requires InUse(s, initial) && s.queue == [] && s.phase.Waiting? && Enabled(s, FlushResumes(i))
    requires s.flushes[i].mark == |s.accepted|
    ensures var end := Step(s, FlushResumes(i));
            && InUse(end, initial) && end.flushes[i] == FlushCall(|s.accepted|, Returned)
            && Pending(end) == []
  {
    InvStep(s, FlushResumes(i), initial);
    StopStep(s, FlushResumes(i));
    var end := Step(s, FlushResumes(i));
    assert end.flushes[i].state == Returned;
    assert |Pending(end)| == 0;
  }

  /** A flush can always return: from any state of a repository in use, a flush called now, the writer
      left to itself with commits that succeed, and the flush going on, in which case it returns and
      everything accepted is in the table. */
  lemma FlushReturns(initial: Table, s: Repo) returns (steps: seq<Event>, end: Repo)
    requires InUse(s, initial)
    ensures SmoothSteps(steps) && Reaches(s, [CallFlush] + steps + [FlushResumes(|s.flushes|)], end)
    ensures InUse(end, initial) && end.accepted == s.accepted && Pending(end) == []
    ensures |end.flushes| == |s.flushes| + 1 && end.flushes[|s.flushes|] == FlushCall(|s.accepted|, Returned)
  {
    var i, called := |s.flushes|, Step(s, CallFlush);
    CallsFlush(s, initial);
    var mid: Repo;
    steps, mid := Drains(called, initial);
    assert mid.flushes[i].mark == called.flushes[i].mark == |s.accepted|;
    ResumesFlush(mid, initial, i);
    end := Step(mid, FlushResumes(i));
    assert ([CallFlush] + steps)[1..] == steps;
    Extend(s, [CallFlush] + steps, mid, FlushResumes(i));
  }

  function Upserts(ws: seq<Write>): (events: seq<Event>)
    ensures |events| == |ws|
  {
    seq(|ws|, i requires 0 <= i < |ws| => Upsert(ws[i]))
  }

  lemma UpsertOne(s: Repo, initial: Table, w: Write)
    requires InUse(s, initial)
    ensures InUse(Step(s, Upsert(w)), initial)
  {
    InvStep(s, Upsert(w), initial);
    StopStep(s, Upsert(w));
  }

  /** A repository in use accepts any writes. */
  lemma {:induction false} UpsertAll(s: Repo, initial: Table, ws: seq<Write>) returns (end: Repo)
    requires InUse(s, initial)
    ensures Reaches(s, Upserts(ws), end) && InUse(end, initial)
    ensures end.accepted == s.accepted + ws && end.flushes == s.flushes && end.table == s.table
    decreases |ws|
  {
    if ws == [] {
      end := s;
      assert s.accepted + ws == s.accepted;
    } else {
      UpsertOne(s, initial, ws[0]);
      end := UpsertAll(Step(s, Upsert(ws[0])), initial, ws[1..]);
      assert Upserts(ws)[1..] == Upserts(ws[1..]);
      assert s.accepted + [ws[0]] + ws[1..] == s.accepted + ws;
    }
  }

  lemma OpenInUse(initial: Table)
    ensures InUse(Open(initial), initial)
  {}

  /** Any upserts after opening, and a flush: it can return, and then the table is their fold. */
  lemma UpsertsThenFlush(initial: Table, ws: seq<Write>) returns (steps: seq<Event>, end: Repo)
    ensures SmoothSteps(steps)
    ensures Reaches(Open(initial), Upserts(ws) + ([CallFlush] + steps + [FlushResumes(0)]), end)
    ensures end.flushes == [FlushCall(|ws|, Returned)]
    ensures end.table == Fold(initial, ws) && Pending(end) == []
  {
    OpenInUse(initial);
    var filled := UpsertAll(Open(initial), initial, ws);
    assert [] + ws == ws;
    steps, end := FlushReturns(initial, filled);
    var flush := [CallFlush] + steps + [FlushResumes(0)];
    ReachesAppend(Open(initial), Upserts(ws), filled, flush, end);
    Smooth(steps);
    WriterRefines(initial, Upserts(ws) + flush, end);
    assert ws[..|ws|] == ws;
  }
}
