/** What the batched writer of collector/repository.py comes to over whole runs: batching refines a
    sequential table, flushes keep their promise, failures stay visible, and the table lags. */
module WriterRefinement {
  import opened Prelude
  import opened ResultStore
  import opened BatchWriter

  lemma {:induction false} ReachesAppend(start: Repo, first: seq<Event>, mid: Repo, rest: seq<Event>, end: Repo)
    requires Reaches(start, first, mid) && Reaches(mid, rest, end)
    ensures Reaches(start, first + rest, end)
    decreases |first|
  {
    if first == [] {
      assert first + rest == rest;
    } else {
      assert (first + rest)[0] == first[0] && (first + rest)[1..] == first[1..] + rest;
      ReachesAppend(Step(start, first[0]), first[1..], mid, rest, end);
    }
  }

  // ---------------------------------------------------------------- refinement

  predicate NoDirect(events: seq<Event>) {
    forall e :: e in events ==> !e.Direct?
  }

  /** What one step lands in the table. */
  function Lands(s: Repo, e: Event): seq<Write>
    requires Enabled(s, e)
  {
    if e.CommitEnds? then (if e.ok then s.batch else s.batch[..e.rows]) else []
  }

  lemma StoreOpsAppend(ops: seq<TableOp>, a: seq<Write>, b: seq<Write>)
    ensures ops + StoreOps(a) + StoreOps(b) == ops + StoreOps(a + b)
  {
    assert StoreOps(a) + StoreOps(b) == StoreOps(a + b);
  }

  /** Without direct changes the log only grows by rows of committed batches. */
  lemma {:induction false} LogGrows(start: Repo, events: seq<Event>, end: Repo) returns (landed: seq<Write>)
    requires Reaches(start, events, end) && NoDirect(events)
    ensures end.ops == start.ops + StoreOps(landed)
    decreases |events|
  {
    if events == [] {
      landed := [];
    } else {
      var next := Step(start, events[0]);
      var first := Lands(start, events[0]);
      assert next.ops == start.ops + StoreOps(first);
      var rest := LogGrows(next, events[1..], end);
      StoreOpsAppend(start.ops, first, rest);
      landed := first + rest;
    }
  }

  lemma {:induction false} AcceptedGrows(start: Repo, events: seq<Event>, end: Repo)
    requires Reaches(start, events, end)
    ensures start.accepted <= end.accepted
    decreases |events|
  {
    if events != [] {
      AcceptedGrows(Step(start, events[0]), events[1..], end);
    }
  }

  lemma SplitFresh(before: seq<Write>, more: seq<Write>, committed: seq<Write>, landed: seq<Write>,
                   pending: seq<Write>, left: seq<Write>)
    requires before == committed + pending
    requires before + more == (committed + landed) + left
    ensures pending + more == landed + left
  {
    var all := before + more;
    assert all == committed + (pending + more);
    assert all[|committed|..] == pending + more;
    assert all == committed + (landed + left);
    assert all[|committed|..] == landed + left;
  }

  /** Refinement from any state on: what lands is a first part of what was pending and has been
      accepted since, in order, and the rest is what is pending now. */
  lemma RefinesFrom(initial: Table, start: Repo, events: seq<Event>, end: Repo) returns (landed: seq<Write>)
    requires Inv(start, initial) && Reaches(start, events, end) && NoDirect(events) && !end.failed
    ensures start.accepted <= end.accepted
    ensures Pending(start) + end.accepted[|start.accepted|..] == landed + Pending(end)
    ensures end.table == Fold(start.table, landed)
    ensures Committed(end) == Committed(start) + landed
  {
    if start.failed {
      FailureSticks(start, events, end);
    }
    InvReaches(start, events, end, initial);
    AcceptedGrows(start, events, end);
    landed := LogGrows(start, events, end);
    CommitAppends(initial, start.ops, landed);
    var more := end.accepted[|start.accepted|..];
    assert end.accepted == start.accepted + more;
    SplitFresh(start.accepted, more, Committed(start), landed, Pending(start), Pending(end));
  }

  lemma PrefixFold(initial: Table, committed: seq<Write>, pending: seq<Write>)
    ensures Fold(initial, committed) == Fold(initial, (committed + pending)[..|committed|])
    ensures Fold(Fold(initial, committed), pending) == Fold(initial, committed + pending)
  {
    FoldAppend(initial, committed, pending);
    assert (committed + pending)[..|committed|] == committed;
  }

  lemma SinceOpen(initial: Table, s: Repo, landed: seq<Write>)
    requires Pending(Open(initial)) + s.accepted[0..] == landed + Pending(s)
    requires s.table == Fold(initial, landed) && Committed(s) == Committed(Open(initial)) + landed
    ensures s.accepted == Committed(s) + Pending(s)
    ensures s.table == Fold(initial, s.accepted[..|Committed(s)|])
    ensures Fold(s.table, Pending(s)) == Fold(initial, s.accepted)
  {
    assert Committed(Open(initial)) == [] && Pending(Open(initial)) == [];
    assert [] + landed == landed && [] + s.accepted[0..] == s.accepted;
    PrefixFold(initial, landed, Pending(s));
  }

  /** Writer refinement: for every interleaving of upserts, flushes and batch commits in which no
      commit has failed, the accepted upserts are what is committed, then the batch, then the queue,
      in order; the table is the last-write-wins fold of the committed prefix; and what is pending
      completes it to the fold of everything accepted. Batch boundaries appear nowhere. */
  lemma WriterRefines(initial: Table, events: seq<Event>, s: Repo)
    requires Reaches(Open(initial), events, s) && !s.failed && NoDirect(events)
    ensures s.accepted == Committed(s) + Pending(s)
    ensures s.table == Fold(initial, s.accepted[..|Committed(s)|])
    ensures Fold(s.table, Pending(s)) == Fold(initial, s.accepted)
  {
    var landed := RefinesFrom(initial, Open(initial), events, s);
    SinceOpen(initial, s, landed);
  }

  // ---------------------------------------------------------------- flush

  /** Flush guarantee: in every reachable state, whatever has failed since, a flush that returned
      normally has every upsert accepted before it in the table, in order. */
  lemma FlushGuarantee(initial: Table, events: seq<Event>, s: Repo, i: nat)
    requires Reaches(Open(initial), events, s)
    requires i < |s.flushes| && s.flushes[i].state == Returned
    ensures s.flushes[i].mark <= |s.accepted|
    ensures s.accepted[..s.flushes[i].mark] <= Committed(s)
  {
    InvReaches(Open(initial), events, s, initial);
  }

  /** Once any commit has failed the error stays, no upsert is accepted any more, and no flush
      that had not yet returned ever returns normally: a lost write is never silent. */
  lemma {:induction false} FailureSticks(start: Repo, events: seq<Event>, end: Repo)
    requires Reaches(start, events, end) && start.failed
    ensures end.failed && end.accepted == start.accepted
    ensures |start.flushes| <= |end.flushes|
    ensures forall i :: 0 <= i < |end.flushes| && end.flushes[i].state == Returned ==>
              i < |start.flushes| && start.flushes[i].state == Returned
    decreases |events|
  {
    if events != [] {
      FailureSticks(Step(start, events[0]), events[1..], end);
    }
  }

  /** A failed commit is atomic neither in the table nor for its batch: its first `rows` rows are
      there, the others are dropped. The table is unchanged if and only if it already held, for every
      key among those rows, the last of them. */
  lemma FailedCommitLeaves(s: Repo, initial: Table, rows: nat)
    requires Inv(s, initial) && Enabled(s, CommitEnds(false, rows))
    ensures var end := Step(s, CommitEnds(false, rows));
            && end.failed && end.batch == [] && end.phase.Waiting? && end.queue == s.queue
            && Committed(end) == Committed(s) + s.batch[..rows]
            && (end.table == s.table <==>
                  forall w :: w in s.batch[..rows] ==>
                    w.key in s.table && LastWrite(s.batch[..rows], w.key) == Some(s.table[w.key]))
  {
    var landed := s.batch[..rows];
    CommitAppends(initial, s.ops, landed);
    FoldUnchanged(s.table, landed);
  }

  lemma FoldUnchanged(t: Table, ws: seq<Write>)
    ensures Fold(t, ws) == t <==>
              forall w :: w in ws ==> w.key in t && LastWrite(ws, w.key) == Some(t[w.key])
  {
    forall k: Key
      ensures k in Fold(t, ws) <==> k in t || Wrote(ws, k)
      ensures LastWrite(ws, k).Some? <==> Wrote(ws, k)
      ensures LastWrite(ws, k).Some? ==> k in Fold(t, ws) && Fold(t, ws)[k] == LastWrite(ws, k).value
      ensures LastWrite(ws, k).None? && k in t ==> Fold(t, ws)[k] == t[k]
      ensures LastWrite(ws, k).Some? ==> Write(k, LastWrite(ws, k).value) in ws
    {
      FoldAt(t, ws, k);
    }
    forall w | w in ws
      ensures LastWrite(ws, w.key).Some?
    {
      var i :| 0 <= i < |ws| && ws[i] == w;
      FoldAt(t, ws, w.key);
      assert Wrote(ws, w.key);
    }
    if Fold(t, ws) == t {
      forall w | w in ws
        ensures w.key in t && LastWrite(ws, w.key) == Some(t[w.key])
      {}
    } else {
      var k :| k in Fold(t, ws) && (k !in t || Fold(t, ws)[k] != t[k]);
      assert Write(k, LastWrite(ws, k).value) in ws;
    }
  }

  lemma Extend(start: Repo, events: seq<Event>, mid: Repo, e: Event)
    requires Reaches(start, events, mid) && Enabled(mid, e)
    ensures Reaches(start, events + [e], Step(mid, e))
  {
    assert [e][1..] == [];
    assert Reaches(mid, [e], Step(mid, e));
    ReachesAppend(start, events, mid, [e], Step(mid, e));
  }

  lemma TwoAndFlush(a: Write, b: Write) returns (s: Repo)
    ensures Reaches(Open(map[]), [Upsert(a), Upsert(b), CallFlush], s)
    ensures s == Repo([Put(a), Put(b), Flush(2)], 3, [], Waiting, false, map[], [], [a, b], [FlushCall(2, Joining)])
  {
    s := Open(map[]);
    Extend(Open(map[]), [], s, Upsert(a));
    s := Step(s, Upsert(a));
    Extend(Open(map[]), [Upsert(a)], s, Upsert(b));
    s := Step(s, Upsert(b));
    Extend(Open(map[]), [Upsert(a), Upsert(b)], s, CallFlush);
    s := Step(s, CallFlush);
    assert [] + [Upsert(a)] == [Upsert(a)];
  }

  /** A commit is not one transaction: of two upserts and a flush whose commit fails after one row,
      one is in the table and one is lost, and the flush raises. */
  lemma CommitNotAtomic(a: Write, b: Write) returns (events: seq<Event>, end: Repo)
    requires a.key != b.key
    ensures Reaches(Open(map[]), events, end)
    ensures end.accepted == [a, b] && Pending(end) == []
    ensures end.table == map[a.key := a.row] && end.flushes == [FlushCall(2, RaisedError)]
  {
    var start := Open(map[]);
    events := [Upsert(a), Upsert(b), CallFlush];
    end := TwoAndFlush(a, b);
    Extend(start, events, end, Take);
    events, end := events + [Take], Step(end, Take);
    Extend(start, events, end, Take);
    events, end := events + [Take], Step(end, Take);
    assert end == Repo([Flush(2)], 1, [a, b], Waiting, false, map[], [], [a, b], [FlushCall(2, Joining)]);
    Extend(start, events, end, Take);
    events, end := events + [Take], Step(end, Take);
    Extend(start, events, end, CommitEnds(false, 1));
    events, end := events + [CommitEnds(false, 1)], Step(end, CommitEnds(false, 1));
    assert [a, b][..1] == [a] && Fold(map[], [a]) == map[a.key := a.row];
    assert end.flushes == [FlushCall(2, Woken)];
    Extend(start, events, end, FlushResumes(0));
    events, end := events + [FlushResumes(0)], Step(end, FlushResumes(0));
  }

  // ---------------------------------------------------------------- how far the table lags

  /** Between flushes the writer commits full batches only. */
  ghost predicate QuietOk(s: Repo, base: nat) {
    && !s.failed
    && (forall i :: 0 <= i < |s.queue| ==> s.queue[i].Put?)
    && (s.phase.Committing? ==> s.phase.item.Put? && |s.batch| == WRITE_BATCH_SIZE)
    && (!s.phase.Committing? ==> s.phase.Waiting? && |s.batch| < WRITE_BATCH_SIZE)
    && base <= |Committed(s)| && (|Committed(s)| - base) % WRITE_BATCH_SIZE == 0
  }

  /** An event of an undisturbed stretch: no sentinel is queued, no direct change, no failure. */
  predicate Quiet(e: Event) {
    e.Upsert? || e.Take? || e.FlushResumes? || (e.CommitEnds? && e.ok)
  }

  lemma QuietStep(s: Repo, e: Event, base: nat)
    requires QuietOk(s, base) && Enabled(s, e) && Quiet(e)
    ensures QuietOk(Step(s, e), base)
  {
    if e.CommitEnds? {
      CommitAppends(map[], s.ops, s.batch);
    }
  }

  lemma {:induction false} QuietReaches(start: Repo, events: seq<Event>, end: Repo, base: nat)
    requires QuietOk(start, base) && Reaches(start, events, end)
    requires forall e :: e in events ==> Quiet(e)
    ensures QuietOk(end, base)
    decreases |events|
  {
    if events != [] {
      QuietStep(start, events[0], base);
      QuietReaches(Step(start, events[0]), events[1..], end, base);
    }
  }

  lemma Remainder(full: nat, rest: nat)
    requires full % WRITE_BATCH_SIZE == 0 && rest < WRITE_BATCH_SIZE
    ensures (full + rest) % WRITE_BATCH_SIZE == rest
  {}

  /** The rows of `n` that fill whole batches of 500. */
  function WholeBatches(n: nat): nat {
    n - n % 500
  }

  /** How far the table lags behind: n upserts after the table was last up to date, a writer that
      has caught up with its queue still holds the last n % 500 of them back, so readers see every
      result if and only if n is a multiple of the batch size. */
  lemma LagIsRemainder(initial: Table, start: Repo, events: seq<Event>, end: Repo)
    requires Inv(start, initial) && !start.failed && start.phase.Waiting?
    requires start.queue == [] && start.batch == []
    requires Reaches(start, events, end) && forall e :: e in events ==> Quiet(e)
    requires end.queue == [] && end.phase.Waiting?
    ensures |start.accepted| <= |end.accepted|
    ensures var n := |end.accepted| - |start.accepted|;
            && |Committed(end)| - |Committed(start)| == WholeBatches(n)
            && Pending(end) == end.accepted[|end.accepted| - n % 500..]
            && (Pending(end) == [] <==> n % 500 == 0)
  {
    QuietReaches(start, events, end, |Committed(start)|);
    InvReaches(start, events, end, initial);
    LagOf(end, |Committed(start)|);
    assert start.accepted == Committed(start);
  }

  lemma LagOf(s: Repo, base: nat)
    requires QuietOk(s, base) && HealthyOk(s) && s.queue == [] && s.phase.Waiting?
    ensures base <= |s.accepted|
    ensures var lag := (|s.accepted| - base) % WRITE_BATCH_SIZE;
            lag == |s.batch| && Pending(s) == s.batch == s.accepted[|s.accepted| - lag..]
  {
    assert s.accepted == Committed(s) + s.batch;
    Remainder(|Committed(s)| - base, |s.batch|);
  }

  // ---------------------------------------------------------------- reachable states

  ghost predicate Reachable(s: Repo, initial: Table) {
    exists events: seq<Event> :: Reaches(Open(initial), events, s)
  }

  lemma ReachableInv(s: Repo, initial: Table)
    requires Reachable(s, initial)
    ensures Inv(s, initial)
  {
    var events :| Reaches(Open(initial), events, s);
    InvReaches(Open(initial), events, s, initial);
  }

  lemma ReachableStep(s: Repo, e: Event, initial: Table)
    requires Reachable(s, initial) && Enabled(s, e)
    ensures Reachable(Step(s, e), initial)
  {
    var events :| Reaches(Open(initial), events, s);
    Extend(Open(initial), events, s, e);
  }
}
