/** Whole runs exist: whatever the tasks meet, workers and writer can bring a fresh run to its end. */
module RunExistence {
  import opened Prelude
  import opened ResultStore
  import opened SearchBatch
  import opened RetryRounds
  import opened RetryWriter
  import opened WholeRuns
  import opened FlushOutcomes
  import BatchWriter
  import WriterRefinement

  /** Any finite set of keys can be listed. */
  lemma {:induction false} Listed(keys: set<Key>) returns (rows: seq<Key>)
    ensures DistinctKeys(rows) && KeySet(rows) == keys
  {
    if keys == {} {
      rows := [];
    } else {
      var k :| k in keys;
      var rest := Listed(keys - {k});
      assert k !in KeySet(rest);
      rows := rest + [k];
      assert KeySet(rows) == KeySet(rest) + {k};
    }
  }

  lemma PreparedInUse(before: Table, keys: seq<Key>)
    ensures InUse(Prepared(before, keys), before)
  {
    PreparedOk(before, keys);
    BatchWriter.InvReaches(BatchWriter.Open(before),
      [BatchWriter.Direct(PurgeSeeds), BatchWriter.Direct(SeedKeys(keys))], Prepared(before, keys), before);
  }

  lemma UpsertsOnly(ws: seq<Write>)
    ensures WriterRefinement.NoDirect(Upserts(ws))
  {}

  /** Any rows can be handed to a writer in use, which does nothing yet. */
  lemma RowsHanded(start: BatchWriter.Repo, initial: Table, ws: seq<Write>)
    returns (events: seq<BatchWriter.Event>, end: BatchWriter.Repo)
    requires InUse(start, initial)
    ensures Writes(start, events, end, ws) && InUse(end, initial) && end.flushes == start.flushes
  {
    events := Upserts(ws);
    end := UpsertAll(start, initial, ws);
    UpsertsOnly(ws);
  }

  /** And any rows handed over can be flushed. */
  lemma RowsFlushed(start: BatchWriter.Repo, initial: Table, ws: seq<Write>)
    returns (events: seq<BatchWriter.Event>, end: BatchWriter.Repo)
    requires InUse(start, initial)
    ensures Writes(start, events, end, ws) && InUse(end, initial) && Flushed(end)
  {
    var filled: BatchWriter.Repo;
    events, filled := RowsHanded(start, initial, ws);
    var i := |filled.flushes|;
    var steps: seq<BatchWriter.Event>;
    steps, end := FlushReturns(initial, filled);
    var flush := [BatchWriter.CallFlush] + steps + [BatchWriter.FlushResumes(i)];
    WriterRefinement.ReachesAppend(start, events, filled, flush, end);
    Smooth(steps);
    events := events + flush;
    assert end.flushes[i] == BatchWriter.FlushCall(|end.accepted|, BatchWriter.Returned);
  }

  /** A whole run but for its end, in which every task has met its script. */
  ghost predicate SoFar(w: WholeRun, scripts: (nat, Key) -> Script) {
    && !w.cfg.retryAll && |w.rounds| <= ROUNDS
    && Pass(w.first.batch, KeySet(w.first.batch.keys), 0)
    && Writes(Prepared(w.before, w.first.batch.keys), w.first.events, w.first.end, w.first.batch.writes)
    && Flushed(w.first.end)
    && (forall i :: 0 <= i < |w.rounds| ==> RoundLeg(w, i))
    && (forall i :: 0 <= i < |AllPasses(w)| ==> Met(AllPasses(w)[i], k => scripts(i, k)))
    && InUse(RepoAt(w, |w.rounds|), w.before)
  }

  lemma MetByWorker(b: Batch, keys: seq<Key>, scripts: Key -> Script)
    requires b.writes == Outcomes(keys, b.round, scripts)
    ensures Met(b, scripts)
  {}

  lemma FirstLeg(before: Table, cfg: Config, today: int, keys: seq<Key>, scripts: (nat, Key) -> Script)
    returns (w: WholeRun)
    requires DistinctKeys(keys) && !cfg.retryAll
    ensures SoFar(w, scripts) && w.rounds == []
    ensures w.before == before && w.cfg == cfg && w.today == today && w.first.batch.keys == keys
  {
    var own := k => scripts(0, k);
    var b := OneWorkerPass(keys, 0, own);
    MetByWorker(b, keys, own);
    PreparedInUse(before, keys);
    var events, end := RowsFlushed(Prepared(before, keys), before, b.writes);
    w := WholeRun(before, cfg, today, Leg(today, b, events, end), [], [], end);
    assert AllPasses(w) == [b];
  }

  lemma LegsKept(w: WholeRun, leg: Leg, i: nat)
    requires i < |w.rounds| && RoundLeg(w, i)
    ensures RoundLeg(w.(rounds := w.rounds + [leg]), i)
  {
    var w' := w.(rounds := w.rounds + [leg]);
    assert RepoAt(w', i) == RepoAt(w, i) && DayAt(w', i) == DayAt(w, i) && w'.rounds[i] == w.rounds[i];
  }

  lemma PassesGrow(w: WholeRun, leg: Leg, scripts: (nat, Key) -> Script)
    requires forall i :: 0 <= i < |AllPasses(w)| ==> Met(AllPasses(w)[i], k => scripts(i, k))
    requires Met(leg.batch, k => scripts(|w.rounds| + 1, k))
    ensures var w' := w.(rounds := w.rounds + [leg]);
            forall i :: 0 <= i < |AllPasses(w')| ==> Met(AllPasses(w')[i], k => scripts(i, k))
  {
    var w' := w.(rounds := w.rounds + [leg]);
    assert AllPasses(w') == AllPasses(w) + [leg.batch];
  }

  /** Adding a leg keeps the ones before it. */
  lemma LegAdded(w: WholeRun, leg: Leg, scripts: (nat, Key) -> Script)
    requires SoFar(w, scripts) && |w.rounds| < ROUNDS
    requires RoundLeg(w.(rounds := w.rounds + [leg]), |w.rounds|)
    requires Met(leg.batch, k => scripts(|w.rounds| + 1, k)) && InUse(leg.end, w.before)
    ensures SoFar(w.(rounds := w.rounds + [leg]), scripts)
  {
    var w' := w.(rounds := w.rounds + [leg]);
    forall i | 0 <= i < |w'.rounds|
      ensures RoundLeg(w', i)
    {
      if i < |w.rounds| {
        LegsKept(w, leg, i);
      }
    }
    PassesGrow(w, leg, scripts);
  }

  lemma NextLeg(w: WholeRun, scripts: (nat, Key) -> Script) returns (w': WholeRun)
    requires SoFar(w, scripts) && |w.rounds| < ROUNDS
    requires GetFailed(RepoAt(w, |w.rounds|).table, Budget(w.cfg, |w.rounds| + 1), w.cfg.since) != {}
    ensures SoFar(w', scripts) && |w'.rounds| == |w.rounds| + 1
    ensures w'.before == w.before && w'.cfg == w.cfg && w'.today == w.today && w'.first == w.first
  {
    var n := |w.rounds|;
    var start, day := RepoAt(w, n), DayAt(w, n);
    var own := k => scripts(n + 1, k);
    var keys := Listed(Attempted(start.table, w.cfg, n + 1, day));
    var b := OneWorkerPass(keys, n + 1, own);
    MetByWorker(b, keys, own);
    var events, end := RowsHanded(start, w.before, b.writes);
    var leg := Leg(day, b, events, end);
    w' := w.(rounds := w.rounds + [leg]);
    assert RepoAt(w', n) == start && DayAt(w', n) == day;
    assert RoundLeg(w', n);
    LegAdded(w, leg, scripts);
  }

  lemma {:induction false} RoundsOn(w: WholeRun, scripts: (nat, Key) -> Script) returns (w': WholeRun)
    requires SoFar(w, scripts)
    ensures SoFar(w', scripts)
    ensures var n := |w'.rounds|;
            n < ROUNDS ==> GetFailed(RepoAt(w', n).table, Budget(w'.cfg, n + 1), w'.cfg.since) == {}
    ensures w'.before == w.before && w'.cfg == w.cfg && w'.today == w.today && w'.first == w.first
    decreases ROUNDS - |w.rounds|
  {
    var n := |w.rounds|;
    if n < ROUNDS && GetFailed(RepoAt(w, n).table, Budget(w.cfg, n + 1), w.cfg.since) != {} {
      var next := NextLeg(w, scripts);
      w' := RoundsOn(next, scripts);
    } else {
      w' := w;
    }
  }

  lemma ClosingLeg(w: WholeRun, scripts: (nat, Key) -> Script) returns (w': WholeRun)
    requires SoFar(w, scripts)
    requires var n := |w.rounds|;
             n < ROUNDS ==> GetFailed(RepoAt(w, n).table, Budget(w.cfg, n + 1), w.cfg.since) == {}
    ensures WholeRunOk(w') && w' == w.(closing := w'.closing, end := w'.end)
  {
    var n := |w.rounds|;
    var events, end := RowsFlushed(RepoAt(w, n), w.before, []);
    w' := w.(closing := events, end := end);
    assert RepoAt(w', n) == RepoAt(w, n);
    forall i | 0 <= i < n
      ensures RoundLeg(w', i)
    {
      assert RoundLeg(w, i);
      assert RepoAt(w', i) == RepoAt(w, i) && DayAt(w', i) == DayAt(w, i);
    }
  }

  /** A fresh run can always be brought to its end, its flushes included: from any table, over any
      distinct keys, and whatever each task meets in each pass. */
  lemma WholeRunExists(before: Table, cfg: Config, today: int, keys: seq<Key>, scripts: (nat, Key) -> Script)
    returns (w: WholeRun)
    requires DistinctKeys(keys) && !cfg.retryAll
    ensures WholeRunOk(w)
    ensures w.before == before && w.cfg == cfg && w.today == today && w.first.batch.keys == keys
    ensures forall i :: 0 <= i < |AllPasses(w)| ==> Met(AllPasses(w)[i], k => scripts(i, k))
  {
    var first := FirstLeg(before, cfg, today, keys, scripts);
    var all := RoundsOn(first, scripts);
    w := ClosingLeg(all, scripts);
    assert AllPasses(w) == AllPasses(all);
  }
}
