/** A whole fresh `run` of collector/services/search_pipeline.py, with the writer of collector/repository.py
    beside it: the first pass, its flush, up to three rounds and the flush after them. */
module WholeRuns {
  import opened Prelude
  import opened ResultStore
  import opened SearchBatch
  import opened RetryRounds
  import opened RetryLadder
  import opened RetryCounts
  import opened RetryWriter
  import BatchWriter
  import WriterRefinement

  /** One pass of the workers, and what the writer does from its read to the next. */
  datatype Leg = Leg(day: int, batch: Batch, events: seq<BatchWriter.Event>, end: BatchWriter.Repo)

  datatype WholeRun = WholeRun(
    before: Table,
    cfg: Config,
    today: int,
    first: Leg,
    rounds: seq<Leg>,
    closing: seq<BatchWriter.Event>,
    end: BatchWriter.Repo)

  /** The writer's state and the day at the i-th read. */
  function RepoAt(w: WholeRun, i: nat): BatchWriter.Repo
    requires i <= |w.rounds|
  {
    if i == 0 then w.first.end else w.rounds[i - 1].end
  }

  function DayAt(w: WholeRun, i: nat): int
    requires i <= |w.rounds|
  {
    if i == 0 then w.today else w.rounds[i - 1].day
  }

  function AllPasses(w: WholeRun): (passes: seq<Batch>)
    ensures |passes| == |w.rounds| + 1
  {
    [w.first.batch] + seq(|w.rounds|, i requires 0 <= i < |w.rounds| => w.rounds[i].batch)
  }

  /** A flush covering every upsert accepted has returned. */
  ghost predicate Flushed(repo: BatchWriter.Repo) {
    exists i :: 0 <= i < |repo.flushes| &&
                repo.flushes[i] == BatchWriter.FlushCall(|repo.accepted|, BatchWriter.Returned)
  }

  /** The writer runs on, on any schedule and without a failed commit, and is handed the rows `ws`. */
  ghost predicate Writes(start: BatchWriter.Repo, events: seq<BatchWriter.Event>, end: BatchWriter.Repo,
                         ws: seq<Write>) {
    && BatchWriter.Reaches(start, events, end) && WriterRefinement.NoDirect(events)
    && !end.failed && end.accepted == start.accepted + ws
  }

  ghost predicate RoundLeg(w: WholeRun, i: nat)
    requires i < |w.rounds|
  {
    var start, leg := RepoAt(w, i), w.rounds[i];
    && DayAt(w, i) <= leg.day
    && GetFailed(start.table, Budget(w.cfg, i + 1), w.cfg.since) != {}
    && Pass(leg.batch, Attempted(start.table, w.cfg, i + 1, leg.day), i + 1)
    && Writes(start, leg.events, leg.end, leg.batch.writes)
  }

  /** The run as the source makes it: every round reads the writer's table as it finds it. */
  ghost predicate WholeRunOk(w: WholeRun) {
    var n := |w.rounds|;
    && !w.cfg.retryAll && n <= ROUNDS
    && Pass(w.first.batch, KeySet(w.first.batch.keys), 0)
    && Writes(Prepared(w.before, w.first.batch.keys), w.first.events, w.first.end, w.first.batch.writes)
    && Flushed(w.first.end)
    && (forall i :: 0 <= i < n ==> RoundLeg(w, i))
    && (n < ROUNDS ==> GetFailed(RepoAt(w, n).table, Budget(w.cfg, n + 1), w.cfg.since) == {})
    && Writes(RepoAt(w, n), w.closing, w.end, [])
    && Flushed(w.end)
  }

  /** The model's run that follows the real one up to the i-th read. */
  ghost predicate Follows(run: FreshRun, w: WholeRun, i: nat)
    requires i <= |w.rounds|
  {
    && FreshRunOk(run) && run.before == w.before && run.first == w.first.batch
    && run.loop.cfg == w.cfg && run.loop.today == w.today && |run.loop.rounds| == i
    && (forall j :: 0 <= j < i ==>
          run.loop.rounds[j].batch == w.rounds[j].batch && run.loop.rounds[j].today == w.rounds[j].day)
    && run.loop.stores[i] == View(RepoAt(w, i))
  }

  lemma FirstEnds(w: WholeRun)
    requires WholeRunOk(w)
    ensures BatchWriter.Inv(w.first.end, w.before)
  {
    var start, mid := BatchWriter.Open(w.before), Prepared(w.before, w.first.batch.keys);
    var setup := [BatchWriter.Direct(PurgeSeeds), BatchWriter.Direct(SeedKeys(w.first.batch.keys))];
    PreparedOk(w.before, w.first.batch.keys);
    BatchWriter.InvReaches(start, setup, mid, w.before);
    BatchWriter.InvReaches(mid, w.first.events, w.first.end, w.before);
  }

  lemma {:induction false} ReposInv(w: WholeRun, i: nat)
    requires WholeRunOk(w) && i <= |w.rounds|
    ensures BatchWriter.Inv(RepoAt(w, i), w.before)
  {
    if i == 0 {
      FirstEnds(w);
    } else {
      assert RoundLeg(w, i - 1);
      ReposInv(w, i - 1);
      BatchWriter.InvReaches(RepoAt(w, i - 1), w.rounds[i - 1].events, w.rounds[i - 1].end, w.before);
    }
  }

  lemma FollowsFirst(w: WholeRun) returns (run: FreshRun)
    requires WholeRunOk(w)
    ensures Follows(run, w, 0)
  {
    var end := w.first.end;
    var f :| 0 <= f < |end.flushes| && end.flushes[f] == BatchWriter.FlushCall(|end.accepted|, BatchWriter.Returned);
    assert end.accepted == [] + w.first.batch.writes == w.first.batch.writes;
    run := RunBegins(w.before, w.first.batch, w.first.events, end, f, w.cfg, w.today);
  }

  lemma FollowsOn(w: WholeRun, i: nat, run: FreshRun) returns (run': FreshRun)
    requires i < |w.rounds| && i < ROUNDS && RoundLeg(w, i) && Follows(run, w, i)
    requires BatchWriter.Inv(RepoAt(w, i), w.before)
    ensures Follows(run', w, i + 1)
  {
    var leg := w.rounds[i];
    run' := RunGoesOn(run, w.before, RepoAt(w, i), leg.events, leg.end, leg.day, leg.batch);
  }

  lemma {:induction false} Modelled(w: WholeRun, i: nat) returns (run: FreshRun)
    requires WholeRunOk(w) && i <= |w.rounds|
    ensures Follows(run, w, i)
  {
    if i == 0 {
      run := FollowsFirst(w);
    } else {
      var before := Modelled(w, i - 1);
      assert RoundLeg(w, i - 1);
      ReposInv(w, i - 1);
      run := FollowsOn(w, i - 1, before);
    }
  }

  /** A flush that has returned leaves nothing pending of what it covers. */
  lemma FlushedDrains(repo: BatchWriter.Repo, initial: Table)
    requires BatchWriter.Inv(repo, initial) && !repo.failed && Flushed(repo)
    ensures BatchWriter.Pending(repo) == []
  {
    assert repo.accepted[..|repo.accepted|] == repo.accepted;
    assert |BatchWriter.Pending(repo)| == 0;
  }

  /** The last flush puts what the last read left pending into the table. */
  lemma ClosingDrains(w: WholeRun)
    requires WholeRunOk(w)
    ensures BatchWriter.Pending(w.end) == [] && w.end.table == Latest(View(RepoAt(w, |w.rounds|)))
  {
    var start := RepoAt(w, |w.rounds|);
    ReposInv(w, |w.rounds|);
    BatchWriter.InvReaches(start, w.closing, w.end, w.before);
    FlushedDrains(w.end, w.before);
    var landed := WriterRefinement.RefinesFrom(w.before, start, w.closing, w.end);
    assert w.end.accepted[|start.accepted|..] == [];
    assert BatchWriter.Pending(start) + [] == BatchWriter.Pending(start) && landed + [] == landed;
  }

  lemma PassesFollow(run: FreshRun, w: WholeRun)
    requires Follows(run, w, |w.rounds|)
    ensures Passes(run) == AllPasses(w)
  {}

  /** The whole run: whatever the attempts meet, however workers and writer interleave and however far the
      rounds' reads lag, after the last flush nothing is pending, every key of the run has a row, and each
      key's row is the one stored by the last pass that searched it, or what an older run left; and no
      key has been searched more than 12 times. */
  lemma WholeRunOutcome(w: WholeRun, k: Key)
    requires WholeRunOk(w)
    ensures BatchWriter.Pending(w.end) == []
    ensures k in w.first.batch.keys ==> LastOutcome(AllPasses(w), k).Some?
    ensures HoldsOutcome(w.end.table, w.before, AllPasses(w), k)
    ensures SearchesOf(k, AllPasses(w)) <= 12
  {
    var n := |w.rounds|;
    var run := Modelled(w, n);
    PassesFollow(run, w);
    ClosingDrains(w);
    LatestOutcomes(run, n, k);
    assert Passes(run)[..n + 1] == Passes(run);
    AttemptBudget(run, k);
  }

  /** Named by the pass: the p-th searched `k` and none after it did. */
  lemma LastPassDecides(w: WholeRun, k: Key, p: nat)
    requires WholeRunOk(w) && p < |AllPasses(w)| && k in AllPasses(w)[p].searches
    requires forall q :: p < q < |AllPasses(w)| ==> k !in AllPasses(w)[q].searches
    ensures k in w.end.table && Write(k, w.end.table[k]) in AllPasses(w)[p].writes
  {
    var run := Modelled(w, |w.rounds|);
    PassesFollow(run, w);
    forall q | 0 <= q < |AllPasses(w)|
      ensures k in AllPasses(w)[q].searches <==> Wrote(AllPasses(w)[q].writes, k)
    {
      PassesWrite(run, q, k);
    }
    LastSearchCounts(AllPasses(w), k, p);
    WholeRunOutcome(w, k);
    FoldAt(map[], AllPasses(w)[p].writes, k);
  }
}
