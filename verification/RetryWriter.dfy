/** The retry rounds on the writer of collector/repository.py: what a round reads is the writer's table,
    and a run of pool and writer together is a run of `RetryRounds`. */
module RetryWriter {
  import opened Prelude
  import opened ResultStore
  import opened SearchBatch
  import opened RetryRounds
  import opened RetryLadder
  import BatchWriter
  import WriterRefinement

  /** The store the rounds see is the writer's: its table, and what it has accepted but not committed. */
  function View(repo: BatchWriter.Repo): LaggedStore {
    LaggedStore(repo.table, BatchWriter.Pending(repo))
  }

  lemma ViewCommit(repo: BatchWriter.Repo, rows: nat)
    requires BatchWriter.Enabled(repo, BatchWriter.CommitEnds(true, rows))
    ensures var v, n := View(repo), |repo.batch|;
            View(BatchWriter.Step(repo, BatchWriter.CommitEnds(true, rows)))
            == LaggedStore(Fold(v.table, v.pending[..n]), v.pending[n..])
  {
    var queued := BatchWriter.Rows(repo.queue);
    assert (repo.batch + queued)[..|repo.batch|] == repo.batch && (repo.batch + queued)[|repo.batch|..] == queued;
    assert [] + queued == queued;
  }

  /** While no commit fails, an upsert joins the pending results, a commit moves a first part of them
      into the table, and nothing else changes what the rounds see. */
  lemma ViewStep(repo: BatchWriter.Repo, e: BatchWriter.Event)
    requires BatchWriter.Enabled(repo, e) && !repo.failed && !e.Direct?
    requires e.CommitEnds? ==> e.ok
    ensures var v, v' := View(repo), View(BatchWriter.Step(repo, e));
            match e
            case Upsert(w) => v' == LaggedStore(v.table, v.pending + [w])
            case CommitEnds(_, _) =>
              var n := |repo.batch|;
              v' == LaggedStore(Fold(v.table, v.pending[..n]), v.pending[n..])
            case _ => v' == v
  {
    match e
    case Upsert(w) => BatchWriter.RowsAppend(repo.queue, [BatchWriter.Put(w)]);
    case CallFlush => BatchWriter.RowsAppend(repo.queue, [BatchWriter.Flush(|repo.accepted|)]);
    case CallClose => BatchWriter.RowsAppend(repo.queue, [BatchWriter.Stop]);
    case CommitEnds(ok, rows) => ViewCommit(repo, rows);
    case _ =>
  }

  /** Between two reads the writer, however it is scheduled, does what a round of the model does: the
      batch's rows join the pending ones, and some first part of them all reaches the table. */
  lemma RoundOfWriter(initial: Table, start: BatchWriter.Repo, events: seq<BatchWriter.Event>,
                      end: BatchWriter.Repo, today: int, b: Batch) returns (r: Round)
    requires BatchWriter.Inv(start, initial) && BatchWriter.Reaches(start, events, end)
    requires WriterRefinement.NoDirect(events) && !end.failed && end.accepted == start.accepted + b.writes
    ensures r.today == today && r.batch == b && r.landed <= |View(start).pending| + |b.writes|
    ensures r.landed == |BatchWriter.Committed(end)| - |BatchWriter.Committed(start)|
    ensures View(end) == AfterRound(View(start), r)
  {
    var landed := WriterRefinement.RefinesFrom(initial, start, events, end);
    assert end.accepted[|start.accepted|..] == b.writes;
    var queued := View(start).pending + b.writes;
    assert queued[..|landed|] == landed && queued[|landed|..] == View(end).pending;
    r := Round(today, b, |landed|);
  }

  /** A flush that returns normally after the last upsert drains the store: the rounds then see every
      result in the table, as a sequential writer would have left it. */
  lemma FlushDrains(initial: Table, events: seq<BatchWriter.Event>, repo: BatchWriter.Repo, i: nat)
    requires BatchWriter.Reaches(BatchWriter.Open(initial), events, repo) && !repo.failed
    requires i < |repo.flushes| && repo.flushes[i] == BatchWriter.FlushCall(|repo.accepted|, BatchWriter.Returned)
    ensures View(repo).pending == [] && BatchWriter.Committed(repo) == repo.accepted
    ensures WriterRefinement.NoDirect(events) ==> View(repo).table == Fold(initial, repo.accepted)
  {
    BatchWriter.InvReaches(BatchWriter.Open(initial), events, repo, initial);
    WriterRefinement.FlushGuarantee(initial, events, repo, i);
    assert repo.accepted[..|repo.accepted|] == repo.accepted;
    assert |BatchWriter.Pending(repo)| == 0;
    if WriterRefinement.NoDirect(events) {
      WriterRefinement.WriterRefines(initial, events, repo);
    }
  }

  /** The repository after `run` has purged and seeded it. */
  function Prepared(before: Table, keys: seq<Key>): BatchWriter.Repo {
    BatchWriter.Open(before).(table := Seed(Purge(before), keys), ops := [PurgeSeeds, SeedKeys(keys)])
  }

  lemma PreparedOk(before: Table, keys: seq<Key>)
    ensures BatchWriter.Reaches(BatchWriter.Open(before),
              [BatchWriter.Direct(PurgeSeeds), BatchWriter.Direct(SeedKeys(keys))], Prepared(before, keys))
    ensures BatchWriter.Committed(Prepared(before, keys)) == []
  {
    var purge, seed := BatchWriter.Direct(PurgeSeeds), BatchWriter.Direct(SeedKeys(keys));
    var s1 := BatchWriter.Step(BatchWriter.Open(before), purge);
    assert s1.ops == [PurgeSeeds];
    WriterRefinement.Extend(BatchWriter.Open(before), [], BatchWriter.Open(before), purge);
    assert [] + [purge] == [purge] && [purge] + [seed] == [purge, seed];
    WriterRefinement.Extend(BatchWriter.Open(before), [purge], s1, seed);
    assert BatchWriter.Step(s1, seed).ops == [PurgeSeeds, SeedKeys(keys)];
    BatchWriter.StoresAppend([], PurgeSeeds);
    BatchWriter.StoresAppend([PurgeSeeds], SeedKeys(keys));
    assert [] + [PurgeSeeds] == [PurgeSeeds];
  }

  lemma PreparedDrains(before: Table, keys: seq<Key>, events: seq<BatchWriter.Event>, end: BatchWriter.Repo, i: nat)
    requires BatchWriter.Reaches(Prepared(before, keys), events, end) && WriterRefinement.NoDirect(events)
    requires !end.failed
    requires i < |end.flushes| && end.flushes[i] == BatchWriter.FlushCall(|end.accepted|, BatchWriter.Returned)
    ensures View(end) == LaggedStore(Fold(Seed(Purge(before), keys), end.accepted), [])
  {
    var start, mid := BatchWriter.Open(before), Prepared(before, keys);
    var setup := [BatchWriter.Direct(PurgeSeeds), BatchWriter.Direct(SeedKeys(keys))];
    PreparedOk(before, keys);
    WriterRefinement.ReachesAppend(start, setup, mid, events, end);
    FlushDrains(before, setup + events, end, i);
    BatchWriter.InvReaches(start, setup, mid, before);
    var landed := WriterRefinement.RefinesFrom(before, mid, events, end);
    assert [] + landed == landed;
  }

  /** The first pass, whole: the table is purged and seeded, any workers search every key in any order
      while the writer runs beside them, and the flush returns. Then the store is drained, it holds
      exactly what the pass found, and no row of it is an unsearched placeholder. */
  lemma FirstPassDrains(before: Table, b: Batch, events: seq<BatchWriter.Event>, end: BatchWriter.Repo, i: nat)
    requires Pass(b, KeySet(b.keys), 0)
    requires BatchWriter.Reaches(Prepared(before, b.keys), events, end) && WriterRefinement.NoDirect(events)
    requires !end.failed && end.accepted == b.writes
    requires i < |end.flushes| && end.flushes[i] == BatchWriter.FlushCall(|end.accepted|, BatchWriter.Returned)
    ensures View(end) == LaggedStore(Fold(Seed(Purge(before), b.keys), b.writes), [])
    ensures forall k :: k in b.keys ==> k in end.table
    ensures forall k :: k in end.table ==> !Unsearched(end.table[k])
  {
    PreparedDrains(before, b.keys, events, end, i);
    PassComplete(b, KeySet(b.keys), 0);
    forall k
      ensures k in b.keys ==> k in end.table
      ensures k in end.table ==> !Unsearched(end.table[k])
    {
      FirstPassLeavesNoPlaceholder(before, b.keys, b.writes, k);
    }
  }

  /** A fresh run begins as the model says, whatever the writer's schedule during the first pass. */
  lemma RunBegins(before: Table, b: Batch, events: seq<BatchWriter.Event>, end: BatchWriter.Repo, i: nat,
                  cfg: Config, today: int) returns (run: FreshRun)
    requires Pass(b, KeySet(b.keys), 0) && !cfg.retryAll
    requires BatchWriter.Reaches(Prepared(before, b.keys), events, end) && WriterRefinement.NoDirect(events)
    requires !end.failed && end.accepted == b.writes
    requires i < |end.flushes| && end.flushes[i] == BatchWriter.FlushCall(|end.accepted|, BatchWriter.Returned)
    ensures FreshRunOk(run) && run.loop.rounds == [] && run.loop.stores == [View(end)]
    ensures run.before == before && run.first == b && run.loop.cfg == cfg && run.loop.today == today
  {
    FirstPassDrains(before, b, events, end, i);
    run := FreshRun(before, b, Loop(cfg, today, [], [View(end)]));
  }

  /** And goes on as the model says: a round that reads the writer's table, searches what it selects
      and hands over its rows while the writer runs on is one more round of the run. */
  lemma RunGoesOn(run: FreshRun, initial: Table, start: BatchWriter.Repo, events: seq<BatchWriter.Event>,
                  end: BatchWriter.Repo, day: int, b: Batch) returns (run': FreshRun)
    requires FreshRunOk(run) && run.loop.stores[|run.loop.rounds|] == View(start)
    requires BatchWriter.Inv(start, initial) && BatchWriter.Reaches(start, events, end)
    requires WriterRefinement.NoDirect(events) && !end.failed && end.accepted == start.accepted + b.writes
    requires var n := |run.loop.rounds|;
             && n < ROUNDS && DayBefore(run.loop, n) <= day
             && GetFailed(start.table, Budget(run.loop.cfg, n + 1), run.loop.cfg.since) != {}
             && Pass(b, Attempted(start.table, run.loop.cfg, n + 1, day), n + 1)
    ensures FreshRunOk(run') && run'.before == run.before && run'.first == run.first
    ensures run'.loop.cfg == run.loop.cfg && run'.loop.today == run.loop.today
    ensures var n := |run.loop.rounds|;
            && |run'.loop.rounds| == n + 1 && run'.loop.rounds[n].batch == b && run'.loop.rounds[n].today == day
            && (forall i :: 0 <= i < n ==> run'.loop.rounds[i] == run.loop.rounds[i])
            && run'.loop.stores[n + 1] == View(end)
  {
    var r := RoundOfWriter(initial, start, events, end, day, b);
    LoopExtends(run.loop, r);
    run' := RunExtends(run, r);
  }

  // ---------------------------------------------------------------- small rounds

  /** From a drained writer, a batch of fewer than 500 rows leaves the table as it was, whatever the
      writer has done by the next read: it commits on its own only when it holds 500 rows. */
  lemma SmallBatchStaysPending(initial: Table, start: BatchWriter.Repo, events: seq<BatchWriter.Event>,
                               end: BatchWriter.Repo, writes: seq<Write>)
    requires BatchWriter.Inv(start, initial) && !start.failed && start.phase.Waiting?
    requires start.queue == [] && start.batch == []
    requires BatchWriter.Reaches(start, events, end) && forall e :: e in events ==> WriterRefinement.Quiet(e)
    requires end.accepted == start.accepted + writes && |writes| < BatchWriter.WRITE_BATCH_SIZE
    ensures View(start) == LaggedStore(start.table, []) && View(end) == LaggedStore(start.table, writes)
  {
    WriterRefinement.QuietReaches(start, events, end, |BatchWriter.Committed(start)|);
    var landed := WriterRefinement.RefinesFrom(initial, start, events, end);
    assert end.accepted[|start.accepted|..] == writes;
    assert [] + writes == writes;
    assert |landed| == 0;
    assert landed == [];
  }

  /** Small rounds repeat: if the writer was drained when a round began and the round stores fewer than
      500 rows, then, however the writer is scheduled, the next round searches again every key of this
      one that has not departed, including those just found. */
  lemma SmallRoundRepeats(initial: Table, start: BatchWriter.Repo, events: seq<BatchWriter.Event>,
                          end: BatchWriter.Repo, cfg: Config, own: set<Key>, round: nat, b: Batch,
                          day: int, today: int)
    requires BatchWriter.Inv(start, initial) && !start.failed && start.phase.Waiting?
    requires start.queue == [] && start.batch == []
    requires BatchWriter.Reaches(start, events, end) && forall e :: e in events ==> WriterRefinement.Quiet(e)
    requires Pass(b, Attempted(start.table, cfg, round, day), round) && day <= today
    requires end.accepted == start.accepted + b.writes && |b.writes| < BatchWriter.WRITE_BATCH_SIZE
    requires WithinBudget(start.table, cfg, own, round, day)
    ensures View(end) == LaggedStore(start.table, b.writes)
    ensures forall k :: k in own ==>
              (k in Attempted(end.table, cfg, round + 1, today) <==>
                 k in Attempted(start.table, cfg, round, day) && k.depDate >= today)
  {
    SmallBatchStaysPending(initial, start, events, end, b.writes);
    forall k | k in own
      ensures k in Attempted(end.table, cfg, round + 1, today) <==>
                k in Attempted(start.table, cfg, round, day) && k.depDate >= today
    {
      AttemptedMeans(start.table, cfg, round, day, k);
      AttemptedMeans(end.table, cfg, round + 1, today, k);
    }
  }

  /** Rows pending for a pass, each over the failure it was searched for. */
  lemma PassPending(t: Table, cfg: Config, own: set<Key>, round: nat, b: Batch, day: int, today: int)
    requires Pass(b, Attempted(t, cfg, round, day), round) && day <= today
    ensures PendingAgrees(LaggedStore(t, b.writes), cfg, own, today) <==>
              forall i :: 0 <= i < |b.writes| && b.writes[i].key in own && b.writes[i].key.depDate >= today ==>
                Retryable(b.writes[i].row)
  {
    PassComplete(b, Attempted(t, cfg, round, day), round);
    forall i | 0 <= i < |b.writes|
      ensures LastWrite(b.writes, b.writes[i].key) == Some(b.writes[i].row)
      ensures Worth(t, cfg, day, b.writes[i].key)
    {
      OnlyWrite(b.writes, i);
      AttemptedMeans(t, cfg, round, day, b.writes[i].key);
    }
    forall k | LastWrite(b.writes, k).Some?
      ensures exists i :: 0 <= i < |b.writes| && b.writes[i] == Write(k, LastWrite(b.writes, k).value)
    {
      FoldAt(map[], b.writes, k);
    }
  }

  /** And the repeated round agrees with the results if and only if the small round found nothing for
      the keys still in play: none of their rows is a success or a permanent failure. */
  lemma SmallRoundReadsIff(initial: Table, start: BatchWriter.Repo, events: seq<BatchWriter.Event>,
                           end: BatchWriter.Repo, cfg: Config, own: set<Key>, round: nat, b: Batch,
                           day: int, today: int)
    requires BatchWriter.Inv(start, initial) && !start.failed && start.phase.Waiting?
    requires start.queue == [] && start.batch == []
    requires BatchWriter.Reaches(start, events, end) && forall e :: e in events ==> WriterRefinement.Quiet(e)
    requires Pass(b, Attempted(start.table, cfg, round, day), round) && day <= today
    requires end.accepted == start.accepted + b.writes && |b.writes| < BatchWriter.WRITE_BATCH_SIZE
    requires WithinBudget(start.table, cfg, own, round, day)
    ensures ReadsLatest(View(end), cfg, own, round + 1, today) <==>
              forall i :: 0 <= i < |b.writes| && b.writes[i].key in own && b.writes[i].key.depDate >= today ==>
                Retryable(b.writes[i].row)
  {
    SmallBatchStaysPending(initial, start, events, end, b.writes);
    ReadsLatestIff(View(end), cfg, own, round + 1, today);
    PassPending(start.table, cfg, own, round, b, day, today);
  }
}
