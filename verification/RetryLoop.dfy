/** The retry rounds of `_retry_loop` and `run` in collector/services/search_pipeline.py, over a
    result store whose table may lag behind the results already handed to its writer.

    A round reads the table alone, since nothing flushes between rounds. `pending` are the results
    the writer has accepted but not committed; between two reads it may commit any first part. */
module RetryRounds {
  import opened Prelude
  import opened ResultStore
  import opened SearchBatch

  const ROUNDS := 3

  datatype LaggedStore = LaggedStore(table: Table, pending: seq<Write>)

  /** The table a flush would leave: every result counts, the latest one per key. */
  function Latest(s: LaggedStore): Table {
    Fold(s.table, s.pending)
  }

  /** What stays fixed during the loop: the first day still worth retrying, the routes some provider
      covers, and whether this is a continue run, which lifts the attempt budget. */
  datatype Config = Config(since: int, covered: set<string>, retryAll: bool)

  function Budget(cfg: Config, round: nat): Option<int> {
    if cfg.retryAll then None else Some(round * MAX_ATTEMPTS)
  }

  /** The keys a round searches: what `get_failed` selects, less departures that have passed by
      `today` and routes no provider covers. */
  function Attempted(t: Table, cfg: Config, round: nat, today: int): set<Key> {
    set k | k in GetFailed(t, Budget(cfg, round), cfg.since) && k.depDate >= today && k.route in cfg.covered
  }

  /** One round: the day it runs on, its batch, and how many pending rows the writer commits before
      the next read. */
  datatype Round = Round(today: int, batch: Batch, landed: nat)

  ghost predicate RoundOk(s: LaggedStore, cfg: Config, round: nat, r: Round) {
    && Pass(r.batch, Attempted(s.table, cfg, round, r.today), round)
    && r.landed <= |s.pending| + |r.batch.writes|
  }

  function AfterRound(s: LaggedStore, r: Round): LaggedStore
    requires r.landed <= |s.pending| + |r.batch.writes|
  {
    var queued := s.pending + r.batch.writes;
    LaggedStore(Fold(s.table, queued[..r.landed]), queued[r.landed..])
  }

  /** A whole retry loop: `rounds[i]` is round i + 1 and reads `stores[i]`; `today` is the day before
      it starts. */
  datatype Loop = Loop(cfg: Config, today: int, rounds: seq<Round>, stores: seq<LaggedStore>)

  /** The day the loop has reached when it comes to its i-th round. */
  function DayBefore(loop: Loop, i: nat): int
    requires i <= |loop.rounds|
  {
    if i == 0 then loop.today else loop.rounds[i - 1].today
  }

  /** A round that does run: it is in the loop's range, something is selected, days never go back, and
      its batch is a pass of the worker pool over exactly what it attempts. */
  ghost predicate RoundRuns(s: LaggedStore, cfg: Config, round: nat, today: int, r: Round) {
    && 1 <= round < ROUNDS + 1
    && today <= r.today
    && GetFailed(s.table, Budget(cfg, round), cfg.since) != {}
    && RoundOk(s, cfg, round, r)
  }

  ghost predicate RoundAt(loop: Loop, i: nat)
    requires i < |loop.rounds| && |loop.stores| == |loop.rounds| + 1
  {
    && RoundRuns(loop.stores[i], loop.cfg, i + 1, DayBefore(loop, i), loop.rounds[i])
    && loop.stores[i + 1] == AfterRound(loop.stores[i], loop.rounds[i])
  }

  ghost predicate LoopOk(loop: Loop) {
    && |loop.stores| == |loop.rounds| + 1
    && forall i :: 0 <= i < |loop.rounds| ==> RoundAt(loop, i)
  }

  /** A fresh run: a table left by earlier runs, the first pass over this run's keys, and the loop. */
  datatype FreshRun = FreshRun(before: Table, first: Batch, loop: Loop)

  /** Abandoned seeds are purged, the keys seeded and searched, and the flush hands the loop a drained
      store (`FirstPassDrains` derives that from the writer). */
  ghost predicate FreshRunOk(run: FreshRun) {
    && Pass(run.first, KeySet(run.first.keys), 0)
    && LoopOk(run.loop) && !run.loop.cfg.retryAll
    && run.loop.stores[0] == LaggedStore(Fold(Seed(Purge(run.before), run.first.keys), run.first.writes), [])
  }

  /** Committing early or late never changes what the results add up to. */
  lemma LatestAfterRound(s: LaggedStore, r: Round)
    requires r.landed <= |s.pending| + |r.batch.writes|
    ensures Latest(AfterRound(s, r)) == Fold(Latest(s), r.batch.writes)
  {
    var queued := s.pending + r.batch.writes;
    FoldAppend(s.table, s.pending, r.batch.writes);
    FoldAppend(s.table, queued[..r.landed], queued[r.landed..]);
    assert queued[..r.landed] + queued[r.landed..] == queued;
  }

  // ---------------------------------------------------------------- the loop

  function Extended(loop: Loop, r: Round): Loop
    requires |loop.stores| == |loop.rounds| + 1
    requires r.landed <= |loop.stores[|loop.rounds|].pending| + |r.batch.writes|
  {
    loop.(rounds := loop.rounds + [r], stores := loop.stores + [AfterRound(loop.stores[|loop.rounds|], r)])
  }

  /** One more round on a loop that has not used up its three. */
  lemma LoopExtends(loop: Loop, r: Round)
    requires LoopOk(loop)
    requires var n := |loop.rounds|;
             RoundRuns(loop.stores[n], loop.cfg, n + 1, DayBefore(loop, n), r)
    ensures LoopOk(Extended(loop, r))
  {
    var loop' := Extended(loop, r);
    forall i | 0 <= i < |loop'.rounds|
      ensures RoundAt(loop', i)
    {
      assert i < |loop.rounds| ==> RoundAt(loop, i);
      assert DayBefore(loop', i) == DayBefore(loop, i);
    }
  }

  lemma RunExtends(run: FreshRun, r: Round) returns (run': FreshRun)
    requires FreshRunOk(run) && r.landed <= |run.loop.stores[|run.loop.rounds|].pending| + |r.batch.writes|
    requires LoopOk(Extended(run.loop, r))
    ensures FreshRunOk(run') && run'.before == run.before && run'.first == run.first
    ensures run'.loop.cfg == run.loop.cfg && run'.loop.today == run.loop.today
    ensures var n := |run.loop.rounds|;
            && |run'.loop.rounds| == n + 1 && run'.loop.rounds[n] == r
            && run'.loop.stores[n + 1] == AfterRound(run.loop.stores[n], r)
            && (forall i :: 0 <= i < n ==> run'.loop.rounds[i] == run.loop.rounds[i])
            && (forall i :: 0 <= i <= n ==> run'.loop.stores[i] == run.loop.stores[i])
  {
    run' := FreshRun(run.before, run.first, Extended(run.loop, r));
  }

  /** The selected rows in the order the query returns them, which may be any. */
  method InSomeOrder(keys: set<Key>) returns (rows: seq<Key>)
    ensures DistinctKeys(rows) && KeySet(rows) == keys
  {
    rows := [];
    var left := keys;
    while left != {}
      invariant DistinctKeys(rows) && left <= keys && KeySet(rows) == keys - left
    {
      var k :| k in left;
      assert k !in KeySet(rows);
      ghost var before := rows;
      rows, left := rows + [k], left - {k};
      assert KeySet(rows) == KeySet(before) + {k};
    }
  }

  /** The body of one round, once something is selected: the filter loop, then the batch. */
  method RunRound(s: LaggedStore, failed: seq<Key>, cfg: Config, round: nat, day: int, maxConcurrent: int,
                  scripts: Key -> Script, lands: nat)
    returns (r: Round)
    requires DistinctKeys(failed) && KeySet(failed) == GetFailed(s.table, Budget(cfg, round), cfg.since)
    ensures RoundOk(s, cfg, round, r) && r.today == day && Met(r.batch, scripts)
  {
    var tasks: seq<Key> := [];
    for i := 0 to |failed|
      invariant DistinctKeys(tasks)
      invariant forall k :: k in tasks <==> k in failed[..i] && k.depDate >= day && k.route in cfg.covered
    {
      assert failed[..i + 1] == failed[..i] + [failed[i]];
      if failed[i].depDate < day {
        continue;
      }
      if failed[i].route in cfg.covered {
        tasks := tasks + [failed[i]];
      }
    }
    assert failed[..|failed|] == failed;
    assert forall k :: k in KeySet(failed) <==> k in failed;
    assert KeySet(tasks) == Attempted(s.table, cfg, round, day);
    var b := RunBatch(tasks, round, maxConcurrent, scripts);
    r := Round(day, b, MinInt(lands, |s.pending| + |b.writes|));
  }

  /** `_retry_loop`: up to three rounds, stopping as soon as nothing is selected. `days[i]` is the
      day round i + 1 filters on, `scripts` what its tasks meet, and `lands[i]` how much of the pending
      results is committed by the next read. */
  method RetryLoop(s0: LaggedStore, cfg: Config, today: int, days: seq<int>, maxConcurrent: int,
                   scripts: (nat, Key) -> Script, lands: seq<nat>)
    returns (loop: Loop)
    requires |days| == |lands| == ROUNDS && today <= days[0] <= days[1] <= days[2]
    ensures LoopOk(loop) && loop.cfg == cfg && loop.today == today && loop.stores[0] == s0
    ensures |loop.rounds| <= ROUNDS
    ensures forall i :: 0 <= i < |loop.rounds| ==>
              loop.rounds[i].today == days[i] && Met(loop.rounds[i].batch, k => scripts(i + 1, k))
    ensures var n := |loop.rounds|;
            n < ROUNDS ==> GetFailed(loop.stores[n].table, Budget(cfg, n + 1), cfg.since) == {}
  {
    loop := Loop(cfg, today, [], [s0]);
    for rnd := 1 to ROUNDS + 1
      invariant LoopOk(loop) && |loop.rounds| == rnd - 1
      invariant loop.cfg == cfg && loop.today == today && loop.stores[0] == s0
      invariant rnd <= ROUNDS ==> DayBefore(loop, rnd - 1) <= days[rnd - 1]
      invariant forall i :: 0 <= i < |loop.rounds| ==>
                  loop.rounds[i].today == days[i] && Met(loop.rounds[i].batch, k => scripts(i + 1, k))
    {
      var s := loop.stores[rnd - 1];
      var failed := InSomeOrder(GetFailed(s.table, Budget(cfg, rnd), cfg.since));
      if failed == [] {
        return;
      }
      assert failed[0] in KeySet(failed);
      var r := RunRound(s, failed, cfg, rnd, days[rnd - 1], maxConcurrent, k => scripts(rnd, k), lands[rnd - 1]);
      LoopExtends(loop, r);
      loop := Extended(loop, r);
    }
  }
}
