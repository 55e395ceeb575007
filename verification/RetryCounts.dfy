/** What the passes of a run add up to: how often a key is searched, whether `retries` says so, and which
    outcome is left. */
module RetryCounts {
  import opened Prelude
  import opened ResultStore
  import opened SearchBatch
  import opened RetryRounds
  import opened RetryLadder

  // ---------------------------------------------------------------- the attempt budget

  function Batches(rounds: seq<Round>): (passes: seq<Batch>)
    ensures |passes| == |rounds| && forall i :: 0 <= i < |passes| ==> passes[i] == rounds[i].batch
  {
    seq(|rounds|, i requires 0 <= i < |rounds| => rounds[i].batch)
  }

  /** All passes of a fresh run; pass 0 is the first. */
  function Passes(run: FreshRun): seq<Batch> {
    [run.first] + Batches(run.loop.rounds)
  }

  /** How often `k` has been searched in all of `passes`. */
  function SearchesOf(k: Key, passes: seq<Batch>): nat {
    if passes == [] then 0
    else SearchesOf(k, passes[..|passes| - 1]) + SearchesIn(passes[|passes| - 1], k)
  }

  ghost predicate PassesOk(passes: seq<Batch>) {
    forall i :: 0 <= i < |passes| ==> PassSearches(passes[i].searches.Keys, passes[i])
  }

  /** A pass searches a key at most three times; a sum of n passes reaches 3n only if each does. */
  lemma {:induction false} SearchesBounded(k: Key, passes: seq<Batch>)
    requires PassesOk(passes)
    ensures SearchesOf(k, passes) <= MAX_ATTEMPTS * |passes|
    ensures SearchesOf(k, passes) == MAX_ATTEMPTS * |passes| <==>
              forall i :: 0 <= i < |passes| ==> SearchesIn(passes[i], k) == MAX_ATTEMPTS
  {
    if passes != [] {
      var n := |passes| - 1;
      SearchesBounded(k, passes[..n]);
      assert PassSearches(passes[n].searches.Keys, passes[n]);
    }
  }

  lemma LoopPasses(loop: Loop)
    requires LoopOk(loop)
    ensures |loop.rounds| <= ROUNDS && PassesOk(Batches(loop.rounds))
  {
    forall i | 0 <= i < |loop.rounds|
      ensures i < ROUNDS && PassSearches(loop.rounds[i].batch.searches.Keys, loop.rounds[i].batch)
    {
      assert RoundAt(loop, i);
      PassComplete(loop.rounds[i].batch,
                   Attempted(loop.stores[i].table, loop.cfg, i + 1, loop.rounds[i].today), i + 1);
    }
    assert |loop.rounds| > 0 ==> RoundAt(loop, |loop.rounds| - 1);
  }

  lemma RunPasses(run: FreshRun)
    requires FreshRunOk(run)
    ensures |Passes(run)| <= ROUNDS + 1 && PassesOk(Passes(run))
  {
    LoopPasses(run.loop);
    PassComplete(run.first, KeySet(run.first.keys), 0);
  }

  /** Attempt budget: whatever the providers answer, however the workers interleave and however far the
      table lags, a continue run searches a key at most 9 times. */
  lemma ContinueBudget(loop: Loop, k: Key)
    requires LoopOk(loop)
    ensures SearchesOf(k, Batches(loop.rounds)) <= 9
  {
    LoopPasses(loop);
    SearchesBounded(k, Batches(loop.rounds));
  }

  /** A first pass and the rounds after it, whatever table they start from and however many providers
      cover a route: three times for each task of the key in the first pass, and nine more. */
  lemma BudgetPerTask(first: Batch, loop: Loop, k: Key)
    requires Finished(first, 0) && LoopOk(loop)
    ensures SearchesIn(first, k) + SearchesOf(k, Batches(loop.rounds)) <= 3 * |TasksFor(first.keys, k)| + 9
  {
    var maxConcurrent, events :| Reaches(Start(first.keys, 0, maxConcurrent), events, first);
    BatchComplete(first.keys, 0, maxConcurrent, events, first);
    ContinueBudget(loop, k);
  }

  /** And a fresh run with one task per key, its first pass included, at most 12 times. */
  lemma AttemptBudget(run: FreshRun, k: Key)
    requires FreshRunOk(run)
    ensures SearchesOf(k, Passes(run)) <= 12
  {
    RunPasses(run);
    SearchesBounded(k, Passes(run));
  }

  // ---------------------------------------------------------------- what a run leaves behind

  /** The row that the last of `passes` to search `k` stored for it. */
  function LastOutcome(passes: seq<Batch>, k: Key): Option<Row> {
    if passes == [] then None
    else
      var n := |passes| - 1;
      if LastWrite(passes[n].writes, k).Some? then LastWrite(passes[n].writes, k)
      else LastOutcome(passes[..n], k)
  }

  /** `t` holds the last outcome of `k`, or what the purge left of it. */
  ghost predicate HoldsOutcome(t: Table, before: Table, passes: seq<Batch>, k: Key) {
    match LastOutcome(passes, k)
    case Some(row) => k in t && t[k] == row
    case None => (k in t <==> k in Purge(before)) && (k in t ==> t[k] == before[k])
  }

  /** One more pass: its rows are the last outcomes of the keys it stored. */
  lemma OutcomesGrow(t: Table, before: Table, passes: seq<Batch>, b: Batch, k: Key)
    requires HoldsOutcome(t, before, passes, k)
    ensures HoldsOutcome(Fold(t, b.writes), before, passes + [b], k)
    ensures LastOutcome(passes, k).Some? ==> LastOutcome(passes + [b], k).Some?
  {
    assert (passes + [b])[..|passes|] == passes;
    FoldAt(t, b.writes, k);
  }

  /** In every round the latest results are the outcomes of the passes so far. */
  lemma {:induction false} LatestOutcomes(run: FreshRun, i: nat, k: Key)
    requires FreshRunOk(run) && i <= |run.loop.rounds|
    ensures HoldsOutcome(Latest(run.loop.stores[i]), run.before, Passes(run)[..i + 1], k)
    ensures k in run.first.keys ==> LastOutcome(Passes(run)[..i + 1], k).Some?
  {
    if i == 0 {
      FirstOutcome(run, k);
    } else {
      LatestOutcomes(run, i - 1, k);
      NextOutcomes(run, i - 1, k);
    }
  }

  lemma NextOutcomes(run: FreshRun, i: nat, k: Key)
    requires FreshRunOk(run) && i < |run.loop.rounds|
    requires HoldsOutcome(Latest(run.loop.stores[i]), run.before, Passes(run)[..i + 1], k)
    ensures HoldsOutcome(Latest(run.loop.stores[i + 1]), run.before, Passes(run)[..i + 2], k)
    ensures LastOutcome(Passes(run)[..i + 1], k).Some? ==> LastOutcome(Passes(run)[..i + 2], k).Some?
  {
    var s, r := run.loop.stores[i], run.loop.rounds[i];
    assert RoundAt(run.loop, i);
    LatestAfterRound(s, r);
    OutcomesGrow(Latest(s), run.before, Passes(run)[..i + 1], r.batch, k);
    assert Passes(run)[..i + 1] + [r.batch] == Passes(run)[..i + 2];
  }

  lemma FirstOutcome(run: FreshRun, k: Key)
    requires FreshRunOk(run)
    ensures HoldsOutcome(Latest(run.loop.stores[0]), run.before, Passes(run)[..1], k)
    ensures k in run.first.keys ==> LastOutcome(Passes(run)[..1], k).Some?
  {
    var seeded, ws := Seed(Purge(run.before), run.first.keys), run.first.writes;
    assert Passes(run)[..1] == [run.first] && [run.first][..0] == [];
    assert LastOutcome([run.first], k) == LastWrite(ws, k);
    assert Latest(run.loop.stores[0]) == Fold(seeded, ws);
    PassComplete(run.first, KeySet(run.first.keys), 0);
    FoldAt(seeded, ws, k);
    assert k in run.first.keys ==> k in KeySet(run.first.keys);
  }

  /** The pass that counts is the last one that searched the key. */
  lemma {:induction false} LastSearchCounts(passes: seq<Batch>, k: Key, p: nat)
    requires p < |passes| && k in passes[p].searches
    requires forall q :: p < q < |passes| ==> k !in passes[q].searches
    requires forall q :: 0 <= q < |passes| ==> (k in passes[q].searches <==> Wrote(passes[q].writes, k))
    ensures LastOutcome(passes, k) == LastWrite(passes[p].writes, k) != None
  {
    var n := |passes| - 1;
    FoldAt(map[], passes[n].writes, k);
    if p < n {
      LastSearchCounts(passes[..n], k, p);
    }
  }

  /** A run stores a row exactly for the keys it searches. */
  lemma PassesWrite(run: FreshRun, q: nat, k: Key)
    requires FreshRunOk(run) && q < |Passes(run)|
    ensures k in Passes(run)[q].searches <==> Wrote(Passes(run)[q].writes, k)
  {
    if q == 0 {
      PassComplete(run.first, KeySet(run.first.keys), 0);
      WroteAttempted(KeySet(run.first.keys), run.first, k);
    } else {
      assert RoundAt(run.loop, q - 1);
      var b := run.loop.rounds[q - 1].batch;
      var attempted := Attempted(run.loop.stores[q - 1].table, run.loop.cfg, q, run.loop.rounds[q - 1].today);
      PassComplete(b, attempted, q);
      WroteAttempted(attempted, b, k);
    }
  }

  lemma WroteAttempted(attempted: set<Key>, b: Batch, k: Key)
    requires PassWrites(attempted, b.round, b.writes) && PassSearches(attempted, b)
    ensures k in b.searches <==> Wrote(b.writes, k)
  {}

  // ---------------------------------------------------------------- cumulative retries

  /** `retries` is documented as the attempts consumed so far. Counting the searches, the row that pass
      p of a run stores meets that if and only if it is a success of a key never searched before, or
      a failure of a key that every pass up to p searched three times. */
  lemma RetriesCumulativeIff(run: FreshRun, p: nat, j: nat)
    requires FreshRunOk(run) && p < |Passes(run)| && j < |Passes(run)[p].writes|
    ensures var passes := Passes(run);
            var k, row := passes[p].writes[j].key, passes[p].writes[j].row;
            row.retries == SearchesOf(k, passes[..p + 1]) <==>
              if row.success then SearchesOf(k, passes[..p]) == 0
              else forall q :: 0 <= q <= p ==> SearchesIn(passes[q], k) == MAX_ATTEMPTS
  {
    var passes := Passes(run);
    var k := passes[p].writes[j].key;
    RunPasses(run);
    PassRound(run, p);
    assert PassSearches(passes[p].searches.Keys, passes[p]);
    assert TaskOk(passes[p].writes[j].row, SearchesIn(passes[p], k), p);
    assert passes[..p + 1][..p] == passes[..p];
    SearchesBounded(k, passes[..p + 1]);
    assert forall q :: 0 <= q <= p ==> passes[..p + 1][q] == passes[q];
  }

  /** In a continue run the rows of failures never meet it: a failure of round r stores 3 * (r + 1) when
      the run has made at most 3 * r attempts on the key. */
  lemma ContinueRetriesIff(loop: Loop, p: nat, j: nat)
    requires LoopOk(loop) && p < |loop.rounds| && j < |loop.rounds[p].batch.writes|
    ensures var passes := Batches(loop.rounds);
            var k, row := passes[p].writes[j].key, passes[p].writes[j].row;
            row.retries == SearchesOf(k, passes[..p + 1]) <==> row.success && SearchesOf(k, passes[..p]) == 0
  {
    var passes := Batches(loop.rounds);
    var k := passes[p].writes[j].key;
    LoopPasses(loop);
    assert RoundAt(loop, p);
    assert PassSearches(passes[p].searches.Keys, passes[p]);
    assert TaskOk(passes[p].writes[j].row, SearchesIn(passes[p], k), p + 1);
    NextSum(passes, p, k);
    SearchesBounded(k, passes[..p + 1]);
  }

  lemma PassRound(run: FreshRun, p: nat)
    requires FreshRunOk(run) && p < |Passes(run)|
    ensures Passes(run)[p].round == p
  {
    if p > 0 {
      assert RoundAt(run.loop, p - 1);
    }
  }

  /** What is worth a search after a round on a drained store was searched three times in it. */
  lemma FailedAgain(s: LaggedStore, cfg: Config, round: nat, r: Round, today: int, k: Key)
    requires s.pending == [] && RoundOk(s, cfg, round, r) && r.today <= today
    requires Worth(Latest(AfterRound(s, r)), cfg, today, k)
    requires Worth(s.table, cfg, r.today, k) ==> k in Attempted(s.table, cfg, round, r.today)
    ensures k in Attempted(s.table, cfg, round, r.today) && SearchesIn(r.batch, k) == MAX_ATTEMPTS
  {
    RoundWritesAt(s, cfg, round, r, k);
  }

  lemma SearchedBefore(run: FreshRun, i: nat, k: Key)
    requires FreshRunOk(run) && 0 < i < |run.loop.rounds| && k in run.first.keys
    requires run.loop.stores[i - 1].pending == []
    requires Worth(Latest(run.loop.stores[i]), run.loop.cfg, run.loop.rounds[i].today, k)
    ensures k in Attempted(run.loop.stores[i - 1].table, run.loop.cfg, i, run.loop.rounds[i - 1].today)
    ensures SearchesIn(run.loop.rounds[i - 1].batch, k) == MAX_ATTEMPTS
  {
    var loop := run.loop;
    FreshLadder(run, i - 1);
    assert RoundAt(loop, i - 1) && RoundAt(loop, i);
    assert k in KeySet(run.first.keys);
    FailedAgain(loop.stores[i - 1], loop.cfg, i, loop.rounds[i - 1], loop.rounds[i].today, k);
  }

  lemma NextSum(passes: seq<Batch>, i: nat, k: Key)
    requires i < |passes|
    ensures SearchesOf(k, passes[..i + 1]) == SearchesOf(k, passes[..i]) + SearchesIn(passes[i], k)
  {
    assert passes[..i + 1][..i] == passes[..i];
  }

  /** A key that a round picks from a drained store is on that round's rung, and the pass before, if it
      read a drained store too, searched it three times. */
  lemma PickedOnRung(run: FreshRun, i: nat, k: Key)
    requires FreshRunOk(run) && i < |run.loop.rounds| && k in run.first.keys
    requires run.loop.stores[i].pending == [] && (i > 0 ==> run.loop.stores[i - 1].pending == [])
    requires k in Attempted(run.loop.stores[i].table, run.loop.cfg, i + 1, run.loop.rounds[i].today)
    ensures run.loop.stores[i].table[k].retries == MAX_ATTEMPTS * (i + 1)
    ensures SearchesIn(Passes(run)[i], k) == MAX_ATTEMPTS
    ensures i > 0 ==>
              k in Attempted(run.loop.stores[i - 1].table, run.loop.cfg, i, run.loop.rounds[i - 1].today)
  {
    FreshLadder(run, i);
    assert k in KeySet(run.first.keys);
    if i == 0 {
      FirstRowAt(run, k);
    } else {
      SearchedBefore(run, i, k);
    }
  }

  /** While the rounds read drained stores it does hold of every failure a round picks: a key searched
      by round i + 1 has been searched three times by each pass before. */
  lemma {:induction false} DrainedRetriesCumulative(run: FreshRun, i: nat, k: Key)
    requires FreshRunOk(run) && i < |run.loop.rounds| && k in run.first.keys
    requires forall j :: 0 <= j <= i ==> run.loop.stores[j].pending == []
    requires k in Attempted(run.loop.stores[i].table, run.loop.cfg, i + 1, run.loop.rounds[i].today)
    ensures run.loop.stores[i].table[k].retries == SearchesOf(k, Passes(run)[..i + 1]) == MAX_ATTEMPTS * (i + 1)
  {
    PickedOnRung(run, i, k);
    NextSum(Passes(run), i, k);
    if i > 0 {
      DrainedRetriesCumulative(run, i - 1, k);
    }
  }
}
