/** Which keys the retry rounds search: the ladder of budgets they climb, and what a lagging read does to it. */
module RetryLadder {
  import opened Prelude
  import opened ResultStore
  import opened SearchBatch
  import opened RetryRounds

  // ---------------------------------------------------------------- the ladder

  /** What the latest results say is worth another search on day `today`. */
  predicate Worth(t: Table, cfg: Config, today: int, k: Key) {
    k in t && Retryable(t[k]) && k.depDate >= cfg.since && k.depDate >= today && k.route in cfg.covered
  }

  /** A round searches what the committed rows say is worth it, within its budget. */
  lemma AttemptedMeans(t: Table, cfg: Config, round: nat, today: int, k: Key)
    ensures k in Attempted(t, cfg, round, today) <==>
              Worth(t, cfg, today, k) && (!cfg.retryAll ==> t[k].retries <= round * MAX_ATTEMPTS)
  {}

  /** Every failure of the run's own keys that is worth a search has used exactly the budget of the
      passes before `round`. */
  ghost predicate OnLadder(t: Table, cfg: Config, own: set<Key>, round: nat, today: int) {
    forall k :: k in own && Worth(t, cfg, today, k) ==> t[k].retries == round * MAX_ATTEMPTS
  }

  /** A round misses none of the run's failures that the latest results say are worth a search. */
  ghost predicate Covers(s: LaggedStore, cfg: Config, own: set<Key>, round: nat, today: int) {
    forall k :: k in own && Worth(Latest(s), cfg, today, k) ==> k in Attempted(s.table, cfg, round, today)
  }

  /** A round reads the latest results when it searches exactly the failures among them that are
      worth it, so no key whose latest outcome is a success or a permanent failure. */
  ghost predicate ReadsLatest(s: LaggedStore, cfg: Config, own: set<Key>, round: nat, today: int) {
    forall k :: k in own ==>
      (k in Attempted(s.table, cfg, round, today) <==> Worth(Latest(s), cfg, today, k))
  }

  /** A round changes exactly the rows of the keys it searches, each to a row of that round. */
  lemma RoundWritesAt(s: LaggedStore, cfg: Config, round: nat, r: Round, k: Key)
    requires RoundOk(s, cfg, round, r)
    ensures var t' := Latest(AfterRound(s, r));
            var searched := k in Attempted(s.table, cfg, round, r.today);
            && (searched ==> k in t' && TaskOk(t'[k], SearchesIn(r.batch, k), round))
            && (!searched ==> (k in t' <==> k in Latest(s)))
            && (!searched && k in t' ==> t'[k] == Latest(s)[k])
  {
    var ws := r.batch.writes;
    LatestAfterRound(s, r);
    PassComplete(r.batch, Attempted(s.table, cfg, round, r.today), round);
    FoldAt(Latest(s), ws, k);
    if LastWrite(ws, k).Some? {
      var i :| 0 <= i < |ws| && ws[i] == Write(k, LastWrite(ws, k).value);
      assert ws[i].key in Attempted(s.table, cfg, round, r.today);
    }
  }

  /** After a round that misses nothing, what is left to retry has used that round's budget too. */
  lemma LadderClimbs(s: LaggedStore, cfg: Config, own: set<Key>, round: nat, r: Round)
    requires RoundOk(s, cfg, round, r) && Covers(s, cfg, own, round, r.today)
    ensures OnLadder(Latest(AfterRound(s, r)), cfg, own, round + 1, r.today)
  {
    forall k | k in own && Worth(Latest(AfterRound(s, r)), cfg, r.today, k)
      ensures Latest(AfterRound(s, r))[k].retries == (round + 1) * MAX_ATTEMPTS
    {
      RoundWritesAt(s, cfg, round, r, k);
    }
  }

  lemma DrainedCovers(s: LaggedStore, cfg: Config, own: set<Key>, round: nat, today: int)
    requires s.pending == []
    requires !cfg.retryAll ==> OnLadder(Latest(s), cfg, own, round, today)
    ensures Covers(s, cfg, own, round, today) && ReadsLatest(s, cfg, own, round, today)
    ensures forall k :: k in Attempted(s.table, cfg, round, today) ==> Worth(Latest(s), cfg, today, k)
  {
    forall k
      ensures k in Attempted(s.table, cfg, round, today) <==>
                Worth(s.table, cfg, today, k) && (!cfg.retryAll ==> s.table[k].retries <= round * MAX_ATTEMPTS)
    {
      AttemptedMeans(s.table, cfg, round, today, k);
    }
  }

  lemma {:induction false} OnlyWrite(ws: seq<Write>, i: nat)
    requires i < |ws| && forall j, l :: 0 <= j < l < |ws| ==> ws[j].key != ws[l].key
    ensures LastWrite(ws, ws[i].key) == Some(ws[i].row)
  {
    if i < |ws| - 1 {
      OnlyWrite(ws[..|ws| - 1], i);
    }
  }

  /** When a first part of a pass has landed, a key shows its new row or still its old one. */
  lemma HalfLanded(t: Table, ws: seq<Write>, landed: nat, k: Key)
    requires forall i, j :: 0 <= i < j < |ws| ==> ws[i].key != ws[j].key
    requires landed <= |ws| && k in Fold(t, ws)
    ensures var t' := Fold(t, ws[..landed]);
            || (k in t' && t'[k] == Fold(t, ws)[k])
            || (k in t && k in t' && t'[k] == t[k])
            || (k !in t && k !in t')
  {
    FoldAt(t, ws, k);
    FoldAt(t, ws[..landed], k);
    if Wrote(ws[..landed], k) {
      var i :| 0 <= i < landed && ws[..landed][i].key == k;
      OnlyWrite(ws, i);
      OnlyWrite(ws[..landed], i);
      assert ws[..landed][i] == ws[i];
    }
  }

  /** Lag hides no failure from the round after a drained one: a key whose new row has not landed
      still shows its old failure, which the next round's budget admits. */
  lemma LagCoversKey(s: LaggedStore, cfg: Config, round: nat, r: Round, today: int, k: Key)
    requires s.pending == [] && RoundOk(s, cfg, round, r) && r.today <= today
    requires Worth(Latest(AfterRound(s, r)), cfg, today, k)
    requires !cfg.retryAll && Worth(s.table, cfg, r.today, k) ==> s.table[k].retries == round * MAX_ATTEMPTS
    ensures k in Attempted(AfterRound(s, r).table, cfg, round + 1, today)
  {
    RoundWritesAt(s, cfg, round, r, k);
    AttemptedMeans(s.table, cfg, round, r.today, k);
    AttemptedMeans(AfterRound(s, r).table, cfg, round + 1, today, k);
    HalfLandedRound(s, cfg, round, r, k);
  }

  lemma HalfLandedRound(s: LaggedStore, cfg: Config, round: nat, r: Round, k: Key)
    requires s.pending == [] && RoundOk(s, cfg, round, r) && k in Latest(AfterRound(s, r))
    ensures var t' := AfterRound(s, r).table;
            || (k in t' && t'[k] == Latest(AfterRound(s, r))[k])
            || (k in s.table && k in t' && t'[k] == s.table[k])
            || (k !in s.table && k !in t')
  {
    PassComplete(r.batch, Attempted(s.table, cfg, round, r.today), round);
    LatestAfterRound(s, r);
    assert s.pending + r.batch.writes == r.batch.writes;
    HalfLanded(s.table, r.batch.writes, r.landed, k);
  }

  lemma LagCovers(s: LaggedStore, cfg: Config, own: set<Key>, round: nat, r: Round, today: int)
    requires s.pending == [] && RoundOk(s, cfg, round, r) && r.today <= today
    requires !cfg.retryAll ==> OnLadder(Latest(s), cfg, own, round, r.today)
    ensures Covers(AfterRound(s, r), cfg, own, round + 1, today)
  {
    forall k | k in own && Worth(Latest(AfterRound(s, r)), cfg, today, k)
      ensures k in Attempted(AfterRound(s, r).table, cfg, round + 1, today)
    {
      LagCoversKey(s, cfg, round, r, today, k);
    }
  }

  /** What round i + 1 owes the latest results: it searches exactly the run's failures that are worth
      it, each with retries 3 * (i + 1); nothing it searches has a success or a permanent failure as
      its latest outcome; and a key that is not worth a search keeps its row. */
  ghost predicate LadderAt(loop: Loop, own: set<Key>, i: nat)
    requires LoopOk(loop) && i < |loop.rounds|
  {
    var day := loop.rounds[i].today;
    var s := loop.stores[i];
    var t, t' := Latest(s), Latest(loop.stores[i + 1]);
    && ReadsLatest(s, loop.cfg, own, i + 1, day)
    && (!loop.cfg.retryAll ==> OnLadder(t, loop.cfg, own, i + 1, day))
    && (forall k :: k in Attempted(s.table, loop.cfg, i + 1, day) ==> Worth(t, loop.cfg, day, k))
    && (forall k :: k in t && !Worth(t, loop.cfg, day, k) ==> k in t' && t'[k] == t[k])
  }

  /** What a loop starts from: a drained store on the first rung. */
  ghost predicate StartsOnLadder(loop: Loop, own: set<Key>)
    requires LoopOk(loop)
  {
    && loop.stores[0].pending == []
    && (!loop.cfg.retryAll ==> OnLadder(Latest(loop.stores[0]), loop.cfg, own, 1, loop.today))
  }

  /** Rounds 1 and 2 miss nothing whatever the lag, so the failures left for round r carry retries
      3 * r in every round. */
  lemma {:induction false} LadderHolds(loop: Loop, own: set<Key>, i: nat)
    requires LoopOk(loop) && i < |loop.rounds| && StartsOnLadder(loop, own)
    ensures !loop.cfg.retryAll ==> OnLadder(Latest(loop.stores[i]), loop.cfg, own, i + 1, loop.rounds[i].today)
    ensures i <= 1 ==> Covers(loop.stores[i], loop.cfg, own, i + 1, loop.rounds[i].today)
  {
    assert RoundAt(loop, i);
    if i == 0 {
      DrainedCovers(loop.stores[0], loop.cfg, own, 1, loop.rounds[0].today);
    } else {
      assert RoundAt(loop, i - 1);
      LadderHolds(loop, own, i - 1);
      LadderClimbs(loop.stores[i - 1], loop.cfg, own, i, loop.rounds[i - 1]);
      if i == 1 {
        LagCovers(loop.stores[0], loop.cfg, own, 1, loop.rounds[0], loop.rounds[1].today);
      }
    }
  }

  /** Retry ladder: every round that reads a drained store is exact, whatever the rounds before it
      read. */
  lemma LadderExact(loop: Loop, own: set<Key>, i: nat)
    requires LoopOk(loop) && i < |loop.rounds| && StartsOnLadder(loop, own)
    requires loop.stores[i].pending == []
    ensures LadderAt(loop, own, i)
  {
    LadderHolds(loop, own, i);
    assert RoundAt(loop, i);
    var s := loop.stores[i];
    var day := loop.rounds[i].today;
    DrainedCovers(s, loop.cfg, own, i + 1, day);
    forall k | k in Latest(s) && !Worth(Latest(s), loop.cfg, day, k)
      ensures k in Latest(loop.stores[i + 1]) && Latest(loop.stores[i + 1])[k] == Latest(s)[k]
    {
      RoundWritesAt(s, loop.cfg, i + 1, loop.rounds[i], k);
    }
  }

  /** The first pass puts a run on the ladder: failures of its own keys carry retries 3. */
  lemma FirstPassOnLadder(before: Table, first: Batch, cfg: Config, today: int)
    requires Pass(first, KeySet(first.keys), 0)
    ensures OnLadder(Fold(Seed(Purge(before), first.keys), first.writes), cfg, KeySet(first.keys), 1, today)
  {
    var seeded := Seed(Purge(before), first.keys);
    PassComplete(first, KeySet(first.keys), 0);
    forall k | k in KeySet(first.keys) && Worth(Fold(seeded, first.writes), cfg, today, k)
      ensures Fold(seeded, first.writes)[k].retries == MAX_ATTEMPTS
    {
      FoldAt(seeded, first.writes, k);
      var i :| 0 <= i < |first.writes| && first.writes[i] == Write(k, LastWrite(first.writes, k).value);
      assert RowOk(first.writes[i].row, 0);
    }
  }

  /** A fresh run from its first pass to its last round, whatever older runs left in the table: round 1
      is exact, rounds 1 and 2 miss no failure, the failures left for round r always carry retries
      3 * r, and a later round is exact whenever it reads a drained store. */
  lemma FreshLadder(run: FreshRun, i: nat)
    requires FreshRunOk(run) && i < |run.loop.rounds|
    ensures var own, s, day := KeySet(run.first.keys), run.loop.stores[i], run.loop.rounds[i].today;
            && OnLadder(Latest(s), run.loop.cfg, own, i + 1, day)
            && (i <= 1 ==> Covers(s, run.loop.cfg, own, i + 1, day))
            && (i == 0 || s.pending == [] ==> LadderAt(run.loop, own, i))
  {
    var own := KeySet(run.first.keys);
    FirstPassOnLadder(run.before, run.first, run.loop.cfg, run.loop.today);
    LadderHolds(run.loop, own, i);
    if run.loop.stores[i].pending == [] {
      LadderExact(run.loop, own, i);
    }
  }

  lemma FirstRowAt(run: FreshRun, k: Key)
    requires FreshRunOk(run) && k in run.first.keys
    ensures k in run.loop.stores[0].table
    ensures TaskOk(run.loop.stores[0].table[k], SearchesIn(run.first, k), 0)
  {
    var seeded := Seed(Purge(run.before), run.first.keys);
    var ws := run.first.writes;
    PassComplete(run.first, KeySet(run.first.keys), 0);
    assert k in KeySet(run.first.keys);
    FoldAt(seeded, ws, k);
    var i :| 0 <= i < |ws| && ws[i] == Write(k, LastWrite(ws, k).value);
    assert ws[i].key == k;
  }

  // ---------------------------------------------------------------- what the lag does

  /** Committed failures that are worth a search are within the round's budget. */
  ghost predicate WithinBudget(t: Table, cfg: Config, own: set<Key>, round: nat, today: int) {
    !cfg.retryAll ==>
      forall k :: k in own && Worth(t, cfg, today, k) ==> t[k].retries <= round * MAX_ATTEMPTS
  }

  predicate InPlay(cfg: Config, today: int, k: Key) {
    k.depDate >= cfg.since && k.depDate >= today && k.route in cfg.covered
  }

  /** The results still pending agree with the committed rows on what is worth a retry. */
  ghost predicate PendingAgrees(s: LaggedStore, cfg: Config, own: set<Key>, today: int) {
    forall k :: k in own && InPlay(cfg, today, k) && LastWrite(s.pending, k).Some? ==>
      (Retryable(LastWrite(s.pending, k).value) <==> k in s.table && Retryable(s.table[k]))
  }

  /** When reads go wrong: a round reads the latest results if and only if, for every key in play with
      a pending result, that result is worth a retry exactly when the committed row is. */
  lemma ReadsLatestIff(s: LaggedStore, cfg: Config, own: set<Key>, round: nat, today: int)
    requires WithinBudget(s.table, cfg, own, round, today)
    ensures ReadsLatest(s, cfg, own, round, today) <==> PendingAgrees(s, cfg, own, today)
  {
    forall k | k in own
      ensures (k in Attempted(s.table, cfg, round, today) <==> Worth(Latest(s), cfg, today, k)) <==>
                (InPlay(cfg, today, k) && LastWrite(s.pending, k).Some? ==>
                  (Retryable(LastWrite(s.pending, k).value) <==> k in s.table && Retryable(s.table[k])))
    {
      AttemptedMeans(s.table, cfg, round, today, k);
      FoldAt(s.table, s.pending, k);
    }
  }

  /** The latest result of `k` is a failure worth a retry, and the committed row does not show one. */
  predicate HiddenFailure(s: LaggedStore, cfg: Config, today: int, k: Key) {
    && InPlay(cfg, today, k) && !(k in s.table && Retryable(s.table[k]))
    && LastWrite(s.pending, k).Some? && Retryable(LastWrite(s.pending, k).value)
  }

  /** The committed row of `k` is a failure worth a retry, and a pending result has settled it. */
  predicate SettledFailure(s: LaggedStore, cfg: Config, today: int, k: Key) {
    && InPlay(cfg, today, k) && k in s.table && Retryable(s.table[k])
    && LastWrite(s.pending, k).Some? && !Retryable(LastWrite(s.pending, k).value)
  }

  /** A round searches nothing of the run that the latest results have settled. */
  ghost predicate Spares(s: LaggedStore, cfg: Config, own: set<Key>, round: nat, today: int) {
    forall k :: k in own && k in Attempted(s.table, cfg, round, today) ==> Worth(Latest(s), cfg, today, k)
  }

  /** The two ways a lagging read can be wrong, each with its own condition: failures missed, and keys
      searched needlessly. */
  lemma CoversIff(s: LaggedStore, cfg: Config, own: set<Key>, round: nat, today: int)
    requires WithinBudget(s.table, cfg, own, round, today)
    ensures Covers(s, cfg, own, round, today) <==> forall k :: k in own ==> !HiddenFailure(s, cfg, today, k)
    ensures Spares(s, cfg, own, round, today) <==> forall k :: k in own ==> !SettledFailure(s, cfg, today, k)
  {
    forall k | k in own
      ensures Worth(Latest(s), cfg, today, k) && k !in Attempted(s.table, cfg, round, today) <==>
                HiddenFailure(s, cfg, today, k)
      ensures k in Attempted(s.table, cfg, round, today) && !Worth(Latest(s), cfg, today, k) <==>
                SettledFailure(s, cfg, today, k)
    {
      AttemptedMeans(s.table, cfg, round, today, k);
      FoldAt(s.table, s.pending, k);
    }
  }

  /** No failure of the run's keys, committed or pending, carries more than the budget of `passes`
      passes. */
  ghost predicate RowsWithin(s: LaggedStore, own: set<Key>, passes: nat) {
    && (forall k :: k in own && k in s.table && Retryable(s.table[k]) ==>
          s.table[k].retries <= passes * MAX_ATTEMPTS)
    && (forall i :: 0 <= i < |s.pending| && Retryable(s.pending[i].row) ==>
          s.pending[i].row.retries <= passes * MAX_ATTEMPTS)
  }

  lemma RowsStayWithin(s: LaggedStore, cfg: Config, own: set<Key>, round: nat, r: Round)
    requires RowsWithin(s, own, round) && RoundOk(s, cfg, round, r)
    ensures RowsWithin(AfterRound(s, r), own, round + 1)
  {
    var queued := s.pending + r.batch.writes;
    PassComplete(r.batch, Attempted(s.table, cfg, round, r.today), round);
    forall i | 0 <= i < |queued| && Retryable(queued[i].row)
      ensures queued[i].row.retries <= (round + 1) * MAX_ATTEMPTS
    {
      assert i >= |s.pending| ==> queued[i] == r.batch.writes[i - |s.pending|];
    }
    var landed := queued[..r.landed];
    forall k | k in own && k in Fold(s.table, landed) && Retryable(Fold(s.table, landed)[k])
      ensures Fold(s.table, landed)[k].retries <= (round + 1) * MAX_ATTEMPTS
    {
      FoldAt(s.table, landed, k);
      if LastWrite(landed, k).Some? {
        var i :| 0 <= i < |landed| && landed[i] == Write(k, LastWrite(landed, k).value);
        assert landed[i] == queued[i];
      }
    }
  }

  lemma {:induction false} RunWithin(run: FreshRun, i: nat)
    requires FreshRunOk(run) && i <= |run.loop.rounds|
    ensures RowsWithin(run.loop.stores[i], KeySet(run.first.keys), i + 1)
  {
    if i == 0 {
      forall k | k in KeySet(run.first.keys)
        ensures k in run.loop.stores[0].table && TaskOk(run.loop.stores[0].table[k], SearchesIn(run.first, k), 0)
      {
        FirstRowAt(run, k);
      }
    } else {
      RunWithin(run, i - 1);
      assert RoundAt(run.loop, i - 1);
      RowsStayWithin(run.loop.stores[i - 1], run.loop.cfg, KeySet(run.first.keys), i, run.loop.rounds[i - 1]);
    }
  }

  /** In a fresh run that holds of every round, with nothing assumed of the lag. */
  lemma RoundReadsIff(run: FreshRun, i: nat)
    requires FreshRunOk(run) && i < |run.loop.rounds|
    ensures var own, s, day := KeySet(run.first.keys), run.loop.stores[i], run.loop.rounds[i].today;
            && (ReadsLatest(s, run.loop.cfg, own, i + 1, day) <==> PendingAgrees(s, run.loop.cfg, own, day))
            && (Covers(s, run.loop.cfg, own, i + 1, day) <==>
                  forall k :: k in own ==> !HiddenFailure(s, run.loop.cfg, day, k))
            && (Spares(s, run.loop.cfg, own, i + 1, day) <==>
                  forall k :: k in own ==> !SettledFailure(s, run.loop.cfg, day, k))
  {
    RunWithin(run, i);
    CoversIff(run.loop.stores[i], run.loop.cfg, KeySet(run.first.keys), i + 1, run.loop.rounds[i].today);
    ReadsLatestIff(run.loop.stores[i], run.loop.cfg, KeySet(run.first.keys), i + 1, run.loop.rounds[i].today);
  }
}
