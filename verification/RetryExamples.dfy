/** Runs of the retry rounds that go wrong, built from passes in which every task meets the same. */
module RetryExamples {
  import opened Prelude
  import opened ResultStore
  import opened SearchBatch
  import opened RetryRounds
  import opened RetryLadder
  import opened RetryCounts
  import WriterRefinement

  /** Every attempt times out, or the first finds flights. */
  const TIMES_OUT: Script := Script(_ => TimeoutError, "", "")

  function Finds(json: string): Script {
    Script(_ => Flights(json), "", "")
  }

  lemma ScriptRows(json: string, round: nat)
    ensures SearchFrom(TIMES_OUT, round, 0) == (FailureRow(Timeout, round, ""), 3)
    ensures SearchFrom(Finds(json), round, 0) == (Row(Some(json), None, 1, true, Some("")), 1)
  {
    assert SearchFrom(TIMES_OUT, round, 0) == SearchFrom(TIMES_OUT, round, 1) == SearchFrom(TIMES_OUT, round, 2);
  }

  /** A round on the same day in which all of `keys` come to the same. */
  lemma AddRound(loop: Loop, keys: seq<Key>, script: Script, landed: nat) returns (r: Round)
    requires LoopOk(loop) && |loop.rounds| < ROUNDS && DistinctKeys(keys) && keys != []
    requires var n := |loop.rounds|;
             && Attempted(loop.stores[n].table, loop.cfg, n + 1, DayBefore(loop, n)) == KeySet(keys)
             && landed <= |loop.stores[n].pending| + |keys|
    ensures var n := |loop.rounds|;
            && r.today == DayBefore(loop, n) && r.landed == landed
            && r.batch.writes == SameRow(keys, SearchFrom(script, n + 1, 0).0)
            && (forall k :: k in keys ==> SearchesIn(r.batch, k) == SearchFrom(script, n + 1, 0).1)
            && LoopOk(Extended(loop, r))
  {
    var n := |loop.rounds|;
    var b := OneScriptPass(keys, n + 1, script);
    r := Round(DayBefore(loop, n), b, landed);
    assert keys[0] in KeySet(keys);
    LoopExtends(loop, r);
  }

  /** The keys of a made-up run: distinct, and all of them in play on `day`. */
  predicate KeysInPlay(keys: seq<Key>, cfg: Config, day: int) {
    && keys != [] && DistinctKeys(keys) && !cfg.retryAll
    && forall i :: 0 <= i < |keys| ==> InPlay(cfg, day, keys[i])
  }

  /** A table in which exactly `keys` hold `row`. */
  ghost predicate AllHold(t: Table, keys: seq<Key>, row: Row) {
    forall k :: (k in t <==> k in keys) && (k in t ==> t[k] == row)
  }

  lemma AllAttempted(t: Table, keys: seq<Key>, row: Row, cfg: Config, round: nat, day: int)
    requires KeysInPlay(keys, cfg, day) && AllHold(t, keys, row)
    requires Retryable(row) && row.retries <= round * MAX_ATTEMPTS
    ensures Attempted(t, cfg, round, day) == KeySet(keys)
  {
    forall k
      ensures k in Attempted(t, cfg, round, day) <==> k in keys
    {
      AttemptedMeans(t, cfg, round, day, k);
      if k in keys {
        var i :| 0 <= i < |keys| && keys[i] == k;
      }
    }
  }

  /** A run over an empty table whose first pass times out everywhere. */
  lemma AllTimeOut(keys: seq<Key>, cfg: Config, day: int) returns (run: FreshRun)
    requires KeysInPlay(keys, cfg, day)
    ensures FreshRunOk(run) && run.first.keys == keys && run.loop.rounds == []
    ensures run.loop.cfg == cfg && run.loop.today == day
    ensures AllHold(run.loop.stores[0].table, keys, FailureRow(Timeout, 0, ""))
    ensures forall k :: k in keys ==> SearchesIn(run.first, k) == 3
  {
    ScriptRows("", 0);
    var b := OneScriptPass(keys, 0, TIMES_OUT);
    var seeded := Seed(Purge(map[]), keys);
    var t := Fold(seeded, b.writes);
    run := FreshRun(map[], b, Loop(cfg, day, [], [LaggedStore(t, [])]));
    forall k
      ensures (k in t <==> k in keys) && (k in t ==> t[k] == FailureRow(Timeout, 0, ""))
    {
      FoldAt(seeded, b.writes, k);
      if k in keys {
        var i :| 0 <= i < |keys| && keys[i] == k;
        assert b.writes[i].key == k;
      }
    }
  }

  lemma PassesOfRounds(run: FreshRun, k: Key)
    ensures |run.loop.rounds| == 2 ==>
              SearchesOf(k, Passes(run)) == SearchesIn(run.first, k)
                + SearchesIn(run.loop.rounds[0].batch, k) + SearchesIn(run.loop.rounds[1].batch, k)
    ensures |run.loop.rounds| == 3 ==>
              SearchesOf(k, Passes(run)) == SearchesIn(run.first, k) + SearchesIn(run.loop.rounds[0].batch, k)
                + SearchesIn(run.loop.rounds[1].batch, k) + SearchesIn(run.loop.rounds[2].batch, k)
  {
    var p := Passes(run);
    if |p| == 3 || |p| == 4 {
      assert p[..1] == [p[0]] && p[..2][..1] == p[..1] && p[..3][..2] == p[..2] && p[..|p|] == p;
      assert SearchesOf(k, []) == 0 && p[..1][..0] == [];
      assert SearchesOf(k, p[..1]) == SearchesIn(p[0], k);
      assert SearchesOf(k, p[..2]) == SearchesOf(k, p[..1]) + SearchesIn(p[1], k);
      assert SearchesOf(k, p[..3]) == SearchesOf(k, p[..2]) + SearchesIn(p[2], k);
    }
  }

  const FIRST_FAILURE := FailureRow(Timeout, 0, "")

  function FoundRow(json: string): Row {
    Row(Some(json), None, 1, true, Some(""))
  }

  /** A round that reads the first failures, since nothing has landed yet. */
  lemma FirstFailuresAgain(loop: Loop, keys: seq<Key>, day: int, script: Script, landed: nat) returns (r: Round)
    requires LoopOk(loop) && |loop.rounds| < ROUNDS && KeysInPlay(keys, loop.cfg, day)
    requires DayBefore(loop, |loop.rounds|) == day
    requires var s := loop.stores[|loop.rounds|];
             AllHold(s.table, keys, FIRST_FAILURE) && landed <= |s.pending| + |keys|
    ensures r.today == day && r.landed == landed && |r.batch.writes| == |keys|
    ensures LoopOk(Extended(loop, r))
    ensures var n := |loop.rounds|;
            var s, came := loop.stores[n], SearchFrom(script, n + 1, 0);
            var queued := s.pending + SameRow(keys, came.0);
            && AfterRound(s, r) == LaggedStore(Fold(s.table, queued[..landed]), queued[landed..])
            && forall k :: k in keys ==> SearchesIn(r.batch, k) == came.1
  {
    var n := |loop.rounds|;
    AllAttempted(loop.stores[n].table, keys, FIRST_FAILURE, loop.cfg, n + 1, day);
    r := AddRound(loop, keys, script, landed);
  }

  /** The first pass times out, and round 1 finds flights. */
  lemma OneRound(keys: seq<Key>, cfg: Config, day: int, json: string) returns (run: FreshRun)
    requires KeysInPlay(keys, cfg, day)
    ensures FreshRunOk(run) && |run.loop.rounds| == 1 && run.loop.cfg == cfg
    ensures run.loop.rounds[0].landed == 0 && run.loop.rounds[0].today == day
    ensures AllHold(run.loop.stores[0].table, keys, FIRST_FAILURE)
    ensures run.loop.stores[1] == LaggedStore(run.loop.stores[0].table, SameRow(keys, FoundRow(json)))
    ensures forall k :: k in keys ==>
              SearchesIn(run.first, k) == 3 && SearchesIn(run.loop.rounds[0].batch, k) == 1
  {
    var first := AllTimeOut(keys, cfg, day);
    ScriptRows(json, 1);
    var r1 := FirstFailuresAgain(first.loop, keys, day, Finds(json), 0);
    run := RunExtends(first, r1);
    var found := SameRow(keys, FoundRow(json));
    assert [] + found == found && found[..0] == [] && found[0..] == found;
  }

  /** The first pass times out, round 1 finds flights, and round 2, to which nothing has landed, loses
      them again. */
  lemma TwoRounds(keys: seq<Key>, cfg: Config, day: int, json: string, landed: nat) returns (run: FreshRun)
    requires KeysInPlay(keys, cfg, day) && landed <= 2 * |keys|
    ensures FreshRunOk(run) && |run.loop.rounds| == 2
    ensures run.loop.rounds[0].landed == 0 && run.loop.rounds[1].landed == landed
    ensures var t := run.loop.stores[0].table;
            var queued := SameRow(keys, FoundRow(json)) + SameRow(keys, FailureRow(Timeout, 2, ""));
            && run.loop.stores[1] == LaggedStore(t, SameRow(keys, FoundRow(json)))
            && run.loop.stores[2] == LaggedStore(Fold(t, queued[..landed]), queued[landed..])
    ensures forall k :: k in keys ==>
              && SearchesIn(run.first, k) == 3
              && SearchesIn(run.loop.rounds[0].batch, k) == 1
              && SearchesIn(run.loop.rounds[1].batch, k) == 3
  {
    var one := OneRound(keys, cfg, day, json);
    ScriptRows(json, 2);
    var r2 := FirstFailuresAgain(one.loop, keys, day, TIMES_OUT, landed);
    run := RunExtends(one, r2);
  }

  /** A run in which a success is lost: round 1 finds the flights, round 2 does not see that, fails,
      and overwrites it. The failure's `retries` is 9, though the key was searched 7 times. */
  lemma SuccessOverwritten(k: Key, json: string) returns (run: FreshRun)
    ensures FreshRunOk(run) && |run.loop.rounds| == 2
    ensures run.loop.rounds[0].landed == WriterRefinement.WholeBatches(1)
    ensures run.loop.rounds[1].landed == WriterRefinement.WholeBatches(2)
    ensures var t1, t2 := Latest(run.loop.stores[1]), Latest(run.loop.stores[2]);
            && k in t1 && t1[k] == FoundRow(json)
            && k in t2 && !t2[k].success && t2[k].retries == 9
    ensures SearchesOf(k, Passes(run)) == 7
  {
    var keys, cfg := [k], Config(k.depDate, {k.route}, false);
    run := TwoRounds(keys, cfg, k.depDate, json, 0);
    var t := run.loop.stores[0].table;
    var found, lost := SameRow(keys, FoundRow(json)), SameRow(keys, FailureRow(Timeout, 2, ""));
    assert (found + lost)[0..] == found + lost;
    FoldAt(t, found, k);
    FoldAt(t, found + lost, k);
    PassesOfRounds(run, k);
  }

  lemma LastOfTwo(a: seq<Write>, b: seq<Write>, k: Key)
    ensures LastWrite(a + b, k) == if LastWrite(b, k).Some? then LastWrite(b, k) else LastWrite(a, k)
  {
    if b == [] {
      assert a + b == a;
    } else {
      assert (a + b)[..|a + b| - 1] == a + b[..|b| - 1];
      LastOfTwo(a, b[..|b| - 1], k);
    }
  }

  lemma LastOfSame(keys: seq<Key>, row: Row, k: Key)
    ensures LastWrite(SameRow(keys, row), k) == if k in keys then Some(row) else None
  {
    if keys != [] {
      var n := |keys| - 1;
      assert SameRow(keys, row)[..n] == SameRow(keys[..n], row);
      assert keys == keys[..n] + [keys[n]];
      LastOfSame(keys[..n], row, k);
    }
  }

  /** Where the i-th key stands once a batch of 500 of the 2n rows has landed: the table has its
      success, and its failure is pending. */
  lemma LateKey(t: Table, keys: seq<Key>, found: Row, lost: Row, i: nat)
    requires DistinctKeys(keys) && 250 < |keys| < 500 && 500 - |keys| <= i < |keys|
    ensures var queued := SameRow(keys, found) + SameRow(keys, lost);
            var table := Fold(t, queued[..500]);
            && keys[i] in table && table[keys[i]] == found
            && keys[i] in Fold(table, queued[500..]) && Fold(table, queued[500..])[keys[i]] == lost
  {
    var n, k := |keys|, keys[i];
    var queued := SameRow(keys, found) + SameRow(keys, lost);
    var early, late := SameRow(keys[..500 - n], lost), SameRow(keys[500 - n..], lost);
    assert queued[..500] == SameRow(keys, found) + early && queued[500..] == late;
    assert keys[500 - n..][i - (500 - n)] == k && k !in keys[..500 - n];
    LastOfSame(keys, found, k);
    LastOfSame(keys[..500 - n], lost, k);
    LastOfSame(keys[500 - n..], lost, k);
    LastOfTwo(SameRow(keys, found), early, k);
    FoldAt(t, queued[..500], k);
    FoldAt(Fold(t, queued[..500]), late, k);
  }

  lemma Halves(n: nat)
    requires 250 < n < 500
    ensures WriterRefinement.WholeBatches(n) == 0 && WriterRefinement.WholeBatches(2 * n) == 500
  {}

  lemma NotPicked(s: LaggedStore, cfg: Config, day: int, k: Key)
    requires InPlay(cfg, day, k) && k in s.table && s.table[k].success
    requires k in Latest(s) && Latest(s)[k] == FailureRow(Timeout, 2, "")
    ensures Worth(Latest(s), cfg, day, k) && Latest(s)[k].retries == 9
    ensures k !in Attempted(s.table, cfg, 3, day)
  {
    AttemptedMeans(s.table, cfg, 3, day, k);
  }

  /** A run in which failures are given up too early. Round 1 finds flights for n keys and round 2 loses
      them again; with 250 < n < 500 the writer has then committed one batch of 500 rows, so for the
      last 2n - 500 keys the table still shows the success of round 1. Their latest outcome is a
      timeout worth a retry, within the budget, and round 3 does not search them. */
  lemma RetryMissed(keys: seq<Key>, cfg: Config, day: int, json: string, i: nat) returns (run: FreshRun)
    requires KeysInPlay(keys, cfg, day) && 250 < |keys| < 500 && 500 - |keys| <= i < |keys|
    ensures FreshRunOk(run) && |run.loop.rounds| == 2
    ensures run.loop.rounds[0].landed == WriterRefinement.WholeBatches(|keys|)
    ensures run.loop.rounds[1].landed == WriterRefinement.WholeBatches(2 * |keys|)
    ensures Worth(Latest(run.loop.stores[2]), cfg, day, keys[i])
    ensures Latest(run.loop.stores[2])[keys[i]].retries == 9
    ensures keys[i] !in Attempted(run.loop.stores[2].table, cfg, 3, day)
  {
    Halves(|keys|);
    run := TwoRounds(keys, cfg, day, json, 500);
    LateKey(run.loop.stores[0].table, keys, FoundRow(json), FailureRow(Timeout, 2, ""), i);
    NotPicked(run.loop.stores[2], cfg, day, keys[i]);
  }

  /** The budget is used up when every attempt times out, whether or not any row lands. */
  lemma BudgetIsUsedUp(k: Key) returns (run: FreshRun)
    ensures FreshRunOk(run) && SearchesOf(k, Passes(run)) == 12
  {
    var keys, cfg := [k], Config(k.depDate, {k.route}, false);
    run := AllTimeOut(keys, cfg, k.depDate);
    var loop := run.loop;
    var t := loop.stores[0].table;
    for i := 0 to ROUNDS
      invariant LoopOk(loop) && |loop.rounds| == i && loop.cfg == cfg && loop.today == k.depDate
      invariant loop.stores[0] == run.loop.stores[0]
      invariant forall j :: 0 <= j <= i ==> loop.stores[j].table == t && DayBefore(loop, j) == k.depDate
      invariant forall j :: 0 <= j < i ==> SearchesIn(loop.rounds[j].batch, k) == 3
    {
      ScriptRows("", i + 1);
      var r := FirstFailuresAgain(loop, keys, k.depDate, TIMES_OUT, 0);
      loop := Extended(loop, r);
    }
    run := run.(loop := loop);
    PassesOfRounds(run, k);
  }
}
