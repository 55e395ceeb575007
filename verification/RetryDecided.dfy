/** What the attempts of one pass decide about the next: which failures are searched again. */
module RetryDecided {
  import opened Prelude
  import opened ResultStore
  import opened SearchBatch
  import opened RetryRounds
  import opened RetryLadder
  import opened RetryCounts
  import opened RetryWriter
  import opened WholeRuns
  import BatchWriter

  /** Three attempts found nothing, and the third failed in one of the expected ways: no proxy was left,
      no flights came back, or the provider answered with a rate limit, a block, a timeout, a lost
      connection or bad data. */
  predicate FailsThrice(script: Script) {
    && (forall n: nat :: n < 3 ==> !script.meets(n).Flights? && !script.meets(n).Breaks?)
    && match script.meets(2)
       case NoProxyLeft => true
       case NoFlights => true
       case RateLimitedError => true
       case BlockedError => true
       case TimeoutError => true
       case ConnectionError => true
       case DataError => true
       case UnexpectedError => false
       case Flights(_) => false
       case Breaks => false
  }

  /** The attempt that decides a task: the first that finds flights or breaks, or the third. */
  function Decisive(script: Script): (n: nat)
    ensures n < 3 && (n == 2 || script.meets(n).Breaks? || script.meets(n).Flights?)
    ensures forall i :: 0 <= i < n ==> !script.meets(i).Breaks? && !script.meets(i).Flights?
  {
    if script.meets(0).Breaks? || script.meets(0).Flights? then 0
    else if script.meets(1).Breaks? || script.meets(1).Flights? then 1
    else 2
  }

  /** What a round searches, field by field: an unsuccessful row filed under one of the five expected
      errors, with at most three attempts for each pass so far unless the run continues an older one,
      whose departure is neither before `since` nor passed, on a covered route. */
  lemma AttemptedExact(t: Table, cfg: Config, round: nat, today: int, k: Key)
    ensures k in Attempted(t, cfg, round, today) <==>
              && k in t && !t[k].success && t[k].error.Some?
              && (t[k].error.value == NoProxy || t[k].error.value == RateLimited || t[k].error.value == Timeout
                  || t[k].error.value == Connection || t[k].error.value == Data)
              && k.depDate >= cfg.since && k.depDate >= today && k.route in cfg.covered
              && (cfg.retryAll || t[k].retries <= 3 * round)
  {
    AttemptedMeans(t, cfg, round, today, k);
    GetFailedExact(t, Budget(cfg, round), cfg.since, k);
  }

  lemma OutcomeDecides(t: Table, cfg: Config, script: Script, round: nat, today: int, k: Key)
    requires k in t && t[k] == SearchFrom(script, round, 0).0 && !cfg.retryAll
    ensures k in Attempted(t, cfg, round + 1, today) <==>
              FailsThrice(script) && k.depDate >= cfg.since && k.depDate >= today && k.route in cfg.covered
    ensures FailsThrice(script) && k.depDate >= cfg.since ==> k in GetFailed(t, Budget(cfg, round + 1), cfg.since)
  {
    TaskOutcome(script, round, Decisive(script));
    AttemptedExact(t, cfg, round + 1, today, k);
    GetFailedExact(t, Budget(cfg, round + 1), cfg.since, k);
  }

  /** After pass i of a fresh run, a round that reads a drained store searches a key of that pass again if
      and only if its task failed three times, the third in an expected way, and it is still in play. */
  lemma NextRoundDecided(run: FreshRun, i: nat, k: Key, script: Script, day: int)
    requires FreshRunOk(run) && i <= |run.loop.rounds| && run.loop.stores[i].pending == []
    requires LastWrite(Passes(run)[i].writes, k) == Some(SearchFrom(script, i, 0).0)
    ensures var t, cfg := run.loop.stores[i].table, run.loop.cfg;
            && (k in Attempted(t, cfg, i + 1, day) <==>
                  FailsThrice(script) && k.depDate >= cfg.since && k.depDate >= day && k.route in cfg.covered)
            && (FailsThrice(script) && k.depDate >= cfg.since ==> k in GetFailed(t, Budget(cfg, i + 1), cfg.since))
  {
    LatestOutcomes(run, i, k);
    assert Latest(run.loop.stores[i]) == run.loop.stores[i].table;
    assert Passes(run)[..i + 1][i] == Passes(run)[i];
    OutcomeDecides(run.loop.stores[i].table, run.loop.cfg, script, i, day, k);
  }

  lemma PassesUpTo(run: FreshRun, w: WholeRun, i: nat)
    requires i <= |w.rounds| && Follows(run, w, i)
    ensures Passes(run)[i] == AllPasses(w)[i]
  {}

  /** In a whole run: a key whose task in pass i failed three times, the third in an expected way, brings
      about another round, which searches it unless it has left or lost its provider; a key whose task
      found flights, failed unexpectedly or broke is not searched by that round. Pass 0 is followed by
      a flush; a later pass must have left nothing pending. */
  lemma WholeRunRetries(w: WholeRun, i: nat, k: Key, script: Script)
    requires WholeRunOk(w) && i <= |w.rounds| && i < 3
    requires i > 0 ==> BatchWriter.Pending(RepoAt(w, i)) == []
    requires LastWrite(AllPasses(w)[i].writes, k) == Some(SearchFrom(script, i, 0).0)
    ensures FailsThrice(script) && k.depDate >= w.cfg.since ==> i < |w.rounds|
    ensures i < |w.rounds| ==>
              (k in w.rounds[i].batch.searches <==>
                 && FailsThrice(script) && k.route in w.cfg.covered
                 && k.depDate >= w.cfg.since && k.depDate >= w.rounds[i].day)
  {
    var run := Modelled(w, i);
    PassesUpTo(run, w, i);
    if i == 0 {
      FirstEnds(w);
      FlushedDrains(w.first.end, w.before);
    }
    NextRoundDecided(run, i, k, script, if i < |w.rounds| then w.rounds[i].day else w.today);
    if i < |w.rounds| {
      assert RoundLeg(w, i);
      PassComplete(w.rounds[i].batch, Attempted(RepoAt(w, i).table, w.cfg, i + 1, w.rounds[i].day), i + 1);
    }
  }
}
