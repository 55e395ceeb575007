/** One search task and one concurrent batch of them: `_attempt_once`, `_search_and_store`,
    `_process_task`, `_record_failure` and `_run_batch` of collector/services/search_pipeline.py. */
module SearchBatch {
  import opened Prelude
  import opened ResultStore
  import opened Workers

  const MAX_ATTEMPTS := 3

  /** What can happen during one attempt; `Breaks` is an exception outside the provider call. */
  datatype Attempt =
    | NoProxyLeft
    | Flights(json: string)
    | NoFlights
    | RateLimitedError
    | BlockedError
    | TimeoutError
    | ConnectionError
    | DataError
    | UnexpectedError
    | Breaks

  /** The error an attempt is filed under; `None` for flights found. */
  function Classify(a: Attempt): Option<ErrorType>
    requires !a.Breaks?
  {
    match a
    case NoProxyLeft => Some(NoProxy)
    case Flights(_) => None
    case NoFlights => Some(Data)
    case RateLimitedError => Some(RateLimited)
    case BlockedError => Some(Data)
    case TimeoutError => Some(Timeout)
    case ConnectionError => Some(Connection)
    case DataError => Some(Data)
    case UnexpectedError => Some(Other)
  }

  function FailureRow(error: ErrorType, round: nat, now: string): Row {
    Row(None, Some(error), (round + 1) * MAX_ATTEMPTS, false, Some(now))
  }

  /** What a task runs into: `meets(i)` is what its i-th attempt would meet, for every i. */
  datatype Script = Script(meets: nat -> Attempt, startedAt: string, failedAt: string)

  /** A search task from its n-th attempt on: the row it stores, and the attempts it has made by
      then. Every attempt makes at most one provider search. */
  function SearchFrom(script: Script, round: nat, n: nat): (Row, nat)
    requires n < MAX_ATTEMPTS
    decreases MAX_ATTEMPTS - n
  {
    var a := script.meets(n);
    if a.Breaks? then (FailureRow(Other, round, script.failedAt), n + 1)
    else if a.Flights? then (Row(Some(a.json), None, n + 1, true, Some(script.startedAt)), n + 1)
    else if n + 1 < MAX_ATTEMPTS then SearchFrom(script, round, n + 1)
    else (FailureRow(Classify(a).value, round, script.startedAt), n + 1)
  }

  /** What a pass may store: a success after 1 to 3 attempts, or a failure that names its error and
      carries the budget used up to the end of the pass. */
  predicate RowOk(row: Row, round: nat) {
    if row.success then row.error.None? && 1 <= row.retries <= MAX_ATTEMPTS
    else row.error.Some? && row.retries == (round + 1) * MAX_ATTEMPTS
  }

  /** A row with the attempts made for it: a success says how many, and a failure that gave up before
      the third attempt broke off with an exception, which is not worth a retry. */
  predicate TaskOk(row: Row, attempts: nat, round: nat) {
    && RowOk(row, round)
    && 1 <= attempts <= MAX_ATTEMPTS
    && (row.success ==> row.retries == attempts)
    && (!row.success && attempts < MAX_ATTEMPTS ==> row.error == Some(Other))
  }

  lemma {:induction false} SearchIsOk(script: Script, round: nat, n: nat)
    requires n < MAX_ATTEMPTS
    ensures var (row, attempts) := SearchFrom(script, round, n); TaskOk(row, attempts, round)
    decreases MAX_ATTEMPTS - n
  {
    var a := script.meets(n);
    if !a.Breaks? && !a.Flights? && n + 1 < MAX_ATTEMPTS {
      SearchIsOk(script, round, n + 1);
    }
  }

  /** What a task comes to, by what its attempts meet: the first that finds flights or breaks decides, and
      otherwise the third. Flights are stored with the attempts it took; a failure is filed under its
      kind, with the attempts of all passes so far. */
  lemma TaskOutcome(script: Script, round: nat, n: nat)
    requires n < 3 && (n == 2 || script.meets(n).Breaks? || script.meets(n).Flights?)
    requires forall i :: 0 <= i < n ==> !script.meets(i).Breaks? && !script.meets(i).Flights?
    ensures var (row, attempts) := SearchFrom(script, round, 0);
            && attempts == n + 1
            && row == match script.meets(n)
                      case Flights(json) => Row(Some(json), None, n + 1, true, Some(script.startedAt))
                      case Breaks => Row(None, Some(Other), 3 * (round + 1), false, Some(script.failedAt))
                      case NoProxyLeft => Row(None, Some(NoProxy), 3 * (round + 1), false, Some(script.startedAt))
                      case NoFlights => Row(None, Some(Data), 3 * (round + 1), false, Some(script.startedAt))
                      case BlockedError => Row(None, Some(Data), 3 * (round + 1), false, Some(script.startedAt))
                      case DataError => Row(None, Some(Data), 3 * (round + 1), false, Some(script.startedAt))
                      case TimeoutError => Row(None, Some(Timeout), 3 * (round + 1), false, Some(script.startedAt))
                      case RateLimitedError =>
                        Row(None, Some(RateLimited), 3 * (round + 1), false, Some(script.startedAt))
                      case ConnectionError =>
                        Row(None, Some(Connection), 3 * (round + 1), false, Some(script.startedAt))
                      case UnexpectedError => Row(None, Some(Other), 3 * (round + 1), false, Some(script.startedAt))
  {
    assert SearchFrom(script, round, 0) == SearchFrom(script, round, n) by {
      if n > 0 {
        assert SearchFrom(script, round, 0) == SearchFrom(script, round, 1);
      }
    }
  }

  /** `_search_and_store` under `_process_task`: at most three attempts, stopping at the first that
      finds flights, and exactly one row whatever happens. */
  method ProcessTask(script: Script, round: nat) returns (row: Row, attempts: nat)
    ensures (row, attempts) == SearchFrom(script, round, 0)
    ensures TaskOk(row, attempts, round)
    ensures forall i :: 0 <= i < attempts - 1 ==> !script.meets(i).Breaks? && !script.meets(i).Flights?
    ensures var last := script.meets(attempts - 1);
            && (attempts < MAX_ATTEMPTS ==> last.Breaks? || last.Flights?)
            && (row.success <==> last.Flights?)
            && row.flights == (if last.Flights? then Some(last.json) else None)
            && row.error == (if last.Breaks? then Some(Other) else Classify(last))
  {
    SearchIsOk(script, round, 0);
    attempts := 0;
    var error: Option<ErrorType> := None;
    while attempts < MAX_ATTEMPTS
      invariant attempts <= MAX_ATTEMPTS
      invariant forall i :: 0 <= i < attempts ==> !script.meets(i).Breaks? && !script.meets(i).Flights?
      invariant attempts > 0 ==> error == Classify(script.meets(attempts - 1))
      invariant SearchFrom(script, round, 0) ==
                if attempts < MAX_ATTEMPTS then SearchFrom(script, round, attempts)
                else (FailureRow(error.value, round, script.startedAt), attempts)
    {
      var a := script.meets(attempts);
      attempts := attempts + 1;
      if a.Breaks? {
        return FailureRow(Other, round, script.failedAt), attempts;
      }
      error := Classify(a);
      if error.None? {
        return Row(Some(a.json), None, attempts, true, Some(script.startedAt)), attempts;
      }
    }
    row := FailureRow(error.value, round, script.startedAt);
  }

  // ---------------------------------------------------------------- the worker pool

  /** A batch in progress. Workers take task numbers in queue order; `writes` are the rows stored, and
      `searches` counts the attempts made for each key as they happen. */
  datatype Batch = Batch(
    keys: seq<Key>,
    round: nat,
    taken: nat,
    workers: seq<Slot>,
    finished: seq<nat>,
    done: nat,
    writes: seq<Write>,
    searches: map<Key, nat>)

  datatype Event = Next(w: nat) | Finish(w: nat, script: Script)

  function WorkerCount(maxConcurrent: int, total: nat): nat {
    MinInt(MaxInt(maxConcurrent, 1), MaxInt(total, 1))
  }

  function Start(keys: seq<Key>, round: nat, maxConcurrent: int): Batch {
    Batch(keys, round, 0, AllReady(WorkerCount(maxConcurrent, |keys|)), [], 0, [], map[])
  }

  lemma {:induction false} SameWorkers(start: Batch, events: seq<Event>, end: Batch)
    requires Reaches(start, events, end)
    ensures |end.workers| == |start.workers|
    decreases |events|
  {
    if events != [] {
      SameWorkers(Step(start, events[0]), events[1..], end);
    }
  }

  /** At any moment of a batch no more tasks are under way than `maxConcurrent` allows, nor, unless there
      are none, than there are tasks; and with both positive there are as many workers as both allow. */
  lemma ConcurrencyBound(keys: seq<Key>, round: nat, maxConcurrent: int, events: seq<Event>, b: Batch)
    requires Reaches(Start(keys, round, maxConcurrent), events, b)
    ensures BusyCount(b.workers) <= |b.workers|
    ensures |b.workers| >= 1 && (|b.workers| > 1 ==> |b.workers| <= maxConcurrent && |b.workers| <= |keys|)
    ensures maxConcurrent >= 1 && |keys| >= 1 ==> |b.workers| == maxConcurrent || |b.workers| == |keys|
  {
    SameWorkers(Start(keys, round, maxConcurrent), events, b);
  }

  function SearchesIn(b: Batch, k: Key): nat {
    if k in b.searches then b.searches[k] else 0
  }

  predicate Enabled(b: Batch, e: Event) {
    && e.w < |b.workers|
    && (e.Next? ==> b.workers[e.w].Ready?)
    && (e.Finish? ==> b.workers[e.w].Busy? && b.workers[e.w].item < |b.keys|)
  }

  /** `Next` is `get_nowait`, which ends the worker once the queue is empty; `Finish` is a task whose
      attempts met `script`: its row is stored (the store accepts it) and the task counted. */
  function Step(b: Batch, e: Event): Batch
    requires Enabled(b, e)
  {
    match e
    case Next(w) =>
      if b.taken < |b.keys| then b.(workers := b.workers[w := Busy(b.taken)], taken := b.taken + 1)
      else b.(workers := b.workers[w := Gone])
    case Finish(w, script) =>
      var i := b.workers[w].item;
      var k := b.keys[i];
      var (row, attempts) := SearchFrom(script, b.round, 0);
      b.(workers := b.workers[w := Ready], finished := b.finished + [i], done := b.done + 1,
         writes := b.writes + [Write(k, row)], searches := b.searches[k := SearchesIn(b, k) + attempts])
  }

  ghost predicate Reaches(start: Batch, events: seq<Event>, end: Batch)
    decreases |events|
  {
    if events == [] then end == start
    else Enabled(start, events[0]) && Reaches(Step(start, events[0]), events[1..], end)
  }

  lemma {:induction false} OneMore(start: Batch, events: seq<Event>, mid: Batch, e: Event)
    requires Reaches(start, events, mid) && Enabled(mid, e)
    ensures Reaches(start, events + [e], Step(mid, e))
    decreases |events|
  {
    if events == [] {
      assert [e][1..] == [] && events + [e] == [e];
    } else {
      assert (events + [e])[1..] == events[1..] + [e];
      OneMore(Step(start, events[0]), events[1..], mid, e);
    }
  }

  predicate DistinctKeys(keys: seq<Key>) {
    forall i, j :: 0 <= i < j < |keys| ==> keys[i] != keys[j]
  }

  /** The numbers of the tasks for `k`: more than one if several providers cover its route. */
  function TasksFor(keys: seq<Key>, k: Key): set<nat> {
    set i: nat | i < |keys| && keys[i] == k
  }

  /** The i-th row stored is the i-th finished task's. */
  ghost predicate WriteMatches(b: Batch, i: nat)
    requires i < |b.writes| == |b.finished|
  {
    && b.finished[i] < |b.keys|
    && b.writes[i].key == b.keys[b.finished[i]]
    && RowOk(b.writes[i].row, b.round)
  }

  /** A key is searched at most three times for each of its tasks. */
  ghost predicate CountOk(b: Batch, k: Key) {
    SearchesIn(b, k) <= MAX_ATTEMPTS * |TasksFor(b.keys, k) * Items(b.finished)|
  }

  /** With one task per key, the i-th row goes with the attempts counted for its key. */
  ghost predicate CountMatches(b: Batch, i: nat)
    requires i < |b.writes|
  {
    TaskOk(b.writes[i].row, SearchesIn(b, b.writes[i].key), b.round)
  }

  ghost predicate SearchesMatch(b: Batch) {
    && (forall i :: 0 <= i < |b.writes| ==> CountMatches(b, i))
    && (forall k :: k in b.searches ==> k in b.keys)
    && (forall i: nat :: i < |b.keys| ==> (b.keys[i] in b.searches <==> i in b.finished))
  }

  ghost predicate Inv(b: Batch) {
    && Accounted(b.workers, b.finished, b.taken)
    && b.taken <= |b.keys|
    && b.done == |b.finished| == |b.writes|
    && (forall i :: 0 <= i < |b.writes| ==> WriteMatches(b, i))
    && (forall k :: CountOk(b, k))
    && (DistinctKeys(b.keys) ==> SearchesMatch(b))
    && (GoneCount(b.workers) > 0 ==> b.taken == |b.keys|)
  }

  lemma NextKeeps(b: Batch, w: nat)
    requires Inv(b) && Enabled(b, Next(w))
    ensures Inv(Step(b, Next(w)))
  {
    var b' := Step(b, Next(w));
    CountsUpdate(b.workers, w, b'.workers[w]);
    if b.taken < |b.keys| {
      AccountTake(b.workers, b.finished, b.taken, w);
    } else {
      AccountLeave(b.workers, b.finished, b.taken, w);
    }
    forall i | 0 <= i < |b'.writes|
      ensures WriteMatches(b', i) && (DistinctKeys(b.keys) ==> CountMatches(b', i))
    {
      assert WriteMatches(b, i) && (DistinctKeys(b.keys) ==> CountMatches(b, i));
    }
    forall k
      ensures CountOk(b', k)
    {
      assert CountOk(b, k);
    }
  }

  lemma OneItemMore(tasks: set<nat>, finished: seq<nat>, item: nat)
    requires item !in finished
    ensures |tasks * Items(finished + [item])| == |tasks * Items(finished)| + (if item in tasks then 1 else 0)
  {
    var before, after := Items(finished), Items(finished + [item]);
    assert after == before + {item};
    if item in tasks {
      assert tasks * after == tasks * before + {item};
    } else {
      assert tasks * after == tasks * before;
    }
  }

  /** Finishing one more task of `k` counts at most three more attempts for it. */
  lemma FinishCounts(b: Batch, w: nat, script: Script, k: Key)
    requires Inv(b) && Enabled(b, Finish(w, script))
    ensures CountOk(Step(b, Finish(w, script)), k)
  {
    var item := b.workers[w].item;
    SearchIsOk(script, b.round, 0);
    assert CountOk(b, k);
    OneItemMore(TasksFor(b.keys, k), b.finished, item);
  }

  /** The rows stored before keep their counts, since no key is finished twice, and the new one has its
      own. */
  lemma FinishMatches(b: Batch, w: nat, script: Script, i: nat)
    requires Inv(b) && Enabled(b, Finish(w, script)) && i <= |b.writes| && DistinctKeys(b.keys)
    ensures CountMatches(Step(b, Finish(w, script)), i)
  {
    SearchIsOk(script, b.round, 0);
    if i < |b.writes| {
      assert WriteMatches(b, i) && CountMatches(b, i);
      assert b.finished[i] in b.finished;
      assert b.keys[b.finished[i]] != b.keys[b.workers[w].item];
    }
  }

  lemma FinishWrites(b: Batch, w: nat, script: Script, i: nat)
    requires Inv(b) && Enabled(b, Finish(w, script)) && i <= |b.writes|
    ensures WriteMatches(Step(b, Finish(w, script)), i)
  {
    SearchIsOk(script, b.round, 0);
    assert i < |b.writes| ==> WriteMatches(b, i);
  }

  lemma FinishKeeps(b: Batch, w: nat, script: Script)
    requires Inv(b) && Enabled(b, Finish(w, script))
    ensures Inv(Step(b, Finish(w, script)))
  {
    var b' := Step(b, Finish(w, script));
    CountsUpdate(b.workers, w, Ready);
    AccountFinish(b.workers, b.finished, b.taken, w);
    forall i | 0 <= i <= |b.writes|
      ensures WriteMatches(b', i)
    {
      FinishWrites(b, w, script, i);
    }
    forall k
      ensures CountOk(b', k)
    {
      FinishCounts(b, w, script, k);
    }
    if DistinctKeys(b.keys) {
      forall i | 0 <= i <= |b.writes|
        ensures CountMatches(b', i)
      {
        FinishMatches(b, w, script, i);
      }
      assert SearchesMatch(b');
    }
  }

  lemma {:induction false} InvReaches(start: Batch, events: seq<Event>, end: Batch)
    requires Inv(start) && Reaches(start, events, end)
    ensures Inv(end) && |end.workers| == |start.workers|
    ensures end.keys == start.keys && end.round == start.round
    decreases |events|
  {
    if events != [] {
      InvStep(start, events[0]);
      InvReaches(Step(start, events[0]), events[1..], end);
    }
  }

  lemma InvStep(b: Batch, e: Event)
    requires Inv(b) && Enabled(b, e)
    ensures Inv(Step(b, e))
  {
    match e
    case Next(w) => NextKeeps(b, w);
    case Finish(w, script) => FinishKeeps(b, w, script);
  }

  /** Every worker that has not returned can move, and every step leaves less to do. */
  lemma BatchProgress(b: Batch, w: nat, script: Script, e: Event)
    requires Inv(b)
    ensures w < |b.workers| && !b.workers[w].Gone? ==>
              Enabled(b, if b.workers[w].Ready? then Next(w) else Finish(w, script))
    ensures Enabled(b, e) ==> 0 <= Remaining(Step(b, e)) < Remaining(b)
  {
    if Enabled(b, e) {
      InvStep(b, e);
      CountsUpdate(b.workers, e.w, Step(b, e).workers[e.w]);
    }
  }

  function Remaining(b: Batch): int {
    2 * (|b.keys| - b.taken) + BusyCount(b.workers) + (|b.workers| - GoneCount(b.workers))
  }

  /** The rows of one pass: one per attempted key, each as a task of that pass may store it. */
  ghost predicate PassWrites(attempted: set<Key>, round: nat, ws: seq<Write>) {
    && (forall i, j :: 0 <= i < j < |ws| ==> ws[i].key != ws[j].key)
    && (forall i :: 0 <= i < |ws| ==> ws[i].key in attempted && RowOk(ws[i].row, round))
    && (forall k :: k in attempted ==> Wrote(ws, k))
  }

  /** Every attempted key is searched, 1 to 3 times, and its row goes with the count. */
  ghost predicate PassSearches(attempted: set<Key>, b: Batch) {
    && b.searches.Keys == attempted
    && (forall k :: k in attempted ==> 1 <= SearchesIn(b, k) <= MAX_ATTEMPTS)
    && (forall i :: 0 <= i < |b.writes| ==> TaskOk(b.writes[i].row, SearchesIn(b, b.writes[i].key), b.round))
  }

  function KeySet(keys: seq<Key>): set<Key> {
    set k | k in keys
  }

  predicate AllReturned(b: Batch) {
    forall w :: 0 <= w < |b.workers| ==> b.workers[w].Gone?
  }

  /** A finished run of `_run_batch`, by any workers in any interleaving. */
  ghost predicate Finished(b: Batch, round: nat) {
    && b.round == round && AllReturned(b)
    && exists maxConcurrent: int, events: seq<Event> :: Reaches(Start(b.keys, round, maxConcurrent), events, b)
  }

  /** And one over exactly the keys of `attempted`, with one task for each. */
  ghost predicate Pass(b: Batch, attempted: set<Key>, round: nat) {
    DistinctKeys(b.keys) && KeySet(b.keys) == attempted && Finished(b, round)
  }

  lemma StartOk(keys: seq<Key>, round: nat, maxConcurrent: int)
    ensures Inv(Start(keys, round, maxConcurrent))
  {}

  lemma DistinctWrites(b: Batch)
    requires Inv(b) && DistinctKeys(b.keys)
    ensures forall i, j :: 0 <= i < j < |b.writes| ==> b.writes[i].key != b.writes[j].key
  {
    forall i, j | 0 <= i < j < |b.writes|
      ensures b.writes[i].key != b.writes[j].key
    {
      assert WriteMatches(b, i) && WriteMatches(b, j);
      var x, y := b.finished[i], b.finished[j];
      assert b.keys[x] != b.keys[y] by {
        assert x < y || y < x;
      }
    }
  }

  lemma AllSearched(b: Batch)
    requires Inv(b) && DistinctKeys(b.keys) && forall i: nat :: i < |b.keys| ==> i in b.finished
    ensures PassWrites(KeySet(b.keys), b.round, b.writes) && PassSearches(KeySet(b.keys), b)
  {
    DistinctWrites(b);
    forall i | 0 <= i < |b.writes|
      ensures b.writes[i].key in KeySet(b.keys)
      ensures TaskOk(b.writes[i].row, SearchesIn(b, b.writes[i].key), b.round)
    {
      assert WriteMatches(b, i) && CountMatches(b, i);
    }
    forall k | k in b.keys
      ensures Wrote(b.writes, k) && k in b.searches && 1 <= SearchesIn(b, k) <= MAX_ATTEMPTS
    {
      KeySearched(b, k);
    }
  }

  lemma KeySearched(b: Batch, k: Key)
    requires Inv(b) && DistinctKeys(b.keys) && k in b.keys && forall i: nat :: i < |b.keys| ==> i in b.finished
    ensures Wrote(b.writes, k) && k in b.searches && 1 <= SearchesIn(b, k) <= MAX_ATTEMPTS
  {
    var i :| 0 <= i < |b.keys| && b.keys[i] == k;
    var j :| 0 <= j < |b.finished| && b.finished[j] == i;
    assert WriteMatches(b, j) && CountMatches(b, j);
  }

  /** Completeness: for any number of workers, any interleaving and any outcomes, when all workers
      have returned every task has been taken and finished exactly once, the progress count equals the
      total, the stored rows are exactly one per task, and no key was searched more than three times for
      each of its tasks. With one task per key the rows are one per key, each going with the 1 to 3
      searches of it. */
  lemma BatchComplete(keys: seq<Key>, round: nat, maxConcurrent: int, events: seq<Event>, b: Batch)
    requires Reaches(Start(keys, round, maxConcurrent), events, b) && AllReturned(b)
    ensures b.done == |keys| == |b.writes| == |b.finished| && DistinctItems(b.finished)
    ensures forall i: nat :: i < |keys| ==> i in b.finished
    ensures b.keys == keys && forall i :: 0 <= i < |keys| ==> WriteMatches(b, i)
    ensures forall k :: SearchesIn(b, k) <= MAX_ATTEMPTS * |TasksFor(keys, k)|
    ensures DistinctKeys(keys) ==> PassWrites(KeySet(keys), round, b.writes) && PassSearches(KeySet(keys), b)
  {
    StartOk(keys, round, maxConcurrent);
    InvReaches(Start(keys, round, maxConcurrent), events, b);
    AllGone(b.workers);
    Pigeonhole(b.finished, |keys|);
    forall k
      ensures SearchesIn(b, k) <= MAX_ATTEMPTS * |TasksFor(keys, k)|
    {
      assert CountOk(b, k);
      assert TasksFor(keys, k) * Items(b.finished) == TasksFor(keys, k);
    }
    if DistinctKeys(keys) {
      AllSearched(b);
    }
  }

  lemma PassComplete(b: Batch, attempted: set<Key>, round: nat)
    requires Pass(b, attempted, round)
    ensures PassWrites(attempted, round, b.writes) && PassSearches(attempted, b)
  {
    var maxConcurrent, events :| Reaches(Start(b.keys, round, maxConcurrent), events, b);
    BatchComplete(b.keys, round, maxConcurrent, events, b);
  }

  /** Every row stored is what its key's task comes to. */
  ghost predicate Met(b: Batch, scripts: Key -> Script) {
    forall i :: 0 <= i < |b.writes| ==> b.writes[i].row == SearchFrom(scripts(b.writes[i].key), b.round, 0).0
  }

  /** Neither the number of workers nor their interleaving decides what a pass leaves: two passes over
      the same keys, in any order, in which every task meets the same, leave the same table, in which
      each key of the pass has its own outcome. */
  lemma PassDecided(t: Table, b: Batch, b': Batch, attempted: set<Key>, round: nat, scripts: Key -> Script)
    requires Pass(b, attempted, round) && Pass(b', attempted, round) && Met(b, scripts) && Met(b', scripts)
    ensures Fold(t, b.writes) == Fold(t, b'.writes)
    ensures forall k :: k in attempted ==>
              k in Fold(t, b.writes) && Fold(t, b.writes)[k] == SearchFrom(scripts(k), round, 0).0
  {
    forall k
      ensures k in Fold(t, b.writes) <==> k in Fold(t, b'.writes)
      ensures k in Fold(t, b.writes) ==> Fold(t, b.writes)[k] == Fold(t, b'.writes)[k]
      ensures k in attempted ==> k in Fold(t, b.writes) && Fold(t, b.writes)[k] == SearchFrom(scripts(k), round, 0).0
    {
      PassLeaves(t, b, attempted, round, scripts, k);
      PassLeaves(t, b', attempted, round, scripts, k);
    }
  }

  lemma PassLeaves(t: Table, b: Batch, attempted: set<Key>, round: nat, scripts: Key -> Script, k: Key)
    requires Pass(b, attempted, round) && Met(b, scripts)
    ensures LastWrite(b.writes, k) == if k in attempted then Some(SearchFrom(scripts(k), round, 0).0) else None
    ensures k in Fold(t, b.writes) <==> k in t || k in attempted
    ensures k in attempted ==> Fold(t, b.writes)[k] == SearchFrom(scripts(k), round, 0).0
    ensures k in t && k !in attempted ==> Fold(t, b.writes)[k] == t[k]
  {
    PassComplete(b, attempted, round);
    FoldAt(t, b.writes, k);
    if LastWrite(b.writes, k).Some? {
      var i :| 0 <= i < |b.writes| && b.writes[i] == Write(k, LastWrite(b.writes, k).value);
      assert b.writes[i].key in attempted;
    }
  }

  /** First in, first out: a worker that looks for work gets the first task not yet begun, and returns if
      all have been; one that finishes its task stores one row for that task's key, which is what the
      task came to. */
  lemma QueueOrder(keys: seq<Key>, round: nat, maxConcurrent: int, events: seq<Event>, b: Batch, e: Event)
    requires Reaches(Start(keys, round, maxConcurrent), events, b) && Enabled(b, e)
    ensures var begun, b' := |b.finished| + BusyCount(b.workers), Step(b, e);
            match e
            case Next(w) =>
              && b'.workers == b.workers[w := if begun < |keys| then Busy(begun) else Gone]
              && b'.writes == b.writes && b'.finished == b.finished && b'.searches == b.searches
            case Finish(w, script) =>
              var i := b.workers[w].item;
              && i < |keys| && b'.workers == b.workers[w := Ready] && b'.finished == b.finished + [i]
              && b'.writes == b.writes + [Write(keys[i], SearchFrom(script, round, 0).0)]
  {
    StartOk(keys, round, maxConcurrent);
    InvReaches(Start(keys, round, maxConcurrent), events, b);
  }

  /** `_run_batch`: the workers run until all have returned, whichever of them moves next. */
  method RunBatch(keys: seq<Key>, round: nat, maxConcurrent: int, scripts: Key -> Script) returns (b: Batch)
    ensures Finished(b, round) && b.keys == keys && Met(b, scripts)
    ensures DistinctKeys(keys) ==> Pass(b, KeySet(keys), round)
  {
    b := Start(keys, round, maxConcurrent);
    StartOk(keys, round, maxConcurrent);
    ghost var events: seq<Event> := [];
    while exists w :: 0 <= w < |b.workers| && !b.workers[w].Gone?
      invariant Inv(b) && b.keys == keys && b.round == round && Met(b, scripts)
      invariant Reaches(Start(keys, round, maxConcurrent), events, b)
      decreases Remaining(b)
    {
      var w :| 0 <= w < |b.workers| && !b.workers[w].Gone?;
      var e := if b.workers[w].Ready? then Next(w) else Finish(w, scripts(keys[b.workers[w].item]));
      BatchProgress(b, w, if e.Finish? then e.script else Script(_ => NoFlights, "", ""), e);
      InvStep(b, e);
      OneMore(Start(keys, round, maxConcurrent), events, b, e);
      events := events + [e];
      b := Step(b, e);
    }
  }

  /** The rows of keys that all come to the same. */
  function SameRow(keys: seq<Key>, row: Row): (ws: seq<Write>)
    ensures |ws| == |keys| && forall i :: 0 <= i < |ws| ==> ws[i] == Write(keys[i], row)
  {
    seq(|keys|, i requires 0 <= i < |keys| => Write(keys[i], row))
  }

  /** The rows of keys each of which comes to what its own script says. */
  function Outcomes(keys: seq<Key>, round: nat, scripts: Key -> Script): (ws: seq<Write>)
    ensures |ws| == |keys|
    ensures forall i :: 0 <= i < |ws| ==> ws[i] == Write(keys[i], SearchFrom(scripts(keys[i]), round, 0).0)
  {
    seq(|keys|, i requires 0 <= i < |keys| => Write(keys[i], SearchFrom(scripts(keys[i]), round, 0).0))
  }

  /** One worker after the first `m` tasks, each of which met its script. */
  ghost predicate Part(b: Batch, keys: seq<Key>, round: nat, scripts: Key -> Script, m: nat)
    requires m <= |keys|
  {
    && b.keys == keys && b.round == round && b.taken == m && b.workers == [Ready]
    && b.writes == Outcomes(keys[..m], round, scripts)
    && (forall k :: k in b.searches <==> k in keys[..m])
    && (forall k :: k in b.searches ==> b.searches[k] == SearchFrom(scripts(k), round, 0).1)
  }

  lemma PartStep(b: Batch, keys: seq<Key>, round: nat, scripts: Key -> Script, m: nat)
    requires DistinctKeys(keys) && m < |keys| && Part(b, keys, round, scripts, m)
    ensures Enabled(b, Next(0)) && Enabled(Step(b, Next(0)), Finish(0, scripts(keys[m])))
    ensures Part(Step(Step(b, Next(0)), Finish(0, scripts(keys[m]))), keys, round, scripts, m + 1)
  {
    var b' := Step(Step(b, Next(0)), Finish(0, scripts(keys[m])));
    assert keys[..m + 1] == keys[..m] + [keys[m]];
    assert keys[m] !in keys[..m];
    assert b'.writes == Outcomes(keys[..m + 1], round, scripts);
  }

  lemma {:induction false} OneWorkerPart(keys: seq<Key>, round: nat, scripts: Key -> Script, m: nat)
    returns (events: seq<Event>, b: Batch)
    requires DistinctKeys(keys) && m <= |keys|
    ensures Reaches(Start(keys, round, 1), events, b) && Part(b, keys, round, scripts, m)
  {
    if m == 0 {
      events, b := [], Start(keys, round, 1);
      assert b.workers == [Ready];
    } else {
      events, b := OneWorkerPart(keys, round, scripts, m - 1);
      PartStep(b, keys, round, scripts, m - 1);
      var next, finish := Step(b, Next(0)), Finish(0, scripts(keys[m - 1]));
      OneMore(Start(keys, round, 1), events, b, Next(0));
      OneMore(Start(keys, round, 1), events + [Next(0)], next, finish);
      events, b := events + [Next(0)] + [finish], Step(next, finish);
    }
  }

  /** A pass of one worker, whatever each task meets. */
  lemma OneWorkerPass(keys: seq<Key>, round: nat, scripts: Key -> Script) returns (b: Batch)
    requires DistinctKeys(keys)
    ensures Pass(b, KeySet(keys), round) && b.keys == keys
    ensures b.writes == Outcomes(keys, round, scripts)
    ensures forall k :: k in keys ==> SearchesIn(b, k) == SearchFrom(scripts(k), round, 0).1
  {
    var events, last := OneWorkerPart(keys, round, scripts, |keys|);
    assert keys[..|keys|] == keys;
    b := Step(last, Next(0));
    OneMore(Start(keys, round, 1), events, last, Next(0));
  }

  /** And one in which every task meets the same. */
  lemma OneScriptPass(keys: seq<Key>, round: nat, script: Script) returns (b: Batch)
    requires DistinctKeys(keys)
    ensures Pass(b, KeySet(keys), round) && b.keys == keys
    ensures b.writes == SameRow(keys, SearchFrom(script, round, 0).0)
    ensures forall k :: k in keys ==> SearchesIn(b, k) == SearchFrom(script, round, 0).1
  {
    b := OneWorkerPass(keys, round, _ => script);
  }

  /** First pass: abandoned seeds are purged, this run's keys seeded, and every key written once.
      Once the writes are in the table, no row of it is an unsearched placeholder. */
  lemma FirstPassLeavesNoPlaceholder(before: Table, keys: seq<Key>, ws: seq<Write>, k: Key)
    requires PassWrites(KeySet(keys), 0, ws)
    ensures var t := Fold(Seed(Purge(before), keys), ws);
            && (k in keys ==> k in t)
            && (k in t ==> !Unsearched(t[k]))
  {
    FoldAt(Seed(Purge(before), keys), ws, k);
    if k in keys {
      assert k in KeySet(keys);
    }
    if LastWrite(ws, k).Some? {
      var i :| 0 <= i < |ws| && ws[i] == Write(k, LastWrite(ws, k).value);
      assert RowOk(ws[i].row, 0);
    }
  }
}
