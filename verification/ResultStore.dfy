/** The result table of collector/repository.py: one row per search key, three ways to change it,
    and the queries the pipeline reads it with. */
module ResultStore {
  import opened Prelude

  datatype FlightType = OneWay | RoundTrip

  /** The primary key. Dates are day numbers; `None` is the empty return date. */
  datatype Key = Key(route: string, depDate: int, returnDate: Option<int>, flightType: FlightType)

  datatype ErrorType = NoProxy | RateLimited | Timeout | Connection | Data | Other

  /** The columns besides the key; a seeded placeholder has no flights, error or search time. */
  datatype Row = Row(
    flights: Option<string>,
    error: Option<ErrorType>,
    retries: int,
    success: bool,
    searchedAt: Option<string>)

  datatype Write = Write(key: Key, row: Row)

  type Table = map<Key, Row>

  const PLACEHOLDER := Row(None, None, 0, false, None)

  /** `_store_result` refuses a failure that names no error. */
  predicate StoreOk(w: Write) {
    w.row.success || w.row.error.Some?
  }

  predicate StoresOk(ws: seq<Write>) {
    forall i :: 0 <= i < |ws| ==> StoreOk(ws[i])
  }

  // ---------------------------------------------------------------- changing the table

  /** INSERT OR REPLACE, one row after the other: the last write to a key wins. */
  function Fold(t: Table, ws: seq<Write>): Table {
    if ws == [] then t
    else
      var w := ws[|ws| - 1];
      Fold(t, ws[..|ws| - 1])[w.key := w.row]
  }

  /** INSERT OR IGNORE of placeholders. */
  function Seed(t: Table, keys: seq<Key>): Table {
    (map k | k in keys :: PLACEHOLDER) + t
  }

  predicate Unsearched(r: Row) {
    !r.success && r.error.None?
  }

  /** DELETE of the rows with success = 0 and a NULL error. */
  function Purge(t: Table): Table {
    map k | k in t && !Unsearched(t[k]) :: t[k]
  }

  datatype TableOp =
    | Store(write: Write)
    | SeedKeys(keys: seq<Key>)
    | PurgeSeeds

  function Apply(t: Table, op: TableOp): Table {
    match op
    case Store(w) => t[w.key := w.row]
    case SeedKeys(keys) => Seed(t, keys)
    case PurgeSeeds => Purge(t)
  }

  function ApplyAll(t: Table, ops: seq<TableOp>): Table {
    if ops == [] then t else Apply(ApplyAll(t, ops[..|ops| - 1]), ops[|ops| - 1])
  }

  lemma {:induction false} FoldAppend(t: Table, a: seq<Write>, b: seq<Write>)
    ensures Fold(t, a + b) == Fold(Fold(t, a), b)
  {
    if b == [] {
      assert a + b == a;
    } else {
      assert (a + b)[..|a + b| - 1] == a + b[..|b| - 1];
      FoldAppend(t, a, b[..|b| - 1]);
    }
  }

  /** The last write to `k`, if there is one. */
  function LastWrite(ws: seq<Write>, k: Key): Option<Row> {
    if ws == [] then None
    else if ws[|ws| - 1].key == k then Some(ws[|ws| - 1].row)
    else LastWrite(ws[..|ws| - 1], k)
  }

  predicate Wrote(ws: seq<Write>, k: Key) {
    exists i :: 0 <= i < |ws| && ws[i].key == k
  }

  /** Last write wins: a key holds its last write, or what it held before. */
  lemma {:induction false} FoldAt(t: Table, ws: seq<Write>, k: Key)
    ensures LastWrite(ws, k).Some? <==> Wrote(ws, k)
    ensures k in Fold(t, ws) <==> k in t || Wrote(ws, k)
    ensures LastWrite(ws, k).Some? ==> Fold(t, ws)[k] == LastWrite(ws, k).value
    ensures LastWrite(ws, k).None? && k in t ==> Fold(t, ws)[k] == t[k]
    ensures LastWrite(ws, k).Some? ==> Write(k, LastWrite(ws, k).value) in ws
  {
    if ws != [] {
      var n := |ws| - 1;
      FoldAt(t, ws[..n], k);
      assert Wrote(ws, k) <==> ws[n].key == k || Wrote(ws[..n], k) by {
        if Wrote(ws[..n], k) {
          var i :| 0 <= i < n && ws[..n][i].key == k;
          assert ws[i].key == k;
        }
        if Wrote(ws, k) && ws[n].key != k {
          var i :| 0 <= i < |ws| && ws[i].key == k;
          assert ws[..n][i].key == k;
        }
      }
      assert ws == ws[..n] + [ws[n]];
    }
  }

  /** Writes to distinct keys land the same whatever order they come in. */
  lemma FoldAnyOrder(t: Table, a: seq<Write>, b: seq<Write>)
    requires forall i, j :: 0 <= i < j < |a| ==> a[i].key != a[j].key
    requires forall i, j :: 0 <= i < j < |b| ==> b[i].key != b[j].key
    requires forall w :: w in a <==> w in b
    ensures Fold(t, a) == Fold(t, b)
  {
    forall k: Key
      ensures k in Fold(t, a) <==> k in Fold(t, b)
      ensures k in Fold(t, a) ==> Fold(t, a)[k] == Fold(t, b)[k]
    {
      FoldAt(t, a, k);
      FoldAt(t, b, k);
      if LastWrite(a, k).Some? {
        assert Write(k, LastWrite(a, k).value) in b;
      }
      if LastWrite(b, k).Some? {
        assert Write(k, LastWrite(b, k).value) in a;
      }
    }
  }

  // ---------------------------------------------------------------- the life of a row

  /** The writes among the operations, in order. */
  function Stores(ops: seq<TableOp>): seq<Write> {
    if ops == [] then []
    else
      var op := ops[|ops| - 1];
      Stores(ops[..|ops| - 1]) + (if op.Store? then [op.write] else [])
  }

  /** `k` has been seeded since the latest purge. */
  predicate SeededSincePurge(ops: seq<TableOp>, k: Key) {
    ops != [] &&
    var op := ops[|ops| - 1];
    (op.SeedKeys? && k in op.keys) || (!op.PurgeSeeds? && SeededSincePurge(ops[..|ops| - 1], k))
  }

  /** Row life cycle: over any sequence of stored outcomes, seeds and purges, a key that was ever
      stored holds its last outcome and never counts as unsearched; any other key has a row only
      if it was seeded since the latest purge, and that row is the placeholder. */
  lemma {:induction false} RowLifeCycle(ops: seq<TableOp>, k: Key)
    requires StoresOk(Stores(ops))
    ensures var t := ApplyAll(map[], ops);
            var last := LastWrite(Stores(ops), k);
            && (last.Some? ==> k in t && t[k] == last.value && !Unsearched(t[k]))
            && (last.None? ==> (k in t <==> SeededSincePurge(ops, k)))
            && (last.None? && k in t ==> t[k] == Row(None, None, 0, false, None) && Unsearched(t[k]))
  {
    if ops != [] {
      var n := |ops| - 1;
      var op := ops[n];
      var before := Stores(ops[..n]);
      assert forall i :: 0 <= i < |before| ==> before[i] == Stores(ops)[i];
      RowLifeCycle(ops[..n], k);
      if op.Store? {
        assert Stores(ops) == before + [op.write];
        assert StoreOk(Stores(ops)[|before|]);
      } else {
        assert Stores(ops) == before;
      }
    }
  }

  lemma PurgeExact(ops: seq<TableOp>, k: Key)
    requires StoresOk(Stores(ops))
    ensures var purged := ApplyAll(map[], ops + [PurgeSeeds]);
            && (k in purged <==> Wrote(Stores(ops), k))
            && (k in purged ==> LastWrite(Stores(ops), k) == Some(purged[k]))
  {
    OneMoreOp(ops, PurgeSeeds);
    RowLifeCycle(ops, k);
    FoldAt(map[], Stores(ops), k);
  }

  lemma SeedExact(ops: seq<TableOp>, keys: seq<Key>, k: Key)
    requires StoresOk(Stores(ops))
    ensures var last := LastWrite(Stores(ops), k);
            var seeded := ApplyAll(map[], ops + [SeedKeys(keys)]);
            && (k in seeded <==> last.Some? || SeededSincePurge(ops, k) || k in keys)
            && (k in seeded ==> seeded[k] == if last.Some? then last.value else PLACEHOLDER)
  {
    OneMoreOp(ops, SeedKeys(keys));
    RowLifeCycle(ops, k);
  }

  lemma PurgeUndoesSeed(ops: seq<TableOp>, keys: seq<Key>)
    ensures ApplyAll(map[], ops + [SeedKeys(keys), PurgeSeeds]) == ApplyAll(map[], ops + [PurgeSeeds])
  {
    OneMoreOp(ops, PurgeSeeds);
    OneMoreOp(ops, SeedKeys(keys));
    OneMoreOp(ops + [SeedKeys(keys)], PurgeSeeds);
    assert ops + [SeedKeys(keys)] + [PurgeSeeds] == ops + [SeedKeys(keys), PurgeSeeds];
    assert Purge(Seed(ApplyAll(map[], ops), keys)) == Purge(ApplyAll(map[], ops));
  }

  /** Purging and seeding over any history: a purge leaves exactly the keys ever stored, each with its
      last outcome; seeding gives a row to those and to its own keys and hides no outcome; and a purge
      right after undoes a seeding. */
  lemma PurgeAndSeedExact(ops: seq<TableOp>, keys: seq<Key>, k: Key)
    requires StoresOk(Stores(ops))
    ensures var last := LastWrite(Stores(ops), k);
            var purged := ApplyAll(map[], ops + [PurgeSeeds]);
            var seeded := ApplyAll(map[], ops + [SeedKeys(keys)]);
            && (k in purged <==> Wrote(Stores(ops), k))
            && (k in purged ==> last == Some(purged[k]))
            && (k in seeded <==> last.Some? || SeededSincePurge(ops, k) || k in keys)
            && (k in seeded ==> seeded[k] == if last.Some? then last.value else Row(None, None, 0, false, None))
            && ApplyAll(map[], ops + [SeedKeys(keys), PurgeSeeds]) == purged
  {
    PurgeExact(ops, k);
    SeedExact(ops, keys, k);
    PurgeUndoesSeed(ops, keys);
  }

  lemma OneMoreOp(ops: seq<TableOp>, op: TableOp)
    ensures ApplyAll(map[], ops + [op]) == Apply(ApplyAll(map[], ops), op)
  {
    assert (ops + [op])[..|ops|] == ops;
  }

  // ---------------------------------------------------------------- counting

  function Successes(t: Table): set<Key> {
    set k | k in t && t[k].success
  }

  function Failures(t: Table): set<Key> {
    set k | k in t && !t[k].success
  }

  function FailuresWith(t: Table, error: Option<ErrorType>): set<Key> {
    set k | k in t && !t[k].success && t[k].error == error
  }

  const ERRORS: seq<Option<ErrorType>> :=
    [None, Some(NoProxy), Some(RateLimited), Some(Timeout), Some(Connection), Some(Data), Some(Other)]

  /** The failures whose error is one of `errors`, counted group by group. */
  function CountGroups(t: Table, errors: seq<Option<ErrorType>>): nat {
    if errors == [] then 0
    else CountGroups(t, errors[..|errors| - 1]) + |FailuresWith(t, errors[|errors| - 1])|
  }

  lemma {:induction false} GroupsAddUp(t: Table, errors: seq<Option<ErrorType>>)
    requires forall i, j :: 0 <= i < j < |errors| ==> errors[i] != errors[j]
    ensures CountGroups(t, errors) == |set k | k in t && !t[k].success && t[k].error in errors|
  {
    if errors != [] {
      var n := |errors| - 1;
      GroupsAddUp(t, errors[..n]);
      assert errors == errors[..n] + [errors[n]];
      assert (set k | k in t && !t[k].success && t[k].error in errors)
          == (set k | k in t && !t[k].success && t[k].error in errors[..n]) + FailuresWith(t, errors[n]);
    }
  }

  lemma ErrorListed(e: Option<ErrorType>)
    ensures e in ERRORS
  {
    var named := [Some(NoProxy), Some(RateLimited), Some(Timeout), Some(Connection), Some(Data), Some(Other)];
    assert ERRORS == [None] + named;
    assert e == None || e in named by {
      if e.Some? {
        match e.value
        case NoProxy => case RateLimited => case Timeout => case Connection => case Data => case Other =>
      }
    }
  }

  /** Success and failure counts add up to the number of keys, and the per-error counts add up to
      the failure count. */
  lemma CountsAddUp(t: Table)
    ensures forall k :: k in Successes(t) <==> k in t && t[k].success
    ensures forall k :: k in Failures(t) <==> k in t && !t[k].success
    ensures forall k, e :: k in FailuresWith(t, e) <==> k in t && !t[k].success && t[k].error == e
    ensures |Successes(t)| + |Failures(t)| == |t|
    ensures CountGroups(t, ERRORS) == |Failures(t)|
  {
    assert t.Keys == Successes(t) + Failures(t);
    GroupsAddUp(t, ERRORS);
    forall e: Option<ErrorType>
      ensures e in ERRORS
    {
      ErrorListed(e);
    }
    assert Failures(t) == set k | k in t && !t[k].success && t[k].error in ERRORS;
  }

  // ---------------------------------------------------------------- get_failed

  const RETRY_ERROR_TYPES: set<ErrorType> := {RateLimited, Timeout, Connection, NoProxy, Data}

  predicate Retryable(r: Row) {
    !r.success && r.error.Some? && r.error.value in RETRY_ERROR_TYPES
  }

  /** What `get_failed` selects; `None` for `maxRetries` lifts the budget. */
  predicate Selected(t: Table, k: Key, maxRetries: Option<int>, since: int) {
    && k in t && Retryable(t[k]) && k.depDate >= since
    && (maxRetries.Some? ==> t[k].retries <= maxRetries.value)
  }

  function GetFailed(t: Table, maxRetries: Option<int>, since: int): set<Key> {
    set k | k in t && Selected(t, k, maxRetries, since)
  }

  /** What is worth a retry, field by field: a failure that names a proxy, rate-limit, timeout, connection
      or data error, whose departure is not before `since` and whose retries are within the budget. */
  lemma GetFailedExact(t: Table, maxRetries: Option<int>, since: int, k: Key)
    ensures k in GetFailed(t, maxRetries, since) <==>
              && k in t && !t[k].success && t[k].error.Some?
              && (match t[k].error.value
                  case RateLimited => true
                  case Timeout => true
                  case Connection => true
                  case NoProxy => true
                  case Data => true
                  case Other => false)
              && k.depDate >= since
              && (maxRetries == None || t[k].retries <= maxRetries.value)
  {}
}
