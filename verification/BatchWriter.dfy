/** The batched background writer of collector/repository.py.

    `Repo` is the shared state of one open repository: the queue, the writer's batch, the sticky
    error, the table, and the flush calls in progress. Every event is the code between two awaits
    of one coroutine; callers, the writer loop and direct table changes interleave freely.

    aiosqlite opens the database in autocommit mode, so a commit that fails may already have
    written some first rows of its batch. */
module BatchWriter {
  import opened ResultStore

  const WRITE_BATCH_SIZE: nat := 500

  /** A queued write, or a sentinel. `mark` is how many upserts were accepted before the flush. */
  datatype Item = Put(write: Write) | Flush(mark: nat) | Stop

  /** The writer awaits an item, or a commit made for `item`, or has returned. */
  datatype Phase = Waiting | Committing(item: Item) | Done

  datatype FlushState = Joining | Woken | Returned | RaisedError

  datatype FlushCall = FlushCall(mark: nat, state: FlushState)

  datatype Repo = Repo(
    queue: seq<Item>,
    unfinished: nat,
    batch: seq<Write>,
    phase: Phase,
    failed: bool,
    table: Table,
    ops: seq<TableOp>,
    accepted: seq<Write>,
    flushes: seq<FlushCall>)

  datatype Event =
    | Upsert(write: Write)
    | CallFlush
    | CallClose
    | FlushResumes(call: nat)
    | Take
    | CommitEnds(ok: bool, rows: nat)
    | Direct(op: TableOp)

  // ---------------------------------------------------------------- the steps of the source

  /** The queue's unfinished count reaching zero wakes every flush that is joining it. */
  function WakeAll(flushes: seq<FlushCall>): (woken: seq<FlushCall>)
    ensures |woken| == |flushes|
    ensures forall i :: 0 <= i < |flushes| ==>
              woken[i] == if flushes[i].state == Joining then FlushCall(flushes[i].mark, Woken) else flushes[i]
  {
    seq(|flushes|, i requires 0 <= i < |flushes| =>
      if flushes[i].state == Joining then FlushCall(flushes[i].mark, Woken) else flushes[i])
  }

  function TaskDone(s: Repo): Repo
    requires s.unfinished > 0
  {
    s.(unfinished := s.unfinished - 1,
       flushes := if s.unfinished == 1 then WakeAll(s.flushes) else s.flushes)
  }

  /** After a dequeued item has been dealt with: STOP returns, the others loop. */
  function Settle(s: Repo, item: Item): Repo
    requires s.unfinished > 0
  {
    TaskDone(s.(phase := if item.Stop? then Done else Waiting))
  }

  function TakeStep(s: Repo): Repo
    requires s.phase.Waiting? && s.queue != [] && s.unfinished > 0
  {
    var item := s.queue[0];
    var s' := s.(queue := s.queue[1..]);
    match item
    case Put(w) =>
      var s'' := s'.(batch := s.batch + [w]);
      if |s''.batch| >= WRITE_BATCH_SIZE then s''.(phase := Committing(item)) else Settle(s'', item)
    case _ =>
      if s.batch == [] then Settle(s', item) else s'.(phase := Committing(item))
  }

  function StoreOps(ws: seq<Write>): (ops: seq<TableOp>)
    ensures |ops| == |ws|
  {
    seq(|ws|, i requires 0 <= i < |ws| => Store(ws[i]))
  }

  /** A commit ends with the whole batch in the table, or fails with its first `rows` rows there:
      then the error is kept, the batch dropped, and even STOP goes back to the queue. */
  function CommitStep(s: Repo, ok: bool, rows: nat): Repo
    requires s.phase.Committing? && s.unfinished > 0 && rows <= |s.batch|
  {
    var landed := if ok then s.batch else s.batch[..rows];
    var s' := s.(table := Fold(s.table, landed), ops := s.ops + StoreOps(landed), batch := []);
    if ok then Settle(s', s.phase.item)
    else TaskDone(s'.(failed := true, phase := Waiting))
  }

  predicate Enabled(s: Repo, e: Event) {
    match e
    case Upsert(_) => true
    case CallFlush => true
    case CallClose => true
    case FlushResumes(i) => i < |s.flushes| && s.flushes[i].state == Woken
    case Take => s.phase.Waiting? && s.queue != [] && s.unfinished > 0
    case CommitEnds(ok, rows) => s.phase.Committing? && s.unfinished > 0 && rows <= |s.batch|
    case Direct(op) => !op.Store?
  }

  function Step(s: Repo, e: Event): Repo
    requires Enabled(s, e)
  {
    match e
    case Upsert(w) =>
      if s.failed then s
      else s.(queue := s.queue + [Put(w)], unfinished := s.unfinished + 1, accepted := s.accepted + [w])
    case CallFlush =>
      s.(queue := s.queue + [Flush(|s.accepted|)], unfinished := s.unfinished + 1,
         flushes := s.flushes + [FlushCall(|s.accepted|, Joining)])
    case CallClose => s.(queue := s.queue + [Stop], unfinished := s.unfinished + 1)
    case FlushResumes(i) =>
      s.(flushes := s.flushes[i := FlushCall(s.flushes[i].mark, if s.failed then RaisedError else Returned)])
    case Take => TakeStep(s)
    case CommitEnds(ok, rows) => CommitStep(s, ok, rows)
    case Direct(op) => s.(table := Apply(s.table, op), ops := s.ops + [op])
  }

  function Open(table: Table): Repo {
    Repo([], 0, [], Waiting, false, table, [], [], [])
  }

  ghost predicate Reaches(start: Repo, events: seq<Event>, end: Repo)
    decreases |events|
  {
    if events == [] then end == start
    else Enabled(start, events[0]) && Reaches(Step(start, events[0]), events[1..], end)
  }

  // ---------------------------------------------------------------- what every step keeps

  function Rows(queue: seq<Item>): seq<Write> {
    if queue == [] then [] else (if queue[0].Put? then [queue[0].write] else []) + Rows(queue[1..])
  }

  /** What has reached the table, in order. */
  function Committed(s: Repo): seq<Write> {
    Stores(s.ops)
  }

  /** The upserts accepted but not yet in the table: the batch, then the queue. */
  function Pending(s: Repo): seq<Write> {
    s.batch + Rows(s.queue)
  }

  /** Every dequeued item is marked done exactly once: what is unfinished is what is queued, plus
      the item being committed. */
  ghost predicate AccountsOk(s: Repo) {
    && s.unfinished == |s.queue| + (if s.phase.Committing? then 1 else 0)
    && (s.phase.Committing? ==> s.batch != [])
    && (!s.phase.Committing? ==> |s.batch| < WRITE_BATCH_SIZE)
    && (s.phase.Done? ==> s.batch == [])
  }

  /** A flush sentinel in the queue has exactly the upserts it must cover in front of it. */
  ghost predicate MarkOk(s: Repo, i: nat)
    requires i < |s.queue|
  {
    s.queue[i].Flush? ==>
      s.queue[i].mark == |Committed(s)| + |s.batch| + |Rows(s.queue[..i])|
  }

  ghost predicate FlushOk(s: Repo, f: FlushCall) {
    && f.mark <= |s.accepted|
    && (f.state == Joining ==>
          || f.mark <= |Committed(s)|
          || Flush(f.mark) in s.queue
          || s.phase == Committing(Flush(f.mark)))
    && (f.state == Woken ==> f.mark <= |Committed(s)|)
  }

  /** While no commit has failed, nothing accepted is lost or reordered. */
  ghost predicate HealthyOk(s: Repo) {
    && s.accepted == Committed(s) + Pending(s)
    && (forall i :: 0 <= i < |s.queue| ==> MarkOk(s, i))
    && (s.phase.Committing? && s.phase.item.Flush? ==>
          s.phase.item.mark == |Committed(s)| + |s.batch|)
    && (forall i :: 0 <= i < |s.flushes| ==> FlushOk(s, s.flushes[i]))
  }

  /** A flush that returned normally has the upserts accepted before it in the table for good. */
  ghost predicate ReturnedOk(s: Repo) {
    forall i :: 0 <= i < |s.flushes| && s.flushes[i].state == Returned ==>
      s.flushes[i].mark <= |s.accepted| && s.accepted[..s.flushes[i].mark] <= Committed(s)
  }

  /** No flush is still joining a queue with nothing unfinished. */
  ghost predicate JoinsOk(s: Repo) {
    s.unfinished == 0 ==> forall i :: 0 <= i < |s.flushes| ==> s.flushes[i].state != Joining
  }

  ghost predicate Inv(s: Repo, initial: Table) {
    JoinsOk(s) && InvButJoins(s, initial)
  }

  ghost predicate InvButJoins(s: Repo, initial: Table) {
    && AccountsOk(s)
    && s.table == ApplyAll(initial, s.ops)
    && (!s.failed ==> HealthyOk(s))
    && ReturnedOk(s)
  }

  lemma {:induction false} RowsAppend(a: seq<Item>, b: seq<Item>)
    ensures Rows(a + b) == Rows(a) + Rows(b)
  {
    if a == [] {
      assert a + b == b;
    } else {
      assert (a + b)[1..] == a[1..] + b && (a + b)[0] == a[0];
      RowsAppend(a[1..], b);
      var head := if a[0].Put? then [a[0].write] else [];
      assert head + (Rows(a[1..]) + Rows(b)) == (head + Rows(a[1..])) + Rows(b);
    }
  }

  lemma StoresAppend(ops: seq<TableOp>, op: TableOp)
    ensures Stores(ops + [op]) == Stores(ops) + (if op.Store? then [op.write] else [])
    ensures forall t: Table :: ApplyAll(t, ops + [op]) == Apply(ApplyAll(t, ops), op)
  {
    assert (ops + [op])[..|ops|] == ops;
  }

  /** Committing a batch appends its rows to the log and folds them into the table. */
  lemma {:induction false} CommitAppends(initial: Table, ops: seq<TableOp>, ws: seq<Write>)
    ensures Stores(ops + StoreOps(ws)) == Stores(ops) + ws
    ensures ApplyAll(initial, ops + StoreOps(ws)) == Fold(ApplyAll(initial, ops), ws)
  {
    if ws == [] {
      assert ops + StoreOps(ws) == ops;
    } else {
      var n := |ws| - 1;
      CommitAppends(initial, ops, ws[..n]);
      StoresAppend(ops + StoreOps(ws[..n]), Store(ws[n]));
      assert ops + StoreOps(ws) == ops + StoreOps(ws[..n]) + [Store(ws[n])];
    }
  }

  /** Adding to the queue keeps everything about what was there before. */
  lemma EnqueueKeeps(s: Repo, s': Repo, item: Item, initial: Table)
    requires Inv(s, initial)
    requires s' == s.(queue := s.queue + [item], unfinished := s.unfinished + 1,
                      accepted := s'.accepted, flushes := s'.flushes)
    requires s'.accepted == if item.Put? then s.accepted + [item.write] else s.accepted
    requires s'.flushes == if item.Flush? then s.flushes + [FlushCall(item.mark, Joining)] else s.flushes
    requires item.Flush? ==> item.mark == |s.accepted|
    ensures Inv(s', initial)
  {
    RowsAppend(s.queue, [item]);
    if !s.failed {
      forall i | 0 <= i < |s'.queue|
        ensures MarkOk(s', i)
      {
        if i < |s.queue| {
          assert MarkOk(s, i);
          assert s'.queue[..i] == s.queue[..i];
        } else {
          assert s'.queue[..i] == s.queue;
        }
      }
      forall i | 0 <= i < |s'.flushes|
        ensures FlushOk(s', s'.flushes[i])
      {
        if i < |s.flushes| {
          assert FlushOk(s, s.flushes[i]);
        } else {
          assert s'.queue[|s.queue|] == item;
        }
      }
    }
  }

  /** Waking the joined flushes is safe once the queue is empty and no commit is under way. */
  lemma WakeKeeps(s: Repo)
    requires !s.failed && HealthyOk(s) && s.queue == [] && !s.phase.Committing?
    ensures HealthyOk(s.(flushes := WakeAll(s.flushes)))
  {
    var s' := s.(flushes := WakeAll(s.flushes));
    forall i | 0 <= i < |s'.flushes|
      ensures FlushOk(s', s'.flushes[i])
    {
      assert FlushOk(s, s.flushes[i]);
    }
  }

  /** Marking an item done after it has been dealt with. */
  lemma TaskDoneKeeps(s: Repo, initial: Table)
    requires s.unfinished == |s.queue| + 1 && !s.phase.Committing?
    requires InvButJoins(s.(unfinished := |s.queue|), initial) && (s.queue != [] ==> JoinsOk(s))
    ensures Inv(TaskDone(s), initial)
  {
    var done := s.(unfinished := |s.queue|);
    if s.unfinished == 1 && !s.failed {
      WakeKeeps(done);
      assert TaskDone(s) == done.(flushes := WakeAll(done.flushes));
    }
    assert ReturnedOk(TaskDone(s));
  }

  /** What is left of the queue after its head is taken keeps its marks. */
  lemma HeadTaken(s: Repo, s': Repo, initial: Table)
    requires Inv(s, initial) && !s.failed && s.phase.Waiting? && s.queue != []
    requires s' == s.(queue := s.queue[1..], unfinished := s'.unfinished, phase := s'.phase,
                      batch := if s.queue[0].Put? then s.batch + [s.queue[0].write] else s.batch)
    requires s.queue[0].Flush? ==> s'.phase == Committing(s.queue[0]) || s.batch == []
    requires s'.phase.Committing? && s'.phase.item.Flush? ==> s'.phase.item == s.queue[0]
    ensures HealthyOk(s')
  {
    assert s.queue == [s.queue[0]] + s'.queue;
    assert MarkOk(s, 0);
    forall i | 0 <= i < |s'.queue|
      ensures MarkOk(s', i)
    {
      assert MarkOk(s, i + 1);
      assert s.queue[..i + 1] == [s.queue[0]] + s'.queue[..i];
      RowsAppend([s.queue[0]], s'.queue[..i]);
    }
    forall i | 0 <= i < |s'.flushes|
      ensures FlushOk(s', s'.flushes[i])
    {
      assert FlushOk(s, s.flushes[i]);
    }
  }

  lemma TakeKeeps(s: Repo, initial: Table)
    requires Inv(s, initial) && Enabled(s, Take)
    ensures Inv(TakeStep(s), initial)
  {
    var item := s.queue[0];
    var batch := if item.Put? then s.batch + [item.write] else s.batch;
    var taken := s.(queue := s.queue[1..], batch := batch);
    var commits := if item.Put? then |batch| >= WRITE_BATCH_SIZE else batch != [];
    if commits {
      var s' := taken.(phase := Committing(item));
      if !s.failed {
        HeadTaken(s, s', initial);
      }
      assert TakeStep(s) == s';
    } else {
      var s' := taken.(phase := if item.Stop? then Done else Waiting);
      if !s.failed {
        HeadTaken(s, s'.(unfinished := |s'.queue|), initial);
      }
      TaskDoneKeeps(s', initial);
      assert TakeStep(s) == TaskDone(s');
    }
  }

  lemma CommitKeeps(s: Repo, ok: bool, rows: nat, initial: Table)
    requires Inv(s, initial) && Enabled(s, CommitEnds(ok, rows))
    ensures Inv(CommitStep(s, ok, rows), initial)
  {
    var landed := if ok then s.batch else s.batch[..rows];
    CommitAppends(initial, s.ops, landed);
    var s' := s.(table := Fold(s.table, landed), ops := s.ops + StoreOps(landed), batch := [],
                 failed := s.failed || !ok,
                 phase := if ok && s.phase.item.Stop? then Done else Waiting);
    var done := s'.(unfinished := |s'.queue|);
    if !done.failed {
      forall i | 0 <= i < |s.queue|
        ensures MarkOk(done, i)
      {
        assert MarkOk(s, i);
      }
      forall i | 0 <= i < |s.flushes|
        ensures FlushOk(done, s.flushes[i])
      {
        assert FlushOk(s, s.flushes[i]);
      }
      assert HealthyOk(done);
    }
    assert ReturnedOk(done);
    TaskDoneKeeps(s', initial);
    assert CommitStep(s, ok, rows) == TaskDone(s');
  }

  lemma ResumeKeeps(s: Repo, call: nat, initial: Table)
    requires Inv(s, initial) && Enabled(s, FlushResumes(call))
    ensures Inv(Step(s, FlushResumes(call)), initial)
  {
    var s' := Step(s, FlushResumes(call));
    var f := s.flushes[call];
    if !s.failed {
      assert FlushOk(s, f);
      assert s.accepted[..f.mark] == Committed(s)[..f.mark];
      forall i | 0 <= i < |s.queue|
        ensures MarkOk(s', i)
      {
        assert MarkOk(s, i);
      }
      forall i | 0 <= i < |s'.flushes|
        ensures FlushOk(s', s'.flushes[i])
      {
        assert FlushOk(s, s.flushes[i]);
      }
    }
  }

  lemma DirectKeeps(s: Repo, op: TableOp, initial: Table)
    requires Inv(s, initial) && !op.Store?
    ensures Inv(Step(s, Direct(op)), initial)
  {
    var s' := Step(s, Direct(op));
    StoresAppend(s.ops, op);
    assert Committed(s') == Committed(s);
    if !s.failed {
      forall i | 0 <= i < |s.queue|
        ensures MarkOk(s', i)
      {
        assert MarkOk(s, i);
      }
      forall i | 0 <= i < |s.flushes|
        ensures FlushOk(s', s.flushes[i])
      {
        assert FlushOk(s, s.flushes[i]);
      }
    }
  }

  lemma InvStep(s: Repo, e: Event, initial: Table)
    requires Inv(s, initial) && Enabled(s, e)
    ensures Inv(Step(s, e), initial)
  {
    match e
    case Upsert(w) =>
      if !s.failed {
        EnqueueKeeps(s, Step(s, e), Put(w), initial);
      }
    case CallFlush => EnqueueKeeps(s, Step(s, e), Flush(|s.accepted|), initial);
    case CallClose => EnqueueKeeps(s, Step(s, e), Stop, initial);
    case FlushResumes(i) => ResumeKeeps(s, i, initial);
    case Take => TakeKeeps(s, initial);
    case CommitEnds(ok, rows) => CommitKeeps(s, ok, rows, initial);
    case Direct(op) => DirectKeeps(s, op, initial);
  }

  lemma {:induction false} InvReaches(start: Repo, events: seq<Event>, end: Repo, initial: Table)
    requires Inv(start, initial) && Reaches(start, events, end)
    ensures Inv(end, initial)
    decreases |events|
  {
    if events != [] {
      InvStep(start, events[0], initial);
      InvReaches(Step(start, events[0]), events[1..], end, initial);
    }
  }
}
