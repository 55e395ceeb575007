/** The class of collector/repository.py, proved against the steps of `BatchWriter`. */
module Repository {
  import opened Prelude
  import opened ResultStore
  import opened BatchWriter
  import opened WriterRefinement
  import opened WriterLiveness

  /** The source's class; `repo` is its history, and `Valid` says that the fields are that history's
      last state, so the lemmas above hold of every object. */
  class SearchRepository {
    var queue: seq<Item>
    var unfinished: nat
    var batch: seq<Write>
    var phase: Phase
    var writerError: bool
    var table: Table
    /** How many upserts were accepted; only marks the flush sentinels. */
    var accepts: nat
    ghost var initial: Table
    ghost var repo: Repo

    ghost predicate Valid()
      reads this
    {
      && repo.queue == queue && repo.unfinished == unfinished && repo.batch == batch
      && repo.phase == phase && repo.failed == writerError && repo.table == table
      && |repo.accepted| == accepts
      && Reachable(repo, initial)
    }

    constructor (table: Table)
      ensures Valid() && repo == Open(table) && initial == table
    {
      queue, unfinished, batch := [], 0, [];
      phase, writerError, accepts := Waiting, false, 0;
      this.table := table;
      initial, repo := table, Open(table);
      new;
      assert Reaches(Open(table), [], repo);
    }

    /** Queue a write, or raise the writer's error. */
    method Upsert(w: Write) returns (raised: bool)
      requires Valid()
      modifies this
      ensures Valid() && initial == old(initial) && repo == Step(old(repo), Event.Upsert(w))
      ensures raised <==> old(writerError)
    {
      ReachableStep(repo, Event.Upsert(w), initial);
      repo := Step(repo, Event.Upsert(w));
      if writerError {
        return true;
      }
      queue, unfinished := queue + [Put(w)], unfinished + 1;
      accepts := accepts + 1;
      return false;
    }

    /** The part of `flush` before it joins the queue. */
    method BeginFlush()
      requires Valid()
      modifies this
      ensures Valid() && initial == old(initial) && repo == Step(old(repo), CallFlush)
    {
      ReachableStep(repo, CallFlush, initial);
      queue, unfinished := queue + [Flush(accepts)], unfinished + 1;
      repo := Step(repo, CallFlush);
    }

    /** The part of `flush` after the join. */
    method EndFlush(ghost call: nat) returns (raised: bool)
      requires Valid() && Enabled(repo, FlushResumes(call))
      modifies this
      ensures Valid() && initial == old(initial) && repo == Step(old(repo), FlushResumes(call))
      ensures raised <==> old(writerError)
      ensures repo.flushes[call].state == if raised then RaisedError else Returned
    {
      ReachableStep(repo, FlushResumes(call), initial);
      repo := Step(repo, FlushResumes(call));
      return writerError;
    }

    /** The part of `close` before it awaits the writer. */
    method BeginClose()
      requires Valid()
      modifies this
      ensures Valid() && initial == old(initial) && repo == Step(old(repo), CallClose)
    {
      ReachableStep(repo, CallClose, initial);
      queue, unfinished := queue + [Stop], unfinished + 1;
      repo := Step(repo, CallClose);
    }

    /** One turn of the writer loop up to its next await. */
    method TakeItem()
      requires Valid() && Enabled(repo, Take)
      modifies this
      ensures Valid() && initial == old(initial) && repo == Step(old(repo), Take)
    {
      ReachableStep(repo, Take, initial);
      repo := Step(repo, Take);
      var item := queue[0];
      queue := queue[1..];
      if item.Put? {
        batch := batch + [item.write];
        if |batch| >= WRITE_BATCH_SIZE {
          phase := Committing(item);
          return;
        }
      } else if batch != [] {
        phase := Committing(item);
        return;
      }
      phase := if item.Stop? then Done else Waiting;
      unfinished := unfinished - 1;
    }

    /** A commit ends: `ok`, or after writing the first `rows` rows. */
    method EndCommit(ok: bool, rows: nat)
      requires Valid() && Enabled(repo, CommitEnds(ok, rows))
      modifies this
      ensures Valid() && initial == old(initial) && repo == Step(old(repo), CommitEnds(ok, rows))
    {
      ReachableStep(repo, CommitEnds(ok, rows), initial);
      repo := Step(repo, CommitEnds(ok, rows));
      if ok {
        table := Fold(table, batch);
        phase := if phase.item.Stop? then Done else Waiting;
      } else {
        table := Fold(table, batch[..rows]);
        writerError := true;
        phase := Waiting;
      }
      batch := [];
      unfinished := unfinished - 1;
    }

    /** The writer's next step; `failure` says after how many rows a commit in progress fails. */
    method WriterTurn(failure: Option<nat>) returns (ghost e: Event)
      requires Valid() && unfinished > 0 && !phase.Done?
      modifies this
      ensures Valid() && initial == old(initial) && repo.accepted == old(repo.accepted)
      ensures WriterStep(e) && Enabled(old(repo), e) && repo == Step(old(repo), e)
      ensures failure.None? && e.CommitEnds? ==> e.ok
      ensures WriterWork(repo) < old(WriterWork(repo))
    {
      ReachableInv(repo, initial);
      if phase.Committing? {
        var rows := if failure.None? then 0 else MinInt(failure.value, |batch|);
        e := CommitEnds(failure.None?, rows);
        EndCommit(failure.None?, rows);
      } else {
        e := Take;
        TakeItem();
      }
    }

    /** The writer loop run while nobody else moves. `failures[i]` says whether its i-th commit fails
        and after how many rows; later commits succeed. The loop comes to rest with nothing
        unfinished and every flush woken unless it meets STOP, and, if nothing failed, with every
        accepted upsert in the table or in the batch. With STOP ahead it ends if the commits made for
        STOP succeed, and with a single STOP only then. */
    method WriterLoop(failures: seq<Option<nat>>) returns (ghost steps: seq<Event>)
      requires Valid()
      modifies this
      ensures Valid() && initial == old(initial) && repo.accepted == old(repo.accepted)
      ensures Reaches(old(repo), steps, repo) && AtRest(repo)
      ensures phase.Done? || unfinished == 0
      ensures !old(Closing(repo)) ==> unfinished == 0
      ensures unfinished == 0 ==> forall i :: 0 <= i < |repo.flushes| ==> repo.flushes[i].state != Joining
      ensures unfinished == 0 && !writerError ==> repo.accepted == Committed(repo) + batch
      ensures old(Closing(repo)) && StopCommitsOk(old(repo), steps) ==> phase.Done?
      ensures old(StopsAhead(repo)) == 1 && old(!phase.Done?) ==>
                (phase.Done? <==> StopCommitsOk(old(repo), steps))
      ensures old(Closing(repo)) && (forall i :: 0 <= i < |failures| ==> failures[i].None?) ==> phase.Done?
    {
      var commits := 0;
      steps := [];
      while unfinished > 0 && !phase.Done?
        invariant Valid() && initial == old(initial) && repo.accepted == old(repo.accepted)
        invariant Reaches(old(repo), steps, repo) && forall e :: e in steps ==> WriterStep(e)
        invariant (forall i :: 0 <= i < |failures| ==> failures[i].None?) ==>
                    forall e :: e in steps && e.CommitEnds? ==> e.ok
        decreases WriterWork(repo)
      {
        var failure := if commits < |failures| then failures[commits] else None;
        commits := if phase.Committing? then commits + 1 else commits;
        ghost var before := repo;
        ghost var e := WriterTurn(failure);
        Extend(old(repo), steps, before, e);
        steps := steps + [e];
      }
      LoopAtRest(initial, old(repo), steps, repo);
    }
  }
}
