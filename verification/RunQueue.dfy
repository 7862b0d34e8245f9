// The run table and its statements (internal/store/sqlite/queue.go, repo.go).
//
// A run's id is its position in the table: rows are only ever appended, so ids grow.
// Each statement is one function from the table to the table; class Store is the
// imperative form, proved against those functions.  The partial unique index
// ux_run_active is part of the insert: it refuses a second active run of a task.

module RunQueue {

  datatype Status = Queued | Running | Success | Failed | Skipped

  datatype Run = Run(taskId: int, status: Status, worker: string, attempt: int)
  {
    predicate Active() { status == Queued || status == Running }
  }

  type Table = seq<Run>

  predicate HasActive(t: Table, taskId: int) {
    exists i :: 0 <= i < |t| && t[i].taskId == taskId && t[i].Active()
  }

  /** The insert of Enqueue, Requeue and StartManualRun, subject to ux_run_active. */
  function Insert(t: Table, r: Run): Table {
    if HasActive(t, r.taskId) then t else t + [r]
  }

  predicate NextQueued(t: Table, i: int) {
    0 <= i < |t| && t[i].status == Queued && forall j | 0 <= j < i :: t[j].status != Queued
  }

  function Claim(t: Table, i: nat, worker: string): Table
    requires i < |t|
  {
    t[i := t[i].(status := Running, worker := worker)]
  }

  function Finish(t: Table, i: nat, status: Status): Table
    requires i < |t|
  {
    t[i := t[i].(status := status)]
  }

  function Reap(t: Table): Table {
    seq(|t|, i requires 0 <= i < |t| => if t[i].status == Running then t[i].(status := Failed) else t[i])
  }

  /** The index: no task has two active runs. */
  ghost predicate OneActive(t: Table) {
    forall i, j | 0 <= i < j < |t| && t[i].taskId == t[j].taskId :: !(t[i].Active() && t[j].Active())
  }

  datatype Inserted = Row(id: nat) | ActiveRun

  class Store {
    var runs: Table

    ghost predicate Valid() reads this { OneActive(runs) }

    constructor ()
      ensures Valid() && runs == []
    {
      runs := [];
    }

    /** Whether the index holds an entry for the task. */
    method FindActive(taskId: int) returns (found: bool)
      ensures found <==> HasActive(runs, taskId)
      ensures found <==> exists i :: 0 <= i < |runs| && runs[i].taskId == taskId
                                     && (runs[i].status == Queued || runs[i].status == Running)
    {
      found := false;
      var i := 0;
      while i < |runs| && !found
        invariant 0 <= i <= |runs|
        invariant found <==> exists j :: 0 <= j < i && runs[j].taskId == taskId && runs[j].Active()
      {
        found := runs[i].taskId == taskId && runs[i].Active();
        i := i + 1;
      }
    }

    method InsertRun(r: Run) returns (res: Inserted)
      requires Valid()
      modifies this
      ensures Valid() && runs == Insert(old(runs), r)
      ensures res == if HasActive(old(runs), r.taskId) then ActiveRun else Row(|old(runs)|)
      ensures if exists i :: 0 <= i < |old(runs)| && old(runs)[i].taskId == r.taskId
                             && (old(runs)[i].status == Queued || old(runs)[i].status == Running)
              then runs == old(runs) && res == ActiveRun
              else runs == old(runs) + [r] && res == Row(|old(runs)|)
    {
      var taken := FindActive(r.taskId);
      if taken { return ActiveRun; }
      res := Row(|runs|);
      runs := runs + [r];
    }

    method Enqueue(taskId: int) returns (res: Inserted)
      requires Valid()
      modifies this
      ensures Valid() && runs == Insert(old(runs), Run(taskId, Queued, "", 1))
      ensures res == if HasActive(old(runs), taskId) then ActiveRun else Row(|old(runs)|)
    {
      res := InsertRun(Run(taskId, Queued, "", 1));
    }

    method StartManualRun(taskId: int) returns (res: Inserted)
      requires Valid()
      modifies this
      ensures Valid() && runs == Insert(old(runs), Run(taskId, Running, "", 1))
      ensures res == if HasActive(old(runs), taskId) then ActiveRun else Row(|old(runs)|)
    {
      res := InsertRun(Run(taskId, Running, "", 1));
    }

    /** The oldest queued run flips to running; an empty queue changes nothing. */
    method ClaimNext(worker: string) returns (found: bool, id: nat)
      requires Valid()
      modifies this
      ensures Valid()
      ensures !found ==> runs == old(runs) && forall j | 0 <= j < |runs| :: runs[j].status != Queued
      ensures found ==> NextQueued(old(runs), id) && runs == Claim(old(runs), id, worker)
      ensures found ==>
                id < |old(runs)| && old(runs)[id].status == Queued
                && (forall j | 0 <= j < id :: old(runs)[j].status != Queued)
                && runs == old(runs)[id := old(runs)[id].(status := Running, worker := worker)]
    {
      id := 0;
      while id < |runs| && runs[id].status != Queued
        invariant 0 <= id <= |runs|
        invariant forall j | 0 <= j < id :: runs[j].status != Queued
      {
        id := id + 1;
      }
      found := id < |runs|;
      if found {
        runs := runs[id := runs[id].(status := Running, worker := worker)];
      }
    }

    /** Finish writes a terminal status. */
    method FinishRun(id: nat, status: Status)
      requires Valid() && id < |runs| && status in {Success, Failed, Skipped}
      modifies this
      ensures Valid() && runs == Finish(old(runs), id, status)
      ensures runs == old(runs)[id := old(runs)[id].(status := status)]
    {
      runs := runs[id := runs[id].(status := status)];
    }

    /** Requeue: nothing beyond the budget, otherwise one more insert under the index. */
    method Requeue(taskId: int, nextAttempt: int, maxAttempts: int) returns (exhausted: bool, res: Inserted)
      requires Valid()
      modifies this
      ensures Valid()
      ensures exhausted <==> nextAttempt > maxAttempts
      ensures runs == if exhausted then old(runs) else Insert(old(runs), Run(taskId, Queued, "", nextAttempt))
      ensures !exhausted ==> res == if HasActive(old(runs), taskId) then ActiveRun else Row(|old(runs)|)
    {
      exhausted, res := nextAttempt > maxAttempts, ActiveRun;
      if !exhausted {
        res := InsertRun(Run(taskId, Queued, "", nextAttempt));
      }
    }

    /** ReapStale: exactly the running runs fail, and exactly they are reported, in order. */
    method ReapStale() returns (ids: seq<nat>)
      requires Valid()
      modifies this
      ensures Valid() && runs == Reap(old(runs))
      ensures |runs| == |old(runs)|
      ensures forall k | 0 <= k < |runs| ::
                runs[k] == if old(runs)[k].status == Running then old(runs)[k].(status := Failed) else old(runs)[k]
      ensures forall i, j | 0 <= i < j < |ids| :: ids[i] < ids[j]
      ensures forall k: nat :: k in ids <==> k < |runs| && old(runs)[k].status == Running
    {
      ghost var before, reaped := runs, Reap(runs);
      ids := [];
      var k := 0;
      while k < |runs|
        invariant 0 <= k <= |runs| == |before|
        invariant forall i | 0 <= i < k :: runs[i] == reaped[i]
        invariant forall i | k <= i < |runs| :: runs[i] == before[i]
        invariant forall i, j | 0 <= i < j < |ids| :: ids[i] < ids[j]
        invariant forall i: nat :: i in ids <==> i < k && before[i].status == Running
      {
        assert forall i | 0 <= i < |ids| :: ids[i] in ids;
        assert reaped[k] == if before[k].status == Running then before[k].(status := Failed) else before[k];
        if runs[k].status == Running {
          runs := runs[k := runs[k].(status := Failed)];
          ids := ids + [k];
        }
        k := k + 1;
      }
      assert runs == reaped;
    }
  }
}
