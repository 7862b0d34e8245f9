// Applying a retention policy to storages that may fail
// (internal/core/retention.go, internal/core/sweep.go).
//
// The catalog is a table of artifact rows and the storages together are a set of
// object locations.  Every call that can fail is given its outcome by a parameter,
// so each statement below holds for every pattern of failures.

module Sweeping {
  import opened Retention

  /** A catalog row, with the task whose run produced the artifact. */
  datatype Row = Row(taskId: int, artifact: Artifact)

  /** The same key in two storages is two different objects. */
  datatype Location = Location(storageId: int, key: string)

  function At(a: Artifact): Location { Location(a.storageId, a.key) }

  /** A delete that reports an error may or may not have removed the object. */
  datatype ObjectOutcome = Removed | ErrorKept | ErrorGone

  /** What happens when the prune loop reaches one artifact. */
  datatype Attempt = Attempt(cancelled: bool, opens: bool, del: ObjectOutcome, rowGoes: bool)
  {
    predicate Clean() { !cancelled && opens && del == Removed && rowGoes }
  }

  datatype Task = Task(id: int, policy: Policy)

  ghost predicate Differ(r: Row, q: Row) {
    r.artifact.id != q.artifact.id && At(r.artifact) != At(q.artifact)
  }

  ghost predicate DistinctRows(rows: seq<Row>) {
    forall i, j | 0 <= i < j < |rows| ::
      Differ(rows[i], rows[j])
  }

  ghost function Listed(rows: seq<Row>, taskId: int): set<Artifact> {
    set r | r in rows && r.taskId == taskId :: r.artifact
  }

  ghost function Locations(rows: seq<Row>): set<Location> { set r | r in rows :: At(r.artifact) }

  function Bytes(rows: seq<Row>): int {
    if rows == [] then 0 else Bytes(rows[..|rows| - 1]) + rows[|rows| - 1].artifact.size
  }

  function SizeOf(s: seq<Artifact>): int {
    if s == [] then 0 else SizeOf(s[..|s| - 1]) + s[|s| - 1].size
  }

  /** ListArtifactsByTask. */
  function ListByTask(rows: seq<Row>, taskId: int): (r: seq<Artifact>)
    ensures forall a :: a in r <==> Row(taskId, a) in rows
  {
    if rows == [] then []
    else
      var row := rows[|rows| - 1];
      assert rows == rows[..|rows| - 1] + [row];
      ListByTask(rows[..|rows| - 1], taskId) + if row.taskId == taskId then [row.artifact] else []
  }

  /** DELETE FROM artifact WHERE id = ?. */
  function DeleteRow(rows: seq<Row>, id: int): (r: seq<Row>)
    ensures forall row :: row in r <==> row in rows && row.artifact.id != id
  {
    if rows == [] then []
    else
      var row := rows[|rows| - 1];
      assert rows == rows[..|rows| - 1] + [row];
      DeleteRow(rows[..|rows| - 1], id) + if row.artifact.id != id then [row] else []
  }

  lemma {:induction false} ListDistinct(rows: seq<Row>, taskId: int)
    requires DistinctRows(rows)
    ensures DistinctIds(ListByTask(rows, taskId))
    ensures Elements(ListByTask(rows, taskId)) == Listed(rows, taskId)
  {
    if rows != [] {
      var init, row := rows[..|rows| - 1], rows[|rows| - 1];
      ListDistinct(init, taskId);
      forall i | 0 <= i < |ListByTask(init, taskId)| ensures ListByTask(init, taskId)[i].id != row.artifact.id {
        assert Row(taskId, ListByTask(init, taskId)[i]) in init;
      }
    }
    forall a ensures a in ListByTask(rows, taskId) <==> a in Listed(rows, taskId) {
      if a in Listed(rows, taskId) { assert Row(taskId, a) in rows; }
    }
  }

  lemma {:induction false} DeleteAbsent(rows: seq<Row>, id: int)
    requires forall r | r in rows :: r.artifact.id != id
    ensures DeleteRow(rows, id) == rows
  {
    if rows != [] {
      assert rows == rows[..|rows| - 1] + [rows[|rows| - 1]];
      DeleteAbsent(rows[..|rows| - 1], id);
    }
  }

  lemma {:induction false} DeleteDistinct(rows: seq<Row>, id: int)
    requires DistinctRows(rows)
    ensures DistinctRows(DeleteRow(rows, id))
  {
    if rows != [] {
      var init, last := rows[..|rows| - 1], rows[|rows| - 1];
      var d := DeleteRow(init, id);
      DeleteDistinct(init, id);
      forall i | 0 <= i < |d| ensures Differ(d[i], last) {
        var k :| 0 <= k < |init| && init[k] == d[i];
        assert rows[k] == init[k];
      }
    }
  }

  /** Deleting the row of one artifact takes one row and that artifact's bytes. */
  lemma {:induction false} DeletePresent(rows: seq<Row>, row: Row)
    requires DistinctRows(rows) && row in rows
    ensures |DeleteRow(rows, row.artifact.id)| == |rows| - 1
    ensures Bytes(DeleteRow(rows, row.artifact.id)) == Bytes(rows) - row.artifact.size
  {
    var init, last := rows[..|rows| - 1], rows[|rows| - 1];
    var d := DeleteRow(init, row.artifact.id);
    assert rows == init + [last];
    if last == row {
      DeleteAbsent(init, row.artifact.id);
      assert d + [] == init;
    } else {
      DeletePresent(init, row);
      assert (d + [last])[..|d|] == d;
    }
  }

  /** An artifact of the doomed list goes when nothing before it cancelled the pass, its storage
      was opened by then, and both its object and its row were deleted. */
  ghost predicate Goes(doomed: seq<Artifact>, faults: nat -> Attempt, i: nat)
    requires i < |doomed|
  {
    Reached(faults, i) && Opened(doomed, faults, i)
    && faults(i).del == Removed && faults(i).rowGoes
  }

  ghost predicate Reached(faults: nat -> Attempt, i: nat) {
    forall j: nat | j <= i :: !faults(j).cancelled
  }

  ghost predicate Opened(doomed: seq<Artifact>, faults: nat -> Attempt, i: nat)
    requires i < |doomed|
  {
    exists j: nat :: j <= i && doomed[j].storageId == doomed[i].storageId && faults(j).opens
  }

  ghost function Gone(doomed: seq<Artifact>, faults: nat -> Attempt, n: nat): set<Artifact>
    requires n <= |doomed|
  {
    set i: nat | i < n && Goes(doomed, faults, i) :: doomed[i]
  }

  /** An artifact's row goes exactly if nothing was cancelled up to it, its storage was opened by then, and both
      deletions worked. */
  lemma DeletedPlainly(doomed: seq<Artifact>, faults: nat -> Attempt, deleted: seq<Artifact>)
    requires NewestFirst(doomed) && Elements(deleted) == Gone(doomed, faults, |doomed|)
    ensures forall i: nat | i < |doomed| ::
              (doomed[i] in deleted <==>
                 (forall j: nat | j <= i :: !faults(j).cancelled)
                 && (exists j: nat :: j <= i && doomed[j].storageId == doomed[i].storageId && faults(j).opens)
                 && faults(i).del == Removed && faults(i).rowGoes)
  {
    forall i: nat | i < |doomed| ensures doomed[i] in deleted <==> Goes(doomed, faults, i) {
      assert doomed[i] in Elements(deleted) <==> doomed[i] in deleted;
    }
  }

  /** The objects a pass over the first n doomed artifacts deletes, reported or not. */
  ghost function Lost(doomed: seq<Artifact>, faults: nat -> Attempt, n: nat): set<Location>
    requires n <= |doomed|
  {
    set i: nat | i < n && Reached(faults, i) && Opened(doomed, faults, i) && faults(i).del != ErrorKept :: At(doomed[i])
  }

  lemma AllGone(doomed: seq<Artifact>, faults: nat -> Attempt)
    requires NewestFirst(doomed)
    ensures Gone(doomed, faults, |doomed|) == Elements(doomed) <==>
            forall i: nat | i < |doomed| :: Goes(doomed, faults, i)
  {
    if Gone(doomed, faults, |doomed|) == Elements(doomed) {
      forall i: nat | i < |doomed| ensures Goes(doomed, faults, i) {
        assert doomed[i] in Gone(doomed, faults, |doomed|);
      }
    }
  }

  /** Nothing sits in storage without a row that was not already an orphan. */
  ghost predicate NoNewOrphans(objects: set<Location>, rows: seq<Row>,
                               objects': set<Location>, rows': seq<Row>) {
    objects' - Locations(rows') <= objects - Locations(rows)
  }

  /** The task's policy, if enabled, has nothing left to let go. */
  ghost predicate Settled(rows: seq<Row>, task: Task, cal: Calendar) {
    task.policy.Enabled() ==> Listed(rows, task.id) <= Kept(Listed(rows, task.id), task.policy, cal)
  }

  ghost predicate Quiescent(rows: seq<Row>, tasks: seq<Task>, cal: Calendar) {
    forall k | 0 <= k < |tasks| :: Settled(rows, tasks[k], cal)
  }

  /** r belongs to a task with an enabled policy whose keep rules all pass it by. */
  ghost predicate LetGo(rows: seq<Row>, tasks: seq<Task>, cal: Calendar, r: Row) {
    exists t :: t in tasks && t.id == r.taskId && t.policy.Enabled() &&
      r.artifact !in Kept(Listed(rows, t.id), t.policy, cal)
  }

  /** What one task's turn meets: whether the prune's and the orphan search's listings of the catalog
      work, each deletion's fate, where new artifacts land, which storage listings work, and whether the
      context is done by its end. */
  datatype TaskFaults = TaskFaults(listFails: bool, attempts: nat -> Attempt, home: Scope, relistFails: bool,
                                   reach: Scope -> bool, contextDone: bool)

  ghost predicate CleanTask(f: TaskFaults) {
    !f.listFails && !f.relistFails && !f.contextDone && (forall i: nat :: f.attempts(i).Clean())
    && forall sc :: f.reach(sc)
  }

  ghost predicate CleanPass(faults: nat -> TaskFaults) {
    forall k: nat :: CleanTask(faults(k))
  }

  // ---- the state a prune or a sweep leaves behind ----------------------------

  /** rows is rows0 without the deleted artifacts of the task, bytes and counts adding up. */
  ghost predicate Without(rows0: seq<Row>, rows: seq<Row>, taskId: int, deleted: seq<Artifact>) {
    DistinctRows(rows) && RowsLeft(rows0, rows, taskId, deleted)
    && |rows| + |deleted| == |rows0|
    && Bytes(rows) + SizeOf(deleted) == Bytes(rows0)
  }

  ghost predicate RowsLeft(rows0: seq<Row>, rows: seq<Row>, taskId: int, deleted: seq<Artifact>) {
    forall r :: r in rows <==> r in rows0 && !(r.taskId == taskId && r.artifact in deleted)
  }

  lemma WithoutDistinct(rows0: seq<Row>, rows: seq<Row>, taskId: int, deleted: seq<Artifact>)
    requires Without(rows0, rows, taskId, deleted)
    ensures DistinctRows(rows)
    ensures forall a | Row(taskId, a) in rows0 && a !in deleted :: Row(taskId, a) in rows
    ensures |rows| + |deleted| == |rows0| && Bytes(rows) + SizeOf(deleted) == Bytes(rows0)
  {
  }

  /** Which rows are left, one row on. */
  lemma RowsOneMore(rows0: seq<Row>, rows: seq<Row>, rows': seq<Row>, taskId: int, deleted: seq<Artifact>, a: Artifact)
    requires RowsLeft(rows0, rows, taskId, deleted)
    requires forall r :: r in rows' <==> r in rows && r != Row(taskId, a)
    ensures RowsLeft(rows0, rows', taskId, deleted + [a])
  {
    forall r: Row ensures r.artifact in deleted + [a] <==> r.artifact in deleted || r.artifact == a { }
  }

  lemma DeletesOnly(rows: seq<Row>, row: Row)
    requires DistinctRows(rows) && row in rows
    ensures forall r :: r in DeleteRow(rows, row.artifact.id) <==> r in rows && r != row
  {
    forall r | r in rows && r.artifact.id == row.artifact.id ensures r == row { }
  }

  lemma WithoutOneMore(rows0: seq<Row>, rows: seq<Row>, taskId: int, deleted: seq<Artifact>, a: Artifact)
    requires Without(rows0, rows, taskId, deleted) && Row(taskId, a) in rows
    ensures Without(rows0, DeleteRow(rows, a.id), taskId, deleted + [a])
  {
    var row, rows' := Row(taskId, a), DeleteRow(rows, a.id);
    DeletePresent(rows, row);
    DeleteDistinct(rows, a.id);
    DeletesOnly(rows, row);
    RowsOneMore(rows0, rows, rows', taskId, deleted, a);
    hide RowsLeft;
    hide DistinctRows;
    hide DeleteRow;
    hide SizeOf;
    hide Bytes;
  }

  /** Objects went missing only for doomed artifacts, and for every deleted one. */
  ghost predicate ObjectsWithout(objects0: set<Location>, objects: set<Location>,
                                 doomed: seq<Artifact>, deleted: seq<Artifact>) {
    objects <= objects0
    && (forall a | a in deleted :: At(a) !in objects)
    && (forall l | l in objects0 && l !in objects :: exists a :: a in doomed && At(a) == l)
  }

  lemma LostMeans(objects: set<Location>, doomed: seq<Artifact>, faults: nat -> Attempt, deleted: seq<Artifact>)
    requires Elements(deleted) == Gone(doomed, faults, |doomed|)
    ensures ObjectsWithout(objects, objects - Lost(doomed, faults, |doomed|), doomed, deleted)
  {
    forall a | a in deleted ensures At(a) in Lost(doomed, faults, |doomed|) {
      assert a in Elements(deleted);
      var i: nat :| i < |doomed| && Goes(doomed, faults, i) && doomed[i] == a;
    }
    forall l | l in Lost(doomed, faults, |doomed|) ensures exists a :: a in doomed && At(a) == l {
      var i: nat :| i < |doomed| && Reached(faults, i) && Opened(doomed, faults, i) && At(doomed[i]) == l;
      assert doomed[i] in doomed;
    }
  }

  ghost predicate SeenFits(doomed: seq<Artifact>, faults: nat -> Attempt, i: nat, seen: set<int>)
    requires i <= |doomed|
  {
    forall s :: s in seen <==> exists j: nat :: j < i && doomed[j].storageId == s && faults(j).opens
  }

  lemma SeenStep(doomed: seq<Artifact>, faults: nat -> Attempt, i: nat, seen: set<int>, seen': set<int>)
    requires i < |doomed| && SeenFits(doomed, faults, i, seen)
    requires seen' == seen + if faults(i).opens then {doomed[i].storageId} else {}
    ensures SeenFits(doomed, faults, i + 1, seen')
    ensures Opened(doomed, faults, i) <==> doomed[i].storageId in seen'
  {
    forall s ensures s in seen' <==> exists j: nat :: j < i + 1 && doomed[j].storageId == s && faults(j).opens {
      if s in seen {
        var j: nat :| j < i && doomed[j].storageId == s && faults(j).opens;
      }
    }
  }

  /** What the prune loop knows after i artifacts. */
  ghost predicate Progress(doomed: seq<Artifact>, faults: nat -> Attempt, i: nat,
                           seen: set<int>, deleted: seq<Artifact>, failed: bool)
    requires i <= |doomed|
  {
    (forall j: nat | j < i :: !faults(j).cancelled)
    && SeenFits(doomed, faults, i, seen)
    && (forall a | a in deleted :: a in doomed[..i])
    && Elements(deleted) == Gone(doomed, faults, i)
    && NewestFirst(deleted)
    && (failed <==> exists j: nat :: j < i && !Goes(doomed, faults, j))
  }

  lemma GoneStep(doomed: seq<Artifact>, faults: nat -> Attempt, i: nat)
    requires i < |doomed|
    ensures Gone(doomed, faults, i + 1) ==
            Gone(doomed, faults, i) + if Goes(doomed, faults, i) then {doomed[i]} else {}
  {
  }

  lemma DeletedStep(doomed: seq<Artifact>, i: nat, deleted: seq<Artifact>)
    requires NewestFirst(doomed) && i < |doomed| && NewestFirst(deleted)
    requires forall a | a in deleted :: a in doomed[..i]
    ensures NewestFirst(deleted + [doomed[i]])
    ensures Elements(deleted + [doomed[i]]) == Elements(deleted) + {doomed[i]}
    ensures forall a | a in deleted + [doomed[i]] :: a in doomed[..i + 1]
  {
    PartOfSnoc(deleted, doomed, i);
  }

  lemma ProgressStep(doomed: seq<Artifact>, faults: nat -> Attempt, i: nat, seen: set<int>,
                     deleted: seq<Artifact>, failed: bool, seen': set<int>)
    requires NewestFirst(doomed) && i < |doomed| && Progress(doomed, faults, i, seen, deleted, failed)
    requires !faults(i).cancelled
    requires seen' == seen + if faults(i).opens then {doomed[i].storageId} else {}
    ensures Goes(doomed, faults, i) <==>
            doomed[i].storageId in seen' && faults(i).del == Removed && faults(i).rowGoes
    ensures Goes(doomed, faults, i) ==> Progress(doomed, faults, i + 1, seen', deleted + [doomed[i]], failed)
    ensures !Goes(doomed, faults, i) ==> Progress(doomed, faults, i + 1, seen', deleted, true)
  {
    hide SeenFits;
    hide Gone;
    hide NewestFirst;
    SeenStep(doomed, faults, i, seen, seen');
    GoneStep(doomed, faults, i);
    DeletedStep(doomed, i, deleted);
    assert doomed[..i + 1] == doomed[..i] + [doomed[i]];
    assert Goes(doomed, faults, i) <==> Opened(doomed, faults, i) && faults(i).del == Removed && faults(i).rowGoes;
  }

  lemma LostStep(doomed: seq<Artifact>, faults: nat -> Attempt, i: nat, seen: set<int>,
                 deleted: seq<Artifact>, failed: bool, seen': set<int>)
    requires i < |doomed| && Progress(doomed, faults, i, seen, deleted, failed) && !faults(i).cancelled
    requires seen' == seen + if faults(i).opens then {doomed[i].storageId} else {}
    ensures Lost(doomed, faults, i + 1) == Lost(doomed, faults, i) +
            if doomed[i].storageId in seen' && faults(i).del != ErrorKept then {At(doomed[i])} else {}
  {
    SeenStep(doomed, faults, i, seen, seen');
    hide SeenFits;
    hide Gone;
    hide Opened;
    assert Reached(faults, i);
  }

  lemma DoomedAreListed(rows: seq<Row>, taskId: int, doomed: seq<Artifact>)
    requires Elements(doomed) <= Listed(rows, taskId)
    ensures forall a | a in doomed :: Row(taskId, a) in rows
  {
    forall a | a in doomed ensures Row(taskId, a) in rows { assert a in Elements(doomed); }
  }

  /** Everything the prune loop keeps. */
  ghost predicate Pruning(rows0: seq<Row>, rows: seq<Row>, objects0: set<Location>, objects: set<Location>, taskId: int,
                          doomed: seq<Artifact>, faults: nat -> Attempt, i: nat, seen: set<int>,
                          deleted: seq<Artifact>, failed: bool)
    requires i <= |doomed|
  {
    Progress(doomed, faults, i, seen, deleted, failed)
    && Without(rows0, rows, taskId, deleted) && (deleted == [] ==> rows == rows0)
    && objects == objects0 - Lost(doomed, faults, i)
  }

  lemma PruneStarts(rows: seq<Row>, objects: set<Location>, taskId: int, doomed: seq<Artifact>, faults: nat -> Attempt)
    requires DistinctRows(rows)
    ensures Pruning(rows, rows, objects, objects, taskId, doomed, faults, 0, {}, [], false)
  {
  }

  /** The i-th artifact: whether its storage was open, and what became of its object and its row. */
  lemma PruneOneMore(rows0: seq<Row>, rows: seq<Row>, objects0: set<Location>, objects: set<Location>, taskId: int,
                     doomed: seq<Artifact>, faults: nat -> Attempt, i: nat, seen: set<int>,
                     deleted: seq<Artifact>, failed: bool)
    requires NewestFirst(doomed) && i < |doomed| && !faults(i).cancelled
    requires forall a | a in doomed :: Row(taskId, a) in rows0
    requires Pruning(rows0, rows, objects0, objects, taskId, doomed, faults, i, seen, deleted, failed)
    ensures var a, f := doomed[i], faults(i);
            var seen' := seen + if f.opens then {a.storageId} else {};
            var isOpen := a.storageId in seen';
            var ok := isOpen && f.del == Removed && f.rowGoes;
            Row(taskId, a) in rows && DistinctRows(rows)
            && Pruning(rows0, if ok then DeleteRow(rows, a.id) else rows, objects0,
                       if isOpen && f.del != ErrorKept then objects - {At(a)} else objects, taskId, doomed, faults, i + 1,
                       seen', if ok then deleted + [a] else deleted, failed || !ok)
  {
    var a, f := doomed[i], faults(i);
    var seen' := seen + if f.opens then {a.storageId} else {};
    WithoutDistinct(rows0, rows, taskId, deleted);
    ProgressStep(doomed, faults, i, seen, deleted, failed, seen');
    LostStep(doomed, faults, i, seen, deleted, failed, seen');
    assert Row(taskId, a) in rows;
    if a.storageId in seen' && f.del == Removed && f.rowGoes { WithoutOneMore(rows0, rows, taskId, deleted, a); }
    hide Progress;
    hide Without;
    hide Lost;
    hide NewestFirst;
    hide DistinctRows;
    hide DeleteRow;
  }

  lemma PruneEnds(rows0: seq<Row>, rows: seq<Row>, objects0: set<Location>, objects: set<Location>, taskId: int,
                  doomed: seq<Artifact>, faults: nat -> Attempt, i: nat, seen: set<int>,
                  deleted: seq<Artifact>, failed: bool)
    requires NewestFirst(doomed) && i <= |doomed| && (i == |doomed| || faults(i).cancelled)
    requires Pruning(rows0, rows, objects0, objects, taskId, doomed, faults, i, seen, deleted, failed)
    ensures Elements(deleted) == Gone(doomed, faults, |doomed|) && NewestFirst(deleted)
    ensures (failed || i < |doomed|) <==> Elements(deleted) != Elements(doomed)
    ensures Without(rows0, rows, taskId, deleted) && (deleted == [] ==> rows == rows0) && DistinctRows(rows)
    ensures objects == objects0 - Lost(doomed, faults, |doomed|)
    ensures ObjectsWithout(objects0, objects, doomed, deleted)
  {
    ProgressCancelled(doomed, faults, i, seen, deleted, failed);
    LostMeans(objects0, doomed, faults, deleted);
    hide Progress;
    hide Lost;
    hide Gone;
    hide ObjectsWithout;
    hide NewestFirst;
  }

  /** Once the context is cancelled nothing later goes. */
  lemma ProgressCancelled(doomed: seq<Artifact>, faults: nat -> Attempt, i: nat, seen: set<int>,
                          deleted: seq<Artifact>, failed: bool)
    requires NewestFirst(doomed) && i <= |doomed| && Progress(doomed, faults, i, seen, deleted, failed)
    requires i == |doomed| || faults(i).cancelled
    ensures Elements(deleted) == Gone(doomed, faults, |doomed|) && NewestFirst(deleted)
    ensures i == |doomed| ==> (failed <==> Elements(deleted) != Elements(doomed))
    ensures i < |doomed| ==> Elements(deleted) != Elements(doomed)
  {
    assert Gone(doomed, faults, |doomed|) == Gone(doomed, faults, i);
    AllGone(doomed, faults);
    assert i < |doomed| ==> !Goes(doomed, faults, i);
  }

  /** What a sweep keeps true while it goes through the tasks. */
  ghost predicate Swept(rows0: seq<Row>, objects0: set<Location>, rows: seq<Row>, objects: set<Location>,
                        tasks: seq<Task>, cal: Calendar) {
    DistinctRows(rows)
    && objects <= objects0
    && (forall r | r in rows :: r in rows0)
    && (forall r | r in rows0 && r !in rows :: LetGo(rows0, tasks, cal, r) && At(r.artifact) !in objects)
    && (forall l | l in objects0 && l !in objects :: exists r :: r in rows0 && At(r.artifact) == l && LetGo(rows0, tasks, cal, r))
  }

  lemma SweptStep(rows0: seq<Row>, objects0: set<Location>, rows1: seq<Row>, objects1: set<Location>,
                  rows2: seq<Row>, objects2: set<Location>,
                  tasks: seq<Task>, task: Task, cal: Calendar, doomed: seq<Artifact>, deleted: seq<Artifact>)
    requires DistinctRows(rows0) && Swept(rows0, objects0, rows1, objects1, tasks, cal)
    requires task in tasks && task.policy.Enabled()
    requires Listed(rows1, task.id) == Listed(rows0, task.id)
    requires Elements(doomed) == Listed(rows1, task.id) - Kept(Listed(rows1, task.id), task.policy, cal)
    requires Elements(deleted) <= Elements(doomed)
    requires Without(rows1, rows2, task.id, deleted)
    requires ObjectsWithout(objects1, objects2, doomed, deleted)
    ensures Swept(rows0, objects0, rows2, objects2, tasks, cal)
  {
    forall a | a in doomed ensures Row(task.id, a) in rows0 && LetGo(rows0, tasks, cal, Row(task.id, a)) {
      assert a in Elements(doomed);
    }
    forall r | r in rows0 && r !in rows2 ensures LetGo(rows0, tasks, cal, r) && At(r.artifact) !in objects2 {
      if r in rows1 {
        assert r == Row(task.id, r.artifact) && r.artifact in Elements(deleted);
      }
    }
    forall l | l in objects0 && l !in objects2
      ensures exists r :: r in rows0 && At(r.artifact) == l && LetGo(rows0, tasks, cal, r)
    {
      if l in objects1 {
        var a :| a in doomed && At(a) == l;
        assert Row(task.id, a) in rows0;
      }
    }
  }

  lemma SweptNone(rows: seq<Row>, objects: set<Location>, tasks: seq<Task>, cal: Calendar)
    requires DistinctRows(rows)
    ensures Swept(rows, objects, rows, objects, tasks, cal)
  {
  }

  lemma SweptDistinct(rows0: seq<Row>, objects0: set<Location>, rows: seq<Row>, objects: set<Location>,
                      tasks: seq<Task>, cal: Calendar)
    requires Swept(rows0, objects0, rows, objects, tasks, cal)
    ensures DistinctRows(rows)
  {
  }

  /** Pruning one task does not touch what the catalog lists for another. */
  lemma OthersUntouched(rows1: seq<Row>, rows2: seq<Row>, taskId: int, deleted: seq<Artifact>, other: int)
    requires Without(rows1, rows2, taskId, deleted) && other != taskId
    ensures Listed(rows2, other) == Listed(rows1, other)
  {
  }

  /** Deleting all that Forget lets go leaves a catalog with nothing more to let go. */
  lemma PrunedIsQuiet(rows1: seq<Row>, rows2: seq<Row>, task: Task, cal: Calendar, deleted: seq<Artifact>)
    requires DistinctRows(rows1) && Without(rows1, rows2, task.id, deleted)
    requires Elements(deleted) == Listed(rows1, task.id) - Kept(Listed(rows1, task.id), task.policy, cal)
    ensures Listed(rows2, task.id) <= Kept(Listed(rows2, task.id), task.policy, cal)
  {
    var s := Listed(rows1, task.id);
    KeptBySubset(s, Rules(task.policy, cal));
    assert Listed(rows2, task.id) == Kept(s, task.policy, cal) by {
      forall a ensures a in Listed(rows2, task.id) <==> a in s && a !in deleted {
        if a in s && a !in deleted { assert Row(task.id, a) in rows2; }
      }
      assert forall a :: a in deleted <==> a in Elements(deleted);
    }
    KeptStable(s, Kept(s, task.policy, cal), task.policy, cal);
  }

  lemma SweptNoNewOrphans(rows0: seq<Row>, objects0: set<Location>, rows: seq<Row>, objects: set<Location>,
                          tasks: seq<Task>, cal: Calendar)
    requires Swept(rows0, objects0, rows, objects, tasks, cal)
    ensures NoNewOrphans(objects0, rows0, objects, rows)
  {
  }

  // ---- orphans ------------------------------------------------------------------

  /** One storage listing of the orphan search. */
  datatype Scope = Scope(storageId: int, prefix: string)
  {
    predicate Covers(l: Location) { l.storageId == storageId && prefix <= l.key }
  }

  /** keyPrefix: the key up to and including its first slash, or nothing. */
  function KeyPrefix(key: string): (p: string)
    ensures p <= key
    ensures if '/' in key then p != [] && p[|p| - 1] == '/' && '/' !in p[..|p| - 1] else p == ""
  {
    if '/' !in key then ""
    else if key[0] == '/' then "/"
    else [key[0]] + KeyPrefix(key[1..])
  }

  /** Where new artifacts of the task land, and where any catalogued one was written. */
  ghost function Scopes(listed: set<Artifact>, home: Scope): set<Scope> {
    {home} + set a | a in listed :: Scope(a.storageId, KeyPrefix(a.key))
  }

  /** Covered by a listing that worked, and located by no row of the task. */
  ghost predicate IsOrphan(listed: set<Artifact>, home: Scope, reach: Scope -> bool, l: Location) {
    (exists sc :: sc in Scopes(listed, home) && reach(sc) && sc.storageId == l.storageId && sc.prefix <= l.key)
    && forall a | a in listed :: At(a) != l
  }

  ghost function OrphanSet(objects: set<Location>, listed: set<Artifact>, home: Scope, reach: Scope -> bool): set<Location> {
    set l | l in objects && IsOrphan(listed, home, reach, l)
  }

  lemma {:induction false} DistinctCount(s: seq<Location>, all: set<Location>)
    requires forall i, j | 0 <= i < j < |s| :: s[i] != s[j]
    requires forall l :: l in s <==> l in all
    ensures |s| == |all|
  {
    if s == [] {
      assert forall l :: l !in all;
      assert all == {};
    } else {
      var init, last := s[..|s| - 1], s[|s| - 1];
      assert s == init + [last];
      assert last !in init;
      DistinctCount(init, all - {last});
    }
  }

  /** Rows and objects at one moment. */
  datatype Catalog = Catalog(rows: seq<Row>, objects: set<Location>)

  /** What a task's turn counts: the objects in its scopes without a row of it, if its rows could be listed. */
  ghost function OrphansSeen(c: Catalog, task: Task, f: TaskFaults): nat {
    if f.relistFails then 0 else |OrphanSet(c.objects, Listed(c.rows, task.id), f.home, f.reach)|
  }

  /** What a turn does to the catalog: nothing without an enabled policy or a listing; else the rows of the doomed
      artifacts whose deletion worked go, and the objects of those it reached and did not fail to delete. */
  ghost predicate TaskTurn(c: Catalog, c': Catalog, task: Task, cal: Calendar, f: TaskFaults) {
    if !task.policy.Enabled() || f.listFails then c' == c
    else exists doomed, deleted :: Pruned(c, c', task, cal, f.attempts, doomed, deleted)
  }

  ghost predicate Pruned(c: Catalog, c': Catalog, task: Task, cal: Calendar, faults: nat -> Attempt,
                         doomed: seq<Artifact>, deleted: seq<Artifact>) {
    var s := Listed(c.rows, task.id);
    NewestFirst(doomed) && Elements(doomed) == s - Kept(s, task.policy, cal)
    && NewestFirst(deleted) && Elements(deleted) == Gone(doomed, faults, |doomed|)
    && Without(c.rows, c'.rows, task.id, deleted) && c'.objects == c.objects - Lost(doomed, faults, |doomed|)
  }

  function Latest(start: Catalog, after: seq<Catalog>): Catalog {
    if after == [] then start else after[|after| - 1]
  }

  /** after holds the catalog after each turn. */
  ghost predicate Turns(start: Catalog, after: seq<Catalog>, tasks: seq<Task>, cal: Calendar, faults: nat -> TaskFaults) {
    after == []
    || (|after| <= |tasks|
        && var n := |after| - 1; var was := after[..n];
           Turns(start, was, tasks, cal, faults) && TaskTurn(Latest(start, was), after[n], tasks[n], cal, faults(n)))
  }

  /** All turns, up to the first at whose end the context was done. */
  ghost predicate WholePass(after: seq<Catalog>, tasks: seq<Task>, faults: nat -> TaskFaults) {
    (forall i: nat | i + 1 < |after| :: !faults(i).contextDone)
    && (|after| < |tasks| ==> after != [] && faults(|after| - 1).contextDone)
  }

  ghost function OrphanTotal(after: seq<Catalog>, tasks: seq<Task>, faults: nat -> TaskFaults): nat
    requires |after| <= |tasks|
  {
    if after == [] then 0
    else
      var n := |after| - 1;
      OrphanTotal(after[..n], tasks, faults) + OrphansSeen(after[n], tasks[n], faults(n))
  }

  lemma NoTurns(start: Catalog, tasks: seq<Task>, cal: Calendar, faults: nat -> TaskFaults)
    ensures Turns(start, [], tasks, cal, faults) && OrphanTotal([], tasks, faults) == 0
  {
  }

  lemma OrphansNext(after: seq<Catalog>, c: Catalog, tasks: seq<Task>, faults: nat -> TaskFaults)
    requires |after| < |tasks|
    ensures OrphanTotal(after + [c], tasks, faults) ==
            OrphanTotal(after, tasks, faults) + OrphansSeen(c, tasks[|after|], faults(|after|))
  {
    hide OrphansSeen;
    assert (after + [c])[..|after|] == after;
  }

  /** One more turn. */
  lemma TurnsNext(start: Catalog, after: seq<Catalog>, c: Catalog, tasks: seq<Task>, cal: Calendar, faults: nat -> TaskFaults)
    requires Turns(start, after, tasks, cal, faults) && |after| < |tasks|
    requires TaskTurn(Latest(start, after), c, tasks[|after|], cal, faults(|after|))
    ensures Turns(start, after + [c], tasks, cal, faults)
  {
    hide TaskTurn;
    assert (after + [c])[..|after|] == after;
  }

  /** Whatever the task was renamed or moved to since, each of its artifacts is inside the search. */
  lemma EveryArtifactIsCovered(listed: set<Artifact>, home: Scope, a: Artifact)
    requires a in listed
    ensures exists sc :: sc in Scopes(listed, home) && sc.storageId == a.storageId && sc.prefix <= a.key
  {
    assert Scope(a.storageId, KeyPrefix(a.key)) in Scopes(listed, home);
  }

  class RetentionManager {
    var rows: seq<Row>
    var objects: set<Location>

    ghost predicate Valid() reads this { DistinctRows(rows) }

    /** Delete the object, then the row; the row stays unless the object is surely gone. */
    method DeleteOne(a: Artifact, f: Attempt) returns (ok: bool)
      modifies this
      ensures ok <==> f.del == Removed && f.rowGoes
      ensures rows == if ok then DeleteRow(old(rows), a.id) else old(rows)
      ensures objects == if f.del == ErrorKept then old(objects) else old(objects) - {At(a)}
    {
      if f.del != ErrorKept {
        objects := objects - {At(a)};
      }
      ok := f.del == Removed && f.rowGoes;
      if ok {
        rows := DeleteRow(rows, a.id);
      }
    }

    /** Prune: the delete set newest first, each artifact on its own; a failure is skipped over. */
    method Prune(task: Task, cal: Calendar, faults: nat -> Attempt)
      returns (deleted: seq<Artifact>, failed: bool, ghost doomed: seq<Artifact>)
      requires Valid()
      modifies this
      ensures Valid()
      ensures NewestFirst(doomed)
      ensures var s := Listed(old(rows), task.id); Elements(doomed) == s - Kept(s, task.policy, cal)
      ensures Elements(deleted) == Gone(doomed, faults, |doomed|) && NewestFirst(deleted)
      ensures failed <==> Elements(deleted) != Elements(doomed)
      ensures Without(old(rows), rows, task.id, deleted)
      ensures deleted == [] ==> rows == old(rows)
      ensures objects == old(objects) - Lost(doomed, faults, |doomed|)
      ensures forall i: nat | i < |doomed| ::
                (doomed[i] in deleted <==>
                   (forall j: nat | j <= i :: !faults(j).cancelled)
                   && (exists j: nat :: j <= i && doomed[j].storageId == doomed[i].storageId && faults(j).opens)
                   && faults(i).del == Removed && faults(i).rowGoes)
      ensures ObjectsWithout(old(objects), objects, doomed, deleted)
    {
      hide Pruning;
      hide Without;
      hide ObjectsWithout;
      hide DistinctRows;
      hide NewestFirst;
      hide Gone;
      hide Lost;
      ListDistinct(rows, task.id);
      var keep, del := Forget(task.policy, ListByTask(rows, task.id), cal);
      doomed := del;
      DoomedAreListed(rows, task.id, del);
      PruneStarts(rows, objects, task.id, del, faults);
      deleted, failed := [], false;
      var seen: set<int> := {};   // storages the cache holds open
      var i := 0;
      while i < |del| && !faults(i).cancelled
        invariant 0 <= i <= |del|
        invariant Pruning(old(rows), rows, old(objects), objects, task.id, del, faults, i, seen, deleted, failed)
      {
        var a, f := del[i], faults(i);
        PruneOneMore(old(rows), rows, old(objects), objects, task.id, del, faults, i, seen, deleted, failed);
        seen := seen + if f.opens then {a.storageId} else {};
        var ok := false;
        if a.storageId in seen { ok := DeleteOne(a, f); }
        if ok { deleted := deleted + [a]; } else { failed := true; }
        i := i + 1;
      }
      PruneEnds(old(rows), rows, old(objects), objects, task.id, del, faults, i, seen, deleted, failed);
      failed := failed || i < |del|;
      DeletedPlainly(del, faults, deleted);
    }

    /** Orphans: each orphan once, whatever the order in which scopes and objects are visited. */
    method Orphans(taskId: int, home: Scope, reach: Scope -> bool) returns (orphans: seq<Location>, failed: bool)
      requires Valid()
      ensures forall i, j | 0 <= i < j < |orphans| :: orphans[i] != orphans[j]
      ensures forall l :: l in orphans <==> l in objects && IsOrphan(Listed(rows, taskId), home, reach, l)
      ensures failed <==> exists sc :: sc in Scopes(Listed(rows, taskId), home) && !reach(sc)
    {
      ghost var listed := Listed(rows, taskId);
      ListDistinct(rows, taskId);
      var artifacts := ListByTask(rows, taskId);
      var known := set a | a in artifacts :: At(a);
      var todo := {home} + set a | a in artifacts :: Scope(a.storageId, KeyPrefix(a.key));
      assert forall a :: a in artifacts <==> a in Elements(artifacts);
      assert todo == Scopes(listed, home);
      ghost var done := {};
      orphans, failed := [], false;
      while todo != {}
        invariant todo + done == Scopes(listed, home) && todo !! done
        invariant failed <==> exists sc :: sc in done && !reach(sc)
        invariant forall i, j | 0 <= i < j < |orphans| :: orphans[i] != orphans[j]
        invariant forall l :: l in orphans <==>
                    l in objects && l !in known && exists sc :: sc in done && reach(sc) && sc.Covers(l)
        decreases todo
      {
        var sc :| sc in todo;
        todo, done := todo - {sc}, done + {sc};
        if !reach(sc) {
          failed := true;
        } else {
          orphans := AddListing(sc, known, orphans);
        }
      }
    }

    /** Adds what one listing shows and neither the catalog nor an earlier listing knows. */
    method AddListing(sc: Scope, known: set<Location>, orphans: seq<Location>) returns (r: seq<Location>)
      requires forall i, j | 0 <= i < j < |orphans| :: orphans[i] != orphans[j]
      ensures forall i, j | 0 <= i < j < |r| :: r[i] != r[j]
      ensures forall l :: l in r <==> l in orphans || (l in objects && sc.Covers(l) && l !in known)
    {
      r := orphans;
      var objs := set l | l in objects && sc.Covers(l);
      while objs != {}
        invariant forall l | l in objs :: l in objects && sc.Covers(l)
        invariant forall i, j | 0 <= i < j < |r| :: r[i] != r[j]
        invariant forall l :: l in r <==>
                    l in orphans || (l in objects && sc.Covers(l) && l !in known && l !in objs)
        decreases objs
      {
        var l :| l in objs;
        objs := objs - {l};
        if l !in known && l !in r {
          r := r + [l];
        }
      }
    }

    /** The pruning half of sweepTask: a task without an enabled policy is left alone, since Forget would
        keep nothing. */
    method PruneTask(task: Task, cal: Calendar, f: TaskFaults,
                     ghost tasks: seq<Task>, ghost rows0: seq<Row>, ghost objects0: set<Location>)
      returns (deletedCount: nat, freedBytes: int, failed: bool)
      requires Swept(rows0, objects0, rows, objects, tasks, cal)
      requires DistinctRows(rows0) && task in tasks && Listed(rows, task.id) == Listed(rows0, task.id)
      modifies this
      ensures Swept(rows0, objects0, rows, objects, tasks, cal)
      ensures deletedCount + |rows| == |old(rows)|
      ensures freedBytes + Bytes(rows) == Bytes(old(rows))
      ensures forall other | other != task.id :: Listed(rows, other) == Listed(old(rows), other)
      ensures CleanTask(f) ==> !failed && Settled(rows, task, cal)
      ensures Settled(old(rows), task, cal) ==> deletedCount == 0 && rows == old(rows) && objects == old(objects)
      ensures TaskTurn(Catalog(old(rows), old(objects)), Catalog(rows, objects), task, cal, f)
    {
      hide Without;
      hide ObjectsWithout;
      hide Swept;
      hide LetGo;
      deletedCount, freedBytes, failed := 0, 0, f.listFails;
      if !task.policy.Enabled() {
        failed := false;
      } else if !f.listFails {
        SweptDistinct(rows0, objects0, rows, objects, tasks, cal);
        var deleted, pruneFailed, doomed := Prune(task, cal, f.attempts);
        assert Pruned(Catalog(old(rows), old(objects)), Catalog(rows, objects), task, cal, f.attempts, doomed, deleted);
        WithoutDistinct(old(rows), rows, task.id, deleted);
        SweptStep(rows0, objects0, old(rows), old(objects), rows, objects, tasks, task, cal, doomed, deleted);
        forall other | other != task.id ensures Listed(rows, other) == Listed(old(rows), other) {
          OthersUntouched(old(rows), rows, task.id, deleted, other);
        }
        if CleanTask(f) {
          AllGone(doomed, f.attempts);
          PrunedIsQuiet(old(rows), rows, task, cal, deleted);
        }
        if Settled(old(rows), task, cal) {
          NoElements(doomed);
          NoElements(deleted);
        }
        deletedCount, freedBytes, failed := |deleted|, SizeOf(deleted), pruneFailed;
      }
    }

    /** sweepTask: prune, then count what lies in the task's scopes without a row of the task. */
    method SweepTask(task: Task, cal: Calendar, f: TaskFaults,
                     ghost tasks: seq<Task>, ghost rows0: seq<Row>, ghost objects0: set<Location>)
      returns (deletedCount: nat, freedBytes: int, orphanCount: nat, failed: bool)
      requires Swept(rows0, objects0, rows, objects, tasks, cal)
      requires DistinctRows(rows0) && task in tasks && Listed(rows, task.id) == Listed(rows0, task.id)
      modifies this
      ensures Swept(rows0, objects0, rows, objects, tasks, cal)
      ensures deletedCount + |rows| == |old(rows)|
      ensures freedBytes + Bytes(rows) == Bytes(old(rows))
      ensures forall other | other != task.id :: Listed(rows, other) == Listed(old(rows), other)
      ensures CleanTask(f) ==> !failed && Settled(rows, task, cal)
      ensures Settled(old(rows), task, cal) ==> deletedCount == 0 && rows == old(rows) && objects == old(objects)
      ensures TaskTurn(Catalog(old(rows), old(objects)), Catalog(rows, objects), task, cal, f)
      ensures orphanCount == OrphansSeen(Catalog(rows, objects), task, f)
    {
      hide Swept;
      hide TaskTurn;
      deletedCount, freedBytes, failed := PruneTask(task, cal, f, tasks, rows0, objects0);
      orphanCount := 0;
      if f.relistFails {
        failed := true;
      } else {
        SweptDistinct(rows0, objects0, rows, objects, tasks, cal);
        var orphans, missed := Orphans(task.id, f.home, f.reach);
        DistinctCount(orphans, OrphanSet(objects, Listed(rows, task.id), f.home, f.reach));
        orphanCount, failed := |orphans|, failed || missed;
      }
    }

    /** sweepLocked: every task in turn; one task's failure never stops the pass.  listed: whether the
        tasks could be listed at all. */
    method Sweep(tasks: seq<Task>, listed: bool, cal: Calendar, faults: nat -> TaskFaults)
      returns (deletedCount: nat, freedBytes: int, orphanCount: nat, failed: bool, ghost after: seq<Catalog>)
      requires Valid()
      requires forall i, j | 0 <= i < j < |tasks| :: tasks[i].id != tasks[j].id
      modifies this
      ensures Valid()
      ensures deletedCount + |rows| == |old(rows)|
      ensures freedBytes + Bytes(rows) == Bytes(old(rows))
      ensures Swept(old(rows), old(objects), rows, objects, tasks, cal)
      ensures NoNewOrphans(old(objects), old(rows), objects, rows)
      ensures !listed ==> failed && rows == old(rows) && objects == old(objects) && orphanCount == 0
      ensures listed && CleanPass(faults) ==> !failed && Quiescent(rows, tasks, cal)
      ensures Quiescent(old(rows), tasks, cal) ==> deletedCount == 0 && rows == old(rows) && objects == old(objects)
      ensures Turns(Catalog(old(rows), old(objects)), after, tasks, cal, faults)
      ensures if listed then WholePass(after, tasks, faults) else after == []
      ensures Catalog(rows, objects) == Latest(Catalog(old(rows), old(objects)), after)
      ensures |after| <= |tasks| && orphanCount == OrphanTotal(after, tasks, faults)
    {
      hide Swept;
      hide Settled;
      hide NoNewOrphans;
      hide OrphansSeen;
      hide TaskTurn;
      hide Turns;
      hide OrphanTotal;
      hide DistinctRows;
      ghost var start := Catalog(rows, objects);
      after := [];
      NoTurns(start, tasks, cal, faults);
      SweptNone(rows, objects, tasks, cal);
      deletedCount, freedBytes, orphanCount, failed := 0, 0, 0, !listed;
      if listed {
        var k := 0;
        while k < |tasks|
          invariant 0 <= k <= |tasks|
          invariant deletedCount + |rows| == |old(rows)|
          invariant freedBytes + Bytes(rows) == Bytes(old(rows))
          invariant Swept(old(rows), old(objects), rows, objects, tasks, cal)
          invariant forall j | k <= j < |tasks| :: Listed(rows, tasks[j].id) == Listed(old(rows), tasks[j].id)
          invariant CleanPass(faults) ==> !failed && forall j | 0 <= j < k :: Settled(rows, tasks[j], cal)
          invariant Quiescent(old(rows), tasks, cal) ==>
                      deletedCount == 0 && rows == old(rows) && objects == old(objects)
          invariant |after| == k && Turns(start, after, tasks, cal, faults)
          invariant Catalog(rows, objects) == Latest(start, after)
          invariant orphanCount == OrphanTotal(after, tasks, faults)
          invariant forall i: nat | i < k :: !faults(i).contextDone
        {
          ghost var rows1 := rows;
          var deleted, freed, orphans, taskFailed := SweepTask(tasks[k], cal, faults(k), tasks, old(rows), old(objects));
          forall j | 0 <= j < k && Settled(rows1, tasks[j], cal) ensures Settled(rows, tasks[j], cal) {
            SettledByListing(rows1, rows, tasks[j], cal);
          }
          TurnsNext(start, after, Catalog(rows, objects), tasks, cal, faults);
          OrphansNext(after, Catalog(rows, objects), tasks, faults);
          after := after + [Catalog(rows, objects)];
          deletedCount, freedBytes, orphanCount := deletedCount + deleted, freedBytes + freed, orphanCount + orphans;
          failed := failed || taskFailed || faults(k).contextDone;
          k := k + 1;
          if faults(k - 1).contextDone { break; }
        }
      }
      SweptDistinct(old(rows), old(objects), rows, objects, tasks, cal);
      SweptNoNewOrphans(old(rows), old(objects), rows, objects, tasks, cal);
    }
  }

  /** What a prune does to one task's listing is a sweep step of that task's history. */
  lemma PruneIsSweepStep(rows1: seq<Row>, rows2: seq<Row>, task: Task, cal: Calendar,
                         deleted: seq<Artifact>, all: set<Artifact>)
    requires Without(rows1, rows2, task.id, deleted)
    requires Elements(deleted) <= Listed(rows1, task.id) - Kept(Listed(rows1, task.id), task.policy, cal)
    ensures var h, e := History(all, Listed(rows1, task.id)), Event.Sweep(Elements(deleted));
            Allowed(h, e, task.policy, cal) && Step(h, e) == History(all, Listed(rows2, task.id))
  {
    forall a ensures a in Listed(rows2, task.id) <==> a in Listed(rows1, task.id) && a !in deleted {
      assert Row(task.id, a) in rows2 <==> Row(task.id, a) in rows1 && a !in deleted;
    }
  }

  lemma SettledByListing(rows1: seq<Row>, rows2: seq<Row>, task: Task, cal: Calendar)
    requires Listed(rows1, task.id) == Listed(rows2, task.id) && Settled(rows1, task, cal)
    ensures Settled(rows2, task, cal)
  {
  }

  lemma NoElements(s: seq<Artifact>)
    ensures s == [] <==> Elements(s) == {}
  {
    if s != [] { assert s[0] in Elements(s); }
  }
}
