// The dispatcher: cron activations become queued runs (internal/core/dispatcher.go).

module Dispatch {
  import opened Schedules
  import opened RunQueue

  /** A task's schedule, or none when its cron expression does not parse. */
  datatype Task = Task(id: int, cron: Option<Next>)

  /** Tick's test.  NextRun answers "no activation" with the zero time, which is not after now. */
  predicate Due(next: Next, last: int, now: int) {
    var n := next(last);
    n.None? || n.value <= now
  }

  /** Some activation fell within (last, now]. */
  ghost predicate Fell(next: Next, last: int, now: int) {
    exists a :: last < a <= now && Activation(next, a)
  }

  /** A task is due exactly when an activation fell in the window, unless its schedule has run dry. */
  lemma DueIffActivation(next: Next, last: int, now: int)
    requires IsSchedule(next)
    ensures (Due(next, last, now) <==> Fell(next, last, now)) <==> next(last).Some?
  {
    if next(last).Some? {
      NextIsActivation(next, last);
    }
  }

  /** A cron with no activation at all is due on every tick there ever is. */
  lemma DryScheduleAlwaysDue()
    ensures var never: Next := t => None;
            IsSchedule(never) && forall last, now :: Due(never, last, now) && !Fell(never, last, now)
  {
  }

  predicate ShouldEnqueue(task: Task, last: int, now: int) {
    task.cron.Some? && Due(task.cron.value, last, now)
  }

  /** The table after the tick's loop; works(k) tells whether the store took the k-th task's insert. */
  function Enqueued(t: Table, tasks: seq<Task>, last: int, now: int, works: nat -> bool): Table {
    if tasks == [] then t
    else
      var n := |tasks| - 1;
      var u := Enqueued(t, tasks[..n], last, now, works);
      if ShouldEnqueue(tasks[n], last, now) && works(n) then Insert(u, Run(tasks[n].id, Queued, "", 1)) else u
  }

  ghost predicate AskedFor(tasks: seq<Task>, last: int, now: int, works: nat -> bool, taskId: int) {
    exists k: nat :: k < |tasks| && Asks(tasks, last, now, works, k) && tasks[k].id == taskId
  }

  /** Task k has a readable cron whose next run is not after now, or that has none, and its insert works. */
  ghost predicate Asks(tasks: seq<Task>, last: int, now: int, works: nat -> bool, k: nat)
    requires k < |tasks|
  {
    tasks[k].cron.Some? && works(k)
    && (tasks[k].cron.value(last).None? || tasks[k].cron.value(last).value <= now)
  }

  ghost predicate RunAdded(t: Table, u: Table, taskId: int) {
    exists i :: |t| <= i < |u| && u[i] == Run(taskId, Queued, "", 1)
  }

  lemma AskedForSnoc(tasks: seq<Task>, last: int, now: int, works: nat -> bool, taskId: int)
    requires tasks != []
    ensures var n := |tasks| - 1;
            AskedFor(tasks, last, now, works, taskId) <==>
            AskedFor(tasks[..n], last, now, works, taskId)
            || (tasks[n].id == taskId && Asks(tasks, last, now, works, n))
  {
    var init := tasks[..|tasks| - 1];
    forall k: nat | k < |init| ensures Asks(init, last, now, works, k) == Asks(tasks, last, now, works, k) && init[k] == tasks[k] { }
    if AskedFor(init, last, now, works, taskId) {
      var k: nat :| k < |init| && Asks(init, last, now, works, k) && init[k].id == taskId;
      assert Asks(tasks, last, now, works, k);
    }
  }

  lemma RunAddedOnInsert(t: Table, u: Table, v: Table, taskId: int, other: int)
    requires |t| <= |u| && u[..|t|] == t && v == Insert(u, Run(taskId, Queued, "", 1))
    requires forall i | |t| <= i < |u| :: u[i] == Run(u[i].taskId, Queued, "", 1)
    ensures RunAdded(t, v, other) <==>
            RunAdded(t, u, other) || (other == taskId && !HasActive(t, taskId))
  {
    assert forall j | 0 <= j < |t| :: t[j] == u[..|t|][j] == u[j];
    if RunAdded(t, u, other) {
      var i :| |t| <= i < |u| && u[i] == Run(other, Queued, "", 1);
      assert v[i] == u[i];
    }
    if HasActive(t, taskId) {
      var i :| 0 <= i < |t| && t[i].taskId == taskId && t[i].Active();
      assert u[i] == t[i];
    } else if HasActive(u, taskId) {
      var i :| 0 <= i < |u| && u[i].taskId == taskId && u[i].Active();
    } else {
      assert v[|u|] == Run(taskId, Queued, "", 1);
    }
  }

  /** A tick only appends, and appends a run for exactly the due tasks that had none active and whose
      insert the store took. */
  lemma {:induction false} EnqueuedExactly(t: Table, tasks: seq<Task>, last: int, now: int, works: nat -> bool)
    requires OneActive(t)
    ensures var u := Enqueued(t, tasks, last, now, works);
            OneActive(u) && |t| <= |u| && u[..|t|] == t
            && (forall i | |t| <= i < |u| :: u[i] == Run(u[i].taskId, Queued, "", 1))
            && (forall id :: RunAdded(t, u, id) <==> AskedFor(tasks, last, now, works, id) && !HasActive(t, id))
  {
    if tasks != [] {
      var n := |tasks| - 1;
      EnqueuedExactly(t, tasks[..n], last, now, works);
      var u, v := Enqueued(t, tasks[..n], last, now, works), Enqueued(t, tasks, last, now, works);
      assert v == if Asks(tasks, last, now, works, n) then Insert(u, Run(tasks[n].id, Queued, "", 1)) else u;
      assert v[..|t|] == u[..|t|];
      forall id ensures RunAdded(t, v, id) <==> AskedFor(tasks, last, now, works, id) && !HasActive(t, id) {
        AskedForSnoc(tasks, last, now, works, id);
        if Asks(tasks, last, now, works, n) { RunAddedOnInsert(t, u, v, tasks[n].id, id); }
      }
    }
  }

  class Dispatcher {
    var lastTick: int

    constructor (now: int)
      ensures lastTick == now
    {
      lastTick := now;
    }

    /** Tick: one enqueue attempt per due task, then the window moves on. */
    method Tick(store: Store, now: int, tasks: seq<Task>, listed: bool, works: nat -> bool) returns (enqueued: nat, ok: bool)
      requires store.Valid()
      modifies this, store
      ensures store.Valid() && ok == listed
      ensures ok ==> lastTick == now && store.runs == Enqueued(old(store.runs), tasks, old(lastTick), now, works)
      ensures !ok ==> lastTick == old(lastTick) && store.runs == old(store.runs)
      ensures enqueued + |old(store.runs)| == |store.runs|
    {
      enqueued, ok := 0, listed;
      if !listed { return; }
      var i := 0;
      while i < |tasks|
        invariant 0 <= i <= |tasks|
        invariant store.Valid() && lastTick == old(lastTick)
        invariant store.runs == Enqueued(old(store.runs), tasks[..i], lastTick, now, works)
        invariant enqueued + |old(store.runs)| == |store.runs|
      {
        var task := tasks[i];
        assert tasks[..i + 1][..i] == tasks[..i];
        i := i + 1;
        if task.cron.None? { continue; }
        var next := task.cron.value(lastTick);
        if next.Some? && next.value > now { continue; }
        if !works(i - 1) { continue; }
        var res := store.Enqueue(task.id);
        if res.Row? { enqueued := enqueued + 1; }
      }
      assert tasks[..i] == tasks;
      lastTick := now;
    }
  }

  // ---- windows over many ticks ---------------------------------------------------

  /** One tick: the clock it read, and whether listing the tasks worked. */
  datatype TickEvent = TickEvent(now: int, listed: bool)

  datatype Window = Window(lo: int, hi: int)
  {
    predicate Contains(a: int) { lo < a <= hi }
  }

  function LastTick(last: int, ticks: seq<TickEvent>): int {
    if ticks == [] then last
    else if ticks[|ticks| - 1].listed then ticks[|ticks| - 1].now
    else LastTick(last, ticks[..|ticks| - 1])
  }

  /** The windows the successful ticks looked at. */
  function Windows(last: int, ticks: seq<TickEvent>): seq<Window> {
    if ticks == [] then []
    else
      var init, t := ticks[..|ticks| - 1], ticks[|ticks| - 1];
      Windows(last, init) + if t.listed then [Window(LastTick(last, init), t.now)] else []
  }

  ghost predicate Sees(ws: seq<Window>, i: int, a: int) { 0 <= i < |ws| && ws[i].Contains(a) }

  ghost predicate Covered(ws: seq<Window>, a: int) { exists i :: Sees(ws, i, a) }

  ghost predicate Monotone(last: int, ticks: seq<TickEvent>) {
    (forall i | 0 <= i < |ticks| :: last <= ticks[i].now)
    && forall i, j | 0 <= i < j < |ticks| :: ticks[i].now <= ticks[j].now
  }

  /** ws cuts (lo, hi] into consecutive windows, without gap or overlap. */
  ghost predicate Tiles(lo: int, hi: int, ws: seq<Window>) {
    lo <= hi
    && (forall i | 0 <= i < |ws| :: lo <= ws[i].lo <= ws[i].hi <= hi)
    && (forall i, j | 0 <= i < j < |ws| :: ws[i].hi <= ws[j].lo)
    && (forall a :: lo < a <= hi ==> Covered(ws, a))
  }

  lemma TilesSnoc(lo: int, mid: int, hi: int, ws: seq<Window>)
    requires Tiles(lo, mid, ws) && mid <= hi
    ensures Tiles(lo, hi, ws + [Window(mid, hi)])
  {
    var vs := ws + [Window(mid, hi)];
    forall a | lo < a <= hi ensures Covered(vs, a) {
      if a <= mid {
        assert Covered(ws, a);
        var i :| Sees(ws, i, a);
        assert Sees(vs, i, a);
      } else {
        assert Sees(vs, |ws|, a);
      }
    }
  }

  /** The windows of the successful ticks tile the time from start to last tick, however many
      ticks failed in between. */
  lemma {:induction false} WindowsTile(last: int, ticks: seq<TickEvent>)
    requires Monotone(last, ticks)
    ensures Tiles(last, LastTick(last, ticks), Windows(last, ticks))
    ensures ticks != [] ==> LastTick(last, ticks) <= ticks[|ticks| - 1].now
  {
    if ticks != [] {
      var init, t := ticks[..|ticks| - 1], ticks[|ticks| - 1];
      WindowsTile(last, init);
      assert init != [] ==> init[|init| - 1] == ticks[|ticks| - 2];
      assert Windows(last, init) + [] == Windows(last, init);
      if t.listed { TilesSnoc(last, LastTick(last, init), t.now, Windows(last, init)); }
    }
  }

  /** Every activation is looked at by exactly one tick, so it causes at most one enqueue. */
  lemma EachActivationOnce(last: int, ticks: seq<TickEvent>, a: int) returns (i: int)
    requires Monotone(last, ticks) && last < a <= LastTick(last, ticks)
    ensures Sees(Windows(last, ticks), i, a)
    ensures forall j :: Sees(Windows(last, ticks), j, a) ==> j == i
  {
    WindowsTile(last, ticks);
    assert Covered(Windows(last, ticks), a);
    i :| Sees(Windows(last, ticks), i, a);
  }

  /** Two ticks that both find a live schedule due do so for different activations, in order. */
  lemma CausesDiffer(last: int, ticks: seq<TickEvent>, next: Next, i: nat, j: nat)
    requires Monotone(last, ticks) && IsSchedule(next)
    requires var ws := Windows(last, ticks);
             i < j < |ws| && next(ws[i].lo).Some? && next(ws[j].lo).Some?
             && Due(next, ws[i].lo, ws[i].hi) && Due(next, ws[j].lo, ws[j].hi)
    ensures var ws := Windows(last, ticks);
            var a, b := next(ws[i].lo).value, next(ws[j].lo).value;
            a < b && Activation(next, a) && Activation(next, b) && ws[i].Contains(a) && ws[j].Contains(b)
  {
    WindowsTile(last, ticks);
    var ws := Windows(last, ticks);
    NextIsActivation(next, ws[i].lo);
    NextIsActivation(next, ws[j].lo);
  }
}
