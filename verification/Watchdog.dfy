// Watchdog episodes: one notification per stale episode (internal/core/watchdog.go,
// internal/core/runevents.go, internal/store/sqlite/watchdog.go).
//
// The marker table is shared by the watchdog's check and by workers reporting a
// success, which may run between any two steps of a check.

module Watchdog {
  import opened Schedules

  /** An enabled task with its resolved threshold; none when the watchdog is off for it. */
  datatype Task = Task(id: int, threshold: Option<int>, createdAt: int, enabledAt: int)

  /** A marker appears when its task is to be reported, and goes away when its episode closes; the notice follows
      in the same check, and RunEvents takes the two apart. */
  datatype Entry = Fired(task: int) | Cleared(task: int)

  /** The later of the last success (or creation) and the last time the task was enabled. */
  function Since(t: Task, lastSuccess: map<int, int>): int {
    var since := if t.id in lastSuccess then lastSuccess[t.id] else t.createdAt;
    if t.enabledAt > since then t.enabledAt else since
  }

  predicate Stale(t: Task, lastSuccess: map<int, int>, now: int) {
    t.threshold.Some? && now - Since(t, lastSuccess) > t.threshold.value
  }

  /** Staleness spelled out: nothing that restarts the clock happened within the threshold. */
  lemma StaleMeansSilence(t: Task, lastSuccess: map<int, int>, now: int)
    requires t.createdAt <= now && t.enabledAt <= now && t.threshold.Some?
    ensures Stale(t, lastSuccess, now) <==>
            t.enabledAt < now - t.threshold.value
            && (if t.id in lastSuccess then lastSuccess[t.id] < now - t.threshold.value
                else t.createdAt < now - t.threshold.value)
  {
  }

  /** Whether task id is inside a reported episode after the log. */
  predicate Open(log: seq<Entry>, id: int) {
    log != [] &&
    var e := log[|log| - 1];
    if e.task == id then e.Fired? else Open(log[..|log| - 1], id)
  }

  /** Every notification opens an episode that was closed, every clearing closes an open one. */
  ghost predicate Alternates(log: seq<Entry>) {
    forall i | 0 <= i < |log| :: log[i].Fired? <==> !Open(log[..i], log[i].task)
  }

  lemma AlternatesSnoc(log: seq<Entry>, e: Entry)
    requires Alternates(log) && (e.Fired? <==> !Open(log, e.task))
    ensures Alternates(log + [e])
    ensures forall id :: Open(log + [e], id) <==> if id == e.task then e.Fired? else Open(log, id)
  {
    var l := log + [e];
    assert l[..|log|] == log;
    forall i | 0 <= i < |l| ensures l[i].Fired? <==> !Open(l[..i], l[i].task) {
      if i < |log| { assert l[..i] == log[..i]; }
    }
  }

  lemma {:induction false} OpenSince(log: seq<Entry>, id: int, i: nat)
    requires i < |log| && log[i] == Fired(id) && !Open(log, id)
    ensures exists k :: i < k < |log| && log[k] == Cleared(id)
  {
    var init, e := log[..|log| - 1], log[|log| - 1];
    if e.task == id {
      assert log[|log| - 1] == Cleared(id);
    } else {
      assert init[i] == log[i];
      OpenSince(init, id, i);
      var k :| i < k < |init| && init[k] == Cleared(id);
      assert log[k] == Cleared(id);
    }
  }

  /** A task is never reported twice without its marker being cleared in between. */
  lemma NeverTwice(log: seq<Entry>, id: int, i: nat, j: nat)
    requires Alternates(log) && i < j < |log| && log[i] == Fired(id) && log[j] == Fired(id)
    ensures exists k :: i < k < j && log[k] == Cleared(id)
  {
    OpenSince(log[..j], id, i);
    var k :| i < k < j && log[..j][k] == Cleared(id);
    assert log[k] == Cleared(id);
  }

  /** The tasks a stretch of the log reports, in order. */
  function FiredIn(log: seq<Entry>): seq<int> {
    if log == [] then []
    else FiredIn(log[..|log| - 1]) + if log[|log| - 1].Fired? then [log[|log| - 1].task] else []
  }

  lemma {:induction false} FiredInSplit(a: seq<Entry>, b: seq<Entry>)
    ensures FiredIn(a + b) == FiredIn(a) + FiredIn(b)
  {
    if b == [] {
      assert a + b == a;
    } else {
      var init := b[..|b| - 1];
      assert (a + b)[..|a + b| - 1] == a + init;
      FiredInSplit(a, init);
    }
  }

  lemma {:induction false} NoneFired(log: seq<Entry>)
    requires forall e | e in log :: e.Cleared?
    ensures FiredIn(log) == []
  {
    if log != [] {
      assert log[|log| - 1] in log;
      NoneFired(log[..|log| - 1]);
    }
  }

  lemma {:induction false} FiredInHas(log: seq<Entry>, id: int)
    ensures id in FiredIn(log) <==> exists k :: 0 <= k < |log| && log[k] == Fired(id)
  {
    if log != [] {
      var init := log[..|log| - 1];
      FiredInHas(init, id);
      if id in FiredIn(init) {
        var k :| 0 <= k < |init| && init[k] == Fired(id);
        assert log[k] == Fired(id);
      }
      if exists k :: 0 <= k < |log| && log[k] == Fired(id) {
        var k :| 0 <= k < |log| && log[k] == Fired(id);
        if k < |init| { assert init[k] == Fired(id); }
      }
    }
  }

  /** What the log gained since it was `before` reports exactly `fired`. */
  ghost predicate Reports(before: seq<Entry>, log: seq<Entry>, fired: seq<int>) {
    before <= log && FiredIn(log[|before|..]) == fired
  }

  /** More entries, reporting `more`. */
  lemma ReportsMore(before: seq<Entry>, log: seq<Entry>, fired: seq<int>, log': seq<Entry>)
    requires Reports(before, log, fired) && log <= log'
    ensures Reports(before, log', fired + FiredIn(log'[|log|..]))
  {
    FiredInSplit(log[|before|..], log'[|log|..]);
    assert log'[|before|..] == log[|before|..] + log'[|log|..];
  }

  /** Entries that only clear report nothing. */
  lemma ReportsNoMore(before: seq<Entry>, log: seq<Entry>, fired: seq<int>, log': seq<Entry>)
    requires Reports(before, log, fired) && log <= log' && forall e | e in log'[|log|..] :: e.Cleared?
    ensures Reports(before, log', fired)
  {
    NoneFired(log'[|log|..]);
    ReportsMore(before, log, fired, log');
    assert fired + [] == fired;
  }

  lemma ReportsOne(before: seq<Entry>, log: seq<Entry>, fired: seq<int>, id: int)
    requires Reports(before, log, fired)
    ensures Reports(before, log + [Fired(id)], fired + [id])
  {
    var log' := log + [Fired(id)];
    assert log'[|log|..] == [Fired(id)] && [Fired(id)][..0] == [];
    assert FiredIn([Fired(id)]) == FiredIn([]) + [id] == [id];
    ReportsMore(before, log, fired, log');
  }

  /** Which store writes work, and whose markers a worker clears just before each step. */
  datatype World = World(markOk: int -> bool, clearOk: int -> bool, recovered: nat -> set<int>)

  ghost predicate Quiet(w: World) {
    (forall id :: w.markOk(id) && w.clearOk(id)) && forall n: nat :: w.recovered(n) == {}
  }

  /** The tasks a check that read `alerted` reports, in list order. */
  function Newly(tasks: seq<Task>, alerted: set<int>, lastSuccess: map<int, int>, now: int): seq<int> {
    if tasks == [] then []
    else
      var t := tasks[|tasks| - 1];
      Newly(tasks[..|tasks| - 1], alerted, lastSuccess, now)
      + if Stale(t, lastSuccess, now) && t.id !in alerted then [t.id] else []
  }

  ghost function StaleIds(tasks: seq<Task>, lastSuccess: map<int, int>, now: int): set<int> {
    set t | t in tasks && Stale(t, lastSuccess, now) :: t.id
  }

  ghost function Members(ids: seq<int>): set<int> { set id | id in ids }

  lemma NewlySnoc(tasks: seq<Task>, i: nat, alerted: set<int>, lastSuccess: map<int, int>, now: int)
    requires i < |tasks|
    ensures Newly(tasks[..i + 1], alerted, lastSuccess, now) ==
            Newly(tasks[..i], alerted, lastSuccess, now)
            + if Stale(tasks[i], lastSuccess, now) && tasks[i].id !in alerted then [tasks[i].id] else []
  {
    assert tasks[..i + 1][..i] == tasks[..i];
  }

  ghost function Ids(tasks: seq<Task>): set<int> { set t | t in tasks :: t.id }

  /** The marker table is exactly what the log left open. */
  ghost predicate Consistent(markers: set<int>, log: seq<Entry>) {
    Alternates(log) && forall id :: id in markers <==> Open(log, id)
  }

  /** What Check knows after i tasks, having read `alerted` at its start, whatever failed. */
  ghost predicate CheckSafe(tasks: seq<Task>, i: nat, alerted: set<int>, lastSuccess: map<int, int>, now: int,
                            markers: set<int>, fired: seq<int>)
    requires i <= |tasks|
  {
    Members(fired) <= StaleIds(tasks[..i], lastSuccess, now) - alerted && markers <= alerted + Members(fired)
  }

  /** And what it knows if nothing failed and no worker got in between. */
  ghost predicate CheckExact(tasks: seq<Task>, i: nat, alerted: set<int>, lastSuccess: map<int, int>, now: int,
                             markers: set<int>, fired: seq<int>)
    requires i <= |tasks|
  {
    markers == StaleIds(tasks[..i], lastSuccess, now) + (alerted - Ids(tasks[..i]))
    && fired == Newly(tasks[..i], alerted, lastSuccess, now)
  }

  ghost predicate CheckFits(tasks: seq<Task>, i: nat, alerted: set<int>, lastSuccess: map<int, int>, now: int,
                            quiet: bool, markers: set<int>, fired: seq<int>)
    requires i <= |tasks|
  {
    CheckSafe(tasks, i, alerted, lastSuccess, now, markers, fired)
    && (quiet ==> CheckExact(tasks, i, alerted, lastSuccess, now, markers, fired))
  }

  lemma CheckStart(tasks: seq<Task>, alerted: set<int>, lastSuccess: map<int, int>, now: int, quiet: bool)
    ensures CheckFits(tasks, 0, alerted, lastSuccess, now, quiet, alerted, [])
  {
  }

  lemma CheckEnd(tasks: seq<Task>, alerted: set<int>, lastSuccess: map<int, int>, now: int, quiet: bool,
                 markers: set<int>, fired: seq<int>)
    requires CheckFits(tasks, |tasks|, alerted, lastSuccess, now, quiet, markers, fired)
    ensures forall id | id in fired :: id in StaleIds(tasks, lastSuccess, now) - alerted
    ensures markers <= alerted + Members(fired)
    ensures quiet ==>
              markers - (alerted - Ids(tasks)) == StaleIds(tasks, lastSuccess, now)
              && fired == Newly(tasks, alerted, lastSuccess, now)
  {
    assert tasks[..|tasks|] == tasks;
  }

  lemma NewId(tasks: seq<Task>, i: nat)
    requires forall i, j | 0 <= i < j < |tasks| :: tasks[i].id != tasks[j].id
    requires i < |tasks|
    ensures Ids(tasks[..i + 1]) == Ids(tasks[..i]) + {tasks[i].id} && tasks[i].id !in Ids(tasks[..i])
  {
    assert tasks[..i + 1] == tasks[..i] + [tasks[i]];
    forall u | u in tasks[..i] ensures u.id != tasks[i].id {
      var j :| 0 <= j < i && tasks[j] == u;
    }
  }

  lemma StaleIdsNext(tasks: seq<Task>, i: nat, lastSuccess: map<int, int>, now: int)
    requires i < |tasks|
    ensures StaleIds(tasks[..i + 1], lastSuccess, now) ==
            StaleIds(tasks[..i], lastSuccess, now) + if Stale(tasks[i], lastSuccess, now) then {tasks[i].id} else {}
    ensures StaleIds(tasks[..i], lastSuccess, now) <= Ids(tasks[..i])
  {
    assert tasks[..i + 1] == tasks[..i] + [tasks[i]];
  }

  lemma SafeStep(tasks: seq<Task>, i: nat, alerted: set<int>, lastSuccess: map<int, int>, now: int,
                 markers: set<int>, m: set<int>, fired: seq<int>)
    requires forall i, j | 0 <= i < j < |tasks| :: tasks[i].id != tasks[j].id
    requires i < |tasks| && CheckSafe(tasks, i, alerted, lastSuccess, now, markers, fired) && m <= markers
    ensures var t := tasks[i];
            t.id !in fired
            && CheckSafe(tasks, i + 1, alerted, lastSuccess, now, m, fired)
            && CheckSafe(tasks, i + 1, alerted, lastSuccess, now, m - {t.id}, fired)
            && (Stale(t, lastSuccess, now) && t.id !in alerted ==>
                  t.id !in m && CheckSafe(tasks, i + 1, alerted, lastSuccess, now, m + {t.id}, fired + [t.id]))
  {
    NewId(tasks, i);
    StaleIdsNext(tasks, i, lastSuccess, now);
    assert tasks[i].id !in Members(fired);
    hide Ids;
    hide StaleIds;
    hide Stale;
    hide Members;
  }

  lemma ExactStep(tasks: seq<Task>, i: nat, alerted: set<int>, lastSuccess: map<int, int>, now: int,
                  m: set<int>, fired: seq<int>)
    requires forall i, j | 0 <= i < j < |tasks| :: tasks[i].id != tasks[j].id
    requires i < |tasks| && CheckExact(tasks, i, alerted, lastSuccess, now, m, fired)
    ensures var t := tasks[i]; var stale := Stale(t, lastSuccess, now);
            if stale && t.id !in alerted then
              CheckExact(tasks, i + 1, alerted, lastSuccess, now, m + {t.id}, fired + [t.id])
            else if !stale && t.id in alerted then
              CheckExact(tasks, i + 1, alerted, lastSuccess, now, m - {t.id}, fired)
            else CheckExact(tasks, i + 1, alerted, lastSuccess, now, m, fired)
  {
    NewId(tasks, i);
    StaleIdsNext(tasks, i, lastSuccess, now);
    NewlySnoc(tasks, i, alerted, lastSuccess, now);
    hide Ids;
    hide StaleIds;
    hide Stale;
    hide Newly;
  }

  /** One task of Check; m is what workers left of the markers just before it. */
  lemma CheckStep(tasks: seq<Task>, i: nat, alerted: set<int>, lastSuccess: map<int, int>, now: int, quiet: bool,
                  markers: set<int>, m: set<int>, fired: seq<int>)
    requires forall i, j | 0 <= i < j < |tasks| :: tasks[i].id != tasks[j].id
    requires i < |tasks| && CheckFits(tasks, i, alerted, lastSuccess, now, quiet, markers, fired)
    requires m <= markers && (quiet ==> m == markers)
    ensures Ids(tasks[..i + 1]) == Ids(tasks[..i]) + {tasks[i].id}
    ensures var t := tasks[i]; var stale := Stale(t, lastSuccess, now);
            if stale && t.id !in alerted then
              t.id !in m && t.id !in fired
              && CheckFits(tasks, i + 1, alerted, lastSuccess, now, quiet, m + {t.id}, fired + [t.id])
              && CheckFits(tasks, i + 1, alerted, lastSuccess, now, false, m, fired)
            else if !stale && t.id in alerted then
              CheckFits(tasks, i + 1, alerted, lastSuccess, now, quiet, m - {t.id}, fired)
              && CheckFits(tasks, i + 1, alerted, lastSuccess, now, false, m, fired)
            else CheckFits(tasks, i + 1, alerted, lastSuccess, now, quiet, m, fired)
  {
    NewId(tasks, i);
    SafeStep(tasks, i, alerted, lastSuccess, now, markers, m, fired);
    if quiet { ExactStep(tasks, i, alerted, lastSuccess, now, m, fired); }
    hide CheckSafe;
    hide CheckExact;
    hide Stale;
    hide Ids;
  }

  // ---- a check's outcome under any faults -------------------------------------------------

  /** Markers and reports. */
  datatype Outcome = Outcome(markers: set<int>, fired: seq<int>)

  /** After n tasks of a check that read `alerted`: workers go first, a stale task without a marker is reported if
      its marker can be stored, a fresh one with a marker loses it if it can be cleared. */
  ghost function Passed(tasks: seq<Task>, n: nat, alerted: set<int>, lastSuccess: map<int, int>, now: int, w: World): Outcome
    requires n <= |tasks|
  {
    if n == 0 then Outcome(alerted, [])
    else
      var t := tasks[n - 1];
      var was := Passed(tasks, n - 1, alerted, lastSuccess, now, w);
      var left := was.markers - w.recovered(n - 1);
      if Stale(t, lastSuccess, now) then
        if t.id !in alerted && w.markOk(t.id) then Outcome(left + {t.id}, was.fired + [t.id])
        else Outcome(left, was.fired)
      else if t.id in alerted && w.clearOk(t.id) then Outcome(left - {t.id}, was.fired)
      else Outcome(left, was.fired)
  }

  /** What workers clear in the steps from one to another. */
  ghost function Cleaned(w: World, first: nat, last: nat): set<int> {
    set n: nat, id | first <= n < last && id in w.recovered(n) :: id
  }

  ghost function CheckOutcome(tasks: seq<Task>, alerted: set<int>, lastSuccess: map<int, int>, now: int, w: World): Outcome {
    var passed := Passed(tasks, |tasks|, alerted, lastSuccess, now, w);
    var gone := alerted - Ids(tasks);
    Outcome(passed.markers - (set id | id in gone && w.clearOk(id)) - Cleaned(w, |tasks|, |tasks| + |gone|), passed.fired)
  }

  lemma CleanedMore(w: World, first: nat, last: nat)
    requires first < last
    ensures Cleaned(w, first, last) == w.recovered(first) + Cleaned(w, first + 1, last)
  {
    forall id | id in Cleaned(w, first, last) ensures id in w.recovered(first) + Cleaned(w, first + 1, last) {
      var n: nat :| first <= n < last && id in w.recovered(n);
    }
    forall id | id in w.recovered(first) + Cleaned(w, first + 1, last) ensures id in Cleaned(w, first, last) {
      if id !in w.recovered(first) {
        var n: nat :| first + 1 <= n < last && id in w.recovered(n);
      }
    }
  }

  lemma QuietClears(w: World, gone: set<int>)
    requires Quiet(w)
    ensures (set id | id in gone && w.clearOk(id)) == gone
  {
    forall id | id in gone ensures w.clearOk(id) { }
  }

  lemma PassedNext(tasks: seq<Task>, n: nat, alerted: set<int>, lastSuccess: map<int, int>, now: int, w: World,
                   markers: set<int>, fired: seq<int>)
    requires n < |tasks| && Outcome(markers, fired) == Passed(tasks, n, alerted, lastSuccess, now, w)
    ensures var t := tasks[n]; var left := markers - w.recovered(n);
            Passed(tasks, n + 1, alerted, lastSuccess, now, w) ==
            if Stale(t, lastSuccess, now) && t.id !in alerted && w.markOk(t.id) then Outcome(left + {t.id}, fired + [t.id])
            else if !Stale(t, lastSuccess, now) && t.id in alerted && w.clearOk(t.id) then Outcome(left - {t.id}, fired)
            else Outcome(left, fired)
  {
  }

  /** Where a check stands after n tasks. */
  ghost predicate Midway(tasks: seq<Task>, n: nat, alerted: set<int>, lastSuccess: map<int, int>, now: int, w: World,
                         before: seq<Entry>, markers: set<int>, log: seq<Entry>, fired: seq<int>, live: set<int>)
    requires n <= |tasks|
  {
    live == Ids(tasks[..n])
    && CheckFits(tasks, n, alerted, lastSuccess, now, Quiet(w), markers, fired)
    && Outcome(markers, fired) == Passed(tasks, n, alerted, lastSuccess, now, w)
    && Reports(before, log, fired)
    && forall a, b | 0 <= a < b < |fired| :: fired[a] != fired[b]
  }

  lemma MidwayStarts(tasks: seq<Task>, alerted: set<int>, lastSuccess: map<int, int>, now: int, w: World, log: seq<Entry>)
    ensures Midway(tasks, 0, alerted, lastSuccess, now, w, log, alerted, log, [], {})
  {
    CheckStart(tasks, alerted, lastSuccess, now, Quiet(w));
    NothingYet(log);
    hide CheckFits;
    hide Reports;
  }

  lemma MidwayEnds(tasks: seq<Task>, alerted: set<int>, lastSuccess: map<int, int>, now: int, w: World,
                   before: seq<Entry>, markers: set<int>, log: seq<Entry>, fired: seq<int>, live: set<int>)
    requires Midway(tasks, |tasks|, alerted, lastSuccess, now, w, before, markers, log, fired, live)
    ensures live == Ids(tasks) && Reports(before, log, fired)
    ensures Outcome(markers, fired) == Passed(tasks, |tasks|, alerted, lastSuccess, now, w)
    ensures forall a, b | 0 <= a < b < |fired| :: fired[a] != fired[b]
    ensures forall id | id in fired :: id in StaleIds(tasks, lastSuccess, now) - alerted
    ensures markers <= alerted + Members(fired)
    ensures Quiet(w) ==>
              markers - (alerted - Ids(tasks)) == StaleIds(tasks, lastSuccess, now)
              && fired == Newly(tasks, alerted, lastSuccess, now)
  {
    CheckEnd(tasks, alerted, lastSuccess, now, Quiet(w), markers, fired);
    assert tasks[..|tasks|] == tasks;
    hide CheckFits;
    hide Reports;
    hide Passed;
  }

  class Monitor {
    var markers: set<int>
    ghost var log: seq<Entry>

    ghost predicate Valid() reads this { Consistent(markers, log) }

    constructor ()
      ensures Valid() && markers == {} && log == []
    {
      markers, log := {}, [];
    }

    /** MarkWatchdogAlerted: the task is reported only when the write worked. */
    method Mark(id: int)
      requires Valid() && id !in markers
      modifies this
      ensures Valid() && markers == old(markers) + {id} && log == old(log) + [Fired(id)]
    {
      AlternatesSnoc(log, Fired(id));
      markers, log := markers + {id}, log + [Fired(id)];
    }

    /** ClearWatchdogAlert: deleting an absent row does nothing. */
    method Clear(id: int)
      requires Valid()
      modifies this
      ensures Valid() && markers == old(markers) - {id}
      ensures log == if id in old(markers) then old(log) + [Cleared(id)] else old(log)
      ensures old(log) <= log && forall e | e in log[|old(log)|..] :: e.Cleared?
    {
      if id in markers {
        AlternatesSnoc(log, Cleared(id));
        markers, log := markers - {id}, log + [Cleared(id)];
      }
    }

    /** Pool.recovery for each of these tasks: a success closes the episode at once. */
    method Recover(ids: set<int>)
      requires Valid()
      modifies this
      ensures Valid() && markers == old(markers) - ids
      ensures ids == {} ==> log == old(log)
      ensures old(log) <= log && forall e | e in log[|old(log)|..] :: e.Cleared? && e.task in ids
    {
      hide Consistent;
      var todo := ids;
      while todo != {}
        invariant todo <= ids && Valid() && markers == old(markers) - (ids - todo)
        invariant old(log) <= log
        invariant ids == {} ==> log == old(log)
        invariant forall e | e in log[|old(log)|..] :: e.Cleared? && e.task in ids
        decreases todo
      {
        NonEmpty(todo);
        var id :| id in todo;
        todo := todo - {id};
        Clear(id);
      }
    }

    /** Check: report what is newly stale, close what recovered, drop markers of unwatched tasks. */
    method Check(tasks: seq<Task>, lastSuccess: map<int, int>, now: int, w: World) returns (fired: seq<int>)
      requires Valid()
      requires forall i, j | 0 <= i < j < |tasks| :: tasks[i].id != tasks[j].id
      modifies this
      ensures Valid()
      ensures Reports(old(log), log, fired)
      ensures forall i, j | 0 <= i < j < |fired| :: fired[i] != fired[j]
      ensures forall id | id in fired :: id in StaleIds(tasks, lastSuccess, now) - old(markers)
      ensures markers <= old(markers) + Members(fired)
      ensures Outcome(markers, fired) == CheckOutcome(tasks, old(markers), lastSuccess, now, w)
      ensures Quiet(w) ==>
                markers == StaleIds(tasks, lastSuccess, now)
                && fired == Newly(tasks, old(markers), lastSuccess, now)
    {
      hide Consistent;
      var alerted := markers;
      var live: set<int> := {};
      fired := [];
      ghost var before := log;
      MidwayStarts(tasks, alerted, lastSuccess, now, w, log);
      hide Midway;
      for i := 0 to |tasks|
        invariant Valid() && Midway(tasks, i, alerted, lastSuccess, now, w, before, markers, log, fired, live)
      {
        fired := Visit(tasks, i, alerted, lastSuccess, now, w, fired, before, live);
        live := live + {tasks[i].id};
      }
      MidwayEnds(tasks, alerted, lastSuccess, now, w, before, markers, log, fired, live);
      ghost var was := log;
      DropUnwatched(alerted - live, |tasks|, w);
      hide Reports;
      hide Passed;
      ReportsNoMore(before, was, fired, log);
    }

    /** One task of Check. */
    method Visit(tasks: seq<Task>, i: nat, alerted: set<int>, lastSuccess: map<int, int>, now: int, w: World,
                 fired: seq<int>, ghost before: seq<Entry>, ghost live: set<int>)
      returns (fired': seq<int>)
      requires Valid() && i < |tasks| && Midway(tasks, i, alerted, lastSuccess, now, w, before, markers, log, fired, live)
      requires forall i, j | 0 <= i < j < |tasks| :: tasks[i].id != tasks[j].id
      modifies this
      ensures Valid()
      ensures Midway(tasks, i + 1, alerted, lastSuccess, now, w, before, markers, log, fired', live + {tasks[i].id})
    {
      hide Consistent;
      hide CheckFits;
      hide Reports;
      hide Passed;
      hide Ids;
      hide Stale;
      ghost var was, start := log, markers;
      var t := tasks[i];
      fired' := fired;
      hide Quiet;
      Recover(w.recovered(i));
      ReportsNoMore(before, was, fired, log);
      PassedNext(tasks, i, alerted, lastSuccess, now, w, start, fired);
      CheckStep(tasks, i, alerted, lastSuccess, now, Quiet(w), start, markers, fired);
      was := log;
      if Stale(t, lastSuccess, now) && t.id !in alerted {
        if w.markOk(t.id) {
          Mark(t.id);
          ReportsOne(before, was, fired, t.id);
          fired' := fired + [t.id];
        }
      } else if !Stale(t, lastSuccess, now) && t.id in alerted {
        if w.clearOk(t.id) {
          Clear(t.id);
          ReportsNoMore(before, was, fired, log);
        }
      }
    }

    /** The last loop of Check: markers of tasks that are no longer enabled go. */
    method DropUnwatched(gone: set<int>, step: nat, w: World)
      requires Valid()
      modifies this
      ensures Valid() && markers <= old(markers)
      ensures old(log) <= log && forall e | e in log[|old(log)|..] :: e.Cleared?
      ensures markers == old(markers) - (set id | id in gone && w.clearOk(id)) - Cleaned(w, step, step + |gone|)
      ensures Quiet(w) ==> markers == old(markers) - gone
    {
      hide Consistent;
      var todo := gone;
      while todo != {}
        invariant todo <= gone && Valid() && markers <= old(markers)
        invariant old(log) <= log && forall e | e in log[|old(log)|..] :: e.Cleared?
        invariant markers ==
                  old(markers) - (set id | id in gone - todo && w.clearOk(id)) - Cleaned(w, step + |todo|, step + |gone|)
        invariant |todo| <= |gone|
        decreases todo
      {
        NonEmpty(todo);
        var id :| id in todo;
        todo := todo - {id};
        CleanedMore(w, step + |todo|, step + |gone|);
        Recover(w.recovered(step + |todo|));
        if w.clearOk(id) { Clear(id); }
      }
      if Quiet(w) {
        QuietClears(w, gone);
      }
    }
  }

  lemma NothingYet(log: seq<Entry>)
    ensures Reports(log, log, [])
  {
  }

  // ---- many checks ------------------------------------------------------------------------

  /** What happens to the watchdog over time: its checks, and successes reported by workers in between.
      Pausing a task leaves it out of the next check's tasks. */
  datatype Op = DoCheck(tasks: seq<Task>, lastSuccess: map<int, int>, now: int, w: World) | DoRecover(ids: set<int>)

  ghost predicate DistinctTasks(op: Op) {
    op.DoCheck? ==> forall i, j | 0 <= i < j < |op.tasks| :: op.tasks[i].id != op.tasks[j].id
  }

  /** marks[i]..marks[i + 1] is what operation i wrote, and it reported exactly reports[i]. */
  ghost predicate Written(log: seq<Entry>, marks: seq<nat>, reports: seq<seq<int>>) {
    |marks| == |reports| + 1 && marks[|reports|] == |log|
    && (forall i, j | 0 <= i <= j < |marks| :: marks[i] <= marks[j] <= |log|)
    && (forall i | 0 <= i < |reports| :: FiredIn(log[marks[i]..marks[i + 1]]) == reports[i])
  }

  lemma WrittenNext(log: seq<Entry>, marks: seq<nat>, reports: seq<seq<int>>, log': seq<Entry>, fired: seq<int>)
    requires Written(log, marks, reports) && Reports(log, log', fired)
    ensures Written(log', marks + [|log'|], reports + [fired])
  {
    var marks', reports' := marks + [|log'|], reports + [fired];
    forall i | 0 <= i < |reports'| ensures FiredIn(log'[marks'[i]..marks'[i + 1]]) == reports'[i] {
      if i < |reports| {
        assert log'[..|log|] == log;
        assert log'[marks[i]..marks[i + 1]] == log[marks[i]..marks[i + 1]];
      } else {
        assert log'[|log|..|log'|] == log'[|log|..];
      }
    }
  }

  /** The markers after a run, and what each of its checks reported. */
  ghost function Played(ops: seq<Op>): (set<int>, seq<seq<int>>) {
    if ops == [] then ({}, [])
    else
      var was, op := Played(ops[..|ops| - 1]), ops[|ops| - 1];
      match op
      case DoCheck(tasks, lastSuccess, now, w) =>
        var outcome := CheckOutcome(tasks, was.0, lastSuccess, now, w);
        (outcome.markers, was.1 + [outcome.fired])
      case DoRecover(ids) => (was.0 - ids, was.1 + [[]])
  }

  method Perform(m: Monitor, op: Op) returns (fired: seq<int>)
    requires m.Valid() && DistinctTasks(op)
    modifies m
    ensures m.Valid() && Reports(old(m.log), m.log, fired)
    ensures Outcome(m.markers, fired) ==
            match op
            case DoCheck(tasks, lastSuccess, now, w) => CheckOutcome(tasks, old(m.markers), lastSuccess, now, w)
            case DoRecover(ids) => Outcome(old(m.markers) - ids, [])
  {
    hide Consistent;
    hide CheckOutcome;
    ghost var was := m.log;
    match op {
      case DoCheck(tasks, lastSuccess, now, w) =>
        fired := m.Check(tasks, lastSuccess, now, w);
      case DoRecover(ids) =>
        fired := [];
        m.Recover(ids);
        NothingYet(was);
        ReportsNoMore(was, was, [], m.log);
    }
  }

  lemma EmptyLogMeansNoMarkers(m: Monitor)
    requires m.Valid() && m.log == []
    ensures m.markers == {}
  {
    forall id ensures id !in m.markers { }
  }

  /** A run of checks and recoveries: what each check reported, and where its writes stand in the log. */
  method Play(m: Monitor, ops: seq<Op>) returns (reports: seq<seq<int>>, ghost marks: seq<nat>)
    requires m.Valid() && m.log == [] && forall i | 0 <= i < |ops| :: DistinctTasks(ops[i])
    modifies m
    ensures m.Valid() && |reports| == |ops| && Written(m.log, marks, reports)
    ensures (m.markers, reports) == Played(ops)
    ensures forall i, j, id | 0 <= i < j < |reports| && id in reports[i] && id in reports[j] ::
              ClearedBetween(m.log, marks, i, j, id)
  {
    EmptyLogMeansNoMarkers(m);
    hide Consistent;
    hide CheckOutcome;
    reports, marks := [], [0];
    for n := 0 to |ops|
      invariant m.Valid() && |reports| == n && Written(m.log, marks, reports)
      invariant (m.markers, reports) == Played(ops[..n])
    {
      assert DistinctTasks(ops[n]);
      assert ops[..n + 1][..n] == ops[..n] && ops[..n + 1][n] == ops[n];
      ghost var was := m.log;
      var fired := Perform(m, ops[n]);
      WrittenNext(was, marks, reports, m.log, fired);
      reports, marks := reports + [fired], marks + [|m.log|];
    }
    assert ops[..|ops|] == ops;
    forall i, j, id | 0 <= i < j < |reports| && id in reports[i] && id in reports[j]
      ensures ClearedBetween(m.log, marks, i, j, id)
    {
      ReportedTwice(m.log, marks, reports, i, j, id);
    }
  }

  /** The marker of id was cleared after operation i began and before operation j ended. */
  ghost predicate ClearedBetween(log: seq<Entry>, marks: seq<nat>, i: int, j: int, id: int)
    requires 0 <= i < j < |marks| - 1
  {
    exists k :: marks[i] <= k < marks[j + 1] && k < |log| && log[k] == Cleared(id)
  }

  /** Two checks that report the same task have its marker cleared between the reports. */
  lemma ReportedTwice(log: seq<Entry>, marks: seq<nat>, reports: seq<seq<int>>, i: int, j: int, id: int)
    requires Alternates(log) && Written(log, marks, reports)
    requires 0 <= i < j < |reports| && id in reports[i] && id in reports[j]
    ensures ClearedBetween(log, marks, i, j, id)
  {
    var p := Place(log, marks, reports, i, id);
    var q := Place(log, marks, reports, j, id);
    NeverTwice(log, id, p, q);
    var k :| p < k < q && log[k] == Cleared(id);
    assert marks[i] <= k < marks[j + 1];
  }

  lemma Place(log: seq<Entry>, marks: seq<nat>, reports: seq<seq<int>>, i: int, id: int) returns (p: nat)
    requires Written(log, marks, reports) && 0 <= i < |reports| && id in reports[i]
    ensures marks[i] <= p < marks[i + 1] <= |log| && log[p] == Fired(id)
  {
    var part := log[marks[i]..marks[i + 1]];
    FiredInHas(part, id);
    var k :| 0 <= k < |part| && part[k] == Fired(id);
    p := marks[i] + k;
  }

  lemma NonEmpty(s: set<int>)
    ensures s != {} ==> exists x :: x in s
  {
    if forall x :: x !in s { assert s == {}; }
  }

}
