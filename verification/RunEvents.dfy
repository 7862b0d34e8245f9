// What a task's channels are told about its runs: failures, interruptions, stale backups, and the one
// recovery that answers them (internal/core/runevents.go, internal/core/watchdog.go,
// internal/store/sqlite/alert.go, internal/store/sqlite/watchdog.go).
//
// Workers and the watchdog run side by side, so every statement and every delivery of a notice is a
// step, and whoever is between two steps has a program counter.

module RunEvents {

  datatype Notice = Success | Failure | Interrupted | Stale | Recovered

  predicate Opens(n: Notice) { n == Failure || n == Interrupted || n == Stale }

  /** Trouble was reported and no recovery since. */
  predicate Pending(log: seq<Notice>) {
    log != [] && (Opens(log[|log| - 1]) || (log[|log| - 1] != Recovered && Pending(log[..|log| - 1])))
  }

  /** Every recovery answers something. */
  ghost predicate Answering(log: seq<Notice>) {
    forall i | 0 <= i < |log| && log[i] == Recovered :: Pending(log[..i])
  }

  lemma PendingSnoc(log: seq<Notice>, n: Notice)
    ensures Pending(log + [n]) <==> Opens(n) || (n != Recovered && Pending(log))
    ensures Answering(log + [n]) <==> Answering(log) && (n == Recovered ==> Pending(log))
  {
    var l := log + [n];
    assert l[..|log|] == log;
    forall i | 0 <= i < |log| ensures l[..i] == log[..i] && l[i] == log[i] { }
    if Answering(l) {
      forall i | 0 <= i < |log| && log[i] == Recovered ensures Pending(log[..i]) { assert l[i] == Recovered; }
    }
    assert l[|log|] == n;
  }

  lemma {:induction false} OpenedSince(log: seq<Notice>, i: nat)
    requires i < |log| && log[i] == Recovered && Pending(log)
    ensures exists k :: i < k < |log| && Opens(log[k])
  {
    if !Opens(log[|log| - 1]) {
      var init := log[..|log| - 1];
      assert init[i] == log[i];
      OpenedSince(init, i);
      var k :| i < k < |init| && Opens(init[k]);
      assert Opens(log[k]);
    }
  }

  /** Between two recoveries something was reported. */
  lemma OneRecoveryPerEpisode(log: seq<Notice>, i: nat, j: nat)
    requires Answering(log) && i < j < |log| && log[i] == Recovered && log[j] == Recovered
    ensures exists k :: i < k < j && Opens(log[k])
  {
    assert log[..j][i] == log[i];
    OpenedSince(log[..j], i);
    var k :| i < k < j && Opens(log[..j][k]);
    assert Opens(log[k]);
  }

  // ---- one task's episodes, step by step -------------------------------------------------------------

  /** Where a worker stands with the end of a run; failed and stale are what a success has taken so far. */
  datatype Pc =
    | Succeeded
    | Closing
    | Listing(failed: bool)
    | Clearing(failed: bool)
    | Ending(failed: bool, stale: bool)
    | Failed
    | Opening
    | Cut
    | CutStored

  /** Where the watchdog stands with the task; alerted is whether its list showed the marker. */
  datatype Watch = Idle | Listed(alerted: bool) | Marked

  /** failure: the episode in alert_state; marker: the one in watchdog_alert; log: what was told. */
  datatype State = State(failure: bool, marker: bool, pcs: map<nat, Pc>, watch: Watch, log: seq<Notice>)

  function Init(): State { State(false, false, map[], Idle, []) }

  datatype Event =
    | Start(w: nat, pc: Pc)
    | TellSuccess(w: nat)
    | Close(w: nat, ok: bool)
    | List(w: nat, ok: bool)
    | Clear(w: nat, ok: bool)
    | End(w: nat)
    | TellFailure(w: nat)
    | Open(w: nat, ok: bool)
    | TellCut(w: nat)
    | CheckLists
    | CheckMarks(ok: bool)
    | CheckClears(ok: bool)
    | CheckPasses
    | CheckTells
    | Restart

  predicate At(s: State, w: nat, pc: Pc) { w in s.pcs && s.pcs[w] == pc }

  predicate Enabled(s: State, e: Event) {
    match e
    case Start(w, pc) => w !in s.pcs && pc in {Succeeded, Failed, Cut}
    case TellSuccess(w) => At(s, w, Succeeded)
    case Close(w, _) => At(s, w, Closing)
    case List(w, _) => w in s.pcs && s.pcs[w].Listing?
    case Clear(w, _) => w in s.pcs && s.pcs[w].Clearing?
    case End(w) => w in s.pcs && s.pcs[w].Ending?
    case TellFailure(w) => At(s, w, Failed)
    case Open(w, _) => At(s, w, Opening) || At(s, w, Cut)
    case TellCut(w) => At(s, w, CutStored)
    case CheckLists => s.watch == Idle
    case CheckMarks(_) => s.watch == Listed(false)
    case CheckClears(_) => s.watch == Listed(true)
    case CheckPasses => s.watch.Listed?
    case CheckTells => s.watch == Marked
    case Restart => true
  }

  /** The notice a step delivers, if it delivers one. */
  function Told(s: State, e: Event): seq<Notice>
    requires Enabled(s, e)
  {
    match e
    case TellSuccess(_) => [Success]
    case End(w) => if Holds(s.pcs[w]) then [Recovered] else []
    case TellFailure(_) => [Failure]
    case TellCut(_) => [Interrupted]
    case CheckTells => [Stale]
    case _ => []
  }

  function To(s: State, w: nat, pc: Pc): map<nat, Pc> { s.pcs[w := pc] }

  /** Everything a step changes but the log. */
  function Move(s: State, e: Event): State
    requires Enabled(s, e)
  {
    match e
    case Start(w, pc) => s.(pcs := To(s, w, pc))
    case TellSuccess(w) => s.(pcs := To(s, w, Closing))
    case Close(w, ok) => s.(failure := s.failure && !ok, pcs := To(s, w, Listing(ok && s.failure)))
    case List(w, ok) =>
      s.(pcs := To(s, w, if ok && s.marker then Clearing(s.pcs[w].failed) else Ending(s.pcs[w].failed, false)))
    case Clear(w, ok) => s.(marker := s.marker && !ok, pcs := To(s, w, Ending(s.pcs[w].failed, true)))
    case End(w) => s.(pcs := s.pcs - {w})
    case TellFailure(w) => s.(pcs := To(s, w, Opening))
    case Open(w, ok) =>
      s.(failure := s.failure || ok, pcs := if s.pcs[w] == Cut then To(s, w, CutStored) else s.pcs - {w})
    case TellCut(w) => s.(pcs := s.pcs - {w})
    case CheckLists => s.(watch := Listed(s.marker))
    case CheckMarks(ok) => s.(marker := s.marker || ok, watch := if ok then Marked else Idle)
    case CheckClears(ok) => s.(marker := s.marker && !ok, watch := Idle)
    case CheckPasses => s.(watch := Idle)
    case CheckTells => s.(watch := Idle)
    case Restart => s.(pcs := map[], watch := Idle)
  }

  function Step(s: State, e: Event): State
    requires Enabled(s, e)
  {
    Move(s, e).(log := s.log + Told(s, e))
  }

  // ---- what is stored against what was told ----------------------------------------------------------

  /** A success that has taken something and will report a recovery. */
  predicate Holds(pc: Pc) {
    match pc
    case Listing(failed) => failed
    case Clearing(_) => true
    case Ending(failed, stale) => failed || stale
    case _ => false
  }

  ghost predicate Held(pcs: map<nat, Pc>) { exists w :: w in pcs && Holds(pcs[w]) }

  /** Something is stored, or in the hands of a success, for a recovery to come from. */
  ghost predicate Loose(s: State) { s.failure || s.marker || Held(s.pcs) }

  /** There is something to recover from and nothing told that it would answer. */
  ghost predicate Early(s: State) { Loose(s) && !Pending(s.log) }

  /** Trouble was told and there is nothing its recovery could come from. */
  ghost predicate Lost(s: State) { !Loose(s) && Pending(s.log) }

  predicate Recovers(s: State, e: Event) { e.End? && Enabled(s, e) && Holds(s.pcs[e.w]) }

  /** A recovery is reported and an episode stays stored: opened since, marked since, or not cleared. */
  predicate HalfClosed(s: State, e: Event) { Recovers(s, e) && (s.failure || s.marker) }

  /** A recovery is reported while another success holds one as well. */
  ghost predicate Shared(s: State, e: Event) { Recovers(s, e) && Held(s.pcs - {e.w}) }

  predicate Stores(e: Event) { (e.Open? && e.ok) || (e.CheckMarks? && e.ok) }

  /** An episode is stored and what it is about has not been told, or was answered already. */
  ghost predicate Ahead(s: State, e: Event) {
    Stores(e) && !Loose(s) && !Pending(s.log)
  }

  predicate TellsTrouble(e: Event) { e.TellFailure? || e.TellCut? || e.CheckTells? }

  /** The last there was to recover from is dropped: a marker that a check clears without a notice, or what
      a success held when the process ended. */
  ghost predicate Forgets(s: State, e: Event) {
    Loose(s) && !s.failure
    && ((e == CheckClears(true) && !Held(s.pcs)) || (e == Restart && !s.marker))
  }

  lemma HeldWithout(pcs: map<nat, Pc>, w: nat)
    requires w in pcs
    ensures Held(pcs) <==> Holds(pcs[w]) || Held(pcs - {w})
  {
    if Held(pcs) && !Holds(pcs[w]) {
      var v :| v in pcs && Holds(pcs[v]);
      assert v in pcs - {w} && Holds((pcs - {w})[v]);
    }
    if Held(pcs - {w}) {
      var v :| v in pcs - {w} && Holds((pcs - {w})[v]);
      assert v in pcs && Holds(pcs[v]);
    }
  }

  lemma HeldTo(pcs: map<nat, Pc>, w: nat, pc: Pc)
    ensures Held(pcs[w := pc]) <==> Holds(pc) || Held(pcs - {w})
  {
    HeldWithout(pcs[w := pc], w);
    assert pcs[w := pc] - {w} == pcs - {w};
  }

  /** What a worker's step can do to what there is to recover from. */
  lemma WorkerLoose(s: State, e: Event)
    requires Enabled(s, e) && !Recovers(s, e) && !e.CheckClears? && e != Restart
    ensures Loose(Move(s, e)) <==> Loose(s) || Stores(e)
  {
    if e.Start? {
      HeldTo(s.pcs, e.w, e.pc);
      assert s.pcs - {e.w} == s.pcs;
    } else if !e.CheckLists? && !e.CheckMarks? && !e.CheckPasses? && !e.CheckTells? {
      HeldWithout(s.pcs, e.w);
      var pcs := Move(s, e).pcs;
      if e.w in pcs { HeldTo(s.pcs, e.w, pcs[e.w]); }
    }
  }

  /** What a step leaves to recover from. */
  lemma LooseStep(s: State, e: Event)
    requires Enabled(s, e)
    ensures Loose(Step(s, e)) <==>
            if Recovers(s, e) then HalfClosed(s, e) || Shared(s, e) else Stores(e) || (Loose(s) && !Forgets(s, e))
  {
    if Recovers(s, e) {
      HeldWithout(s.pcs, e.w);
    } else if !e.CheckClears? && e != Restart {
      WorkerLoose(s, e);
    }
  }

  lemma TroubleForgetsNothing(s: State, e: Event)
    requires Enabled(s, e) && (TellsTrouble(e) || Recovers(s, e))
    ensures !Stores(e) && !Forgets(s, e) && (Recovers(s, e) ==> Loose(s))
  {
  }

  /** Something to recover from is ahead of what was told exactly after one of three: a recovery that left an
      episode stored, one that another success holds as well, or an episode stored before it was told. */
  lemma EarlyTurnsOn(s: State, e: Event)
    requires Enabled(s, e) && !Early(s)
    ensures Early(Step(s, e)) <==> HalfClosed(s, e) || Shared(s, e) || Ahead(s, e)
  {
    Follows(s, e);
    LooseStep(s, e);
    if TellsTrouble(e) || Recovers(s, e) { TroubleForgetsNothing(s, e); }
    hide Step;
    hide Loose;
    hide Pending;
  }

  /** How a step moves the log. */
  lemma TellsOne(s: State, e: Event)
    requires Enabled(s, e)
    ensures Told(s, e) == [] || exists n :: Told(s, e) == [n]
    ensures TellsTrouble(e) <==> Told(s, e) != [] && Opens(Told(s, e)[0])
    ensures Recovers(s, e) <==> Told(s, e) == [Recovered]
  {
    if Told(s, e) != [] { assert Told(s, e) == [Told(s, e)[0]]; }
  }

  lemma Follows(s: State, e: Event)
    requires Enabled(s, e)
    ensures Pending(Step(s, e).log) <==> TellsTrouble(e) || (!Recovers(s, e) && Pending(s.log))
    ensures Answering(Step(s, e).log) <==> Answering(s.log) && !(Recovers(s, e) && Early(s))
  {
    TellsOne(s, e);
    if Recovers(s, e) { HeldWithout(s.pcs, e.w); }
    hide Told;
    hide Move;
    if Told(s, e) == [] {
      assert s.log + Told(s, e) == s.log;
    } else {
      var n :| Told(s, e) == [n];
      PendingSnoc(s.log, n);
    }
    hide Pending;
    hide Answering;
  }

  /** Even: there is something to recover from exactly if trouble was told and not answered. */
  datatype Match = Even | IsEarly | IsLost

  ghost function MatchOf(s: State): Match {
    if Early(s) then IsEarly else if Lost(s) then IsLost else Even
  }

  /** The same, followed step by step from what is stored and who holds what, without the log. */
  ghost function Next(m: Match, s: State, e: Event): Match {
    if Recovers(s, e) then
      if HalfClosed(s, e) || Shared(s, e) then IsEarly else Even
    else if TellsTrouble(e) then
      if Loose(s) then Even else IsLost
    else if Stores(e) && !Loose(s) then
      if m == IsLost then Even else IsEarly
    else if Forgets(s, e) then
      if m == IsEarly then Even else IsLost
    else m
  }

  lemma MatchStep(s: State, e: Event)
    requires Enabled(s, e)
    ensures MatchOf(Step(s, e)) == Next(MatchOf(s), s, e)
  {
    Follows(s, e);
    LooseStep(s, e);
    if TellsTrouble(e) || Recovers(s, e) { TroubleForgetsNothing(s, e); }
    hide Step;
    hide Loose;
    hide Pending;
  }

  // ---- runs ---------------------------------------------------------------------------------------------

  predicate IsRun(s: State, es: seq<Event>)
    decreases |es|
  {
    es == [] || (Enabled(s, es[0]) && IsRun(Step(s, es[0]), es[1..]))
  }

  function After(s: State, es: seq<Event>): State
    requires IsRun(s, es)
    decreases |es|
  {
    if es == [] then s else After(Step(s, es[0]), es[1..])
  }

  /** No recovery is reported while early. */
  ghost predicate NeverEarly(m: Match, s: State, es: seq<Event>)
    requires IsRun(s, es)
    decreases |es|
  {
    es == [] || (!(Recovers(s, es[0]) && m == IsEarly) && NeverEarly(Next(m, s, es[0]), Step(s, es[0]), es[1..]))
  }

  /** Over any interleaving every recovery answers something told since the one before if and only if none
      was reported while early. */
  lemma {:induction false} RecoveriesAnswerExactly(s: State, es: seq<Event>)
    requires IsRun(s, es)
    ensures Answering(After(s, es).log) <==> Answering(s.log) && NeverEarly(MatchOf(s), s, es)
    decreases |es|
  {
    hide Step;
    hide Answering;
    hide Early;
    hide Next;
    if es != [] {
      Follows(s, es[0]);
      MatchStep(s, es[0]);
      RecoveriesAnswerExactly(Step(s, es[0]), es[1..]);
    }
  }

  /** None of the three causes happens. */
  ghost predicate Orderly(s: State, es: seq<Event>)
    requires IsRun(s, es)
    decreases |es|
  {
    es == []
    || (!HalfClosed(s, es[0]) && !Shared(s, es[0]) && !Ahead(s, es[0]) && Orderly(Step(s, es[0]), es[1..]))
  }

  /** Without them no recovery is ever ahead. */
  lemma {:induction false} OrderlyRunsAnswer(s: State, es: seq<Event>)
    requires IsRun(s, es) && Orderly(s, es) && !Early(s)
    ensures NeverEarly(MatchOf(s), s, es) && !Early(After(s, es))
    decreases |es|
  {
    hide Step;
    hide Early;
    hide HalfClosed;
    hide Shared;
    hide Ahead;
    hide Next;
    if es != [] {
      EarlyTurnsOn(s, es[0]);
      MatchStep(s, es[0]);
      OrderlyRunsAnswer(Step(s, es[0]), es[1..]);
    }
  }

  lemma {:induction false} RunSnoc(s: State, es: seq<Event>, e: Event)
    requires IsRun(s, es) && Enabled(After(s, es), e)
    ensures IsRun(s, es + [e]) && After(s, es + [e]) == Step(After(s, es), e)
    decreases |es|
  {
    if es == [] {
      assert (es + [e])[1..] == [];
    } else {
      RunSnoc(Step(s, es[0]), es[1..], e);
      assert (es + [e])[1..] == es[1..] + [e];
    }
  }

  // ---- what can happen ------------------------------------------------------------------------------------

  /** A run with one more step. */
  lemma More(start: State, es: seq<Event>, s: State, e: Event) returns (es': seq<Event>, s': State)
    requires IsRun(start, es) && After(start, es) == s && Enabled(s, e)
    ensures IsRun(start, es') && After(start, es') == s' == Step(s, e) && es' == es + [e]
  {
    RunSnoc(start, es, e);
    es', s' := es + [e], Step(s, e);
  }

  /** A success up to its look at the markers. */
  lemma SuccessLooks(start: State, es: seq<Event>, s: State, w: nat, closed: bool, listed: bool)
    returns (es': seq<Event>, s': State)
    requires IsRun(start, es) && After(start, es) == s && w !in s.pcs
    ensures IsRun(start, es') && After(start, es') == s'
    ensures var failed := closed && s.failure;
            s' == State(s.failure && !closed, s.marker,
                        s.pcs[w := if listed && s.marker then Clearing(failed) else Ending(failed, false)],
                        s.watch, s.log + [Success])
  {
    hide IsRun;
    hide After;
    es', s' := More(start, es, s, Start(w, Succeeded));
    es', s' := More(start, es', s', TellSuccess(w));
    es', s' := More(start, es', s', Close(w, closed));
    es', s' := More(start, es', s', List(w, listed));
  }

  /** A success from its notice to its end, if nothing comes between its steps. */
  lemma SuccessRun(start: State, es: seq<Event>, s: State, w: nat, closed: bool, listed: bool, cleared: bool)
    returns (es': seq<Event>, s': State)
    requires IsRun(start, es) && After(start, es) == s && w !in s.pcs
    ensures IsRun(start, es') && After(start, es') == s'
    ensures var recovered := (closed && s.failure) || (listed && s.marker);
            s' == State(s.failure && !closed, s.marker && !(listed && cleared), s.pcs, s.watch,
                        s.log + [Success] + if recovered then [Recovered] else [])
  {
    hide IsRun;
    hide After;
    es', s' := SuccessLooks(start, es, s, w, closed, listed);
    if listed && s.marker { es', s' := More(start, es', s', Clear(w, cleared)); }
    es', s' := More(start, es', s', End(w));
    assert s'.pcs == s.pcs;
    assert s.log + [Success] + [] == s.log + [Success];
  }

  /** A check stores the marker; before it delivers the notice a success has reported the recovery. */
  lemma RecoveryBeforeNotice() returns (es: seq<Event>, s: State)
    ensures IsRun(Init(), es) && After(Init(), es) == s
    ensures s == State(false, false, map[], Idle, [Success, Recovered, Stale]) && !Answering(s.log)
  {
    var start := Init();
    hide IsRun;
    hide After;
    es, s := NoSteps();
    es, s := More(start, es, s, CheckLists);
    es, s := More(start, es, s, CheckMarks(true));
    es, s := SuccessRun(start, es, s, 0, true, true, true);
    es, s := More(start, es, s, CheckTells);
    assert s.log == [Success, Recovered, Stale];
    assert s.log[..1] == [Success] && s.log[1] == Recovered;
    assert !Pending([Success]) by { assert [Success][..0] == []; }
  }

  /** Two successes of a task that list the marker before either clears it both report the recovery. */
  lemma TwoRecoveries() returns (es: seq<Event>, s: State)
    ensures IsRun(Init(), es) && After(Init(), es) == s
    ensures s.log == [Stale, Success, Success, Recovered, Recovered] && !Answering(s.log)
  {
    var start := Init();
    hide IsRun;
    hide After;
    es, s := NoSteps();
    es, s := More(start, es, s, CheckLists);
    es, s := More(start, es, s, CheckMarks(true));
    es, s := More(start, es, s, CheckTells);
    es, s := BothList(es, s);
    es, s := More(start, es, s, Clear(0, true));
    es, s := More(start, es, s, Clear(1, true));
    es, s := More(start, es, s, End(0));
    es, s := More(start, es, s, End(1));
    assert s.log == [Stale, Success, Success, Recovered, Recovered];
    RecoveredTwice(s.log);
  }

  lemma BothList(es: seq<Event>, s: State) returns (es': seq<Event>, s': State)
    requires IsRun(Init(), es) && After(Init(), es) == s == State(false, true, map[], Idle, [Stale])
    ensures IsRun(Init(), es') && After(Init(), es') == s'
    ensures s' == State(false, true, map[0 := Clearing(false), 1 := Clearing(false)], Idle, [Stale, Success, Success])
  {
    var start := Init();
    hide IsRun;
    hide After;
    es', s' := More(start, es, s, Start(0, Succeeded));
    es', s' := More(start, es', s', Start(1, Succeeded));
    es', s' := More(start, es', s', TellSuccess(0));
    es', s' := More(start, es', s', TellSuccess(1));
    es', s' := More(start, es', s', Close(0, true));
    es', s' := More(start, es', s', Close(1, true));
    es', s' := More(start, es', s', List(0, true));
    es', s' := More(start, es', s', List(1, true));
  }

  lemma NoSteps() returns (es: seq<Event>, s: State)
    ensures es == [] && s == Init() && IsRun(s, es) && After(s, es) == s
  {
    es, s := [], Init();
  }

  lemma RecoveredTwice(log: seq<Notice>)
    requires |log| >= 2 && log[|log| - 1] == log[|log| - 2] == Recovered
    ensures !Answering(log)
  {
    var i := |log| - 1;
    assert log[..i][i - 1] == Recovered;
    assert !Pending(log[..i]);
  }

  // ---- a worker and the watchdog, each on its own -----------------------------------------------------------

  /** One task's open episodes and what its channels were told. */
  class TaskAlerts {
    var failure: bool
    var marker: bool
    ghost var log: seq<Notice>

    /** Nobody is between two steps. */
    ghost function Now(): State reads this { State(failure, marker, map[], Idle, log) }

    constructor ()
      ensures Now() == Init()
    {
      failure, marker, log := false, false, [];
    }

    /** failedTerminally tells and stores, ReportInterrupted stores and tells; the notice goes out whether or
        not the episode is stored. */
    method Report(n: Notice, stored: bool) returns (ghost es: seq<Event>)
      requires n == Failure || n == Interrupted
      modifies this
      ensures Now() == State(old(failure) || stored, old(marker), map[], Idle, old(log) + [n])
      ensures IsRun(old(Now()), es) && After(old(Now()), es) == Now()
    {
      es := ReportRun(Now(), n, stored);
      if n == Failure {
        log := log + [n];
        if stored { failure := true; }
      } else {
        if stored { failure := true; }
        log := log + [n];
      }
    }

    /** The watchdog's check of the task. */
    method Check(stale: bool, ok: bool) returns (fired: bool, ghost es: seq<Event>)
      modifies this
      ensures fired <==> stale && ok && !old(marker)
      ensures Now() == State(old(failure), if ok then stale else old(marker), map[], Idle,
                             old(log) + if fired then [Stale] else [])
      ensures IsRun(old(Now()), es) && After(old(Now()), es) == Now()
    {
      es := CheckRun(Now(), stale, ok);
      var alerted := marker;
      fired := false;
      if stale && !alerted {
        if ok {
          marker := true;
          log, fired := log + [Stale], true;
        }
      } else if !stale && alerted {
        if ok { marker := false; }
      }
      assert old(log) + [] == old(log);
    }

    /** succeeded with recovery.  On its own a success reports a recovery without anything to answer exactly
        if what is stored is early, and with working calls it answers exactly what is to be answered unless
        what is stored is early or lost. */
    method Succeed(closed: bool, listed: bool, cleared: bool) returns (recovered: bool, ghost es: seq<Event>)
      modifies this
      ensures recovered <==> (closed && old(failure)) || (listed && old(marker))
      ensures Now() == State(old(failure) && !closed, old(marker) && !(listed && cleared), map[], Idle,
                             old(log) + [Success] + if recovered then [Recovered] else [])
      ensures IsRun(old(Now()), es) && After(old(Now()), es) == Now()
      ensures recovered ==> (Pending(old(log)) <==> MatchOf(old(Now())) != IsEarly)
      ensures closed && listed ==> ((recovered <==> Pending(old(log))) <==> MatchOf(old(Now())) == Even)
    {
      ghost var s;
      es, s := SuccessRun(Now(), [], Now(), 0, closed, listed, cleared);
      log := log + [Success];
      var failed := closed && failure;
      if closed { failure := false; }
      var stale := false;
      if listed && marker {
        stale := true;
        if cleared { marker := false; }
      }
      recovered := failed || stale;
      log := log + if recovered then [Recovered] else [];
    }
  }

  lemma ReportRun(s: State, n: Notice, stored: bool) returns (es: seq<Event>)
    requires s.pcs == map[] && (n == Failure || n == Interrupted)
    ensures IsRun(s, es) && After(s, es) == State(s.failure || stored, s.marker, map[], s.watch, s.log + [n])
  {
    var t;
    es, t := [], s;
    assert IsRun(s, es) && After(s, es) == t;
    hide IsRun;
    hide After;
    if n == Failure {
      es, t := More(s, es, t, Start(0, Failed));
      es, t := More(s, es, t, TellFailure(0));
      es, t := More(s, es, t, Open(0, stored));
    } else {
      es, t := More(s, es, t, Start(0, Cut));
      es, t := More(s, es, t, Open(0, stored));
      es, t := More(s, es, t, TellCut(0));
    }
  }

  lemma CheckRun(s: State, stale: bool, ok: bool) returns (es: seq<Event>)
    requires s.watch == Idle
    ensures IsRun(s, es)
    ensures After(s, es) == State(s.failure, if ok then stale else s.marker, s.pcs, Idle,
                                  s.log + if stale && ok && !s.marker then [Stale] else [])
  {
    var t;
    es, t := [], s;
    assert IsRun(s, es) && After(s, es) == t;
    hide IsRun;
    hide After;
    es, t := More(s, es, t, CheckLists);
    if stale && !s.marker {
      es, t := More(s, es, t, CheckMarks(ok));
      if ok { es, t := More(s, es, t, CheckTells); }
    } else if !stale && s.marker {
      es, t := More(s, es, t, CheckClears(ok));
    } else {
      es, t := More(s, es, t, CheckPasses);
    }
    assert t.log == s.log + if stale && ok && !s.marker then [Stale] else [];
  }

  /** A marker that cannot be cleared makes the next success report the same recovery again. */
  method StuckMarkerRepeats() returns (log: seq<Notice>)
    ensures log == [Stale, Success, Recovered, Success, Recovered] && !Answering(log)
  {
    hide IsRun;
    hide After;
    hide MatchOf;
    var t := new TaskAlerts();
    ghost var es;
    var fired, first, second;
    fired, es := t.Check(true, true);
    first, es := t.Succeed(true, true, false);
    second, es := t.Succeed(true, true, true);
    log := [Stale, Success, Recovered, Success, Recovered];
    assert t.log == log;
    var three, four := [Stale, Success, Recovered], [Stale, Success, Recovered, Success];
    assert log[..4] == four && four[..3] == three;
    assert !Pending(three) && !Pending(four);
    assert log[4] == Recovered;
  }
}
