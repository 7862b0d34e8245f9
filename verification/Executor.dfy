// One execution of a run: pipeline, artifact row, terminal status and the live stream
// (internal/core/executor.go).

module Executor {
  import opened RunQueue
  import opened LiveHub
  import PipeRun

  datatype ArtifactRow = ArtifactRow(runId: nat, size: int, checksum: string)

  /** What the outside world does to one execution: the messages logged in each phase, whether the
      plugins could be built, the expected size if known, the byte counts on the way, how the pipeline
      ended, and which of the store's writes went through. */
  datatype World = World(resolving: seq<string>, resolves: bool, expected: int, streaming: seq<string>, sent: seq<int>,
                         pipe: PipeRun.Outcome, recording: seq<string>, inserts: bool, recorded: seq<string>,
                         finishes: bool, records: bool, failure: string)

  predicate Succeeds(w: World) { w.resolves && w.pipe.Stored? && w.inserts && w.finishes }

  function Logs(phase: string, messages: seq<string>): seq<Body> {
    seq(|messages|, i requires 0 <= i < |messages| => Log(phase, messages[i]))
  }

  function Counts(sent: seq<int>): seq<Body> { seq(|sent|, i requires 0 <= i < |sent| => Bytes(sent[i])) }

  /** The phase an execution is in when it ends. */
  function LastPhase(w: World): string {
    if !w.resolves then "resolve" else if !w.pipe.Stored? then "stream" else "record"
  }

  function Resolving(w: World): seq<Body> { [Phase("resolve")] + Logs("resolve", w.resolving) }

  function Streamed(w: World): seq<Body> {
    (if w.expected > 0 then [Total(w.expected)] else [])
    + [Phase("stream")] + Logs("stream", w.streaming) + Counts(w.sent)
  }

  function Recording(w: World): seq<Body> { [Phase("record")] + Logs("record", w.recording) }

  function Recorded(w: World): seq<Body> { Logs("record", w.recorded) }

  /** What is shown of the steps, up to the first that failed. */
  function Steps(w: World): seq<Body> {
    if !w.resolves then Resolving(w)
    else if !w.pipe.Stored? then Resolving(w) + Streamed(w)
    else if !w.inserts then Resolving(w) + Streamed(w) + Recording(w)
    else Resolving(w) + Streamed(w) + Recording(w) + Recorded(w)
  }

  /** Everything a viewer of the run is shown, in order. */
  function Transcript(w: World): seq<Body> {
    Steps(w) + (if Succeeds(w) then [] else [Log(LastPhase(w), w.failure)])
    + [Status(if Succeeds(w) then "success" else "failed")]
  }

  /** The parts of a transcript hold no status and nothing the hub ignores. */
  lemma PartsAreShown(w: World)
    ensures forall b | b in Resolving(w) :: !b.Status? && !Ignored(b)
    ensures forall b | b in Streamed(w) :: !b.Status? && !Ignored(b)
    ensures forall b | b in Recording(w) :: !b.Status? && !Ignored(b)
    ensures forall b | b in Recorded(w) :: !b.Status? && !Ignored(b)
  {
  }

  /** The terminal status is shown once, and last. */
  lemma StatusIsLastAndOnly(w: World)
    ensures var t := Transcript(w);
            t != [] && t[|t| - 1] == Status(if w.resolves && w.pipe.Stored? && w.inserts && w.finishes
                                            then "success" else "failed")
            && forall i | 0 <= i < |t| - 1 :: !t[i].Status?
  {
    PartsAreShown(w);
    hide Resolving;
    hide Streamed;
    hide Recording;
    hide Recorded;
    forall b | b in Steps(w) ensures !b.Status? { }
  }

  // ---- what a viewer can rely on -----------------------------------------------------

  function NextPhase(phase: string): string {
    if phase == "" then "resolve" else if phase == "resolve" then "stream" else "record"
  }

  /** What may be shown while a phase is on. */
  predicate InPlace(phase: string, b: Body) {
    match b
    case Phase(name) => phase != "record" && name == NextPhase(phase)
    case Log(p, _) => p == phase != ""
    case Bytes(_) => phase == "stream"
    case Total(n) => phase == "resolve" && n > 0
    case Status(_) => phase != ""
  }

  function PhaseAfter(phase: string, t: seq<Body>): string
    decreases |t|
  {
    if t == [] then phase else PhaseAfter(if t[0].Phase? then t[0].name else phase, t[1..])
  }

  /** Phases come in order, lines under their own phase, byte counts while streaming. */
  predicate WellTold(phase: string, t: seq<Body>)
    decreases |t|
  {
    t == [] || (InPlace(phase, t[0]) && WellTold(if t[0].Phase? then t[0].name else phase, t[1..]))
  }

  /** The lines a viewer of t sees under one phase. */
  function LinesOf(phase: string, t: seq<Body>): seq<string> {
    if t == [] then []
    else (if t[0].Log? && t[0].phase == phase then [t[0].message] else []) + LinesOf(phase, t[1..])
  }

  lemma {:induction false} ToldJoin(phase: string, a: seq<Body>, b: seq<Body>)
    ensures PhaseAfter(phase, a + b) == PhaseAfter(PhaseAfter(phase, a), b)
    ensures WellTold(phase, a + b) <==> WellTold(phase, a) && WellTold(PhaseAfter(phase, a), b)
    decreases |a|
  {
    if a == [] {
      assert a + b == b;
    } else {
      assert (a + b)[1..] == a[1..] + b;
      ToldJoin(if a[0].Phase? then a[0].name else phase, a[1..], b);
    }
  }

  lemma {:induction false} LinesJoin(phase: string, a: seq<Body>, b: seq<Body>)
    ensures LinesOf(phase, a + b) == LinesOf(phase, a) + LinesOf(phase, b)
  {
    if a == [] {
      assert a + b == b;
    } else {
      assert (a + b)[1..] == a[1..] + b;
      LinesJoin(phase, a[1..], b);
    }
  }

  lemma {:induction false} LogsTold(phase: string, messages: seq<string>)
    requires phase != ""
    ensures WellTold(phase, Logs(phase, messages)) && PhaseAfter(phase, Logs(phase, messages)) == phase
  {
    if messages != [] {
      assert Logs(phase, messages)[1..] == Logs(phase, messages[1..]);
      LogsTold(phase, messages[1..]);
    }
  }

  lemma {:induction false} LinesOfLogs(phase: string, own: string, messages: seq<string>)
    ensures LinesOf(phase, Logs(own, messages)) == if phase == own then messages else []
  {
    if messages != [] {
      assert Logs(own, messages)[1..] == Logs(own, messages[1..]);
      LinesOfLogs(phase, own, messages[1..]);
    }
  }

  lemma {:induction false} CountsTold(sent: seq<int>, phase: string)
    ensures WellTold("stream", Counts(sent)) && PhaseAfter("stream", Counts(sent)) == "stream"
    ensures LinesOf(phase, Counts(sent)) == []
  {
    if sent != [] {
      assert Counts(sent)[1..] == Counts(sent[1..]);
      CountsTold(sent[1..], phase);
    }
  }

  /** One stretch of a transcript: told in order from one phase to another, with these lines of a phase. */
  predicate Part(t: seq<Body>, start: string, end: string, phase: string, lines: seq<string>) {
    WellTold(start, t) && PhaseAfter(start, t) == end && LinesOf(phase, t) == lines
  }

  lemma PartJoin(a: seq<Body>, b: seq<Body>, start: string, mid: string, end: string, phase: string,
                 la: seq<string>, lb: seq<string>)
    requires Part(a, start, mid, phase, la) && Part(b, mid, end, phase, lb)
    ensures Part(a + b, start, end, phase, la + lb)
  {
    ToldJoin(start, a, b);
    LinesJoin(phase, a, b);
  }

  /** The lines logged under one phase, seen from another. */
  function Under(own: string, messages: seq<string>, phase: string): seq<string> {
    if phase == own then messages else []
  }

  lemma LogsPart(own: string, messages: seq<string>, phase: string)
    requires own != ""
    ensures Part(Logs(own, messages), own, own, phase, Under(own, messages, phase))
  {
    LogsTold(own, messages);
    LinesOfLogs(phase, own, messages);
  }

  lemma OnePart(b: Body, start: string, phase: string)
    requires InPlace(start, b)
    ensures Part([b], start, if b.Phase? then b.name else start, phase,
                 if b.Log? && b.phase == phase then [b.message] else [])
  {
    assert [b][1..] == [];
  }

  lemma ResolvingPart(w: World, phase: string)
    ensures Part(Resolving(w), "", "resolve", phase, Under("resolve", w.resolving, phase))
  {
    OnePart(Phase("resolve"), "", phase);
    LogsPart("resolve", w.resolving, phase);
    PartJoin([Phase("resolve")], Logs("resolve", w.resolving), "", "resolve", "resolve", phase, [],
             Under("resolve", w.resolving, phase));
  }

  lemma StreamedPart(w: World, phase: string)
    ensures Part(Streamed(w), "resolve", "stream", phase, Under("stream", w.streaming, phase))
  {
    var total := if w.expected > 0 then [Total(w.expected)] else [];
    var lines := Under("stream", w.streaming, phase);
    if w.expected > 0 { OnePart(Total(w.expected), "resolve", phase); }
    assert Part(total, "resolve", "resolve", phase, []);
    OnePart(Phase("stream"), "resolve", phase);
    PartJoin(total, [Phase("stream")], "resolve", "resolve", "stream", phase, [], []);
    LogsPart("stream", w.streaming, phase);
    PartJoin(total + [Phase("stream")], Logs("stream", w.streaming), "resolve", "stream", "stream", phase, [], lines);
    CountsTold(w.sent, phase);
    PartJoin(total + [Phase("stream")] + Logs("stream", w.streaming), Counts(w.sent), "resolve", "stream", "stream",
             phase, lines, []);
  }

  lemma RecordingPart(w: World, phase: string)
    ensures Part(Recording(w), "stream", "record", phase, Under("record", w.recording, phase))
  {
    OnePart(Phase("record"), "stream", phase);
    LogsPart("record", w.recording, phase);
    PartJoin([Phase("record")], Logs("record", w.recording), "stream", "record", "record", phase, [],
             Under("record", w.recording, phase));
  }

  /** The lines the world logs under a phase in the steps that are reached. */
  function Expected(w: World, phase: string): seq<string> {
    if phase == "resolve" then w.resolving
    else if phase == "stream" && w.resolves then w.streaming
    else if phase == "record" && w.resolves && w.pipe.Stored? then
      w.recording + (if w.inserts then w.recorded else [])
    else []
  }

  lemma StreamedSteps(w: World, phase: string)
    ensures Part(Resolving(w) + Streamed(w), "", "stream", phase,
                 Under("resolve", w.resolving, phase) + Under("stream", w.streaming, phase))
  {
    ResolvingPart(w, phase);
    StreamedPart(w, phase);
    hide Part;
    PartJoin(Resolving(w), Streamed(w), "", "resolve", "stream", phase,
             Under("resolve", w.resolving, phase), Under("stream", w.streaming, phase));
  }

  lemma RecordingSteps(w: World, phase: string)
    ensures Part(Resolving(w) + Streamed(w) + Recording(w), "", "record", phase,
                 Under("resolve", w.resolving, phase) + Under("stream", w.streaming, phase)
                 + Under("record", w.recording, phase))
  {
    StreamedSteps(w, phase);
    RecordingPart(w, phase);
    hide *;
    PartJoin(Resolving(w) + Streamed(w), Recording(w), "", "stream", "record", phase,
             Under("resolve", w.resolving, phase) + Under("stream", w.streaming, phase),
             Under("record", w.recording, phase));
  }

  lemma RecordedSteps(w: World, phase: string)
    ensures Part(Resolving(w) + Streamed(w) + Recording(w) + Recorded(w), "", "record", phase,
                 Under("resolve", w.resolving, phase) + Under("stream", w.streaming, phase)
                 + Under("record", w.recording, phase) + Under("record", w.recorded, phase))
  {
    RecordingSteps(w, phase);
    LogsPart("record", w.recorded, phase);
    assert Recorded(w) == Logs("record", w.recorded);
    hide *;
    PartJoin(Resolving(w) + Streamed(w) + Recording(w), Recorded(w), "", "record", "record", phase,
             Under("resolve", w.resolving, phase) + Under("stream", w.streaming, phase)
             + Under("record", w.recording, phase),
             Under("record", w.recorded, phase));
  }

  lemma StepsPart(w: World, phase: string)
    ensures Part(Steps(w), "", LastPhase(w), phase, Expected(w, phase))
  {
    hide Part;
    hide Resolving;
    hide Streamed;
    hide Recording;
    hide Recorded;
    if !w.resolves {
      ResolvingPart(w, phase);
    } else if !w.pipe.Stored? {
      StreamedSteps(w, phase);
      assert Expected(w, phase) == Under("resolve", w.resolving, phase) + Under("stream", w.streaming, phase);
    } else if !w.inserts {
      RecordingSteps(w, phase);
      assert Expected(w, phase) == Under("resolve", w.resolving, phase) + Under("stream", w.streaming, phase)
                                   + Under("record", w.recording, phase);
    } else {
      RecordedSteps(w, phase);
      assert Expected(w, phase) == Under("resolve", w.resolving, phase) + Under("stream", w.streaming, phase)
                                   + Under("record", w.recording, phase) + Under("record", w.recorded, phase);
    }
  }

  lemma TranscriptLines(w: World, phase: string)
    ensures WellTold("", Transcript(w)) && PhaseAfter("", Transcript(w)) == LastPhase(w)
    ensures LinesOf(phase, Transcript(w)) ==
            Expected(w, phase) + if !Succeeds(w) && phase == LastPhase(w) then [w.failure] else []
  {
    StepsPart(w, phase);
    var last := LastPhase(w);
    var status := Status(if Succeeds(w) then "success" else "failed");
    OnePart(status, last, phase);
    if Succeeds(w) {
      PartJoin(Steps(w), [status], "", last, last, phase, Expected(w, phase), []);
      assert Steps(w) + [] == Steps(w);
    } else {
      var failure := Log(last, w.failure);
      OnePart(failure, last, phase);
      var line := if phase == last then [w.failure] else [];
      PartJoin(Steps(w), [failure], "", last, last, phase, Expected(w, phase), line);
      PartJoin(Steps(w) + [failure], [status], "", last, last, phase, Expected(w, phase) + line, []);
    }
  }

  /** A viewer sees the phases in order and none past the one that failed, each line under its own phase,
      byte counts only while streaming; the lines of a phase are those logged in it, the ones about the
      artifact only when it was recorded, and the failure closes the phase it happened in. */
  lemma TranscriptIsTold(w: World)
    ensures var t := Transcript(w); WellTold("", t)
    ensures PhaseAfter("", Transcript(w)) == if !w.resolves then "resolve" else if !w.pipe.Stored? then "stream" else "record"
    ensures LinesOf("resolve", Transcript(w)) == w.resolving + if !w.resolves then [w.failure] else []
    ensures LinesOf("stream", Transcript(w)) ==
            if !w.resolves then [] else w.streaming + if !w.pipe.Stored? then [w.failure] else []
    ensures LinesOf("record", Transcript(w)) ==
            if !w.resolves || !w.pipe.Stored? then []
            else w.recording + (if w.inserts then w.recorded else [])
                 + if !w.inserts || !w.finishes then [w.failure] else []
  {
    TranscriptLines(w, "resolve");
    TranscriptLines(w, "stream");
    TranscriptLines(w, "record");
    hide Transcript;
    hide WellTold;
  }

  /** The totals and byte counts shown, in order. */
  function Figures(t: seq<Body>): seq<Body> {
    if t == [] then [] else Figure(t[0]) + Figures(t[1..])
  }

  function Figure(b: Body): seq<Body> { if b.Total? || b.Bytes? then [b] else [] }

  lemma {:induction false} FiguresJoin(a: seq<Body>, b: seq<Body>)
    ensures Figures(a + b) == Figures(a) + Figures(b)
  {
    if a == [] {
      assert a + b == b;
    } else {
      assert (a + b)[1..] == a[1..] + b && (a + b)[0] == a[0];
      hide Figure;
      FiguresJoin(a[1..], b);
    }
  }

  lemma {:induction false} FiguresAlone(t: seq<Body>)
    ensures (forall b | b in t :: b.Total? || b.Bytes?) ==> Figures(t) == t
    ensures (forall b | b in t :: !b.Total? && !b.Bytes?) ==> Figures(t) == []
  {
    if t != [] { FiguresAlone(t[1..]); }
  }

  lemma StreamedFigures(w: World)
    ensures Figures(Streamed(w)) == (if w.expected > 0 then [Total(w.expected)] else []) + Counts(w.sent)
  {
    var total := if w.expected > 0 then [Total(w.expected)] else [];
    var lines := [Phase("stream")] + Logs("stream", w.streaming);
    FiguresAlone(total);
    FiguresAlone(lines);
    FiguresAlone(Counts(w.sent));
    hide Figures;
    FiguresJoin(total, lines);
    FiguresJoin(total + lines, Counts(w.sent));
    assert Streamed(w) == total + lines + Counts(w.sent);
  }

  lemma OtherFigures(w: World)
    ensures Figures(Resolving(w)) == [] && Figures(Recording(w)) == [] && Figures(Recorded(w)) == []
  {
    FiguresAlone(Resolving(w));
    FiguresAlone(Recording(w));
    FiguresAlone(Recorded(w));
    hide Figures;
  }

  lemma StepsFigures(w: World)
    ensures Figures(Steps(w)) == if !w.resolves then [] else Figures(Streamed(w))
  {
    var r, s, rec, last := Resolving(w), Streamed(w), Recording(w), Recorded(w);
    OtherFigures(w);
    hide Figures;
    hide Resolving;
    hide Streamed;
    hide Recording;
    hide Recorded;
    FiguresJoin(r, s);
    FiguresJoin(r + s, rec);
    FiguresJoin(r + s + rec, last);
    assert [] + Figures(s) + [] + [] == Figures(s);
  }

  /** The expected size, if there is one, and every byte count are shown as they come, once resolved. */
  lemma FiguresAreTold(w: World)
    ensures Figures(Transcript(w)) ==
            if !w.resolves then []
            else (if w.expected > 0 then [Total(w.expected)] else [])
                 + seq(|w.sent|, i requires 0 <= i < |w.sent| => Bytes(w.sent[i]))
  {
    var failure := if Succeeds(w) then [] else [Log(LastPhase(w), w.failure)];
    var status := [Status(if Succeeds(w) then "success" else "failed")];
    FiguresAlone(failure);
    FiguresAlone(status);
    StepsFigures(w);
    StreamedFigures(w);
    hide Figures;
    hide Steps;
    hide Streamed;
    hide LastPhase;
    hide Succeeds;
    FiguresJoin(Steps(w), failure);
    FiguresJoin(Steps(w) + failure, status);
  }

  function Stamped(bodies: seq<Body>): seq<Event> {
    seq(|bodies|, i requires 0 <= i < |bodies| => Event(i + 1, bodies[i]))
  }

  /** The hub holds exactly the bodies published so far for the run, as its newest live run. */
  ghost predicate Streaming(runs: map<int, nat>, history: seq<seq<Event>>, before: seq<seq<Event>>,
                            runId: int, shown: seq<Body>) {
    if shown == [] then runId !in runs && history == before
    else runId in runs && runs[runId] == |before| && history == before + [Stamped(shown)]
  }

  lemma StreamingNext(runs: map<int, nat>, history: seq<seq<Event>>, before: seq<seq<Event>>, runId: int,
                      shown: seq<Body>, body: Body, k: nat)
    requires Streaming(runs, history, before, runId, shown)
    requires k == if runId in runs then runs[runId] else |history|
    ensures k <= |history| && Streaming(runs[runId := k], Published(history, k, body), before, runId, shown + [body])
  {
    var event := Event(|shown| + 1, body);
    assert Stamped(shown + [body]) == Stamped(shown) + [event];
    if shown == [] {
      assert Published(history, k, body) == before + [[event]];
      assert Stamped([]) + [event] == [event];
    } else {
      assert Published(history, k, body) == before + [Stamped(shown) + [event]];
    }
  }

  class Runner {
    const store: Store
    const hub: Hub
    var artifacts: seq<ArtifactRow>

    constructor (store: Store, hub: Hub)
      ensures this.store == store && this.hub == hub && artifacts == []
    {
      this.store, this.hub, artifacts := store, hub, [];
    }

    method Publish(runId: nat, bodies: seq<Body>, ghost before: seq<seq<Event>>, ghost shown: seq<Body>)
      requires hub.Valid() && Streaming(hub.runs, hub.history, before, runId, shown)
      requires forall b | b in bodies :: !Ignored(b)
      modifies hub
      ensures hub.Valid() && Streaming(hub.runs, hub.history, before, runId, shown + bodies)
    {
      hide Streaming;
      hide Fits;
      hide Published;
      assert shown + bodies[..0] == shown;
      for i := 0 to |bodies|
        invariant hub.Valid() && Streaming(hub.runs, hub.history, before, runId, shown + bodies[..i])
      {
        StreamingNext(hub.runs, hub.history, before, runId, shown + bodies[..i], bodies[i],
                      if runId in hub.runs then hub.runs[runId] else |hub.history|);
        assert bodies[i] in bodies;
        assert shown + bodies[..i + 1] == shown + bodies[..i] + [bodies[i]];
        ghost var runs := hub.runs;
        hub.Publish(runId, bodies[i]);
        assert hub.runs == runs[runId := hub.runs[runId]];
      }
      assert bodies[..|bodies|] == bodies;
    }

    /** The steps up to the artifact row and the success status; false for the first that fails. */
    method Attempt(runId: nat, w: World, ghost before: seq<seq<Event>>) returns (ok: bool, ghost shown: seq<Body>)
      requires hub.Valid() && store.Valid() && runId < |store.runs| && Streaming(hub.runs, hub.history, before, runId, [])
      modifies this`artifacts, store, hub
      ensures hub.Valid() && store.Valid() && Streaming(hub.runs, hub.history, before, runId, shown)
      ensures ok == Succeeds(w) && shown == Steps(w)
      ensures store.runs == if ok then Finish(old(store.runs), runId, Success) else old(store.runs)
      ensures artifacts == old(artifacts) + if w.resolves && w.pipe.Stored? && w.inserts
                                            then [ArtifactRow(runId, w.pipe.size, w.pipe.checksum)] else []
    {
      hide Streaming;
      hide Fits;
      PartsAreShown(w);
      hide Resolving;
      hide Streamed;
      hide Recording;
      hide Recorded;
      shown := Resolving(w);
      Publish(runId, Resolving(w), before, []);
      assert [] + Resolving(w) == Resolving(w);
      if !w.resolves { return false, shown; }
      Publish(runId, Streamed(w), before, shown);
      shown := shown + Streamed(w);
      if !w.pipe.Stored? { return false, shown; }
      Publish(runId, Recording(w), before, shown);
      shown := shown + Recording(w);
      if !w.inserts { return false, shown; }
      artifacts := artifacts + [ArtifactRow(runId, w.pipe.size, w.pipe.checksum)];
      Publish(runId, Recorded(w), before, shown);
      shown := shown + Recorded(w);
      if !w.finishes { return false, shown; }
      store.FinishRun(runId, Success);
      return true, shown;
    }

    /** Run: a fresh run's live stream is its transcript and is closed after it; the row becomes terminal
        unless the last write fails too; an artifact is recorded for every success, and for a failure
        exactly when only the success status could not be written. */
    method Run(runId: nat, w: World) returns (ok: bool)
      requires hub.Valid() && store.Valid() && runId < |store.runs| && runId !in hub.runs
      modifies this`artifacts, store, hub
      ensures hub.Valid() && store.Valid() && ok == Succeeds(w)
      ensures runId !in hub.runs && hub.history == old(hub.history) + [Stamped(Transcript(w))]
      ensures ok <==> w.resolves && w.pipe.Stored? && w.inserts && w.finishes
      ensures artifacts == old(artifacts) + if w.resolves && w.pipe.Stored? && w.inserts
                                            then [ArtifactRow(runId, w.pipe.size, w.pipe.checksum)] else []
      ensures ok ==> store.runs == old(store.runs)[runId := old(store.runs)[runId].(status := Success)]
      ensures !ok ==> store.runs == if w.records then old(store.runs)[runId := old(store.runs)[runId].(status := Failed)]
                                    else old(store.runs)
    {
      hide Fits;
      hide Steps;
      ghost var before := hub.history;
      ghost var shown;
      ok, shown := Attempt(runId, w, before);
      if !ok {
        if w.records { store.FinishRun(runId, Failed); }
        Publish(runId, [Log(LastPhase(w), w.failure)], before, shown);
        shown := shown + [Log(LastPhase(w), w.failure)];
      }
      Publish(runId, [Status(if ok then "success" else "failed")], before, shown);
      shown := shown + [Status(if ok then "success" else "failed")];
      assert Steps(w) + [] == Steps(w);
      assert shown == Transcript(w) && shown != [];
      hub.Close(runId);
    }
  }
}
