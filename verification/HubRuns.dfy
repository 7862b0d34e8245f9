// Whole histories of a hub: any sequence of publishing, subscribing, reading, cancelling and closing
// (internal/core/progress.go).
//
// View is what a caller could work out from the calls alone, without tails, buffers or
// registrations; Drive plays the calls on the hub and shows the two agree.

module HubRuns {
  import opened LiveHub

  /** What callers do; Sub makes subscriber number n, the n-th that succeeded, whom the others name. */
  datatype Op = Pub(runId: int, body: Body) | Sub(runId: int) | Read(n: nat) | Detach(n: nat) | End(runId: int)

  /** A subscriber; attached until it cancels while its run is live. */
  datatype Member = Member(runId: int, log: ChanLog, attached: bool)

  datatype View = View(runs: map<int, nat>, history: seq<seq<Event>>, members: seq<Member>)

  /** The run it subscribed to is still live and it has not cancelled. */
  predicate Watching(runs: map<int, nat>, m: Member) {
    m.attached && m.runId in runs && runs[m.runId] == m.log.live
  }

  /** One more event for a subscriber: dropped if as many are unread as the channel holds. */
  function Given(g: ChanLog): ChanLog {
    if |g.kept| - g.received < 256 then g.(kept := g.kept + [g.upTo], upTo := g.upTo + 1) else g.(upTo := g.upTo + 1)
  }

  predicate Sound(v: View) { forall r | r in v.runs :: v.runs[r] < |v.history| }

  function Informed(v: View, k: nat): seq<Member> {
    seq(|v.members|, c requires 0 <= c < |v.members| =>
      var m := v.members[c];
      if Watching(v.runs, m) && m.log.live == k then m.(log := Given(m.log)) else m)
  }

  function ViewStep(v: View, op: Op): (v': View)
    requires Sound(v)
    ensures Sound(v')
  {
    match op
    case Pub(runId, body) =>
      if Ignored(body) then v
      else
        var k := if runId in v.runs then v.runs[runId] else |v.history|;
        View(v.runs[runId := k], Published(v.history, k, body), Informed(v, k))
    case Sub(runId) =>
      if runId !in v.runs then v
      else
        var n := |v.history[v.runs[runId]]|;
        v.(members := v.members + [Member(runId, ChanLog(v.runs[runId], n, n, [], 0), true)])
    case Read(n) =>
      if n < |v.members| && v.members[n].log.received < |v.members[n].log.kept| then
        var m := v.members[n];
        v.(members := v.members[n := m.(log := m.log.(received := m.log.received + 1))])
      else v
    case Detach(n) =>
      if n < |v.members| && Watching(v.runs, v.members[n]) then
        v.(members := v.members[n := v.members[n].(attached := false)])
      else v
    case End(runId) => v.(runs := v.runs - {runId})
  }

  /** What the calls amount to. */
  function ViewOf(ops: seq<Op>): (v: View)
    ensures Sound(v)
  {
    if ops == [] then View(map[], [], []) else ViewStep(ViewOf(ops[..|ops| - 1]), ops[|ops| - 1])
  }

  ghost predicate CanSee(history: seq<seq<Event>>, g: ChanLog) {
    g.live < |history| && g.joined <= |history[g.live]| && g.received <= |g.kept|
    && forall i | 0 <= i < |g.kept| :: g.kept[i] < |history[g.live]|
  }

  /** got[c] is what subscriber c was given: its snapshot, then everything it read. */
  ghost predicate Told(history: seq<seq<Event>>, logs: seq<ChanLog>, got: seq<seq<Event>>) {
    |got| == |logs|
    && forall c: nat | c < |logs| :: CanSee(history, logs[c]) && got[c] == Seen(history[logs[c].live], logs[c])
  }

  lemma SeenSame(h: seq<Event>, h': seq<Event>, c: Chan, g: ChanLog, g': ChanLog)
    requires ChanFits(h, c, g) && h <= h'
    requires g'.joined == g.joined && g'.received == g.received && g.kept <= g'.kept
    requires forall i | 0 <= i < |g'.kept| :: g'.kept[i] < |h'|
    ensures Seen(h', g') == Seen(h, g)
  {
    assert h'[..g.joined] == h[..g.joined];
    assert g'.kept[..g.received] == g.kept[..g.received];
    assert Pick(h', g.kept[..g.received]) == Pick(h, g.kept[..g.received]);
  }

  /** A publication tells nobody anything yet: histories and logs grow at their ends only. */
  lemma ToldPublish(runs: map<int, nat>, lives: seq<Live>, chans: seq<Chan>, history: seq<seq<Event>>, logs: seq<ChanLog>,
                    runs': map<int, nat>, lives': seq<Live>, chans': seq<Chan>, history': seq<seq<Event>>,
                    logs': seq<ChanLog>, subs: map<nat, nat>, ev: Event, got: seq<seq<Event>>)
    requires Fits(runs, lives, chans, history, logs) && Fits(runs', lives', chans', history', logs')
    requires |history| <= |history'| && forall k | 0 <= k < |history| :: history[k] <= history'[k]
    requires Offered(subs, ev, chans, logs, chans', logs') && Told(history, logs, got)
    ensures Told(history', logs', got)
  {
    forall c: nat | c < |logs'|
      ensures CanSee(history', logs'[c]) && got[c] == Seen(history'[logs'[c].live], logs'[c])
    {
      assert logs'[c] == OfferedLog(chans[c], logs[c]) || logs'[c] == logs[c];
      SeenSame(history[logs[c].live], history'[logs[c].live], chans[c], logs[c], logs'[c]);
    }
  }

  /** x is an increasing part of the history h. */
  ghost predicate InOrder(h: seq<Event>, x: seq<Event>) {
    (forall i, j | 0 <= i < j < |x| :: x[i].seqNo < x[j].seqNo)
    && forall i | 0 <= i < |x| :: 1 <= x[i].seqNo <= |h| && x[i] == h[x[i].seqNo - 1]
  }

  /** x is h from the snapshot's first event on, without a gap, up to what was read. */
  ghost predicate Stretch(h: seq<Event>, x: seq<Event>, g: ChanLog) {
    g.joined + g.received <= |h| && x == h[Start(g.joined)..g.joined + g.received]
  }

  predicate NothingDropped(g: ChanLog) { |g.kept| == g.upTo - g.joined }

  /** What a subscriber can rely on: order always; no gap if nothing offered to it was dropped; and then,
      while its run is live and it has read all there is, everything up to the last event. */
  ghost predicate Kept(runs: map<int, nat>, lives: seq<Live>, chans: seq<Chan>, history: seq<seq<Event>>,
                       logs: seq<ChanLog>, got: seq<seq<Event>>, c: nat)
    requires c < |chans| == |logs| == |got| && CanSee(history, logs[c])
  {
    var h, g := history[logs[c].live], logs[c];
    InOrder(h, got[c])
    && (NothingDropped(g) ==> Stretch(h, got[c], g))
    && (NothingDropped(g) && chans[c].buf == [] && Registered(runs, lives, g.live, c) ==> g.joined + g.received == |h|)
  }

  ghost predicate Registered(runs: map<int, nat>, lives: seq<Live>, k: nat, c: nat) {
    k < |lives| && IsLive(runs, k) && c in lives[k].subs.Values
  }

  lemma ToldIsKept(runs: map<int, nat>, lives: seq<Live>, chans: seq<Chan>, history: seq<seq<Event>>,
                   logs: seq<ChanLog>, got: seq<seq<Event>>, c: nat)
    requires Fits(runs, lives, chans, history, logs) && Told(history, logs, got) && c < |logs|
    ensures |chans| == |logs| == |got| && CanSee(history, logs[c]) && Kept(runs, lives, chans, history, logs, got, c)
  {
    var h, g := history[logs[c].live], logs[c];
    SeenInOrder(h, chans[c], g);
    if NothingDropped(g) {
      SeenStretch(h, chans[c], g);
    }
    hide Fits;
    hide Seen;
    hide ChanFits;
    hide InOrder;
    hide Stretch;
    hide Registered;
  }

  lemma SeenInOrder(h: seq<Event>, c: Chan, g: ChanLog)
    requires Numbered(h) && ChanFits(h, c, g)
    ensures InOrder(h, Seen(h, g))
  {
    SeenIsOrdered(h, c, g);
    hide Seen;
    hide ChanFits;
  }

  lemma SeenStretch(h: seq<Event>, c: Chan, g: ChanLog)
    requires ChanFits(h, c, g) && NothingDropped(g)
    ensures Stretch(h, Seen(h, g), g)
  {
    SeenIsGapless(h, c, g);
  }

  // ---- the hub shows the view -------------------------------------------------------------------

  datatype Snap = Snap(runs: map<int, nat>, lives: seq<Live>, chans: seq<Chan>, history: seq<seq<Event>>, logs: seq<ChanLog>)

  ghost function Now(hub: Hub): Snap reads hub { Snap(hub.runs, hub.lives, hub.chans, hub.history, hub.logs) }

  ghost predicate Consistent(x: Snap) { Fits(x.runs, x.lives, x.chans, x.history, x.logs) }

  /** Subscriber c of the hub is member m: registered while it is attached, under its own key only, and its
      channel is closed exactly if it was attached when its run ended. */
  ghost predicate MemberShown(x: Snap, h: Handle, m: Member, c: nat) {
    c < |x.chans| == |x.logs| && m.log == x.logs[c] && h.runId == m.runId && h.live == m.log.live < |x.lives|
    && (IsLive(x.runs, h.live) ==> m.runId in x.runs && x.runs[m.runId] == h.live)
    && var l := x.lives[h.live];
       h.sub < l.nextSub && (h.sub in l.subs <==> m.attached) && (h.sub in l.subs ==> l.subs[h.sub] == c)
       && (forall s | s in l.subs && l.subs[s] == c :: s == h.sub)
       && (x.chans[c].closed <==> m.attached && !Watching(x.runs, m))
  }

  ghost predicate Shown(x: Snap, hs: seq<Handle>, v: View) {
    x.runs == v.runs && x.history == v.history && |x.chans| == |x.logs| == |hs| == |v.members|
    && forall c: nat | c < |hs| :: MemberShown(x, hs[c], v.members[c], c)
  }

  lemma MemberOffered(x: Snap, x': Snap, h: Handle, m: Member, c: nat, k: nat, ev: Event)
    requires Consistent(x) && MemberShown(x, h, m, c) && k < |x.lives| && IsLive(x.runs, k)
    requires x'.runs == x.runs && x'.lives == x.lives[k := Advanced(x.lives[k], ev)]
    requires Offered(x.lives[k].subs, ev, x.chans, x.logs, x'.chans, x'.logs)
    ensures MemberShown(x', h, if Watching(x.runs, m) && m.log.live == k then m.(log := Given(m.log)) else m, c)
  {
    assert ChanFits(x.history[x.logs[c].live], x.chans[c], x.logs[c]);
    assert |x.chans[c].buf| == |m.log.kept| - m.log.received;
    hide ChanFits;
    hide Consistent;
    hide LiveFits;
    hide SubsFit;
  }

  lemma ShownOffered(x: Snap, x': Snap, hs: seq<Handle>, v: View, k: nat, ev: Event)
    requires Consistent(x) && Shown(x, hs, v) && k < |x.lives| && IsLive(x.runs, k)
    requires x'.runs == x.runs && x'.lives == x.lives[k := Advanced(x.lives[k], ev)]
    requires Offered(x.lives[k].subs, ev, x.chans, x.logs, x'.chans, x'.logs)
    ensures Shown(x', hs, View(v.runs, x'.history, Informed(v, k)))
  {
    hide MemberShown;
    hide Consistent;
    forall c: nat | c < |hs| ensures MemberShown(x', hs[c], Informed(v, k)[c], c) {
      MemberOffered(x, x', hs[c], v.members[c], c, k, ev);
    }
  }

  /** A run's first event: nobody can be subscribed yet. */
  lemma ShownStarted(x: Snap, x': Snap, hs: seq<Handle>, v: View, runId: int, ev: Event)
    requires Consistent(x) && Shown(x, hs, v) && runId !in x.runs
    requires x'.runs == x.runs[runId := |x.lives|] && x'.lives == x.lives + [Advanced(Live(0, [], map[], 0), ev)]
    requires x'.chans == x.chans && x'.logs == x.logs
    ensures Shown(x', hs, View(x'.runs, x'.history, Informed(v, |x.history|)))
  {
    forall c: nat | c < |hs| ensures Informed(v, |x.history|)[c] == v.members[c] && MemberShown(x', hs[c], v.members[c], c) {
      assert MemberShown(x, hs[c], v.members[c], c);
    }
    hide MemberShown;
  }

  lemma ShownSubscribed(x: Snap, x': Snap, hs: seq<Handle>, v: View, runId: int, k: nat)
    requires Consistent(x) && Shown(x, hs, v) && runId in x.runs && x.runs[runId] == k < |x.lives|
    requires x'.runs == x.runs && x'.history == x.history && x'.lives == x.lives[k := Joined(x.lives[k], |x.chans|)]
    requires x'.chans == x.chans + [Chan([], false)]
    requires x'.logs == x.logs + [ChanLog(k, |x.history[k]|, |x.history[k]|, [], 0)]
    requires Sound(v)
    ensures Shown(x', hs + [Handle(runId, k, x.lives[k].nextSub)], ViewStep(v, Sub(runId)))
  {
    var hs' := hs + [Handle(runId, k, x.lives[k].nextSub)];
    var v' := ViewStep(v, Sub(runId));
    forall c: nat | c < |hs'| ensures MemberShown(x', hs'[c], v'.members[c], c) {
      if c < |hs| {
        assert MemberShown(x, hs[c], v.members[c], c);
      } else {
        assert LiveFits(x.history[k], x.lives[k]) && SubsFit(x.runs, k, x.lives[k], |x.history[k]|, x.chans, x.logs);
      }
    }
  }

  lemma ShownRead(x: Snap, x': Snap, hs: seq<Handle>, v: View, n: nat)
    requires Consistent(x) && Shown(x, hs, v) && Sound(v) && n < |x.chans|
    requires x'.runs == x.runs && x'.history == x.history && x'.lives == x.lives
    requires if x.chans[n].buf == [] then x'.chans == x.chans && x'.logs == x.logs
             else x'.chans == x.chans[n := x.chans[n].(buf := x.chans[n].buf[1..])]
                  && x'.logs == x.logs[n := x.logs[n].(received := x.logs[n].received + 1)]
    ensures Shown(x', hs, ViewStep(v, Read(n)))
  {
    var v' := ViewStep(v, Read(n));
    assert ChanFits(x.history[x.logs[n].live], x.chans[n], x.logs[n]);
    assert |x.chans[n].buf| == |x.logs[n].kept| - x.logs[n].received;
    hide ChanFits;
    hide Consistent;
    assert MemberShown(x, hs[n], v.members[n], n);
    forall c: nat | c < |hs| ensures MemberShown(x', hs[c], v'.members[c], c) {
      assert MemberShown(x, hs[c], v.members[c], c);
    }
  }

  lemma ShownDetached(x: Snap, x': Snap, hs: seq<Handle>, v: View, n: nat)
    requires Consistent(x) && Shown(x, hs, v) && Sound(v) && n < |hs|
    requires x'.runs == x.runs && x'.history == x.history && x'.chans == x.chans && x'.logs == x.logs
    requires var h := hs[n];
             x'.lives == if h.live < |x.lives| && h.runId in x.runs && x.runs[h.runId] == h.live
                         then x.lives[h.live := x.lives[h.live].(subs := x.lives[h.live].subs - {h.sub})] else x.lives
    ensures Shown(x', hs, ViewStep(v, Detach(n)))
  {
    var v' := ViewStep(v, Detach(n));
    hide Consistent;
    assert MemberShown(x, hs[n], v.members[n], n);
    forall c: nat | c < |hs| ensures MemberShown(x', hs[c], v'.members[c], c) {
      assert MemberShown(x, hs[c], v.members[c], c);
      MemberDetached(x, x', hs[c], v.members[c], c, hs[n], v.members[n], n);
    }
    hide MemberShown;
  }

  lemma MemberDetached(x: Snap, x': Snap, h: Handle, m: Member, c: nat, gone: Handle, g: Member, n: nat)
    requires MemberShown(x, h, m, c) && MemberShown(x, gone, g, n) && (n == c ==> gone == h && m == g)
    requires x'.runs == x.runs && x'.chans == x.chans && x'.logs == x.logs
    requires x'.lives == if gone.live < |x.lives| && gone.runId in x.runs && x.runs[gone.runId] == gone.live
                         then x.lives[gone.live := x.lives[gone.live].(subs := x.lives[gone.live].subs - {gone.sub})]
                         else x.lives
    ensures MemberShown(x', h, if n == c && Watching(x.runs, m) then m.(attached := false) else m, c)
  {
  }

  lemma ShownEnded(x: Snap, x': Snap, hs: seq<Handle>, v: View, runId: int)
    requires Consistent(x) && Shown(x, hs, v) && Sound(v)
    requires x'.runs == x.runs - {runId} && x'.history == x.history && x'.lives == x.lives && x'.logs == x.logs
    requires |x'.chans| == |x.chans|
    requires forall c: nat | c < |x.chans| ::
               x'.chans[c].closed == (x.chans[c].closed
                                      || (runId in x.runs && x.runs[runId] < |x.lives| && c in x.lives[x.runs[runId]].subs.Values))
    ensures Shown(x', hs, ViewStep(v, End(runId)))
  {
    forall c: nat | c < |hs| ensures MemberShown(x', hs[c], v.members[c], c) {
      assert MemberShown(x, hs[c], v.members[c], c);
    }
    hide MemberShown;
  }

  // ---- playing the calls ------------------------------------------------------------------------

  /** What holds between two calls. */
  ghost predicate Playing(hub: Hub, hs: seq<Handle>, got: seq<seq<Event>>, v: View) reads hub {
    hub.Valid() && Sound(v) && Shown(Now(hub), hs, v) && Told(hub.history, hub.logs, got)
  }

  /** Any sequence of calls: runs, histories and what each subscriber was offered are those of the view; got[c]
      is its snapshot and reads together, which keep their promise; and its stream is over exactly if it was
      attached when its run ended. */
  method Drive(ops: seq<Op>) returns (hub: Hub, got: seq<seq<Event>>)
    ensures hub.Valid() && hub.runs == ViewOf(ops).runs && hub.history == ViewOf(ops).history
    ensures |hub.chans| == |hub.logs| == |got| == |ViewOf(ops).members|
    ensures forall c: nat | c < |got| ::
              var m := ViewOf(ops).members[c];
              hub.logs[c] == m.log && (hub.chans[c].closed <==> m.attached && !Watching(hub.runs, m))
    ensures forall c: nat | c < |got| ::
              CanSee(hub.history, hub.logs[c]) && got[c] == Seen(hub.history[hub.logs[c].live], hub.logs[c])
              && Kept(hub.runs, hub.lives, hub.chans, hub.history, hub.logs, got, c)
  {
    hub := new Hub();
    got := [];
    var handles: seq<Handle> := [];
    assert Playing(hub, handles, got, ViewOf([]));
    hide Playing;
    for n := 0 to |ops|
      invariant fresh(hub) && Playing(hub, handles, got, ViewOf(ops[..n]))
    {
      assert ops[..n + 1][..n] == ops[..n] && ops[..n + 1][n] == ops[n];
      handles, got := Perform(hub, ops[n], handles, got, ViewOf(ops[..n]));
    }
    assert ops[..|ops|] == ops;
    PlayingMeans(hub, handles, got, ViewOf(ops));
  }

  lemma PlayingMeans(hub: Hub, hs: seq<Handle>, got: seq<seq<Event>>, v: View)
    requires Playing(hub, hs, got, v)
    ensures hub.Valid() && hub.runs == v.runs && hub.history == v.history
    ensures |hub.chans| == |hub.logs| == |got| == |v.members|
    ensures forall c: nat | c < |got| ::
              hub.logs[c] == v.members[c].log
              && (hub.chans[c].closed <==> v.members[c].attached && !Watching(hub.runs, v.members[c]))
    ensures forall c: nat | c < |got| ::
              CanSee(hub.history, hub.logs[c]) && got[c] == Seen(hub.history[hub.logs[c].live], hub.logs[c])
              && Kept(hub.runs, hub.lives, hub.chans, hub.history, hub.logs, got, c)
  {
    forall c: nat | c < |got|
      ensures CanSee(hub.history, hub.logs[c])
      ensures Kept(hub.runs, hub.lives, hub.chans, hub.history, hub.logs, got, c)
    {
      ToldIsKept(hub.runs, hub.lives, hub.chans, hub.history, hub.logs, got, c);
    }
    forall c: nat | c < |got| ensures MemberShown(Now(hub), hs[c], v.members[c], c) { }
    hide Fits;
    hide Kept;
  }

  method Perform(hub: Hub, op: Op, hs: seq<Handle>, got: seq<seq<Event>>, ghost v: View)
    returns (hs': seq<Handle>, got': seq<seq<Event>>)
    requires Playing(hub, hs, got, v)
    modifies hub
    ensures Playing(hub, hs', got', ViewStep(v, op))
  {
    hs', got' := hs, got;
    match op {
      case Pub(runId, body) => Announce(hub, runId, body, hs, got, v);
      case Sub(runId) => hs', got' := Join(hub, runId, hs, got, v);
      case Read(n) =>
        if n < |hs| { got' := Take(hub, n, hs, got, v); }
      case Detach(n) =>
        if n < |hs| { Leave(hub, n, hs, got, v); }
      case End(runId) =>
        ghost var x := Now(hub);
        FitsFacts(x.runs, x.lives, x.chans, x.history, x.logs);
        hub.Close(runId);
        hide Fits;
        hide Told;
        ShownEnded(x, Now(hub), hs, v, runId);
    }
  }

  method Announce(hub: Hub, runId: int, body: Body, ghost hs: seq<Handle>, ghost got: seq<seq<Event>>, ghost v: View)
    requires Playing(hub, hs, got, v)
    modifies hub
    ensures Playing(hub, hs, got, ViewStep(v, Pub(runId, body)))
  {
    ghost var x := Now(hub);
    FitsFacts(x.runs, x.lives, x.chans, x.history, x.logs);
    hide Fits;
    hide Told;
    hub.Publish(runId, body);
    if !Ignored(body) {
      ghost var k := hub.runs[runId];
      ghost var ev := Event(if k < |x.history| then |x.history[k]| + 1 else 1, body);
      ghost var subs := if runId in x.runs then x.lives[k].subs else map[];
      if runId in x.runs {
        ShownOffered(x, Now(hub), hs, v, k, ev);
      } else {
        ShownStarted(x, Now(hub), hs, v, runId, ev);
      }
      hide Shown;
      ToldPublish(x.runs, x.lives, x.chans, x.history, x.logs, hub.runs, hub.lives, hub.chans, hub.history, hub.logs,
                  subs, ev, got);
    }
  }

  method Join(hub: Hub, runId: int, hs: seq<Handle>, got: seq<seq<Event>>, ghost v: View)
    returns (hs': seq<Handle>, got': seq<seq<Event>>)
    requires Playing(hub, hs, got, v)
    modifies hub
    ensures Playing(hub, hs', got', ViewStep(v, Sub(runId)))
  {
    ghost var x := Now(hub);
    FitsFacts(x.runs, x.lives, x.chans, x.history, x.logs);
    hide Fits;
    hide Told;
    hs', got' := hs, got;
    var ok, snapshot, c, cancel := hub.Subscribe(runId);
    if ok {
      ShownSubscribed(x, Now(hub), hs, v, runId, x.runs[runId]);
      hide Shown;
      got', hs' := got + [snapshot], hs + [cancel];
    }
  }

  method Take(hub: Hub, n: nat, ghost hs: seq<Handle>, got: seq<seq<Event>>, ghost v: View) returns (got': seq<seq<Event>>)
    requires Playing(hub, hs, got, v) && n < |hs|
    modifies hub
    ensures Playing(hub, hs, got', ViewStep(v, Read(n)))
  {
    ghost var x := Now(hub);
    var ev, over := hub.Receive(n);
    ShownRead(x, Now(hub), hs, v, n);
    hide Fits;
    hide Seen;
    hide Shown;
    got' := got[n := got[n] + ev];
    if ev == [] { assert got[n] + [] == got[n] && got' == got; }
  }

  method Leave(hub: Hub, n: nat, hs: seq<Handle>, ghost got: seq<seq<Event>>, ghost v: View)
    requires Playing(hub, hs, got, v) && n < |hs|
    modifies hub
    ensures Playing(hub, hs, got, ViewStep(v, Detach(n)))
  {
    ghost var x := Now(hub);
    assert MemberShown(x, hs[n], v.members[n], n);
    hub.Cancel(hs[n]);
    hide Fits;
    hide Told;
    ShownDetached(x, Now(hub), hs, v, n);
  }
}
