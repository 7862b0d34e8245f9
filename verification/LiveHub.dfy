// The live-progress hub: bounded pub/sub over running backups (internal/core/progress.go).
//
// Pointers are made explicit: every live run and every channel the hub ever made has
// an identity, its position in `lives` or `chans`.  All methods run under the hub's
// mutex, so each is one atomic step and Valid holds between any two of them, whatever
// their interleaving.  The ghost fields record what was published and delivered.

module LiveHub {

  const TAIL_MAX: nat := 256   // snapshot ring buffer per run
  const SUB_BUF: nat := 256    // buffer of one subscriber channel

  datatype Body = Phase(name: string) | Log(phase: string, message: string) | Bytes(sent: int)
                | Total(total: int) | Status(status: string)

  datatype Event = Event(seqNo: nat, body: Body)

  datatype Live = Live(seqNo: nat, tail: seq<Event>, subs: map<nat, nat>, nextSub: nat)

  datatype Chan = Chan(buf: seq<Event>, closed: bool)

  /** What a channel was offered: events of run `live` with indices from `joined` up to `upTo`,
      of which those in `kept` fitted; `received` of them were read. */
  datatype ChanLog = ChanLog(live: nat, joined: nat, upTo: nat, kept: seq<nat>, received: nat)

  /** What cancel captured when it was made. */
  datatype Handle = Handle(runId: int, live: nat, sub: nat)

  function LastN(s: seq<Event>, n: nat): seq<Event> { if |s| <= n then s else s[|s| - n..] }

  ghost predicate Numbered(h: seq<Event>) {
    forall i | 0 <= i < |h| :: h[i].seqNo == i + 1
  }

  function Pick(h: seq<Event>, idx: seq<nat>): (r: seq<Event>)
    requires forall i | 0 <= i < |idx| :: idx[i] < |h|
    ensures |r| == |idx|
  {
    seq(|idx|, i requires 0 <= i < |idx| => h[idx[i]])
  }

  ghost predicate LiveFits(h: seq<Event>, l: Live) {
    Numbered(h) && l.seqNo == |h| && l.tail == LastN(h, TAIL_MAX)
    && (forall s | s in l.subs :: s < l.nextSub)
    && (forall s, u | s in l.subs && u in l.subs && l.subs[s] == l.subs[u] :: s == u)
  }

  /** The channel buffers what it kept and nobody has read yet, in publication order. */
  ghost predicate ChanFits(h: seq<Event>, c: Chan, g: ChanLog) {
    g.joined <= g.upTo <= |h|
    && (forall i | 0 <= i < |g.kept| :: g.joined <= g.kept[i] < g.upTo)
    && (forall i, j | 0 <= i < j < |g.kept| :: g.kept[i] < g.kept[j])
    && g.received <= |g.kept|
    && c.buf == Pick(h, g.kept)[g.received..]
    && |c.buf| <= SUB_BUF
  }

  // ---- a channel's log against the history -----------------------------------------

  lemma PickGrows(h: seq<Event>, idx: seq<nat>, e: Event)
    requires forall i | 0 <= i < |idx| :: idx[i] < |h|
    ensures Pick(h + [e], idx) == Pick(h, idx)
  {
  }

  /** A full channel skips the event, any other buffers it. */
  function OfferedChan(c: Chan, ev: Event): Chan {
    if |c.buf| < SUB_BUF then c.(buf := c.buf + [ev]) else c
  }

  function OfferedLog(c: Chan, g: ChanLog): ChanLog {
    if |c.buf| < SUB_BUF then g.(kept := g.kept + [g.upTo], upTo := g.upTo + 1) else g.(upTo := g.upTo + 1)
  }

  lemma ChanFitsGrows(h: seq<Event>, c: Chan, g: ChanLog, e: Event)
    requires ChanFits(h, c, g)
    ensures ChanFits(h + [e], c, g)
  {
    PickGrows(h, g.kept, e);
  }

  /** Offering event number |h| to a channel that has seen all before it. */
  lemma ChanFitsOffer(h: seq<Event>, c: Chan, g: ChanLog, e: Event)
    requires ChanFits(h, c, g) && g.upTo == |h|
    ensures ChanFits(h + [e], OfferedChan(c, e), OfferedLog(c, g))
  {
    PickGrows(h, g.kept, e);
    var kept := g.kept + [|h|];
    assert Pick(h + [e], kept) == Pick(h + [e], g.kept) + [e];
    assert Pick(h + [e], kept)[g.received..] == Pick(h + [e], g.kept)[g.received..] + [e];
  }

  lemma ChanFitsReceive(h: seq<Event>, c: Chan, g: ChanLog)
    requires ChanFits(h, c, g) && c.buf != []
    ensures ChanFits(h, c.(buf := c.buf[1..]), g.(received := g.received + 1))
    ensures c.buf[0] == h[g.kept[g.received]]
  {
  }

  lemma ChanFitsNew(h: seq<Event>, live: nat)
    ensures ChanFits(h, Chan([], false), ChanLog(live, |h|, |h|, [], 0))
  {
  }

  lemma LiveFitsPublish(h: seq<Event>, l: Live, ev: Event)
    requires LiveFits(h, l) && ev.seqNo == l.seqNo + 1
    ensures LiveFits(h + [ev], Advanced(l, ev))
  {
    LastNGrows(h, ev);
  }

  /** A run with channel c as its next subscriber. */
  function Joined(l: Live, c: nat): Live { l.(subs := l.subs[l.nextSub := c], nextSub := l.nextSub + 1) }

  lemma LiveFitsSubscribe(h: seq<Event>, l: Live, c: nat)
    requires LiveFits(h, l) && c !in l.subs.Values
    ensures LiveFits(h, Joined(l, c))
  {
    forall s | s in l.subs ensures l.subs[s] != c { assert l.subs[s] in l.subs.Values; }
  }

  lemma LastNGrows(h: seq<Event>, e: Event)
    ensures LastN(LastN(h, TAIL_MAX) + [e], TAIL_MAX) == LastN(h + [e], TAIL_MAX)
  {
  }

  lemma {:induction false} IncreasingGap(s: seq<nat>, i: nat, j: nat)
    requires forall a, b | 0 <= a < b < |s| :: s[a] < s[b]
    requires i <= j < |s|
    ensures s[j] >= s[i] + (j - i)
  {
    if i < j { IncreasingGap(s, i, j - 1); }
  }

  /** What a subscriber has seen so far: its snapshot, then what it read. */
  ghost function Seen(h: seq<Event>, g: ChanLog): seq<Event>
    requires g.joined <= |h| && g.received <= |g.kept|
    requires forall i | 0 <= i < |g.kept| :: g.kept[i] < |h|
  {
    LastN(h[..g.joined], TAIL_MAX) + Pick(h, g.kept[..g.received])
  }

  function Start(joined: nat): nat { if joined <= 256 then 0 else joined - 256 }

  /** Where in the history the i-th event a subscriber saw stands. */
  ghost function Position(g: ChanLog, i: nat): nat
    requires i < g.joined - Start(g.joined) + |g.kept|
  {
    if i < g.joined - Start(g.joined) then Start(g.joined) + i else g.kept[i - (g.joined - Start(g.joined))]
  }

  lemma SeenAt(h: seq<Event>, c: Chan, g: ChanLog, i: nat)
    requires ChanFits(h, c, g) && i < |Seen(h, g)|
    ensures i < g.joined - Start(g.joined) + |g.kept|
    ensures Position(g, i) < |h| && Seen(h, g)[i] == h[Position(g, i)]
  {
  }

  lemma PositionsRise(h: seq<Event>, c: Chan, g: ChanLog, i: nat, j: nat)
    requires ChanFits(h, c, g) && i < j < |Seen(h, g)|
    ensures j < g.joined - Start(g.joined) + |g.kept| && Position(g, i) < Position(g, j)
  {
  }

  /** A subscriber sees events of the run's history, each at most once and in order. */
  lemma SeenIsOrdered(h: seq<Event>, c: Chan, g: ChanLog)
    requires Numbered(h) && ChanFits(h, c, g)
    ensures forall i, j | 0 <= i < j < |Seen(h, g)| :: Seen(h, g)[i].seqNo < Seen(h, g)[j].seqNo
    ensures forall i | 0 <= i < |Seen(h, g)| ::
              1 <= Seen(h, g)[i].seqNo <= |h| && Seen(h, g)[i] == h[Seen(h, g)[i].seqNo - 1]
  {
    var s := Seen(h, g);
    forall i: nat | i < |s| ensures Position(g, i) < |h| && s[i] == h[Position(g, i)] { SeenAt(h, c, g, i); }
    forall i: nat, j: nat | i < j < |s| ensures Position(g, i) < Position(g, j) { PositionsRise(h, c, g, i, j); }
    hide Position;
    hide Seen;
    hide ChanFits;
  }

  /** If nothing offered to it was dropped, it sees a stretch of the history without a gap. */
  lemma SeenIsGapless(h: seq<Event>, c: Chan, g: ChanLog)
    requires ChanFits(h, c, g) && |g.kept| == g.upTo - g.joined
    ensures Seen(h, g) == h[Start(g.joined)..g.joined + g.received]
  {
    forall i | 0 <= i < |g.kept| ensures g.kept[i] == g.joined + i {
      IncreasingGap(g.kept, 0, i);
      IncreasingGap(g.kept, i, |g.kept| - 1);
    }
    assert Pick(h, g.kept[..g.received]) == h[g.joined..g.joined + g.received];
    assert LastN(h[..g.joined], TAIL_MAX) == h[Start(g.joined)..g.joined];
  }

  // ---- the whole hub -----------------------------------------------------------------

  ghost predicate IsLive(runs: map<int, nat>, k: nat) { exists r :: r in runs && runs[r] == k }

  /** Channels registered with run k belong to it, and are open and up to date while it is live. */
  ghost predicate SubsFit(runs: map<int, nat>, k: nat, l: Live, n: nat, chans: seq<Chan>, logs: seq<ChanLog>)
    requires |logs| == |chans|
  {
    forall s | s in l.subs ::
      l.subs[s] < |chans| && logs[l.subs[s]].live == k
      && (IsLive(runs, k) ==> !chans[l.subs[s]].closed && logs[l.subs[s]].upTo == n)
  }

  ghost predicate Fits(runs: map<int, nat>, lives: seq<Live>, chans: seq<Chan>,
                       history: seq<seq<Event>>, logs: seq<ChanLog>) {
    |history| == |lives| && |logs| == |chans|
    && (forall r | r in runs :: runs[r] < |lives|)
    && (forall q, r | q in runs && r in runs && runs[q] == runs[r] :: q == r)
    && (forall k: nat | k < |lives| :: LiveFits(history[k], lives[k]))
    && (forall k: nat | k < |lives| :: SubsFit(runs, k, lives[k], |history[k]|, chans, logs))
    && (forall c: nat | c < |chans| :: logs[c].live < |lives| && ChanFits(history[logs[c].live], chans[c], logs[c]))
  }

  lemma FitsFacts(runs: map<int, nat>, lives: seq<Live>, chans: seq<Chan>,
                  history: seq<seq<Event>>, logs: seq<ChanLog>)
    requires Fits(runs, lives, chans, history, logs)
    ensures |history| == |lives| && |logs| == |chans|
    ensures forall r | r in runs :: runs[r] < |lives|
    ensures forall c: nat | c < |chans| :: logs[c].live < |lives| && ChanFits(history[logs[c].live], chans[c], logs[c])
  {
  }

  /** What the fan-out and Close rely on about a live run. */
  lemma LiveFacts(runs: map<int, nat>, lives: seq<Live>, chans: seq<Chan>,
                  history: seq<seq<Event>>, logs: seq<ChanLog>, k: nat)
    requires Fits(runs, lives, chans, history, logs) && IsLive(runs, k) && k < |lives|
    ensures var l := lives[k];
            l.seqNo == |history[k]| && l.tail == LastN(history[k], TAIL_MAX)
            && (forall s | s in l.subs :: l.subs[s] < |chans| && !chans[l.subs[s]].closed)
            && (forall s, u | s in l.subs && u in l.subs && l.subs[s] == l.subs[u] :: s == u)
  {
    assert LiveFits(history[k], lives[k]) && SubsFit(runs, k, lives[k], |history[k]|, chans, logs);
  }

  lemma FitsEnsure(runs: map<int, nat>, lives: seq<Live>, chans: seq<Chan>,
                   history: seq<seq<Event>>, logs: seq<ChanLog>, runId: int)
    requires Fits(runs, lives, chans, history, logs) && runId !in runs
    ensures Fits(runs[runId := |lives|], lives + [Live(0, [], map[], 0)], chans, history + [[]], logs)
  {
    var runs' := runs[runId := |lives|];
    forall k: nat | k < |lives| ensures SubsFit(runs', k, lives[k], |history[k]|, chans, logs) {
      assert SubsFit(runs, k, lives[k], |history[k]|, chans, logs);
      if IsLive(runs', k) {
        var r :| r in runs' && runs'[r] == k;
        assert runs[r] == k;
      }
    }
  }

  /** Each of the channels in subs was offered ev once, and no other channel changed. */
  ghost predicate Offered(subs: map<nat, nat>, ev: Event, chans: seq<Chan>, logs: seq<ChanLog>,
                          chans': seq<Chan>, logs': seq<ChanLog>) {
    |chans'| == |logs'| == |chans| == |logs|
    && forall c: nat | c < |chans| ::
         if c in subs.Values
         then chans'[c] == OfferedChan(chans[c], ev) && logs'[c] == OfferedLog(chans[c], logs[c])
         else chans'[c] == chans[c] && logs'[c] == logs[c]
  }

  lemma NobodyOffered(ev: Event, chans: seq<Chan>, logs: seq<ChanLog>, chans': seq<Chan>, logs': seq<ChanLog>)
    requires Offered(map[], ev, chans, logs, chans', logs')
    ensures chans' == chans && logs' == logs
  {
  }

  /** A run one event on: its subscribers stay. */
  function Advanced(l: Live, ev: Event): Live { l.(seqNo := l.seqNo + 1, tail := LastN(l.tail + [ev], TAIL_MAX)) }

  lemma FitsPublish(runs: map<int, nat>, lives: seq<Live>, chans: seq<Chan>,
                    history: seq<seq<Event>>, logs: seq<ChanLog>,
                    k: nat, ev: Event, chans': seq<Chan>, logs': seq<ChanLog>)
    requires Fits(runs, lives, chans, history, logs) && k < |lives| && IsLive(runs, k)
    requires ev.seqNo == lives[k].seqNo + 1
    requires Offered(lives[k].subs, ev, chans, logs, chans', logs')
    ensures Fits(runs, lives[k := Advanced(lives[k], ev)], chans', history[k := history[k] + [ev]], logs')
  {
    var h := history[k];
    var lives', history' := lives[k := Advanced(lives[k], ev)], history[k := h + [ev]];
    LiveFitsPublish(h, lives[k], ev);
    forall j: nat | j < |lives| ensures SubsFit(runs, j, lives'[j], |history'[j]|, chans', logs') {
      SubsFitPublish(runs, lives, chans, history, logs, k, ev, chans', logs', j);
    }
    forall c: nat | c < |chans|
      ensures logs'[c].live == logs[c].live < |lives| && ChanFits(history'[logs'[c].live], chans'[c], logs'[c])
    {
      ChanFitsPublish(runs, lives, chans, history, logs, k, ev, chans', logs', c);
    }
    hide SubsFit;
    hide ChanFits;
    hide Offered;
    hide LiveFits;
    hide IsLive;
  }

  lemma SubsFitPublish(runs: map<int, nat>, lives: seq<Live>, chans: seq<Chan>,
                       history: seq<seq<Event>>, logs: seq<ChanLog>,
                       k: nat, ev: Event, chans': seq<Chan>, logs': seq<ChanLog>, j: nat)
    requires Fits(runs, lives, chans, history, logs) && k < |lives| && IsLive(runs, k) && j < |lives|
    requires Offered(lives[k].subs, ev, chans, logs, chans', logs')
    ensures SubsFit(runs, j, lives[k := Advanced(lives[k], ev)][j], |history[k := history[k] + [ev]][j]|, chans', logs')
  {
    assert SubsFit(runs, k, lives[k], |history[k]|, chans, logs);
    assert SubsFit(runs, j, lives[j], |history[j]|, chans, logs);
    hide ChanFits;
    hide LiveFits;
    forall s | s in lives[j].subs ensures j == k <==> lives[j].subs[s] in lives[k].subs.Values { }
  }

  lemma ChanFitsPublish(runs: map<int, nat>, lives: seq<Live>, chans: seq<Chan>,
                        history: seq<seq<Event>>, logs: seq<ChanLog>,
                        k: nat, ev: Event, chans': seq<Chan>, logs': seq<ChanLog>, c: nat)
    requires Fits(runs, lives, chans, history, logs) && k < |lives| && IsLive(runs, k) && c < |chans|
    requires Offered(lives[k].subs, ev, chans, logs, chans', logs')
    ensures logs'[c].live == logs[c].live < |lives|
    ensures ChanFits(history[k := history[k] + [ev]][logs'[c].live], chans'[c], logs'[c])
  {
    var h := history[k];
    assert SubsFit(runs, k, lives[k], |h|, chans, logs);
    assert ChanFits(history[logs[c].live], chans[c], logs[c]);
    if c in lives[k].subs.Values {
      assert logs[c].live == k && logs[c].upTo == |h|;
      ChanFitsOffer(h, chans[c], logs[c], ev);
    } else if logs[c].live == k {
      ChanFitsGrows(h, chans[c], logs[c], ev);
    }
    hide ChanFits;
    hide LiveFits;
  }

  lemma FitsSubscribe(runs: map<int, nat>, lives: seq<Live>, chans: seq<Chan>,
                      history: seq<seq<Event>>, logs: seq<ChanLog>, k: nat)
    requires Fits(runs, lives, chans, history, logs) && k < |lives|
    ensures Fits(runs, lives[k := Joined(lives[k], |chans|)], chans + [Chan([], false)], history,
                 logs + [ChanLog(k, |history[k]|, |history[k]|, [], 0)])
  {
    hide ChanFits;
    hide LiveFits;
    var l := Joined(lives[k], |chans|);
    var chans', logs' := chans + [Chan([], false)], logs + [ChanLog(k, |history[k]|, |history[k]|, [], 0)];
    assert SubsFit(runs, k, lives[k], |history[k]|, chans, logs);
    LiveFitsSubscribe(history[k], lives[k], |chans|);
    ChanFitsNew(history[k], k);
    forall j: nat | j < |lives| ensures SubsFit(runs, j, lives[k := l][j], |history[j]|, chans', logs') {
      assert SubsFit(runs, j, lives[j], |history[j]|, chans, logs);
    }
  }

  lemma FitsCancel(runs: map<int, nat>, lives: seq<Live>, chans: seq<Chan>,
                   history: seq<seq<Event>>, logs: seq<ChanLog>, k: nat, s: nat)
    requires Fits(runs, lives, chans, history, logs) && k < |lives|
    ensures Fits(runs, lives[k := lives[k].(subs := lives[k].subs - {s})], chans, history, logs)
  {
    var l := lives[k].(subs := lives[k].subs - {s});
    forall j: nat | j < |lives|
      ensures SubsFit(runs, j, lives[k := l][j], |history[j]|, chans, logs) && LiveFits(history[j], lives[k := l][j])
    {
      assert SubsFit(runs, j, lives[j], |history[j]|, chans, logs) && LiveFits(history[j], lives[j]);
    }
  }

  lemma FitsClose(runs: map<int, nat>, lives: seq<Live>, chans: seq<Chan>,
                  history: seq<seq<Event>>, logs: seq<ChanLog>, runId: int, chans': seq<Chan>)
    requires Fits(runs, lives, chans, history, logs) && runId in runs && runs[runId] < |lives|
    requires |chans'| == |chans|
    requires forall c: nat | c < |chans| ::
               chans'[c].buf == chans[c].buf
               && chans'[c].closed == (chans[c].closed || c in lives[runs[runId]].subs.Values)
    ensures Fits(runs - {runId}, lives, chans', history, logs)
  {
    var k, runs' := runs[runId], runs - {runId};
    forall c: nat | c < |chans| ensures ChanFits(history[logs[c].live], chans'[c], logs[c]) {
      assert ChanFits(history[logs[c].live], chans[c], logs[c]);
    }
    assert SubsFit(runs, k, lives[k], |history[k]|, chans, logs);
    forall j: nat | j < |lives| ensures SubsFit(runs', j, lives[j], |history[j]|, chans', logs) {
      assert SubsFit(runs, j, lives[j], |history[j]|, chans, logs);
      if IsLive(runs', j) {
        var r :| r in runs' && runs'[r] == j;
        assert r in runs && runs[r] == j && j != k;
      }
    }
  }

  lemma FitsReceive(runs: map<int, nat>, lives: seq<Live>, chans: seq<Chan>,
                    history: seq<seq<Event>>, logs: seq<ChanLog>, c: nat)
    requires Fits(runs, lives, chans, history, logs) && c < |chans| == |logs| && chans[c].buf != []
    ensures Fits(runs, lives, chans[c := chans[c].(buf := chans[c].buf[1..])], history,
                 logs[c := logs[c].(received := logs[c].received + 1)])
  {
    var chans' := chans[c := chans[c].(buf := chans[c].buf[1..])];
    var logs' := logs[c := logs[c].(received := logs[c].received + 1)];
    ChanFitsReceive(history[logs[c].live], chans[c], logs[c]);
    forall j: nat | j < |lives| ensures SubsFit(runs, j, lives[j], |history[j]|, chans', logs') {
      assert SubsFit(runs, j, lives[j], |history[j]|, chans, logs);
    }
  }

  class Hub {
    var runs: map<int, nat>
    var lives: seq<Live>
    var chans: seq<Chan>
    ghost var history: seq<seq<Event>>
    ghost var logs: seq<ChanLog>

    ghost predicate Valid() reads this { Fits(runs, lives, chans, history, logs) }

    constructor ()
      ensures Valid() && runs == map[] && lives == [] && chans == [] && history == [] && logs == []
    {
      runs, lives, chans := map[], [], [];
      history, logs := [], [];
    }

    /** A send on a closed channel would panic; on a full one it is skipped. */
    method Send(c: nat, ev: Event)
      requires c < |chans| == |logs| && !chans[c].closed
      modifies this`chans, this`logs
      ensures chans == old(chans)[c := OfferedChan(old(chans)[c], ev)]
      ensures logs == old(logs)[c := OfferedLog(old(chans)[c], old(logs)[c])]
    {
      logs := logs[c := OfferedLog(chans[c], logs[c])];
      if |chans[c].buf| < SUB_BUF {
        chans := chans[c := chans[c].(buf := chans[c].buf + [ev])];
      }
    }

    /** ensure: the live run of an id, made on first use. */
    method Ensure(runId: int) returns (k: nat)
      requires Valid()
      modifies this`runs, this`lives, this`history
      ensures Valid() && runId in runs && runs[runId] == k
      ensures runId in old(runs) ==> runs == old(runs) && lives == old(lives) && history == old(history)
      ensures runId !in old(runs) ==>
                k == |old(history)| && runs == old(runs)[runId := k]
                && lives == old(lives) + [Live(0, [], map[], 0)] && history == old(history) + [[]]
    {
      if runId in runs { return runs[runId]; }
      FitsEnsure(runs, lives, chans, history, logs, runId);
      k := |lives|;
      runs := runs[runId := k];
      lives := lives + [Live(0, [], map[], 0)];
      history := history + [[]];
    }

    /** Offers ev to every subscriber once, in any order. */
    method OfferAll(subs: map<nat, nat>, ev: Event)
      requires |chans| == |logs|
      requires forall s | s in subs :: subs[s] < |chans| && !chans[subs[s]].closed
      requires forall s, u | s in subs && u in subs && subs[s] == subs[u] :: s == u
      modifies this`chans, this`logs
      ensures Offered(subs, ev, old(chans), old(logs), chans, logs)
    {
      hide OfferedChan;
      hide OfferedLog;
      var todo := subs.Keys;
      ghost var done: set<nat> := {};
      while todo != {}
        invariant todo <= subs.Keys && done <= subs.Values
        invariant forall s | s in subs :: s in todo <==> subs[s] !in done
        invariant |chans| == |old(chans)| && |logs| == |chans|
        invariant forall c: nat | c < |chans| ::
                    if c in done
                    then chans[c] == OfferedChan(old(chans)[c], ev) && logs[c] == OfferedLog(old(chans)[c], old(logs)[c])
                    else chans[c] == old(chans)[c] && logs[c] == old(logs)[c]
        decreases todo
      {
        var s :| s in todo;
        todo, done := todo - {s}, done + {subs[s]};
        Send(subs[s], ev);
      }
    }

    /** publishLocked: stamp, remember, fan out without blocking. */
    method FanOut(k: nat, body: Body)
      requires Valid() && k < |lives| && IsLive(runs, k)
      modifies this`lives, this`history, this`chans, this`logs
      ensures Valid() && k < |old(history)| && history == Published(old(history), k, body)
      ensures var ev := Event(|old(history)[k]| + 1, body);
              lives == old(lives)[k := Advanced(old(lives)[k], ev)]
              && Offered(old(lives)[k].subs, ev, old(chans), old(logs), chans, logs)
    {
      hide Fits;
      hide Offered;
      FitsFacts(runs, lives, chans, history, logs);
      LiveFacts(runs, lives, chans, history, logs, k);
      var lr := lives[k];
      var ev := Event(lr.seqNo + 1, body);
      var tail := lr.tail + [ev];
      if |tail| > TAIL_MAX { tail := tail[|tail| - TAIL_MAX..]; }
      lives := lives[k := lr.(seqNo := lr.seqNo + 1, tail := tail)];
      history := history[k := history[k] + [ev]];
      OfferAll(lr.subs, ev);
      FitsPublish(runs, old(lives), old(chans), old(history), old(logs), k, ev, chans, logs);
    }

    /** Every Phase, Log, Bytes, Total and Status call. */
    method Publish(runId: int, body: Body)
      requires Valid()
      modifies this
      ensures Valid()
      ensures Ignored(body) <==> body.Total? && body.total <= 0
      ensures Ignored(body) ==>
                runs == old(runs) && lives == old(lives) && history == old(history) && chans == old(chans)
                && logs == old(logs)
      ensures !Ignored(body) ==>
                runId in runs && runs[runId] <= |old(history)|
                && runs == (if runId in old(runs) then old(runs) else old(runs)[runId := |old(history)|])
                && history == Published(old(history), runs[runId], body)
      ensures !Ignored(body) && runId in old(runs) ==>
                var k := runs[runId];
                k < |old(lives)| && k < |old(history)|
                && var ev := Event(|old(history)[k]| + 1, body);
                   lives == old(lives)[k := Advanced(old(lives)[k], ev)]
                   && Offered(old(lives)[k].subs, ev, old(chans), old(logs), chans, logs)
      ensures !Ignored(body) && runId !in old(runs) ==>
                lives == old(lives) + [Advanced(Live(0, [], map[], 0), Event(1, body))]
                && chans == old(chans) && logs == old(logs)
    {
      if Ignored(body) { return; }
      FitsFacts(runs, lives, chans, history, logs);
      var k := Ensure(runId);
      ghost var before := history;
      hide Fits;
      ghost var started := lives;
      FanOut(k, body);
      if runId !in old(runs) {
        assert started == old(lives) + [Live(0, [], map[], 0)];
        assert lives == old(lives) + [Advanced(Live(0, [], map[], 0), Event(1, body))];
        NobodyOffered(Event(1, body), old(chans), old(logs), chans, logs);
        assert before == old(history) + [[]];
        assert before[k := before[k] + [Event(1, body)]] == old(history) + [[Event(1, body)]] by {
          assert before[k] + [Event(1, body)] == [Event(1, body)];
        }
      }
    }

    /** Subscribe: the current tail, and a fresh channel for what comes after it. */
    method Subscribe(runId: int) returns (ok: bool, snapshot: seq<Event>, c: nat, cancel: Handle)
      requires Valid()
      modifies this`lives, this`chans, this`logs
      ensures Valid() && ok == (runId in runs)
      ensures !ok ==> lives == old(lives) && chans == old(chans) && logs == old(logs)
      ensures ok ==>
                c == |old(chans)| && chans == old(chans) + [Chan([], false)]
                && var k := runs[runId]; var n := |history[k]|;
                   logs == old(logs) + [ChanLog(k, n, n, [], 0)]
                   && snapshot == LastN(history[k], TAIL_MAX) == history[k][if n <= 256 then 0 else n - 256..]
                   && cancel == Handle(runId, k, old(lives)[k].nextSub)
                   && lives == old(lives)[k := Joined(old(lives)[k], c)]
    {
      ok, snapshot, c, cancel := runId in runs, [], 0, Handle(runId, 0, 0);
      if !ok { return; }
      var k := runs[runId];
      hide Fits;
      FitsFacts(runs, lives, chans, history, logs);
      LiveFacts(runs, lives, chans, history, logs, k);
      FitsSubscribe(runs, lives, chans, history, logs, k);
      hide Joined;
      hide ChanFits;
      var lr := lives[k];
      c, snapshot, cancel := |chans|, lr.tail, Handle(runId, k, lr.nextSub);
      chans := chans + [Chan([], false)];
      logs := logs + [ChanLog(k, |history[k]|, |history[k]|, [], 0)];
      lives := lives[k := Joined(lr, c)];
    }

    /** cancel: detaches its own subscriber, and only while the run it subscribed to is the one
        registered under the id; a later live run with the same id is never touched. */
    method Cancel(cancel: Handle)
      requires Valid() && cancel.live < |lives|
      modifies this`lives
      ensures Valid()
      ensures !(cancel.runId in runs && runs[cancel.runId] == cancel.live) ==> lives == old(lives)
      ensures cancel.runId in runs && runs[cancel.runId] == cancel.live ==>
                lives == old(lives)[cancel.live :=
                  old(lives)[cancel.live].(subs := old(lives)[cancel.live].subs - {cancel.sub})]
    {
      if cancel.runId in runs && runs[cancel.runId] == cancel.live {
        FitsCancel(runs, lives, chans, history, logs, cancel.live, cancel.sub);
        var lr := lives[cancel.live];
        lives := lives[cancel.live := lr.(subs := lr.subs - {cancel.sub})];
      }
    }

    /** Closing a closed channel would panic. */
    method CloseChan(c: nat)
      requires c < |chans| && !chans[c].closed
      modifies this`chans
      ensures chans == old(chans)[c := old(chans)[c].(closed := true)]
    {
      chans := chans[c := chans[c].(closed := true)];
    }

    /** Closes every subscriber's channel once, in any order. */
    method CloseAll(subs: map<nat, nat>)
      requires forall s | s in subs :: subs[s] < |chans| && !chans[subs[s]].closed
      requires forall s, u | s in subs && u in subs && subs[s] == subs[u] :: s == u
      modifies this`chans
      ensures |chans| == |old(chans)|
      ensures forall c: nat | c < |chans| ::
                chans[c] == if c in subs.Values then old(chans)[c].(closed := true) else old(chans)[c]
    {
      var todo := subs.Keys;
      ghost var done: set<nat> := {};
      while todo != {}
        invariant todo <= subs.Keys && done <= subs.Values
        invariant forall s | s in subs :: s in todo <==> subs[s] !in done
        invariant |chans| == |old(chans)|
        invariant forall c: nat | c < |chans| ::
                    chans[c] == if c in done then old(chans)[c].(closed := true) else old(chans)[c]
        decreases todo
      {
        var s :| s in todo;
        todo, done := todo - {s}, done + {subs[s]};
        CloseChan(subs[s]);
      }
    }

    /** Close: ends exactly the streams still registered with the run, and forgets the run. */
    method Close(runId: int)
      requires Valid()
      modifies this`runs, this`chans
      ensures Valid() && runs == old(runs) - {runId}
      ensures |chans| == |old(chans)|
      ensures forall c: nat | c < |chans| ::
                chans[c].buf == old(chans)[c].buf
                && chans[c].closed == (old(chans)[c].closed
                                       || (runId in old(runs) && c in lives[old(runs)[runId]].subs.Values))
    {
      if runId !in runs { return; }
      hide Fits;
      FitsFacts(runs, lives, chans, history, logs);
      var k := runs[runId];
      LiveFacts(runs, lives, chans, history, logs, k);
      var lr := lives[k];
      CloseAll(lr.subs);
      FitsClose(runs, lives, old(chans), history, logs, runId, chans);
      runs := runs - {runId};
    }

    /** The subscriber's side: the next buffered event, or whether the stream is over. */
    method Receive(c: nat) returns (ev: seq<Event>, over: bool)
      requires Valid() && c < |chans|
      modifies this`chans, this`logs
      ensures Valid() && |chans| == |old(chans)| && |logs| == |old(logs)|
      ensures over <==> old(chans)[c].buf == [] && old(chans)[c].closed
      ensures old(chans)[c].buf == [] ==> ev == [] && chans == old(chans) && logs == old(logs)
      ensures old(chans)[c].buf != [] ==>
                ev == [old(chans)[c].buf[0]]
                && chans == old(chans)[c := old(chans)[c].(buf := old(chans)[c].buf[1..])]
                && logs == old(logs)[c := old(logs)[c].(received := old(logs)[c].received + 1)]
                && Seen(history[logs[c].live], logs[c]) == Seen(history[logs[c].live], old(logs)[c]) + ev
    {
      var ch := chans[c];
      FitsFacts(runs, lives, chans, history, logs);
      ev, over := [], ch.buf == [] && ch.closed;
      if ch.buf != [] {
        ghost var h, g := history[logs[c].live], logs[c];
        ChanFitsReceive(h, ch, g);
        FitsReceive(runs, lives, chans, history, logs, c);
        ev := [ch.buf[0]];
        chans := chans[c := ch.(buf := ch.buf[1..])];
        logs := logs[c := g.(received := g.received + 1)];
        assert g.kept[..g.received + 1] == g.kept[..g.received] + [g.kept[g.received]];
      }
    }
  }

  predicate Ignored(body: Body) { body.Total? && body.total <= 0 }

  /** The histories after one more event of run k, which is a new run if k is the next identity. */
  function Published(hs: seq<seq<Event>>, k: nat, body: Body): seq<seq<Event>>
    requires k <= |hs|
  {
    if k < |hs| then hs[k := hs[k] + [Event(|hs[k]| + 1, body)]] else hs + [[Event(1, body)]]
  }
}
