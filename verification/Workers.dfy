// The worker pool, run-now, manual runs and restarts over one run table
// (internal/core/worker.go, internal/core/executor.go, internal/store/sqlite/queue.go).
//
// Every SQL statement is one atomic step and every worker has a program counter
// between steps, so a sequence of events is one interleaving.  An event that its
// actor cannot take in the current state changes nothing.

module Workers {
  import opened RunQueue

  /** Where a worker stands with the run it claimed. */
  datatype Stage = Loading | Executing | Deciding

  datatype Pc = Idle | Busy(stage: Stage, run: nat)

  datatype Ending = Succeeded | FailureNoticed | RequeueFailed | TaskLoadFailed | ManualFinished

  /** The chain that began with run `root` ended at run `last`. */
  datatype End = End(root: nat, how: Ending, last: nat)

  /** root[i] is the first run of i's chain; claims, ends and lost record what happened. */
  datatype State = State(table: Table, root: seq<nat>, pcs: seq<Pc>, manual: set<nat>,
                         claims: seq<nat>, ends: seq<End>, lost: set<nat>)

  datatype Event =
    | EnqueueTask(taskId: int)
    | StartManual(taskId: int)
    | FinishManual(run: nat, ok: bool, written: bool)
    | ClaimRun(w: nat)
    | LoadTask(w: nat, loaded: bool, written: bool)
    | ExecuteOk(w: nat)
    | ExecuteFailed(w: nat, written: bool)
    | Decide(w: nat, stored: bool)
    | Restart

  function WorkerName(w: nat): string { seq(w + 1, i => 'w') }

  function Init(workers: nat): State {
    State([], [], seq(workers, i => Idle), {}, [], [], {})
  }

  predicate At(s: State, w: nat, stage: Stage) {
    w < |s.pcs| && s.pcs[w].Busy? && s.pcs[w].stage == stage && s.pcs[w].run < |s.table|
  }

  predicate HasQueued(t: Table) { exists i :: 0 <= i < |t| && t[i].status == Queued }

  /** A new chain of one run, unless the index refuses it. */
  function NewChain(s: State, r: Run): State {
    if HasActive(s.table, r.taskId) then s
    else s.(table := s.table + [r], root := s.root + [|s.table|])
  }

  /** Finish, when the database accepted it. */
  function Write(t: Table, i: nat, status: Status, written: bool): Table
    requires i < |t|
  {
    if written then Finish(t, i, status) else t
  }

  function RootOf(s: State, i: nat): nat {
    if i < |s.root| then s.root[i] else i
  }

  function Ended(s: State, i: nat, how: Ending): seq<End> {
    s.ends + [End(RootOf(s, i), how, i)]
  }

  function Held(pcs: seq<Pc>, manual: set<nat>): set<nat> {
    manual + set w | 0 <= w < |pcs| && pcs[w].Busy? :: pcs[w].run
  }

  function RunsHeld(s: State): set<nat> { Held(s.pcs, s.manual) }

  function Step(s: State, e: Event, retries: int -> int): State {
    match e
    case EnqueueTask(taskId) => NewChain(s, Run(taskId, Queued, "", 1))
    case StartManual(taskId) =>
      if HasActive(s.table, taskId) then s
      else NewChain(s, Run(taskId, Running, "", 1)).(manual := s.manual + {|s.table|})
    case FinishManual(run, ok, written) =>
      if run !in s.manual || run >= |s.table| then s
      else s.(table := Write(s.table, run, if ok then Success else Failed, written),
              manual := s.manual - {run}, ends := Ended(s, run, ManualFinished))
    case ClaimRun(w) =>
      if w >= |s.pcs| || s.pcs[w] != Idle || !HasQueued(s.table) then s
      else
        var i := First(s.table, 0);
        s.(table := Claim(s.table, i, WorkerName(w)), pcs := s.pcs[w := Busy(Loading, i)],
           claims := s.claims + [i])
    case LoadTask(w, loaded, written) =>
      if !At(s, w, Loading) then s
      else if loaded then s.(pcs := s.pcs[w := Busy(Executing, s.pcs[w].run)])
      else s.(table := Write(s.table, s.pcs[w].run, Failed, written), pcs := s.pcs[w := Idle],
              ends := Ended(s, s.pcs[w].run, TaskLoadFailed))
    case ExecuteOk(w) =>
      if !At(s, w, Executing) then s
      else s.(table := Finish(s.table, s.pcs[w].run, Success), pcs := s.pcs[w := Idle],
              ends := Ended(s, s.pcs[w].run, Succeeded))
    case ExecuteFailed(w, written) =>
      if !At(s, w, Executing) then s
      else s.(table := Write(s.table, s.pcs[w].run, Failed, written),
              pcs := s.pcs[w := Busy(Deciding, s.pcs[w].run)])
    case Decide(w, stored) =>
      if !At(s, w, Deciding) then s
      else
        var i := s.pcs[w].run;
        var r := s.table[i];
        if r.attempt + 1 > retries(r.taskId) + 1 then
          s.(pcs := s.pcs[w := Idle], ends := Ended(s, i, FailureNoticed))
        else if !stored || HasActive(s.table, r.taskId) then
          s.(pcs := s.pcs[w := Idle], ends := Ended(s, i, RequeueFailed))
        else
          s.(pcs := s.pcs[w := Idle], table := s.table + [Run(r.taskId, Queued, "", r.attempt + 1)],
             root := s.root + [RootOf(s, i)])
    case Restart =>
      s.(table := Reap(s.table), pcs := seq(|s.pcs|, i => Idle), manual := {},
         lost := s.lost + set i | i in RunsHeld(s) :: RootOf(s, i))
  }

  /** The subselect of ClaimNext: the first queued run from i on. */
  function First(t: Table, i: nat): (k: nat)
    requires exists j :: i <= j < |t| && t[j].status == Queued
    ensures i <= k < |t| && t[k].status == Queued && forall j | i <= j < k :: t[j].status != Queued
    decreases |t| - i
  {
    if t[i].status == Queued then i else First(t, i + 1)
  }

  function After(s: State, es: seq<Event>, retries: int -> int): State
    decreases |es|
  {
    if es == [] then s else After(Step(s, es[0], retries), es[1..], retries)
  }

  // ---- what every step keeps ---------------------------------------------------

  function Budget(retries: int): int { if retries > 0 then retries + 1 else 1 }

  ghost predicate LastOfChain(root: seq<nat>, i: nat) {
    i < |root| && forall j | i < j < |root| :: root[j] != root[i]
  }

  /** p is the failed attempt that run i retries. */
  ghost predicate Precedes(t: Table, root: seq<nat>, p: nat, i: nat) {
    p < i < |t| == |root| && root[p] == root[i]
    && t[p].attempt + 1 == t[i].attempt && t[p].status == Failed
  }

  ghost predicate Linked(t: Table, root: seq<nat>, retries: int -> int, i: nat)
    requires i < |t| == |root|
  {
    root[i] <= i && root[root[i]] == root[i] && (t[i].attempt == 1 <==> root[i] == i)
    && t[i].taskId == t[root[i]].taskId
    && 1 <= t[i].attempt <= Budget(retries(t[i].taskId))
    && (t[i].attempt > 1 ==> exists p: nat :: Precedes(t, root, p, i))
  }

  /** Attempts count up by one along a chain, and every run of it but the last has failed. */
  ghost predicate Chains(t: Table, root: seq<nat>, retries: int -> int) {
    |root| == |t| && OneActive(t)
    && (forall i: nat | i < |t| :: Linked(t, root, retries, i))
    && (forall i, j | 0 <= i < j < |t| && root[i] == root[j] :: t[i].attempt < t[j].attempt && t[i].status == Failed)
  }

  /** Claims: handed out once each, oldest first, and never back in the queue. */
  ghost predicate Claims(t: Table, claims: seq<nat>) {
    (forall i, j | 0 <= i < j < |claims| :: claims[i] < claims[j])
    && (forall i | i in claims :: i < |t| && t[i].status != Queued)
    && (forall i, j | i in claims && 0 <= j < |t| && t[j].status == Queued :: i < j)
  }

  ghost predicate PcFits(t: Table, claims: seq<nat>, w: nat, pc: Pc) {
    pc.Busy? ==>
      pc.run < |t| && pc.run in claims && t[pc.run].worker == WorkerName(w)
      && (t[pc.run].status == Running || (pc.stage == Deciding && t[pc.run].status == Failed))
  }

  /** Holders: a run has at most one, it is the one the table names, and the run ends its chain. */
  ghost predicate Holders(t: Table, root: seq<nat>, pcs: seq<Pc>, manual: set<nat>, claims: seq<nat>) {
    |root| == |t|
    && (forall w: nat | w < |pcs| :: PcFits(t, claims, w, pcs[w]))
    && (forall v, w | 0 <= v < w < |pcs| && pcs[v].Busy? && pcs[w].Busy? :: pcs[v].run != pcs[w].run)
    && (forall i | i in manual :: i < |t| && t[i].status == Running && i !in claims)
    && (forall i | i in Held(pcs, manual) :: LastOfChain(root, i))
  }

  /** A run somebody still works on, or that waits for a worker. */
  ghost predicate Pending(t: Table, held: set<nat>, i: nat) {
    i < |t| && (t[i].status == Queued || i in held)
  }

  ghost predicate HasEnded(ends: seq<End>, c: nat) { exists k :: 0 <= k < |ends| && ends[k].root == c }

  /** An ending says what happened to the last run of its chain. */
  ghost predicate EndFits(t: Table, root: seq<nat>, e: End, retries: int -> int) {
    e.last < |t| == |root| && root[e.last] == e.root && LastOfChain(root, e.last)
    && (e.how == Succeeded ==> t[e.last].status == Success)
    && (e.how == FailureNoticed ==> t[e.last].attempt == Budget(retries(t[e.last].taskId)))
    && (e.how == RequeueFailed ==> t[e.last].attempt < Budget(retries(t[e.last].taskId)))
  }

  ghost predicate HasPending(t: Table, root: seq<nat>, held: set<nat>, c: nat)
    requires |root| == |t|
  {
    exists i: nat :: i < |t| && root[i] == c && Pending(t, held, i)
  }

  /** Each chain is pending, ended once, or lost to a restart, and only one of the three. */
  ghost predicate Endings(t: Table, root: seq<nat>, held: set<nat>, ends: seq<End>, lost: set<nat>,
                          retries: int -> int) {
    |root| == |t|
    && (forall i, j | 0 <= i < j < |ends| :: ends[i].root != ends[j].root)
    && (forall k | 0 <= k < |ends| :: EndFits(t, root, ends[k], retries))
    && (forall c | c in lost :: c < |t| && root[c] == c && !HasEnded(ends, c))
    && (forall i: nat | i < |t| && Pending(t, held, i) :: !HasEnded(ends, root[i]) && root[i] !in lost)
    && (forall c: nat | c < |t| && root[c] == c ::
          HasEnded(ends, c) || c in lost || HasPending(t, root, held, c))
  }

  ghost predicate Inv(s: State, retries: int -> int) {
    Chains(s.table, s.root, retries) && Claims(s.table, s.claims)
    && Holders(s.table, s.root, s.pcs, s.manual, s.claims)
    && Endings(s.table, s.root, RunsHeld(s), s.ends, s.lost, retries)
  }

  // ---- chains under each effect ---------------------------------------------------

  lemma ChainsNew(t: Table, root: seq<nat>, retries: int -> int, r: Run)
    requires Chains(t, root, retries) && !HasActive(t, r.taskId) && r.attempt == 1
    ensures Chains(t + [r], root + [|t|], retries)
  {
    ChainsKept(t, root, retries, r, |t|);
    forall i: nat | i < |t| ensures root[i] != |t| { assert Linked(t, root, retries, i); }
    assert Linked(t + [r], root + [|t|], retries, |t|);
  }

  lemma ChainsKept(t: Table, root: seq<nat>, retries: int -> int, r: Run, c: nat)
    requires Chains(t, root, retries) && !HasActive(t, r.taskId)
    ensures OneActive(t + [r])
    ensures forall i: nat | i < |t| :: Linked(t + [r], root + [c], retries, i)
  {
    forall i: nat | i < |t| ensures Linked(t + [r], root + [c], retries, i) {
      assert Linked(t, root, retries, i);
      if t[i].attempt > 1 {
        var p: nat :| Precedes(t, root, p, i);
        assert Precedes(t + [r], root + [c], p, i);
      }
    }
  }

  lemma ChainsRetry(t: Table, root: seq<nat>, retries: int -> int, p: nat, r: Run)
    requires Chains(t, root, retries) && LastOfChain(root, p) && !HasActive(t, r.taskId)
    requires t[p].status == Failed && r.attempt == t[p].attempt + 1 <= Budget(retries(r.taskId))
    requires r.taskId == t[p].taskId
    ensures Chains(t + [r], root + [root[p]], retries)
  {
    ChainsKept(t, root, retries, r, root[p]);
    assert Linked(t, root, retries, p);
    assert Precedes(t + [r], root + [root[p]], p, |t|);
    forall i: nat | i < |t| && root[i] == root[p] ensures t[i].attempt < r.attempt && t[i].status == Failed {
      assert i <= p;
    }
  }

  lemma ChainsWrite(t: Table, root: seq<nat>, retries: int -> int, i: nat, r: Run)
    requires Chains(t, root, retries) && LastOfChain(root, i)
    requires r.taskId == t[i].taskId && r.attempt == t[i].attempt && (r.Active() ==> t[i].Active())
    ensures Chains(t[i := r], root, retries)
  {
    var t' := t[i := r];
    forall j: nat | j < |t| ensures Linked(t', root, retries, j) {
      assert Linked(t, root, retries, j);
      if t[j].attempt > 1 {
        var p: nat :| Precedes(t, root, p, j);
        assert Precedes(t', root, p, j);
      }
    }
  }

  lemma ChainsReap(t: Table, root: seq<nat>, retries: int -> int)
    requires Chains(t, root, retries)
    ensures Chains(Reap(t), root, retries)
  {
    forall j: nat | j < |t| ensures Linked(Reap(t), root, retries, j) {
      assert Linked(t, root, retries, j);
      if t[j].attempt > 1 {
        var p: nat :| Precedes(t, root, p, j);
        assert Precedes(Reap(t), root, p, j);
      }
    }
  }

  // ---- claims under each effect ------------------------------------------------------

  lemma ClaimsAppend(t: Table, claims: seq<nat>, r: Run)
    requires Claims(t, claims)
    ensures Claims(t + [r], claims)
  {
  }

  lemma ClaimsWrite(t: Table, claims: seq<nat>, i: nat, r: Run)
    requires Claims(t, claims) && i < |t| && r.status != Queued
    ensures Claims(t[i := r], claims)
  {
  }

  lemma ClaimsNext(t: Table, claims: seq<nat>, i: nat, worker: string)
    requires Claims(t, claims) && NextQueued(t, i)
    ensures Claims(Claim(t, i, worker), claims + [i])
  {
    forall k | 0 <= k < |claims| ensures claims[k] < i { assert claims[k] in claims; }
  }

  lemma ClaimsReap(t: Table, claims: seq<nat>)
    requires Claims(t, claims)
    ensures Claims(Reap(t), claims)
  {
  }

  // ---- holders under each effect -------------------------------------------------------

  lemma HoldersAppend(t: Table, root: seq<nat>, pcs: seq<Pc>, manual: set<nat>, claims: seq<nat>, r: Run, c: nat)
    requires Holders(t, root, pcs, manual, claims) && Claims(t, claims)
    requires forall i | i in Held(pcs, manual) :: root[i] != c
    ensures Holders(t + [r], root + [c], pcs, manual, claims)
    ensures r.status == Running ==> Holders(t + [r], root + [c], pcs, manual + {|t|}, claims)
  {
    forall w: nat | w < |pcs| ensures PcFits(t + [r], claims, w, pcs[w]) {
      assert PcFits(t, claims, w, pcs[w]);
    }
    assert Held(pcs, manual + {|t|}) == Held(pcs, manual) + {|t|};
  }

  /** Worker w lets go of its run, whose row may have changed in the same step. */
  lemma HoldersRelease(t: Table, root: seq<nat>, pcs: seq<Pc>, manual: set<nat>, claims: seq<nat>, w: nat, r: Run)
    requires Holders(t, root, pcs, manual, claims) && w < |pcs| && pcs[w].Busy?
    ensures Holders(t[pcs[w].run := r], root, pcs[w := Idle], manual, claims)
    ensures Held(pcs[w := Idle], manual) == Held(pcs, manual) - {pcs[w].run}
  {
    var i := pcs[w].run;
    var t', pcs' := t[i := r], pcs[w := Idle];
    assert PcFits(t, claims, w, pcs[w]);
    forall v: nat | v < |pcs| ensures PcFits(t', claims, v, pcs'[v]) {
      assert PcFits(t, claims, v, pcs[v]);
    }
    forall j ensures j in Held(pcs', manual) <==> j in Held(pcs, manual) && j != i {
      if j in Held(pcs, manual) && j !in manual && j != i {
        var v :| 0 <= v < |pcs| && pcs[v].Busy? && pcs[v].run == j;
        assert pcs'[v].run == j;
      }
    }
  }

  /** Worker w goes on with the run it holds. */
  lemma HoldersStage(t: Table, root: seq<nat>, pcs: seq<Pc>, manual: set<nat>, claims: seq<nat>,
                     w: nat, stage: Stage, r: Run)
    requires Holders(t, root, pcs, manual, claims) && w < |pcs| && pcs[w].Busy?
    requires r.worker == t[pcs[w].run].worker
    requires r.status == Running || (stage == Deciding && r.status == Failed)
    ensures Holders(t[pcs[w].run := r], root, pcs[w := Busy(stage, pcs[w].run)], manual, claims)
    ensures Held(pcs[w := Busy(stage, pcs[w].run)], manual) == Held(pcs, manual)
  {
    var i := pcs[w].run;
    var pcs' := pcs[w := Busy(stage, i)];
    assert PcFits(t, claims, w, pcs[w]);
    forall v: nat | v < |pcs| ensures PcFits(t[i := r], claims, v, pcs'[v]) {
      assert PcFits(t, claims, v, pcs[v]);
    }
    forall j ensures j in Held(pcs', manual) <==> j in Held(pcs, manual) {
      if j in Held(pcs, manual) && j !in manual {
        var v :| 0 <= v < |pcs| && pcs[v].Busy? && pcs[v].run == j;
        assert pcs'[v].run == j;
      }
    }
  }

  lemma HoldersClaim(t: Table, root: seq<nat>, pcs: seq<Pc>, manual: set<nat>, claims: seq<nat>, w: nat, i: nat)
    requires Holders(t, root, pcs, manual, claims) && Claims(t, claims)
    requires w < |pcs| && pcs[w] == Idle && NextQueued(t, i) && LastOfChain(root, i)
    ensures Holders(Claim(t, i, WorkerName(w)), root, pcs[w := Busy(Loading, i)], manual, claims + [i])
    ensures Held(pcs[w := Busy(Loading, i)], manual) == Held(pcs, manual) + {i}
  {
    var pcs' := pcs[w := Busy(Loading, i)];
    forall v: nat | v < |pcs|
      ensures PcFits(Claim(t, i, WorkerName(w)), claims + [i], v, pcs'[v])
      ensures v != w && pcs[v].Busy? ==> pcs[v].run != i
    {
      assert PcFits(t, claims, v, pcs[v]);
    }
    forall j ensures j in Held(pcs', manual) <==> j in Held(pcs, manual) || j == i {
      if j == i { assert pcs'[w].run == i; }
      if j in Held(pcs, manual) && j !in manual {
        var v :| 0 <= v < |pcs| && pcs[v].Busy? && pcs[v].run == j;
        assert pcs'[v].run == j;
      }
    }
  }

  lemma HoldersManualDone(t: Table, root: seq<nat>, pcs: seq<Pc>, manual: set<nat>, claims: seq<nat>, i: nat, r: Run)
    requires Holders(t, root, pcs, manual, claims) && i in manual
    ensures Holders(t[i := r], root, pcs, manual - {i}, claims)
    ensures Held(pcs, manual - {i}) == Held(pcs, manual) - {i}
  {
    forall v: nat | v < |pcs|
      ensures PcFits(t[i := r], claims, v, pcs[v]) && (pcs[v].Busy? ==> pcs[v].run != i)
    {
      assert PcFits(t, claims, v, pcs[v]);
    }
  }

  // ---- endings under each effect -----------------------------------------------------

  ghost function Roots(root: seq<nat>, held: set<nat>): set<nat> {
    set i | i in held :: if i < |root| then root[i] else i
  }

  lemma EndingsNew(t: Table, root: seq<nat>, held: set<nat>, ends: seq<End>, lost: set<nat>, retries: int -> int,
                   r: Run, held': set<nat>)
    requires Endings(t, root, held, ends, lost, retries) && Chains(t, root, retries)
    requires held' == held + {|t|} || (held' == held && r.status == Queued)
    requires forall i | i in held :: i < |t|
    ensures Endings(t + [r], root + [|t|], held', ends, lost, retries)
  {
    forall i: nat | i < |t| ensures root[i] < |t| { assert Linked(t, root, retries, i); }
    forall k | 0 <= k < |ends| ensures EndFits(t + [r], root + [|t|], ends[k], retries) {
      assert EndFits(t, root, ends[k], retries);
    }
    assert !HasEnded(ends, |t|);
    forall c: nat | c <= |t| && (root + [|t|])[c] == c && !HasEnded(ends, c) && c !in lost
      ensures HasPending(t + [r], root + [|t|], held', c)
    {
      if c == |t| {
        assert Pending(t + [r], held', |t|);
      } else {
        var i: nat :| i < |t| && root[i] == c && Pending(t, held, i);
        assert Pending(t + [r], held', i);
      }
    }
    forall i: nat | i < |t| && Pending(t + [r], held', i) ensures Pending(t, held, i) {}
  }

  /** A retry: the chain of p stays pending, now through the new run. */
  lemma EndingsRetry(t: Table, root: seq<nat>, held: set<nat>, ends: seq<End>, lost: set<nat>, retries: int -> int,
                     p: nat, r: Run)
    requires Endings(t, root, held, ends, lost, retries) && Chains(t, root, retries)
    requires p in held && p < |t| && r.status == Queued
    requires forall i | i in held :: i < |t|
    ensures Endings(t + [r], root + [root[p]], held - {p}, ends, lost, retries)
  {
    var t', root', held' := t + [r], root + [root[p]], held - {p};
    assert Pending(t, held, p);
    forall k | 0 <= k < |ends| ensures EndFits(t', root', ends[k], retries) {
      assert EndFits(t, root, ends[k], retries);
    }
    forall i: nat | i < |t| && Pending(t', held', i) ensures Pending(t, held, i) {}
    forall c: nat | c <= |t| && root'[c] == c && !HasEnded(ends, c) && c !in lost
      ensures HasPending(t', root', held', c)
    {
      assert Linked(t, root, retries, p);
      if c == root[p] {
        assert Pending(t', held', |t|);
      } else {
        var i: nat :| i < |t| && root[i] == c && Pending(t, held, i);
        assert Pending(t', held', i);
      }
    }
  }

  /** A row changes while its run stays pending. */
  lemma EndingsWrite(t: Table, root: seq<nat>, held: set<nat>, ends: seq<End>, lost: set<nat>, retries: int -> int,
                     i: nat, r: Run, held': set<nat>)
    requires Endings(t, root, held, ends, lost, retries) && i < |t| && Pending(t, held, i)
    requires r.taskId == t[i].taskId && r.attempt == t[i].attempt && r.status != Queued
    requires held' == held + {i}
    ensures Endings(t[i := r], root, held', ends, lost, retries)
  {
    forall k | 0 <= k < |ends| ensures EndFits(t[i := r], root, ends[k], retries) {
      assert EndFits(t, root, ends[k], retries);
    }
    forall j: nat | j < |t| ensures Pending(t[i := r], held', j) <==> Pending(t, held, j) {}
    forall c: nat | c < |t| && HasPending(t, root, held, c) ensures HasPending(t[i := r], root, held', c) {
      var j: nat :| j < |t| && root[j] == c && Pending(t, held, j);
      assert Pending(t[i := r], held', j);
    }
  }

  /** The holder of i lets go of it for good: its chain has ended. */
  lemma EndingsEnd(t: Table, root: seq<nat>, held: set<nat>, ends: seq<End>, lost: set<nat>, retries: int -> int,
                   i: nat, r: Run, how: Ending)
    requires Endings(t, root, held, ends, lost, retries) && Chains(t, root, retries)
    requires forall j | j in held :: LastOfChain(root, j)
    requires i in held && i < |t|
    requires r.taskId == t[i].taskId && r.attempt == t[i].attempt && r.status != Queued
    requires EndFits(t[i := r], root, End(root[i], how, i), retries)
    ensures Endings(t[i := r], root, held - {i}, ends + [End(root[i], how, i)], lost, retries)
  {
    var t', held', ends' := t[i := r], held - {i}, ends + [End(root[i], how, i)];
    assert Pending(t, held, i);
    forall k | 0 <= k < |ends| ensures EndFits(t', root, ends[k], retries) {
      assert EndFits(t, root, ends[k], retries);
    }
    forall c ensures HasEnded(ends', c) <==> HasEnded(ends, c) || c == root[i] {
      if c == root[i] { assert ends'[|ends|].root == c; }
      if HasEnded(ends, c) {
        var k :| 0 <= k < |ends| && ends[k].root == c;
        assert ends'[k].root == c;
      }
    }
    forall j: nat | j < |t| && Pending(t', held', j) ensures Pending(t, held, j) && root[j] != root[i] {
      assert j != i;
    }
    forall c: nat | c < |t| && HasPending(t, root, held, c) && c != root[i] ensures HasPending(t', root, held', c) {
      var j: nat :| j < |t| && root[j] == c && Pending(t, held, j);
      assert Pending(t', held', j);
    }
  }

  lemma EndingsRestart(t: Table, root: seq<nat>, held: set<nat>, ends: seq<End>, lost: set<nat>, retries: int -> int)
    requires Endings(t, root, held, ends, lost, retries) && Chains(t, root, retries)
    requires forall i | i in held :: i < |t| && LastOfChain(root, i) && t[i].status != Queued
    ensures Endings(Reap(t), root, {}, ends, lost + Roots(root, held), retries)
  {
    forall k | 0 <= k < |ends| ensures EndFits(Reap(t), root, ends[k], retries) {
      assert EndFits(t, root, ends[k], retries);
    }
    forall c | c in Roots(root, held) ensures c < |t| && root[c] == c && !HasEnded(ends, c) {
      var i :| i in held && c == root[i];
      assert Linked(t, root, retries, i) && Pending(t, held, i);
    }
    forall i: nat | i < |t| && Pending(Reap(t), {}, i) ensures Pending(t, held, i) && root[i] !in Roots(root, held) {
      assert t[i].status == Queued;
    }
    forall c: nat | c < |t| && HasPending(t, root, held, c) && c !in Roots(root, held)
      ensures HasPending(Reap(t), root, {}, c)
    {
      var j: nat :| j < |t| && root[j] == c && Pending(t, held, j);
      assert Pending(Reap(t), {}, j);
    }
  }

  // ---- every step, every run -------------------------------------------------------------

  /** A queued or held run is the last of its chain. */
  lemma PendingIsLast(s: State, retries: int -> int, i: nat)
    requires Inv(s, retries) && Pending(s.table, RunsHeld(s), i)
    ensures LastOfChain(s.root, i)
  {
  }

  lemma HeldFits(s: State, retries: int -> int)
    requires Inv(s, retries)
    ensures |s.root| == |s.table|
    ensures forall i | i in RunsHeld(s) :: i < |s.table| && s.table[i].status != Queued && LastOfChain(s.root, i)
    ensures forall i | i in RunsHeld(s) :: Linked(s.table, s.root, retries, i)
    ensures forall w: nat | w < |s.pcs| :: PcFits(s.table, s.claims, w, s.pcs[w])
  {
    forall w: nat | w < |s.pcs| && s.pcs[w].Busy? ensures s.pcs[w].run < |s.table| && s.table[s.pcs[w].run].status != Queued {
      assert PcFits(s.table, s.claims, w, s.pcs[w]);
    }
  }

  lemma NewChainInv(s: State, r: Run, retries: int -> int)
    requires Inv(s, retries) && !HasActive(s.table, r.taskId) && r.attempt == 1
    ensures r.status == Queued ==> Inv(NewChain(s, r), retries)
    ensures r.status == Running ==> Inv(NewChain(s, r).(manual := s.manual + {|s.table|}), retries)
  {
    HeldFits(s, retries);
    ChainsNew(s.table, s.root, retries, r);
    ClaimsAppend(s.table, s.claims, r);
    forall i | i in RunsHeld(s) ensures s.root[i] != |s.table| { assert Linked(s.table, s.root, retries, i); }
    HoldersAppend(s.table, s.root, s.pcs, s.manual, s.claims, r, |s.table|);
    var held' := RunsHeld(s) + {|s.table|};
    assert Held(s.pcs, s.manual + {|s.table|}) == held';
    EndingsNew(s.table, s.root, RunsHeld(s), s.ends, s.lost, retries, r, held');
    if r.status == Queued {
      EndingsNew(s.table, s.root, RunsHeld(s), s.ends, s.lost, retries, r, RunsHeld(s));
    }
  }

  /** Worker w finishes with its run for good: r is what the row became. */
  lemma EndInv(s: State, w: nat, r: Run, how: Ending, retries: int -> int)
    requires Inv(s, retries) && w < |s.pcs| && s.pcs[w].Busy? && s.pcs[w].run < |s.table|
    requires var was := s.table[s.pcs[w].run];
             r.taskId == was.taskId && r.attempt == was.attempt && (r.Active() ==> was.Active()) && r.status != Queued
    requires how == Succeeded ==> r.status == Success
    requires how == FailureNoticed ==> r.attempt == Budget(retries(r.taskId))
    requires how == RequeueFailed ==> r.attempt < Budget(retries(r.taskId))
    ensures Inv(s.(table := s.table[s.pcs[w].run := r], pcs := s.pcs[w := Idle], ends := Ended(s, s.pcs[w].run, how)), retries)
  {
    var i := s.pcs[w].run;
    HeldFits(s, retries);
    assert i in RunsHeld(s);
    ChainsWrite(s.table, s.root, retries, i, r);
    ClaimsWrite(s.table, s.claims, i, r);
    HoldersRelease(s.table, s.root, s.pcs, s.manual, s.claims, w, r);
    EndingsEnd(s.table, s.root, RunsHeld(s), s.ends, s.lost, retries, i, r, how);
  }

  lemma StageInv(s: State, w: nat, stage: Stage, r: Run, retries: int -> int)
    requires Inv(s, retries) && w < |s.pcs| && s.pcs[w].Busy? && s.pcs[w].run < |s.table|
    requires var was := s.table[s.pcs[w].run];
             r.taskId == was.taskId && r.attempt == was.attempt && r.worker == was.worker && (r.Active() ==> was.Active())
    requires r.status == Running || (stage == Deciding && r.status == Failed)
    ensures Inv(s.(table := s.table[s.pcs[w].run := r], pcs := s.pcs[w := Busy(stage, s.pcs[w].run)]), retries)
  {
    var i := s.pcs[w].run;
    HeldFits(s, retries);
    assert i in RunsHeld(s);
    ChainsWrite(s.table, s.root, retries, i, r);
    ClaimsWrite(s.table, s.claims, i, r);
    HoldersStage(s.table, s.root, s.pcs, s.manual, s.claims, w, stage, r);
    EndingsWrite(s.table, s.root, RunsHeld(s), s.ends, s.lost, retries, i, r, RunsHeld(s));
  }

  lemma ClaimInv(s: State, w: nat, retries: int -> int)
    requires Inv(s, retries) && w < |s.pcs| && s.pcs[w] == Idle && HasQueued(s.table)
    ensures Inv(Step(s, ClaimRun(w), retries), retries)
  {
    var i := First(s.table, 0);
    var r := s.table[i].(status := Running, worker := WorkerName(w));
    PendingIsLast(s, retries, i);
    ChainsWrite(s.table, s.root, retries, i, r);
    ClaimsNext(s.table, s.claims, i, WorkerName(w));
    HoldersClaim(s.table, s.root, s.pcs, s.manual, s.claims, w, i);
    EndingsWrite(s.table, s.root, RunsHeld(s), s.ends, s.lost, retries, i, r, RunsHeld(s) + {i});
  }

  lemma RetryInv(s: State, w: nat, retries: int -> int)
    requires Inv(s, retries) && At(s, w, Deciding) && !HasActive(s.table, s.table[s.pcs[w].run].taskId)
    requires s.table[s.pcs[w].run].attempt <= retries(s.table[s.pcs[w].run].taskId)
    ensures Inv(Step(s, Decide(w, true), retries), retries)
  {
    hide Chains;
    hide Claims;
    hide Holders;
    hide Endings;
    var i := s.pcs[w].run;
    var p := s.table[i];
    var r := Run(p.taskId, Queued, "", p.attempt + 1);
    HeldFits(s, retries);
    assert i in RunsHeld(s) && PcFits(s.table, s.claims, w, s.pcs[w]) && Linked(s.table, s.root, retries, i);
    ChainsRetry(s.table, s.root, retries, i, r);
    ClaimsAppend(s.table, s.claims, r);
    HoldersRelease(s.table, s.root, s.pcs, s.manual, s.claims, w, p);
    assert s.table[i := p] == s.table;
    forall j | j in Held(s.pcs[w := Idle], s.manual) ensures s.root[j] != s.root[i] {}
    HoldersAppend(s.table, s.root, s.pcs[w := Idle], s.manual, s.claims, r, s.root[i]);
    EndingsRetry(s.table, s.root, RunsHeld(s), s.ends, s.lost, retries, i, r);
  }

  lemma RestartInv(s: State, retries: int -> int)
    requires Inv(s, retries)
    ensures Inv(Step(s, Restart, retries), retries)
  {
    hide Chains;
    hide Claims;
    hide Endings;
    HeldFits(s, retries);
    ChainsReap(s.table, s.root, retries);
    ClaimsReap(s.table, s.claims);
    EndingsRestart(s.table, s.root, RunsHeld(s), s.ends, s.lost, retries);
    assert Held(seq(|s.pcs|, i => Idle), {}) == {};
    assert (set i | i in RunsHeld(s) :: RootOf(s, i)) == Roots(s.root, RunsHeld(s));
  }

  lemma ManualInv(s: State, i: nat, ok: bool, written: bool, retries: int -> int)
    requires Inv(s, retries) && i in s.manual
    ensures Inv(Step(s, FinishManual(i, ok, written), retries), retries)
  {
    HeldFits(s, retries);
    var r := Write(s.table, i, if ok then Success else Failed, written)[i];
    assert Write(s.table, i, if ok then Success else Failed, written) == s.table[i := r];
    ChainsWrite(s.table, s.root, retries, i, r);
    ClaimsWrite(s.table, s.claims, i, r);
    HoldersManualDone(s.table, s.root, s.pcs, s.manual, s.claims, i, r);
    EndingsEnd(s.table, s.root, RunsHeld(s), s.ends, s.lost, retries, i, r, ManualFinished);
  }

  lemma WriteIsUpdate(t: Table, i: nat, status: Status, written: bool)
    requires i < |t|
    ensures Write(t, i, status, written) == t[i := if written then t[i].(status := status) else t[i]]
  {
  }

  lemma StepInv(s: State, e: Event, retries: int -> int)
    requires Inv(s, retries)
    ensures Inv(Step(s, e, retries), retries)
  {
    hide Claims;
    hide Endings;
    hide Chains;
    hide Holders;
    HeldFits(s, retries);
    match e
    case EnqueueTask(taskId) =>
      if !HasActive(s.table, taskId) { NewChainInv(s, Run(taskId, Queued, "", 1), retries); }
    case StartManual(taskId) =>
      if !HasActive(s.table, taskId) { NewChainInv(s, Run(taskId, Running, "", 1), retries); }
    case FinishManual(run, ok, written) =>
      if run in s.manual { ManualInv(s, run, ok, written, retries); }
    case ClaimRun(w) =>
      if w < |s.pcs| && s.pcs[w] == Idle && HasQueued(s.table) { ClaimInv(s, w, retries); }
    case LoadTask(w, loaded, written) =>
      if At(s, w, Loading) {
        var r := s.table[s.pcs[w].run];
        assert PcFits(s.table, s.claims, w, s.pcs[w]);
        assert s.table[s.pcs[w].run := r] == s.table;
        if loaded {
          StageInv(s, w, Executing, r, retries);
        } else {
          WriteIsUpdate(s.table, s.pcs[w].run, Failed, written);
          EndInv(s, w, if written then r.(status := Failed) else r, TaskLoadFailed, retries);
        }
      }
    case ExecuteOk(w) =>
      if At(s, w, Executing) {
        EndInv(s, w, s.table[s.pcs[w].run].(status := Success), Succeeded, retries);
      }
    case ExecuteFailed(w, written) =>
      if At(s, w, Executing) {
        var r := s.table[s.pcs[w].run];
        assert PcFits(s.table, s.claims, w, s.pcs[w]);
        WriteIsUpdate(s.table, s.pcs[w].run, Failed, written);
        StageInv(s, w, Deciding, if written then r.(status := Failed) else r, retries);
      }
    case Decide(w, stored) =>
      if At(s, w, Deciding) {
        var r := s.table[s.pcs[w].run];
        assert s.pcs[w].run in RunsHeld(s);
        assert PcFits(s.table, s.claims, w, s.pcs[w]) && Linked(s.table, s.root, retries, s.pcs[w].run);
        assert s.table[s.pcs[w].run := r] == s.table;
        if r.attempt + 1 > retries(r.taskId) + 1 {
          EndInv(s, w, r, FailureNoticed, retries);
        } else if !stored || HasActive(s.table, r.taskId) {
          EndInv(s, w, r, RequeueFailed, retries);
        } else {
          RetryInv(s, w, retries);
        }
      }
    case Restart => RestartInv(s, retries);
  }

  lemma {:induction false} RunInv(s: State, es: seq<Event>, retries: int -> int)
    requires Inv(s, retries)
    ensures Inv(After(s, es, retries), retries)
    decreases |es|
  {
    if es != [] {
      StepInv(s, es[0], retries);
      RunInv(Step(s, es[0], retries), es[1..], retries);
    }
  }

  // ---- what holds in every reachable state ------------------------------------------------

  /** The state after any interleaving of events, from an empty queue with n idle workers. */
  ghost predicate Reachable(s: State, n: nat, retries: int -> int) {
    exists es :: s == After(Init(n), es, retries)
  }

  lemma ReachableInv(s: State, n: nat, retries: int -> int)
    requires Reachable(s, n, retries)
    ensures Inv(s, retries)
  {
    var es :| s == After(Init(n), es, retries);
    RunInv(Init(n), es, retries);
  }

  /** At most one queued or running run per task; a claim happens once per run and in id order. */
  lemma QueueSafety(s: State, n: nat, retries: int -> int)
    requires Reachable(s, n, retries)
    ensures OneActive(s.table)
    ensures forall i, j | 0 <= i < j < |s.claims| :: s.claims[i] < s.claims[j]
    ensures forall i, j | i in s.claims && 0 <= j < |s.table| && s.table[j].status == Queued :: i < j
  {
    ReachableInv(s, n, retries);
  }

  /** A run in progress has one holder, and the row names it. */
  lemma NoSharedRun(s: State, n: nat, retries: int -> int, v: nat, w: nat)
    requires Reachable(s, n, retries) && v < |s.pcs| && w < |s.pcs| && s.pcs[v].Busy? && s.pcs[w].Busy?
    ensures s.pcs[v].run == s.pcs[w].run ==> v == w
    ensures s.pcs[v].run !in s.manual
    ensures s.pcs[v].run < |s.table| && s.table[s.pcs[v].run].worker == WorkerName(v)
    ensures s.pcs[v].stage != Deciding ==> s.table[s.pcs[v].run].status == Running
  {
    ReachableInv(s, n, retries);
    assert PcFits(s.table, s.claims, v, s.pcs[v]);
  }

  ghost function ChainUpTo(root: seq<nat>, i: nat): set<nat>
    requires i < |root|
  {
    set j: nat | j <= i && root[j] == root[i]
  }

  lemma {:induction false} AttemptIsPosition(t: Table, root: seq<nat>, retries: int -> int, i: nat)
    requires Chains(t, root, retries) && i < |t|
    ensures |ChainUpTo(root, i)| == t[i].attempt
  {
    assert Linked(t, root, retries, i);
    if t[i].attempt == 1 {
      forall j: nat | j < i ensures root[j] != i { assert Linked(t, root, retries, j); }
      assert ChainUpTo(root, i) == {i};
    } else {
      var p: nat :| Precedes(t, root, p, i);
      AttemptIsPosition(t, root, retries, p);
      forall j: nat | p < j < i ensures root[j] != root[i] {}
      assert ChainUpTo(root, i) == ChainUpTo(root, p) + {i};
    }
  }

  /** The k-th run of a chain carries attempt k, k stays within the budget, and whatever came
      before it in the chain has failed. */
  lemma RetriesCountUp(s: State, n: nat, retries: int -> int, i: nat)
    requires Reachable(s, n, retries) && i < |s.table|
    ensures |s.root| == |s.table| && s.table[i].attempt == |ChainUpTo(s.root, i)|
    ensures s.table[i].attempt <= if retries(s.table[i].taskId) > 0 then retries(s.table[i].taskId) + 1 else 1
    ensures forall j | j in ChainUpTo(s.root, i) && j != i ::
              s.table[j].status == Failed && s.table[j].taskId == s.table[i].taskId
  {
    ReachableInv(s, n, retries);
    AttemptIsPosition(s.table, s.root, retries, i);
    assert Linked(s.table, s.root, retries, i);
    forall j | j in ChainUpTo(s.root, i) ensures Linked(s.table, s.root, retries, j) {}
  }

  /** A chain is still pending, has ended in exactly one way, or was cut off by a restart. */
  lemma ChainEndsOnce(s: State, n: nat, retries: int -> int, c: nat)
    requires Reachable(s, n, retries) && c < |s.table| == |s.root| && s.root[c] == c
    ensures var pending := HasPending(s.table, s.root, RunsHeld(s), c);
            (pending && !HasEnded(s.ends, c) && c !in s.lost)
            || (!pending && HasEnded(s.ends, c) && c !in s.lost)
            || (!pending && !HasEnded(s.ends, c) && c in s.lost)
    ensures forall j, k | 0 <= j < |s.ends| && 0 <= k < |s.ends| && s.ends[j].root == s.ends[k].root :: j == k
    ensures forall k | 0 <= k < |s.ends| :: EndFits(s.table, s.root, s.ends[k], retries)
    ensures forall e | e in s.ends ::
              e.last < |s.table|
              && var r := s.table[e.last]; var most := if retries(r.taskId) > 0 then retries(r.taskId) + 1 else 1;
                 (e.how == Succeeded ==> r.status == Success)
                 && (e.how == FailureNoticed ==> r.attempt == most) && (e.how == RequeueFailed ==> r.attempt < most)
  {
    ReachableInv(s, n, retries);
    forall e | e in s.ends ensures EndFits(s.table, s.root, e, retries) {
      var k :| 0 <= k < |s.ends| && s.ends[k] == e;
    }
  }

  // ---- one worker's turn, imperatively -------------------------------------------------------

  /** What the outside world does to one turn of a worker. */
  datatype Script = Script(loaded: bool, ok: bool, written: bool, stored: bool)

  lemma ClaimStep(s: State, w: nat, retries: int -> int, id: nat)
    requires w < |s.pcs| && s.pcs[w] == Idle && NextQueued(s.table, id)
    ensures HasQueued(s.table) && First(s.table, 0) == id
    ensures var s1 := Step(s, ClaimRun(w), retries);
            At(s1, w, Loading) && s1.pcs == s.pcs[w := Busy(Loading, id)]
            && s1.table == Claim(s.table, id, WorkerName(w)) && s1.claims == s.claims + [id]
  {
    assert s.table[id].status == Queued;
    assert First(s.table, 0) == id;
  }

  lemma LoadStep(s: State, w: nat, retries: int -> int, loaded: bool, written: bool)
    requires At(s, w, Loading)
    ensures var id, s1 := s.pcs[w].run, Step(s, LoadTask(w, loaded, written), retries);
            s1.claims == s.claims
            && s1.pcs == s.pcs[w := if loaded then Busy(Executing, id) else Idle]
            && s1.table == if loaded then s.table else Write(s.table, id, Failed, written)
  {
  }

  lemma ExecuteStep(s: State, w: nat, retries: int -> int, ok: bool, written: bool)
    requires At(s, w, Executing)
    ensures var id, s1 := s.pcs[w].run, Step(s, if ok then ExecuteOk(w) else ExecuteFailed(w, written), retries);
            s1.claims == s.claims
            && s1.pcs == s.pcs[w := if ok then Idle else Busy(Deciding, id)]
            && s1.table == if ok then Finish(s.table, id, Success) else Write(s.table, id, Failed, written)
  {
  }

  lemma DecideStep(s: State, w: nat, retries: int -> int, stored: bool)
    requires At(s, w, Deciding)
    ensures var r, s1 := s.table[s.pcs[w].run], Step(s, Decide(w, stored), retries);
            s1.claims == s.claims && s1.pcs == s.pcs[w := Idle]
            && s1.table == if !stored || r.attempt + 1 > retries(r.taskId) + 1 then s.table
                           else Insert(s.table, Run(r.taskId, Queued, "", r.attempt + 1))
  {
  }

  /** The steps a script leads through after the claim. */
  function Steps(w: nat, script: Script): seq<Event> {
    if !script.loaded then [LoadTask(w, false, script.written)]
    else if script.ok then [LoadTask(w, true, script.written), ExecuteOk(w)]
    else [LoadTask(w, true, script.written), ExecuteFailed(w, script.written), Decide(w, script.stored)]
  }

  /** What execute leaves of the table: run id fails if its task cannot be loaded and succeeds if its execution
      did; otherwise it fails, and is queued once more if an attempt is left, the insert is stored and no other
      run of its task is queued or running. */
  ghost predicate Executed(t: Table, t': Table, id: nat, retries: int -> int, script: Script)
    requires id < |t|
  {
    var r := t[id];
    var failed := if script.written then t[id := r.(status := Failed)] else t;
    if !script.loaded then t' == failed
    else if script.ok then t' == t[id := r.(status := Success)]
    else Retried(failed, t', r, retries, script.stored)
  }

  ghost predicate Retried(t: Table, t': Table, r: Run, retries: int -> int, stored: bool) {
    if r.attempt <= retries(r.taskId) && stored
       && (forall j | 0 <= j < |t| && t[j].taskId == r.taskId :: t[j].status != Queued && t[j].status != Running) then
      t' == t + [Run(r.taskId, Queued, "", r.attempt + 1)]
    else t' == t
  }

  /** Pool.execute on a claimed run: load, execute, and on failure decide about a retry. */
  method Execute(store: Store, w: nat, id: nat, retries: int -> int, script: Script, ghost s: State)
    returns (ghost es: seq<Event>)
    requires store.Valid() && store.runs == s.table
    requires At(s, w, Loading) && s.pcs[w].run == id
    modifies store
    ensures store.Valid() && store.runs == After(s, es, retries).table
    ensures After(s, es, retries).pcs == s.pcs[w := Idle] && After(s, es, retries).claims == s.claims
    ensures es == Steps(w, script) && Executed(old(store.runs), store.runs, id, retries, script)
  {
    hide Step;
    var row := store.runs[id];
    LoadStep(s, w, retries, script.loaded, script.written);
    ghost var load := LoadTask(w, script.loaded, script.written);
    if !script.loaded {
      if script.written { store.FinishRun(id, Failed); }
      es := [load];
      After1(s, load, retries);
      return;
    }
    ghost var s1 := Step(s, load, retries);
    ExecuteStep(s1, w, retries, script.ok, script.written);
    if script.ok {
      store.FinishRun(id, Success);
      es := [load, ExecuteOk(w)];
      After2(s, es[0], es[1], retries);
      return;
    }
    if script.written { store.FinishRun(id, Failed); }
    ghost var s2 := Step(s1, ExecuteFailed(w, script.written), retries);
    DecideStep(s2, w, retries, script.stored);
    es := [load, ExecuteFailed(w, script.written), Decide(w, script.stored)];
    After3(s, es[0], es[1], es[2], retries);
    ghost var failed := store.runs;
    assert failed == if script.written then old(store.runs)[id := row.(status := Failed)] else old(store.runs);
    if row.attempt + 1 > retries(row.taskId) + 1 { return; }
    if script.stored {
      var exhausted, res := store.Requeue(row.taskId, row.attempt + 1, retries(row.taskId) + 1);
      InsertPlainly(failed, Run(row.taskId, Queued, "", row.attempt + 1));
      hide HasActive;
      hide Insert;
      assert Retried(failed, store.runs, row, retries, true);
    }
  }

  lemma InsertPlainly(t: Table, r: Run)
    ensures Insert(t, r) ==
            if forall j | 0 <= j < |t| && t[j].taskId == r.taskId :: t[j].status != Queued && t[j].status != Running
            then t + [r] else t
  {
  }

  /** Pool.ProcessNext over the store: one turn of a worker is a run of the machine above. */
  method ProcessNext(store: Store, w: nat, retries: int -> int, script: Script, ghost s: State)
    returns (did: bool, ghost es: seq<Event>, ghost id: nat)
    requires store.Valid() && store.runs == s.table
    requires w < |s.pcs| && s.pcs[w] == Idle
    modifies store
    ensures store.Valid() && store.runs == After(s, es, retries).table
    ensures After(s, es, retries).pcs == s.pcs
    ensures did <==> exists i :: 0 <= i < |old(store.runs)| && old(store.runs)[i].status == Queued
    ensures !did ==> es == [] && store.runs == old(store.runs)
    ensures did ==> es == [ClaimRun(w)] + Steps(w, script)
    ensures did ==>
              id < |old(store.runs)| && old(store.runs)[id].status == Queued
              && (forall j | 0 <= j < id :: old(store.runs)[j].status != Queued)
              && Executed(old(store.runs)[id := old(store.runs)[id].(status := Running, worker := WorkerName(w))],
                          store.runs, id, retries, script)
    ensures did ==> After(s, es, retries).claims == s.claims + [First(s.table, 0)]
  {
    hide Step;
    hide First;
    es, id := [], 0;
    var run: nat;
    did, run := store.ClaimNext(WorkerName(w));
    id := run;
    if !did { return; }
    ClaimStep(s, w, retries, id);
    ghost var s1 := Step(s, ClaimRun(w), retries);
    ghost var rest := Execute(store, w, run, retries, script, s1);
    es := [ClaimRun(w)] + rest;
    assert es[1..] == rest;
  }

  // ---- everyone else's statements ------------------------------------------------------------------

  /** The dispatcher's enqueue and run-now. */
  method EnqueueOne(store: Store, taskId: int, retries: int -> int, ghost s: State) returns (res: Inserted)
    requires store.Valid() && store.runs == s.table
    modifies store
    ensures store.Valid() && store.runs == Step(s, EnqueueTask(taskId), retries).table
    ensures store.runs == if res == ActiveRun then old(store.runs) else old(store.runs) + [Run(taskId, Queued, "", 1)]
    ensures res == ActiveRun <==> HasActive(old(store.runs), taskId)
  {
    res := store.Enqueue(taskId);
  }

  /** A manual run from its start to its end: it is refused beside an active run, and otherwise ends with the
      status of its execution, unless that could not be written. */
  method RunManually(store: Store, taskId: int, ok: bool, written: bool, retries: int -> int, ghost s: State)
    returns (res: Inserted)
    requires store.Valid() && store.runs == s.table
    modifies store
    ensures store.Valid() && (res == ActiveRun <==> HasActive(old(store.runs), taskId))
    ensures res == ActiveRun ==> store.runs == old(store.runs)
    ensures res != ActiveRun ==>
              res == Row(|s.table|)
              && store.runs == old(store.runs)
                  + [Run(taskId, if !written then Running else if ok then Success else Failed, "", 1)]
              && store.runs == Step(Step(s, StartManual(taskId), retries),
                                    FinishManual(|s.table|, ok, written), retries).table
  {
    res := store.StartManualRun(taskId);
    if res == ActiveRun { return; }
    if written { store.FinishRun(res.id, if ok then Success else Failed); }
  }

  /** A daemon's start: exactly the runs in progress fail. */
  method Boot(store: Store, retries: int -> int, ghost s: State) returns (ids: seq<nat>)
    requires store.Valid() && store.runs == s.table
    modifies store
    ensures store.Valid() && store.runs == Step(s, Restart, retries).table
    ensures forall k: nat :: k in ids <==> k < |store.runs| && old(store.runs)[k].status == Running
    ensures forall k: nat | k in ids && k < |store.runs| :: store.runs[k].status == Failed
  {
    ids := store.ReapStale();
  }

  lemma After1(s: State, a: Event, retries: int -> int)
    ensures After(s, [a], retries) == Step(s, a, retries)
  {
    assert [a][1..] == [];
    assert After(Step(s, a, retries), [], retries) == Step(s, a, retries);
  }

  lemma After2(s: State, a: Event, b: Event, retries: int -> int)
    ensures After(s, [a, b], retries) == Step(Step(s, a, retries), b, retries)
  {
    assert [a, b][1..] == [b];
    After1(Step(s, a, retries), b, retries);
  }

  lemma After3(s: State, a: Event, b: Event, c: Event, retries: int -> int)
    ensures After(s, [a, b, c], retries) == Step(Step(Step(s, a, retries), b, retries), c, retries)
  {
    assert [a, b, c][1..] == [b, c];
    After2(Step(s, a, retries), b, c, retries);
  }
}
