// Login throttling: the counters against the full log of failures (internal/api/auth.go).
// Times are in milliseconds, read from a clock that never goes back.

module LoginLimiter {

  const WINDOW: int := 15 * 60 * 1000
  const MAX_FAIL: nat := 10

  datatype Option<+T> = None | Some(value: T)

  // ---- what the counters stand for ------------------------------------------------------

  datatype Entry = Failed(key: string, at: int) | Succeeded(key: string)

  /** When the key failed since its last success. */
  function Times(log: seq<Entry>, key: string): seq<int> {
    if log == [] then []
    else
      var before, e := Times(log[..|log| - 1], key), log[|log| - 1];
      if e.key != key then before else if e.Succeeded? then [] else before + [e.at]
  }

  /** How many of the last failures follow one another within the window. */
  function Chain(times: seq<int>): nat {
    var n := |times|;
    if n == 0 then 0
    else if n > 1 && times[n - 1] - times[n - 2] < WINDOW then Chain(times[..n - 1]) + 1
    else 1
  }

  /** Chain is the longest such run: it breaks nowhere, and cannot reach further back. */
  lemma {:induction false} ChainIsLongest(times: seq<int>)
    ensures var n, c := |times|, Chain(times);
            c <= n && (n > 0 ==> c > 0)
            && (forall i | n - c < i < n :: times[i] - times[i - 1] < WINDOW)
            && (0 < n - c ==> times[n - c] - times[n - c - 1] >= WINDOW)
  {
    var n := |times|;
    if n > 1 && times[n - 1] - times[n - 2] < WINDOW { ChainIsLongest(times[..n - 1]); }
  }

  /** Without a gap of a window, every failure lengthens the chain by one. */
  lemma {:induction false} ChainGrows(times: seq<int>, i: nat, j: nat)
    requires 1 <= i <= j <= |times|
    requires forall m | i <= m < j :: times[m] - times[m - 1] < WINDOW
    ensures Chain(times[..j]) == Chain(times[..i]) + (j - i)
  {
    if i < j {
      assert times[..j][..j - 1] == times[..j - 1];
      ChainGrows(times, i, j - 1);
    }
  }

  /** Two failures that each lock a key out have a gap of a window between them, so one chain of
      failures locks out once. */
  lemma OneLockoutPerChain(times: seq<int>, i: nat, j: nat)
    requires 1 <= i < j <= |times| && Chain(times[..i]) == MAX_FAIL && Chain(times[..j]) == MAX_FAIL
    ensures exists m :: i <= m < j && times[m] - times[m - 1] >= WINDOW
  {
    if forall m | i <= m < j :: times[m] - times[m - 1] < WINDOW {
      ChainGrows(times, i, j);
    }
  }

  /** And a chain that reaches the limit does lock out: at its MAX_FAIL-th failure. */
  lemma LockoutHappens(times: seq<int>)
    requires Chain(times) >= MAX_FAIL
    ensures Chain(times) <= |times| && Chain(times[..|times| - Chain(times) + MAX_FAIL]) == MAX_FAIL
  {
    ChainIsLongest(times);
    var start := |times| - Chain(times) + 1;
    ChainGrows(times, start, start + MAX_FAIL - 1);
    ChainGrows(times, start, |times|);
    assert times[..|times|] == times;
  }

  // ---- the answers, from the log alone --------------------------------------------------------

  /** Whether the key is locked out at now, and for how long. */
  function BlockedFor(log: seq<Entry>, key: string, now: int): Option<int> {
    var t := Times(log, key);
    if t == [] || now - t[|t| - 1] >= WINDOW || Chain(t) < MAX_FAIL then None
    else Some(WINDOW - (now - t[|t| - 1]))
  }

  function Fails(keys: seq<string>, now: int): seq<Entry> { seq(|keys|, i requires 0 <= i < |keys| => Failed(keys[i], now)) }

  function Successes(keys: seq<string>): seq<Entry> { seq(|keys|, i requires 0 <= i < |keys| => Succeeded(keys[i])) }

  /** The key's counter right after its failure is logged. */
  function CountAt(log: seq<Entry>, keys: seq<string>, now: int, i: nat): nat
    requires i < |keys|
  {
    Chain(Times(log + Fails(keys[..i + 1], now), keys[i]))
  }

  function Worst(log: seq<Entry>, keys: seq<string>, now: int): nat {
    if keys == [] then 0
    else
      var n, before := |keys| - 1, Worst(log, keys[..|keys| - 1], now);
      if CountAt(log, keys, now, n) > before then CountAt(log, keys, now, n) else before
  }

  function Locked(log: seq<Entry>, keys: seq<string>, now: int): seq<string> {
    if keys == [] then []
    else
      var n := |keys| - 1;
      Locked(log, keys[..n], now) + if CountAt(log, keys, now, n) == MAX_FAIL then [keys[n]] else []
  }

  function Delay(worst: nat): nat { if worst * 100 > 2000 then 2000 else worst * 100 }

  // ---- the same in plain terms -------------------------------------------------------------------

  /** A failure of the key is remembered, a success of it forgets them all, and other keys do not matter. */
  lemma TimesPlainly(log: seq<Entry>, key: string, other: string, at: int)
    requires other != key
    ensures Times([], key) == [] && Times(log + [Failed(key, at)], key) == Times(log, key) + [at]
    ensures Times(log + [Succeeded(key)], key) == []
    ensures Times(log + [Failed(other, at)], key) == Times(log + [Succeeded(other)], key) == Times(log, key)
  {
    assert (log + [Failed(key, at)])[..|log|] == log && (log + [Failed(other, at)])[..|log|] == log;
    assert (log + [Succeeded(key)])[..|log|] == log && (log + [Succeeded(other)])[..|log|] == log;
  }

  /** A key is locked out exactly while its last ten failures, and now, follow one another within fifteen
      minutes; it waits for the rest of the last quarter. */
  lemma BlockedPlainly(log: seq<Entry>, key: string, now: int)
    ensures var t := Times(log, key); var n := |t|;
            BlockedFor(log, key, now) ==
            if n >= 10 && (forall i | n - 10 < i < n :: t[i] - t[i - 1] < 900_000) && now - t[n - 1] < 900_000
            then Some(900_000 - (now - t[n - 1])) else None
  {
    ChainIsLongest(Times(log, key));
  }

  /** The failures count in the order of the keys.  The answer is delayed by a tenth of a second for each
      failure of the longest chain among them, two seconds at most, and exactly the keys whose chain has just
      reached ten are reported. */
  lemma FailPlainly(log: seq<Entry>, keys: seq<string>, now: int)
    ensures var d := Delay(Worst(log, keys, now));
            d <= 2000
            && (forall i | 0 <= i < |keys| :: d >= 100 * CountAt(log, keys, now, i) || d == 2000)
            && (d == 0 <==> keys == [])
            && (d > 0 ==> exists i :: 0 <= i < |keys| && (d == 100 * CountAt(log, keys, now, i)
                                                          || (d == 2000 && CountAt(log, keys, now, i) >= 20)))
    ensures forall k :: k in Locked(log, keys, now) <==>
              exists i :: 0 <= i < |keys| && keys[i] == k && CountAt(log, keys, now, i) == 10
    ensures forall i | 0 <= i < |keys| ::
              CountAt(log, keys, now, i) == Chain(Times(log + seq(i + 1, j requires 0 <= j <= i => Failed(keys[j], now)), keys[i]))
  {
    WorstIsLargest(log, keys, now);
    LockedAre(log, keys, now);
    hide Worst;
    hide Locked;
    hide Times;
    forall i | 0 <= i < |keys|
      ensures CountAt(log, keys, now, i)
              == Chain(Times(log + seq(i + 1, j requires 0 <= j <= i => Failed(keys[j], now)), keys[i]))
    {
      assert Fails(keys[..i + 1], now) == seq(i + 1, j requires 0 <= j <= i => Failed(keys[j], now));
    }
  }

  lemma {:induction false} WorstIsLargest(log: seq<Entry>, keys: seq<string>, now: int)
    ensures forall i | 0 <= i < |keys| :: 0 < CountAt(log, keys, now, i) <= Worst(log, keys, now)
    ensures if keys == [] then Worst(log, keys, now) == 0
            else exists i :: 0 <= i < |keys| && CountAt(log, keys, now, i) == Worst(log, keys, now)
  {
    if keys != [] {
      var n := |keys| - 1;
      hide CountAt;
      WorstIsLargest(log, keys[..n], now);
      forall i: nat | i < n ensures CountAt(log, keys[..n], now, i) == CountAt(log, keys, now, i) {
        CountPrefix(log, keys, now, n, i);
      }
      Counted(log, keys, now);
    }
  }

  lemma CountPrefix(log: seq<Entry>, keys: seq<string>, now: int, n: nat, i: nat)
    requires i < n <= |keys|
    ensures CountAt(log, keys[..n], now, i) == CountAt(log, keys, now, i)
  {
    assert keys[..n][..i + 1] == keys[..i + 1];
  }

  /** A key has a chain right after it failed. */
  lemma Counted(log: seq<Entry>, keys: seq<string>, now: int)
    requires keys != []
    ensures CountAt(log, keys, now, |keys| - 1) > 0
  {
    var n := |keys| - 1;
    FailsSnoc(keys, now, n);
    assert log + Fails(keys[..n + 1], now) == log + Fails(keys[..n], now) + [Failed(keys[n], now)];
    TimesPlainly(log + Fails(keys[..n], now), keys[n], keys[n] + "x", now);
  }

  lemma {:induction false} LockedAre(log: seq<Entry>, keys: seq<string>, now: int)
    ensures forall k :: k in Locked(log, keys, now) <==>
              exists i :: 0 <= i < |keys| && keys[i] == k && CountAt(log, keys, now, i) == MAX_FAIL
  {
    if keys != [] {
      var n := |keys| - 1;
      hide CountAt;
      LockedAre(log, keys[..n], now);
      forall i: nat | i < n ensures CountAt(log, keys[..n], now, i) == CountAt(log, keys, now, i) {
        CountPrefix(log, keys, now, n, i);
      }
    }
  }

  lemma FailsSnoc(keys: seq<string>, now: int, n: nat)
    requires n < |keys|
    ensures Fails(keys[..n + 1], now) == Fails(keys[..n], now) + [Failed(keys[n], now)]
    ensures keys[..n + 1][..n] == keys[..n]
  {
  }

  // ---- the counters ------------------------------------------------------------------------------

  datatype Counter = Counter(n: nat, last: int)

  /** A key without a counter has no failure within the window that could still count. */
  ghost predicate Stands(fails: map<string, Counter>, log: seq<Entry>, clock: int, key: string) {
    var t := Times(log, key);
    if key in fails then t != [] && fails[key] == Counter(Chain(t), t[|t| - 1]) && fails[key].last <= clock
    else t == [] || clock - t[|t| - 1] >= WINDOW
  }

  lemma StandsLater(fails: map<string, Counter>, log: seq<Entry>, clock: int, now: int, key: string)
    requires Stands(fails, log, clock, key) && clock <= now
    ensures Stands(fails, log, now, key)
  {
  }

  ghost predicate AllStand(fails: map<string, Counter>, log: seq<Entry>, clock: int) {
    forall key :: Stands(fails, log, clock, key)
  }

  function NextCount(fails: map<string, Counter>, k: string, now: int): nat {
    if k !in fails || now - fails[k].last >= WINDOW then 1 else fails[k].n + 1
  }

  lemma CountStands(fails: map<string, Counter>, log: seq<Entry>, now: int, k: string)
    requires AllStand(fails, log, now)
    ensures var n, log' := NextCount(fails, k, now), log + [Failed(k, now)];
            Chain(Times(log', k)) == n && AllStand(fails[k := Counter(n, now)], log', now)
  {
    var fails', log' := fails[k := Counter(NextCount(fails, k, now), now)], log + [Failed(k, now)];
    assert Stands(fails, log, now, k);
    forall key ensures Stands(fails', log', now, key) {
      assert Stands(fails, log, now, key);
    }
  }

  /** What one turn of fail's loop adds to the answer. */
  lemma AnswerOne(log: seq<Entry>, keys: seq<string>, now: int, i: nat, n: nat)
    requires i < |keys| && n == Chain(Times(log + Fails(keys[..i], now) + [Failed(keys[i], now)], keys[i]))
    ensures log + Fails(keys[..i], now) + [Failed(keys[i], now)] == log + Fails(keys[..i + 1], now)
    ensures Worst(log, keys[..i + 1], now) ==
            if n > Worst(log, keys[..i], now) then n else Worst(log, keys[..i], now)
    ensures Locked(log, keys[..i + 1], now) ==
            Locked(log, keys[..i], now) + if n == MAX_FAIL then [keys[i]] else []
  {
    FailsSnoc(keys, now, i);
    assert log + Fails(keys[..i], now) + [Failed(keys[i], now)] == log + Fails(keys[..i + 1], now);
    assert keys[..i + 1][..i + 1] == keys[..i + 1];
    assert CountAt(log, keys[..i + 1], now, i) == n;
  }

  class Limiter {
    var fails: map<string, Counter>
    ghost var log: seq<Entry>
    ghost var clock: int

    ghost predicate Valid() reads this { AllStand(fails, log, clock) }

    constructor ()
      ensures Valid() && log == [] && clock == 0
    {
      fails, log, clock := map[], [], 0;
      new;
      forall key ensures Stands(fails, log, clock, key) { }
    }

    ghost method Tick(now: int)
      requires Valid() && clock <= now
      modifies this`clock
      ensures Valid() && clock == now
    {
      forall key ensures Stands(fails, log, now, key) { StandsLater(fails, log, clock, now, key); }
      clock := now;
    }

    method Blocked(key: string, now: int) returns (wait: Option<int>)
      requires Valid() && clock <= now
      modifies this
      ensures Valid() && clock == now && log == old(log)
      ensures wait == BlockedFor(log, key, now)
    {
      Tick(now);
      assert Stands(fails, log, clock, key);
      if key !in fails { return None; }
      var f := fails[key];
      if now - f.last >= WINDOW {
        Drop(key);
        return None;
      }
      if f.n < MAX_FAIL { return None; }
      return Some(WINDOW - (now - f.last));
    }

    /** Forgetting a counter the window has passed by changes nothing it stands for. */
    method Drop(key: string)
      requires Valid() && key in fails && clock - fails[key].last >= WINDOW
      modifies this`fails
      ensures Valid() && fails == old(fails) - {key}
    {
      assert Stands(fails, log, clock, key);
      forall k ensures Stands(fails - {key}, log, clock, k) { assert Stands(fails, log, clock, k); }
      fails := fails - {key};
    }

    method Fail(keys: seq<string>, now: int) returns (delay: nat, locked: seq<string>)
      requires Valid() && clock <= now
      modifies this
      ensures Valid() && clock == now && log == old(log) + Fails(keys, now)
      ensures delay == Delay(Worst(old(log), keys, now)) && locked == Locked(old(log), keys, now)
    {
      Tick(now);
      hide AllStand;
      hide Worst;
      hide Locked;
      hide Times;
      var worst := 0;
      locked := [];
      assert log == old(log) + Fails(keys[..0], now);
      for i := 0 to |keys|
        invariant Valid() && clock == now && log == old(log) + Fails(keys[..i], now)
        invariant worst == Worst(old(log), keys[..i], now) && locked == Locked(old(log), keys[..i], now)
      {
        var k := keys[i];
        var n := if k !in fails || now - fails[k].last >= WINDOW then 1 else fails[k].n + 1;
        CountStands(fails, log, now, k);
        AnswerOne(old(log), keys, now, i, n);
        fails := fails[k := Counter(n, now)];
        log := log + [Failed(k, now)];
        if n > worst { worst := n; }
        if n == MAX_FAIL { locked := locked + [k]; }
      }
      assert keys[..|keys|] == keys;
      delay := if worst * 100 > 2000 then 2000 else worst * 100;
    }

    method Succeed(keys: seq<string>)
      requires Valid()
      modifies this
      ensures Valid() && clock == old(clock) && log == old(log) + Successes(keys)
    {
      assert log == old(log) + Successes(keys[..0]);
      for i := 0 to |keys|
        invariant Valid() && clock == old(clock) && log == old(log) + Successes(keys[..i])
      {
        var k := keys[i];
        forall key ensures Stands(fails - {k}, log + [Succeeded(k)], clock, key) {
          assert Stands(fails, log, clock, key);
        }
        assert log + [Succeeded(k)] == old(log) + Successes(keys[..i + 1]);
        fails, log := fails - {k}, log + [Succeeded(k)];
      }
      assert keys[..|keys|] == keys;
    }

    method Sweep(now: int)
      requires Valid() && clock <= now
      modifies this
      ensures Valid() && clock == now && log == old(log)
      ensures forall k :: k in fails <==> k in old(fails) && now - old(fails)[k].last < WINDOW
      ensures forall k | k in fails :: fails[k] == old(fails)[k]
    {
      Tick(now);
      var todo := fails.Keys;
      while todo != {}
        invariant Valid() && clock == now && log == old(log) && todo <= fails.Keys <= old(fails).Keys
        invariant forall k | k in fails :: fails[k] == old(fails)[k]
        invariant forall k | k in old(fails) && k !in todo :: k in fails <==> now - old(fails)[k].last < WINDOW
      {
        var k :| k in todo;
        todo := todo - {k};
        if now - fails[k].last >= WINDOW { Drop(k); }
      }
    }
  }

  // ---- whole histories -------------------------------------------------------------------------------

  datatype Op = AskBlocked(key: string, now: int) | DoFail(keys: seq<string>, now: int) | DoSucceed(keys: seq<string>)
              | DoSweep(now: int)

  datatype Answer = Wait(wait: Option<int>) | Penalty(delay: nat, locked: seq<string>)

  predicate InTime(clock: int, ops: seq<Op>)
    decreases |ops|
  {
    ops == [] ||
    (ops[0].DoSucceed? && InTime(clock, ops[1..])) ||
    (!ops[0].DoSucceed? && clock <= ops[0].now && InTime(ops[0].now, ops[1..]))
  }

  /** What the operations answer, from the log alone; a sweep adds and answers nothing. */
  function Answers(log: seq<Entry>, ops: seq<Op>): seq<Answer>
    decreases |ops|
  {
    if ops == [] then []
    else match ops[0]
      case AskBlocked(key, now) => [Wait(BlockedFor(log, key, now))] + Answers(log, ops[1..])
      case DoFail(keys, now) =>
        [Penalty(Delay(Worst(log, keys, now)), Locked(log, keys, now))] + Answers(log + Fails(keys, now), ops[1..])
      case DoSucceed(keys) => Answers(log + Successes(keys), ops[1..])
      case DoSweep(_) => Answers(log, ops[1..])
  }

  function Unswept(ops: seq<Op>): seq<Op> {
    if ops == [] then [] else (if ops[0].DoSweep? then [] else [ops[0]]) + Unswept(ops[1..])
  }

  /** The counters answer every history as the full log would. */
  method Play(ops: seq<Op>) returns (answers: seq<Answer>)
    requires InTime(0, ops)
    ensures answers == Answers([], ops)
  {
    var l := new Limiter();
    answers := [];
    for i := 0 to |ops|
      invariant fresh(l) && l.Valid() && InTime(l.clock, ops[i..])
      invariant answers + Answers(l.log, ops[i..]) == Answers([], ops)
    {
      assert ops[i..][0] == ops[i] && ops[i..][1..] == ops[i + 1..];
      ghost var was, log := answers, l.log;
      match ops[i]
      case AskBlocked(key, now) =>
        var w := l.Blocked(key, now);
        answers := answers + [Wait(w)];
        assert answers + Answers(l.log, ops[i + 1..]) == was + ([Wait(w)] + Answers(l.log, ops[i + 1..]));
      case DoFail(keys, now) =>
        var d, locked := l.Fail(keys, now);
        answers := answers + [Penalty(d, locked)];
        assert answers + Answers(l.log, ops[i + 1..]) == was + ([Penalty(d, locked)] + Answers(l.log, ops[i + 1..]));
      case DoSucceed(keys) =>
        l.Succeed(keys);
      case DoSweep(now) =>
        l.Sweep(now);
    }
    assert answers + Answers(l.log, []) == answers;
  }

  /** Sweeping at any times changes no answer. */
  lemma {:induction false} SweepsAreInvisible(log: seq<Entry>, ops: seq<Op>)
    ensures Answers(log, ops) == Answers(log, Unswept(ops))
    decreases |ops|
  {
    if ops != [] {
      var rest := Unswept(ops[1..]);
      match ops[0]
      case AskBlocked(key, now) => SweepsAreInvisible(log, ops[1..]); assert Unswept(ops)[1..] == rest;
      case DoFail(keys, now) => SweepsAreInvisible(log + Fails(keys, now), ops[1..]); assert Unswept(ops)[1..] == rest;
      case DoSucceed(keys) => SweepsAreInvisible(log + Successes(keys), ops[1..]); assert Unswept(ops)[1..] == rest;
      case DoSweep(_) => SweepsAreInvisible(log, ops[1..]); assert Unswept(ops) == rest;
    }
  }

  lemma {:induction false} InTimeFrom(c: int, later: int, ops: seq<Op>)
    requires c <= later && InTime(later, ops)
    ensures InTime(c, ops)
    decreases |ops|
  {
    if ops != [] && ops[0].DoSucceed? { InTimeFrom(c, later, ops[1..]); }
  }

  lemma {:induction false} UnsweptInTime(c: int, ops: seq<Op>)
    requires InTime(c, ops)
    ensures InTime(c, Unswept(ops))
    decreases |ops|
  {
    if ops != [] {
      var c' := if ops[0].DoSucceed? then c else ops[0].now;
      UnsweptInTime(c', ops[1..]);
      if ops[0].DoSweep? {
        assert Unswept(ops) == Unswept(ops[1..]);
        InTimeFrom(c, c', Unswept(ops[1..]));
      } else {
        assert Unswept(ops) == [ops[0]] + Unswept(ops[1..]);
        assert Unswept(ops)[0] == ops[0] && Unswept(ops)[1..] == Unswept(ops[1..]);
      }
    }
  }

  /** Two limiters that see the same calls, one of them swept at any times, answer alike. */
  method PlayUnswept(ops: seq<Op>) returns (swept: seq<Answer>, unswept: seq<Answer>)
    requires InTime(0, ops)
    ensures swept == unswept == Answers([], ops)
  {
    UnsweptInTime(0, ops);
    SweepsAreInvisible([], ops);
    swept := Play(ops);
    unswept := Play(Unswept(ops));
  }
}
