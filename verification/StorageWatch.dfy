// The storage monitor: two-level hysteresis on free space, and alert episodes that
// survive restarts (internal/core/monitor.go, internal/store/sqlite/alert.go).
// Shares and slack are reals; sizes are integers.

module StorageWatch {

  const LOW_WARN := 1
  const LOW_CRITICAL := 2
  const WARN_SHARE := 0.10
  const WARN_ROUNDS := 3
  const CRIT_SHARE := 0.05
  const CRIT_ROUNDS := 1
  const RECOVER_SLACK := 1.2
  const UNREACHABLE_AFTER := 2

  predicate Below(free: int, total: int, round: int, prev: int, level: int, share: real, rounds: int) {
    var slack := if prev >= level then RECOVER_SLACK else 1.0;
    free as real < total as real * share * slack
    || (round > 0 && free as real < (round * rounds) as real * slack)
  }

  /** lowLevel: 0 fine, 1 warning, 2 critical. */
  function LowLevel(free: int, total: int, round: int, prev: int): int {
    if Below(free, total, round, prev, LOW_CRITICAL, CRIT_SHARE, CRIT_ROUNDS) then LOW_CRITICAL
    else if Below(free, total, round, prev, LOW_WARN, WARN_SHARE, WARN_ROUNDS) then LOW_WARN
    else 0
  }

  /** The free space below which a level is entered: a share of the volume or a few rounds of
      backups, whichever is more. */
  function Threshold(total: int, round: int, level: int): real {
    var share := total as real * (if level == LOW_CRITICAL then CRIT_SHARE else WARN_SHARE);
    var rounds := (round * (if level == LOW_CRITICAL then CRIT_ROUNDS else WARN_ROUNDS)) as real;
    if round > 0 && rounds > share then rounds else share
  }

  /** A level is entered below its threshold and left only with a fifth more than that. */
  lemma LowLevelMeaning(free: int, total: int, round: int, prev: int, level: int)
    requires total > 0 && 0 <= prev <= 2 && 1 <= level <= 2
    ensures LowLevel(free, total, round, prev) >= level <==>
            free as real < Threshold(total, round, level) * (if prev >= level then RECOVER_SLACK else 1.0)
    ensures 0.0 < Threshold(total, round, LOW_CRITICAL) * 2.0 <= Threshold(total, round, LOW_WARN)
  {
    assert Threshold(total, round, LOW_CRITICAL) * 2.0 <= Threshold(total, round, LOW_WARN);
  }

  /** The same in whole numbers: critical below a twentieth of the volume or one round of backups, low below a
      tenth or three rounds; a level once reached is left only at a fifth more, in each of these. */
  lemma LevelsPlainly(free: int, total: int, round: int, prev: int)
    requires round >= 0 && total >= 0 && free >= 0
    ensures LowLevel(free, total, round, prev) ==
            if prev < 2 then
              if 20 * free < total || free < round then 2
              else if prev < 1 then (if 10 * free < total || free < 3 * round then 1 else 0)
              else if 25 * free < 3 * total || 5 * free < 18 * round then 1 else 0
            else
              if 50 * free < 3 * total || 5 * free < 6 * round then 2
              else if 25 * free < 3 * total || 5 * free < 18 * round then 1 else 0
  {
  }

  /** Judging the same observation again changes nothing. */
  lemma Idempotent(free: int, total: int, round: int, prev: int)
    requires total > 0 && 0 <= prev <= 2
    ensures var l := LowLevel(free, total, round, prev); LowLevel(free, total, round, l) == l
  {
  }

  /** More free space never grades worse, and a worse past never grades better. */
  lemma Monotone(free: int, free': int, total: int, round: int, prev: int, prev': int)
    requires total > 0 && free <= free' && 0 <= prev' <= prev <= 2
    ensures LowLevel(free', total, round, prev') <= LowLevel(free, total, round, prev)
  {
  }

  // ---- the alert log of one storage -------------------------------------------------

  datatype Entry = Observed(free: int) | Low(level: int) | SpaceRecovered

  /** Since the last alert at this level nothing as high as `bound` was observed. */
  predicate Unrelieved(log: seq<Entry>, level: int, bound: real) {
    log != [] &&
    match log[|log| - 1]
    case Low(l) => l == level || Unrelieved(log[..|log| - 1], level, bound)
    case Observed(free) => free as real < bound && Unrelieved(log[..|log| - 1], level, bound)
    case SpaceRecovered => Unrelieved(log[..|log| - 1], level, bound)
  }

  lemma {:induction false} RelievedSince(log: seq<Entry>, level: int, bound: real, i: nat)
    requires i < |log| && log[i] == Low(level) && !Unrelieved(log, level, bound)
    ensures exists k :: i < k < |log| && log[k].Observed? && log[k].free as real >= bound
  {
    var init := log[..|log| - 1];
    if i == |log| - 1 || (log[|log| - 1].Observed? && log[|log| - 1].free as real >= bound) {
      assert log[|log| - 1].Observed?;
    } else {
      assert init[i] == log[i];
      RelievedSince(init, level, bound, i);
      var k :| i < k < |init| && init[k].Observed? && init[k].free as real >= bound;
      assert log[k] == init[k];
    }
  }

  function Bound(total: int, round: int, level: int): real { Threshold(total, round, level) * RECOVER_SLACK }

  /** Every alert was preceded by relief from the previous alert at its level, if any. */
  ghost predicate Spaced(log: seq<Entry>, total: int, round: int) {
    forall i | 0 <= i < |log| && log[i].Low? :: !Unrelieved(log[..i], log[i].level, Bound(total, round, log[i].level))
  }

  ghost predicate SpaceFits(log: seq<Entry>, level: int, total: int, round: int) {
    0 <= level <= 2 && Spaced(log, total, round)
    && (forall i | 0 <= i < |log| && log[i].Low? :: 1 <= log[i].level <= 2)
    && (Unrelieved(log, LOW_WARN, Bound(total, round, LOW_WARN)) ==> level >= LOW_WARN)
    && (Unrelieved(log, LOW_CRITICAL, Bound(total, round, LOW_CRITICAL)) ==> level >= LOW_CRITICAL)
  }

  lemma SpaceSnoc(log: seq<Entry>, e: Entry, total: int, round: int)
    requires Spaced(log, total, round)
    requires e.Low? ==> !Unrelieved(log, e.level, Bound(total, round, e.level))
    ensures Spaced(log + [e], total, round) && (log + [e])[..|log|] == log
  {
    forall i | 0 <= i < |log| ensures (log + [e])[..i] == log[..i] && (log + [e])[i] == log[i] {}
  }

  /** An observation relieves the alerts whose bound it reaches, and no others. */
  lemma Observe(log: seq<Entry>, prev: int, free: int, total: int, round: int, level: int)
    requires SpaceFits(log, prev, total, round) && total > 0
    requires level == prev || level == LowLevel(free, total, round, prev) < prev
    ensures SpaceFits(log + [Observed(free)], level, total, round)
  {
    LowLevelMeaning(free, total, round, prev, LOW_WARN);
    LowLevelMeaning(free, total, round, prev, LOW_CRITICAL);
    SpaceSnoc(log, Observed(free), total, round);
    var log1 := log + [Observed(free)];
    assert forall i | 0 <= i < |log| :: log1[i] == log[i];
    hide LowLevel;
    hide Threshold;
    hide Spaced;
  }

  /** An alert at a level that was not reached before follows no unrelieved one. */
  lemma Raise(log: seq<Entry>, prev: int, level: int, total: int, round: int)
    requires SpaceFits(log, prev, total, round) && prev < level <= 2
    ensures SpaceFits(log + [Low(level)], level, total, round)
  {
    SpaceSnoc(log, Low(level), total, round);
    assert forall i | 0 <= i < |log| :: (log + [Low(level)])[i] == log[i];
    hide Spaced;
    hide Bound;
  }

  lemma Recover(log: seq<Entry>, level: int, total: int, round: int)
    requires SpaceFits(log, level, total, round)
    ensures SpaceFits(log + [SpaceRecovered], level, total, round)
  {
    SpaceSnoc(log, SpaceRecovered, total, round);
    assert forall i | 0 <= i < |log| :: (log + [SpaceRecovered])[i] == log[i];
    hide Spaced;
    hide Bound;
  }

  /** What one observation does to the log and the stored level. */
  lemma SpaceStep(log: seq<Entry>, prev: int, free: int, total: int, round: int)
    requires SpaceFits(log, prev, total, round) && total > 0
    ensures var log1, level := log + [Observed(free)], LowLevel(free, total, round, prev);
            SpaceFits(log1, prev, total, round)
            && (level < prev ==> SpaceFits(log1, level, total, round))
            && (level > prev ==> SpaceFits(log1 + [Low(level)], level, total, round))
            && (level == 0 ==> SpaceFits(log1 + [SpaceRecovered], 0, total, round))
  {
    var log1, level := log + [Observed(free)], LowLevel(free, total, round, prev);
    assert 0 <= prev && 0 <= level <= 2;
    hide SpaceFits;
    hide LowLevel;
    Observe(log, prev, free, total, round, prev);
    if level < prev { Observe(log, prev, free, total, round, level); }
    if level > prev { Raise(log1, prev, level, total, round); }
    if level == 0 { Recover(log1, 0, total, round); }
  }

  /** Two low-space alerts at one level have an observation between them that lies at least a
      fifth above the level's threshold. */
  lemma AlertsAreSpaced(log: seq<Entry>, total: int, round: int, i: nat, j: nat)
    requires Spaced(log, total, round) && i < j < |log| && log[i].Low? && log[j] == log[i]
    ensures exists k :: i < k < j && log[k].Observed? && log[k].free as real >= Bound(total, round, log[i].level)
  {
    RelievedSince(log[..j], log[i].level, Bound(total, round, log[i].level), i);
    var k :| i < k < j && log[..j][k].Observed? && log[..j][k].free as real >= Bound(total, round, log[i].level);
    assert log[k] == log[..j][k];
  }

  // ---- reachability -----------------------------------------------------------------

  datatype Reach = Unreachable | Recovered

  /** Unreachable and recovered notices take turns, beginning with unreachable. */
  ghost predicate TakeTurns(log: seq<Reach>) {
    forall i | 0 <= i < |log| :: log[i] == if i % 2 == 0 then Unreachable else Recovered
  }

  class Storage {
    const total: int
    const round: int
    var level: int          // open storage_low episode, 0 if none
    var unreachable: bool   // open storage_unreachable episode
    var misses: nat         // in memory: lost with the process
    ghost var log: seq<Entry>
    ghost var reach: seq<Reach>

    ghost predicate Valid() reads this {
      total > 0 && SpaceFits(log, level, total, round)
      && TakeTurns(reach) && (unreachable <==> |reach| % 2 == 1)
    }

    constructor (total: int, round: int)
      requires total > 0
      ensures Valid() && this.total == total && this.round == round && log == [] && reach == []
    {
      this.total, this.round := total, round;
      level, unreachable, misses := 0, false, 0;
      log, reach := [], [];
    }

    /** judgeCapacity: the alert goes out only when the level rises and the store recorded it. */
    method JudgeCapacity(free: int, readOk: bool, writeOk: bool)
      requires Valid()
      modifies this`level, this`log
      ensures Valid()
      ensures var next := LowLevel(free, total, round, old(level));
              var stored := readOk && writeOk && next != old(level);
              level == (if stored then next else old(level))
              && log == old(log) + [Observed(free)]
                        + (if stored && next > old(level) then [Low(next)]
                           else if stored && next == 0 then [SpaceRecovered] else [])
    {
      SpaceStep(log, level, free, total, round);
      log := log + [Observed(free)];
      if !readOk { return; }
      var next := LowLevel(free, total, round, level);
      if next == level { return; }
      if !writeOk { return; }
      var prev := level;
      level := next;
      if next == 0 {
        log := log + [SpaceRecovered];
      } else if next > prev {
        log := log + [Low(next)];
      }
    }

    /** unreachable: the second failed probe in a row opens the episode, and only opening alerts. */
    method ProbeFailed(storeOk: bool)
      requires Valid()
      modifies this`misses, this`unreachable, this`reach
      ensures Valid() && misses == old(misses) + 1
      ensures var opens := misses >= 2 && storeOk;
              unreachable == (old(unreachable) || opens)
              && reach == old(reach) + (if opens && !old(unreachable) then [Unreachable] else [])
    {
      misses := misses + 1;
      if misses < UNREACHABLE_AFTER { return; }
      if !storeOk { return; }
      var prev := unreachable;
      unreachable := true;
      if !prev { reach := reach + [Unreachable]; }
    }

    /** reachable: closing an open episode is what reports the recovery. */
    method ProbeOk(storeOk: bool)
      requires Valid()
      modifies this`misses, this`unreachable, this`reach
      ensures Valid() && misses == 0
      ensures unreachable == (old(unreachable) && !storeOk)
      ensures reach == old(reach) + (if storeOk && old(unreachable) then [Recovered] else [])
    {
      misses := 0;
      if !storeOk { return; }
      var was := unreachable;
      unreachable := false;
      if was { reach := reach + [Recovered]; }
    }

    /** A restart keeps the episodes and forgets the count. */
    method Restart()
      requires Valid()
      modifies this`misses
      ensures Valid() && misses == 0
    {
      misses := 0;
    }
  }
}
