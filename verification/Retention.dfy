// The keep rules of a retention policy (internal/core/retention.go).
//
// A policy is a union of rules.  Each rule puts an artifact in a bucket and keeps
// the newest artifact of each of the first `count` distinct buckets, newest bucket
// first: a day, an ISO week or a month for the GFS rules, and the artifact itself
// for keep_last.  How a timestamp maps to a day, week or month is left arbitrary.

module Retention {

  datatype Artifact = Artifact(id: int, storageId: int, key: string, size: int, createdAt: int)

  datatype Option<+T> = None | Some(value: T)

  datatype Gfs = Gfs(daily: int, weekly: int, monthly: int)

  datatype Policy = Policy(keepLast: int, gfs: Option<Gfs>)
  {
    /** Retention.Enabled: whether any keep rule is configured. */
    predicate Enabled() {
      keepLast > 0 || (gfs.Some? && (gfs.value.daily > 0 || gfs.value.weekly > 0 || gfs.value.monthly > 0))
    }
  }

  /** The period a timestamp falls in; nothing is assumed about these functions. */
  datatype Calendar = Calendar(day: int -> string, week: int -> string, month: int -> string)

  datatype Bucket = Itself(artifact: Artifact) | Period(name: string)

  datatype Rule = Rule(count: int, bucket: Artifact -> Bucket)

  // ---- newest-first order -------------------------------------------------

  predicate Newer(a: Artifact, b: Artifact) {
    a.createdAt > b.createdAt || (a.createdAt == b.createdAt && a.id > b.id)
  }

  ghost predicate UniqueIds(s: set<Artifact>) {
    forall a, b | a in s && b in s && a.id == b.id :: a == b
  }

  ghost predicate NewestFirst(s: seq<Artifact>) {
    forall i, j | 0 <= i < j < |s| :: Newer(s[i], s[j])
  }

  ghost function Elements(s: seq<Artifact>): set<Artifact> { set a | a in s }

  ghost function NewerThan(s: set<Artifact>, a: Artifact): set<Artifact> {
    set b | b in s && Newer(b, a)
  }

  ghost function Buckets(s: set<Artifact>, rule: Rule): set<Bucket> {
    set b | b in s :: rule.bucket(b)
  }

  // ---- what a policy keeps, without sorting or counting positions ----------

  /** a is the newest artifact of its bucket, and fewer than `count` buckets are newer. */
  ghost predicate ChosenBy(s: set<Artifact>, rule: Rule, a: Artifact) {
    a in s
    && rule.bucket(a) !in Buckets(NewerThan(s, a), rule)
    && |Buckets(NewerThan(s, a), rule)| < rule.count
  }

  ghost function Chosen(s: set<Artifact>, rule: Rule): set<Artifact> {
    set a | a in s && ChosenBy(s, rule, a)
  }

  function LastRule(p: Policy): Rule { Rule(p.keepLast, a => Itself(a)) }

  function PeriodRule(count: int, period: int -> string): Rule {
    Rule(count, (a: Artifact) => Period(period(a.createdAt)))
  }

  function Rules(p: Policy, cal: Calendar): seq<Rule> {
    [LastRule(p)] +
    if p.gfs.None? then [] else
      [PeriodRule(p.gfs.value.daily, cal.day), PeriodRule(p.gfs.value.weekly, cal.week),
       PeriodRule(p.gfs.value.monthly, cal.month)]
  }

  ghost function KeptBy(s: set<Artifact>, rules: seq<Rule>): set<Artifact> {
    if rules == [] then {} else KeptBy(s, rules[..|rules| - 1]) + Chosen(s, rules[|rules| - 1])
  }

  ghost function Kept(s: set<Artifact>, p: Policy, cal: Calendar): set<Artifact> {
    KeptBy(s, Rules(p, cal))
  }

  // ---- lemmas on one rule --------------------------------------------------

  /** Every nonempty set of artifacts has an oldest one, all others being newer. */
  lemma {:induction false} Oldest(s: set<Artifact>) returns (o: Artifact)
    requires s != {} && UniqueIds(s)
    ensures o in s && NewerThan(s, o) == s - {o}
  {
    o :| o in s;
    if s != {o} {
      var p := Oldest(s - {o});
      forall a | a in s && a != p && a != o ensures Newer(a, p) {
        assert a in NewerThan(s - {o}, p);
      }
      if Newer(o, p) { o := p; }
      assert NewerThan(s, o) == s - {o};
    }
  }

  lemma {:induction false} Newest(s: set<Artifact>) returns (m: Artifact)
    requires s != {} && UniqueIds(s)
    ensures m in s && NewerThan(s, m) == {}
  {
    m :| m in s;
    if s != {m} {
      var p := Newest(s - {m});
      if Newer(p, m) { m := p; }
    }
  }

  lemma BucketsMonotone(s: set<Artifact>, t: set<Artifact>, rule: Rule)
    requires s <= t
    ensures Buckets(s, rule) <= Buckets(t, rule) && |Buckets(s, rule)| <= |Buckets(t, rule)|
  {
    CardinalityMonotone(Buckets(s, rule), Buckets(t, rule));
  }

  lemma {:induction false} CardinalityMonotone<T>(x: set<T>, y: set<T>)
    requires x <= y
    ensures |x| <= |y|
  {
    assert y == x + (y - x) && |x + (y - x)| == |x| + |y - x|;
  }

  /** The newest artifact of a bucket represented in x. */
  lemma Representative(x: set<Artifact>, rule: Rule, b: Bucket) returns (m: Artifact)
    requires UniqueIds(x) && b in Buckets(x, rule)
    ensures m in x && rule.bucket(m) == b && b !in Buckets(NewerThan(x, m), rule)
  {
    m :| m in x && rule.bucket(m) == b;
    var same := set a | a in x && rule.bucket(a) == b;
    assert m in same;
    m := Newest(same);
    forall a | a in NewerThan(x, m) ensures rule.bucket(a) != b {
      assert a !in NewerThan(same, m);
    }
  }

  /** A rule fills up: with `count` buckets present, at least `count` buckets are represented. */
  lemma {:induction false} ChosenFills(x: set<Artifact>, rule: Rule)
    requires UniqueIds(x) && |Buckets(x, rule)| >= rule.count
    ensures |Buckets(Chosen(x, rule), rule)| >= rule.count
    decreases |x|
  {
    if x == {} || rule.count <= 0 { return; }
    var o := Oldest(x);
    var y := x - {o};
    if |Buckets(y, rule)| >= rule.count {
      ChosenFills(y, rule);
      forall a | a in Chosen(y, rule) ensures a in Chosen(x, rule) {
        assert NewerThan(y, a) == NewerThan(x, a);
      }
      BucketsMonotone(Chosen(y, rule), Chosen(x, rule), rule);
    } else {
      assert Buckets(x, rule) == Buckets(y, rule) + {rule.bucket(o)};
      forall b | b in Buckets(x, rule) ensures b in Buckets(Chosen(x, rule), rule) {
        var m := Representative(x, rule, b);
        var newer := Buckets(NewerThan(x, m), rule);
        assert newer <= Buckets(x, rule) - {b};
        CardinalityMonotone(newer, Buckets(x, rule) - {b});
        assert m in Chosen(x, rule);
      }
      assert Buckets(x, rule) <= Buckets(Chosen(x, rule), rule);
      CardinalityMonotone(Buckets(x, rule), Buckets(Chosen(x, rule), rule));
    }
  }

  /** If `count` buckets of s are newer than a, and t holds s's choices, so they are in t. */
  lemma EnoughNewer(s: set<Artifact>, t: set<Artifact>, rule: Rule, a: Artifact)
    requires UniqueIds(s) && Chosen(s, rule) <= t <= s
    requires |Buckets(NewerThan(s, a), rule)| >= rule.count
    ensures |Buckets(NewerThan(t, a), rule)| >= rule.count
  {
    var x := NewerThan(s, a);
    ChosenFills(x, rule);
    forall b | b in Chosen(x, rule) ensures b in NewerThan(t, a) {
      assert NewerThan(x, b) == NewerThan(s, b);
    }
    BucketsMonotone(Chosen(x, rule), NewerThan(t, a), rule);
  }

  /** Deleting what a rule does not choose leaves its choices as they were. */
  lemma ChosenStable(s: set<Artifact>, t: set<Artifact>, rule: Rule)
    requires UniqueIds(s) && Chosen(s, rule) <= t <= s
    ensures Chosen(t, rule) == Chosen(s, rule)
  {
    forall a | a in t ensures ChosenBy(t, rule, a) <==> ChosenBy(s, rule, a) {
      BucketsMonotone(NewerThan(t, a), NewerThan(s, a), rule);
      if |Buckets(NewerThan(s, a), rule)| >= rule.count {
        EnoughNewer(s, t, rule, a);
      } else if rule.bucket(a) in Buckets(NewerThan(s, a), rule) {
        var m := Representative(s, rule, rule.bucket(a));
        BucketsMonotone(NewerThan(s, m), NewerThan(s, a), rule);
        assert m in Chosen(s, rule) && m in NewerThan(t, a);
      }
    }
  }

  /** A new newest artifact only ever pushes older ones out. */
  lemma ChosenAfterInsert(s: set<Artifact>, rule: Rule, x: Artifact)
    requires UniqueIds(s)
    ensures Chosen(s + {x}, rule) <= Chosen(s, rule) + {x}
  {
    forall a | a in s && ChosenBy(s + {x}, rule, a) ensures ChosenBy(s, rule, a) {
      BucketsMonotone(NewerThan(s, a), NewerThan(s + {x}, a), rule);
    }
  }

  lemma {:induction false} InjectiveSize(c: set<Artifact>, rule: Rule)
    requires forall a, b | a in c && b in c && rule.bucket(a) == rule.bucket(b) :: a == b
    ensures |Buckets(c, rule)| == |c|
  {
    if c != {} {
      var a :| a in c;
      InjectiveSize(c - {a}, rule);
      assert Buckets(c, rule) == Buckets(c - {a}, rule) + {rule.bucket(a)};
    }
  }

  /** A rule keeps at most `count` artifacts. */
  lemma ChosenBound(s: set<Artifact>, rule: Rule)
    requires UniqueIds(s)
    ensures |Chosen(s, rule)| <= if rule.count > 0 then rule.count else 0
  {
    var c := Chosen(s, rule);
    if c == {} { return; }
    var o := Oldest(c);
    forall a, b | a in c && b in c && rule.bucket(a) == rule.bucket(b) ensures a == b {
      assert a !in NewerThan(s, b) && b !in NewerThan(s, a);
    }
    InjectiveSize(c - {o}, rule);
    assert c - {o} <= NewerThan(s, o);
    BucketsMonotone(c - {o}, NewerThan(s, o), rule);
  }

  // ---- lemmas on a whole policy ---------------------------------------------

  lemma {:induction false} KeptByStable(s: set<Artifact>, t: set<Artifact>, rules: seq<Rule>)
    requires UniqueIds(s) && KeptBy(s, rules) <= t <= s
    ensures KeptBy(t, rules) == KeptBy(s, rules)
  {
    if rules != [] {
      KeptByStable(s, t, rules[..|rules| - 1]);
      ChosenStable(s, t, rules[|rules| - 1]);
    }
  }

  /** Forget on any surviving catalog between the keep set and the whole keeps the same set. */
  lemma KeptStable(s: set<Artifact>, t: set<Artifact>, p: Policy, cal: Calendar)
    requires UniqueIds(s) && Kept(s, p, cal) <= t <= s
    ensures Kept(t, p, cal) == Kept(s, p, cal)
  {
    KeptByStable(s, t, Rules(p, cal));
  }

  lemma {:induction false} KeptByAfterInsert(s: set<Artifact>, rules: seq<Rule>, x: Artifact)
    requires UniqueIds(s)
    ensures KeptBy(s + {x}, rules) <= KeptBy(s, rules) + {x}
  {
    if rules != [] {
      KeptByAfterInsert(s, rules[..|rules| - 1], x);
      ChosenAfterInsert(s, rules[|rules| - 1], x);
    }
  }

  lemma {:induction false} KeptBySubset(s: set<Artifact>, rules: seq<Rule>)
    ensures KeptBy(s, rules) <= s
  {
    if rules != [] { KeptBySubset(s, rules[..|rules| - 1]); }
  }

  function Positive(n: int): nat { if n > 0 then n else 0 }

  function Budget(rules: seq<Rule>): nat {
    if rules == [] then 0 else Budget(rules[..|rules| - 1]) + Positive(rules[|rules| - 1].count)
  }

  lemma {:induction false} KeptByBound(s: set<Artifact>, rules: seq<Rule>)
    requires UniqueIds(s)
    ensures |KeptBy(s, rules)| <= Budget(rules)
  {
    if rules != [] {
      var init := rules[..|rules| - 1];
      KeptByBound(s, init);
      ChosenBound(s, rules[|rules| - 1]);
      var x, y := KeptBy(s, init), Chosen(s, rules[|rules| - 1]);
      assert |x + y| == |x| + |y| - |x * y|;
    }
  }

  /** At most keep_last + daily + weekly + monthly artifacts survive. */
  lemma KeptBound(s: set<Artifact>, p: Policy, cal: Calendar)
    requires UniqueIds(s)
    ensures |Kept(s, p, cal)| <= Positive(p.keepLast) +
            (if p.gfs.None? then 0 else
               Positive(p.gfs.value.daily) + Positive(p.gfs.value.weekly) + Positive(p.gfs.value.monthly))
  {
    var rs := Rules(p, cal);
    KeptByBound(s, rs);
    if p.gfs.Some? {
      assert rs[..3][..2][..1] == [LastRule(p)] && rs[..3][..2] == rs[..2] && rs[..4] == rs;
      assert Budget(rs[..1]) == Positive(p.keepLast) by { assert rs[..1][..0] == []; }
      assert rs[..3][..2] == rs[..2] && rs[..2][..1] == rs[..1];
      assert Budget(rs[..2]) == Budget(rs[..1]) + Positive(p.gfs.value.daily);
      assert Budget(rs[..3]) == Budget(rs[..2]) + Positive(p.gfs.value.weekly);
      assert Budget(rs) == Budget(rs[..3]) + Positive(p.gfs.value.monthly);
    } else {
      assert rs == [LastRule(p)];
    }
  }

  lemma {:induction false} ChosenInKept(s: set<Artifact>, rules: seq<Rule>, i: nat)
    requires i < |rules|
    ensures Chosen(s, rules[i]) <= KeptBy(s, rules)
  {
    if i < |rules| - 1 { ChosenInKept(s, rules[..|rules| - 1], i); }
  }

  lemma {:induction false} NoRuleKeepsNothing(s: set<Artifact>, rules: seq<Rule>)
    requires forall r | r in rules :: r.count <= 0
    ensures KeptBy(s, rules) == {}
  {
    if rules != [] { NoRuleKeepsNothing(s, rules[..|rules| - 1]); }
  }

  /** An enabled policy keeps the newest artifact; a disabled one would keep nothing at all. */
  lemma NewestIsKept(s: set<Artifact>, p: Policy, cal: Calendar, m: Artifact)
    requires UniqueIds(s) && m in s && NewerThan(s, m) == {}
    ensures p.Enabled() ==> m in Kept(s, p, cal)
    ensures !p.Enabled() ==> Kept(s, p, cal) == {}
  {
    var rs := Rules(p, cal);
    if p.Enabled() {
      assert rs[0].count > 0 || (p.gfs.Some? && (rs[1].count > 0 || rs[2].count > 0 || rs[3].count > 0));
      var i :| 0 <= i < |rs| && rs[i].count > 0;
      assert ChosenBy(s, rs[i], m) by { assert Buckets(NewerThan(s, m), rs[i]) == {}; }
      ChosenInKept(s, rs, i);
    } else {
      NoRuleKeepsNothing(s, rs);
    }
  }

  // ---- runs of insertions and partial sweeps ---------------------------------

  datatype Event = Record(artifact: Artifact) | Sweep(removed: set<Artifact>)

  /** All artifacts ever recorded, and those whose rows survive. */
  datatype History = History(all: set<Artifact>, catalog: set<Artifact>)

  /** A recorded artifact is new and newest; a sweep removes any part of what Forget lets go. */
  ghost predicate Allowed(h: History, e: Event, p: Policy, cal: Calendar) {
    match e
    case Record(x) => forall a | a in h.all :: Newer(x, a) && x.id != a.id
    case Sweep(d) => d <= h.catalog - Kept(h.catalog, p, cal)
  }

  function Step(h: History, e: Event): History {
    match e
    case Record(x) => History(h.all + {x}, h.catalog + {x})
    case Sweep(d) => History(h.all, h.catalog - d)
  }

  ghost predicate IsRun(h: History, es: seq<Event>, p: Policy, cal: Calendar)
    decreases |es|
  {
    es == [] || (Allowed(h, es[0], p, cal) && IsRun(Step(h, es[0]), es[1..], p, cal))
  }

  function After(h: History, es: seq<Event>): History
    decreases |es|
  {
    if es == [] then h else After(Step(h, es[0]), es[1..])
  }

  ghost predicate Faithful(h: History, p: Policy, cal: Calendar) {
    UniqueIds(h.all) && Kept(h.all, p, cal) <= h.catalog <= h.all
  }

  lemma StepFaithful(h: History, e: Event, p: Policy, cal: Calendar)
    requires Faithful(h, p, cal) && Allowed(h, e, p, cal)
    ensures Faithful(Step(h, e), p, cal)
  {
    match e
    case Record(x) => KeptByAfterInsert(h.all, Rules(p, cal), x);
    case Sweep(d) => KeptStable(h.all, h.catalog, p, cal);
  }

  /** Path independence: whatever deletions failed on the way, Forget keeps from the surviving
      catalog exactly what it would keep from the history nothing was ever pruned from. */
  lemma {:induction false} PathIndependence(h: History, es: seq<Event>, p: Policy, cal: Calendar)
    requires Faithful(h, p, cal) && IsRun(h, es, p, cal)
    ensures var g := After(h, es);
            Faithful(g, p, cal) && Kept(g.catalog, p, cal) == Kept(g.all, p, cal)
    decreases |es|
  {
    if es == [] {
      KeptStable(h.all, h.catalog, p, cal);
    } else {
      StepFaithful(h, es[0], p, cal);
      PathIndependence(Step(h, es[0]), es[1..], p, cal);
    }
  }

  /** The daemon starts with an empty catalog, which is faithful. */
  lemma EmptyIsFaithful(p: Policy, cal: Calendar)
    ensures Faithful(History({}, {}), p, cal)
  {
    KeptBySubset({}, Rules(p, cal));
  }

  // ---- the same in plain terms ----------------------------------------------------

  /** What a policy keeps, in times and ids alone: an artifact with fewer than keep_last later ones, and for
      days, weeks and months the last one of its period if fewer than so many periods are later. */
  lemma KeptPlainly(s: set<Artifact>, p: Policy, cal: Calendar, a: Artifact)
    requires a in s
    ensures var later := set b | b in s && (b.createdAt > a.createdAt || (b.createdAt == a.createdAt && b.id > a.id));
            var days := set b | b in later :: cal.day(b.createdAt);
            var weeks := set b | b in later :: cal.week(b.createdAt);
            var months := set b | b in later :: cal.month(b.createdAt);
            a in Kept(s, p, cal) <==>
            |later| < p.keepLast
            || (p.gfs.Some?
                && ((cal.day(a.createdAt) !in days && |days| < p.gfs.value.daily)
                    || (cal.week(a.createdAt) !in weeks && |weeks| < p.gfs.value.weekly)
                    || (cal.month(a.createdAt) !in months && |months| < p.gfs.value.monthly)))
  {
    var later := set b | b in s && (b.createdAt > a.createdAt || (b.createdAt == a.createdAt && b.id > a.id));
    assert NewerThan(s, a) == later;
    var rules := Rules(p, cal);
    KeptByAny(s, rules, a);
    LastPlainly(s, p, a);
    if p.gfs.Some? {
      PeriodPlainly(s, p.gfs.value.daily, cal.day, a);
      PeriodPlainly(s, p.gfs.value.weekly, cal.week, a);
      PeriodPlainly(s, p.gfs.value.monthly, cal.month, a);
      assert rules == [LastRule(p), PeriodRule(p.gfs.value.daily, cal.day), PeriodRule(p.gfs.value.weekly, cal.week),
                       PeriodRule(p.gfs.value.monthly, cal.month)];
      assert rules[1] == PeriodRule(p.gfs.value.daily, cal.day) && rules[2] == PeriodRule(p.gfs.value.weekly, cal.week)
             && rules[3] == PeriodRule(p.gfs.value.monthly, cal.month);
    }
    assert rules[0] == LastRule(p);
    hide NewerThan;
    hide Newer;
    hide ChosenBy;
    hide PeriodRule;
    hide LastRule;
  }

  lemma {:induction false} KeptByAny(s: set<Artifact>, rules: seq<Rule>, a: Artifact)
    ensures a in KeptBy(s, rules) <==> exists i :: 0 <= i < |rules| && ChosenBy(s, rules[i], a)
  {
    if rules != [] {
      var n := |rules| - 1;
      KeptByAny(s, rules[..n], a);
      assert rules == rules[..n] + [rules[n]];
    }
  }

  lemma LastPlainly(s: set<Artifact>, p: Policy, a: Artifact)
    requires a in s
    ensures ChosenBy(s, LastRule(p), a) <==> |NewerThan(s, a)| < p.keepLast
  {
    InjectiveSize(NewerThan(s, a), LastRule(p));
  }

  lemma PeriodPlainly(s: set<Artifact>, count: int, period: int -> string, a: Artifact)
    requires a in s
    ensures var names := set b | b in NewerThan(s, a) :: period(b.createdAt);
            ChosenBy(s, PeriodRule(count, period), a) <==> period(a.createdAt) !in names && |names| < count
  {
    var names := set b | b in NewerThan(s, a) :: period(b.createdAt);
    assert Buckets(NewerThan(s, a), PeriodRule(count, period)) == set n | n in names :: Period(n);
    SameSize(names);
  }

  lemma {:induction false} SameSize(names: set<string>)
    ensures |set n | n in names :: Period(n)| == |names|
  {
    if names != {} {
      var x :| x in names;
      SameSize(names - {x});
      assert (set n | n in names :: Period(n)) == (set n | n in names - {x} :: Period(n)) + {Period(x)};
    }
  }

  // ---- Forget ------------------------------------------------------------------

  function Insert(s: seq<Artifact>, x: Artifact): (r: seq<Artifact>)
    ensures multiset(r) == multiset(s) + multiset{x}
  {
    if s == [] then [x]
    else if Newer(x, s[0]) then [x] + s
    else
      assert s == [s[0]] + s[1..];
      [s[0]] + Insert(s[1..], x)
  }

  /** The library sort of a copied list; the order is total, so any correct sort returns this. */
  function Sorted(s: seq<Artifact>): (r: seq<Artifact>)
    ensures multiset(r) == multiset(s)
  {
    if s == [] then []
    else
      assert s == s[..|s| - 1] + [s[|s| - 1]];
      Insert(Sorted(s[..|s| - 1]), s[|s| - 1])
  }

  lemma InsertHas(s: seq<Artifact>, x: Artifact, a: Artifact)
    ensures a in Insert(s, x) ==> a in s || a == x
  {
    assert a in Insert(s, x) <==> a in multiset(s) + multiset{x};
  }

  lemma ConsOrdered(a: Artifact, s: seq<Artifact>)
    requires NewestFirst(s) && forall b | b in s :: Newer(a, b)
    ensures NewestFirst([a] + s)
  {
  }

  lemma {:induction false} InsertOrdered(s: seq<Artifact>, x: Artifact)
    requires NewestFirst(s) && forall a | a in s :: a.id != x.id
    ensures NewestFirst(Insert(s, x))
  {
    if s != [] {
      var head, tail := s[0], s[1..];
      assert s == [head] + tail;
      assert forall b | b in tail :: Newer(head, b);
      if Newer(x, head) {
        ConsOrdered(x, s);
      } else {
        InsertOrdered(tail, x);
        forall b | b in Insert(tail, x) ensures Newer(head, b) { InsertHas(tail, x, b); }
        ConsOrdered(head, Insert(tail, x));
      }
    }
  }

  lemma {:induction false} SortedOrdered(s: seq<Artifact>)
    requires DistinctIds(s)
    ensures NewestFirst(Sorted(s))
  {
    if s != [] {
      var init, x := s[..|s| - 1], s[|s| - 1];
      SortedOrdered(init);
      forall a | a in Sorted(init) ensures a.id != x.id {
        assert a in multiset(init);
      }
      InsertOrdered(Sorted(init), x);
    }
  }

  /** In a newest-first list, what is newer than an element is what stands before it. */
  lemma PrefixIsNewer(s: seq<Artifact>, i: nat)
    requires NewestFirst(s) && i < |s|
    ensures NewerThan(Elements(s), s[i]) == Elements(s[..i])
  {
    forall b | b in NewerThan(Elements(s), s[i]) ensures b in s[..i] {
      var j :| 0 <= j < |s| && s[j] == b;
      assert j < i;
    }
  }

  ghost function IdsOf(s: set<Artifact>): set<int> { set a | a in s :: a.id }

  lemma IdsOfUnion(s: set<Artifact>, t: set<Artifact>)
    ensures IdsOf(s + t) == IdsOf(s) + IdsOf(t)
  {
  }

  lemma IdInKept(all: set<Artifact>, kept: set<Artifact>, a: Artifact)
    requires UniqueIds(all) && kept <= all && a in all
    ensures a.id in IdsOf(kept) <==> a in kept
  {
  }

  lemma IdsOfPlus(s: set<Artifact>, a: Artifact)
    ensures IdsOf(s + {a}) == IdsOf(s) + {a.id}
  {
  }

  lemma BucketsSnoc(s: seq<Artifact>, i: nat, rule: Rule)
    requires i < |s|
    ensures Buckets(Elements(s[..i + 1]), rule) == Buckets(Elements(s[..i]), rule) + {rule.bucket(s[i])}
  {
    assert s[..i + 1] == s[..i] + [s[i]];
    assert Elements(s[..i + 1]) == Elements(s[..i]) + {s[i]};
  }

  ghost function ChosenUpTo(s: seq<Artifact>, i: nat, rule: Rule): set<Artifact>
    requires i <= |s|
  {
    set a | a in s[..i] && ChosenBy(Elements(s), rule, a)
  }

  lemma ChosenUpToSnoc(s: seq<Artifact>, i: nat, rule: Rule)
    requires NewestFirst(s) && i < |s|
    requires |Buckets(Elements(s[..i]), rule)| < rule.count
    ensures ChosenUpTo(s, i + 1, rule) == ChosenUpTo(s, i, rule) +
            if rule.bucket(s[i]) in Buckets(Elements(s[..i]), rule) then {} else {s[i]}
  {
    PrefixIsNewer(s, i);
    assert s[..i + 1] == s[..i] + [s[i]];
  }

  /** Once `count` buckets stand before position i, nothing from there on is chosen. */
  lemma ChosenUpToFull(s: seq<Artifact>, i: nat, rule: Rule)
    requires NewestFirst(s) && i <= |s|
    requires i == |s| || |Buckets(Elements(s[..i]), rule)| >= rule.count
    ensures ChosenUpTo(s, i, rule) == Chosen(Elements(s), rule)
  {
    forall a | a in Chosen(Elements(s), rule) ensures a in s[..i] {
      var j :| 0 <= j < |s| && s[j] == a;
      if i <= j {
        PrefixIsNewer(s, j);
        assert s[..i] <= s[..j];
        assert Elements(s[..i]) <= Elements(s[..j]);
        BucketsMonotone(Elements(s[..i]), Elements(s[..j]), rule);
      }
    }
  }

  lemma NothingSeen(s: seq<Artifact>, rule: Rule)
    ensures Buckets(Elements(s[..0]), rule) == {} && ChosenUpTo(s, 0, rule) == {} && IdsOf({}) == {}
    ensures rule.count <= 0 ==> Chosen(Elements(s), rule) == {}
  {
  }

  /** keepByPeriod: one pass over the sorted list, stopping once `count` periods are seen. */
  method KeepByPeriod(sorted: seq<Artifact>, rule: Rule) returns (keep: set<int>)
    requires NewestFirst(sorted)
    ensures keep == IdsOf(Chosen(Elements(sorted), rule))
  {
    hide Buckets;
    hide ChosenUpTo;
    hide Chosen;
    hide IdsOf;
    hide NewestFirst;
    keep := {};
    NothingSeen(sorted, rule);
    if rule.count <= 0 { return; }
    var seen: set<Bucket> := {};
    var i := 0;
    while i < |sorted|
      invariant 0 <= i <= |sorted|
      invariant seen == Buckets(Elements(sorted[..i]), rule) && |seen| < rule.count
      invariant keep == IdsOf(ChosenUpTo(sorted, i, rule))
    {
      var a := sorted[i];
      var k := rule.bucket(a);
      BucketsSnoc(sorted, i, rule);
      ChosenUpToSnoc(sorted, i, rule);
      IdsOfPlus(ChosenUpTo(sorted, i, rule), a);
      i := i + 1;
      if k !in seen {
        seen := seen + {k};
        keep := keep + {a.id};
        if |seen| >= rule.count { break; }
      }
    }
    ChosenUpToFull(sorted, i, rule);
  }

  /** The keep_last loop marks the first `count` ids. */
  method KeepLast(sorted: seq<Artifact>, p: Policy) returns (keep: set<int>)
    requires NewestFirst(sorted)
    ensures keep == IdsOf(Chosen(Elements(sorted), LastRule(p)))
  {
    keep := {};
    ghost var all, rule := Elements(sorted), LastRule(p);
    var i := 0;
    while i < p.keepLast && i < |sorted|
      invariant 0 <= i <= |sorted| && (i > 0 ==> i <= p.keepLast)
      invariant keep == IdsOf(Elements(sorted[..i]))
    {
      assert Elements(sorted[..i + 1]) == Elements(sorted[..i]) + {sorted[i]};
      keep := keep + {sorted[i].id};
      i := i + 1;
    }
    forall j: nat | j < |sorted| ensures ChosenBy(all, rule, sorted[j]) <==> j < i {
      PrefixIsNewer(sorted, j);
      ListSize(sorted[..j]);
      InjectiveSize(Elements(sorted[..j]), rule);
      assert sorted[j] !in sorted[..j];
    }
    assert Chosen(all, rule) == Elements(sorted[..i]);
  }

  lemma {:induction false} ListSize(s: seq<Artifact>)
    requires NewestFirst(s)
    ensures |Elements(s)| == |s|
  {
    if s != [] {
      var init, x := s[..|s| - 1], s[|s| - 1];
      ListSize(init);
      assert s == init + [x];
      assert Elements(s) == Elements(init) + {x};
      assert x !in init;
    }
  }

  ghost predicate DistinctIds(s: seq<Artifact>) {
    forall i, j | 0 <= i < j < |s| :: s[i].id != s[j].id
  }

  /** The last loop of Forget splits the sorted list by the marked ids. */
  method Split(sorted: seq<Artifact>, keepSet: set<int>, ghost kept: set<Artifact>)
    returns (keep: seq<Artifact>, del: seq<Artifact>)
    requires NewestFirst(sorted)
    requires forall a | a in sorted :: a.id in keepSet <==> a in kept
    ensures NewestFirst(keep) && NewestFirst(del)
    ensures multiset(keep) + multiset(del) == multiset(sorted)
    ensures forall a :: a in keep <==> a in sorted && a in kept
    ensures forall a :: a in del <==> a in sorted && a !in kept
  {
    keep, del := [], [];
    var i := 0;
    while i < |sorted|
      invariant 0 <= i <= |sorted|
      invariant multiset(keep) + multiset(del) == multiset(sorted[..i])
      invariant PartOf(keep, sorted, i) && PartOf(del, sorted, i)
      invariant forall a | a in keep :: a in kept
      invariant forall a | a in del :: a !in kept
    {
      var a := sorted[i];
      assert sorted[..i + 1] == sorted[..i] + [a];
      if a.id in keepSet {
        PartOfSnoc(keep, sorted, i);
        PartOfLater(del, sorted, i);
        keep := keep + [a];
      } else {
        PartOfSnoc(del, sorted, i);
        PartOfLater(keep, sorted, i);
        del := del + [a];
      }
      i := i + 1;
    }
    assert sorted[..i] == sorted;
    forall a ensures a in sorted <==> a in keep || a in del {
      assert a in sorted <==> a in multiset(keep) + multiset(del);
    }
  }

  /** part is newest first and drawn from the first i elements of sorted. */
  ghost predicate PartOf(part: seq<Artifact>, sorted: seq<Artifact>, i: nat)
    requires i <= |sorted|
  {
    NewestFirst(part) && forall a | a in part :: a in sorted[..i]
  }

  lemma PartOfSnoc(part: seq<Artifact>, sorted: seq<Artifact>, i: nat)
    requires i < |sorted| && NewestFirst(sorted) && PartOf(part, sorted, i)
    ensures PartOf(part + [sorted[i]], sorted, i + 1)
  {
    forall k | 0 <= k < |part| ensures Newer(part[k], sorted[i]) {
      assert part[k] in sorted[..i];
    }
    PartOfLater(part, sorted, i);
    assert sorted[..i + 1][i] == sorted[i];
  }

  lemma PartOfLater(part: seq<Artifact>, sorted: seq<Artifact>, i: nat)
    requires i < |sorted| && PartOf(part, sorted, i)
    ensures PartOf(part, sorted, i + 1)
  {
    assert sorted[..i + 1] == sorted[..i] + [sorted[i]];
  }

  lemma FirstRule(s: set<Artifact>, p: Policy, cal: Calendar)
    ensures KeptBy(s, Rules(p, cal)[..1]) == Chosen(s, LastRule(p))
  {
    assert Rules(p, cal)[..1][..0] == [];
  }

  lemma KeptByNext(s: set<Artifact>, rules: seq<Rule>, i: nat)
    requires i < |rules|
    ensures KeptBy(s, rules[..i + 1]) == KeptBy(s, rules[..i]) + Chosen(s, rules[i])
  {
    assert rules[..i + 1][..i] == rules[..i];
  }

  /** The marking part of Forget: the union of what each rule keeps. */
  method Mark(sorted: seq<Artifact>, p: Policy, cal: Calendar) returns (keepSet: set<int>)
    requires NewestFirst(sorted)
    ensures keepSet == IdsOf(Kept(Elements(sorted), p, cal))
  {
    hide KeptBy;
    hide Chosen;
    hide NewestFirst;
    hide IdsOf;
    hide Elements;
    hide LastRule;
    ghost var all := Elements(sorted);
    keepSet := KeepLast(sorted, p);
    var rules := Rules(p, cal);
    FirstRule(all, p, cal);
    assert |rules| > 0;
    hide Rules;
    assert keepSet == IdsOf(KeptBy(all, rules[..1]));
    var i := 1;
    while i < |rules|
      invariant 1 <= i <= |rules|
      invariant keepSet == IdsOf(KeptBy(all, rules[..i]))
    {
      var more := KeepByPeriod(sorted, rules[i]);
      KeptByNext(all, rules, i);
      IdsOfUnion(KeptBy(all, rules[..i]), Chosen(all, rules[i]));
      keepSet := keepSet + more;
      i := i + 1;
    }
    assert rules[..i] == rules;
  }

  /** Forget: keep and delete partition the input, both newest first, and keep is exactly Kept. */
  method Forget(p: Policy, artifacts: seq<Artifact>, cal: Calendar) returns (keep: seq<Artifact>, del: seq<Artifact>)
    requires DistinctIds(artifacts)
    ensures NewestFirst(keep) && NewestFirst(del)
    ensures forall l: seq<Artifact>, i, j | l in {keep, del} && 0 <= i < j < |l| ::
              l[i].createdAt > l[j].createdAt || (l[i].createdAt == l[j].createdAt && l[i].id > l[j].id)
    ensures multiset(keep) + multiset(del) == multiset(artifacts)
    ensures Elements(keep) == Kept(Elements(artifacts), p, cal)
    ensures Elements(del) == Elements(artifacts) - Kept(Elements(artifacts), p, cal)
  {
    var sorted := Sorted(artifacts);
    SortedOrdered(artifacts);
    SameElements(sorted, artifacts);
    ghost var all := Elements(artifacts);
    var keepSet := Mark(sorted, p, cal);
    KeptBySubset(all, Rules(p, cal));
    forall a | a in sorted ensures a.id in keepSet <==> a in Kept(all, p, cal) {
      IdInKept(all, Kept(all, p, cal), a);
    }
    hide NewestFirst;
    hide IdsOf;
    hide KeptBy;
    keep, del := Split(sorted, keepSet, Kept(all, p, cal));
  }

  lemma SameElements(s: seq<Artifact>, t: seq<Artifact>)
    requires multiset(s) == multiset(t) && DistinctIds(t)
    ensures Elements(s) == Elements(t) && UniqueIds(Elements(t))
  {
    forall a ensures a in s <==> a in t {
      assert a in s <==> a in multiset(s);
      assert a in t <==> a in multiset(t);
    }
  }
}
