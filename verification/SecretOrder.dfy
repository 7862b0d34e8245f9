// When the order of a config's keys does not matter to the resolver (internal/core/secrets.go).

module SecretOrder {
  import opened JsonTree
  import opened SecretRefs

  // ---- where nothing chains, every order gives the same value or an error --------------------

  function Entry(f: map<string, Json>, k: string, open: Opener): Json {
    if Substituted(f, k) then Secret(f, k, open) else if k in f then Value(f[k], open) else Null
  }

  lemma ValueFields(f: map<string, Json>, open: Opener)
    ensures var r := Value(Obj(f), open);
            r.Obj? && r.fields.Keys == f.Keys + Bases(f) && forall k | k in r.fields :: r.fields[k] == Entry(f, k, open)
  {
  }

  lemma VisitedEntry(f: map<string, Json>, p: Position, open: Opener, k: string)
    requires EntryOk(f, p, open, k) && p.todo == {}
    ensures k in p.node <==> k in f || Substituted(f, k)
    ensures k in p.node ==> p.node[k] == Entry(f, k, open)
  {
    if k in f { ValueKind(f[k], open); }
    hide Value;
    hide Active;
    hide Secret;
  }

  /** At the end of a walk the object is the config with its references substituted. */
  lemma EntriesAreValue(f: map<string, Json>, p: Position, open: Opener)
    requires Progress(f, p, open) && p.todo == {}
    ensures Obj(p.node) == Value(Obj(f), open)
  {
    ValueFields(f, open);
    hide Value;
    hide EntryOk;
    hide Entry;
    hide Substituted;
    var r := Value(Obj(f), open).fields;
    forall k ensures k in r <==> k in p.node {
      BasesAre(f, k);
      VisitedEntry(f, p, open, k);
    }
    forall k | k in r ensures r[k] == p.node[k] { VisitedEntry(f, p, open, k); }
    assert r == p.node;
  }

  lemma AllVisitedOpen(f: map<string, Json>, p: Position, open: Opener)
    requires Progress(f, p, open) && p.todo == {}
    ensures AllOpen(Must(Obj(f)), open)
  {
    forall ref | ref in Must(Obj(f)) ensures open(ref).Some? {
      if k :| k in f && Active(f, k) && ref == f[k].s {
        assert EntryOk(f, p, open, k);
      } else {
        var k :| k in f && !Substituted(f, k) && ref in Must(f[k]);
        assert EntryOk(f, p, open, k);
        MustIsMay(f[k]);
        LeafHasNone(f[k]);
      }
    }
  }

  /** What an outcome says about the references, whatever the order was. */
  ghost predicate Explained(v: Json, open: Opener, r: Option<Json>) {
    if r.Some? then r.value == Value(v, open) && AllOpen(Must(v), open) else !AllOpen(May(v), open)
  }

  lemma {:induction false} TurnKeeps(f: map<string, Json>, p: Position, q: Position, open: Opener, k: string)
    requires NoChain(Obj(f)) && Progress(f, p, open) && Turn(f, p, q, open, k)
    ensures Progress(f, q, open)
    decreases Obj(f), 0
  {
    NoChainSettles(f, p, open, k);
    if IsContainer(p.node[k]) {
      ChildRefs(f, k);
      OutcomeExplained(f[k], open, Some(q.node[k]));
      ChildTurn(f, p, open, k);
    } else if Active(f, k) {
      var more := q.todo != p.todo - {k};
      RefTurn(f, p, open, k, more);
      assert q.todo == p.todo - {k} + if more then {Base(k)} else {};
    } else {
      LeafTurn(f, p, open, k);
      assert q == Position(p.node, p.todo - {k});
    }
  }

  lemma {:induction false} FailureExplained(f: map<string, Json>, p: Position, open: Opener, k: string)
    requires NoChain(Obj(f)) && Progress(f, p, open) && Fails(f, p, open, k)
    ensures !AllOpen(May(Obj(f)), open)
    decreases Obj(f), 0
  {
    NoChainSettles(f, p, open, k);
    if IsContainer(p.node[k]) {
      ChildRefs(f, k);
      OutcomeExplained(f[k], open, None);
    } else {
      ActiveRefs(f, k);
    }
  }

  lemma {:induction false} WalkExplained(f: map<string, Json>, p: Position, open: Opener, r: Option<Json>, n: nat)
    requires NoChain(Obj(f)) && Progress(f, p, open) && Finishes(f, p, open, r, n)
    ensures Explained(Obj(f), open, r)
    decreases Obj(f), 1, n
  {
    if n > 0 {
      var q, k :| Turn(f, p, q, open, k) && Finishes(f, q, open, r, n - 1);
      TurnKeeps(f, p, q, open, k);
      WalkExplained(f, q, open, r, n - 1);
    } else if r.Some? {
      EntriesAreValue(f, p, open);
      AllVisitedOpen(f, p, open);
    } else {
      assert Ends(f, p, open, r);
      var k :| Fails(f, p, open, k);
      FailureExplained(f, p, open, k);
    }
  }

  lemma {:induction false} OutcomeExplained(v: Json, open: Opener, r: Option<Json>)
    requires NoChain(v) && Outcome(v, open, r)
    ensures Explained(v, open, r)
    decreases v, 2
  {
    match v
    case Obj(f) =>
      var n: nat :| Finishes(f, Start(f), open, r, n);
      ProgressStarts(f, open);
      WalkExplained(f, Start(f), open, r, n);
    case Arr(a) =>
      if r.Some? {
        forall i | 0 <= i < |a| ensures Explained(a[i], open, Some(r.value.items[i])) {
          OutcomeExplained(a[i], open, Some(r.value.items[i]));
        }
        assert r.value.items == Value(v, open).items;
      } else {
        var i :| FailsAt(a, open, i);
        OutcomeExplained(a[i], open, None);
        assert May(a[i]) <= May(v);
      }
    case _ =>
  }

  // ---- orders that exist ---------------------------------------------------------------------------

  lemma FinishesNext(f: map<string, Json>, p: Position, q: Position, open: Opener, k: string, r: Option<Json>)
    requires Turn(f, p, q, open, k) && exists n: nat :: Finishes(f, q, open, r, n)
    ensures exists n: nat :: Finishes(f, p, open, r, n)
  {
    var n: nat :| Finishes(f, q, open, r, n);
    assert Finishes(f, p, open, r, n + 1);
  }

  /** A turn of a walk in which nothing fails. */
  lemma SafeTurn(f: map<string, Json>, p: Position, open: Opener, k: string) returns (q: Position)
    requires Progress(f, p, open) && k in p.todo && k in p.node && Settled(f, p, k)
    requires Active(f, k) ==> open(f[k].s).Some?
    requires IsContainer(p.node[k]) ==> AllOpen(Must(f[k]), open) && Outcome(f[k], open, Some(Value(f[k], open)))
    ensures Turn(f, p, q, open, k) && Progress(f, q, open) && q.todo == p.todo - {k}
  {
    if IsContainer(p.node[k]) {
      ChildTurn(f, p, open, k);
      q := Position(p.node[k := Value(f[k], open)], p.todo - {k});
    } else if Active(f, k) {
      RefTurn(f, p, open, k, false);
      q := Position(p.node[Base(k) := Str(open(f[k].s).value)], p.todo - {k});
      assert p.todo - {k} + {} == p.todo - {k};
    } else {
      LeafTurn(f, p, open, k);
      q := Position(p.node, p.todo - {k});
    }
  }

  lemma SomeKey(s: set<string>) returns (k: string)
    requires s != {}
    ensures k in s
  {
    k :| k in s;
  }

  /** Where nothing chains, visiting the references of an object before the rest opens no more than
      every order does. */
  lemma {:induction false} ReferencesFirst(f: map<string, Json>, p: Position, open: Opener)
    requires NoChain(Obj(f)) && AllOpen(Must(Obj(f)), open) && Progress(f, p, open) && p.todo <= f.Keys
    ensures exists n: nat :: Finishes(f, p, open, Some(Value(Obj(f), open)), n)
    decreases Obj(f), 0, |p.todo|
  {
    if p.todo == {} {
      EntriesAreValue(f, p, open);
      assert Finishes(f, p, open, Some(Value(Obj(f), open)), 0);
    } else {
      var active := set j | j in p.todo && Active(f, j);
      var k := SomeKey(if active != {} then active else p.todo);
      assert EntryOk(f, p, open, k);
      NoChainSettles(f, p, open, k);
      if Active(f, k) { ActiveRefs(f, k); }
      if IsContainer(p.node[k]) {
        assert Substituted(f, k) && k + REF in p.todo ==> k + REF in active;
        ChildRefs(f, k);
        ReferencesFirstGive(f[k], open);
      }
      var q := SafeTurn(f, p, open, k);
      ReferencesFirst(f, q, open);
      FinishesNext(f, p, q, open, k, Some(Value(Obj(f), open)));
    }
  }

  lemma {:induction false} ReferencesFirstGive(v: Json, open: Opener)
    requires NoChain(v) && AllOpen(Must(v), open)
    ensures Outcome(v, open, Some(Value(v, open)))
    decreases v, 1
  {
    match v
    case Obj(f) =>
      ProgressStarts(f, open);
      ReferencesFirst(f, Start(f), open);
    case Arr(a) =>
      forall i | 0 <= i < |a| ensures Outcome(a[i], open, Some(Value(a[i], open))) {
        assert Must(a[i]) <= Must(v);
        ReferencesFirstGive(a[i], open);
      }
    case _ =>
  }

  lemma {:induction false} Shortest(s: set<string>) returns (k: string)
    requires s != {}
    ensures k in s && forall j | j in s :: |k| <= |j|
  {
    k :| k in s;
    if s != {k} {
      var j := Shortest(s - {k});
      if |j| < |k| { k := j; }
    }
  }

  /** Visiting shorter keys first never opens a substituted value. */
  lemma {:induction false} ShortestFirst(f: map<string, Json>, p: Position, open: Opener)
    requires AllOpen(May(Obj(f)), open) && Progress(f, p, open) && p.todo <= f.Keys
    requires forall k, j | k in f && k !in p.todo && j in p.todo :: |k| <= |j|
    ensures exists n: nat :: Finishes(f, p, open, Some(Value(Obj(f), open)), n)
    decreases Obj(f), 0, |p.todo|
  {
    if p.todo == {} {
      EntriesAreValue(f, p, open);
      assert Finishes(f, p, open, Some(Value(Obj(f), open)), 0);
    } else {
      var k := Shortest(p.todo);
      assert EntryOk(f, p, open, k);
      ShortestSettles(f, p, open, k);
      if Active(f, k) { ActiveRefs(f, k); }
      if IsContainer(p.node[k]) {
        ChildRefs(f, k);
        MustIsMay(f[k]);
        ShortestFirstGives(f[k], open);
      }
      var q := SafeTurn(f, p, open, k);
      ShortestFirst(f, q, open);
      FinishesNext(f, p, q, open, k, Some(Value(Obj(f), open)));
    }
  }

  lemma ShortestSettles(f: map<string, Json>, p: Position, open: Opener, k: string)
    requires Progress(f, p, open) && k in p.todo && k in f
    requires forall k, j | k in f && k !in p.todo && j in p.todo :: |k| <= |j|
    ensures k in p.node && Settled(f, p, k)
  {
    BaseOfRef(k);
    assert |k + REF| > |k|;
    assert !Done(f, p.todo, k);
    assert EntryOk(f, p, open, k);
    if IsRefKey(k) {
      assert !Done(f, p.todo, Base(k));
      assert EntryOk(f, p, open, Base(k));
      if Base(k) in f { ValueKind(f[Base(k)], open); }
    }
  }

  /** With every reference open, some order succeeds, even in a config that chains. */
  lemma {:induction false} ShortestFirstGives(v: Json, open: Opener)
    requires AllOpen(May(v), open)
    ensures Outcome(v, open, Some(Value(v, open)))
    decreases v, 1
  {
    match v
    case Obj(f) =>
      ProgressStarts(f, open);
      ShortestFirst(f, Start(f), open);
    case Arr(a) =>
      forall i | 0 <= i < |a| ensures Outcome(a[i], open, Some(Value(a[i], open))) {
        assert May(a[i]) <= May(v);
        ShortestFirstGives(a[i], open);
      }
    case _ =>
  }

  /** An array fails at its first element that can, if those before it can succeed. */
  lemma FirstToFail(a: seq<Json>, open: Opener, i: nat)
    requires i < |a| && Outcome(a[i], open, None)
    requires forall j | 0 <= j < i :: Outcome(a[j], open, None) || Outcome(a[j], open, Some(Value(a[j], open)))
    ensures Outcome(Arr(a), open, None)
  {
    if j :| 0 <= j < i && Outcome(a[j], open, None) {
      FirstToFail(a, open, j);
    } else {
      forall j | 0 <= j < i ensures Succeeds(a[j], open) {
        assert Outcome(a[j], open, Some(Value(a[j], open)));
      }
      assert FailsAt(a, open, i);
    }
  }

  /** A reference that cannot be opened, and that some order opens, is an error in some order. */
  lemma {:induction false} SomeOrderFails(v: Json, open: Opener)
    requires !AllOpen(May(v), open)
    ensures Outcome(v, open, None)
    decreases v
  {
    var ref :| ref in May(v) && open(ref).None?;
    match v
    case Obj(f) =>
      if k :| k in f && Active(f, k) && ref == f[k].s {
        assert Fails(f, Start(f), open, k);
      } else {
        var k :| k in f && ref in May(f[k]);
        LeafHasNone(f[k]);
        SomeOrderFails(f[k], open);
        assert Fails(f, Start(f), open, k);
      }
      assert Finishes(f, Start(f), open, None, 0);
    case Arr(a) =>
      var i :| 0 <= i < |a| && ref in May(a[i]);
      forall j | 0 <= j <= i
        ensures Outcome(a[j], open, None) || Outcome(a[j], open, Some(Value(a[j], open)))
        ensures j == i ==> Outcome(a[j], open, None)
      {
        if AllOpen(May(a[j]), open) { ShortestFirstGives(a[j], open); } else { SomeOrderFails(a[j], open); }
      }
      FirstToFail(a, open, i);
    case _ =>
  }

  /** Without chains, all there is to know: the substituted config is a result exactly when what every
      order opens can be opened, an error exactly when something some order opens cannot, and nothing
      else ever comes out. */
  lemma OutcomesExactly(v: Json, open: Opener, r: Option<Json>)
    requires NoChain(v)
    ensures Outcome(v, open, r) <==> Explained(v, open, r)
  {
    if Outcome(v, open, r) { OutcomeExplained(v, open, r); }
    if Explained(v, open, r) {
      if r.Some? { ReferencesFirstGive(v, open); } else { SomeOrderFails(v, open); }
    }
  }

  // ---- exactly when the order does not matter --------------------------------------------------------

  /** Nothing chains, and whatever some order opens, every order does. */
  predicate OrderFree(v: Json) { NoChain(v) && May(v) <= Must(v) }

  /** For every opener, all orders give the same. */
  ghost predicate OrderIndependent(v: Json) {
    forall open: Opener, r, r' :: Outcome(v, open, r) && Outcome(v, open, r') ==> r == r'
  }

  /** A substituted value that some order opens in turn, and that cannot be opened, is an error in some order. */
  lemma {:induction false} ChainFails(v: Json, open: Opener, plain: string)
    requires !NoChain(v) && plain != "" && open(plain).None?
    requires forall ref | ref in May(v) :: open(ref) == Some(plain)
    ensures Outcome(v, open, None)
    decreases v
  {
    match v
    case Obj(f) =>
      if k :| k in f && !NoChain(f[k]) {
        ChildRefs(f, k);
        ChainFails(f[k], open, plain);
        assert Fails(f, Start(f), open, k);
        assert Finishes(f, Start(f), open, None, 0);
      } else {
        var k :| k in f && Active(f, k) && IsRefKey(Base(k)) && !Inline(f, Base(k));
        ChainHere(f, open, plain, k);
      }
    case Arr(a) =>
      var i :| 0 <= i < |a| && !NoChain(a[i]);
      forall j | 0 <= j <= i
        ensures Outcome(a[j], open, None) || Outcome(a[j], open, Some(Value(a[j], open)))
        ensures j == i ==> Outcome(a[j], open, None)
      {
        assert May(a[j]) <= May(v);
        if j == i { ChainFails(a[j], open, plain); } else { ShortestFirstGives(a[j], open); }
      }
      FirstToFail(a, open, i);
    case _ =>
  }

  lemma ChainHere(f: map<string, Json>, open: Opener, plain: string, k: string)
    requires Active(f, k) && IsRefKey(Base(k)) && !Inline(f, Base(k))
    requires plain != "" && open(f[k].s) == Some(plain) && open(plain).None?
    ensures Outcome(Obj(f), open, None)
  {
    BaseOfRef(k);
    BaseOfRef(Base(k));
    var b := Base(k);
    var q := Position(f[b := Str(plain)], f.Keys - {k} + {b});
    if b in f { assert f.Keys - {k} + {b} == f.Keys - {k}; }
    assert Turn(f, Start(f), q, open, k);
    assert Fails(f, q, open, b);
    assert Finishes(f, q, open, None, 0);
    assert Finishes(f, Start(f), open, None, 1);
  }

  lemma {:induction false} Bound(s: set<string>) returns (n: nat)
    ensures forall x | x in s :: |x| < n
  {
    n := 0;
    if s != {} {
      var x := SomeKey(s);
      var m := Bound(s - {x});
      n := if |x| < m then m else |x| + 1;
    }
  }

  /** A name of letters, longer than any in s. */
  lemma FreshName(s: set<string>) returns (name: string)
    ensures name != "" && name !in s && forall c | c in name :: c == 'a'
  {
    var n := Bound(s);
    name := seq(n + 1, i => 'a');
  }

  lemma TwoResults(v: Json, open: Opener, x: Json)
    requires Outcome(v, open, None) && Outcome(v, open, Some(x))
    ensures !OrderIndependent(v)
  {
    hide Outcome;
  }

  lemma ChainsDepend(v: Json)
    requires !NoChain(v)
    ensures !OrderIndependent(v)
  {
    var plain := FreshName(May(v));
    var open: Opener := ref => if ref == plain then None else Some(plain);
    ChainFails(v, open, plain);
    ShortestFirstGives(v, open);
    TwoResults(v, open, Value(v, open));
  }

  lemma ClashesDepend(v: Json)
    requires NoChain(v) && !(May(v) <= Must(v))
    ensures !OrderIndependent(v)
  {
    var bad :| bad in May(v) && bad !in Must(v);
    hide May;
    hide Must;
    hide Value;
    hide Outcome;
    hide NoChain;
    var open: Opener := ref => if ref == bad then None else Some("");
    assert open(bad).None? && AllOpen(Must(v), open);
    OutcomesExactly(v, open, None);
    OutcomesExactly(v, open, Some(Value(v, open)));
    TwoResults(v, open, Value(v, open));
  }

  /** What an order-free config resolves to, in any order. */
  lemma OrderFreeResolves(v: Json, open: Opener, r: Option<Json>)
    requires OrderFree(v)
    ensures Outcome(v, open, r) <==> r == if AllOpen(Must(v), open) then Some(Value(v, open)) else None
  {
    OutcomesExactly(v, open, r);
    MustIsMay(v);
  }

  /** All orders of keys agree, for every opener, if and only if no substituted value is opened in turn
      and every reference inside something a secret replaces is opened elsewhere as well. */
  lemma OrderIndependentExactly(v: Json)
    ensures OrderIndependent(v) <==> OrderFree(v)
  {
    if OrderFree(v) {
      forall open: Opener, r, r' | Outcome(v, open, r) && Outcome(v, open, r') ensures r == r' {
        OrderFreeResolves(v, open, r);
        OrderFreeResolves(v, open, r');
      }
    } else if NoChain(v) {
      ClashesDepend(v);
    } else {
      ChainsDepend(v);
    }
  }

  // ---- examples of both kinds ----------------------------------------------------------------------------

  const CHAIN: map<string, Json> := map["a_ref_ref" := Str("n"), "a_ref" := Str("")]

  /** The secret of n lands under a_ref and is opened in turn, or is not. */
  lemma ChainDependsOnOrder()
    ensures !OrderIndependent(Obj(CHAIN))
  {
    assert "a_ref_ref" == "a_ref" + REF && "a_ref" == "a" + REF;
    BaseOfRef("a_ref");
    BaseOfRef("a");
    assert Active(CHAIN, "a_ref_ref") && !Inline(CHAIN, "a_ref");
    ChainsDepend(Obj(CHAIN));
  }

  const CLASH: map<string, Json> := map["a" := Obj(map["b_ref" := Str("gone")]), "a_ref" := Str("n")]

  lemma ClashFacts()
    ensures Active(CLASH, "a_ref") && Substituted(CLASH, "a")
    ensures Active(map["b_ref" := Str("gone")], "b_ref")
  {
    assert "a_ref" == "a" + REF && "b_ref" == "b" + REF;
    BaseOfRef("a");
    BaseOfRef("b");
  }

  lemma ClashMust()
    ensures "gone" !in Must(Obj(CLASH))
  {
    ClashFacts();
    assert "gone" !in Must(CLASH["a_ref"]);
    hide HasSuffix;
    hide IsRefKey;
    hide Active;
    hide Substituted;
    assert forall k | k in CLASH && Active(CLASH, k) :: CLASH[k].Str? ==> CLASH[k].s == "n";
  }

  /** A secret replaces an object that holds a reference found nowhere else. */
  lemma ClashDependsOnOrder()
    ensures !OrderIndependent(Obj(CLASH))
  {
    ClashFacts();
    ActiveRefs(CLASH["a"].fields, "b_ref");
    ChildRefs(CLASH, "a");
    ClashMust();
    hide *;
    OrderIndependentExactly(Obj(CLASH));
  }

}
