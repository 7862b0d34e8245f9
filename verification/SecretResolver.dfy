// The resolver's walk, writing to the map it iterates over (internal/core/secrets.go).

module SecretResolver {
  import opened JsonTree
  import opened SecretRefs
  import opened SecretOrder

  /** Every key that a chain of substitutions could ever write. */
  ghost function Reach(f: map<string, Json>): set<string> {
    set k, n | k in f && 0 <= n <= |k| :: k[..n]
  }

  lemma ReachBase(f: map<string, Json>, k: string)
    requires k in Reach(f) && IsRefKey(k)
    ensures Base(k) in Reach(f)
  {
    var j, n :| j in f && 0 <= n <= |j| && j[..n] == k;
    assert j[..|Base(k)|] == Base(k);
  }

  /** Which keys are still to come, and which can have been written. */
  ghost predicate Book(f: map<string, Json>, p: Position, visited: set<string>) {
    && p.todo !! visited && p.todo + visited <= p.node.Keys <= Reach(f)
    && forall k | k in p.todo :: (k in f && p.node[k] == f[k]) || p.node[k].Str?
  }

  /** However the walk goes on from here, what it gives is an outcome of the object. */
  ghost predicate Leads(f: map<string, Json>, p: Position, open: Opener) {
    forall r, n: nat :: Finishes(f, p, open, r, n) ==> Outcome(Obj(f), open, r)
  }

  /** Where nothing chains, only references that the config itself holds were opened. */
  ghost predicate Within(v: Json, used: set<string>) { NoChain(v) ==> used <= May(v) }

  ghost predicate Agrees(open: Opener, open': Opener, used: set<string>) {
    forall ref | ref in used :: open(ref) == open'(ref)
  }

  /** Any opener with the same answers to the references in used has this outcome as well. */
  ghost predicate Needs(v: Json, open: Opener, r: Option<Json>, used: set<string>) {
    forall open' :: Agrees(open, open', used) ==> Outcome(v, open', r)
  }

  /** The outcome r rests on the references in used alone. */
  ghost predicate RestsOn(v: Json, open: Opener, r: Option<Json>, used: set<string>) {
    Within(v, used) && Needs(v, open, r, used)
  }

  ghost predicate Fine(f: map<string, Json>, p: Position, visited: set<string>, open: Opener) {
    Book(f, p, visited) && Leads(f, p, open) && (NoChain(Obj(f)) ==> Progress(f, p, open))
  }

  /** Where a walk stands that has opened the references in used; any other opener with the same answers to
      them would have brought it there. */
  ghost predicate Walking(f: map<string, Json>, p: Position, visited: set<string>, used: set<string>, open: Opener) {
    Within(Obj(f), used) && forall open' :: Agrees(open, open', used) ==> Fine(f, p, visited, open')
  }

  lemma Itself(f: map<string, Json>, p: Position, visited: set<string>, used: set<string>, open: Opener)
    requires Walking(f, p, visited, used, open)
    ensures Fine(f, p, visited, open)
  {
    assert Agrees(open, open, used);
  }

  lemma WalkStarts(f: map<string, Json>, open: Opener)
    ensures Walking(f, Start(f), {}, {}, open)
  {
    forall k | k in f ensures k in Reach(f) { assert k[..|k|] == k; }
    forall open' ensures Fine(f, Start(f), {}, open') { ProgressStarts(f, open'); }
  }

  lemma LeadsOn(f: map<string, Json>, p: Position, q: Position, open: Opener, k: string)
    requires Leads(f, p, open) && Turn(f, p, q, open, k)
    ensures Leads(f, q, open)
  {
    forall r, n: nat | Finishes(f, q, open, r, n) ensures Outcome(Obj(f), open, r) {
      FinishesNext(f, p, q, open, k, r);
    }
  }

  lemma LeadsToEnd(f: map<string, Json>, p: Position, open: Opener, r: Option<Json>)
    requires Leads(f, p, open) && Ends(f, p, open, r)
    ensures Outcome(Obj(f), open, r)
  {
    assert Finishes(f, p, open, r, 0);
  }

  lemma BookOn(f: map<string, Json>, p: Position, q: Position, visited: set<string>, open: Opener, k: string)
    requires Book(f, p, visited) && Turn(f, p, q, open, k)
    ensures Book(f, q, visited + {k})
  {
    if IsRefKey(k) { ReachBase(f, k); }
    hide Outcome;
    hide Reach;
    hide HasSuffix;
  }

  lemma FineOn(f: map<string, Json>, p: Position, q: Position, visited: set<string>, open: Opener, k: string)
    requires Fine(f, p, visited, open) && Turn(f, p, q, open, k)
    ensures Fine(f, q, visited + {k}, open)
  {
    LeadsOn(f, p, q, open, k);
    BookOn(f, p, q, visited, open, k);
    if NoChain(Obj(f)) { TurnKeeps(f, p, q, open, k); }
  }

  lemma WithinRef(f: map<string, Json>, p: Position, visited: set<string>, used: set<string>, open: Opener, k: string)
    requires Walking(f, p, visited, used, open) && k in p.todo && k in p.node
    requires IsRefKey(k) && IsText(p.node[k]) && !Inline(p.node, k)
    ensures Within(Obj(f), used + {p.node[k].s})
  {
    Itself(f, p, visited, used, open);
    if NoChain(Obj(f)) {
      NoChainSettles(f, p, open, k);
      ActiveRefs(f, k);
    }
  }

  /** One turn of resolveMap's loop; None when a reference below or at the key cannot be opened. */
  method VisitKey(f: map<string, Json>, node: map<string, Json>, todo: set<string>, key: string, open: Opener,
                  ghost visited: set<string>, ghost used: set<string>)
    returns (node': Option<map<string, Json>>, todo': set<string>, changed: bool, ghost used': set<string>)
    requires Walking(f, Position(node, todo), visited, used, open) && key in todo && key in node
    ensures node'.Some? ==> Turn(f, Position(node, todo), Position(node'.value, todo'), open, key)
    ensures node'.Some? ==> Walking(f, Position(node'.value, todo'), visited + {key}, used', open)
    ensures node'.Some? && !changed ==> node'.value == node
    ensures node'.None? ==> RestsOn(Obj(f), open, None, used')
    decreases Obj(f), 1
  {
    ghost var p := Position(node, todo);
    Itself(f, p, visited, used, open);
    hide Walking;
    hide RestsOn;
    hide Within;
    hide HasSuffix;
    todo' := todo - {key};
    var val := node[key];
    if IsContainer(val) {
      var child, sub, inner := ResolveNested(val, open);
      Nested(f, p, visited, used, open, key, child, inner);
      return if child.Some? then Some(node[key := child.value]) else None, todo', sub, used + inner;
    }
    if !IsRefKey(key) || !IsText(val) || (Base(key) in node && IsText(node[Base(key)])) {
      Passed(f, p, visited, used, open, key);
      return Some(node), todo', false, used;
    }
    var again: bool := *;
    var more := again && Base(key) !in node;
    OpensRef(f, p, visited, used, open, key, more);
    var plain := open(val.s);
    todo' := todo' + if more then {Base(key)} else {};
    return if plain.Some? then Some(node[Base(key) := Str(plain.value)]) else None, todo', true, used + {val.s};
  }

  lemma Nested(f: map<string, Json>, p: Position, visited: set<string>, used: set<string>, open: Opener, k: string,
               child: Option<Json>, inner: set<string>)
    requires Walking(f, p, visited, used, open) && k in p.todo && k in p.node && IsContainer(p.node[k])
    requires RestsOn(p.node[k], open, child, inner)
    ensures child.None? ==> RestsOn(Obj(f), open, None, used + inner)
    ensures child.Some? ==>
              var q := Position(p.node[k := child.value], p.todo - {k});
              Turn(f, p, q, open, k) && Walking(f, q, visited + {k}, used + inner, open)
  {
    Itself(f, p, visited, used, open);
    forall open' | Agrees(open, open', used + inner)
      ensures child.None? ==> Outcome(Obj(f), open', None)
      ensures child.Some? ==>
                var q := Position(p.node[k := child.value], p.todo - {k});
                Turn(f, p, q, open', k) && Fine(f, q, visited + {k}, open')
    {
      assert Agrees(open, open', used) && Agrees(open, open', inner);
      NestedTurn(f, p, visited, open', k, child);
    }
    assert Agrees(open, open, used + inner);
  }

  lemma NestedTurn(f: map<string, Json>, p: Position, visited: set<string>, open: Opener, k: string, child: Option<Json>)
    requires Fine(f, p, visited, open) && k in p.todo && k in p.node && IsContainer(p.node[k])
    requires k in f && p.node[k] == f[k] && Outcome(f[k], open, child)
    ensures child.None? ==> Outcome(Obj(f), open, None)
    ensures child.Some? ==>
              var q := Position(p.node[k := child.value], p.todo - {k});
              Turn(f, p, q, open, k) && Fine(f, q, visited + {k}, open)
  {
    if child.Some? {
      var q := Position(p.node[k := child.value], p.todo - {k});
      assert Turn(f, p, q, open, k);
      FineOn(f, p, q, visited, open, k);
    } else {
      assert Fails(f, p, open, k);
      LeadsToEnd(f, p, open, None);
    }
  }

  lemma Passed(f: map<string, Json>, p: Position, visited: set<string>, used: set<string>, open: Opener, k: string)
    requires Walking(f, p, visited, used, open) && k in p.todo && k in p.node && !IsContainer(p.node[k])
    requires !IsRefKey(k) || !IsText(p.node[k]) || Inline(p.node, k)
    ensures var q := Position(p.node, p.todo - {k});
            Turn(f, p, q, open, k) && Walking(f, q, visited + {k}, used, open)
  {
    var q := Position(p.node, p.todo - {k});
    forall open' | Agrees(open, open', used) ensures Turn(f, p, q, open', k) && Fine(f, q, visited + {k}, open') {
      FineOn(f, p, q, visited, open', k);
    }
    assert Agrees(open, open, used);
  }

  lemma OpensRef(f: map<string, Json>, p: Position, visited: set<string>, used: set<string>, open: Opener, k: string,
                 more: bool)
    requires Walking(f, p, visited, used, open) && k in p.todo && k in p.node
    requires IsRefKey(k) && IsText(p.node[k]) && !Inline(p.node, k) && (more ==> Base(k) !in p.node)
    ensures open(p.node[k].s).None? ==> RestsOn(Obj(f), open, None, used + {p.node[k].s})
    ensures open(p.node[k].s).Some? ==>
              var q := Position(p.node[Base(k) := Str(open(p.node[k].s).value)],
                                p.todo - {k} + if more then {Base(k)} else {});
              Turn(f, p, q, open, k) && Walking(f, q, visited + {k}, used + {p.node[k].s}, open)
  {
    WithinRef(f, p, visited, used, open, k);
    forall open' | Agrees(open, open', used + {p.node[k].s})
      ensures open(p.node[k].s).None? ==> Outcome(Obj(f), open', None)
      ensures open(p.node[k].s).Some? ==>
                var q := Position(p.node[Base(k) := Str(open(p.node[k].s).value)],
                                  p.todo - {k} + if more then {Base(k)} else {});
                Turn(f, p, q, open', k) && Fine(f, q, visited + {k}, open')
    {
      assert Agrees(open, open', used) && open(p.node[k].s) == open'(p.node[k].s);
      RefTurns(f, p, visited, open', k, more);
    }
    assert Agrees(open, open, used + {p.node[k].s});
  }

  lemma RefTurns(f: map<string, Json>, p: Position, visited: set<string>, open: Opener, k: string, more: bool)
    requires Fine(f, p, visited, open) && k in p.todo && k in p.node
    requires IsRefKey(k) && IsText(p.node[k]) && !Inline(p.node, k) && (more ==> Base(k) !in p.node)
    ensures open(p.node[k].s).None? ==> Outcome(Obj(f), open, None)
    ensures open(p.node[k].s).Some? ==>
              var q := Position(p.node[Base(k) := Str(open(p.node[k].s).value)],
                                p.todo - {k} + if more then {Base(k)} else {});
              Turn(f, p, q, open, k) && Fine(f, q, visited + {k}, open)
  {
    if open(p.node[k].s).Some? {
      var q := Position(p.node[Base(k) := Str(open(p.node[k].s).value)],
                        p.todo - {k} + if more then {Base(k)} else {});
      assert !more ==> q.todo == p.todo - {k};
      assert Turn(f, p, q, open, k);
      FineOn(f, p, q, visited, open, k);
    } else {
      assert Fails(f, p, open, k);
      LeadsToEnd(f, p, open, None);
    }
  }

  /** At its end the walk has the outcome it leads to. */
  lemma WalkEnds(f: map<string, Json>, p: Position, visited: set<string>, used: set<string>, open: Opener)
    requires Walking(f, p, visited, used, open) && p.todo == {}
    ensures RestsOn(Obj(f), open, Some(Obj(p.node)), used)
  {
    forall open' | Agrees(open, open', used) ensures Outcome(Obj(f), open', Some(Obj(p.node))) {
      assert Fine(f, p, visited, open');
      LeadsToEnd(f, p, open', Some(Obj(p.node)));
    }
  }

  /** resolveMap: keys come in any order, and a key written on the way may or may not come too. */
  method ResolveMap(v: Json, open: Opener) returns (r: Option<Json>, changed: bool, ghost used: set<string>)
    requires v.Obj?
    ensures Outcome(v, open, r) && RestsOn(v, open, r, used)
    ensures r.Some? ==> r.value.Obj? && (!changed ==> r.value == v)
    decreases v, 2
  {
    var f := v.fields;
    var node, todo := f, f.Keys;
    ghost var visited: set<string> := {};
    changed, used := false, {};
    WalkStarts(f, open);
    while todo != {}
      invariant Walking(f, Position(node, todo), visited, used, open)
      invariant !changed ==> node == f
      decreases Reach(f) - visited
    {
      var key :| key in todo;
      Itself(f, Position(node, todo), visited, used, open);
      hide Walking;
      hide RestsOn;
      hide Turn;
      hide Outcome;
      var next, rest, hit, seen := VisitKey(f, node, todo, key, open, visited, used);
      if next.None? {
        return None, false, seen;
      }
      node, todo, changed, used := next.value, rest, changed || hit, seen;
      visited := visited + {key};
    }
    r := Some(Obj(node));
    WalkEnds(f, Position(node, todo), visited, used, open);
  }

  /** The walk's switch on what it finds below a key or an index. */
  method ResolveNested(v: Json, open: Opener) returns (r: Option<Json>, changed: bool, ghost used: set<string>)
    requires IsContainer(v)
    ensures Outcome(v, open, r) && RestsOn(v, open, r, used)
    ensures r.Some? ==> IsContainer(r.value) && (!changed ==> r.value == v)
    decreases v, 3
  {
    if v.Obj? {
      r, changed, used := ResolveMap(v, open);
    } else {
      r, changed, used := ResolveSlice(v, open);
    }
  }

  /** The first n items of an array are done. */
  ghost predicate ItemsDone(a: seq<Json>, node: seq<Json>, n: nat, open: Opener, used: set<string>)
    requires n <= |a| == |node|
  {
    Within(Arr(a), used) && forall j | 0 <= j < n :: Needs(a[j], open, Some(node[j]), used)
  }

  /** Item i came out as r, opening inner. */
  lemma ItemNext(a: seq<Json>, node: seq<Json>, i: nat, open: Opener, used: set<string>, inner: set<string>, r: Option<Json>)
    requires i < |a| == |node| && ItemsDone(a, node, i, open, used) && RestsOn(a[i], open, r, inner)
    ensures r.Some? ==> ItemsDone(a, node[i := r.value], i + 1, open, used + inner)
    ensures r.None? ==> RestsOn(Arr(a), open, None, used + inner)
  {
    assert May(a[i]) <= May(Arr(a)) && (NoChain(Arr(a)) ==> NoChain(a[i]));
    forall j | 0 <= j < i ensures Needs(a[j], open, Some(node[j]), used + inner) {
    }
    if r.None? {
      forall open' | Agrees(open, open', used + inner) ensures Outcome(Arr(a), open', None) {
        forall j | 0 <= j < i ensures Succeeds(a[j], open') { assert Outcome(a[j], open', Some(node[j])); }
        assert FailsAt(a, open', i);
      }
    }
  }

  method ResolveSlice(v: Json, open: Opener) returns (r: Option<Json>, changed: bool, ghost used: set<string>)
    requires v.Arr?
    ensures Outcome(v, open, r) && RestsOn(v, open, r, used)
    ensures r.Some? ==> r.value.Arr? && (!changed ==> r.value == v)
    decreases v, 2
  {
    var a := v.items;
    var node := a;
    changed, used := false, {};
    hide RestsOn;
    hide Outcome;
    for i := 0 to |a|
      invariant |node| == |a| && (!changed ==> node == a)
      invariant forall j | i <= j < |a| :: node[j] == a[j]
      invariant ItemsDone(a, node, i, open, used)
    {
      if IsContainer(a[i]) {
        var child, sub, inner := ResolveNested(a[i], open);
        ItemNext(a, node, i, open, used, inner, child);
        used := used + inner;
        if child.None? {
          return None, false, used;
        }
        node := node[i := child.value];
        changed := changed || sub;
      } else {
        ItemNext(a, node, i, open, used, {}, Some(a[i]));
        assert node[i := a[i]] == node && used + {} == used;
      }
    }
    r := Some(Arr(node));
  }

  /** The resolver's result is the only one there is, exactly for the configs whose order does not matter. */
  method ResolveOrderFree(v: Json, open: Opener) returns (r: Option<Json>)
    requires v.Obj? && OrderFree(v)
    ensures r == if AllOpen(Must(v), open) then Some(Value(v, open)) else None
  {
    ghost var used;
    var changed;
    r, changed, used := ResolveMap(v, open);
    OrderFreeResolves(v, open, r);
  }
}
