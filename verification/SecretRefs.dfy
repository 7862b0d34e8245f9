// Secret references: the resolver that substitutes them and the scan that knows them
// (internal/core/secrets.go, internal/store/sqlite/delete.go).
//
// The resolver walks a map that it writes to, so the order of keys matters.  Outcome is the
// relation of all results some order can give.

module SecretRefs {
  import opened JsonTree

  const REF: string := "_ref"
  const SCHEME: string := "secret://"

  /** Opening a reference: the plaintext, or None for any failure. */
  type Opener = string -> Option<string>

  predicate IsRefKey(k: string) { HasSuffix(k, REF) && |k| > |REF| }

  function Base(k: string): string
    requires IsRefKey(k)
  {
    k[..|k| - |REF|]
  }

  lemma BaseOfRef(k: string)
    ensures k != "" ==> IsRefKey(k + REF) && Base(k + REF) == k
    ensures IsRefKey(k) ==> Base(k) != "" && Base(k) + REF == k && Base(k) != k
  {
    if k != "" {
      assert (k + REF)[|k + REF| - |REF|..] == REF;
    }
    if IsRefKey(k) {
      assert k == k[..|k| - |REF|] + k[|k| - |REF|..];
    }
  }

  predicate IsContainer(v: Json) { v.Obj? || v.Arr? }

  predicate IsText(v: Json) { v.Str? && v.s != "" }

  /** k is a reference the resolver acts on: no inline value under its base wins over it. */
  predicate Active(f: map<string, Json>, k: string) {
    k in f && IsRefKey(k) && IsText(f[k]) && !(Base(k) in f && IsText(f[Base(k)]))
  }

  /** k receives the secret behind k_ref. */
  predicate Substituted(f: map<string, Json>, k: string) { Active(f, k + REF) && k != "" }

  /** The secret that k receives. */
  function Secret(f: map<string, Json>, k: string, open: Opener): Json
    requires Substituted(f, k)
  {
    Str(Plain(open(f[k + REF].s)))
  }

  function Plain(o: Option<string>): string { if o.Some? then o.value else "" }

  function Bases(f: map<string, Json>): set<string> { set k | k in f && Active(f, k) :: Base(k) }

  lemma BasesAre(f: map<string, Json>, k: string)
    ensures k in Bases(f) <==> Substituted(f, k)
  {
    BaseOfRef(k);
    forall j | j in f && Active(f, j) && Base(j) == k ensures j == k + REF { BaseOfRef(j); }
  }

  // ---- one config, all orders --------------------------------------------------------------

  predicate Inline(node: map<string, Json>, k: string)
    requires IsRefKey(k)
  {
    Base(k) in node && IsText(node[Base(k)])
  }

  /** What a visit makes of an object whose entry at key is neither an object nor an array. */
  function Visit(node: map<string, Json>, key: string, open: Opener): Option<map<string, Json>>
    requires key in node
  {
    if !IsRefKey(key) || !IsText(node[key]) || Inline(node, key) then Some(node)
    else match open(node[key].s)
      case None => None
      case Some(plain) => Some(node[Base(key) := Str(plain)])
  }

  /** A walk over the object f: what its entries are by now, and the keys still to come. */
  datatype Position = Position(node: map<string, Json>, todo: set<string>)

  function Start(f: map<string, Json>): Position { Position(f, f.Keys) }

  /** The walk stops at k with an error. */
  ghost predicate Fails(f: map<string, Json>, p: Position, open: Opener, k: string)
    decreases Obj(f), 0
  {
    k in p.todo && k in p.node
    && if IsContainer(p.node[k]) then k in f && p.node[k] == f[k] && Outcome(f[k], open, None)
       else Visit(p.node, k, open).None?
  }

  /** The walk visits k next; a key this writes that was not there may come again or not. */
  ghost predicate Turn(f: map<string, Json>, p: Position, q: Position, open: Opener, k: string)
    decreases Obj(f), 0
  {
    k in p.todo && k in p.node
    && if IsContainer(p.node[k]) then
         k in f && p.node[k] == f[k] && k in q.node && Outcome(f[k], open, Some(q.node[k]))
         && q == Position(p.node[k := q.node[k]], p.todo - {k})
       else
         Visit(p.node, k, open) == Some(q.node)
         && (q.todo == p.todo - {k}
             || (IsRefKey(k) && Base(k) !in p.node && Base(k) in q.node && q.todo == p.todo - {k} + {Base(k)}))
  }

  ghost predicate Ends(f: map<string, Json>, p: Position, open: Opener, r: Option<Json>)
    decreases Obj(f), 1
  {
    if r.Some? then p.todo == {} && r.value == Obj(p.node) else exists k :: Fails(f, p, open, k)
  }

  ghost predicate Finishes(f: map<string, Json>, p: Position, open: Opener, r: Option<Json>, n: nat)
    decreases Obj(f), 2, n
  {
    if n == 0 then Ends(f, p, open, r)
    else exists q, k :: Turn(f, p, q, open, k) && Finishes(f, q, open, r, n - 1)
  }

  ghost predicate Succeeds(v: Json, open: Opener)
    decreases v, 4
  {
    exists x :: Outcome(v, open, Some(x))
  }

  /** The items before number i can succeed, and i can fail. */
  ghost predicate FailsAt(a: seq<Json>, open: Opener, i: int)
    decreases Arr(a), 0
  {
    0 <= i < |a| && Outcome(a[i], open, None) && forall j | 0 <= j < i :: Succeeds(a[j], open)
  }

  /** Some order of keys gives r; None is an error. */
  ghost predicate Outcome(v: Json, open: Opener, r: Option<Json>)
    decreases v, 3
  {
    match v
    case Obj(f) => exists n: nat :: Finishes(f, Start(f), open, r, n)
    case Arr(a) =>
      if r.Some? then
        r.value.Arr? && |r.value.items| == |a|
        && forall i | 0 <= i < |a| :: Outcome(a[i], open, Some(r.value.items[i]))
      else exists i :: FailsAt(a, open, i)
    case _ => r == Some(v)
  }

  // ---- the references a config holds -----------------------------------------------------------

  /** The references some order opens. */
  function May(v: Json): set<string>
    decreases v
  {
    match v
    case Obj(f) => (set k | k in f && Active(f, k) :: f[k].s) + (set k, ref | k in f && ref in May(f[k]) :: ref)
    case Arr(a) => set i, ref | 0 <= i < |a| && ref in May(a[i]) :: ref
    case _ => {}
  }

  /** The references every order opens: those not inside something a secret replaces. */
  function Must(v: Json): set<string>
    decreases v
  {
    match v
    case Obj(f) =>
      (set k | k in f && Active(f, k) :: f[k].s)
      + (set k, ref | k in f && !Substituted(f, k) && ref in Must(f[k]) :: ref)
    case Arr(a) => set i, ref | 0 <= i < |a| && ref in Must(a[i]) :: ref
    case _ => {}
  }

  /** The config with its references substituted. */
  function Value(v: Json, open: Opener): Json
    decreases v
  {
    match v
    case Obj(f) =>
      Obj(map k | k in f.Keys + Bases(f) ::
        if Substituted(f, k) then Secret(f, k, open) else if k in f then Value(f[k], open) else Null)
    case Arr(a) => Arr(seq(|a|, i requires 0 <= i < |a| => Value(a[i], open)))
    case _ => v
  }

  ghost predicate AllOpen(refs: set<string>, open: Opener) { forall ref | ref in refs :: open(ref).Some? }

  /** A substituted value that is itself under a reference key is never opened in turn. */
  predicate NoChain(v: Json)
    decreases v
  {
    match v
    case Obj(f) =>
      forall k | k in f :: NoChain(f[k]) && (Active(f, k) && IsRefKey(Base(k)) ==> Inline(f, Base(k)))
    case Arr(a) => forall i | 0 <= i < |a| :: NoChain(a[i])
    case _ => true
  }

  lemma {:induction false} MustIsMay(v: Json)
    ensures Must(v) <= May(v)
  {
    match v
    case Obj(f) => forall k | k in f ensures Must(f[k]) <= May(f[k]) { MustIsMay(f[k]); }
    case Arr(a) => forall i | 0 <= i < |a| ensures Must(a[i]) <= May(a[i]) { MustIsMay(a[i]); }
    case _ =>
  }

  lemma ChildRefs(f: map<string, Json>, k: string)
    requires k in f
    ensures May(f[k]) <= May(Obj(f)) && (!Substituted(f, k) ==> Must(f[k]) <= Must(Obj(f)))
    ensures NoChain(Obj(f)) ==> NoChain(f[k])
  {
  }

  lemma ActiveRefs(f: map<string, Json>, k: string)
    requires Active(f, k)
    ensures f[k].s in May(Obj(f)) && f[k].s in Must(Obj(f))
  {
  }

  // ---- the scan ------------------------------------------------------------------------------

  function TrimPrefix(s: string, prefix: string): string {
    if |prefix| <= |s| && s[..|prefix|] == prefix then s[|prefix|..] else s
  }

  predicate IsSpace(c: char) {
    c in {'\t', '\n', '\U{b}', '\U{c}', '\r', ' ', '\U{85}', '\U{a0}', '\U{1680}', '\U{2028}', '\U{2029}',
          '\U{202f}', '\U{205f}', '\U{3000}'}
    || '\U{2000}' <= c <= '\U{200a}'
  }

  function TrimLeft(s: string): string { if s != "" && IsSpace(s[0]) then TrimLeft(s[1..]) else s }

  function TrimRight(s: string): string {
    if s != "" && IsSpace(s[|s| - 1]) then TrimRight(s[..|s| - 1]) else s
  }

  function TrimSpace(s: string): string { TrimRight(TrimLeft(s)) }

  function RefName(ref: string): string { TrimSpace(TrimPrefix(ref, SCHEME)) }

  /** The names a config refers to. */
  function Refs(v: Json): set<string>
    decreases v, 0
  {
    match v
    case Obj(f) => set k, n | k in f && n in FieldRefs(k, f[k]) :: n
    case Arr(a) => set i, n | 0 <= i < |a| && n in Refs(a[i]) :: n
    case _ => {}
  }

  function FieldRefs(k: string, v: Json): set<string>
    decreases v, 1
  {
    if HasSuffix(k, REF) && IsText(v) then {RefName(v.s)} else Refs(v)
  }

  /** collectRefs, with the names appended in whatever order the keys come. */
  method CollectRefs(v: Json, found: seq<string>) returns (out: seq<string>)
    ensures forall n :: n in out <==> n in found || n in Refs(v)
    decreases v
  {
    out := found;
    match v
    case Obj(f) =>
      var todo := f.Keys;
      while todo != {}
        invariant todo <= f.Keys
        invariant forall n :: n in out <==>
                    n in found || exists k | k in f && k !in todo :: n in FieldRefs(k, f[k])
      {
        var k :| k in todo;
        ghost var before, was := todo, out;
        todo := todo - {k};
        if HasSuffix(k, REF) && IsText(f[k]) {
          out := out + [RefName(f[k].s)];
        } else {
          out := CollectRefs(f[k], out);
        }
        assert forall n :: n in out <==> n in was || n in FieldRefs(k, f[k]);
        assert forall j | j in f :: j !in todo <==> j !in before || j == k;
      }
    case Arr(a) =>
      for i := 0 to |a|
        invariant forall n :: n in out <==> n in found || exists j | 0 <= j < i :: n in Refs(a[j])
      {
        out := CollectRefs(a[i], out);
      }
    case _ =>
  }

  // ---- the same in plain terms -------------------------------------------------------------------

  /** A non-empty string that names n, under a name ending in "_ref". */
  ghost function Naming(n: string): (string, Json) -> bool {
    (k, x: Json) => x.Str? && x.s != "" && (exists base: string :: k == base + "_ref") && RefName(x.s) == n
  }

  /** The scan's names are those of the strings at all paths that end in such a field. */
  lemma {:induction false} RefsPlainly(v: Json, n: string)
    ensures n in Refs(v) <==> SomeField(v, Naming(n))
  {
    match v
    case Obj(f) =>
      forall k | k in f ensures n in FieldRefs(k, f[k]) <==> Naming(n)(k, f[k]) || SomeField(f[k], Naming(n)) {
        RefsPlainly(f[k], n);
        if HasSuffix(k, REF) { assert k == k[..|k| - |REF|] + "_ref"; }
        forall base: string ensures k == base + "_ref" ==> HasSuffix(k, REF) { }
      }
      hide FieldRefs;
    case Arr(a) =>
      forall i | 0 <= i < |a| ensures n in Refs(a[i]) <==> SomeField(a[i], Naming(n)) { RefsPlainly(a[i], n); }
    case _ =>
  }

  /** A reference is a name with or without the scheme; outer white space is not part of it. */
  lemma RefNamePlainly(n: string)
    ensures RefName("secret://" + n) == TrimSpace(n)
    ensures !("secret://" <= n) ==> RefName(n) == TrimSpace(n)
    ensures exists before: string, after: string ::
              n == before + TrimSpace(n) + after && (forall c | c in before + after :: IsSpace(c))
    ensures forall c :: IsSpace(c) <==>
              c in {'\t', '\n', '\U{b}', '\U{c}', '\r', ' ', '\U{85}', '\U{a0}', '\U{1680}', '\U{2000}', '\U{2001}',
                    '\U{2002}', '\U{2003}', '\U{2004}', '\U{2005}', '\U{2006}', '\U{2007}', '\U{2008}', '\U{2009}',
                    '\U{200a}', '\U{2028}', '\U{2029}', '\U{202f}', '\U{205f}', '\U{3000}'}
    ensures TrimSpace(n) != "" ==> !IsSpace(TrimSpace(n)[0]) && !IsSpace(TrimSpace(n)[|TrimSpace(n)| - 1])
  {
    assert ("secret://" + n)[..9] == SCHEME && ("secret://" + n)[9..] == n;
    var before := LeftTrimmed(n);
    var after := RightTrimmed(TrimLeft(n));
    assert n == before + TrimSpace(n) + after;
    forall c | c in before + after ensures IsSpace(c) { assert c in before || c in after; }
  }

  lemma {:induction false} LeftTrimmed(s: string) returns (before: string)
    ensures s == before + TrimLeft(s) && forall c | c in before :: IsSpace(c)
    ensures TrimLeft(s) != "" ==> !IsSpace(TrimLeft(s)[0])
  {
    before := "";
    if s != "" && IsSpace(s[0]) {
      var rest := LeftTrimmed(s[1..]);
      before := [s[0]] + rest;
      assert s == [s[0]] + s[1..];
    }
  }

  lemma {:induction false} RightTrimmed(s: string) returns (after: string)
    ensures s == TrimRight(s) + after && forall c | c in after :: IsSpace(c)
    ensures TrimRight(s) != "" ==> !IsSpace(TrimRight(s)[|TrimRight(s)| - 1]) && TrimRight(s)[0] == s[0]
  {
    after := "";
    if s != "" && IsSpace(s[|s| - 1]) {
      var rest := RightTrimmed(s[..|s| - 1]);
      after := rest + [s[|s| - 1]];
      assert s == s[..|s| - 1] + [s[|s| - 1]];
    }
  }

  /** One visit: a non-empty string under base + "_ref" is opened and its plaintext put under base, unless a
      non-empty string is there already; nothing else is opened. */
  lemma VisitPlainly(node: map<string, Json>, key: string, open: Opener)
    requires key in node
    ensures forall base: string | key == base + "_ref" && base != "" && node[key].Str? && node[key].s != ""
                                  && !(base in node && node[base].Str? && node[base].s != "") ::
              Visit(node, key, open) ==
              if open(node[key].s).Some? then Some(node[base := Str(open(node[key].s).value)]) else None
    ensures (forall base: string | key == base + "_ref" && base != "" ::
               !node[key].Str? || node[key].s == "" || (base in node && node[base].Str? && node[base].s != "")) ==>
              Visit(node, key, open) == Some(node)
  {
    BaseOfRef(key);
    forall base: string | key == base + "_ref" && base != "" ensures IsRefKey(key) && Base(key) == base {
      BaseOfRef(base);
    }
    if IsRefKey(key) { assert key == Base(key) + "_ref"; }
  }

  lemma {:induction false} MayIsScanned(v: Json)
    ensures forall ref | ref in May(v) :: RefName(ref) in Refs(v)
  {
    match v
    case Obj(f) =>
      forall ref | ref in May(v) ensures RefName(ref) in Refs(v) {
        if k :| k in f && Active(f, k) && ref == f[k].s {
          assert RefName(ref) in FieldRefs(k, f[k]);
        } else {
          var k :| k in f && ref in May(f[k]);
          MayIsScanned(f[k]);
          LeafHasNone(f[k]);
          assert RefName(ref) in FieldRefs(k, f[k]);
        }
      }
    case Arr(a) => forall i | 0 <= i < |a| ensures forall ref | ref in May(a[i]) :: RefName(ref) in Refs(a[i]) { MayIsScanned(a[i]); }
    case _ =>
  }

  lemma LeafHasNone(v: Json)
    ensures May(v) != {} ==> IsContainer(v)
  {
  }

  // ---- what every order keeps, where nothing chains ----------------------------------------------

  /** The secret for k has been written: its reference has been visited. */
  predicate Done(f: map<string, Json>, todo: set<string>, k: string) { Substituted(f, k) && k + REF !in todo }

  /** What one entry holds while the keys in todo are still to come. */
  ghost predicate EntryOk(f: map<string, Json>, p: Position, open: Opener, k: string) {
    && (k in p.node <==> k in f || Done(f, p.todo, k))
    && (k in p.node && Done(f, p.todo, k) ==> p.node[k] == Secret(f, k, open))
    && (k in f && !Done(f, p.todo, k) ==>
          if k in p.todo || !IsContainer(f[k]) then p.node[k] == f[k]
          else p.node[k] == Value(f[k], open) && AllOpen(Must(f[k]), open))
    && (k in f && k !in p.todo && Active(f, k) ==> open(f[k].s).Some?)
  }

  ghost predicate Progress(f: map<string, Json>, p: Position, open: Opener) { forall k :: EntryOk(f, p, open, k) }

  lemma ProgressStarts(f: map<string, Json>, open: Opener)
    ensures Progress(f, Start(f), open)
  {
    forall k ensures EntryOk(f, Start(f), open, k) {
      assert !Done(f, f.Keys, k);
    }
  }

  lemma ValueKind(v: Json, open: Opener)
    ensures IsContainer(Value(v, open)) <==> IsContainer(v)
    ensures !IsContainer(v) ==> Value(v, open) == v
  {
  }

  /** Whether a visit opens a reference is settled by the config alone, whatever came before. */
  ghost predicate Settled(f: map<string, Json>, p: Position, k: string)
    requires k in p.node
  {
    (IsRefKey(k) && IsText(p.node[k]) && !Inline(p.node, k) <==> Active(f, k))
    && (Active(f, k) ==> p.node[k] == f[k])
    && (IsContainer(p.node[k]) ==> k in f && !Done(f, p.todo, k) && p.node[k] == f[k])
  }

  lemma NoChainSettles(f: map<string, Json>, p: Position, open: Opener, k: string)
    requires Progress(f, p, open) && NoChain(Obj(f)) && k in p.todo && k in p.node
    ensures Settled(f, p, k)
  {
    BaseOfRef(k);
    assert EntryOk(f, p, open, k);
    if IsRefKey(k) {
      assert !Done(f, p.todo, Base(k));
      assert EntryOk(f, p, open, Base(k));
      if Base(k) in f { ValueKind(f[Base(k)], open); }
      assert Done(f, p.todo, k) ==> Inline(f, k);
    }
  }

  lemma DoneAfterOther(f: map<string, Json>, todo: set<string>, k: string)
    requires !Active(f, k)
    ensures forall j :: Done(f, todo - {k}, j) <==> Done(f, todo, j)
  {
    hide Active;
  }

  lemma DoneAfterRef(f: map<string, Json>, todo: set<string>, k: string, more: bool)
    requires k in todo && Active(f, k) && (more ==> Base(k) !in f)
    ensures var todo' := todo - {k} + if more then {Base(k)} else {};
            forall j :: Done(f, todo', j) <==> Done(f, todo, j) || j == Base(k)
  {
    var todo' := todo - {k} + if more then {Base(k)} else {};
    forall j ensures Done(f, todo', j) <==> Done(f, todo, j) || j == Base(k) {
      BaseOfRef(j);
      BaseOfRef(k);
    }
  }

  lemma LeafTurn(f: map<string, Json>, p: Position, open: Opener, k: string)
    requires Progress(f, p, open) && k in p.todo && k in p.node && Settled(f, p, k)
    requires !Active(f, k) && !IsContainer(p.node[k])
    ensures Visit(p.node, k, open) == Some(p.node) && Progress(f, Position(p.node, p.todo - {k}), open)
  {
    DoneAfterOther(f, p.todo, k);
    var q := Position(p.node, p.todo - {k});
    hide Done;
    hide Secret;
    hide Active;
    hide Value;
    hide Must;
    forall j ensures EntryOk(f, q, open, j) { assert EntryOk(f, p, open, j); }
  }

  lemma ChildTurn(f: map<string, Json>, p: Position, open: Opener, k: string)
    requires Progress(f, p, open) && k in p.todo && k in p.node && Settled(f, p, k) && IsContainer(p.node[k])
    requires AllOpen(Must(f[k]), open)
    ensures Progress(f, Position(p.node[k := Value(f[k], open)], p.todo - {k}), open)
  {
    assert !Active(f, k);
    DoneAfterOther(f, p.todo, k);
    var q := Position(p.node[k := Value(f[k], open)], p.todo - {k});
    hide Done;
    hide Secret;
    hide Active;
    hide Value;
    hide Must;
    hide AllOpen;
    forall j ensures EntryOk(f, q, open, j) { assert EntryOk(f, p, open, j); }
  }

  /** more: whether the key just written comes again. */
  lemma RefTurn(f: map<string, Json>, p: Position, open: Opener, k: string, more: bool)
    requires Progress(f, p, open) && k in p.todo && k in p.node && Settled(f, p, k)
    requires Active(f, k) && open(f[k].s).Some? && (more ==> Base(k) !in p.node)
    ensures var node, todo := p.node[Base(k) := Str(open(f[k].s).value)], p.todo - {k} + if more then {Base(k)} else {};
            Visit(p.node, k, open) == Some(node) && Progress(f, Position(node, todo), open)
  {
    BaseOfRef(k);
    assert EntryOk(f, p, open, Base(k));
    DoneAfterRef(f, p.todo, k, more);
    var q := Position(p.node[Base(k) := Str(open(f[k].s).value)], p.todo - {k} + if more then {Base(k)} else {});
    assert Substituted(f, Base(k)) && Secret(f, Base(k), open) == Str(open(f[k].s).value);
    assert IsText(f[k]);
    hide Done;
    hide Secret;
    hide Substituted;
    hide Active;
    hide IsRefKey;
    hide Base;
    hide Value;
    hide Must;
    forall j ensures EntryOk(f, q, open, j) { assert EntryOk(f, p, open, j); }
  }
}
