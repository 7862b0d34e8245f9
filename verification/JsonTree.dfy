// Parsed JSON values, as both the masking of configs and the secret references see them.

module JsonTree {

  datatype Option<+T> = None | Some(value: T)

  datatype Json =
    | Null
    | Bool(b: bool)
    | Num(n: real)
    | Str(s: string)
    | Arr(items: seq<Json>)
    | Obj(fields: map<string, Json>)

  predicate HasSuffix(s: string, suffix: string) {
    |suffix| <= |s| && s[|s| - |suffix|..] == suffix
  }

  predicate HasField(v: Json, key: string) { v.Obj? && key in v.fields }

  datatype Step = Key(k: string) | Index(i: nat)

  type Path = seq<Step>

  function Child(v: Json, s: Step): Option<Json> {
    match s
    case Key(k) => if HasField(v, k) then Some(v.fields[k]) else None
    case Index(i) => if v.Arr? && i < |v.items| then Some(v.items[i]) else None
  }

  function Lookup(v: Json, p: Path): Option<Json>
    decreases |p|
  {
    if p == [] then Some(v)
    else
      var c := Child(v, p[0]);
      if c.None? then None else Lookup(c.value, p[1..])
  }

  /** A path read from its first step on. */
  lemma LookupPlainly(f: map<string, Json>, a: seq<Json>, k: string, i: nat, p: Path)
    ensures Lookup(Obj(f), [Key(k)] + p) == if k in f then Lookup(f[k], p) else None
    ensures Lookup(Arr(a), [Index(i)] + p) == if i < |a| then Lookup(a[i], p) else None
    ensures Lookup(Obj(f), []) == Some(Obj(f)) && Lookup(Arr(a), []) == Some(Arr(a))
  {
    assert ([Key(k)] + p)[1..] == p && ([Index(i)] + p)[1..] == p;
  }

  lemma NothingUnder(v: Json, p: Path)
    requires p != [] && !v.Obj? && !v.Arr?
    ensures Lookup(v, p).None?
  {
  }

  /** A path goes on only below an object or an array. */
  lemma ContainerAbove(v: Json, p: Path)
    ensures p != [] && Lookup(v, p).Some? ==> v.Obj? || v.Arr?
  {
  }

  /** Some field of an object, at some depth, satisfies p. */
  ghost predicate SomeField(v: Json, p: (string, Json) -> bool)
    decreases v
  {
    match v
    case Obj(f) => exists k | k in f :: p(k, f[k]) || SomeField(f[k], p)
    case Arr(a) => exists i | 0 <= i < |a| :: SomeField(a[i], p)
    case _ => false
  }

  ghost predicate FieldAt(v: Json, path: Path, k: string, p: (string, Json) -> bool) {
    var x := Lookup(v, path + [Key(k)]);
    x.Some? && p(k, x.value)
  }

  /** And then there is a path to it. */
  lemma {:induction false} SomeFieldPlainly(v: Json, p: (string, Json) -> bool)
    ensures SomeField(v, p) <==> exists path, k :: FieldAt(v, path, k, p)
  {
    if SomeField(v, p) {
      FieldHasPath(v, p);
    }
    forall path, k | FieldAt(v, path, k, p) ensures SomeField(v, p) { PathHasField(v, path, k, p); }
  }

  lemma {:induction false} FieldHasPath(v: Json, p: (string, Json) -> bool)
    requires SomeField(v, p)
    ensures exists path, k :: FieldAt(v, path, k, p)
  {
    match v
    case Obj(f) =>
      var k :| k in f && (p(k, f[k]) || SomeField(f[k], p));
      if p(k, f[k]) {
        assert [Key(k)][1..] == [] && [] + [Key(k)] == [Key(k)];
        assert FieldAt(v, [], k, p);
      } else {
        FieldHasPath(f[k], p);
        var path, j :| FieldAt(f[k], path, j, p);
        Deeper(v, Key(k), f[k], path, j, p);
      }
    case Arr(a) =>
      var i: nat :| i < |a| && SomeField(a[i], p);
      FieldHasPath(a[i], p);
      var path, j :| FieldAt(a[i], path, j, p);
      Deeper(v, Index(i), a[i], path, j, p);
    case _ =>
  }

  lemma Deeper(v: Json, s: Step, x: Json, path: Path, k: string, p: (string, Json) -> bool)
    requires Child(v, s) == Some(x)
    ensures FieldAt(v, [s] + path, k, p) <==> FieldAt(x, path, k, p)
  {
    assert ([s] + path) + [Key(k)] == [s] + (path + [Key(k)]);
    assert ([s] + (path + [Key(k)]))[1..] == path + [Key(k)];
  }

  lemma {:induction false} PathHasField(v: Json, path: Path, k: string, p: (string, Json) -> bool)
    requires FieldAt(v, path, k, p)
    ensures SomeField(v, p)
    decreases |path|
  {
    if path == [] {
      assert [] + [Key(k)] == [Key(k)] && [Key(k)][1..] == [];
      var x := Child(v, Key(k)).value;
      assert Lookup(v, [Key(k)]) == Lookup(x, []) == Some(x);
    } else {
      var s, rest := path[0], path[1..];
      assert path == [s] + rest && (path + [Key(k)])[0] == s;
      var x := Child(v, s).value;
      Deeper(v, s, x, rest, k, p);
      PathHasField(x, rest, k, p);
    }
  }
}
