// Masking of inline credentials in plugin configs and its undoing (internal/api/config_mask.go).

module ConfigMask {

  import opened JsonTree

  const MASK: string := "\U{2022}\U{2022}\U{2022}\U{2022}"

  const SECRETISH: seq<string> := ["token", "password", "passphrase", "secret", "key", "auth"]

  predicate Secretish(key: string) {
    !HasSuffix(key, "_ref") && exists w | w in SECRETISH :: key == w || HasSuffix(key, "_" + w)
  }

  /** A non-empty string under a credential's name. */
  predicate IsCredential(key: string, v: Json) { v.Str? && v.s != "" && Secretish(key) }

  // ---- what masking does --------------------------------------------------------------

  function MaskField(key: string, v: Json): Json
    decreases v, 1
  {
    if v.Str? then (if IsCredential(key, v) then Str(MASK) else v) else Mask(v)
  }

  function Mask(v: Json): Json
    decreases v, 0
  {
    match v
    case Obj(f) => Obj(map k | k in f :: MaskField(k, f[k]))
    case Arr(a) => Arr(seq(|a|, i requires 0 <= i < |a| => Mask(a[i])))
    case _ => v
  }

  /** The stored value beside an incoming one; Null where the stored tree has none. */
  function FieldOf(v: Json, key: string): Json { if v.Obj? && key in v.fields then v.fields[key] else Null }

  function ItemOf(v: Json, i: nat): Json { if v.Arr? && i < |v.items| then v.items[i] else Null }

  function UnmaskField(key: string, v: Json, stored: Json): Json
    decreases v, 1
  {
    if v == Str(MASK) then FieldOf(stored, key) else if v.Str? then v else Unmask(v, FieldOf(stored, key))
  }

  /** A mask with nothing stored behind it is dropped. */
  predicate Survives(key: string, v: Json, stored: Json) { v == Str(MASK) ==> HasField(stored, key) }

  function Unmask(v: Json, stored: Json): Json
    decreases v, 0
  {
    match v
    case Obj(f) => Obj(map k | k in f && Survives(k, f[k], stored) :: UnmaskField(k, f[k], stored))
    case Arr(a) => Arr(seq(|a|, i requires 0 <= i < |a| => Unmask(a[i], ItemOf(stored, i))))
    case _ => v
  }

  // ---- round trip ------------------------------------------------------------------------

  lemma {:induction false} UnmaskUndoesMask(c: Json)
    ensures Unmask(Mask(c), c) == c
  {
    match c
    case Obj(f) =>
      var m := Mask(c).fields;
      forall k | k in f ensures Survives(k, m[k], c) && UnmaskField(k, m[k], c) == f[k] {
        assert m[k] == MaskField(k, f[k]);
        if !f[k].Str? { UnmaskUndoesMask(f[k]); }
      }
      assert Unmask(Mask(c), c).fields == f;
    case Arr(a) =>
      forall i | 0 <= i < |a| ensures Unmask(Mask(a[i]), a[i]) == a[i] { UnmaskUndoesMask(a[i]); }
      assert Unmask(Mask(c), c).items == a;
    case _ =>
  }

  lemma {:induction false} MaskIdempotent(c: Json)
    ensures Mask(Mask(c)) == Mask(c)
  {
    match c
    case Obj(f) =>
      var m := Mask(c).fields;
      forall k | k in f ensures MaskField(k, m[k]) == m[k] {
        assert m[k] == MaskField(k, f[k]);
        if !f[k].Str? { MaskIdempotent(f[k]); }
      }
      assert Mask(Mask(c)).fields == m;
    case Arr(a) =>
      forall i | 0 <= i < |a| ensures Mask(Mask(a[i])) == Mask(a[i]) { MaskIdempotent(a[i]); }
      assert Mask(Mask(c)).items == Mask(c).items;
    case _ =>
  }

  // ---- what a reader of the masked tree can tell ---------------------------------------------

  /** Two configs that differ only in the text of non-empty credentials. */
  ghost predicate SameButCredentials(a: Json, b: Json)
    decreases a, 0
  {
    match (a, b)
    case (Obj(f), Obj(g)) => f.Keys == g.Keys && forall k | k in f :: SameField(k, f[k], g[k])
    case (Arr(x), Arr(y)) => |x| == |y| && forall i | 0 <= i < |x| :: SameButCredentials(x[i], y[i])
    case _ => a == b
  }

  ghost predicate SameField(key: string, a: Json, b: Json)
    decreases a, 1
  {
    if a.Str? || b.Str? then a == b || (IsCredential(key, a) && IsCredential(key, b))
    else SameButCredentials(a, b)
  }

  /** Masked configs are equal exactly when the originals differ in nothing but the text of
      non-empty credentials: neither more nor less can be told from one. */
  lemma {:induction false} MaskRevealsExactlyTheRest(a: Json, b: Json)
    ensures Mask(a) == Mask(b) <==> SameButCredentials(a, b)
  {
    match (a, b)
    case (Obj(f), Obj(g)) =>
      forall k | k in f && k in g
        ensures MaskField(k, f[k]) == MaskField(k, g[k]) <==> SameField(k, f[k], g[k])
      {
        if !f[k].Str? && !g[k].Str? { MaskRevealsExactlyTheRest(f[k], g[k]); }
      }
      var mf, mg := Mask(a).fields, Mask(b).fields;
      assert mf.Keys == f.Keys && mg.Keys == g.Keys;
      if Mask(a) == Mask(b) {
        forall k | k in f ensures SameField(k, f[k], g[k]) {
          assert mf[k] == mg[k];
        }
      }
      if SameButCredentials(a, b) { assert mf == mg; }
    case (Arr(x), Arr(y)) =>
      if |x| == |y| {
        forall i | 0 <= i < |x| ensures Mask(x[i]) == Mask(y[i]) <==> SameButCredentials(x[i], y[i]) {
          MaskRevealsExactlyTheRest(x[i], y[i]);
        }
        var mx, my := Mask(a).items, Mask(b).items;
        if Mask(a) == Mask(b) {
          forall i | 0 <= i < |x| ensures SameButCredentials(x[i], y[i]) { assert mx[i] == my[i]; }
        }
        if SameButCredentials(a, b) { assert mx == my; }
      } else {
        assert |Mask(a).items| == |x| && |Mask(b).items| == |y|;
      }
    case _ =>
  }

  // ---- path by path ---------------------------------------------------------------------------

  function OrNull(v: Option<Json>): Json { if v.Some? then v.value else Null }

  predicate EndsInCredential(p: Path, v: Json) { p != [] && p[|p| - 1].Key? && IsCredential(p[|p| - 1].k, v) }

  /** One step down a masked tree. */
  function MaskStep(s: Step, v: Json): Json { if s.Key? then MaskField(s.k, v) else Mask(v) }

  lemma MaskChild(c: Json, s: Step)
    ensures Child(Mask(c), s) == if Child(c, s).None? then None else Some(MaskStep(s, Child(c, s).value))
  {
  }

  /** Masking keeps every path; what is at one changes only if a credential is there. */
  lemma {:induction false} MaskAt(c: Json, p: Path)
    ensures Lookup(c, p).None? <==> Lookup(Mask(c), p).None?
    ensures Lookup(c, p).Some? ==>
              var v := Lookup(c, p).value;
              Lookup(Mask(c), p) == Some(if EndsInCredential(p, v) then Str(MASK) else Mask(v))
    decreases |p|
  {
    if p != [] {
      MaskChild(c, p[0]);
      var child := Child(c, p[0]);
      if child.Some? && |p| > 1 {
        hide Mask;
        hide Secretish;
        MaskAt(child.value, p[1..]);
        assert p[1..][|p| - 2] == p[|p| - 1];
        if p[0].Key? && child.value.Str? {
          NothingUnder(child.value, p[1..]);
          NothingUnder(MaskStep(p[0], child.value), p[1..]);
        }
      }
    }
  }

  /** No non-empty string shows under a credential's name, at any depth, unless it is the mask. */
  lemma NoCredentialShows(c: Json, p: Path)
    ensures Lookup(Mask(c), p).Some? && EndsInCredential(p, Lookup(Mask(c), p).value) ==>
              Lookup(Mask(c), p) == Some(Str(MASK))
  {
    MaskAt(c, p);
  }

  /** The names of credentials, written out: six words, alone or after an underscore, and no name that ends in
      "_ref". */
  ghost predicate CredentialName(key: string) {
    (forall base: string :: key != base + "_ref")
    && (key in {"token", "password", "passphrase", "secret", "key", "auth"}
        || exists base: string, word ::
             word in {"token", "password", "passphrase", "secret", "key", "auth"} && key == base + "_" + word)
  }

  lemma SuffixPlainly(key: string, suffix: string)
    ensures HasSuffix(key, suffix) <==> exists base: string :: key == base + suffix
  {
    if HasSuffix(key, suffix) { assert key == key[..|key| - |suffix|] + suffix; }
  }

  lemma NamesPlainly(key: string)
    ensures Secretish(key) <==> CredentialName(key)
  {
    SuffixPlainly(key, "_ref");
    var words := {"token", "password", "passphrase", "secret", "key", "auth"};
    assert forall w :: w in SECRETISH <==> w in words;
    forall w | w in words ensures HasSuffix(key, "_" + w) <==> exists base: string :: key == base + "_" + w {
      SuffixPlainly(key, "_" + w);
      forall base: string ensures base + ("_" + w) == base + "_" + w { }
    }
    hide HasSuffix;
  }

  /** What is shown of one string of a config, at any depth: four bullets for a non-empty one under a
      credential's name, and itself under any other name or in a list. */
  lemma ShownPlainly(c: Json, p: Path, last: Step, s: string)
    requires Lookup(c, p + [last]) == Some(Str(s))
    ensures Lookup(Mask(c), p + [last]) ==
            Some(Str(if s != "" && last.Key? && CredentialName(last.k) then "\U{2022}\U{2022}\U{2022}\U{2022}" else s))
  {
    MaskAt(c, p + [last]);
    assert (p + [last])[|p + [last]| - 1] == last;
    if last.Key? { NamesPlainly(last.k); }
    hide Secretish;
    hide CredentialName;
  }

  predicate MaskedField(p: Path, v: Json) { p != [] && p[|p| - 1].Key? && v == Str(MASK) }

  /** Unmasking reads the stored tree exactly where the incoming one has a masked field. */
  lemma {:induction false} UnmaskAt(v: Json, stored: Json, p: Path)
    requires Lookup(v, p).Some?
    ensures var x := Lookup(v, p).value;
            Lookup(Unmask(v, stored), p) ==
            if MaskedField(p, x) then Lookup(stored, p) else Some(Unmask(x, OrNull(Lookup(stored, p))))
    decreases |p|
  {
    if p != [] {
      var x := Child(v, p[0]).value;
      var s := Child(stored, p[0]);
      ContainerAbove(x, p[1..]);
      if |p| > 1 {
        UnmaskAt(x, OrNull(s), p[1..]);
        if s.None? { NothingUnder(Null, p[1..]); }
      }
    }
  }

  /** Whatever else a client edits, a value it sends back as it was shown keeps what is stored. */
  lemma UntouchedFieldsKeepTheirValue(c: Json, edited: Json, p: Path)
    requires Lookup(edited, p).Some? && Lookup(edited, p) == Lookup(Mask(c), p)
    requires var x := Lookup(edited, p).value; !x.Obj? && !x.Arr?
    ensures Lookup(Unmask(edited, c), p) == Lookup(c, p)
  {
    MaskAt(c, p);
    UnmaskAt(edited, c, p);
  }

  /** A mask is left in an object field only where the stored tree has one at that path. */
  lemma {:induction false} MaskLeftOnlyIfStored(v: Json, stored: Json, p: Path)
    requires p != [] && p[|p| - 1].Key?
    requires Lookup(Unmask(v, stored), p) == Some(Str(MASK))
    ensures Lookup(stored, p) == Some(Str(MASK))
    decreases |p|
  {
    var x := Child(v, p[0]).value;
    if x == Str(MASK) && p[0].Key? {
      assert Child(Unmask(v, stored), p[0]) == Child(stored, p[0]);
    } else if !x.Str? {
      var s := Child(stored, p[0]);
      assert Child(Unmask(v, stored), p[0]) == Some(Unmask(x, OrNull(s)));
      if |p| > 1 {
        MaskLeftOnlyIfStored(x, OrNull(s), p[1..]);
        if s.None? && |p| > 1 { NothingUnder(Null, p[1..]); }
      }
    }
  }

  // ---- the walks themselves --------------------------------------------------------------------

  /** Some credential is there to hide. */
  predicate HoldsCredential(v: Json)
    decreases v
  {
    match v
    case Obj(f) => exists k | k in f :: if f[k].Str? then IsCredential(k, f[k]) else HoldsCredential(f[k])
    case Arr(a) => exists i | 0 <= i < |a| :: HoldsCredential(a[i])
    case _ => false
  }

  /** Some object field holds a mask. */
  predicate HoldsMask(v: Json)
    decreases v
  {
    match v
    case Obj(f) => exists k | k in f :: if f[k].Str? then f[k] == Str(MASK) else HoldsMask(f[k])
    case Arr(a) => exists i | 0 <= i < |a| :: HoldsMask(a[i])
    case _ => false
  }

  lemma {:induction false} NothingToMask(v: Json)
    requires !HoldsCredential(v)
    ensures Mask(v) == v
  {
    match v
    case Obj(f) =>
      forall k | k in f ensures MaskField(k, f[k]) == f[k] {
        if !f[k].Str? { NothingToMask(f[k]); }
      }
      assert Mask(v).fields == f;
    case Arr(a) =>
      forall i | 0 <= i < |a| ensures Mask(a[i]) == a[i] { NothingToMask(a[i]); }
      assert Mask(v).items == a;
    case _ =>
  }

  lemma {:induction false} NothingToUnmask(v: Json, stored: Json)
    requires !HoldsMask(v)
    ensures Unmask(v, stored) == v
  {
    match v
    case Obj(f) =>
      forall k | k in f ensures Survives(k, f[k], stored) && UnmaskField(k, f[k], stored) == f[k] {
        if !f[k].Str? { NothingToUnmask(f[k], FieldOf(stored, k)); }
      }
      assert Unmask(v, stored).fields == f;
    case Arr(a) =>
      forall i | 0 <= i < |a| ensures Unmask(a[i], ItemOf(stored, i)) == a[i] {
        NothingToUnmask(a[i], ItemOf(stored, i));
      }
      assert Unmask(v, stored).items == a;
    case _ =>
  }

  ghost predicate NamedCredential(key: string, v: Json) { v.Str? && v.s != "" && CredentialName(key) }

  predicate FourBullets(key: string, v: Json) { v == Str("\U{2022}\U{2022}\U{2022}\U{2022}") }

  /** A credential is held exactly if some path ends in a credential's name with a non-empty string, a mask
      exactly if some path ends in a name with four bullets. */
  lemma {:induction false} HoldsPlainly(v: Json)
    ensures HoldsCredential(v) <==> SomeField(v, NamedCredential)
    ensures HoldsMask(v) <==> SomeField(v, FourBullets)
  {
    match v
    case Obj(f) =>
      forall k | k in f
        ensures (HoldsCredential(f[k]) <==> SomeField(f[k], NamedCredential))
                && (HoldsMask(f[k]) <==> SomeField(f[k], FourBullets))
                && (IsCredential(k, f[k]) <==> NamedCredential(k, f[k]))
      {
        HoldsPlainly(f[k]);
        NamesPlainly(k);
      }
      hide Secretish;
      hide CredentialName;
    case Arr(a) =>
      forall i | 0 <= i < |a|
        ensures (HoldsCredential(a[i]) <==> SomeField(a[i], NamedCredential))
                && (HoldsMask(a[i]) <==> SomeField(a[i], FourBullets))
      {
        HoldsPlainly(a[i]);
      }
    case _ =>
  }

  predicate FieldHoldsCredential(key: string, v: Json) {
    if v.Str? then IsCredential(key, v) else HoldsCredential(v)
  }

  /** maskValue: rewrites the node entry by entry, in any order of keys. */
  method MaskValue(v: Json) returns (r: Json, masked: bool)
    ensures r == Mask(v) && masked == HoldsCredential(v)
    decreases v
  {
    masked := false;
    match v
    case Obj(f) =>
      var node, todo := f, f.Keys;
      while todo != {}
        invariant todo <= f.Keys == node.Keys
        invariant forall k | k in f :: node[k] == if k in todo then f[k] else MaskField(k, f[k])
        invariant masked == exists k | k in f :: k !in todo && FieldHoldsCredential(k, f[k])
      {
        var k :| k in todo;
        ghost var before := todo;
        todo := todo - {k};
        var val := node[k];
        assert FieldHoldsCredential(k, f[k]) || !FieldHoldsCredential(k, f[k]);
        if val.Str? {
          if Secretish(k) && val.s != "" {
            node := node[k := Str(MASK)];
            masked := true;
          }
        } else {
          var child, hit := MaskValue(val);
          node := node[k := child];
          if hit { masked := true; }
        }
        assert forall j | j in f :: j !in todo <==> j !in before || j == k;
      }
      assert node == Mask(v).fields;
      r := Obj(node);
    case Arr(a) =>
      var node := a;
      for i := 0 to |a|
        invariant |node| == |a|
        invariant forall j | 0 <= j < |a| :: node[j] == if j < i then Mask(a[j]) else a[j]
        invariant masked == exists j | 0 <= j < i :: HoldsCredential(a[j])
      {
        var child, hit := MaskValue(node[i]);
        node := node[i := child];
        if hit { masked := true; }
      }
      assert node == Mask(v).items;
      r := Arr(node);
    case _ =>
      r := v;
  }

  /** An object is unmasked once all its entries are. */
  lemma FieldsUnmasked(f: map<string, Json>, node: map<string, Json>, stored: Json)
    requires node.Keys <= f.Keys && forall k | k in f :: k in node <==> Survives(k, f[k], stored)
    requires forall k | k in node :: node[k] == UnmaskField(k, f[k], stored)
    ensures Obj(node) == Unmask(Obj(f), stored)
  {
    assert node == Unmask(Obj(f), stored).fields;
  }

  lemma ItemsUnmasked(a: seq<Json>, node: seq<Json>, stored: Json)
    requires |node| == |a| && forall i | 0 <= i < |a| :: node[i] == Unmask(a[i], ItemOf(stored, i))
    ensures Arr(node) == Unmask(Arr(a), stored)
  {
    assert node == Unmask(Arr(a), stored).items;
  }

  lemma LeafUnmasked(v: Json, stored: Json)
    ensures !v.Obj? && !v.Arr? ==> Unmask(v, stored) == v && !HoldsMask(v)
    ensures v.Obj? ==> HoldsMask(v) == exists k | k in v.fields :: FieldHoldsMask(v.fields[k])
    ensures v.Arr? ==> HoldsMask(v) == exists i | 0 <= i < |v.items| :: HoldsMask(v.items[i])
  {
    if v.Obj? {
      assert forall k | k in v.fields ::
          FieldHoldsMask(v.fields[k]) == if v.fields[k].Str? then v.fields[k] == Str(MASK) else HoldsMask(v.fields[k]);
    }
  }

  predicate FieldHoldsMask(v: Json) { if v.Str? then v == Str(MASK) else HoldsMask(v) }

  /** unmaskValue: restores or deletes entry by entry, in any order of keys. */
  method UnmaskValue(v: Json, stored: Json) returns (r: Json, restored: bool)
    ensures r == Unmask(v, stored) && restored == HoldsMask(v)
    decreases v
  {
    restored := false;
    LeafUnmasked(v, stored);
    hide Unmask;
    hide HoldsMask;
    match v
    case Obj(f) =>
      var prevMap := if stored.Obj? then stored.fields else map[];
      var node, todo := f, f.Keys;
      while todo != {}
        invariant todo <= f.Keys && node.Keys <= f.Keys
        invariant forall k | k in f :: k in node <==> k in todo || Survives(k, f[k], stored)
        invariant forall k | k in node :: node[k] == if k in todo then f[k] else UnmaskField(k, f[k], stored)
        invariant restored == exists k | k in f :: k !in todo && FieldHoldsMask(f[k])
      {
        var k :| k in todo;
        ghost var before := todo;
        todo := todo - {k};
        var val := node[k];
        assert FieldHoldsMask(f[k]) || !FieldHoldsMask(f[k]);
        if val.Str? {
          if val.s == MASK {
            if k in prevMap {
              node := node[k := prevMap[k]];
            } else {
              node := node - {k};
            }
            restored := true;
          }
        } else {
          var child, hit := UnmaskValue(val, if k in prevMap then prevMap[k] else Null);
          node := node[k := child];
          if hit { restored := true; }
        }
        assert forall j | j in f :: j !in todo <==> j !in before || j == k;
      }
      FieldsUnmasked(f, node, stored);
      r := Obj(node);
    case Arr(a) =>
      var node := a;
      for i := 0 to |a|
        invariant |node| == |a|
        invariant forall j | 0 <= j < |a| :: node[j] == if j < i then Unmask(a[j], ItemOf(stored, j)) else a[j]
        invariant restored == exists j | 0 <= j < i :: HoldsMask(a[j])
      {
        var prev := if stored.Arr? && i < |stored.items| then stored.items[i] else Null;
        var child, hit := UnmaskValue(node[i], prev);
        node := node[i := child];
        if hit { restored := true; }
      }
      ItemsUnmasked(a, node, stored);
      r := Arr(node);
    case _ =>
      r := v;
  }

  // ---- on the stored text ------------------------------------------------------------------------

  /** maskSecrets: an untouched config keeps its text, an unreadable one shows nothing. */
  method MaskSecrets(raw: string, parse: string -> Option<Json>, write: Json -> string) returns (shown: string)
    ensures shown == MaskedText(raw, parse, write)
    ensures raw != "" && parse(raw).None? ==> shown == "{}"
    ensures raw == "" || (parse(raw).Some? && !HoldsCredential(parse(raw).value)) ==> shown == raw
    ensures raw != "" && parse(raw).Some? && HoldsCredential(parse(raw).value) ==> shown == write(Mask(parse(raw).value))
  {
    if |raw| == 0 { return raw; }
    var cfg := parse(raw);
    if cfg.None? { return "{}"; }
    var m, masked := MaskValue(cfg.value);
    return if masked then write(m) else raw;
  }

  /** unmaskSecrets: what cannot be read, or needs nothing, is taken as sent. */
  method UnmaskSecrets(req: string, current: string, parse: string -> Option<Json>, write: Json -> string)
    returns (saved: string)
    ensures saved == UnmaskedText(req, current, parse, write)
    ensures req == "" || current == "" || parse(req).None? || parse(current).None? ==> saved == req
    ensures parse(req).Some? && !HoldsMask(parse(req).value) ==> saved == req
  {
    if |req| == 0 || |current| == 0 { return req; }
    var v, stored := parse(req), parse(current);
    if v.None? || stored.None? { return req; }
    var u, restored := UnmaskValue(v.value, stored.value);
    return if restored then write(u) else req;
  }

  function MaskedText(raw: string, parse: string -> Option<Json>, write: Json -> string): string {
    if raw == "" then raw
    else match parse(raw)
      case None => "{}"
      case Some(v) => if HoldsCredential(v) then write(Mask(v)) else raw
  }

  function UnmaskedText(req: string, current: string, parse: string -> Option<Json>, write: Json -> string): string {
    if req == "" || current == "" then req
    else match (parse(req), parse(current))
      case (Some(v), Some(stored)) => if HoldsMask(v) then write(Unmask(v, stored)) else req
      case _ => req
  }

  /** Every number in v is one the text format can carry. */
  predicate Carried(v: Json, num: real -> bool)
    decreases v
  {
    match v
    case Num(n) => num(n)
    case Arr(a) => forall i | 0 <= i < |a| :: Carried(a[i], num)
    case Obj(f) => forall k | k in f :: Carried(f[k], num)
    case _ => true
  }

  /** Reading gives values the format carries, and those survive writing and reading again. */
  ghost predicate IsFormat(parse: string -> Option<Json>, write: Json -> string, num: real -> bool) {
    parse("{}") == Some(Obj(map[]))
    && (forall t :: parse(t).Some? ==> Carried(parse(t).value, num))
    && (forall v :: Carried(v, num) ==> parse(write(v)) == Some(v) && write(v) != "")
  }

  lemma {:induction false} MaskIsCarried(v: Json, num: real -> bool)
    requires Carried(v, num)
    ensures Carried(Mask(v), num)
  {
    match v
    case Arr(a) => forall i | 0 <= i < |a| ensures Carried(Mask(a[i]), num) { MaskIsCarried(a[i], num); }
    case Obj(f) =>
      forall k | k in f ensures Carried(Mask(f[k]), num) { MaskIsCarried(f[k], num); }
      forall k | k in f ensures Carried(MaskField(k, f[k]), num) { }
    case _ =>
  }

  /** What is shown reads as the mask of what is stored, and sending it back restores the config exactly when
      the stored text could be read. */
  lemma TextRoundTrip(raw: string, parse: string -> Option<Json>, write: Json -> string, num: real -> bool)
    requires IsFormat(parse, write, num)
    ensures raw != "" && parse(raw).Some? ==> parse(MaskedText(raw, parse, write)) == Some(Mask(parse(raw).value))
    ensures raw != "" ==>
              (parse(UnmaskedText(MaskedText(raw, parse, write), raw, parse, write)) == parse(raw)
               <==> parse(raw).Some?)
  {
    if raw != "" && parse(raw).Some? {
      var v := parse(raw).value;
      var shown := MaskedText(raw, parse, write);
      MaskIsCarried(v, num);
      assert shown != "" && parse(shown) == Some(Mask(v)) by {
        if !HoldsCredential(v) { NothingToMask(v); }
      }
      UnmaskUndoesMask(v);
      if !HoldsMask(Mask(v)) { NothingToUnmask(Mask(v), v); }
    }
  }
}
