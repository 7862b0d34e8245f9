// Deleting a secret behind the reference scan (internal/store/sqlite/delete.go,
// internal/store/sqlite/repo.go, internal/api/handlers_delete.go).

module SecretDeletion {
  import opened JsonTree
  import opened SecretRefs
  import opened SecretOrder

  /** What each stored secret unseals to, if it does. */
  type Secrets = map<string, Option<string>>

  /** GetSecretByRef and the unsealing: the scheme is stripped, spaces are not. */
  function OpenIn(secrets: Secrets): Opener {
    ref => var name := TrimPrefix(ref, SCHEME); if name in secrets then secrets[name] else None
  }

  /** A reference opens the secret of that name, with or without the scheme before it. */
  lemma OpenInPlainly(secrets: Secrets, n: string)
    ensures OpenIn(secrets)("secret://" + n) == if n in secrets then secrets[n] else None
    ensures !("secret://" <= n) ==> OpenIn(secrets)(n) == if n in secrets then secrets[n] else None
  {
    assert ("secret://" + n)[..9] == SCHEME && ("secret://" + n)[9..] == n;
  }

  // ---- what an outcome depends on ------------------------------------------------------------

  lemma {:induction false} SameValue(v: Json, open: Opener, open': Opener)
    requires forall ref | ref in May(v) :: open(ref) == open'(ref)
    ensures Value(v, open) == Value(v, open')
  {
    match v
    case Obj(f) =>
      ValueFields(f, open);
      ValueFields(f, open');
      forall k | k in f ensures Value(f[k], open) == Value(f[k], open') {
        ChildRefs(f, k);
        SameValue(f[k], open, open');
      }
      forall k | Substituted(f, k) ensures Secret(f, k, open) == Secret(f, k, open') { ActiveRefs(f, k + REF); }
      hide Value;
      hide May;
      assert Value(v, open).fields == Value(v, open').fields;
    case Arr(a) =>
      forall i | 0 <= i < |a| ensures Value(a[i], open) == Value(a[i], open') {
        assert May(a[i]) <= May(v);
        SameValue(a[i], open, open');
      }
      assert Value(v, open).items == Value(v, open').items;
    case _ =>
  }

  /** Where nothing chains, the references the config holds decide every outcome. */
  lemma SameOutcomes(v: Json, open: Opener, open': Opener, r: Option<Json>)
    requires NoChain(v) && forall ref | ref in May(v) :: open(ref) == open'(ref)
    ensures Outcome(v, open, r) <==> Outcome(v, open', r)
  {
    OutcomesExactly(v, open, r);
    OutcomesExactly(v, open', r);
    SameValue(v, open, open');
    MustIsMay(v);
    hide Outcome;
    hide Value;
    hide May;
    hide Must;
  }

  // ---- deleting a name the scan does not report ----------------------------------------------------

  /** No order of keys, before or after, tells the deletion of name. */
  ghost predicate DeletionChangesNothing(v: Json, name: string) {
    forall secrets: Secrets, r ::
      Outcome(v, OpenIn(secrets), r) <==> Outcome(v, OpenIn(secrets - {name}), r)
  }

  lemma UnreferencedIsUnused(v: Json, name: string)
    requires NoChain(v) && TrimSpace(name) == name && name !in Refs(v)
    ensures DeletionChangesNothing(v, name)
  {
    MayIsScanned(v);
    forall secrets: Secrets, r ensures Outcome(v, OpenIn(secrets), r) <==> Outcome(v, OpenIn(secrets - {name}), r) {
      forall ref | ref in May(v) ensures OpenIn(secrets)(ref) == OpenIn(secrets - {name})(ref) {
      }
      SameOutcomes(v, OpenIn(secrets), OpenIn(secrets - {name}), r);
    }
  }

  // ---- names with outer white space ---------------------------------------------------------------

  function Referring(name: string): Json { Obj(map["key_ref" := Str(SCHEME + name)]) }

  lemma ReferringFacts(name: string)
    ensures Active(Referring(name).fields, "key_ref") && NoChain(Referring(name))
    ensures TrimPrefix(SCHEME + name, SCHEME) == name
    ensures May(Referring(name)) == {SCHEME + name}
  {
    assert "key_ref" == "key" + REF;
    BaseOfRef("key");
    var f := Referring(name).fields;
    forall ref | ref in May(Referring(name)) ensures ref == SCHEME + name { LeafHasNone(f["key_ref"]); }
    ActiveRefs(f, "key_ref");
  }

  lemma ReferringRefs(name: string)
    ensures Refs(Referring(name)) == {TrimSpace(name)}
  {
    var f := Referring(name).fields;
    ReferringFacts(name);
    assert FieldRefs("key_ref", f["key_ref"]) == {TrimSpace(name)} by { assert HasSuffix("key_ref", REF); }
    assert forall n :: n in Refs(Obj(f)) <==> n in FieldRefs("key_ref", f["key_ref"]);
  }

  /** The scan trims what it compares and the lookup does not, so it misses this reference. */
  lemma MissedReference(name: string)
    requires TrimSpace(name) != name
    ensures var v := Referring(name); NoChain(v) && name !in Refs(v) && !DeletionChangesNothing(v, name)
  {
    var v := Referring(name);
    ReferringFacts(name);
    ReferringRefs(name);
    hide May;
    hide Refs;
    hide Outcome;
    hide NoChain;
    hide TrimSpace;
    var secrets: Secrets := map[name := Some("x")];
    assert OpenIn(secrets)(SCHEME + name) == Some("x") && OpenIn(secrets - {name})(SCHEME + name) == None;
    OutcomesExactly(v, OpenIn(secrets), None);
    OutcomesExactly(v, OpenIn(secrets - {name}), None);
    assert Outcome(v, OpenIn(secrets - {name}), None) && !Outcome(v, OpenIn(secrets), None);
  }

  /** The guard works for every config without chains exactly when the name has no outer white space. */
  lemma ScanGuardsExactlyTrimmedNames(name: string)
    ensures (forall v | NoChain(v) && name !in Refs(v) :: DeletionChangesNothing(v, name)) <==> TrimSpace(name) == name
  {
    if TrimSpace(name) == name {
      forall v | NoChain(v) && name !in Refs(v) ensures DeletionChangesNothing(v, name) {
        UnreferencedIsUnused(v, name);
      }
    } else {
      MissedReference(name);
    }
  }

  // ---- configs that chain ----------------------------------------------------------------------------

  /** The non-empty strings of a config. */
  function Texts(v: Json): set<string>
    decreases v
  {
    match v
    case Obj(f) => set k, t | k in f && t in Texts(f[k]) :: t
    case Arr(a) => set i, t | 0 <= i < |a| && t in Texts(a[i]) :: t
    case Str(s) => if s == "" then {} else {s}
    case _ => {}
  }

  lemma {:induction false} MayIsText(v: Json)
    ensures May(v) <= Texts(v)
  {
    match v
    case Obj(f) =>
      forall k | k in f ensures May(f[k]) <= Texts(f[k]) <= Texts(v) { MayIsText(f[k]); }
      forall k | Active(f, k) ensures f[k].s in Texts(v) { assert f[k].s in Texts(f[k]); }
    case Arr(a) => forall i | 0 <= i < |a| ensures May(a[i]) <= Texts(a[i]) { MayIsText(a[i]); }
    case _ =>
  }

  /** Every string of all opens, to nothing or to another of them. */
  ghost predicate Closed(all: set<string>, open: Opener) {
    forall t | t in all :: open(t).Some? && (open(t).value == "" || open(t).value in all)
  }

  ghost predicate AllTexts(node: map<string, Json>, all: set<string>) {
    forall k | k in node && IsText(node[k]) :: node[k].s in all
  }

  lemma {:induction false} WalkNeverFails(f: map<string, Json>, p: Position, open: Opener, all: set<string>,
                                          r: Option<Json>, n: nat)
    requires Texts(Obj(f)) <= all && Closed(all, open) && AllTexts(p.node, all)
    requires Finishes(f, p, open, r, n)
    ensures r.Some?
    decreases Obj(f), 1, n
  {
    if n > 0 {
      var q, k :| Turn(f, p, q, open, k) && Finishes(f, q, open, r, n - 1);
      TurnKeepsTexts(f, p, q, open, all, k);
      WalkNeverFails(f, q, open, all, r, n - 1);
    } else {
      assert Ends(f, p, open, r);
      forall k ensures !Fails(f, p, open, k) { ClosedNeverFailsAt(f, p, open, all, k); }
    }
  }

  lemma TurnKeepsTexts(f: map<string, Json>, p: Position, q: Position, open: Opener, all: set<string>, k: string)
    requires Closed(all, open) && AllTexts(p.node, all) && Turn(f, p, q, open, k)
    ensures AllTexts(q.node, all)
  {
    if IsContainer(p.node[k]) { OutcomeKind(f[k], open, q.node[k]); }
    hide Outcome;
    hide HasSuffix;
  }

  lemma OutcomeKind(v: Json, open: Opener, x: Json)
    requires IsContainer(v) && Outcome(v, open, Some(x))
    ensures IsContainer(x)
  {
    if v.Obj? {
      var n: nat :| Finishes(v.fields, Start(v.fields), open, Some(x), n);
      FinishKind(v.fields, Start(v.fields), open, x, n);
    }
  }

  lemma {:induction false} FinishKind(f: map<string, Json>, p: Position, open: Opener, x: Json, n: nat)
    requires Finishes(f, p, open, Some(x), n)
    ensures x.Obj?
    decreases n
  {
    if n > 0 {
      var q, k :| Turn(f, p, q, open, k) && Finishes(f, q, open, Some(x), n - 1);
      FinishKind(f, q, open, x, n - 1);
    }
  }

  lemma {:induction false} ClosedNeverFailsAt(f: map<string, Json>, p: Position, open: Opener, all: set<string>, k: string)
    requires Texts(Obj(f)) <= all && Closed(all, open) && AllTexts(p.node, all)
    ensures !Fails(f, p, open, k)
    decreases Obj(f), 0
  {
    if k in p.todo && k in p.node && IsContainer(p.node[k]) && k in f && p.node[k] == f[k] {
      assert Texts(f[k]) <= Texts(Obj(f));
      NothingFails(f[k], open, all);
    }
  }

  /** Where every string opens, no order fails. */
  lemma {:induction false} NothingFails(v: Json, open: Opener, all: set<string>)
    requires Texts(v) <= all && Closed(all, open)
    ensures !Outcome(v, open, None)
    decreases v, 2
  {
    match v
    case Obj(f) =>
      forall k | k in f && IsText(f[k]) ensures f[k].s in all { assert f[k].s in Texts(f[k]); }
      forall n: nat | Finishes(f, Start(f), open, None, n) ensures false {
        WalkNeverFails(f, Start(f), open, all, None, n);
      }
    case Arr(a) =>
      forall i | 0 <= i < |a| ensures !Outcome(a[i], open, None) {
        assert Texts(a[i]) <= Texts(v);
        NothingFails(a[i], open, all);
      }
      assert forall i :: !FailsAt(a, open, i);
    case _ =>
  }

  lemma {:induction false} LettersAreTrimmed(s: string)
    requires s != "" && forall c | c in s :: c == 'a'
    ensures TrimSpace(s) == s && TrimPrefix(s, SCHEME) == s
  {
    assert s[0] in s && s[|s| - 1] in s;
    if |SCHEME| <= |s| { assert s[..|SCHEME|][0] == s[0] && SCHEME[0] != 'a'; }
  }

  /** A store in which every one of these references opens to `name`, and `name` to nothing. */
  function Pointing(texts: set<string>, name: string): Secrets {
    (map n | n in Stripped(texts) :: Some(name))[name := Some("")]
  }

  function Stripped(texts: set<string>): set<string> { set t | t in texts :: TrimPrefix(t, SCHEME) }

  /** A config that chains can be broken by deleting a secret the scan does not report. */
  lemma ChainMissed(v: Json) returns (name: string)
    requires !NoChain(v)
    ensures TrimSpace(name) == name && name !in Refs(v) && !DeletionChangesNothing(v, name)
  {
    var texts := Texts(v);
    name := FreshName(Refs(v) + Stripped(texts));
    LettersAreTrimmed(name);
    MayIsText(v);
    hide *;
    var secrets := Pointing(texts, name);
    BreaksChain(v, name, texts, secrets);
  }

  lemma BreaksChain(v: Json, name: string, texts: set<string>, secrets: Secrets)
    requires !NoChain(v) && name != "" && texts == Texts(v) && May(v) <= texts
    requires OpenIn(secrets)(name) == Some("") && OpenIn(secrets - {name})(name) == None
    requires forall t | t in texts :: OpenIn(secrets)(t) == Some(name) && OpenIn(secrets - {name})(t) == Some(name)
    ensures !DeletionChangesNothing(v, name)
  {
    var before, after := OpenIn(secrets), OpenIn(secrets - {name});
    hide OpenIn;
    assert Closed(texts + {name}, before);
    NothingFails(v, before, texts + {name});
    ChainFails(v, after, name);
    hide Outcome;
    hide NoChain;
    hide Texts;
    hide May;
    assert Outcome(v, after, None) && !Outcome(v, before, None);
  }

  /** For one config, the scan guards every trimmed name exactly when nothing in it chains. */
  lemma ScanGuardsExactlyChainFree(v: Json)
    ensures (forall name | TrimSpace(name) == name && name !in Refs(v) :: DeletionChangesNothing(v, name)) <==> NoChain(v)
  {
    if NoChain(v) {
      forall name | TrimSpace(name) == name && name !in Refs(v) ensures DeletionChangesNothing(v, name) {
        UnreferencedIsUnused(v, name);
      }
    } else {
      var name := ChainMissed(v);
    }
  }

  // ---- the store -------------------------------------------------------------------------------------

  ghost predicate SameResults(v: Json, open: Opener, open': Opener) {
    forall r :: Outcome(v, open, r) <==> Outcome(v, open', r)
  }

  /** What carries references; config is None when its text is empty or cannot be read. */
  datatype Holder =
    | Connection(name: string, secretRef: string, config: Option<Json>)
    | Storage(name: string, secretRef: string, config: Option<Json>)
    | Channel(name: string, config: Option<Json>)

  predicate HasRef(config: Option<Json>, name: string) { config.Some? && name in Refs(config.value) }

  predicate RefersTo(h: Holder, name: string) {
    (!h.Channel? && RefName(h.secretRef) == name) || HasRef(h.config, name)
  }

  function Referrers(hs: seq<Holder>, name: string): seq<Holder> {
    if hs == [] then []
    else Referrers(hs[..|hs| - 1], name) + if RefersTo(hs[|hs| - 1], name) then [hs[|hs| - 1]] else []
  }

  lemma {:induction false} ReferrersAre(hs: seq<Holder>, name: string)
    ensures Referrers(hs, name) == [] <==> forall h | h in hs :: !RefersTo(h, name)
  {
    if hs != [] {
      ReferrersAre(hs[..|hs| - 1], name);
      assert hs == hs[..|hs| - 1] + [hs[|hs| - 1]];
    }
  }

  datatype Deletion = NotFound | InUse(refs: seq<Holder>) | Deleted

  class Store {
    var secrets: Secrets
    var connections: seq<Holder>
    var storages: seq<Holder>
    var channels: seq<Holder>

    function Holders(): seq<Holder> reads this { connections + storages + channels }

    method SecretRefs(name: string) returns (refs: seq<Holder>)
      ensures refs == Referrers(Holders(), name)
    {
      var all := connections + storages + channels;
      refs := [];
      for i := 0 to |all|
        invariant refs == Referrers(all[..i], name)
      {
        assert all[..i + 1][..i] == all[..i];
        var inConfig := false;
        if all[i].config.Some? {
          var found := CollectRefs(all[i].config.value, []);
          inConfig := name in found;
        }
        if (!all[i].Channel? && RefName(all[i].secretRef) == name) || inConfig { refs := refs + [all[i]]; }
      }
      assert all[..|all|] == all;
    }

    /** deleteSecret: refused while anything refers to the secret; the deletion of a trimmed name breaks no
        password, and no config in which nothing chains, whatever order its keys come in. */
    method DeleteSecret(name: string) returns (d: Deletion)
      modifies this
      ensures Holders() == old(Holders())
      ensures d == NotFound <==> name !in old(secrets)
      ensures d.InUse? <==> name in old(secrets) && exists h | h in Holders() :: RefersTo(h, name)
      ensures d.InUse? ==> d.refs == Referrers(Holders(), name)
      ensures secrets == if d == Deleted then old(secrets) - {name} else old(secrets)
      ensures TrimSpace(name) == name ==>
                forall h | h in Holders() ::
                  (h.config.Some? && NoChain(h.config.value) ==>
                     SameResults(h.config.value, OpenIn(old(secrets)), OpenIn(secrets)))
                  && (!h.Channel? ==> OpenIn(secrets)(h.secretRef) == OpenIn(old(secrets))(h.secretRef))
    {
      if name !in secrets {
        return NotFound;
      }
      var refs := SecretRefs(name);
      ReferrersAre(Holders(), name);
      if |refs| > 0 { return InUse(refs); }
      secrets := secrets - {name};
      d := Deleted;
      if TrimSpace(name) == name {
        forall h | h in Holders()
          ensures h.config.Some? && NoChain(h.config.value) ==>
                    SameResults(h.config.value, OpenIn(old(secrets)), OpenIn(secrets))
          ensures !h.Channel? ==> OpenIn(secrets)(h.secretRef) == OpenIn(old(secrets))(h.secretRef)
        {
          if h.config.Some? && NoChain(h.config.value) { UnreferencedIsUnused(h.config.value, name); }
        }
      }
    }
  }
}
