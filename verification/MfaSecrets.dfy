// One code, one login: when it holds of a secret's codes, and when not (internal/api/handlers_mfa.go,
// internal/store/sqlite/mfa.go).
//
// A row is replaced whole when a secret is confirmed, so what it knows of accepted steps can be about
// another secret, or older than what was accepted for its own.

module MfaSecrets {
  import opened Mfa

  /** The same second factor in two proofs: one code of a user's secret, one recovery code, one assertion. */
  predicate SameFactor(p: Proof, q: Proof) {
    match (p, q)
    case (Totp(u, _, _, x, n, _), Totp(u', _, _, x', n', _)) => u == u' && x == x' && n == n'
    case (Recovery(_, i), Recovery(_, i')) => i == i'
    case (Passkey(_, i), Passkey(_, i')) => i == i'
    case _ => false
  }

  predicate SameSecret(p: Proof, q: Proof) { p.Totp? && q.Totp? && p.user == q.user && p.secret == q.secret }

  /** Each secret's accepted codes rise. */
  ghost predicate RisingPerSecret(ps: seq<Proof>) {
    forall i, j | 0 <= i < j < |ps| && SameSecret(ps[i], ps[j]) :: ps[i].step < ps[j].step
  }

  /** No code, recovery code or assertion was accepted twice. */
  ghost predicate AllDiffer(ps: seq<Proof>) { forall i, j | 0 <= i < j < |ps| :: !SameFactor(ps[i], ps[j]) }

  // ---- what the row does not know ------------------------------------------------------------

  /** The row takes the code. */
  predicate Takes(s: State, pc: Pc) {
    pc.Checked? && pc.user in s.acct.totp && s.acct.totp[pc.user].lastStep < pc.step
  }

  /** The steps accepted for the code's secret that the row's last step need not cover: on the row the
      code was checked against, those from before it was stored; on any other row, all of them. */
  function Unseen(s: State, pc: Pc): set<int>
    requires Takes(s, pc)
  {
    var row := s.acct.totp[pc.user];
    if row.id != pc.enrolment then Accepted(s.proofs, pc.user, pc.secret)
    else if row.id < |s.acct.enrolled| then s.acct.enrolled[row.id].spent else {}
  }

  ghost predicate Late(s: State, e: Event) {
    e.Advance? && e.req in s.reqs && Takes(s, s.reqs[e.req])
    && exists n :: n in Unseen(s, s.reqs[e.req]) && s.reqs[e.req].step <= n
  }

  predicate Replayed(s: State, e: Event) {
    e.Advance? && e.req in s.reqs && Takes(s, s.reqs[e.req]) && s.reqs[e.req].step in Unseen(s, s.reqs[e.req])
  }

  /** A code the row takes on which it was checked: what was accepted from its step on, the row's
      enrolment found accepted already. */
  lemma OwnRowFound(s: State, req: nat, n: int)
    requires Owners(s) && Steps(s) && Known(s) && req in s.reqs && Takes(s, s.reqs[req])
    requires var pc := s.reqs[req]; s.acct.totp[pc.user].id == pc.enrolment && pc.step <= n
    ensures var pc := s.reqs[req];
            pc.enrolment < |s.acct.enrolled|
            && (n in s.acct.enrolled[pc.enrolment].spent <==> n in Accepted(s.proofs, pc.user, pc.secret))
  {
    var pc := s.reqs[req];
    var row := s.acct.totp[pc.user];
    assert Owned(s, pc.user, pc.enrolment, pc.secret) && Owned(s, pc.user, row.id, row.secret);
    var enrolment := s.acct.enrolled[row.id];
    assert enrolment.spent <= Accepted(s.proofs, pc.user, pc.secret);
    assert KnownTo(s.proofs, pc.user, row, enrolment.spent);
    if n in Accepted(s.proofs, pc.user, pc.secret) {
      var i :| 0 <= i < |s.proofs| && s.proofs[i].Totp? && s.proofs[i].user == pc.user
               && s.proofs[i].secret == pc.secret && s.proofs[i].step == n;
      assert s.proofs[i] in s.proofs;
      assert s.proofs[i].row != row.id;
    }
  }

  /** From the code's step on, what the row does not know is all that was accepted. */
  lemma UnseenIsAll(s: State, req: nat)
    requires Owners(s) && Steps(s) && Known(s) && req in s.reqs && Takes(s, s.reqs[req])
    ensures var pc := s.reqs[req];
            forall n | pc.step <= n :: n in Unseen(s, pc) <==> n in Accepted(s.proofs, pc.user, pc.secret)
  {
    hide Owners;
    hide Steps;
    hide Known;
    hide Accepted;
    var pc := s.reqs[req];
    forall n | pc.step <= n ensures n in Unseen(s, pc) <==> n in Accepted(s.proofs, pc.user, pc.secret) {
      if s.acct.totp[pc.user].id == pc.enrolment { OwnRowFound(s, req, n); }
    }
  }

  lemma RisingPerSecretSnoc(ps: seq<Proof>, p: Proof)
    ensures RisingPerSecret(ps + [p]) <==>
            RisingPerSecret(ps) && (p.Totp? ==> forall n | n in Accepted(ps, p.user, p.secret) :: n < p.step)
  {
    var l := ps + [p];
    forall i | 0 <= i < |ps| ensures l[i] == ps[i] { }
    if RisingPerSecret(l) {
      forall i, j | 0 <= i < j < |ps| && SameSecret(ps[i], ps[j]) ensures ps[i].step < ps[j].step {
        assert l[i].step < l[j].step;
      }
      if p.Totp? {
        forall n | n in Accepted(ps, p.user, p.secret) ensures n < p.step {
          var i :| 0 <= i < |ps| && ps[i].Totp? && ps[i].user == p.user && ps[i].secret == p.secret && ps[i].step == n;
          assert SameSecret(l[i], l[|ps|]);
        }
      }
    }
    forall i | 0 <= i < |ps| && SameSecret(ps[i], p) ensures ps[i].step in Accepted(ps, p.user, p.secret) { }
  }

  lemma AllDifferSnoc(ps: seq<Proof>, p: Proof)
    ensures AllDiffer(ps + [p]) <==> AllDiffer(ps) && forall i | 0 <= i < |ps| :: !SameFactor(ps[i], p)
  {
    var l := ps + [p];
    forall i | 0 <= i < |ps| ensures l[i] == ps[i] { }
    if AllDiffer(l) {
      forall i, j | 0 <= i < j < |ps| ensures !SameFactor(ps[i], ps[j]) { assert !SameFactor(l[i], l[j]); }
      forall i | 0 <= i < |ps| ensures !SameFactor(ps[i], p) { assert !SameFactor(l[i], l[|ps|]); }
    }
  }

  lemma SpentFactor(ps: seq<Proof>, p: Proof)
    requires p.Totp?
    ensures (exists i :: 0 <= i < |ps| && SameFactor(ps[i], p)) <==> p.step in Accepted(ps, p.user, p.secret)
  {
    if p.step in Accepted(ps, p.user, p.secret) {
      var i :| 0 <= i < |ps| && ps[i].Totp? && ps[i].user == p.user && ps[i].secret == p.secret && ps[i].step == p.step;
      assert SameFactor(ps[i], p);
    }
  }

  /** What one step adds to the accepted factors. */
  lemma Added(s: State, e: Event, gen: Codes) returns (p: Option<Proof>)
    requires Enabled(s, e)
    ensures Step(s, e, gen).proofs == if p.Some? then s.proofs + [p.value] else s.proofs
    ensures p.Some? && p.value.Totp? <==> e.Advance? && Takes(s, s.reqs[e.req])
    ensures p.Some? && p.value.Totp? ==>
              var pc := s.reqs[e.req];
              p.value.user == pc.user && p.value.secret == pc.secret && p.value.step == pc.step
  {
    if e.Advance? {
      var pc := s.reqs[e.req];
      p := if Takes(s, pc) then Some(Totp(pc.user, s.acct.totp[pc.user].id, pc.enrolment, pc.secret, pc.step, pc.at)) else None;
    } else if OnRequest(e) {
      RequestEffect(s, e, gen);
      hide Step;
      if Step(s, e, gen).proofs == s.proofs {
        p := None;
      } else {
        var q: Proof :| Step(s, e, gen).proofs == s.proofs + [q] && !q.Totp?;
        p := Some(q);
      }
    } else {
      OtherEffect(s, e, gen);
      p := None;
    }
  }

  /** A step keeps one secret's codes rising exactly unless it takes one that what the row does not know
      has overtaken. */
  lemma OnlyLateStepsBreakTheRise(s: State, e: Event, gen: Codes)
    requires Inv(s) && Enabled(s, e)
    ensures RisingPerSecret(Step(s, e, gen).proofs) <==> RisingPerSecret(s.proofs) && !Late(s, e)
  {
    var p := Added(s, e, gen);
    if e.Advance? && Takes(s, s.reqs[e.req]) { UnseenIsAll(s, e.req); }
    hide Step;
    hide Unseen;
    hide Accepted;
    hide RisingPerSecret;
    if p.Some? { RisingPerSecretSnoc(s.proofs, p.value); }
  }

  /** A step accepts a factor a second time exactly if it is a code whose step is among what the row does
      not know. */
  lemma OnlyReplaysRepeat(s: State, e: Event, gen: Codes)
    requires Inv(s) && Enabled(s, e)
    ensures AllDiffer(Step(s, e, gen).proofs) <==> AllDiffer(s.proofs) && !Replayed(s, e)
  {
    var p := Added(s, e, gen);
    if e.Advance? && Takes(s, s.reqs[e.req]) { UnseenIsAll(s, e.req); }
    if p.Some? {
      AllDifferSnoc(s.proofs, p.value);
      if p.value.Totp? {
        SpentFactor(s.proofs, p.value);
      } else {
        StepInv(s, e, gen);
        hide Inv;
        forall i | 0 <= i < |s.proofs| ensures !SameFactor(s.proofs[i], p.value) {
          OthersDiffer(Step(s, e, gen), i, |s.proofs|);
        }
      }
    }
  }

  /** Recovery codes and assertions never repeat. */
  lemma OthersDiffer(s: State, m: nat, n: nat)
    requires Inv(s) && m < n < |s.proofs| && !s.proofs[n].Totp?
    ensures !SameFactor(s.proofs[m], s.proofs[n])
  {
    hide Tokens;
    hide Proofs;
    hide Steps;
    hide Owners;
    hide Known;
    assert Held(s, Behind(m)) == None || Held(s, Behind(m)) != Held(s, Behind(n));
  }

  // ---- over a run -----------------------------------------------------------------------------

  ghost predicate NeverLate(s: State, es: seq<Event>, gen: Codes)
    requires IsRun(s, es, gen)
    decreases |es|
  {
    es == [] || (!Late(s, es[0]) && NeverLate(Step(s, es[0], gen), es[1..], gen))
  }

  ghost predicate NeverReplayed(s: State, es: seq<Event>, gen: Codes)
    requires IsRun(s, es, gen)
    decreases |es|
  {
    es == [] || (!Replayed(s, es[0]) && NeverReplayed(Step(s, es[0], gen), es[1..], gen))
  }

  /** Over a run, each secret's accepted steps rise if and only if no step was late. */
  lemma {:induction false} SecretsRiseExactly(s: State, es: seq<Event>, gen: Codes)
    requires Inv(s) && IsRun(s, es, gen)
    ensures RisingPerSecret(After(s, es, gen).proofs) <==> RisingPerSecret(s.proofs) && NeverLate(s, es, gen)
    decreases |es|
  {
    hide Inv;
    hide Step;
    hide Late;
    hide RisingPerSecret;
    if es != [] {
      StepInv(s, es[0], gen);
      OnlyLateStepsBreakTheRise(s, es[0], gen);
      SecretsRiseExactly(Step(s, es[0], gen), es[1..], gen);
    }
  }

  /** Over a run, no factor is accepted twice if and only if no code was replayed. */
  lemma {:induction false} FactorsDifferExactly(s: State, es: seq<Event>, gen: Codes)
    requires Inv(s) && IsRun(s, es, gen)
    ensures AllDiffer(After(s, es, gen).proofs) <==> AllDiffer(s.proofs) && NeverReplayed(s, es, gen)
    decreases |es|
  {
    hide Inv;
    hide Step;
    hide Replayed;
    hide AllDiffer;
    if es != [] {
      StepInv(s, es[0], gen);
      OnlyReplaysRepeat(s, es[0], gen);
      FactorsDifferExactly(Step(s, es[0], gen), es[1..], gen);
    }
  }

  /** Two acceptances of one factor are of a code, recorded on two different rows. */
  lemma RepeatsAreOnTwoRows(s: State, gen: Codes, m: nat, n: nat)
    requires Reachable(s, gen) && m < n < |s.proofs| && SameFactor(s.proofs[m], s.proofs[n])
    ensures s.proofs[m].Totp? && s.proofs[n].Totp? && s.proofs[m].row != s.proofs[n].row
  {
    ReachableInv(s, gen);
    if !s.proofs[n].Totp? { OthersDiffer(s, m, n); }
  }

  /** Every session stands on an acceptance of its own, of a factor of its own account; two stand on the
      same factor only if one code was accepted on two rows. */
  lemma EverySessionHasItsOwnFactor(s: State, gen: Codes)
    requires Reachable(s, gen)
    ensures forall x | x in s.sessions :: x.proof < |s.proofs| && s.proofs[x.proof].user == x.user
    ensures forall i, j | 0 <= i < j < |s.sessions| :: OwnFactors(s, s.sessions[i].proof, s.sessions[j].proof)
  {
    ReachableInv(s, gen);
    forall x | x in s.sessions ensures x.proof < |s.proofs| && s.proofs[x.proof].user == x.user {
      var i :| 0 <= i < |s.sessions| && s.sessions[i] == x;
    }
    forall i, j | 0 <= i < j < |s.sessions| ensures OwnFactors(s, s.sessions[i].proof, s.sessions[j].proof) {
      var m, n := s.sessions[i].proof, s.sessions[j].proof;
      if SameFactor(s.proofs[m], s.proofs[n]) {
        if m < n { RepeatsAreOnTwoRows(s, gen, m, n); } else { RepeatsAreOnTwoRows(s, gen, n, m); }
      }
    }
  }

  ghost predicate OwnFactors(s: State, m: nat, n: nat) {
    m < |s.proofs| && n < |s.proofs| && m != n
    && (SameFactor(s.proofs[m], s.proofs[n]) ==>
          s.proofs[m].Totp? && s.proofs[n].Totp? && s.proofs[m].row != s.proofs[n].row)
  }

  /** In a run without a replay no factor stands behind two sessions. */
  lemma SessionsOfARun(es: seq<Event>, gen: Codes)
    requires IsRun(Init(), es, gen) && NeverReplayed(Init(), es, gen)
    ensures var s := After(Init(), es, gen);
            forall i, j | 0 <= i < j < |s.sessions| ::
              s.sessions[i].proof < |s.proofs| && s.sessions[j].proof < |s.proofs|
              && !SameFactor(s.proofs[s.sessions[i].proof], s.proofs[s.sessions[j].proof])
  {
    RunWithoutReplay(es, gen);
    var s := After(Init(), es, gen);
    hide *;
    EverySessionHasItsOwnFactor(s, gen);
    forall i, j | 0 <= i < j < |s.sessions|
      ensures s.sessions[i].proof < |s.proofs| && s.sessions[j].proof < |s.proofs|
              && !SameFactor(s.proofs[s.sessions[i].proof], s.proofs[s.sessions[j].proof])
    {
    }
  }

  lemma RunWithoutReplay(es: seq<Event>, gen: Codes)
    requires IsRun(Init(), es, gen) && NeverReplayed(Init(), es, gen)
    ensures Reachable(After(Init(), es, gen), gen) && AllDiffer(After(Init(), es, gen).proofs)
  {
    InitInv();
    assert AllDiffer(Init().proofs);
    hide *;
    FactorsDifferExactly(Init(), es, gen);
  }

  // ---- the two causes, and the guards against them ------------------------------------------------

  /** The enrolment's row started below a step that had been accepted for its secret. */
  ghost predicate Fell(e: Enrolment) { exists n :: n in e.spent && e.start < n }

  /** A late code meets a row stored after its check, or one whose secret was stored again below a step
      accepted for it. */
  lemma LateCauses(s: State, e: Event)
    requires Inv(s) && Late(s, e)
    ensures var pc := s.reqs[e.req]; var row := s.acct.totp[pc.user];
            pc.enrolment < row.id < |s.acct.enrolled|
            || (row.id == pc.enrolment < |s.acct.enrolled| && Fell(s.acct.enrolled[row.id]))
  {
    var pc := s.reqs[e.req];
    assert Owned(s, pc.user, pc.enrolment, pc.secret);
  }

  /** Were the row's identity part of the advance, and the step never lowered for one secret... */
  ghost predicate Guarded(s: State, e: Event)
    requires Enabled(s, e)
  {
    (e.Advance? && Takes(s, s.reqs[e.req]) ==> s.acct.totp[s.reqs[e.req].user].id == s.reqs[e.req].enrolment)
    && (Stores(e) ==>
          var c := s.acct.confirms[e.part.id];
          forall n | n in Accepted(s.proofs, c.user, c.secret) :: n <= c.step)
  }

  ghost predicate NoFall(s: State) { forall id | 0 <= id < |s.acct.enrolled| :: !Fell(s.acct.enrolled[id]) }

  ghost predicate AllGuarded(s: State, es: seq<Event>, gen: Codes)
    requires IsRun(s, es, gen)
    decreases |es|
  {
    es == [] || (Guarded(s, es[0]) && AllGuarded(Step(s, es[0], gen), es[1..], gen))
  }

  lemma GuardedStep(s: State, e: Event, gen: Codes)
    requires Inv(s) && NoFall(s) && Enabled(s, e) && Guarded(s, e)
    ensures !Late(s, e) && NoFall(Step(s, e, gen))
  {
    if Late(s, e) { LateCauses(s, e); }
    hide Inv;
    if Stores(e) {
      var c := s.acct.confirms[e.part.id];
      var enrolment := Enrolment(c.user, c.secret, c.step, Accepted(s.proofs, c.user, c.secret));
      assert Step(s, e, gen).acct.enrolled == s.acct.enrolled + [enrolment];
    } else if OnRequest(e) {
      RequestEffect(s, e, gen);
      hide Step;
    } else {
      OtherEffect(s, e, gen);
      hide Step;
    }
  }

  /** ... no code would be late, so each secret's steps would rise and no factor be accepted twice. */
  lemma {:induction false} GuardsSuffice(s: State, es: seq<Event>, gen: Codes)
    requires Inv(s) && NoFall(s) && IsRun(s, es, gen) && AllGuarded(s, es, gen)
    ensures NeverLate(s, es, gen) && NeverReplayed(s, es, gen)
    decreases |es|
  {
    hide Inv;
    hide Step;
    hide NoFall;
    hide Guarded;
    if es != [] {
      StepInv(s, es[0], gen);
      GuardedStep(s, es[0], gen);
      GuardsSuffice(Step(s, es[0], gen), es[1..], gen);
    }
  }

  // ---- both causes happen ---------------------------------------------------------------------------

  /** A phone one step ahead shows its code of step 11 at step 10. */
  function OneCode(): Codes { (secret, step) => Some(if secret == "old" && step == 11 then "123456" else "000000") }

  const FIRST: Enrolment := Enrolment(1, "old", 9, {})

  lemma RaceStarts() returns (s: State)
    ensures Reachable(s, OneCode()) && s == State(300, map[], map[], map[],
              Accounts(map[1 := Entry("old", 900)], map[], map[], [], map[], 0), 0, [], [])
  {
    var g := OneCode();
    s := Init();
    assert IsRun(s, [], g) && After(s, [], g) == s;
    assert Reachable(s, g);
    hide Reachable;
    ReachStep(s, Tick(300), g);
    s := Step(s, Tick(300), g);
    ReachStep(s, Enroll(Propose(1, "old")), g);
    s := Step(s, Enroll(Propose(1, "old")), g);
  }

  /** A secret is proposed and asked for by two confirmations. */
  lemma RaceAsks() returns (s: State)
    ensures Reachable(s, OneCode()) && s == State(300, map[], map[], map[],
              Accounts(map[1 := Entry("old", 900)], map[1 := Asked(1, "old", "000000"), 2 := Asked(1, "old", "000000")],
                       map[], [], map[], 0), 0, [], [])
  {
    var g := OneCode();
    s := RaceStarts();
    hide Reachable;
    ReachStep(s, Enroll(Ask(1, 1, "000000")), g);
    s := Step(s, Enroll(Ask(1, 1, "000000")), g);
    ReachStep(s, Enroll(Ask(2, 1, "000000")), g);
    s := Step(s, Enroll(Ask(2, 1, "000000")), g);
  }

  /** Both are approved. */
  lemma RaceApproves() returns (s: State)
    ensures Reachable(s, OneCode()) && s == State(300, map[], map[], map[],
              Accounts(map[1 := Entry("old", 900)], map[1 := Approved(1, "old", 9), 2 := Approved(1, "old", 9)],
                       map[], [], map[], 0), 0, [], [])
  {
    var g := OneCode();
    s := RaceAsks();
    hide Reachable;
    assert Verify(g, "old", "000000", 300, 0) == Some(9);
    hide Verify;
    ReachStep(s, Enroll(Approve(1)), g);
    s := Step(s, Enroll(Approve(1)), g);
    ReachStep(s, Enroll(Approve(2)), g);
    s := Step(s, Enroll(Approve(2)), g);
  }

  /** The first of them stores the row and is over. */
  lemma RaceEnrolls() returns (s: State)
    ensures Reachable(s, OneCode()) && s == State(300, map[], map[], map[],
              Accounts(map[], map[2 := Approved(1, "old", 9)], map[1 := Row(0, "old", 9)], [FIRST], map[], 0), 0, [], [])
  {
    var g := OneCode();
    s := RaceApproves();
    hide Reachable;
    ReachStep(s, Enroll(Store(1)), g);
    assert Accepted([], 1, "old") == {};
    s := Step(s, Enroll(Store(1)), g);
    ReachStep(s, Enroll(Close(1)), g);
    s := Step(s, Enroll(Close(1)), g);
  }

  /** Two logins of the user await their second factor. */
  predicate Begun(s: State) {
    s.clock == 300 && s.proofs == [] && s.sessions == []
    && s.reqs == map[1 := Got("a", 1), 2 := Got("b", 1)]
    && s.challenges == map["a" := Entry(Challenge(1, 0, None), 600), "b" := Entry(Challenge(1, 0, None), 600)]
    && s.acct == Accounts(map[], map[2 := Approved(1, "old", 9)], map[1 := Row(0, "old", 9)], [FIRST], map[], 0)
  }

  lemma RaceBegins() returns (s: State)
    ensures Reachable(s, OneCode()) && Begun(s)
  {
    var g := OneCode();
    s := RaceEnrolls();
    hide Reachable;
    ReachStep(s, Issue("a", 1), g);
    s := Step(s, Issue("a", 1), g);
    ReachStep(s, Issue("b", 1), g);
    s := Step(s, Issue("b", 1), g);
    ReachStep(s, Begin(1, "a"), g);
    s := Step(s, Begin(1, "a"), g);
    ReachStep(s, Begin(2, "b"), g);
    s := Step(s, Begin(2, "b"), g);
  }

  /** A request reads the row and checks the code of step 11. */
  lemma RaceCheck(s: State, req: nat) returns (s': State)
    requires Reachable(s, OneCode()) && s.clock == 300
    requires req in s.reqs && s.reqs[req].Got? && s.reqs[req].user == 1
    requires 1 in s.acct.totp && s.acct.totp[1].secret == "old" && s.acct.totp[1].lastStep == 9
    ensures Reachable(s', OneCode())
    ensures s' == s.(reqs := s.reqs[req := Checked(s.reqs[req].token, 1, s.acct.totp[1].id, "old", 11, 300)])
  {
    var g := OneCode();
    hide Reachable;
    assert Verify(g, "old", "123456", 300, 9) == Some(11);
    hide Verify;
    ReachStep(s, ReadTotp(req, "123456"), g);
    s' := Step(s, ReadTotp(req, "123456"), g);
    ReachStep(s', Check(req), g);
    s' := Step(s', Check(req), g);
  }

  /** Both logins are finished. */
  lemma RaceEnds(s: State) returns (s': State)
    requires Reachable(s, OneCode()) && s.clock == 300 && s.sessions == []
    requires Live(s.challenges, "a", 300) && Live(s.challenges, "b", 300)
    requires s.reqs == map[1 := Verified("a", 1, 0), 2 := Verified("b", 1, 1)]
    ensures Reachable(s', OneCode()) && s'.proofs == s.proofs
    ensures s'.sessions == [Session("a", 1, 0, 300), Session("b", 1, 1, 300)]
  {
    var g := OneCode();
    hide Reachable;
    ReachStep(s, Finish(1), g);
    s' := Step(s, Finish(1), g);
    ReachStep(s', Finish(2), g);
    s' := Step(s', Finish(2), g);
  }

  /** Another secret is proposed and asked for. */
  lemma RaceProposes(s: State) returns (s': State)
    requires Reachable(s, OneCode()) && s.clock == 300 && 3 !in s.acct.confirms
    ensures Reachable(s', OneCode()) && s' == s.(acct := s.acct.(setups := s'.acct.setups, confirms := s'.acct.confirms))
    ensures 3 in s'.acct.confirms && s'.acct.confirms[3] == Asked(1, "new", "000000")
  {
    var g := OneCode();
    hide Reachable;
    ReachStep(s, Enroll(Propose(1, "new")), g);
    s' := Step(s, Enroll(Propose(1, "new")), g);
    ReachStep(s', Enroll(Ask(3, 1, "000000")), g);
    s' := Step(s', Enroll(Ask(3, 1, "000000")), g);
  }

  /** A new secret takes the row's place. */
  lemma RaceReplaces(s: State) returns (s': State)
    requires Reachable(s, OneCode()) && s.clock == 300 && 3 !in s.acct.confirms
    ensures Reachable(s', OneCode()) && s' == s.(acct := s'.acct)
    ensures s'.acct.totp == s.acct.totp[1 := Row(|s.acct.enrolled|, "new", 9)]
  {
    var g := OneCode();
    s' := RaceProposes(s);
    hide Reachable;
    assert Verify(g, "new", "000000", 300, 0) == Some(9);
    hide Verify;
    ReachStep(s', Enroll(Approve(3)), g);
    s' := Step(s', Enroll(Approve(3)), g);
    ReachStep(s', Enroll(Store(3)), g);
    s' := Step(s', Enroll(Store(3)), g);
  }

  /** Two logins check the same code; one is accepted, the user confirms a new secret with a code of an
      earlier step, and the other is accepted as well: the check is on the new row by then. */
  lemma ReplacementLetsACodeTwice() returns (s: State)
    ensures Reachable(s, OneCode())
    ensures s.proofs == [Totp(1, 0, 0, "old", 11, 300), Totp(1, 1, 0, "old", 11, 300)]
    ensures s.sessions == [Session("a", 1, 0, 300), Session("b", 1, 1, 300)]
  {
    var g := OneCode();
    s := RaceBegins();
    hide Reachable;
    s := RaceCheck(s, 1);
    s := RaceCheck(s, 2);
    ReachStep(s, Advance(1), g);
    s := Step(s, Advance(1), g);
    s := RaceReplaces(s);
    ReachStep(s, Advance(2), g);
    s := Step(s, Advance(2), g);
    s := RaceEnds(s);
  }

  /** Two confirmations of one setup overlap; a login is accepted between them, and the later one sets the
      row back below that code, which a second login then uses. */
  lemma SecondConfirmationLetsACodeTwice() returns (s: State)
    ensures Reachable(s, OneCode())
    ensures s.proofs == [Totp(1, 0, 0, "old", 11, 300), Totp(1, 1, 1, "old", 11, 300)]
    ensures s.sessions == [Session("a", 1, 0, 300), Session("b", 1, 1, 300)]
  {
    var g := OneCode();
    s := RaceBegins();
    hide Reachable;
    s := RaceCheck(s, 1);
    ReachStep(s, Advance(1), g);
    s := Step(s, Advance(1), g);
    ReachStep(s, Enroll(Store(2)), g);
    s := Step(s, Enroll(Store(2)), g);
    s := RaceCheck(s, 2);
    ReachStep(s, Advance(2), g);
    s := Step(s, Advance(2), g);
    s := RaceEnds(s);
  }
}
