// The second step of a login under concurrent requests (internal/api/mfa.go,
// internal/api/handlers_mfa.go, internal/auth/totp.go, internal/store/sqlite/mfa.go).
//
// Every locked map operation and every SQL statement is one step; a request is a program
// counter between its steps.  Times are whole seconds of a clock that never goes back;
// which code belongs to a secret and a step is left open.

module Mfa {

  datatype Option<+T> = None | Some(value: T)

  // ---- the TTL map ------------------------------------------------------------------------

  datatype Entry<V> = Entry(v: V, expires: int)

  predicate Live<K(==), V>(m: map<K, Entry<V>>, key: K, now: int) { key in m && now < m[key].expires }

  function Purged<K(==), V>(m: map<K, Entry<V>>, now: int): map<K, Entry<V>> {
    map k | k in m && now < m[k].expires :: m[k]
  }

  function PutIn<K(==), V>(m: map<K, Entry<V>>, key: K, v: V, ttl: int, now: int): map<K, Entry<V>> {
    Purged(m, now)[key := Entry(v, now + ttl)]
  }

  /** f gives the entry's new value, or None to drop it. */
  function UpdateIn<K(==), V>(m: map<K, Entry<V>>, key: K, f: V -> Option<V>, now: int): map<K, Entry<V>> {
    if key !in m then m
    else if !Live(m, key, now) then m - {key}
    else match f(m[key].v)
      case None => m - {key}
      case Some(v) => m[key := Entry(v, m[key].expires)]
  }

  class Pending<V(==)> {
    var m: map<string, Entry<V>>

    constructor ()
      ensures m == map[]
    {
      m := map[];
    }

    method Put(key: string, v: V, ttl: int, now: int)
      modifies this
      ensures m == PutIn(old(m), key, v, ttl, now)
      ensures key in m && m[key] == Entry(v, now + ttl)
      ensures forall k | k != key :: k in m <==> k in old(m) && now < old(m)[k].expires
      ensures forall k | k != key && k in m :: m[k] == old(m)[k]
    {
      var todo := m.Keys;
      while todo != {}
        invariant todo <= m.Keys <= old(m).Keys
        invariant forall k | k in m :: m[k] == old(m)[k]
        invariant forall k | k in old(m) && k !in todo :: k in m <==> now < old(m)[k].expires
      {
        var k :| k in todo;
        todo := todo - {k};
        if !(now < m[k].expires) { m := m - {k}; }
      }
      assert m == Purged(old(m), now);
      m := m[key := Entry(v, now + ttl)];
    }

    /** f runs on the live entry only.  Whatever it does, no other entry changes, nothing comes to life,
        and a changed entry keeps its end. */
    method Update(key: string, f: V -> Option<V>, now: int) returns (ok: bool)
      modifies this
      ensures m == UpdateIn(old(m), key, f, now) && ok == Live(old(m), key, now)
      ensures forall k | k != key :: k in m <==> k in old(m)
      ensures forall k | k != key && k in m :: m[k] == old(m)[k]
      ensures key in m <==> ok && f(old(m)[key].v).Some?
      ensures key in m ==> m[key].v == f(old(m)[key].v).value && m[key].expires == old(m)[key].expires
      ensures forall k, later | now <= later && Live(m, k, later) :: Live(old(m), k, later)
    {
      if key !in m { return false; }
      if !(now < m[key].expires) {
        m := m - {key};
        return false;
      }
      var r := f(m[key].v);
      m := if r.None? then m - {key} else m[key := Entry(r.value, m[key].expires)];
      return true;
    }

    method Get(key: string, now: int) returns (v: Option<V>)
      modifies this
      ensures v == if key in old(m) && now < old(m)[key].expires then Some(old(m)[key].v) else None
      ensures forall k :: Live(m, k, now) <==> Live(old(m), k, now)
      ensures forall k | Live(m, k, now) :: Live(old(m), k, now) && m[k] == old(m)[k]
    {
      v := if Live(m, key, now) then Some(m[key].v) else None;
      var ok := Update(key, x => Some(x), now);
    }

    /** The single-use read: whoever gets the value has removed it. */
    method Take(key: string, now: int) returns (v: Option<V>)
      modifies this
      ensures v == if key in old(m) && now < old(m)[key].expires then Some(old(m)[key].v) else None
      ensures m == old(m) - {key}
    {
      v := if Live(m, key, now) then Some(m[key].v) else None;
      var ok := Update(key, x => None, now);
    }
  }

  // ---- checking a code -----------------------------------------------------------------------

  const PERIOD: int := 30
  const SKEW: int := 1

  /** Go's integer division. */
  function Quot(a: int): int { if a >= 0 then a / PERIOD else -((-a) / PERIOD) }

  type Codes = (string, int) -> Option<string>

  predicate Near(step: int, at: int) { Quot(at) - SKEW <= step <= Quot(at) + SKEW }

  /** The earliest step of the window from step on that matches; a code that cannot be made ends it. */
  function Search(gen: Codes, secret: string, code: string, after: int, step: int, last: int): Option<int>
    decreases last + 1 - step
  {
    if step > last then None
    else if step <= after then Search(gen, secret, code, after, step + 1, last)
    else match gen(secret, step)
      case None => None
      case Some(want) => if want == code then Some(step) else Search(gen, secret, code, after, step + 1, last)
  }

  function Verify(gen: Codes, secret: string, code: string, now: int, after: int): Option<int> {
    if |code| != 6 then None else Search(gen, secret, code, after, Quot(now) - SKEW, Quot(now) + SKEW)
  }

  predicate Matches(gen: Codes, secret: string, step: int, code: string) { gen(secret, step) == Some(code) }

  /** The first step after `after` that matches, of those up to `last`; one no code can be made for ends the search. */
  lemma {:induction false} SearchMeaning(gen: Codes, secret: string, code: string, after: int, step: int, last: int)
    ensures var r := Search(gen, secret, code, after, step, last);
            r.Some? ==> step <= r.value <= last && r.value > after && Matches(gen, secret, r.value, code)
                        && (forall s | step <= s < r.value && s > after :: !Matches(gen, secret, s, code))
    ensures forall v :: Search(gen, secret, code, after, step, last) == Some(v) <==>
              step <= v <= last && v > after && Matches(gen, secret, v, code)
              && forall s | step <= s < v && s > after :: gen(secret, s).Some? && gen(secret, s).value != code
    ensures Search(gen, secret, code, after, step, last).None? && (forall s | step <= s <= last :: gen(secret, s).Some?) ==>
              forall s | step <= s <= last && s > after :: !Matches(gen, secret, s, code)
    decreases last + 1 - step
  {
    if step <= last { SearchMeaning(gen, secret, code, after, step + 1, last); }
  }

  /** A code is accepted exactly when it is six characters long and belongs to a step within one of
      the clock's, newer than the last accepted one; the earliest such step is the one recorded. */
  lemma VerifyMeaning(gen: Codes, secret: string, code: string, now: int, after: int)
    requires forall s :: gen(secret, s).Some?
    ensures var r := Verify(gen, secret, code, now, after);
            (r.Some? <==> |code| == 6 && exists s :: Near(s, now) && s > after && Matches(gen, secret, s, code))
            && (r.Some? ==> Near(r.value, now) && r.value > after && Matches(gen, secret, r.value, code)
                            && forall s | Near(s, now) && s > after && Matches(gen, secret, s, code) :: r.value <= s)
    ensures now >= 0 ==> forall s :: Near(s, now) <==> now / 30 - 1 <= s <= now / 30 + 1
  {
    SearchMeaning(gen, secret, code, after, Quot(now) - SKEW, Quot(now) + SKEW);
  }

  /** VerifyTOTP, on a code already stripped of its spaces. */
  method VerifyTOTP(gen: Codes, secret: string, code: string, now: int, after: int) returns (r: Option<int>)
    ensures r == Verify(gen, secret, code, now, after)
  {
    if |code| != 6 { return None; }
    var cur := Quot(now);
    for d := -SKEW to SKEW + 1
      invariant Verify(gen, secret, code, now, after) == Search(gen, secret, code, after, cur + d, cur + SKEW)
    {
      var step := cur + d;
      if step <= after { continue; }
      var want := gen(secret, step);
      if want.None? { return None; }
      if want.value == code { return Some(step); }
    }
    return None;
  }

  // ---- the system -----------------------------------------------------------------------------

  const CHALLENGE_TTL: int := 5 * 60
  const ENROLL_TTL: int := 10 * 60
  const CHALLENGE_FAIL: nat := 5

  datatype Challenge = Challenge(user: nat, fails: nat, offer: Option<nat>)

  /** A user's row; id tells the enrolment behind it from any other, replaced ones included. */
  datatype Row = Row(id: nat, secret: string, lastStep: int)

  /** An enrolment as it was stored: the step its row started with, and the steps that had been
      accepted for its secret by then. */
  datatype Enrolment = Enrolment(user: nat, secret: string, start: int, spent: set<int>)

  /** Where a confirmation of a pending secret stands. */
  datatype Confirm =
    | Asked(user: nat, secret: string, code: string)
    | Approved(user: nat, secret: string, step: int)
    | Stored(user: nat)

  datatype Code = Code(user: nat, hash: string, used: bool)

  /** What satisfied a second factor; for a TOTP code, the row it was recorded on, the enrolment and
      the secret it was checked against, and when. */
  datatype Proof =
    | Totp(user: nat, row: nat, checked: nat, secret: string, step: int, at: int)
    | Recovery(user: nat, id: nat)
    | Passkey(user: nat, id: nat)

  /** Where a request stands. */
  datatype Pc =
    | Got(token: string, user: nat)
    | Read(token: string, user: nat, row: Row, code: string)
    | Checked(token: string, user: nat, enrolment: nat, secret: string, step: int, at: int)
    | Offered(token: string, user: nat, id: nat)
    | Verified(token: string, user: nat, proof: nat)
    | Refused(token: string, user: nat)

  datatype Issued = Issued(user: nat, at: int)

  datatype Session = Session(token: string, user: nat, proof: nat, at: int)

  /** What is stored for the accounts. */
  datatype Accounts = Accounts(
    setups: map<nat, Entry<string>>,  // each user's secret waiting for its confirmation
    confirms: map<nat, Confirm>,
    totp: map<nat, Row>,
    enrolled: seq<Enrolment>,         // every enrolment ever made; a row's id is its position here
    codes: map<nat, Code>,
    nextCode: nat)

  datatype State = State(
    clock: int,
    challenges: map<string, Entry<Challenge>>,
    issued: map<string, Issued>,
    reqs: map<nat, Pc>,
    acct: Accounts,
    nextOffer: nat,
    proofs: seq<Proof>,               // every second factor accepted, in order
    sessions: seq<Session>)

  function Init(): State { State(0, map[], map[], map[], Accounts(map[], map[], map[], [], map[], 0), 0, [], []) }

  /** The steps of setting up a secret and of confirming it. */
  datatype Enrolling =
    | Propose(user: nat, secret: string)
    | Ask(id: nat, user: nat, code: string)
    | Approve(id: nat)
    | Store(id: nat)
    | Close(id: nat)
    | GiveUp(id: nat)

  datatype Event =
    | Tick(now: int)
    | Issue(token: string, user: nat)
    | Begin(req: nat, token: string)
    | Reject(req: nat)
    | ReadTotp(req: nat, code: string)
    | Check(req: nat)
    | Advance(req: nat)
    | Spend(req: nat, hash: string, pick: Option<nat>)
    | Offer(token: string)
    | TakeOffer(req: nat)
    | Judge(req: nat, good: bool)
    | CountFailure(req: nat)
    | Finish(req: nat)
    | Drop(req: nat, end: bool)
    | Enroll(part: Enrolling)
    | Unenroll(user: nat)
    | NewCode(user: nat, hash: string)
    | DeleteCode(id: nat)

  predicate Spendable(s: State, user: nat, hash: string, id: nat) {
    id in s.acct.codes && s.acct.codes[id] == Code(user, hash, false)
  }

  predicate EnrollEnabled(a: Accounts, part: Enrolling) {
    match part
    case Propose(_, _) => true
    case Ask(id, _, _) => id !in a.confirms
    case Approve(id) => id in a.confirms && a.confirms[id].Asked?
    case Store(id) => id in a.confirms && a.confirms[id].Approved?
    case Close(id) => id in a.confirms && a.confirms[id].Stored?
    case GiveUp(id) => id in a.confirms
  }

  ghost predicate Enabled(s: State, e: Event) {
    match e
    case Tick(now) => s.clock <= now
    case Issue(token, _) => token !in s.issued
    case Begin(req, _) => req !in s.reqs
    case Reject(req) => req in s.reqs && s.reqs[req].Got?
    case ReadTotp(req, _) => req in s.reqs && s.reqs[req].Got?
    case Check(req) => req in s.reqs && s.reqs[req].Read?
    case Advance(req) => req in s.reqs && s.reqs[req].Checked?
    case Spend(req, hash, pick) =>
      req in s.reqs && s.reqs[req].Got?
      && (if pick.Some? then Spendable(s, s.reqs[req].user, hash, pick.value)
          else forall id :: !Spendable(s, s.reqs[req].user, hash, id))
    case TakeOffer(req) => req in s.reqs && s.reqs[req].Got?
    case Judge(req, _) => req in s.reqs && s.reqs[req].Offered?
    case CountFailure(req) => req in s.reqs && s.reqs[req].Refused?
    case Finish(req) => req in s.reqs && s.reqs[req].Verified?
    case Drop(req, _) => req in s.reqs
    case Enroll(part) => EnrollEnabled(s.acct, part)
    case _ => true
  }

  function At(s: State, req: nat, pc: Pc): State { s.(reqs := s.reqs[req := pc]) }

  /** The request goes on with its second factor accepted. */
  function Accept(s: State, req: nat, p: Proof): State
    requires req in s.reqs
  {
    s.(reqs := s.reqs[req := Verified(s.reqs[req].token, s.reqs[req].user, |s.proofs|)], proofs := s.proofs + [p])
  }

  function Refuse(s: State, req: nat): State
    requires req in s.reqs
  {
    At(s, req, Refused(s.reqs[req].token, s.reqs[req].user))
  }

  /** UPDATE user_totp SET last_step = ? WHERE user_id = ? AND last_step < ?. */
  function AdvanceStep(s: State, req: nat, pc: Pc): State
    requires req in s.reqs && pc.Checked?
  {
    if pc.user in s.acct.totp && s.acct.totp[pc.user].lastStep < pc.step then
      var row := s.acct.totp[pc.user];
      Accept(s.(acct := s.acct.(totp := s.acct.totp[pc.user := row.(lastStep := pc.step)])), req,
             Totp(pc.user, row.id, pc.enrolment, pc.secret, pc.step, pc.at))
    else Refuse(s, req)
  }

  function CheckCode(s: State, req: nat, pc: Pc, gen: Codes): State
    requires req in s.reqs && pc.Read?
  {
    match Verify(gen, pc.row.secret, pc.code, s.clock, pc.row.lastStep)
    case None => Refuse(s, req)
    case Some(step) => At(s, req, Checked(pc.token, pc.user, pc.row.id, pc.row.secret, step, s.clock))
  }

  function OfferTaken(c: Challenge): Option<Challenge> { Some(c.(offer := None)) }

  function OneMoreFailure(c: Challenge): Option<Challenge> {
    if c.fails + 1 < CHALLENGE_FAIL then Some(c.(fails := c.fails + 1)) else None
  }

  function TakeTheOffer(s: State, req: nat, pc: Pc): State
    requires req in s.reqs
  {
    var s' := s.(challenges := UpdateIn(s.challenges, pc.token, OfferTaken, s.clock));
    if Live(s.challenges, pc.token, s.clock) && s.challenges[pc.token].v.offer.Some? then
      At(s', req, Offered(pc.token, pc.user, s.challenges[pc.token].v.offer.value))
    else Refuse(s', req)
  }

  /** take: of two verified requests only the one that removes the challenge gets a session. */
  function FinishLogin(s: State, req: nat, pc: Pc): State
    requires req in s.reqs && pc.Verified?
  {
    s.(challenges := s.challenges - {pc.token}, reqs := s.reqs - {req},
       sessions := s.sessions + if Live(s.challenges, pc.token, s.clock)
                                then [Session(pc.token, pc.user, pc.proof, s.clock)] else [])
  }

  /** The steps accepted so far for one secret of a user. */
  function Accepted(ps: seq<Proof>, user: nat, secret: string): set<int> {
    set p | p in ps && p.Totp? && p.user == user && p.secret == secret :: p.step
  }

  /** INSERT INTO user_totp ... ON CONFLICT (user_id) DO UPDATE: whatever row was there is replaced. */
  function StoreRow(a: Accounts, ps: seq<Proof>, id: nat, user: nat, secret: string, step: int): Accounts {
    a.(totp := a.totp[user := Row(|a.enrolled|, secret, step)],
       enrolled := a.enrolled + [Enrolment(user, secret, step, Accepted(ps, user, secret))],
       confirms := a.confirms[id := Stored(user)])
  }

  /** totpSetup proposes; totpConfirm asks for the pending secret, approves a code against it, stores the
      row and closes the setup. */
  function EnrollStep(a: Accounts, ps: seq<Proof>, clock: int, part: Enrolling, gen: Codes): Accounts
    requires EnrollEnabled(a, part)
  {
    match part
    case Propose(user, secret) => a.(setups := PutIn(a.setups, user, secret, ENROLL_TTL, clock))
    case Ask(id, user, code) =>
      if Live(a.setups, user, clock) then a.(confirms := a.confirms[id := Asked(user, a.setups[user].v, code)])
      else a.(setups := a.setups - {user})
    case Approve(id) =>
      var c := a.confirms[id];
      (match Verify(gen, c.secret, c.code, clock, 0)
       case None => a.(confirms := a.confirms - {id})
       case Some(step) => a.(confirms := a.confirms[id := Approved(c.user, c.secret, step)]))
    case Store(id) => StoreRow(a, ps, id, a.confirms[id].user, a.confirms[id].secret, a.confirms[id].step)
    case Close(id) => a.(setups := a.setups - {a.confirms[id].user}, confirms := a.confirms - {id})
    case GiveUp(id) => a.(confirms := a.confirms - {id})
  }

  function Step(s: State, e: Event, gen: Codes): State
    requires Enabled(s, e)
  {
    match e
    case Tick(now) => s.(clock := now)
    case Issue(token, user) =>
      s.(challenges := PutIn(s.challenges, token, Challenge(user, 0, None), CHALLENGE_TTL, s.clock),
         issued := s.issued[token := Issued(user, s.clock)])
    case Begin(req, token) =>
      if Live(s.challenges, token, s.clock) then At(s, req, Got(token, s.challenges[token].v.user))
      else s.(challenges := s.challenges - {token})
    case Reject(req) => Refuse(s, req)
    case ReadTotp(req, code) =>
      var pc := s.reqs[req];
      if pc.user in s.acct.totp then At(s, req, Read(pc.token, pc.user, s.acct.totp[pc.user], code)) else Refuse(s, req)
    case Check(req) => CheckCode(s, req, s.reqs[req], gen)
    case Advance(req) => AdvanceStep(s, req, s.reqs[req])
    case Spend(req, hash, pick) =>
      if pick.Some? then
        Accept(s.(acct := s.acct.(codes := s.acct.codes[pick.value := s.acct.codes[pick.value].(used := true)])), req,
               Recovery(s.reqs[req].user, pick.value))
      else Refuse(s, req)
    case Offer(token) =>
      s.(challenges := UpdateIn(s.challenges, token, (c: Challenge) => Some(c.(offer := Some(s.nextOffer))), s.clock),
         nextOffer := s.nextOffer + 1)
    case TakeOffer(req) => TakeTheOffer(s, req, s.reqs[req])
    case Judge(req, good) =>
      if good then Accept(s, req, Passkey(s.reqs[req].user, s.reqs[req].id)) else Refuse(s, req)
    case CountFailure(req) =>
      s.(challenges := UpdateIn(s.challenges, s.reqs[req].token, OneMoreFailure, s.clock), reqs := s.reqs - {req})
    case Finish(req) => FinishLogin(s, req, s.reqs[req])
    case Drop(req, end) =>
      s.(challenges := if end then s.challenges - {s.reqs[req].token} else s.challenges, reqs := s.reqs - {req})
    case Enroll(part) => s.(acct := EnrollStep(s.acct, s.proofs, s.clock, part, gen))
    case Unenroll(user) => s.(acct := s.acct.(totp := s.acct.totp - {user}))
    case NewCode(user, hash) =>
      s.(acct := s.acct.(codes := s.acct.codes[s.acct.nextCode := Code(user, hash, false)], nextCode := s.acct.nextCode + 1))
    case DeleteCode(id) => s.(acct := s.acct.(codes := s.acct.codes - {id}))
  }

  // ---- invariants ---------------------------------------------------------------------------------

  /** Challenges, requests and sessions belong to the account the challenge was issued for; a
      challenge with a session is gone, and never comes back. */
  ghost predicate Tokens(s: State) {
    && (forall t | t in s.challenges ::
          t in s.issued && s.challenges[t].v.user == s.issued[t].user
          && s.challenges[t].expires == s.issued[t].at + CHALLENGE_TTL)
    && (forall r | r in s.reqs :: s.reqs[r].token in s.issued && s.reqs[r].user == s.issued[s.reqs[r].token].user)
    && (forall i | 0 <= i < |s.sessions| :: SessionOk(s, s.sessions[i]))
    && (forall i, j | 0 <= i < j < |s.sessions| :: s.sessions[i].token != s.sessions[j].token)
  }

  ghost predicate SessionOk(s: State, x: Session) {
    x.token in s.issued && x.token !in s.challenges && x.user == s.issued[x.token].user
    && x.at < s.issued[x.token].at + CHALLENGE_TTL
  }

  /** An enrolment's accepted steps rise, each near the clock read when its code was checked. */
  ghost predicate Steps(s: State) {
    && (forall u | u in s.acct.totp :: s.acct.totp[u].id < |s.acct.enrolled|)
    && (forall u, w | u in s.acct.totp && w in s.acct.totp && u != w :: s.acct.totp[u].id != s.acct.totp[w].id)
    && (forall r | r in s.reqs && s.reqs[r].Checked? :: Near(s.reqs[r].step, s.reqs[r].at))
    && (forall i | 0 <= i < |s.proofs| && s.proofs[i].Totp? ::
          Near(s.proofs[i].step, s.proofs[i].at) && s.proofs[i].row < |s.acct.enrolled|)
    && (forall i, u | 0 <= i < |s.proofs| && s.proofs[i].Totp? && u in s.acct.totp && s.acct.totp[u].id == s.proofs[i].row ::
          s.proofs[i].step <= s.acct.totp[u].lastStep)
    && Rising(s.proofs)
  }

  /** Enrolment id is user u's, of secret x, and not newer than the one u has now. */
  ghost predicate Owned(s: State, u: nat, id: nat, x: string) {
    id < |s.acct.enrolled| && s.acct.enrolled[id].user == u && s.acct.enrolled[id].secret == x && (u in s.acct.totp ==> id <= s.acct.totp[u].id)
  }

  /** Rows, codes in flight and accepted codes name enrolments of their own user, and a code is never
      recorded on an older enrolment than the one it was checked against. */
  ghost predicate Owners(s: State) {
    && (forall u | u in s.acct.totp :: Owned(s, u, s.acct.totp[u].id, s.acct.totp[u].secret))
    && (forall r | r in s.reqs && s.reqs[r].Read? :: Owned(s, s.reqs[r].user, s.reqs[r].row.id, s.reqs[r].row.secret))
    && (forall r | r in s.reqs && s.reqs[r].Checked? :: Owned(s, s.reqs[r].user, s.reqs[r].enrolment, s.reqs[r].secret))
    && (forall i | 0 <= i < |s.proofs| && s.proofs[i].Totp? :: ProofOwned(s, s.proofs[i]))
  }

  ghost predicate ProofOwned(s: State, p: Proof)
    requires p.Totp?
  {
    p.checked <= p.row < |s.acct.enrolled| && Owned(s, p.user, p.checked, p.secret)
    && Owned(s, p.user, p.row, s.acct.enrolled[p.row].secret)
  }

  /** What a row knows of its secret: the codes accepted for it are recorded on the row or were accepted
      before the row was stored, and those recorded are newer than the step it started with. */
  ghost predicate Known(s: State) {
    && (forall id | 0 <= id < |s.acct.enrolled| ::
          s.acct.enrolled[id].spent <= Accepted(s.proofs, s.acct.enrolled[id].user, s.acct.enrolled[id].secret))
    && (forall u | u in s.acct.totp ::
          s.acct.totp[u].id < |s.acct.enrolled| && s.acct.enrolled[s.acct.totp[u].id].start <= s.acct.totp[u].lastStep
          && KnownTo(s.proofs, u, s.acct.totp[u], s.acct.enrolled[s.acct.totp[u].id].spent))
    && (forall p | p in s.proofs && p.Totp? :: p.row < |s.acct.enrolled| && s.acct.enrolled[p.row].start < p.step)
  }

  ghost predicate KnownTo(ps: seq<Proof>, u: nat, row: Row, spent: set<int>) {
    forall p | p in ps && p.Totp? && p.user == u && p.secret == row.secret :: p.row == row.id || p.step in spent
  }

  ghost predicate Rising(ps: seq<Proof>) {
    forall i, j | 0 <= i < j < |ps| && ps[i].Totp? && ps[j].Totp? && ps[i].row == ps[j].row :: ps[i].step < ps[j].step
  }

  ghost predicate Spent(s: State) {
    && (forall c | c in s.acct.codes :: c < s.acct.nextCode)
    && (forall i | 0 <= i < |s.proofs| && s.proofs[i].Recovery? ::
          s.proofs[i].id < s.acct.nextCode && (s.proofs[i].id in s.acct.codes ==> s.acct.codes[s.proofs[i].id].used))
    && (forall i, j | 0 <= i < j < |s.proofs| && s.proofs[i].Recovery? && s.proofs[j].Recovery? ::
          s.proofs[i].id != s.proofs[j].id)
  }

  /** Where a passkey challenge can be: on its login, with a request, or behind an accepted factor. */
  datatype Holder = OnLogin(token: string) | With(req: nat) | Behind(proof: nat)

  function Held(s: State, h: Holder): Option<nat> {
    match h
    case OnLogin(t) => if t in s.challenges then s.challenges[t].v.offer else None
    case With(r) => if r in s.reqs && s.reqs[r].Offered? then Some(s.reqs[r].id) else None
    case Behind(i) => if i < |s.proofs| && s.proofs[i].Passkey? then Some(s.proofs[i].id) else None
  }

  /** A passkey challenge is in one place at most. */
  ghost predicate Offers(s: State) {
    && (forall h :: Held(s, h).Some? ==> Held(s, h).value < s.nextOffer)
    && (forall h, k :: h != k && Held(s, h).Some? ==> Held(s, h) != Held(s, k))
  }

  /** Each accepted factor serves one request, and then at most one session, of its own account. */
  ghost predicate Proofs(s: State) {
    && (forall r | r in s.reqs && s.reqs[r].Verified? ::
          s.reqs[r].proof < |s.proofs| && s.proofs[s.reqs[r].proof].user == s.reqs[r].user)
    && (forall i | 0 <= i < |s.sessions| ::
          s.sessions[i].proof < |s.proofs| && s.proofs[s.sessions[i].proof].user == s.sessions[i].user)
    && (forall r, q | r in s.reqs && q in s.reqs && r != q && s.reqs[r].Verified? && s.reqs[q].Verified? ::
          s.reqs[r].proof != s.reqs[q].proof)
    && (forall r, i | r in s.reqs && s.reqs[r].Verified? && 0 <= i < |s.sessions| ::
          s.reqs[r].proof != s.sessions[i].proof)
    && (forall i, j | 0 <= i < j < |s.sessions| :: s.sessions[i].proof != s.sessions[j].proof)
  }

  // ---- every step keeps them -----------------------------------------------------------------------

  predicate OnRequest(e: Event) { e.Reject? || e.ReadTotp? || e.Check? || e.Advance? || e.Spend? || e.Judge? }

  predicate OnAccount(e: Event) { e.Tick? || e.Enroll? || e.Unenroll? || e.NewCode? || e.DeleteCode? }

  /** A request's own steps change nothing but where it stands, the rows it uses and what it proved. */
  ghost predicate OnlyItsOwn(s: State, s': State, e: Event)
    requires OnRequest(e)
  {
    e.req in s.reqs
    && s'.challenges == s.challenges && s'.issued == s.issued && s'.sessions == s.sessions
    && s'.nextOffer == s.nextOffer && s'.acct.enrolled == s.acct.enrolled && s'.acct.nextCode == s.acct.nextCode
    && s'.reqs.Keys == s.reqs.Keys && (forall r | r in s.reqs && r != e.req :: s'.reqs[r] == s.reqs[r])
    && s'.reqs[e.req].token == s.reqs[e.req].token && s'.reqs[e.req].user == s.reqs[e.req].user
    && !s'.reqs[e.req].Offered? && (s'.reqs[e.req].Checked? ==> e.Check?) && (s'.reqs[e.req].Read? ==> e.ReadTotp?)
    && (!e.Advance? ==> s'.acct.totp == s.acct.totp) && (!e.Spend? ==> s'.acct.codes == s.acct.codes)
    && (s'.proofs == s.proofs
        || (exists p: Proof :: s'.proofs == s.proofs + [p]
              && (p.Totp? <==> e.Advance?) && (p.Recovery? <==> e.Spend?) && (p.Passkey? <==> e.Judge?)))
  }

  lemma AdvanceEffect(s: State, e: Event)
    requires e.Advance? && e.req in s.reqs && s.reqs[e.req].Checked?
    ensures OnlyItsOwn(s, AdvanceStep(s, e.req, s.reqs[e.req]), e)
  {
    var pc := s.reqs[e.req];
    if pc.user in s.acct.totp && s.acct.totp[pc.user].lastStep < pc.step {
      assert AdvanceStep(s, e.req, pc).proofs ==
             s.proofs + [Totp(pc.user, s.acct.totp[pc.user].id, pc.enrolment, pc.secret, pc.step, pc.at)];
    }
  }

  lemma CheckEffect(s: State, e: Event, gen: Codes)
    requires e.Check? && e.req in s.reqs && s.reqs[e.req].Read?
    ensures OnlyItsOwn(s, CheckCode(s, e.req, s.reqs[e.req], gen), e)
  {
    hide Verify;
  }

  lemma RequestEffect(s: State, e: Event, gen: Codes)
    requires Enabled(s, e) && OnRequest(e)
    ensures OnlyItsOwn(s, Step(s, e, gen), e)
  {
    if e.Spend? {
      if e.pick.Some? { assert Step(s, e, gen).proofs == s.proofs + [Recovery(s.reqs[e.req].user, e.pick.value)]; }
    } else if e.Judge? {
      if e.good { assert Step(s, e, gen).proofs == s.proofs + [Passkey(s.reqs[e.req].user, s.reqs[e.req].id)]; }
    } else if e.Advance? {
      AdvanceEffect(s, e);
    } else if e.Check? {
      CheckEffect(s, e, gen);
    }
    hide AdvanceStep;
    hide CheckCode;
    hide EnrollStep;
    hide UpdateIn;
    hide PutIn;
    hide TakeTheOffer;
    hide FinishLogin;
  }

  /** Whatever an update does to a challenge, it keeps its account and its end. */
  lemma UpdateKeeps(m: map<string, Entry<Challenge>>, key: string, f: Challenge -> Option<Challenge>, now: int)
    requires forall c :: f(c).Some? ==> f(c).value.user == c.user
    ensures var m' := UpdateIn(m, key, f, now);
            forall t | t in m' :: t in m && m'[t].v.user == m[t].v.user && m'[t].expires == m[t].expires
  {
  }

  /** Challenges, requests and sessions with nothing new in them. */
  lemma TokensShrink(s: State, s': State)
    requires Tokens(s) && s'.issued == s.issued && s'.sessions == s.sessions
    requires forall t | t in s'.challenges ::
               t in s.challenges && s'.challenges[t].v.user == s.challenges[t].v.user
               && s'.challenges[t].expires == s.challenges[t].expires
    requires forall r | r in s'.reqs :: r in s.reqs && s'.reqs[r].token == s.reqs[r].token && s'.reqs[r].user == s.reqs[r].user
    ensures Tokens(s')
  {
    forall i | 0 <= i < |s.sessions| ensures SessionOk(s', s'.sessions[i]) {
      assert SessionOk(s, s.sessions[i]);
    }
  }

  lemma TokensIssue(s: State, e: Event, gen: Codes)
    requires Tokens(s) && Enabled(s, e) && e.Issue?
    ensures Tokens(Step(s, e, gen))
  {
    var s' := Step(s, e, gen);
    forall i | 0 <= i < |s.sessions| ensures SessionOk(s', s'.sessions[i]) {
      assert SessionOk(s, s.sessions[i]);
    }
  }

  lemma TokensBegin(s: State, e: Event, gen: Codes)
    requires Tokens(s) && Enabled(s, e) && e.Begin?
    ensures Tokens(Step(s, e, gen))
  {
    var s' := Step(s, e, gen);
    hide Step;
    forall i | 0 <= i < |s.sessions| ensures SessionOk(s', s'.sessions[i]) {
      assert SessionOk(s, s.sessions[i]);
    }
  }

  lemma TokensFinish(s: State, e: Event, gen: Codes)
    requires Tokens(s) && Enabled(s, e) && e.Finish?
    ensures Tokens(Step(s, e, gen))
  {
    var s' := Step(s, e, gen);
    forall i | 0 <= i < |s.sessions| ensures SessionOk(s', s'.sessions[i]) && s.sessions[i].token !in s.challenges {
      assert SessionOk(s, s.sessions[i]);
    }
  }

  lemma TokensOffer(s: State, e: Event, gen: Codes)
    requires Tokens(s) && Enabled(s, e) && (e.Offer? || e.TakeOffer?)
    ensures Tokens(Step(s, e, gen))
  {
    if e.Offer? {
      UpdateKeeps(s.challenges, e.token, (c: Challenge) => Some(c.(offer := Some(s.nextOffer))), s.clock);
    } else {
      UpdateKeeps(s.challenges, s.reqs[e.req].token, OfferTaken, s.clock);
    }
    hide Tokens;
    hide UpdateIn;
    hide EnrollStep;
    hide AdvanceStep;
    hide CheckCode;
    TokensShrink(s, Step(s, e, gen));
  }

  lemma TokensEnd(s: State, e: Event, gen: Codes)
    requires Tokens(s) && Enabled(s, e) && (e.CountFailure? || e.Drop?)
    ensures Tokens(Step(s, e, gen))
  {
    if e.CountFailure? { UpdateKeeps(s.challenges, s.reqs[e.req].token, OneMoreFailure, s.clock); }
    hide Tokens;
    hide UpdateIn;
    TokensShrink(s, Step(s, e, gen));
  }

  lemma TokensStep(s: State, e: Event, gen: Codes)
    requires Tokens(s) && Enabled(s, e)
    ensures Tokens(Step(s, e, gen))
  {
    hide Tokens;
    hide Step;
    hide Enabled;
    if e.Issue? { TokensIssue(s, e, gen); }
    else if e.Begin? { TokensBegin(s, e, gen); }
    else if e.Finish? { TokensFinish(s, e, gen); }
    else if OnRequest(e) {
      RequestEffect(s, e, gen);
      TokensShrink(s, Step(s, e, gen));
    } else if e.Offer? || e.TakeOffer? { TokensOffer(s, e, gen); }
    else if e.CountFailure? || e.Drop? { TokensEnd(s, e, gen); }
    else {
      AccountEffect(s, e, gen);
      TokensShrink(s, Step(s, e, gen));
    }
  }

  /** No enrolment, no checked code and no accepted code is new. */
  lemma StepsShrink(s: State, s': State)
    requires Steps(s) && |s'.acct.enrolled| >= |s.acct.enrolled|
    requires forall u | u in s'.acct.totp :: u in s.acct.totp && s'.acct.totp[u] == s.acct.totp[u]
    requires forall r | r in s'.reqs && s'.reqs[r].Checked? :: r in s.reqs && s'.reqs[r] == s.reqs[r]
    requires s'.proofs == s.proofs || (s'.proofs != [] && s'.proofs[..|s'.proofs| - 1] == s.proofs && !s'.proofs[|s'.proofs| - 1].Totp?)
    ensures Steps(s')
  {
    forall i | 0 <= i < |s'.proofs| && s'.proofs[i].Totp? ensures i < |s.proofs| && s.proofs[i] == s'.proofs[i] {
      assert s'.proofs == s.proofs || s'.proofs[..|s'.proofs| - 1][i] == s.proofs[i];
    }
  }

  lemma StepsCheck(s: State, e: Event, gen: Codes)
    requires Steps(s) && Enabled(s, e) && e.Check?
    ensures Steps(Step(s, e, gen))
  {
    var row := s.reqs[e.req].row;
    SearchMeaning(gen, row.secret, s.reqs[e.req].code, row.lastStep, Quot(s.clock) - SKEW, Quot(s.clock) + SKEW);
    hide Search;
  }

  lemma RisingSnoc(ps: seq<Proof>, p: Proof)
    requires Rising(ps)
    requires forall i | 0 <= i < |ps| && ps[i].Totp? && p.Totp? && ps[i].row == p.row :: ps[i].step < p.step
    ensures Rising(ps + [p])
  {
  }

  lemma StepsAdvance(s: State, e: Event, gen: Codes)
    requires Steps(s) && Enabled(s, e) && e.Advance?
    ensures Steps(Step(s, e, gen))
  {
    var pc := s.reqs[e.req];
    if pc.user in s.acct.totp && s.acct.totp[pc.user].lastStep < pc.step {
      var row := s.acct.totp[pc.user];
      RisingSnoc(s.proofs, Totp(pc.user, row.id, pc.enrolment, pc.secret, pc.step, pc.at));
    }
    hide Rising;
    hide Near;
  }

  lemma StepsEnroll(s: State, e: Event, gen: Codes)
    requires Steps(s) && Enabled(s, e) && Stores(e)
    ensures Steps(Step(s, e, gen))
  {
    hide Rising;
    hide Near;
  }

  /** Other steps prove nothing, and no request comes to hold a checked or an accepted code by them. */
  ghost predicate ProvesNothing(s: State, s': State, e: Event) {
    s'.proofs == s.proofs && (!e.Finish? ==> s'.sessions == s.sessions)
    && (forall r | r in s'.reqs && (s'.reqs[r].Read? || s'.reqs[r].Checked? || s'.reqs[r].Verified?) ::
          r in s.reqs && s'.reqs[r] == s.reqs[r])
    && (!Stores(e) ==> s'.acct.enrolled == s.acct.enrolled && forall u | u in s'.acct.totp :: u in s.acct.totp && s'.acct.totp[u] == s.acct.totp[u])
  }

  predicate Stores(e: Event) { e.Enroll? && e.part.Store? }

  /** Only the storing of a row changes rows and enrolments. */
  lemma EnrollEffect(a: Accounts, ps: seq<Proof>, clock: int, part: Enrolling, gen: Codes)
    requires EnrollEnabled(a, part)
    ensures var b := EnrollStep(a, ps, clock, part, gen);
            b.codes == a.codes && b.nextCode == a.nextCode
            && (!part.Store? ==> b.totp == a.totp && b.enrolled == a.enrolled)
  {
    hide Verify;
  }

  lemma AccountEffect(s: State, e: Event, gen: Codes)
    requires Enabled(s, e) && OnAccount(e)
    ensures ProvesNothing(s, Step(s, e, gen), e)
    ensures var s' := Step(s, e, gen); s' == s.(clock := s'.clock, acct := s'.acct)
  {
    if e.Enroll? { EnrollEffect(s.acct, s.proofs, s.clock, e.part, gen); }
    hide EnrollStep;
  }

  lemma OtherEffect(s: State, e: Event, gen: Codes)
    requires Enabled(s, e) && !OnRequest(e)
    ensures ProvesNothing(s, Step(s, e, gen), e)
  {
    hide UpdateIn;
    hide PutIn;
    if OnAccount(e) { AccountEffect(s, e, gen); }
  }

  lemma StepsStep(s: State, e: Event, gen: Codes)
    requires Steps(s) && Enabled(s, e)
    ensures Steps(Step(s, e, gen))
  {
    hide Steps;
    hide Step;
    hide Enabled;
    if e.Check? { StepsCheck(s, e, gen); }
    else if e.Advance? { StepsAdvance(s, e, gen); }
    else if Stores(e) { StepsEnroll(s, e, gen); }
    else {
      if OnRequest(e) { RequestEffect(s, e, gen); } else { OtherEffect(s, e, gen); }
      StepsShrink(s, Step(s, e, gen));
    }
  }

  /** No enrolment, code in flight or accepted code is new; rows may have moved on a step. */
  lemma OwnersShrink(s: State, s': State)
    requires Owners(s) && s'.acct.enrolled == s.acct.enrolled
    requires forall u | u in s'.acct.totp :: u in s.acct.totp && s'.acct.totp[u].id == s.acct.totp[u].id && s'.acct.totp[u].secret == s.acct.totp[u].secret
    requires forall r | r in s'.reqs && s'.reqs[r].Read? ::
               (r in s.reqs && s'.reqs[r] == s.reqs[r]) || Owned(s, s'.reqs[r].user, s'.reqs[r].row.id, s'.reqs[r].row.secret)
    requires forall r | r in s'.reqs && s'.reqs[r].Checked? ::
               (r in s.reqs && s'.reqs[r] == s.reqs[r]) || Owned(s, s'.reqs[r].user, s'.reqs[r].enrolment, s'.reqs[r].secret)
    requires s'.proofs == s.proofs || (s'.proofs != [] && s'.proofs[..|s'.proofs| - 1] == s.proofs && !s'.proofs[|s'.proofs| - 1].Totp?)
    ensures Owners(s')
  {
    forall i | 0 <= i < |s'.proofs| && s'.proofs[i].Totp? ensures ProofOwned(s', s'.proofs[i]) {
      assert s'.proofs == s.proofs || s'.proofs[..|s'.proofs| - 1][i] == s.proofs[i];
      assert ProofOwned(s, s.proofs[i]);
    }
  }

  lemma OwnersCode(s: State, e: Event, gen: Codes)
    requires Owners(s) && Enabled(s, e) && (e.ReadTotp? || e.Check?)
    ensures Owners(Step(s, e, gen))
  {
    RequestEffect(s, e, gen);
    var s', pc := Step(s, e, gen), Step(s, e, gen).reqs[e.req];
    assert pc.Read? ==> Owned(s, pc.user, pc.row.id, pc.row.secret);
    assert pc.Checked? ==> Owned(s, pc.user, pc.enrolment, pc.secret) by { hide Verify; }
    hide Step;
    hide Owned;
    hide Owners;
    OwnersShrink(s, s');
  }

  lemma OwnersAdvance(s: State, req: nat, pc: Pc)
    requires Owners(s) && req in s.reqs && s.reqs[req] == pc && pc.Checked?
    ensures Owners(AdvanceStep(s, req, pc))
  {
    var s' := AdvanceStep(s, req, pc);
    forall u: nat, id: nat, x ensures Owned(s', u, id, x) <==> Owned(s, u, id, x) { }
    assert Owned(s, pc.user, pc.enrolment, pc.secret);
    assert pc.user in s.acct.totp ==>
        Owned(s, pc.user, s.acct.totp[pc.user].id, s.acct.totp[pc.user].secret) && pc.enrolment <= s.acct.totp[pc.user].id
        && s.acct.totp[pc.user].secret == s.acct.enrolled[s.acct.totp[pc.user].id].secret;
    hide Owned;
    forall i | 0 <= i < |s'.proofs| && s'.proofs[i].Totp? ensures ProofOwned(s', s'.proofs[i]) {
      if i < |s.proofs| { assert ProofOwned(s, s.proofs[i]); }
    }
  }

  lemma OwnersEnroll(s: State, e: Event, gen: Codes)
    requires Owners(s) && Enabled(s, e) && Stores(e)
    ensures Owners(Step(s, e, gen))
  {
    var s' := Step(s, e, gen);
    forall u: nat, id: nat, x | Owned(s, u, id, x) ensures Owned(s', u, id, x) { }
    forall i | 0 <= i < |s.proofs| && s.proofs[i].Totp? ensures ProofOwned(s', s.proofs[i]) {
      assert ProofOwned(s, s.proofs[i]);
    }
  }

  lemma OwnersStep(s: State, e: Event, gen: Codes)
    requires Owners(s) && Enabled(s, e)
    ensures Owners(Step(s, e, gen))
  {
    if e.Advance? { OwnersAdvance(s, e.req, s.reqs[e.req]); }
    hide Owners;
    hide AdvanceStep;
    if e.ReadTotp? || e.Check? { OwnersCode(s, e, gen); }
    else if Stores(e) { OwnersEnroll(s, e, gen); }
    else if OnRequest(e) && !e.Advance? {
      RequestEffect(s, e, gen);
      hide Step;
      OwnersShrink(s, Step(s, e, gen));
    } else if !e.Advance? {
      OtherEffect(s, e, gen);
      hide Step;
      OwnersShrink(s, Step(s, e, gen));
    }
  }

  /** No enrolment and no accepted code is new. */
  lemma KnownShrink(s: State, s': State)
    requires Known(s) && s'.acct.enrolled == s.acct.enrolled
    requires forall u | u in s'.acct.totp :: u in s.acct.totp && s'.acct.totp[u] == s.acct.totp[u]
    requires s'.proofs == s.proofs || exists p: Proof :: s'.proofs == s.proofs + [p] && !p.Totp?
    ensures Known(s')
  {
    forall user, secret ensures Accepted(s.proofs, user, secret) <= Accepted(s'.proofs, user, secret) {
    }
  }

  lemma KnownAdvance(s: State, req: nat, pc: Pc)
    requires Known(s) && req in s.reqs && pc.Checked?
    ensures Known(AdvanceStep(s, req, pc))
  {
    var s' := AdvanceStep(s, req, pc);
    forall user, secret ensures Accepted(s.proofs, user, secret) <= Accepted(s'.proofs, user, secret) {
    }
    forall p | p in s'.proofs ensures p in s.proofs || p == s'.proofs[|s.proofs|] { }
    hide Accepted;
  }

  lemma KnownStore(s: State, id: nat, user: nat, secret: string, step: int)
    requires Known(s)
    ensures Known(s.(acct := StoreRow(s.acct, s.proofs, id, user, secret, step)))
  {
    forall p | p in s.proofs && p.Totp? && p.user == user && p.secret == secret
      ensures p.step in Accepted(s.proofs, user, secret)
    {
    }
    hide Accepted;
  }

  lemma KnownStep(s: State, e: Event, gen: Codes)
    requires Known(s) && Enabled(s, e)
    ensures Known(Step(s, e, gen))
  {
    hide Known;
    hide StoreRow;
    hide AdvanceStep;
    if e.Advance? {
      KnownAdvance(s, e.req, s.reqs[e.req]);
    } else if Stores(e) {
      var c := s.acct.confirms[e.part.id];
      KnownStore(s, e.part.id, c.user, c.secret, c.step);
    } else {
      if OnRequest(e) { RequestEffect(s, e, gen); } else { OtherEffect(s, e, gen); }
      hide Step;
      KnownShrink(s, Step(s, e, gen));
    }
  }

  lemma SpentShrink(s: State, s': State)
    requires Spent(s) && s'.acct.nextCode >= s.acct.nextCode
    requires forall c | c in s'.acct.codes :: if c in s.acct.codes then s'.acct.codes[c] == s.acct.codes[c] else s.acct.nextCode <= c < s'.acct.nextCode
    requires s'.proofs == s.proofs || (s'.proofs != [] && s'.proofs[..|s'.proofs| - 1] == s.proofs && !s'.proofs[|s'.proofs| - 1].Recovery?)
    ensures Spent(s')
  {
    forall i | 0 <= i < |s'.proofs| && s'.proofs[i].Recovery? ensures i < |s.proofs| && s.proofs[i] == s'.proofs[i] {
      assert s'.proofs == s.proofs || s'.proofs[..|s'.proofs| - 1][i] == s.proofs[i];
    }
  }

  lemma SpentSpend(s: State, e: Event, gen: Codes)
    requires Spent(s) && Enabled(s, e) && e.Spend?
    ensures Spent(Step(s, e, gen))
  {
  }

  lemma SpentElse(s: State, e: Event, gen: Codes)
    requires Spent(s) && Enabled(s, e) && !OnRequest(e)
    ensures Spent(Step(s, e, gen))
  {
    if e.Enroll? { EnrollEffect(s.acct, s.proofs, s.clock, e.part, gen); }
    hide EnrollStep;
    SpentShrink(s, Step(s, e, gen));
  }

  lemma SpentStep(s: State, e: Event, gen: Codes)
    requires Spent(s) && Enabled(s, e)
    ensures Spent(Step(s, e, gen))
  {
    hide Spent;
    hide Step;
    hide Enabled;
    if e.Spend? { SpentSpend(s, e, gen); }
    else if OnRequest(e) {
      RequestEffect(s, e, gen);
      SpentShrink(s, Step(s, e, gen));
    }
    else { SpentElse(s, e, gen); }
  }

  /** At most one passkey challenge moved, from one place to another. */
  lemma OffersMove(s: State, s': State, source: Holder, target: Holder)
    requires Offers(s) && s'.nextOffer == s.nextOffer
    requires forall h :: h != target && Held(s', h).Some? ==> Held(s', h) == Held(s, h)
    requires Held(s', target).Some? ==> Held(s', target) == Held(s, source) && (source == target || Held(s', source).None?)
    ensures Offers(s')
  {
    hide Held;
  }

  lemma OffersOffer(s: State, e: Event, gen: Codes)
    requires Offers(s) && Enabled(s, e) && e.Offer?
    ensures Offers(Step(s, e, gen))
  {
    var s' := Step(s, e, gen);
    forall h | h != OnLogin(e.token) ensures Held(s', h) == Held(s, h) { }
    assert Held(s', OnLogin(e.token)).Some? ==> Held(s', OnLogin(e.token)) == Some(s.nextOffer);
    hide Held;
    hide Step;
    assert s'.nextOffer == s.nextOffer + 1;
  }

  lemma OffersTaken(s: State, req: nat, pc: Pc)
    requires Offers(s) && req in s.reqs && s.reqs[req] == pc && pc.Got?
    ensures Offers(TakeTheOffer(s, req, pc))
  {
    hide Offers;
    OffersMove(s, TakeTheOffer(s, req, pc), OnLogin(pc.token), With(req));
  }

  lemma OffersTake(s: State, e: Event, gen: Codes)
    requires Offers(s) && Enabled(s, e) && e.TakeOffer?
    ensures Offers(Step(s, e, gen))
  {
    hide Offers;
    hide TakeTheOffer;
    OffersTaken(s, e.req, s.reqs[e.req]);
  }

  lemma OffersJudge(s: State, e: Event, gen: Codes)
    requires Offers(s) && Enabled(s, e) && e.Judge?
    ensures Offers(Step(s, e, gen))
  {
    hide Offers;
    OffersMove(s, Step(s, e, gen), With(e.req), Behind(|s.proofs|));
  }

  lemma OffersLogin(s: State, e: Event, gen: Codes)
    requires Offers(s) && Enabled(s, e) && (e.Issue? || e.Begin? || e.Finish? || e.CountFailure? || e.Drop?)
    ensures Offers(Step(s, e, gen))
  {
    hide Offers;
    OffersMove(s, Step(s, e, gen), Behind(0), Behind(0));
  }

  lemma OffersAccount(s: State, e: Event, gen: Codes)
    requires Offers(s) && Enabled(s, e) && OnAccount(e)
    ensures Offers(Step(s, e, gen))
  {
    if e.Enroll? { EnrollEffect(s.acct, s.proofs, s.clock, e.part, gen); }
    hide EnrollStep;
    hide Offers;
    OffersMove(s, Step(s, e, gen), Behind(0), Behind(0));
  }

  lemma OffersStep(s: State, e: Event, gen: Codes)
    requires Offers(s) && Enabled(s, e)
    ensures Offers(Step(s, e, gen))
  {
    hide Offers;
    hide Step;
    hide Enabled;
    if e.Offer? { OffersOffer(s, e, gen); }
    else if e.TakeOffer? { OffersTake(s, e, gen); }
    else if e.Judge? { OffersJudge(s, e, gen); }
    else if OnRequest(e) {
      RequestEffect(s, e, gen);
      OffersMove(s, Step(s, e, gen), With(e.req), With(e.req));
    }
    else if OnAccount(e) { OffersAccount(s, e, gen); }
    else { OffersLogin(s, e, gen); }
  }

  lemma ProofsShrink(s: State, s': State)
    requires Proofs(s) && s'.proofs == s.proofs && s'.sessions == s.sessions
    requires forall r | r in s'.reqs && s'.reqs[r].Verified? :: r in s.reqs && s'.reqs[r] == s.reqs[r]
    ensures Proofs(s')
  {
  }

  /** A newly accepted factor goes to the request that brought it. */
  lemma ProofsAccept(s: State, req: nat, p: Proof)
    requires Proofs(s) && req in s.reqs && p.user == s.reqs[req].user
    ensures Proofs(Accept(s, req, p))
  {
  }

  lemma ProofsFinish(s: State, e: Event, gen: Codes)
    requires Proofs(s) && Enabled(s, e) && e.Finish?
    ensures Proofs(Step(s, e, gen))
  {
  }

  lemma ProofsRequest(s: State, e: Event, gen: Codes)
    requires Proofs(s) && Enabled(s, e) && OnRequest(e)
    ensures Proofs(Step(s, e, gen))
  {
    hide Proofs;
    if e.Advance? {
      var pc := s.reqs[e.req];
      if pc.user in s.acct.totp && s.acct.totp[pc.user].lastStep < pc.step {
        var row := s.acct.totp[pc.user];
        var t := s.(acct := s.acct.(totp := s.acct.totp[pc.user := row.(lastStep := pc.step)]));
        ProofsFrame(s, t);
        ProofsAccept(t, e.req, Totp(pc.user, row.id, pc.enrolment, pc.secret, pc.step, pc.at));
      } else {
        ProofsShrink(s, Step(s, e, gen));
      }
    } else if e.Spend? && e.pick.Some? {
      var t := s.(acct := s.acct.(codes := s.acct.codes[e.pick.value := s.acct.codes[e.pick.value].(used := true)]));
      ProofsFrame(s, t);
      ProofsAccept(t, e.req, Recovery(s.reqs[e.req].user, e.pick.value));
    } else if e.Judge? && e.good {
      ProofsAccept(s, e.req, Passkey(s.reqs[e.req].user, s.reqs[e.req].id));
    } else {
      ProofsShrink(s, Step(s, e, gen));
    }
  }

  lemma ProofsFrame(s: State, s': State)
    requires Proofs(s) && s'.proofs == s.proofs && s'.sessions == s.sessions && s'.reqs == s.reqs
    ensures Proofs(s')
  {
  }

  lemma ProofsStep(s: State, e: Event, gen: Codes)
    requires Proofs(s) && Enabled(s, e)
    ensures Proofs(Step(s, e, gen))
  {
    hide Proofs;
    hide Step;
    hide Enabled;
    if e.Finish? { ProofsFinish(s, e, gen); }
    else if OnRequest(e) { ProofsRequest(s, e, gen); }
    else {
      OtherEffect(s, e, gen);
      ProofsShrink(s, Step(s, e, gen));
    }
  }

  // ---- runs ------------------------------------------------------------------------------------------

  ghost predicate IsRun(s: State, es: seq<Event>, gen: Codes)
    decreases |es|
  {
    es == [] || (Enabled(s, es[0]) && IsRun(Step(s, es[0], gen), es[1..], gen))
  }

  function After(s: State, es: seq<Event>, gen: Codes): State
    requires IsRun(s, es, gen)
    decreases |es|
  {
    if es == [] then s else After(Step(s, es[0], gen), es[1..], gen)
  }

  ghost predicate Inv(s: State) {
    Tokens(s) && Steps(s) && Owners(s) && Known(s) && Spent(s) && Offers(s) && Proofs(s)
  }

  lemma StepInv(s: State, e: Event, gen: Codes)
    requires Inv(s) && Enabled(s, e)
    ensures Inv(Step(s, e, gen))
  {
    hide Tokens;
    hide Steps;
    hide Owners;
    hide Known;
    hide Spent;
    hide Offers;
    hide Proofs;
    hide Step;
    TokensStep(s, e, gen);
    StepsStep(s, e, gen);
    OwnersStep(s, e, gen);
    KnownStep(s, e, gen);
    SpentStep(s, e, gen);
    OffersStep(s, e, gen);
    ProofsStep(s, e, gen);
  }

  lemma {:induction false} RunInv(s: State, es: seq<Event>, gen: Codes)
    requires Inv(s) && IsRun(s, es, gen)
    ensures Inv(After(s, es, gen))
    decreases |es|
  {
    hide Inv;
    hide Step;
    if es != [] {
      StepInv(s, es[0], gen);
      RunInv(Step(s, es[0], gen), es[1..], gen);
    }
  }

  lemma InitInv()
    ensures Inv(Init())
  {
    forall h ensures Held(Init(), h).None? { }
  }

  ghost predicate Reachable(s: State, gen: Codes) {
    exists es :: IsRun(Init(), es, gen) && After(Init(), es, gen) == s
  }

  lemma ReachableInv(s: State, gen: Codes)
    requires Reachable(s, gen)
    ensures Inv(s)
  {
    var es :| IsRun(Init(), es, gen) && After(Init(), es, gen) == s;
    InitInv();
    RunInv(Init(), es, gen);
  }

  /** A challenge yields at most one session, within its lifetime, for the account it was issued to. */
  lemma OneSessionPerChallenge(s: State, gen: Codes)
    requires Reachable(s, gen)
    ensures forall i, j | 0 <= i < j < |s.sessions| :: s.sessions[i].token != s.sessions[j].token
    ensures forall x | x in s.sessions ::
              x.token in s.issued && x.user == s.issued[x.token].user && x.at < s.issued[x.token].at + 5 * 60
  {
    ReachableInv(s, gen);
    forall x | x in s.sessions ensures SessionOk(s, x) {
      var i :| 0 <= i < |s.sessions| && s.sessions[i] == x;
    }
  }

  /** A confirmation takes the user's live pending secret, is approved exactly by a code of it, however old the last
      step, and puts a row with that step in the place of whatever row the user had. */
  lemma ConfirmationPlainly(a: Accounts, ps: seq<Proof>, clock: int, id: nat, user: nat, code: string, gen: Codes)
    ensures id !in a.confirms && user in a.setups && clock < a.setups[user].expires ==>
              var b := EnrollStep(a, ps, clock, Ask(id, user, code), gen);
              b.confirms == a.confirms[id := Asked(user, a.setups[user].v, code)] && b.setups == a.setups
    ensures id in a.confirms && a.confirms[id].Asked? ==>
              var c, b := a.confirms[id], EnrollStep(a, ps, clock, Approve(id), gen);
              var step := Search(gen, c.secret, c.code, 0, Quot(clock) - 1, Quot(clock) + 1);
              if |c.code| == 6 && step.Some? then b.confirms == a.confirms[id := Approved(c.user, c.secret, step.value)]
              else b.confirms == a.confirms - {id}
    ensures id in a.confirms && a.confirms[id].Approved? ==>
              var c, b := a.confirms[id], EnrollStep(a, ps, clock, Store(id), gen);
              b.totp == a.totp[c.user := Row(|a.enrolled|, c.secret, c.step)]
  {
    hide Search;
  }

  /** A wrong answer is counted on the live challenge, and the fifth throws it away. */
  lemma WrongAnswersCount(s: State, req: nat, gen: Codes)
    requires req in s.reqs && s.reqs[req].Refused?
    requires Live(s.challenges, s.reqs[req].token, s.clock)
    ensures var t := s.reqs[req].token;
            var c, after := s.challenges[t].v, Step(s, CountFailure(req), gen).challenges;
            if c.fails < 4 then t in after && after[t].v == c.(fails := c.fails + 1) && after[t].expires == s.challenges[t].expires
            else t !in after
  {
  }

  /** A recovery code is spent at most once. */
  lemma CodeSpentOnce(s: State, gen: Codes)
    requires Reachable(s, gen)
    ensures forall i, j | 0 <= i < j < |s.proofs| && s.proofs[i].Recovery? && s.proofs[j].Recovery? ::
              s.proofs[i].id != s.proofs[j].id
  {
    ReachableInv(s, gen);
  }

  /** On one enrolment's row the accepted steps rise strictly, and each lies within one step of the
      clock read when its code was checked. */
  lemma AcceptedStepsRise(s: State, gen: Codes)
    requires Reachable(s, gen)
    ensures Rising(s.proofs)
    ensures forall p | p in s.proofs && p.Totp? :: Near(p.step, p.at)
  {
    ReachableInv(s, gen);
    forall p | p in s.proofs && p.Totp? ensures Near(p.step, p.at) {
      var i :| 0 <= i < |s.proofs| && s.proofs[i] == p;
    }
  }

  lemma {:induction false} RunSnoc(s: State, es: seq<Event>, e: Event, gen: Codes)
    requires IsRun(s, es, gen) && Enabled(After(s, es, gen), e)
    ensures IsRun(s, es + [e], gen) && After(s, es + [e], gen) == Step(After(s, es, gen), e, gen)
    decreases |es|
  {
    if es == [] {
      assert (es + [e])[1..] == [];
    } else {
      RunSnoc(Step(s, es[0], gen), es[1..], e, gen);
      assert (es + [e])[1..] == es[1..] + [e];
    }
  }

  lemma ReachStep(s: State, e: Event, gen: Codes)
    requires Reachable(s, gen) && Enabled(s, e)
    ensures Reachable(Step(s, e, gen), gen)
  {
    var es :| IsRun(Init(), es, gen) && After(Init(), es, gen) == s;
    RunSnoc(Init(), es, e, gen);
  }
}
