/** Every run of enrolment, confirmation, regeneration, disabling and login with a second factor. */
module MfaRuns {
  import opened Common
  import opened Mfa
  import Sessions

  datatype Event =
    | Register(u: UserId, password: nat)
    | SetActive(u: UserId, active: bool)
    | BeginEnrolment(u: UserId, password: nat, secret: Secret, now: Time)
    | ConfirmEnrolment(u: UserId, code: Code, hashes: seq<Hash>, now: Time)
    | RegenerateCodes(u: UserId, password: nat, code: Code, hashes: seq<Hash>, now: Time)
    | DisableFactor(u: UserId, password: nat, code: Code, now: Time)
    | StartLogin(u: UserId, primary: Primary, device: string, token: Token, now: Time)
    | FinishLogin(token: Token, code: Code, now: Time)

  /** A TOTP that was accepted: for which secret and step, on which input, and when. */
  datatype Acceptance = Acceptance(secret: Secret, counter: int, code: Code, at: Time)

  /** The tables, with everything ever accepted, spent or generated. */
  datatype System = System(
    db: Db,
    accepted: seq<Acceptance>,
    spent: seq<Hash>,
    secrets: set<Secret>,
    hashes: set<Hash>)

  function Start(): System { System(Empty(), [], [], {}, {}) }

  /** Generated values are fresh, and as many recovery codes are drawn as the settings say. */
  predicate FreshHashes(s: System, cfg: Settings, hashes: seq<Hash>) {
    |hashes| == cfg.codeCount && forall h :: h in hashes ==> h !in s.hashes
  }

  predicate Enabled(s: System, cfg: Settings, e: Event) {
    match e
    case Register(u, _) => u !in s.db.users
    case SetActive(u, _) => u in s.db.users
    case BeginEnrolment(_, _, secret, _) => secret !in s.secrets
    case ConfirmEnrolment(_, _, hashes, _) => FreshHashes(s, cfg, hashes)
    case RegenerateCodes(_, _, _, hashes, _) => FreshHashes(s, cfg, hashes)
    case StartLogin(u, _, _, _, _) => u in s.db.users
    case _ => true
  }

  ghost function Apply(db: Db, otp: Authenticator, cfg: Settings, e: Event): (Db, Outcome) {
    match e
    case Register(u, password) =>
      (db.(users := db.users[u := User(true, password, None, None, None, None)]), Done(None))
    case SetActive(u, active) =>
      if u in db.users then (db.(users := db.users[u := db.users[u].(active := active)]), Done(None)) else (db, Unauthorized)
    case BeginEnrolment(u, password, secret, now) => Begin(db, cfg, u, password, secret, now)
    case ConfirmEnrolment(u, code, hashes, now) => Confirm(db, otp, cfg, u, code, hashes, now)
    case RegenerateCodes(u, password, code, hashes, now) => Regenerate(db, otp, cfg, u, password, code, hashes, now)
    case DisableFactor(u, password, code, now) => Disable(db, otp, cfg, u, password, code, now)
    case StartLogin(u, primary, device, token, now) => Prepare(db, cfg, u, primary, device, token, now)
    case FinishLogin(token, code, now) => Verify(db, otp, cfg, token, code, now)
  }

  function Elements(xs: seq<Hash>): set<Hash> { set x | x in xs }

  function Generated(e: Event): (set<Secret>, set<Hash>) {
    match e
    case BeginEnrolment(_, _, secret, _) => ({secret}, {})
    case ConfirmEnrolment(_, _, hashes, _) => ({}, Elements(hashes))
    case RegenerateCodes(_, _, _, hashes, _) => ({}, Elements(hashes))
    case _ => ({}, {})
  }

  function CodeOf(e: Event): Code {
    match e
    case ConfirmEnrolment(_, code, _, _) => code
    case RegenerateCodes(_, _, code, _, _) => code
    case DisableFactor(_, _, code, _) => code
    case FinishLogin(_, code, _) => code
    case _ => Code(None, None)
  }

  function TimeOf(e: Event): Time {
    if e.Register? || e.SetActive? then 0 else e.now
  }

  /** The database and the books after an operation of event `e`. */
  function Recorded(s: System, e: Event, db: Db, outcome: Outcome): System {
    var factor := if outcome.Done? then outcome.factor else None;
    System(
      db,
      if factor.Some? && factor.value.ByTotp?
      then s.accepted + [Acceptance(factor.value.secret, factor.value.counter, CodeOf(e), TimeOf(e))] else s.accepted,
      if factor.Some? && factor.value.ByRecovery? then s.spent + [factor.value.hash] else s.spent,
      s.secrets + Generated(e).0,
      s.hashes + Generated(e).1)
  }

  ghost function Next(s: System, otp: Authenticator, cfg: Settings, e: Event): System {
    if !Enabled(s, cfg, e) then s
    else
      var (db, outcome) := Apply(s.db, otp, cfg, e);
      Recorded(s, e, db, outcome)
  }

  ghost function Run(s: System, otp: Authenticator, cfg: Settings, events: seq<Event>): System {
    if events == [] then s else Next(Run(s, otp, cfg, events[..|events| - 1]), otp, cfg, events[|events| - 1])
  }

  // ---- The invariant ----

  datatype Phase = Off | Pending | On | Broken

  function PhaseOf(user: User): Phase {
    if user.secret.None? && user.pendingSince.None? && user.enabledAt.None? && user.lastCounter.None? then Off
    else if user.secret.Some? && user.pendingSince.Some? && user.enabledAt.None? && user.lastCounter.None? then Pending
    else if user.secret.Some? && user.pendingSince.None? && user.enabledAt.Some? && user.lastCounter.Some? then On
    else Broken
  }

  /** Off, pending or on; on exactly with a full set of recovery rows, and otherwise with none. */
  predicate UserOk(user: User, rows: set<Hash>, n: nat) {
    && PhaseOf(user) != Broken
    && |rows| == (if PhaseOf(user) == On then n else 0)
  }

  ghost predicate UsersOk(users: map<UserId, User>, codes: map<Hash, Recovery>, n: nat) {
    forall u :: u in users ==> UserOk(users[u], Rows(codes, u), n)
  }

  /** Secrets are not shared, and all were generated. */
  ghost predicate SecretsOk(users: map<UserId, User>, secrets: set<Secret>) {
    && (forall u :: u in users && users[u].secret.Some? ==> users[u].secret.value in secrets)
    && (forall u, v :: u in users && v in users && u != v && users[u].secret.Some? ==> users[u].secret != users[v].secret)
  }

  predicate Genuine(otp: Authenticator, a: Acceptance) {
    a.code.digits.Some? && Matches(otp, a.secret, a.code.digits.value, a.at, a.counter)
  }

  ghost predicate LogOk(otp: Authenticator, accepted: seq<Acceptance>, secrets: set<Secret>) {
    && (forall i :: 0 <= i < |accepted| ==> Genuine(otp, accepted[i]) && accepted[i].secret in secrets)
    && (forall i, j :: 0 <= i < j < |accepted| && accepted[i].secret == accepted[j].secret ==>
          accepted[i].counter < accepted[j].counter)
  }

  /** The stored counter of a secret is not behind anything accepted for it. */
  ghost predicate CountersOk(users: map<UserId, User>, accepted: seq<Acceptance>) {
    forall u, i :: u in users && 0 <= i < |accepted| && users[u].secret == Some(accepted[i].secret) ==>
      Used(users[u].lastCounter, accepted[i].counter)
  }

  ghost predicate CodesOk(users: map<UserId, User>, codes: map<Hash, Recovery>, spent: seq<Hash>, hashes: set<Hash>) {
    && Distinct(spent)
    && (forall h :: h in spent ==> h in hashes)
    && (forall h :: h in codes ==> h in hashes && codes[h].userId in users)
    && (forall h :: h in codes && codes[h].usedAt.None? ==> h !in spent)
  }

  ghost predicate OneOpen(challenges: map<Token, Challenge>) {
    forall t, t' :: t in challenges && t' in challenges
                    && challenges[t].userId == challenges[t'].userId
                    && challenges[t].consumedAt.None?
                    && challenges[t'].consumedAt.None?
                    ==> t == t'
  }

  ghost predicate SessionsOk(sessions: seq<Session>, challenges: map<Token, Challenge>) {
    && (forall i :: 0 <= i < |sessions| ==>
          && sessions[i].challenge in challenges
          && challenges[sessions[i].challenge].consumedAt.Some?
          && challenges[sessions[i].challenge].userId == sessions[i].userId)
    && (forall i, j :: 0 <= i < j < |sessions| ==> sessions[i].challenge != sessions[j].challenge)
  }

  ghost predicate Inv(s: System, otp: Authenticator, cfg: Settings) {
    && UsersOk(s.db.users, s.db.codes, cfg.codeCount)
    && SecretsOk(s.db.users, s.secrets)
    && LogOk(otp, s.accepted, s.secrets)
    && CountersOk(s.db.users, s.accepted)
    && CodesOk(s.db.users, s.db.codes, s.spent, s.hashes)
    && OneOpen(s.db.challenges)
    && SessionsOk(s.db.sessions, s.db.challenges)
  }

  // ---- Recovery rows ----

  lemma {:induction false} DistinctCount(xs: seq<Hash>)
    requires Distinct(xs)
    ensures |Elements(xs)| == |xs|
  {
    if xs != [] {
      var rest, last := xs[..|xs| - 1], xs[|xs| - 1];
      assert xs == rest + [last];
      DistinctCount(rest);
      assert last !in rest;
      assert Elements(xs) == Elements(rest) + {last};
    }
  }

  lemma RowsReplaced(codes: map<Hash, Recovery>, u: UserId, hashes: seq<Hash>)
    requires Insertable(codes, u, hashes)
    ensures |Rows(Replaced(codes, u, hashes), u)| == |hashes|
    ensures forall v :: v != u ==> Rows(Replaced(codes, u, hashes), v) == Rows(codes, v)
  {
    DistinctCount(hashes);
    assert Rows(Replaced(codes, u, hashes), u) == Elements(hashes);
  }

  lemma RowsWithout(codes: map<Hash, Recovery>, u: UserId)
    ensures Rows(WithoutRows(codes, u), u) == {}
    ensures forall v :: v != u ==> Rows(WithoutRows(codes, u), v) == Rows(codes, v)
  {
  }

  lemma RowsSpent(codes: map<Hash, Recovery>, hash: Hash, now: Time)
    requires hash in codes
    ensures forall v :: Rows(Spend(codes, hash, now), v) == Rows(codes, v)
  {
  }

  // ---- What a step does to each part ----

  lemma UsersStep(users: map<UserId, User>, codes: map<Hash, Recovery>, codes': map<Hash, Recovery>, n: nat,
                  u: UserId, user: User)
    requires UsersOk(users, codes, n) && UserOk(user, Rows(codes', u), n)
    requires forall v :: v != u ==> Rows(codes', v) == Rows(codes, v)
    ensures UsersOk(users[u := user], codes', n)
  {
  }

  lemma SecretsStep(users: map<UserId, User>, secrets: set<Secret>, secrets': set<Secret>, u: UserId, user: User)
    requires SecretsOk(users, secrets) && secrets <= secrets'
    requires user.secret.Some? ==>
      || (u in users && user.secret == users[u].secret)
      || (user.secret.value !in secrets && user.secret.value in secrets')
    ensures SecretsOk(users[u := user], secrets')
  {
  }

  lemma LogStep(otp: Authenticator, users: map<UserId, User>, accepted: seq<Acceptance>, secrets: set<Secret>,
                secrets': set<Secret>, u: UserId, a: Acceptance)
    requires LogOk(otp, accepted, secrets) && CountersOk(users, accepted) && SecretsOk(users, secrets)
    requires u in users && users[u].secret == Some(a.secret) && !Used(users[u].lastCounter, a.counter)
    requires Genuine(otp, a) && secrets <= secrets'
    ensures LogOk(otp, accepted + [a], secrets')
  {
    var all := accepted + [a];
    forall i, j | 0 <= i < j < |all| && all[i].secret == all[j].secret
      ensures all[i].counter < all[j].counter
    {
      if j == |accepted| {
        assert Used(users[u].lastCounter, accepted[i].counter);
      }
    }
  }

  /** After an acceptance the account holds its counter, or has given the secret up. */
  lemma CountersStep(users: map<UserId, User>, accepted: seq<Acceptance>, secrets: set<Secret>,
                     u: UserId, user: User, a: Acceptance)
    requires CountersOk(users, accepted) && SecretsOk(users, secrets)
    requires u in users && users[u].secret == Some(a.secret) && !Used(users[u].lastCounter, a.counter)
    requires user.secret.None? || (user.secret == users[u].secret && user.lastCounter == Some(a.counter))
    ensures CountersOk(users[u := user], accepted + [a])
  {
    var all, users' := accepted + [a], users[u := user];
    assert forall v :: v in users && v != u ==> users[v].secret != Some(a.secret);
    forall v, i | v in users' && 0 <= i < |all| && users'[v].secret == Some(all[i].secret)
      ensures Used(users'[v].lastCounter, all[i].counter)
    {
      if i < |accepted| && v == u {
        assert Used(users[u].lastCounter, accepted[i].counter);
      }
    }
  }

  /** Without an acceptance: the counter stays, or the secret goes or is new. */
  lemma CountersKept(otp: Authenticator, users: map<UserId, User>, accepted: seq<Acceptance>, secrets: set<Secret>,
                     u: UserId, user: User)
    requires CountersOk(users, accepted) && LogOk(otp, accepted, secrets)
    requires user.secret.Some? ==>
      || (u in users && user.secret == users[u].secret && user.lastCounter == users[u].lastCounter)
      || user.secret.value !in secrets
    ensures CountersOk(users[u := user], accepted)
  {
  }

  lemma CodesStep(users: map<UserId, User>, users': map<UserId, User>, codes: map<Hash, Recovery>, codes': map<Hash, Recovery>,
                  spent: seq<Hash>, hashes: set<Hash>, hashes': set<Hash>)
    requires CodesOk(users, codes, spent, hashes) && users.Keys <= users'.Keys && hashes <= hashes'
    requires forall h :: h in codes' ==>
      (h in codes && codes'[h] == codes[h]) || (h in hashes' - hashes && codes'[h].userId in users')
    ensures CodesOk(users', codes', spent, hashes')
  {
  }

  lemma CodesSpent(users: map<UserId, User>, codes: map<Hash, Recovery>, codes': map<Hash, Recovery>,
                   spent: seq<Hash>, hashes: set<Hash>, h: Hash)
    requires CodesOk(users, codes, spent, hashes)
    requires h in codes && codes[h].usedAt.None?
    requires forall g :: g in codes' ==> g in codes && codes'[g].userId == codes[g].userId
    requires forall g :: g in codes' ==> if g == h then codes'[g].usedAt.Some? else codes'[g] == codes[g]
    ensures CodesOk(users, codes', spent + [h], hashes)
  {
    DistinctAppend(spent, h);
  }

  // ---- Every event keeps the invariant ----

  lemma RegisterKeeps(s: System, otp: Authenticator, cfg: Settings, e: Event)
    requires Inv(s, otp, cfg) && Enabled(s, cfg, e) && (e.Register? || e.SetActive?)
    ensures Inv(Next(s, otp, cfg, e), otp, cfg)
  {
    var s' := Next(s, otp, cfg, e);
    var user := s'.db.users[e.u];
    if e.Register? {
      forall h | h in s.db.codes ensures s.db.codes[h].userId != e.u {
      }
      assert Rows(s.db.codes, e.u) == {};
    }
    UsersStep(s.db.users, s.db.codes, s.db.codes, cfg.codeCount, e.u, user);
    SecretsStep(s.db.users, s.secrets, s'.secrets, e.u, user);
    CountersKept(otp, s.db.users, s.accepted, s.secrets, e.u, user);
    CodesStep(s.db.users, s'.db.users, s.db.codes, s.db.codes, s.spent, s.hashes, s'.hashes);
  }

  lemma BeginKeeps(s: System, otp: Authenticator, cfg: Settings, e: Event)
    requires Inv(s, otp, cfg) && Enabled(s, cfg, e) && e.BeginEnrolment?
    ensures Inv(Next(s, otp, cfg, e), otp, cfg)
  {
    var s' := Next(s, otp, cfg, e);
    if Apply(s.db, otp, cfg, e).1.Done? {
      var user := s'.db.users[e.u];
      RowsWithout(s.db.codes, e.u);
      UsersStep(s.db.users, s.db.codes, s'.db.codes, cfg.codeCount, e.u, user);
      SecretsStep(s.db.users, s.secrets, s'.secrets, e.u, user);
      CountersKept(otp, s.db.users, s.accepted, s.secrets, e.u, user);
      CodesStep(s.db.users, s'.db.users, s.db.codes, s'.db.codes, s.spent, s.hashes, s'.hashes);
    }
  }

  lemma RevokedSessionsOk(sessions: seq<Session>, challenges: map<Token, Challenge>, u: UserId, reason: Sessions.Reason)
    requires SessionsOk(sessions, challenges)
    ensures SessionsOk(RevokeSessions(sessions, u, reason), challenges)
  {
    var after := RevokeSessions(sessions, u, reason);
    assert forall i :: 0 <= i < |after| ==>
      after[i].challenge == sessions[i].challenge && after[i].userId == sessions[i].userId;
  }

  /** Confirmation and regeneration: a step is accepted and the recovery rows are replaced. */
  lemma ReplacementKeeps(s: System, s': System, otp: Authenticator, cfg: Settings, u: UserId, user: User,
                         a: Acceptance, hashes: seq<Hash>)
    requires Inv(s, otp, cfg) && u in s.db.users && Genuine(otp, a)
    requires s.db.users[u].secret == user.secret == Some(a.secret) && !Used(s.db.users[u].lastCounter, a.counter)
    requires PhaseOf(user) == On && user.lastCounter == Some(a.counter)
    requires FreshHashes(s, cfg, hashes) && Insertable(s.db.codes, u, hashes)
    requires s'.db.users == s.db.users[u := user] && s'.db.codes == Replaced(s.db.codes, u, hashes)
    requires s'.accepted == s.accepted + [a] && s'.spent == s.spent
    requires s'.secrets == s.secrets && s'.hashes == s.hashes + Elements(hashes)
    ensures UsersOk(s'.db.users, s'.db.codes, cfg.codeCount)
    ensures SecretsOk(s'.db.users, s'.secrets)
    ensures LogOk(otp, s'.accepted, s'.secrets)
    ensures CountersOk(s'.db.users, s'.accepted)
    ensures CodesOk(s'.db.users, s'.db.codes, s'.spent, s'.hashes)
  {
    RowsReplaced(s.db.codes, u, hashes);
    UsersStep(s.db.users, s.db.codes, s'.db.codes, cfg.codeCount, u, user);
    SecretsStep(s.db.users, s.secrets, s'.secrets, u, user);
    LogStep(otp, s.db.users, s.accepted, s.secrets, s'.secrets, u, a);
    CountersStep(s.db.users, s.accepted, s.secrets, u, user, a);
    CodesStep(s.db.users, s'.db.users, s.db.codes, s'.db.codes, s.spent, s.hashes, s'.hashes);
  }

  /** A refused operation changes nothing but what was generated for it. */
  lemma RefusalKeeps(s: System, otp: Authenticator, cfg: Settings, e: Event, r: Outcome)
    requires Inv(s, otp, cfg) && !r.Done?
    ensures Inv(Recorded(s, e, s.db, r), otp, cfg)
  {
    var s' := Recorded(s, e, s.db, r);
    CodesStep(s.db.users, s.db.users, s.db.codes, s.db.codes, s.spent, s.hashes, s'.hashes);
  }

  lemma ReplacementDone(s: System, otp: Authenticator, cfg: Settings, e: Event, db: Db, u: UserId, a: Acceptance, hashes: seq<Hash>)
    requires Inv(s, otp, cfg) && (e.ConfirmEnrolment? || e.RegenerateCodes?) && e.hashes == hashes && e.u == u
    requires u in s.db.users && u in db.users && Genuine(otp, a) && a.code == e.code && a.at == e.now
    requires s.db.users[u].secret == db.users[u].secret == Some(a.secret) && !Used(s.db.users[u].lastCounter, a.counter)
    requires PhaseOf(db.users[u]) == On && db.users[u].lastCounter == Some(a.counter)
    requires FreshHashes(s, cfg, hashes) && Insertable(s.db.codes, u, hashes)
    requires db.users == s.db.users[u := db.users[u]] && db.codes == Replaced(s.db.codes, u, hashes)
    requires db.challenges == s.db.challenges && SessionsOk(db.sessions, db.challenges)
    ensures Inv(Recorded(s, e, db, Done(Some(ByTotp(a.secret, a.counter)))), otp, cfg)
  {
    ReplacementKeeps(s, Recorded(s, e, db, Done(Some(ByTotp(a.secret, a.counter)))), otp, cfg, u, db.users[u], a, hashes);
  }

  /** What a successful confirmation changes, and the evidence for it. */
  lemma ConfirmDone(db: Db, otp: Authenticator, cfg: Settings, u: UserId, code: Code, hashes: seq<Hash>, now: Time)
    requires Confirm(db, otp, cfg, u, code, hashes, now).1.Done?
    ensures var (db', r) := Confirm(db, otp, cfg, u, code, hashes, now);
            && u in db.users && db.users[u].secret.Some? && u in db'.users && Insertable(db.codes, u, hashes)
            && PhaseOf(db'.users[u]) == On && db'.users[u].secret == db.users[u].secret
            && var a := Acceptance(db.users[u].secret.value, db'.users[u].lastCounter.value, code, now);
            && Genuine(otp, a) && !Used(db.users[u].lastCounter, a.counter)
            && r == Done(Some(ByTotp(a.secret, a.counter)))
            && db' == db.(users := db.users[u := db'.users[u]], codes := Replaced(db.codes, u, hashes))
  {
    FoundIsFresh(otp, cfg, db.users[u], code, now);
  }

  lemma ConfirmKeeps(s: System, otp: Authenticator, cfg: Settings, e: Event)
    requires Inv(s, otp, cfg) && Enabled(s, cfg, e) && e.ConfirmEnrolment?
    ensures var (db, r) := Confirm(s.db, otp, cfg, e.u, e.code, e.hashes, e.now);
            Inv(Recorded(s, e, db, r), otp, cfg)
  {
    var (db, r) := Confirm(s.db, otp, cfg, e.u, e.code, e.hashes, e.now);
    if r.Done? {
      ConfirmDone(s.db, otp, cfg, e.u, e.code, e.hashes, e.now);
      var a := Acceptance(r.factor.value.secret, r.factor.value.counter, e.code, e.now);
      ReplacementDone(s, otp, cfg, e, db, e.u, a, e.hashes);
    } else {
      RefusalKeeps(s, otp, cfg, e, r);
    }
  }

  /** What a successful regeneration changes, and the evidence for it. */
  lemma RegenerateDone(db: Db, otp: Authenticator, cfg: Settings, u: UserId, password: nat, code: Code,
                       hashes: seq<Hash>, now: Time)
    requires Regenerate(db, otp, cfg, u, password, code, hashes, now).1.Done?
    ensures var (db', r) := Regenerate(db, otp, cfg, u, password, code, hashes, now);
            && u in db.users && db.users[u].secret.Some? && u in db'.users && Insertable(db.codes, u, hashes)
            && r.factor.Some? && r.factor.value.ByTotp? && db.users[u].enabledAt.Some?
            && var a := Acceptance(r.factor.value.secret, r.factor.value.counter, code, now);
            && a.secret == db.users[u].secret.value && Genuine(otp, a) && !Used(db.users[u].lastCounter, a.counter)
            && db'.users == db.users[u := db.users[u].(lastCounter := Some(a.counter))]
            && db'.codes == Replaced(db.codes, u, hashes) && db'.challenges == db.challenges
            && db'.sessions == RevokeSessions(db.sessions, u, Sessions.MfaRegenerated)
  {
    FoundIsFresh(otp, cfg, db.users[u], code, now);
  }

  lemma RegenerateKeeps(s: System, otp: Authenticator, cfg: Settings, e: Event)
    requires Inv(s, otp, cfg) && Enabled(s, cfg, e) && e.RegenerateCodes?
    ensures var (db, r) := Regenerate(s.db, otp, cfg, e.u, e.password, e.code, e.hashes, e.now);
            Inv(Recorded(s, e, db, r), otp, cfg)
  {
    var (db, r) := Regenerate(s.db, otp, cfg, e.u, e.password, e.code, e.hashes, e.now);
    if r.Done? {
      RegenerateDone(s.db, otp, cfg, e.u, e.password, e.code, e.hashes, e.now);
      var a := Acceptance(r.factor.value.secret, r.factor.value.counter, e.code, e.now);
      assert UserOk(s.db.users[e.u], Rows(s.db.codes, e.u), cfg.codeCount);
      RevokedSessionsOk(s.db.sessions, s.db.challenges, e.u, Sessions.MfaRegenerated);
      ReplacementDone(s, otp, cfg, e, db, e.u, a, e.hashes);
    } else {
      RefusalKeeps(s, otp, cfg, e, r);
    }
  }

  // ---- Disabling, and the login challenge ----

  /** What a check of the factor proves about the account it was made for. */
  lemma FactorChecked(db: Db, otp: Authenticator, cfg: Settings, u: UserId, code: Code, now: Time)
    requires u in db.users && CheckFactor(db, otp, cfg, u, code, now).Done?
    ensures match CheckFactor(db, otp, cfg, u, code, now).factor.value
            case ByTotp(secret, c) =>
              db.users[u].secret == Some(secret) && Genuine(otp, Acceptance(secret, c, code, now)) && !Used(db.users[u].lastCounter, c)
            case ByRecovery(h) => h in db.codes && db.codes[h] == Recovery(u, None)
  {
    FoundIsFresh(otp, cfg, db.users[u], code, now);
  }

  lemma DisabledByTotp(s: System, s': System, otp: Authenticator, cfg: Settings, u: UserId, user: User, a: Acceptance)
    requires Inv(s, otp, cfg) && u in s.db.users && Genuine(otp, a)
    requires s.db.users[u].secret == Some(a.secret) && !Used(s.db.users[u].lastCounter, a.counter)
    requires PhaseOf(user) == Off
    requires s'.db.users == s.db.users[u := user] && s'.db.codes == WithoutRows(s.db.codes, u)
    requires s'.accepted == s.accepted + [a] && s'.spent == s.spent && s'.secrets == s.secrets && s'.hashes == s.hashes
    ensures LogOk(otp, s'.accepted, s'.secrets)
    ensures CountersOk(s'.db.users, s'.accepted)
    ensures CodesOk(s'.db.users, s'.db.codes, s'.spent, s'.hashes)
  {
    LogStep(otp, s.db.users, s.accepted, s.secrets, s'.secrets, u, a);
    CountersStep(s.db.users, s.accepted, s.secrets, u, user, a);
    CodesStep(s.db.users, s'.db.users, s.db.codes, s'.db.codes, s.spent, s.hashes, s'.hashes);
  }

  lemma DisabledByRecovery(s: System, s': System, otp: Authenticator, cfg: Settings, u: UserId, user: User, h: Hash)
    requires Inv(s, otp, cfg) && u in s.db.users && h in s.db.codes && s.db.codes[h] == Recovery(u, None)
    requires PhaseOf(user) == Off
    requires s'.db.users == s.db.users[u := user] && s'.db.codes == WithoutRows(s.db.codes, u)
    requires s'.accepted == s.accepted && s'.spent == s.spent + [h] && s'.secrets == s.secrets && s'.hashes == s.hashes
    ensures LogOk(otp, s'.accepted, s'.secrets)
    ensures CountersOk(s'.db.users, s'.accepted)
    ensures CodesOk(s'.db.users, s'.db.codes, s'.spent, s'.hashes)
  {
    CountersKept(otp, s.db.users, s.accepted, s.secrets, u, user);
    CodesSpent(s.db.users, s.db.codes, s'.db.codes, s.spent, s.hashes, h);
    CodesStep(s.db.users, s'.db.users, s'.db.codes, s'.db.codes, s'.spent, s.hashes, s'.hashes);
  }

  lemma DisabledKeeps(s: System, otp: Authenticator, cfg: Settings, e: Event, db: Db, factor: Factor)
    requires Inv(s, otp, cfg) && e.DisableFactor? && e.u in s.db.users && e.u in db.users && PhaseOf(db.users[e.u]) == Off
    requires match factor
             case ByTotp(secret, c) =>
               s.db.users[e.u].secret == Some(secret) && Genuine(otp, Acceptance(secret, c, e.code, e.now))
               && !Used(s.db.users[e.u].lastCounter, c)
             case ByRecovery(h) => h in s.db.codes && s.db.codes[h] == Recovery(e.u, None)
    requires db == Db(s.db.users[e.u := db.users[e.u]], WithoutRows(s.db.codes, e.u), s.db.challenges,
                      RevokeSessions(s.db.sessions, e.u, Sessions.MfaDisabled))
    ensures Inv(Recorded(s, e, db, Done(Some(factor))), otp, cfg)
  {
    var s', user := Recorded(s, e, db, Done(Some(factor))), db.users[e.u];
    RowsWithout(s.db.codes, e.u);
    UsersStep(s.db.users, s.db.codes, db.codes, cfg.codeCount, e.u, user);
    SecretsStep(s.db.users, s.secrets, s'.secrets, e.u, user);
    RevokedSessionsOk(s.db.sessions, s.db.challenges, e.u, Sessions.MfaDisabled);
    match factor
    case ByTotp(secret, c) => DisabledByTotp(s, s', otp, cfg, e.u, user, Acceptance(secret, c, e.code, e.now));
    case ByRecovery(h) => DisabledByRecovery(s, s', otp, cfg, e.u, user, h);
  }

  lemma DisableKeeps(s: System, otp: Authenticator, cfg: Settings, e: Event)
    requires Inv(s, otp, cfg) && Enabled(s, cfg, e) && e.DisableFactor?
    ensures var (db, r) := Disable(s.db, otp, cfg, e.u, e.password, e.code, e.now);
            Inv(Recorded(s, e, db, r), otp, cfg)
  {
    var (db, r) := Disable(s.db, otp, cfg, e.u, e.password, e.code, e.now);
    if r.Done? {
      FactorChecked(s.db, otp, cfg, e.u, e.code, e.now);
      DisabledKeeps(s, otp, cfg, e, db, r.factor.value);
    } else {
      RefusalKeeps(s, otp, cfg, e, r);
    }
  }

  /** Consuming the user's open challenges and adding one keeps one open, and consumed ones consumed. */
  lemma PreparedChallenges(challenges: map<Token, Challenge>, sessions: seq<Session>, u: UserId, now: Time, token: Token,
                           added: Challenge)
    requires OneOpen(challenges) && SessionsOk(sessions, challenges) && token !in challenges && added.userId == u
    ensures OneOpen(ConsumeChallenges(challenges, u, now)[token := added])
    ensures SessionsOk(sessions, ConsumeChallenges(challenges, u, now)[token := added])
  {
  }

  lemma PrepareKeeps(s: System, otp: Authenticator, cfg: Settings, e: Event)
    requires Inv(s, otp, cfg) && e.StartLogin?
    ensures var (db, r) := Prepare(s.db, cfg, e.u, e.primary, e.device, e.token, e.now);
            Inv(Recorded(s, e, db, r), otp, cfg)
  {
    var (db, r) := Prepare(s.db, cfg, e.u, e.primary, e.device, e.token, e.now);
    if r.Done? {
      PreparedChallenges(s.db.challenges, s.db.sessions, e.u, e.now, e.token, db.challenges[e.token]);
    }
  }

  /** A challenge that is still open has opened no session yet; once consumed it opens its one session. */
  lemma OpenedSession(sessions: seq<Session>, challenges: map<Token, Challenge>, token: Token, now: Time, session: Session)
    requires SessionsOk(sessions, challenges) && OneOpen(challenges)
    requires token in challenges && challenges[token].consumedAt.None?
    requires session.challenge == token && session.userId == challenges[token].userId
    ensures SessionsOk(sessions + [session], challenges[token := challenges[token].(consumedAt := Some(now))])
    ensures OneOpen(challenges[token := challenges[token].(consumedAt := Some(now))])
  {
  }

  lemma VerifyTotpKeeps(s: System, s': System, otp: Authenticator, cfg: Settings, u: UserId, user: User, a: Acceptance)
    requires Inv(s, otp, cfg) && u in s.db.users && s.db.users[u].enabledAt.Some? && Genuine(otp, a)
    requires s.db.users[u].secret == Some(a.secret) && !Used(s.db.users[u].lastCounter, a.counter)
    requires user == s.db.users[u].(lastCounter := Some(a.counter))
    requires s'.db.users == s.db.users[u := user] && s'.db.codes == s.db.codes
    requires s'.accepted == s.accepted + [a] && s'.spent == s.spent && s'.secrets == s.secrets && s'.hashes == s.hashes
    ensures UsersOk(s'.db.users, s'.db.codes, cfg.codeCount) && SecretsOk(s'.db.users, s'.secrets)
    ensures LogOk(otp, s'.accepted, s'.secrets)
    ensures CountersOk(s'.db.users, s'.accepted)
    ensures CodesOk(s'.db.users, s'.db.codes, s'.spent, s'.hashes)
  {
    assert UserOk(s.db.users[u], Rows(s.db.codes, u), cfg.codeCount);
    UsersStep(s.db.users, s.db.codes, s.db.codes, cfg.codeCount, u, user);
    SecretsStep(s.db.users, s.secrets, s'.secrets, u, user);
    LogStep(otp, s.db.users, s.accepted, s.secrets, s'.secrets, u, a);
    CountersStep(s.db.users, s.accepted, s.secrets, u, user, a);
    CodesStep(s.db.users, s'.db.users, s.db.codes, s'.db.codes, s.spent, s.hashes, s'.hashes);
  }

  lemma VerifyRecoveryKeeps(s: System, s': System, otp: Authenticator, cfg: Settings, u: UserId, h: Hash, now: Time)
    requires Inv(s, otp, cfg) && h in s.db.codes && s.db.codes[h] == Recovery(u, None)
    requires s'.db.users == s.db.users && s'.db.codes == Spend(s.db.codes, h, now)
    requires s'.accepted == s.accepted && s'.spent == s.spent + [h] && s'.secrets == s.secrets && s'.hashes == s.hashes
    ensures UsersOk(s'.db.users, s'.db.codes, cfg.codeCount)
    ensures CodesOk(s'.db.users, s'.db.codes, s'.spent, s'.hashes)
  {
    RowsSpent(s.db.codes, h, now);
    CodesSpent(s.db.users, s.db.codes, s'.db.codes, s.spent, s.hashes, h);
  }

  lemma LoggedInByTotp(s: System, otp: Authenticator, cfg: Settings, e: Event, u: UserId, a: Acceptance, session: Session)
    requires Inv(s, otp, cfg) && e.FinishLogin? && a.code == e.code && a.at == e.now
    requires e.token in s.db.challenges && s.db.challenges[e.token].consumedAt.None? && s.db.challenges[e.token].userId == u
    requires u in s.db.users && s.db.users[u].enabledAt.Some? && Genuine(otp, a)
    requires s.db.users[u].secret == Some(a.secret) && !Used(s.db.users[u].lastCounter, a.counter)
    requires session.challenge == e.token && session.userId == u
    ensures var db := Db(s.db.users[u := s.db.users[u].(lastCounter := Some(a.counter))], s.db.codes,
                         s.db.challenges[e.token := s.db.challenges[e.token].(consumedAt := Some(e.now))],
                         s.db.sessions + [session]);
            Inv(Recorded(s, e, db, Done(Some(ByTotp(a.secret, a.counter)))), otp, cfg)
  {
    var user := s.db.users[u].(lastCounter := Some(a.counter));
    var db := Db(s.db.users[u := user], s.db.codes,
                 s.db.challenges[e.token := s.db.challenges[e.token].(consumedAt := Some(e.now))], s.db.sessions + [session]);
    VerifyTotpKeeps(s, Recorded(s, e, db, Done(Some(ByTotp(a.secret, a.counter)))), otp, cfg, u, user, a);
    OpenedSession(s.db.sessions, s.db.challenges, e.token, e.now, session);
  }

  lemma LoggedInByRecovery(s: System, otp: Authenticator, cfg: Settings, e: Event, u: UserId, h: Hash, session: Session)
    requires Inv(s, otp, cfg) && e.FinishLogin?
    requires e.token in s.db.challenges && s.db.challenges[e.token].consumedAt.None? && s.db.challenges[e.token].userId == u
    requires h in s.db.codes && s.db.codes[h] == Recovery(u, None)
    requires session.challenge == e.token && session.userId == u
    ensures var db := Db(s.db.users, Spend(s.db.codes, h, e.now),
                         s.db.challenges[e.token := s.db.challenges[e.token].(consumedAt := Some(e.now))],
                         RevokeSessions(s.db.sessions, u, Sessions.MfaRecoveryUsed) + [session]);
            Inv(Recorded(s, e, db, Done(Some(ByRecovery(h)))), otp, cfg)
  {
    var revoked := RevokeSessions(s.db.sessions, u, Sessions.MfaRecoveryUsed);
    var db := Db(s.db.users, Spend(s.db.codes, h, e.now),
                 s.db.challenges[e.token := s.db.challenges[e.token].(consumedAt := Some(e.now))], revoked + [session]);
    VerifyRecoveryKeeps(s, Recorded(s, e, db, Done(Some(ByRecovery(h)))), otp, cfg, u, h, e.now);
    RevokedSessionsOk(s.db.sessions, s.db.challenges, u, Sessions.MfaRecoveryUsed);
    OpenedSession(revoked, s.db.challenges, e.token, e.now, session);
  }

  lemma VerifyKeeps(s: System, otp: Authenticator, cfg: Settings, e: Event)
    requires Inv(s, otp, cfg) && e.FinishLogin?
    ensures var (db, r) := Verify(s.db, otp, cfg, e.token, e.code, e.now);
            Inv(Recorded(s, e, db, r), otp, cfg)
  {
    var (db, r) := Verify(s.db, otp, cfg, e.token, e.code, e.now);
    if r.Done? {
      var u := s.db.challenges[e.token].userId;
      FactorChecked(s.db, otp, cfg, u, e.code, e.now);
      var session := db.sessions[|db.sessions| - 1];
      match r.factor.value
      case ByTotp(secret, c) => LoggedInByTotp(s, otp, cfg, e, u, Acceptance(secret, c, e.code, e.now), session);
      case ByRecovery(h) => LoggedInByRecovery(s, otp, cfg, e, u, h, session);
    } else {
      RefusalKeeps(s, otp, cfg, e, r);
    }
  }

  lemma NextKeeps(s: System, otp: Authenticator, cfg: Settings, e: Event)
    requires Inv(s, otp, cfg)
    ensures Inv(Next(s, otp, cfg, e), otp, cfg)
  {
    if Enabled(s, cfg, e) {
      match e
      case Register(_, _) => RegisterKeeps(s, otp, cfg, e);
      case SetActive(_, _) => RegisterKeeps(s, otp, cfg, e);
      case BeginEnrolment(_, _, _, _) => BeginKeeps(s, otp, cfg, e);
      case ConfirmEnrolment(_, _, _, _) => ConfirmKeeps(s, otp, cfg, e);
      case RegenerateCodes(_, _, _, _, _) => RegenerateKeeps(s, otp, cfg, e);
      case DisableFactor(_, _, _, _) => DisableKeeps(s, otp, cfg, e);
      case StartLogin(_, _, _, _, _) => PrepareKeeps(s, otp, cfg, e);
      case FinishLogin(_, _, _) => VerifyKeeps(s, otp, cfg, e);
    }
  }

  lemma {:induction false} RunKeepsInv(s: System, otp: Authenticator, cfg: Settings, events: seq<Event>)
    requires Inv(s, otp, cfg)
    ensures Inv(Run(s, otp, cfg, events), otp, cfg)
  {
    if events != [] {
      RunKeepsInv(s, otp, cfg, events[..|events| - 1]);
      NextKeeps(Run(s, otp, cfg, events[..|events| - 1]), otp, cfg, events[|events| - 1]);
    }
  }

  // ---- Main results ----

  /**
    Replay protection over the life of a secret (section 5.2 of RFC 6238): the steps accepted by
    confirmation, login, regeneration and disabling strictly increase, and each was within one of the
    current step with the password that was sent.
   */
  lemma AcceptedCountersIncrease(otp: Authenticator, cfg: Settings, events: seq<Event>)
    ensures var accepted := Run(Start(), otp, cfg, events).accepted;
            && (forall i :: 0 <= i < |accepted| ==>
                  && accepted[i].code.digits == Some(otp(accepted[i].secret, accepted[i].counter))
                  && -1 <= accepted[i].counter - StepOf(accepted[i].at) <= 1)
            && (forall i, j :: 0 <= i < j < |accepted| && accepted[i].secret == accepted[j].secret ==>
                  accepted[i].counter < accepted[j].counter)
  {
    RunKeepsInv(Start(), otp, cfg, events);
  }

  /** Off, pending or on; on exactly when the account has its full set of recovery rows. */
  lemma EnabledExactlyWithCodes(otp: Authenticator, cfg: Settings, events: seq<Event>, u: UserId)
    requires cfg.codeCount > 0
    ensures var db := Run(Start(), otp, cfg, events).db;
            u in db.users ==>
              && PhaseOf(db.users[u]) != Broken
              && (db.users[u].enabledAt.Some? <==> |Rows(db.codes, u)| == cfg.codeCount)
              && (db.users[u].enabledAt.None? <==> Rows(db.codes, u) == {})
  {
    RunKeepsInv(Start(), otp, cfg, events);
    var db := Run(Start(), otp, cfg, events).db;
    if u in db.users {
      assert UserOk(db.users[u], Rows(db.codes, u), cfg.codeCount);
    }
  }

  /** No recovery code is ever accepted twice. */
  lemma RecoveryCodesSpentOnce(otp: Authenticator, cfg: Settings, events: seq<Event>)
    ensures Distinct(Run(Start(), otp, cfg, events).spent)
  {
    RunKeepsInv(Start(), otp, cfg, events);
  }

  /** At most one challenge of a user is open, whatever started it, and each opens at most one session. */
  lemma OneChallengeOneSession(otp: Authenticator, cfg: Settings, events: seq<Event>)
    ensures var db := Run(Start(), otp, cfg, events).db; OneOpen(db.challenges) && SessionsOk(db.sessions, db.challenges)
  {
    RunKeepsInv(Start(), otp, cfg, events);
  }

  /** A consumed challenge, used or superseded, never changes again and opens no further session. */
  lemma {:induction false} ConsumedForGood(s: System, otp: Authenticator, cfg: Settings, events: seq<Event>, token: Token)
    requires token in s.db.challenges && s.db.challenges[token].consumedAt.Some?
    ensures var after := Run(s, otp, cfg, events).db;
            && token in after.challenges && after.challenges[token] == s.db.challenges[token]
            && |s.db.sessions| <= |after.sessions|
            && (forall i :: |s.db.sessions| <= i < |after.sessions| ==> after.sessions[i].challenge != token)
  {
    if events != [] {
      ConsumedForGood(s, otp, cfg, events[..|events| - 1], token);
      ConsumedStep(Run(s, otp, cfg, events[..|events| - 1]), otp, cfg, events[|events| - 1], token);
    }
  }

  lemma ConsumedStep(s: System, otp: Authenticator, cfg: Settings, e: Event, token: Token)
    requires token in s.db.challenges && s.db.challenges[token].consumedAt.Some?
    ensures var after := Next(s, otp, cfg, e).db;
            && token in after.challenges && after.challenges[token] == s.db.challenges[token]
            && |s.db.sessions| <= |after.sessions|
            && (forall i :: 0 <= i < |s.db.sessions| ==> after.sessions[i].challenge == s.db.sessions[i].challenge)
            && (forall i :: |s.db.sessions| <= i < |after.sessions| ==> after.sessions[i].challenge != token)
  {
  }

  /** A login by recovery code leaves the user exactly one live session, the new one. */
  lemma RecoveryLoginStandsAlone(db: Db, otp: Authenticator, cfg: Settings, token: Token, code: Code, now: Time)
    ensures var (after, r) := Verify(db, otp, cfg, token, code, now);
            r.Done? && r.factor.value.ByRecovery? ==>
              var u := db.challenges[token].userId;
              && |after.sessions| == |db.sessions| + 1
              && after.sessions[|db.sessions|] == Session(u, token, db.challenges[token].device, db.challenges[token].primary,
                                                          r.factor.value, None)
              && forall i :: 0 <= i < |db.sessions| && after.sessions[i].userId == u ==> after.sessions[i].revokedFor.Some?
  {
  }

  // ---- What single operations mean ----

  /** The only moves between phases: enrolment starts, confirmation enables, disabling clears. */
  predicate PhaseMoves(from: Phase, e: Event, u: UserId, to: Phase) {
    || to == from
    || (e.BeginEnrolment? && e.u == u && from == Off && to == Pending)
    || (e.ConfirmEnrolment? && e.u == u && from == Pending && to == On)
    || (e.DisableFactor? && e.u == u && from == On && to == Off)
  }

  /** In every run an account moves off, pending, on and back to off, each move by its own operation. */
  lemma PhasesMoveInOrder(otp: Authenticator, cfg: Settings, events: seq<Event>, e: Event, u: UserId)
    requires u in Run(Start(), otp, cfg, events).db.users
    ensures var s := Run(Start(), otp, cfg, events);
            var s' := Next(s, otp, cfg, e);
            u in s'.db.users && PhaseMoves(PhaseOf(s.db.users[u]), e, u, PhaseOf(s'.db.users[u]))
  {
    RunKeepsInv(Start(), otp, cfg, events);
    var s := Run(Start(), otp, cfg, events);
    assert UserOk(s.db.users[u], Rows(s.db.codes, u), cfg.codeCount);
    PhaseStep(s, otp, cfg, e, u);
  }

  lemma PhaseStep(s: System, otp: Authenticator, cfg: Settings, e: Event, u: UserId)
    requires u in s.db.users && PhaseOf(s.db.users[u]) != Broken
    ensures var s' := Next(s, otp, cfg, e);
            u in s'.db.users && PhaseMoves(PhaseOf(s.db.users[u]), e, u, PhaseOf(s'.db.users[u]))
  {
    if Enabled(s, cfg, e) {
      match e
      case FinishLogin(token, code, now) => LoginKeepsPhase(s.db, otp, cfg, token, code, now, u);
      case ConfirmEnrolment(v, code, hashes, now) =>
        if Confirm(s.db, otp, cfg, v, code, hashes, now).1.Done? { ConfirmDone(s.db, otp, cfg, v, code, hashes, now); }
      case RegenerateCodes(v, password, code, hashes, now) =>
        if Regenerate(s.db, otp, cfg, v, password, code, hashes, now).1.Done? {
          RegenerateDone(s.db, otp, cfg, v, password, code, hashes, now);
        }
      case _ =>
    }
  }

  lemma LoginKeepsPhase(db: Db, otp: Authenticator, cfg: Settings, token: Token, code: Code, now: Time, u: UserId)
    requires u in db.users && PhaseOf(db.users[u]) != Broken
    ensures var after := Verify(db, otp, cfg, token, code, now).0;
            u in after.users && PhaseOf(after.users[u]) == PhaseOf(db.users[u])
  {
  }

  /** Disabling and regenerating leave the user no live session and touch no one else's. */
  lemma FactorChangeEndsSessions(db: Db, otp: Authenticator, cfg: Settings, u: UserId, password: nat, code: Code,
                                 hashes: seq<Hash>, now: Time, i: nat)
    requires i < |db.sessions|
    ensures var (after, r) := Disable(db, otp, cfg, u, password, code, now);
            && |after.sessions| == |db.sessions|
            && (if r.Done? && db.sessions[i].userId == u then after.sessions[i].revokedFor.Some?
                else after.sessions[i] == db.sessions[i])
    ensures var (after, r) := Regenerate(db, otp, cfg, u, password, code, hashes, now);
            && |after.sessions| == |db.sessions|
            && (if r.Done? && db.sessions[i].userId == u then after.sessions[i].revokedFor.Some?
                else after.sessions[i] == db.sessions[i])
  {
  }

  /** A new challenge is the only open one of its user; every other user's challenges are as they were. */
  lemma NewChallengeSupersedes(db: Db, cfg: Settings, u: UserId, primary: Primary, device: string, token: Token, now: Time,
                               t: Token)
    requires Prepare(db, cfg, u, primary, device, token, now).1.Done?
    ensures var after := Prepare(db, cfg, u, primary, device, token, now).0.challenges;
            && token in after && after[token].consumedAt.None? && after[token].userId == u
            && (t in after && after[t].userId == u && after[t].consumedAt.None? ==> t == token)
            && (t in db.challenges ==>
                  && t in after && t != token
                  && (db.challenges[t].userId != u || db.challenges[t].consumedAt.Some? ==> after[t] == db.challenges[t]))
  {
  }
}
