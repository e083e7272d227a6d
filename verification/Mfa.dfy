/**
  Second-factor authentication: TOTP enrolment, recovery codes and login challenges.

  The one-time password is an arbitrary function of secret and time step (section 4 of RFC 6238).
  Secrets, recovery codes and challenge tokens stand for their stored form, and new ones are values
  chosen by the caller. Each operation is one committed transaction.
 */
module Mfa {
  import opened Common
  import Sessions

  type UserId = nat
  type Secret = nat
  type Otp = int
  type Hash = nat
  type Token = nat
  type Authenticator = (Secret, int) -> Otp

  const STEP_SECONDS: int := 30

  datatype Settings = Settings(available: bool, codeCount: nat, enrolmentLifetime: Time, challengeLifetime: Time)

  /** What the user typed, read both ways: as six digits, and as the hash of a normalised recovery code. */
  datatype Code = Code(digits: Option<Otp>, recovery: Option<Hash>)

  datatype User = User(
    active: bool,
    password: nat,
    secret: Option<Secret>,
    pendingSince: Option<Time>,
    enabledAt: Option<Time>,
    lastCounter: Option<int>)

  datatype Recovery = Recovery(userId: UserId, usedAt: Option<Time>)

  datatype Primary = Pwd | Oidc

  datatype Challenge = Challenge(userId: UserId, primary: Primary, device: string, expiresAt: Time, consumedAt: Option<Time>)

  /** A session opened by a challenge; of its refresh token only the revocation matters here. */
  datatype Session = Session(
    userId: UserId,
    challenge: Token,
    device: string,
    primary: Primary,
    factor: Factor,
    revokedFor: Option<Sessions.Reason>)

  datatype Db = Db(
    users: map<UserId, User>,
    codes: map<Hash, Recovery>,
    challenges: map<Token, Challenge>,
    sessions: seq<Session>)

  datatype Factor = ByTotp(secret: Secret, counter: int) | ByRecovery(hash: Hash)

  datatype Outcome =
    | Done(factor: Option<Factor>)
    | NotAvailable | Unauthorized | InvalidFactor | InvalidChallenge | AlreadyEnabled | Conflict

  function Empty(): Db { Db(map[], map[], map[], []) }

  // ---- The TOTP search ----

  function StepOf(now: Time): int { now / SECOND / STEP_SECONDS }

  predicate Used(last: Option<int>, counter: int) {
    last.Some? && counter <= last.value
  }

  datatype Search = Found(counter: int) | NotFound | Unusable

  /** The first of the steps `from .. to` whose password is `digits`, unless that step is used up. */
  function FirstMatch(otp: Authenticator, secret: Secret, last: Option<int>, digits: Otp, from: int, to: int): Search
    decreases to - from
  {
    if from > to then NotFound
    else if otp(secret, from) == digits then (if Used(last, from) then NotFound else Found(from))
    else FirstMatch(otp, secret, last, digits, from + 1, to)
  }

  function SearchCounter(otp: Authenticator, cfg: Settings, user: User, code: Code, now: Time): (r: Search)
    ensures r.Found? ==> user.secret.Some?
  {
    if code.digits.None? || user.secret.None? then NotFound
    else if !cfg.available then Unusable
    else FirstMatch(otp, user.secret.value, user.lastCounter, code.digits.value, StepOf(now) - 1, StepOf(now) + 1)
  }

  method MatchingTotpCounter(otp: Authenticator, cfg: Settings, user: User, code: Code, now: Time) returns (r: Search)
    ensures r == SearchCounter(otp, cfg, user, code, now)
  {
    if code.digits.None? || user.secret.None? {
      return NotFound;
    }
    if !cfg.available {
      return Unusable;
    }
    var current := StepOf(now);
    var offset := -1;
    while offset <= 1
      invariant -1 <= offset <= 2
      invariant SearchCounter(otp, cfg, user, code, now)
             == FirstMatch(otp, user.secret.value, user.lastCounter, code.digits.value, current + offset, current + 1)
    {
      var counter := current + offset;
      if otp(user.secret.value, counter) == code.digits.value {
        if user.lastCounter.Some? && counter <= user.lastCounter.value {
          return NotFound;
        }
        return Found(counter);
      }
      offset := offset + 1;
    }
    return NotFound;
  }

  predicate Matches(otp: Authenticator, secret: Secret, digits: Otp, now: Time, counter: int) {
    StepOf(now) - 1 <= counter <= StepOf(now) + 1 && otp(secret, counter) == digits
  }

  predicate Searchable(cfg: Settings, user: User, code: Code) {
    cfg.available && user.secret.Some? && code.digits.Some?
  }

  /** Only an unused step within one of the current one is accepted, and its password is the code. */
  lemma FoundIsFresh(otp: Authenticator, cfg: Settings, user: User, code: Code, now: Time)
    ensures var r := SearchCounter(otp, cfg, user, code, now);
            r.Found? ==>
              && Searchable(cfg, user, code)
              && Matches(otp, user.secret.value, code.digits.value, now, r.counter)
              && !Used(user.lastCounter, r.counter)
  {
    if Searchable(cfg, user, code) {
      Unfold(otp, user.secret.value, user.lastCounter, code.digits.value, StepOf(now));
    }
  }

  /** A used step of the window whose password equals that of a later, unused one. */
  ghost predicate Hidden(otp: Authenticator, secret: Secret, last: Option<int>, digits: Otp, now: Time) {
    exists used: int, unused: int :: used < unused
      && Matches(otp, secret, digits, now, used) && Used(last, used)
      && Matches(otp, secret, digits, now, unused) && !Used(last, unused)
  }

  /**
    The search accepts exactly when some unused step of the window has the code as its password,
    except when a used step of the window has the same password: then the code is refused.
   */
  lemma SearchExactly(otp: Authenticator, cfg: Settings, user: User, code: Code, now: Time)
    requires Searchable(cfg, user, code)
    ensures SearchCounter(otp, cfg, user, code, now).Found? <==>
      && (exists c: int :: Matches(otp, user.secret.value, code.digits.value, now, c) && !Used(user.lastCounter, c))
      && !Hidden(otp, user.secret.value, user.lastCounter, code.digits.value, now)
  {
    var secret, last, digits, current := user.secret.value, user.lastCounter, code.digits.value, StepOf(now);
    Unfold(otp, secret, last, digits, current);
    FoundIsFresh(otp, cfg, user, code, now);
    var r := SearchCounter(otp, cfg, user, code, now);
    if Hidden(otp, secret, last, digits, now) {
      var used: int, unused: int :| used < unused
        && Matches(otp, secret, digits, now, used) && Used(last, used)
        && Matches(otp, secret, digits, now, unused) && !Used(last, unused);
      assert used == current - 1 || used == current;
      assert !r.Found?;
    }
    if !r.Found? {
      forall c: int | Matches(otp, secret, digits, now, c) && !Used(last, c)
        ensures Hidden(otp, secret, last, digits, now)
      {
        assert c == current - 1 || c == current || c == current + 1;
        if Matches(otp, secret, digits, now, current - 1) {
          assert Used(last, current - 1) && current - 1 < c;
        } else {
          assert Matches(otp, secret, digits, now, current) && Used(last, current) && current < c;
        }
      }
    }
  }

  lemma Unfold(otp: Authenticator, secret: Secret, last: Option<int>, digits: Otp, current: int)
    ensures FirstMatch(otp, secret, last, digits, current - 1, current + 1)
         == if otp(secret, current - 1) == digits then if Used(last, current - 1) then NotFound else Found(current - 1)
            else if otp(secret, current) == digits then if Used(last, current) then NotFound else Found(current)
            else if otp(secret, current + 1) == digits then if Used(last, current + 1) then NotFound else Found(current + 1)
            else NotFound
  {
    assert FirstMatch(otp, secret, last, digits, current + 2, current + 1) == NotFound;
    assert FirstMatch(otp, secret, last, digits, current + 1, current + 1)
        == if otp(secret, current + 1) == digits then if Used(last, current + 1) then NotFound else Found(current + 1)
           else NotFound;
  }

  lemma DistinctWindowHidesNothing(otp: Authenticator, secret: Secret, last: Option<int>, digits: Otp, now: Time)
    requires DistinctWindow(otp, secret, now)
    ensures !Hidden(otp, secret, last, digits, now)
  {
    var s := StepOf(now);
    forall used: int, unused: int | s - 1 <= used < unused <= s + 1
      ensures otp(secret, used) != otp(secret, unused)
    {
      assert used == s - 1 || used == s;
    }
  }

  predicate DistinctWindow(otp: Authenticator, secret: Secret, now: Time) {
    var s := StepOf(now);
    otp(secret, s - 1) != otp(secret, s) && otp(secret, s) != otp(secret, s + 1) && otp(secret, s - 1) != otp(secret, s + 1)
  }

  /** When the three passwords of the window differ, a code is accepted exactly when an unused step has it, and for that step. */
  lemma DistinctWindowAccepts(otp: Authenticator, cfg: Settings, user: User, code: Code, now: Time, counter: int)
    requires Searchable(cfg, user, code) && DistinctWindow(otp, user.secret.value, now)
    ensures SearchCounter(otp, cfg, user, code, now) == Found(counter) <==>
            Matches(otp, user.secret.value, code.digits.value, now, counter) && !Used(user.lastCounter, counter)
  {
    var secret, digits, s := user.secret.value, code.digits.value, StepOf(now);
    DistinctWindowHidesNothing(otp, secret, user.lastCounter, digits, now);
    SearchExactly(otp, cfg, user, code, now);
    FoundIsFresh(otp, cfg, user, code, now);
    assert forall c: int, d: int :: Matches(otp, secret, digits, now, c) && Matches(otp, secret, digits, now, d) ==> c == d by {
      forall c: int, d: int | Matches(otp, secret, digits, now, c) && Matches(otp, secret, digits, now, d) ensures c == d {
        assert c == s - 1 || c == s || c == s + 1;
        assert d == s - 1 || d == s || d == s + 1;
      }
    }
  }

  /** Steps 0 and 1 happen to share a password; every other step has one of its own. */
  function Colliding(secret: Secret, counter: int): Otp {
    if counter == 0 || counter == 1 then 123456 else 200000 + counter
  }

  /** An equal password of a used step hides the fresh one: step 1 is unused, has the code, and is refused. */
  lemma CollisionIsRefused()
    ensures var user := User(true, 0, Some(7), None, Some(0), Some(0));
            var now := 30 * SECOND;
            && StepOf(now) == 1
            && SearchCounter(Colliding, Settings(true, 10, 0, 0), user, Code(Some(123456), None), now) == NotFound
            && Matches(Colliding, 7, 123456, now, 1) && !Used(user.lastCounter, 1)
  {
    Unfold(Colliding, 7, Some(0), 123456, 1);
  }

  // ---- Recovery codes and sessions ----

  /** The rows of a user's recovery codes. */
  function Rows(codes: map<Hash, Recovery>, u: UserId): set<Hash> {
    set h | h in codes && codes[h].userId == u
  }

  function WithoutRows(codes: map<Hash, Recovery>, u: UserId): map<Hash, Recovery> {
    map h | h in codes && codes[h].userId != u :: codes[h]
  }

  /** New rows must not break the uniqueness of hashes once the old rows are gone. */
  ghost predicate Insertable(codes: map<Hash, Recovery>, u: UserId, hashes: seq<Hash>) {
    Distinct(hashes) && forall h :: h in hashes && h in codes ==> codes[h].userId == u
  }

  function Replaced(codes: map<Hash, Recovery>, u: UserId, hashes: seq<Hash>): map<Hash, Recovery> {
    WithoutRows(codes, u) + map h | h in hashes :: Recovery(u, None)
  }

  predicate Spendable(codes: map<Hash, Recovery>, u: UserId, code: Code) {
    code.recovery.Some? && code.recovery.value in codes && codes[code.recovery.value] == Recovery(u, None)
  }

  function Spend(codes: map<Hash, Recovery>, hash: Hash, now: Time): map<Hash, Recovery>
    requires hash in codes
  {
    codes[hash := codes[hash].(usedAt := Some(now))]
  }

  function RevokeSessions(sessions: seq<Session>, u: UserId, reason: Sessions.Reason): (r: seq<Session>)
    ensures |r| == |sessions|
  {
    seq(|sessions|, i requires 0 <= i < |sessions| =>
      if sessions[i].userId == u && sessions[i].revokedFor.None? then sessions[i].(revokedFor := Some(reason)) else sessions[i])
  }

  // ---- Operations ----

  /** `None` when the account row can be locked and is active. */
  function LockError(db: Db, u: UserId): Option<Outcome> {
    if u !in db.users || !db.users[u].active then Some(Unauthorized) else None
  }

  function Begin(db: Db, cfg: Settings, u: UserId, password: nat, secret: Secret, now: Time): (Db, Outcome) {
    if !cfg.available then (db, NotAvailable)
    else if LockError(db, u).Some? || db.users[u].password != password then (db, Unauthorized)
    else if db.users[u].enabledAt.Some? then (db, AlreadyEnabled)
    else
      (db.(users := db.users[u := db.users[u].(secret := Some(secret), pendingSince := Some(now), lastCounter := None)],
           codes := WithoutRows(db.codes, u)), Done(None))
  }

  predicate EnrolmentOpen(cfg: Settings, user: User, now: Time) {
    user.enabledAt.None? && user.pendingSince.Some? && user.pendingSince.value + cfg.enrolmentLifetime > now
  }

  ghost function Confirm(db: Db, otp: Authenticator, cfg: Settings, u: UserId, code: Code, hashes: seq<Hash>, now: Time)
    : (Db, Outcome)
  {
    if LockError(db, u).Some? then (db, Unauthorized)
    else if !EnrolmentOpen(cfg, db.users[u], now) then (db, InvalidFactor)
    else match SearchCounter(otp, cfg, db.users[u], code, now)
      case Unusable => (db, NotAvailable)
      case NotFound => (db, InvalidFactor)
      case Found(c) =>
        if !Insertable(db.codes, u, hashes) then (db, Conflict)
        else
          (db.(codes := Replaced(db.codes, u, hashes),
               users := db.users[u := db.users[u].(enabledAt := Some(now), pendingSince := None, lastCounter := Some(c))]),
           Done(Some(ByTotp(db.users[u].secret.value, c))))
  }

  ghost function Regenerate(db: Db, otp: Authenticator, cfg: Settings, u: UserId, password: nat, code: Code,
                            hashes: seq<Hash>, now: Time): (Db, Outcome)
  {
    if LockError(db, u).Some? || db.users[u].password != password then (db, Unauthorized)
    else if db.users[u].enabledAt.None? then (db, InvalidFactor)
    else match SearchCounter(otp, cfg, db.users[u], code, now)
      case Unusable => (db, NotAvailable)
      case NotFound => (db, InvalidFactor)
      case Found(c) =>
        if !Insertable(db.codes, u, hashes) then (db, Conflict)
        else
          (db.(codes := Replaced(db.codes, u, hashes),
               users := db.users[u := db.users[u].(lastCounter := Some(c))],
               sessions := RevokeSessions(db.sessions, u, Sessions.MfaRegenerated)),
           Done(Some(ByTotp(db.users[u].secret.value, c))))
  }

  /** A second factor, one time or the other: the step found, or else an unspent recovery code. */
  function CheckFactor(db: Db, otp: Authenticator, cfg: Settings, u: UserId, code: Code, now: Time): (r: Outcome)
    requires u in db.users
    ensures r.Done? ==> r.factor.Some? && (r.factor.value.ByRecovery? ==> r.factor.value.hash in db.codes)
  {
    match SearchCounter(otp, cfg, db.users[u], code, now)
    case Unusable => NotAvailable
    case Found(c) => Done(Some(ByTotp(db.users[u].secret.value, c)))
    case NotFound =>
      if Spendable(db.codes, u, code) then Done(Some(ByRecovery(code.recovery.value))) else InvalidFactor
  }

  function Disable(db: Db, otp: Authenticator, cfg: Settings, u: UserId, password: nat, code: Code, now: Time): (Db, Outcome) {
    if LockError(db, u).Some? || db.users[u].password != password then (db, Unauthorized)
    else if db.users[u].enabledAt.None? then (db, InvalidFactor)
    else
      var outcome := CheckFactor(db, otp, cfg, u, code, now);
      if !outcome.Done? then (db, outcome)
      else
        (db.(users := db.users[u := db.users[u].(secret := None, pendingSince := None, enabledAt := None, lastCounter := None)],
             codes := WithoutRows(db.codes, u),
             sessions := RevokeSessions(db.sessions, u, Sessions.MfaDisabled)),
         outcome)
  }

  function ConsumeChallenges(challenges: map<Token, Challenge>, u: UserId, now: Time): map<Token, Challenge> {
    map t | t in challenges ::
      if challenges[t].userId == u && challenges[t].consumedAt.None? then challenges[t].(consumedAt := Some(now))
      else challenges[t]
  }

  /** The unique index on token hashes refuses a token that exists. */
  function Prepare(db: Db, cfg: Settings, u: UserId, primary: Primary, device: string, token: Token, now: Time): (Db, Outcome) {
    if !cfg.available then (db, NotAvailable)
    else if token in db.challenges then (db, Conflict)
    else
      (db.(challenges := ConsumeChallenges(db.challenges, u, now)
                           [token := Challenge(u, primary, device, now + cfg.challengeLifetime, None)]), Done(None))
  }

  predicate ChallengeOpen(db: Db, token: Token, now: Time) {
    token in db.challenges && db.challenges[token].consumedAt.None? && db.challenges[token].expiresAt > now
  }

  function Verify(db: Db, otp: Authenticator, cfg: Settings, token: Token, code: Code, now: Time): (Db, Outcome) {
    if !cfg.available then (db, NotAvailable)
    else if !ChallengeOpen(db, token, now) then (db, InvalidChallenge)
    else
      var challenge := db.challenges[token];
      var u := challenge.userId;
      if LockError(db, u).Some? then (db, Unauthorized)
      else if db.users[u].enabledAt.None? then (db, InvalidChallenge)
      else
        var outcome := CheckFactor(db, otp, cfg, u, code, now);
        if !outcome.Done? then (db, outcome)
        else
          var factor := outcome.factor.value;
          var session := Session(u, token, challenge.device, challenge.primary, factor, None);
          var consumed := db.challenges[token := challenge.(consumedAt := Some(now))];
          match factor
          case ByTotp(_, c) =>
            (Db(db.users[u := db.users[u].(lastCounter := Some(c))], db.codes, consumed, db.sessions + [session]), outcome)
          case ByRecovery(hash) =>
            (Db(db.users, Spend(db.codes, hash, now), consumed,
                RevokeSessions(db.sessions, u, Sessions.MfaRecoveryUsed) + [session]), outcome)
  }
}
