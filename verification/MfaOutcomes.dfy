/** When each operation with a second factor succeeds, and which earlier request it rests on. */
module MfaOutcomes {
  import opened Common
  import opened Mfa
  import opened MfaRuns
  import Sessions

  // ---- The factor, in times and fields ----

  /** The code is the password of step `c`, and the clock is in that step of thirty seconds or one next to it. */
  predicate Fits(otp: Authenticator, user: User, code: Code, now: Time, c: int) {
    && user.secret.Some? && code.digits.Some? && otp(user.secret.value, c) == code.digits.value
    && 30_000_000 * (c - 1) <= now < 30_000_000 * (c + 2)
  }

  predicate Unused(user: User, c: int) {
    user.lastCounter.None? || user.lastCounter.value < c
  }

  /** Some unused step fits, and no used one that comes before it. */
  ghost predicate Accepts(otp: Authenticator, user: User, code: Code, now: Time) {
    && (exists c: int :: Fits(otp, user, code, now, c) && Unused(user, c))
    && (forall c: int, d: int ::
          c < d && Fits(otp, user, code, now, c) && Fits(otp, user, code, now, d) && Unused(user, d) ==> Unused(user, c))
  }

  predicate Unspent(db: Db, u: UserId, code: Code) {
    && code.recovery.Some? && code.recovery.value in db.codes
    && db.codes[code.recovery.value].userId == u && db.codes[code.recovery.value].usedAt.None?
  }

  lemma FitsIsMatches(otp: Authenticator, user: User, code: Code, now: Time, c: int)
    requires user.secret.Some? && code.digits.Some?
    ensures Fits(otp, user, code, now, c) <==> Matches(otp, user.secret.value, code.digits.value, now, c)
  {
    assert now / SECOND / 30 == now / 30_000_000;
  }

  /** A code is accepted exactly when the factor is available and the code `Accepts`, and then for the first step that fits. */
  lemma AcceptsExactly(otp: Authenticator, cfg: Settings, user: User, code: Code, now: Time)
    ensures var r := SearchCounter(otp, cfg, user, code, now);
            && (r.Found? <==> cfg.available && Accepts(otp, user, code, now))
            && (r.Unusable? <==> !cfg.available && user.secret.Some? && code.digits.Some?)
            && (r.Found? ==> Fits(otp, user, code, now, r.counter) && Unused(user, r.counter))
  {
    if Searchable(cfg, user, code) {
      var secret, last, digits := user.secret.value, user.lastCounter, code.digits.value;
      SearchExactly(otp, cfg, user, code, now);
      FoundIsFresh(otp, cfg, user, code, now);
      Unfold(otp, secret, last, digits, StepOf(now));
      forall c: int
        ensures Fits(otp, user, code, now, c) <==> Matches(otp, secret, digits, now, c)
        ensures Unused(user, c) <==> !Used(last, c)
      {
        FitsIsMatches(otp, user, code, now, c);
      }
      AcceptsMatches(otp, user, code, now);
    } else if user.secret.None? || code.digits.None? {
      assert forall c: int :: !Fits(otp, user, code, now, c);
    }
  }

  lemma AcceptsMatches(otp: Authenticator, user: User, code: Code, now: Time)
    requires user.secret.Some? && code.digits.Some?
    requires forall c: int :: Fits(otp, user, code, now, c) <==> Matches(otp, user.secret.value, code.digits.value, now, c)
    ensures Accepts(otp, user, code, now) <==>
      && (exists c: int :: Matches(otp, user.secret.value, code.digits.value, now, c) && !Used(user.lastCounter, c))
      && !Hidden(otp, user.secret.value, user.lastCounter, code.digits.value, now)
  {
    var secret, last, digits := user.secret.value, user.lastCounter, code.digits.value;
    if exists c: int :: Matches(otp, secret, digits, now, c) && !Used(last, c) {
      var c: int :| Matches(otp, secret, digits, now, c) && !Used(last, c);
      assert Fits(otp, user, code, now, c) && Unused(user, c);
    }
    if Accepts(otp, user, code, now) {
      forall used: int, unused: int | used < unused
        && Matches(otp, secret, digits, now, used)
        && Matches(otp, secret, digits, now, unused) && !Used(last, unused)
        ensures !Used(last, used)
      {
        assert Fits(otp, user, code, now, used) && Fits(otp, user, code, now, unused) && Unused(user, unused);
      }
    }
  }

  /** A factor passes with an accepted code, or else with an unspent recovery code of the user. */
  lemma FactorExactly(db: Db, otp: Authenticator, cfg: Settings, u: UserId, code: Code, now: Time)
    requires u in db.users
    ensures var user, r := db.users[u], CheckFactor(db, otp, cfg, u, code, now);
            && (r.Done? <==>
                || (cfg.available && Accepts(otp, user, code, now))
                || ((cfg.available || user.secret.None? || code.digits.None?) && Unspent(db, u, code)))
            && (r.Done? && !(cfg.available && Accepts(otp, user, code, now)) ==>
                  r.factor == Some(ByRecovery(code.recovery.value)))
            && (cfg.available && Accepts(otp, user, code, now) ==>
                  && r.factor.value.ByTotp? && Some(r.factor.value.secret) == user.secret
                  && Fits(otp, user, code, now, r.factor.value.counter) && Unused(user, r.factor.value.counter))
            && (r == NotAvailable <==> !cfg.available && user.secret.Some? && code.digits.Some?)
            && (r.Done? || r == NotAvailable || r == InvalidFactor)
  {
    AcceptsExactly(otp, cfg, db.users[u], code, now);
  }

  // ---- Login ----

  /** When a challenge is answered with a session, and why it is not. */
  lemma VerifyExactly(db: Db, otp: Authenticator, cfg: Settings, token: Token, code: Code, now: Time)
    ensures var r := Verify(db, otp, cfg, token, code, now).1;
            if !cfg.available then r == NotAvailable
            else if token !in db.challenges || db.challenges[token].consumedAt.Some? || now >= db.challenges[token].expiresAt then
              r == InvalidChallenge
            else
              var u := db.challenges[token].userId;
              if u !in db.users || !db.users[u].active then r == Unauthorized
              else if db.users[u].enabledAt.None? then r == InvalidChallenge
              else if Accepts(otp, db.users[u], code, now) || Unspent(db, u, code) then r.Done?
              else r == InvalidFactor
  {
    if cfg.available && token in db.challenges && db.challenges[token].userId in db.users {
      FactorExactly(db, otp, cfg, db.challenges[token].userId, code, now);
    }
  }

  /**
    Done exactly for an available factor, an open and unexpired challenge of an active user with the
    factor on, and a fresh code or an unspent recovery code; anything else changes nothing.
   */
  lemma VerifyDoneExactly(db: Db, otp: Authenticator, cfg: Settings, token: Token, code: Code, now: Time)
    ensures var (after, r) := Verify(db, otp, cfg, token, code, now);
            && (r.Done? <==>
                && cfg.available && token in db.challenges
                && var challenge := db.challenges[token];
                   && challenge.consumedAt.None? && now < challenge.expiresAt
                   && challenge.userId in db.users
                   && var user := db.users[challenge.userId];
                      && user.active && user.enabledAt.Some?
                      && (Accepts(otp, user, code, now) || Unspent(db, challenge.userId, code)))
            && (!r.Done? ==> after == db)
  {
    VerifyExactly(db, otp, cfg, token, code, now);
  }

  /** The user's live sessions end for the reason; every other one stays as it was. */
  ghost predicate EndedFor(before: seq<Session>, after: seq<Session>, u: UserId, reason: Sessions.Reason) {
    && |after| == |before|
    && forall i :: 0 <= i < |before| ==>
         after[i] == if before[i].userId == u && before[i].revokedFor.None? then before[i].(revokedFor := Some(reason)) else before[i]
  }

  /** What a login writes: one session for the challenge, its consumption, and the step or the recovery code used. */
  lemma LoginWrites(db: Db, otp: Authenticator, cfg: Settings, token: Token, code: Code, now: Time)
    requires Verify(db, otp, cfg, token, code, now).1.Done?
    ensures var (after, r) := Verify(db, otp, cfg, token, code, now);
            var challenge := db.challenges[token];
            var u := challenge.userId;
            && after.challenges == db.challenges[token := challenge.(consumedAt := Some(now))]
            && |after.sessions| == |db.sessions| + 1
            && r.factor.Some?
            && after.sessions[|db.sessions|] == Session(u, token, challenge.device, challenge.primary, r.factor.value, None)
            && if Accepts(otp, db.users[u], code, now) then
                 && r.factor.value.ByTotp? && Unused(db.users[u], r.factor.value.counter)
                 && Fits(otp, db.users[u], code, now, r.factor.value.counter)
                 && after.users == db.users[u := db.users[u].(lastCounter := Some(r.factor.value.counter))]
                 && after.codes == db.codes && after.sessions[..|db.sessions|] == db.sessions
               else
                 && code.recovery.Some? && r.factor.value == ByRecovery(code.recovery.value)
                 && after.users == db.users
                 && after.codes == db.codes[code.recovery.value := Recovery(u, Some(now))]
                 && EndedFor(db.sessions, after.sessions[..|db.sessions|], u, Sessions.MfaRecoveryUsed)
  {
    FactorExactly(db, otp, cfg, db.challenges[token].userId, code, now);
  }

  /** A new challenge lasts for its lifetime, and is the user's only open one. */
  lemma PrepareExactly(db: Db, cfg: Settings, u: UserId, primary: Primary, device: string, token: Token, now: Time)
    ensures var (after, r) := Prepare(db, cfg, u, primary, device, token, now);
            && (r.Done? <==> cfg.available && token !in db.challenges)
            && (!r.Done? ==> after == db)
            && (r.Done? ==>
                  && after.users == db.users && after.codes == db.codes && after.sessions == db.sessions
                  && after.challenges.Keys == db.challenges.Keys + {token}
                  && after.challenges[token] == Challenge(u, primary, device, now + cfg.challengeLifetime, None)
                  && forall t :: t in db.challenges ==>
                       after.challenges[t] == if db.challenges[t].userId == u && db.challenges[t].consumedAt.None?
                                              then db.challenges[t].(consumedAt := Some(now)) else db.challenges[t])
  {
  }

  // ---- Enrolment, regeneration and disabling ----

  /** Enrolment starts with the password while the factor is off, with a new secret and no recovery code. */
  lemma BeginExactly(db: Db, cfg: Settings, u: UserId, password: nat, secret: Secret, now: Time)
    ensures var (after, r) := Begin(db, cfg, u, password, secret, now);
            && (r.Done? <==>
                cfg.available && u in db.users && db.users[u].active && db.users[u].password == password && db.users[u].enabledAt.None?)
            && (!r.Done? ==> after == db)
            && (r.Done? ==>
                  && after.users == db.users[u := User(true, password, Some(secret), Some(now), None, None)]
                  && (forall h :: h in after.codes <==> h in db.codes && db.codes[h].userId != u)
                  && (forall h :: h in after.codes ==> after.codes[h] == db.codes[h])
                  && after.challenges == db.challenges && after.sessions == db.sessions)
  {
  }

  /** New hashes are all different, and none belongs to another user. */
  ghost predicate HashesFit(db: Db, u: UserId, hashes: seq<Hash>) {
    && (forall i, j :: 0 <= i < j < |hashes| ==> hashes[i] != hashes[j])
    && (forall h :: h in hashes && h in db.codes ==> db.codes[h].userId == u)
  }

  /** The user's recovery rows are exactly the new hashes, unspent; everyone else's are as they were. */
  ghost predicate RowsAre(before: map<Hash, Recovery>, after: map<Hash, Recovery>, u: UserId, hashes: seq<Hash>) {
    && (forall h :: h in after <==> h in hashes || (h in before && before[h].userId != u))
    && (forall h :: h in after ==> after[h] == if h in hashes then Recovery(u, None) else before[h])
  }

  /** An enrolment is confirmed exactly within its lifetime and with an accepted code. */
  lemma ConfirmExactly(db: Db, otp: Authenticator, cfg: Settings, u: UserId, code: Code, hashes: seq<Hash>, now: Time)
    ensures var (after, r) := Confirm(db, otp, cfg, u, code, hashes, now);
            && (r.Done? <==>
                && u in db.users && HashesFit(db, u, hashes)
                && var user := db.users[u];
                   && user.active && user.enabledAt.None?
                   && user.pendingSince.Some? && now < user.pendingSince.value + cfg.enrolmentLifetime
                   && cfg.available && Accepts(otp, user, code, now))
            && (!r.Done? ==> after == db)
            && (r.Done? ==>
                  && r.factor.Some? && r.factor.value.ByTotp?
                  && Fits(otp, db.users[u], code, now, r.factor.value.counter) && Unused(db.users[u], r.factor.value.counter)
                  && after.users == db.users[u := User(true, db.users[u].password, db.users[u].secret, None, Some(now),
                                                       Some(r.factor.value.counter))]
                  && RowsAre(db.codes, after.codes, u, hashes)
                  && after.challenges == db.challenges && after.sessions == db.sessions)
  {
    if u in db.users {
      AcceptsExactly(otp, cfg, db.users[u], code, now);
    }
  }

  /** Codes are drawn anew exactly with the password and an accepted code, never with a recovery code. */
  lemma RegenerateExactly(db: Db, otp: Authenticator, cfg: Settings, u: UserId, password: nat, code: Code, hashes: seq<Hash>,
                          now: Time)
    ensures var (after, r) := Regenerate(db, otp, cfg, u, password, code, hashes, now);
            && (r.Done? <==>
                && u in db.users && HashesFit(db, u, hashes)
                && var user := db.users[u];
                   && user.active && user.password == password && user.enabledAt.Some?
                   && cfg.available && Accepts(otp, user, code, now))
            && (!r.Done? ==> after == db)
            && (r.Done? ==>
                  && r.factor.Some? && r.factor.value.ByTotp?
                  && Fits(otp, db.users[u], code, now, r.factor.value.counter) && Unused(db.users[u], r.factor.value.counter)
                  && after.users == db.users[u := db.users[u].(lastCounter := Some(r.factor.value.counter))]
                  && RowsAre(db.codes, after.codes, u, hashes) && after.challenges == db.challenges
                  && EndedFor(db.sessions, after.sessions, u, Sessions.MfaRegenerated))
  {
    if u in db.users {
      AcceptsExactly(otp, cfg, db.users[u], code, now);
    }
  }

  /** The factor is switched off exactly with the password and either kind of code, and leaves nothing of itself behind. */
  lemma DisableExactly(db: Db, otp: Authenticator, cfg: Settings, u: UserId, password: nat, code: Code, now: Time)
    ensures var (after, r) := Disable(db, otp, cfg, u, password, code, now);
            && (r.Done? <==>
                && u in db.users
                && var user := db.users[u];
                   && user.active && user.password == password && user.enabledAt.Some?
                   && (|| (cfg.available && Accepts(otp, user, code, now))
                       || ((cfg.available || user.secret.None? || code.digits.None?) && Unspent(db, u, code))))
            && (!r.Done? ==> after == db)
            && (r.Done? ==>
                  && after.users == db.users[u := User(true, password, None, None, None, None)]
                  && RowsAre(db.codes, after.codes, u, []) && after.challenges == db.challenges
                  && EndedFor(db.sessions, after.sessions, u, Sessions.MfaDisabled))
  {
    if u in db.users {
      FactorExactly(db, otp, cfg, u, code, now);
    }
  }

  // ---- The requests an operation rests on, over whole runs ----

  /** Event `m` of the run succeeds. */
  ghost predicate DoneAt(otp: Authenticator, cfg: Settings, events: seq<Event>, m: nat)
    requires m < |events|
  {
    var before := Run(Start(), otp, cfg, events[..m]);
    Enabled(before, cfg, events[m]) && Apply(before.db, otp, cfg, events[m]).1.Done?
  }

  /** Event `m` answers the challenge, or starts another login of its user. */
  ghost predicate Uses(otp: Authenticator, cfg: Settings, events: seq<Event>, m: nat, token: Token, u: UserId)
    requires m < |events|
  {
    && DoneAt(otp, cfg, events, m)
    && ((events[m].FinishLogin? && events[m].token == token) || (events[m].StartLogin? && events[m].u == u))
  }

  /** Event `n` of the run stored the challenge, which nothing since has used if it is open. */
  ghost predicate IssuedAt(otp: Authenticator, cfg: Settings, events: seq<Event>, n: nat, token: Token, c: Challenge) {
    && n < |events| && events[n] == StartLogin(c.userId, c.primary, c.device, token, c.expiresAt - cfg.challengeLifetime)
    && (c.consumedAt.None? ==> forall m :: n < m < |events| ==> !Uses(otp, cfg, events, m, token, c.userId))
  }

  /** What one event does to a challenge: nothing, consume it, or store it. */
  lemma NextChallenge(s: System, otp: Authenticator, cfg: Settings, e: Event, token: Token)
    requires token in Next(s, otp, cfg, e).db.challenges
    ensures var c := Next(s, otp, cfg, e).db.challenges[token];
            || (token in s.db.challenges && c == s.db.challenges[token])
            || (token in s.db.challenges && c.consumedAt.Some?
                && c == s.db.challenges[token].(consumedAt := c.consumedAt))
            || (token !in s.db.challenges && Enabled(s, cfg, e)
                && e == StartLogin(c.userId, c.primary, c.device, token, c.expiresAt - cfg.challengeLifetime))
  {
    if Enabled(s, cfg, e) && e.FinishLogin? && Verify(s.db, otp, cfg, e.token, e.code, e.now).1.Done? {
      LoginWrites(s.db, otp, cfg, e.token, e.code, e.now);
    }
  }

  /** A challenge that was there and is still open was neither answered nor superseded by this event. */
  lemma OpenWasNotUsed(otp: Authenticator, cfg: Settings, events: seq<Event>, token: Token)
    requires events != [] && token in Run(Start(), otp, cfg, events[..|events| - 1]).db.challenges
    requires token in Run(Start(), otp, cfg, events).db.challenges
    requires Run(Start(), otp, cfg, events).db.challenges[token].consumedAt.None?
    ensures !Uses(otp, cfg, events, |events| - 1, token, Run(Start(), otp, cfg, events).db.challenges[token].userId)
  {
    var s, e := Run(Start(), otp, cfg, events[..|events| - 1]), events[|events| - 1];
    NextChallenge(s, otp, cfg, e, token);
    if Uses(otp, cfg, events, |events| - 1, token, s.db.challenges[token].userId) {
      if e.FinishLogin? {
        LoginWrites(s.db, otp, cfg, e.token, e.code, e.now);
      } else {
        PrepareExactly(s.db, cfg, e.u, e.primary, e.device, e.token, e.now);
      }
    }
  }

  lemma {:induction false} ChallengesWereIssued(otp: Authenticator, cfg: Settings, events: seq<Event>, token: Token)
    requires token in Run(Start(), otp, cfg, events).db.challenges
    ensures exists n: nat :: IssuedAt(otp, cfg, events, n, token, Run(Start(), otp, cfg, events).db.challenges[token])
  {
    var last := |events| - 1;
    var before, e := events[..last], events[last];
    var s, c := Run(Start(), otp, cfg, before), Run(Start(), otp, cfg, events).db.challenges[token];
    NextChallenge(s, otp, cfg, e, token);
    if token in s.db.challenges {
      ChallengesWereIssued(otp, cfg, before, token);
      var n: nat :| IssuedAt(otp, cfg, before, n, token, s.db.challenges[token]);
      if c.consumedAt.None? {
        OpenWasNotUsed(otp, cfg, events, token);
        forall m: nat | n < m < |events| ensures !Uses(otp, cfg, events, m, token, c.userId) {
          if m < last {
            assert before[..m] == events[..m] && before[m] == events[m];
            assert !Uses(otp, cfg, before, m, token, c.userId);
          }
        }
      }
      assert IssuedAt(otp, cfg, events, n, token, c);
    } else {
      assert IssuedAt(otp, cfg, events, last, token, c);
    }
  }

  /**
    Told by events alone: a login that finishes answers an earlier start of its token, less than the
    lifetime ago, with no login of that token finished and no other login of that user started since;
    its session is for the user, the device and the primary method of that start.
   */
  lemma LoginFollowsStart(otp: Authenticator, cfg: Settings, events: seq<Event>, e: Event)
    requires e.FinishLogin? && Verify(Run(Start(), otp, cfg, events).db, otp, cfg, e.token, e.code, e.now).1.Done?
    ensures var sessions := Run(Start(), otp, cfg, events + [e]).db.sessions;
            exists n :: 0 <= n < |events| && events[n].StartLogin? && events[n].token == e.token
                        && e.now < events[n].now + cfg.challengeLifetime
                        && (forall m :: n < m < |events| ==> !Uses(otp, cfg, events, m, e.token, events[n].u))
                        && |sessions| == |Run(Start(), otp, cfg, events).db.sessions| + 1
                        && var session := sessions[|sessions| - 1];
                           && session.userId == events[n].u && session.device == events[n].device
                           && session.primary == events[n].primary && session.revokedFor.None?
  {
    var s := Run(Start(), otp, cfg, events);
    assert (events + [e])[..|events|] == events;
    VerifyDoneExactly(s.db, otp, cfg, e.token, e.code, e.now);
    LoginWrites(s.db, otp, cfg, e.token, e.code, e.now);
    ChallengesWereIssued(otp, cfg, events, e.token);
    var n: nat :| IssuedAt(otp, cfg, events, n, e.token, s.db.challenges[e.token]);
  }

  /** Event `n` of the run began the enrolment that is pending. */
  ghost predicate BegunAt(events: seq<Event>, n: nat, u: UserId, user: User) {
    && n < |events| && events[n].BeginEnrolment? && events[n].u == u
    && user.pendingSince == Some(events[n].now) && user.secret == Some(events[n].secret)
  }

  lemma NextPending(s: System, otp: Authenticator, cfg: Settings, e: Event, u: UserId)
    requires u in Next(s, otp, cfg, e).db.users && Next(s, otp, cfg, e).db.users[u].pendingSince.Some?
    ensures var user := Next(s, otp, cfg, e).db.users[u];
            || (e.BeginEnrolment? && e.u == u && user.pendingSince == Some(e.now) && user.secret == Some(e.secret))
            || (u in s.db.users && user.pendingSince == s.db.users[u].pendingSince && user.secret == s.db.users[u].secret)
  {
  }

  lemma {:induction false} PendingWasBegun(otp: Authenticator, cfg: Settings, events: seq<Event>, u: UserId)
    requires u in Run(Start(), otp, cfg, events).db.users
    requires Run(Start(), otp, cfg, events).db.users[u].pendingSince.Some?
    ensures exists n: nat :: BegunAt(events, n, u, Run(Start(), otp, cfg, events).db.users[u])
  {
    var last := |events| - 1;
    var before, e := events[..last], events[last];
    var s, user := Run(Start(), otp, cfg, before), Run(Start(), otp, cfg, events).db.users[u];
    NextPending(s, otp, cfg, e, u);
    if e.BeginEnrolment? && e.u == u && user.pendingSince == Some(e.now) && user.secret == Some(e.secret) {
      assert BegunAt(events, last, u, user);
    } else {
      PendingWasBegun(otp, cfg, before, u);
      var n: nat :| BegunAt(before, n, u, s.db.users[u]);
      assert BegunAt(events, n, u, user);
    }
  }

  /** A confirmation rests on an enrolment begun for the user less than its lifetime ago, with the secret the code was made from. */
  lemma ConfirmationFollowsBegin(otp: Authenticator, cfg: Settings, events: seq<Event>, e: Event)
    requires e.ConfirmEnrolment?
    requires Confirm(Run(Start(), otp, cfg, events).db, otp, cfg, e.u, e.code, e.hashes, e.now).1.Done?
    ensures var r := Confirm(Run(Start(), otp, cfg, events).db, otp, cfg, e.u, e.code, e.hashes, e.now).1;
            exists n :: 0 <= n < |events| && events[n].BeginEnrolment? && events[n].u == e.u
                        && e.now < events[n].now + cfg.enrolmentLifetime
                        && r.factor.Some? && r.factor.value.ByTotp? && r.factor.value.secret == events[n].secret
                        && e.code.digits == Some(otp(events[n].secret, r.factor.value.counter))
  {
    var db := Run(Start(), otp, cfg, events).db;
    ConfirmExactly(db, otp, cfg, e.u, e.code, e.hashes, e.now);
    PendingWasBegun(otp, cfg, events, e.u);
    var n: nat :| BegunAt(events, n, e.u, db.users[e.u]);
  }
}
