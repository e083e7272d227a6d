/**
  When each session operation answers what, and what it changes, told by the fields of the stored rows
  and by the events of a run.
 */
module SessionOutcomes {
  import opened Common
  import opened Sessions
  import opened SessionRuns

  predicate UserActive(db: Db, u: UserId) { u in db.users && db.users[u].active }

  /** Each record in scope that was live is revoked with this reason and time; every other stays. */
  predicate RevokedWhere(before: seq<Record>, after: seq<Record>, hit: Record -> bool, reason: Reason, at: Time) {
    && |after| == |before|
    && forall k :: 0 <= k < |before| ==>
         after[k] == if hit(before[k]) && !before[k].revoked
                     then before[k].(revoked := true, revokedAt := Some(at), reason := Some(reason)) else before[k]
  }

  // ---- Refresh ----

  /** What presenting the token of record `i` answers and changes, case by case. */
  lemma RefreshOfRecord(events: seq<Event>, i: nat, now: Time, newToken: Token, expiresAt: Time)
    requires i < |Run(Empty(), events).records|
    ensures var db := Run(Empty(), events);
            var row := db.records[i];
            var (db', r) := RefreshAccess(db, row.token, now, newToken, expiresAt);
            && db'.users == db.users && db'.resets == db.resets
            && (row.revoked ==>
                  r == InvalidToken && RevokedWhere(db.records, db'.records, (q: Record) => q.familyId == row.familyId, ReuseDetected, now))
            && (!row.revoked && row.expiresAt < now ==> r == TokenExpired && db' == db)
            && (!row.revoked && now <= row.expiresAt && row.userId !in db.users ==> r == UserNotFound && db' == db)
            && (!row.revoked && now <= row.expiresAt && row.userId in db.users && !db.users[row.userId].active ==>
                  r == AccountInactive
                  && RevokedWhere(db.records, db'.records, (q: Record) => q.userId == row.userId, AccountDisabled, now))
            && (!row.revoked && now <= row.expiresAt && UserActive(db, row.userId) ==> r == Refreshed(newToken))
  {
    RunKeepsChains(Empty(), events);
    FindIsExact(Run(Empty(), events).records, i);
  }

  lemma UnknownToken(db: Db, token: Token, now: Time, newToken: Token, expiresAt: Time)
    requires forall i :: 0 <= i < |db.records| ==> db.records[i].token != token
    ensures RefreshAccess(db, token, now, newToken, expiresAt) == (db, InvalidToken)
    ensures Logout(db, token, now) == (db, false)
  {
  }

  /** A record with the token exists, is live, in time, and its user is as `user` says. */
  ghost predicate LiveRecord(db: Db, token: Token, now: Time, user: UserId -> bool) {
    exists i :: 0 <= i < |db.records| && db.records[i].token == token && !db.records[i].revoked
                && now <= db.records[i].expiresAt && user(db.records[i].userId)
  }

  /** In every run each of the five answers comes exactly in its own case. */
  lemma RefreshExactly(events: seq<Event>, token: Token, now: Time, newToken: Token, expiresAt: Time)
    ensures var db := Run(Empty(), events);
            var r := RefreshAccess(db, token, now, newToken, expiresAt).1;
            && (r.Refreshed? <==> LiveRecord(db, token, now, (u: UserId) => u in db.users && db.users[u].active))
            && (r.AccountInactive? <==> LiveRecord(db, token, now, (u: UserId) => u in db.users && !db.users[u].active))
            && (r.UserNotFound? <==> LiveRecord(db, token, now, (u: UserId) => u !in db.users))
            && (r.TokenExpired? <==> exists i :: 0 <= i < |db.records| && db.records[i].token == token
                                                 && !db.records[i].revoked && db.records[i].expiresAt < now)
            && (r.InvalidToken? <==> forall i :: 0 <= i < |db.records| && db.records[i].token == token ==> db.records[i].revoked)
  {
    var db := Run(Empty(), events);
    if i :| 0 <= i < |db.records| && db.records[i].token == token {
      RefreshOfRecord(events, i, now, newToken, expiresAt);
      OneRecord(events, i);
    } else {
      UnknownToken(db, token, now, newToken, expiresAt);
    }
  }

  lemma OneRecord(events: seq<Event>, i: nat)
    requires i < |Run(Empty(), events).records|
    ensures var rs := Run(Empty(), events).records;
            forall j :: 0 <= j < |rs| && rs[j].token == rs[i].token ==> j == i
  {
    FamiliesAreChains(events, i);
  }

  predicate RotatedInTime(rs: seq<Record>) {
    forall i :: 0 <= i < |rs| && rs[i].reason == Some(Rotated) ==> rs[i].revokedAt.Some? && rs[i].revokedAt.value <= rs[i].expiresAt
  }

  lemma RotationInTime(rs: seq<Record>, scope: Scope, reason: Reason, at: Time)
    requires RotatedInTime(rs) && reason != Rotated
    ensures RotatedInTime(RevokeLive(rs, scope, reason, at))
  {
  }

  lemma NextRotatesInTime(db: Db, e: Event)
    requires RotatedInTime(db.records)
    ensures RotatedInTime(Next(db, e).records)
  {
    if Enabled(db, e) {
      match e
      case Refresh(token, now, newToken, expiresAt) =>
        var found := Find(db.records, token);
        if found.Some? {
          RotationInTime(db.records, OfFamily(db.records[found.value].familyId), ReuseDetected, now);
          RotationInTime(db.records, OfUser(db.records[found.value].userId), AccountDisabled, now);
        }
      case RevokeAll(u, reason, now) => RotationInTime(db.records, OfUser(u), reason, now);
      case _ =>
    }
  }

  /** Over every run no token is rotated after it has expired. */
  lemma {:induction false} NoRotationAfterExpiry(events: seq<Event>)
    ensures RotatedInTime(Run(Empty(), events).records)
  {
    if events != [] {
      NoRotationAfterExpiry(events[..|events| - 1]);
      NextRotatesInTime(Run(Empty(), events[..|events| - 1]), events[|events| - 1]);
    }
  }

  // ---- Login ----

  /** A login is accepted exactly for an existing active user and then adds this one live record and nothing else. */
  lemma LoginExactly(db: Db, u: UserId, f: FamilyId, token: Token, expiresAt: Time, now: Time, device: string)
    ensures var (db', ok) := IssueSession(db, u, f, token, expiresAt, now, device);
            && (ok <==> u in db.users && db.users[u].active)
            && (!ok ==> db' == db)
            && (ok ==>
                  && db'.users == db.users && db'.resets == db.resets
                  && |db'.records| == |db.records| + 1 && db'.records[..|db.records|] == db.records
                  && var row := db'.records[|db.records|];
                     row.userId == u && row.familyId == f && row.token == token && row.expiresAt == expiresAt
                     && row.createdAt == now && row.lastUsedAt == now && row.device == device && !row.revoked)
  {
  }

  // ---- Ending sessions ----

  /** Ending one session revokes the user's records of that family; ending all revokes the user's; nothing else changes. */
  lemma RevocationsExactly(db: Db, u: UserId, f: FamilyId, reason: Reason, now: Time)
    requires UserWide(reason)
    ensures var db' := Next(db, RevokeSession(u, f, now));
            db'.users == db.users && db'.resets == db.resets
            && RevokedWhere(db.records, db'.records, (q: Record) => q.userId == u && q.familyId == f, UserRevoked, now)
    ensures var db' := Next(db, RevokeAll(u, reason, now));
            db'.users == db.users && db'.resets == db.resets
            && RevokedWhere(db.records, db'.records, (q: Record) => q.userId == u, reason, now)
  {
  }

  // ---- Password reset ----

  /** A reset secret is issued exactly to an active user with a verified address, and replaces the open ones. */
  lemma ResetIssuedExactly(db: Db, u: UserId, secret: Secret, now: Time, lifetime: Time, other: Secret)
    requires secret !in db.resets
    ensures var (db', ok) := IssueReset(db, u, secret, now, lifetime);
            && (ok <==> u in db.users && db.users[u].active && db.users[u].emailVerified && db.users[u].email.Some?)
            && (!ok ==> db' == db)
            && (ok ==>
                  && db'.users == db.users && db'.records == db.records && secret in db'.resets
                  && db'.resets[secret].userId == u && Some(db'.resets[secret].target) == db.users[u].email
                  && db'.resets[secret].expiresAt == now + lifetime && db'.resets[secret].consumedAt.None?
                  && (other in db.resets ==>
                        && other in db'.resets
                        && (db.resets[other].userId == u ==> db'.resets[other].consumedAt.Some?)
                        && (db.resets[other].userId != u ==> db'.resets[other] == db.resets[other])))
  {
  }

  /**
    A reset is confirmed exactly with an unconsumed secret in time, for an active user whose verified
    address is still the one it was sent to.
   */
  lemma ResetConfirmedExactly(db: Db, secret: Secret, password: nat, now: Time)
    ensures var (db', ok) := ConfirmReset(db, secret, password, now);
            && (ok <==>
                && secret in db.resets && db.resets[secret].consumedAt.None? && now < db.resets[secret].expiresAt
                && db.resets[secret].userId in db.users
                && db.users[db.resets[secret].userId].active && db.users[db.resets[secret].userId].emailVerified
                && db.users[db.resets[secret].userId].email == Some(db.resets[secret].target))
            && (!ok ==> db' == db)
            && (ok ==>
                  && secret in db.resets
                  && var u := db.resets[secret].userId;
                     u in db.users && db'.users == db.users[u := db.users[u].(password := password, passwordLogin := true)]
                     && RevokedWhere(db.records, db'.records, (q: Record) => q.userId == u, PasswordReset, now)
                     && (forall s :: s in db.resets <==> s in db'.resets)
                     && (forall s :: s in db.resets && db.resets[s].userId == u ==> db'.resets[s].consumedAt.Some?)
                     && (forall s :: s in db.resets && db.resets[s].userId != u ==> db'.resets[s] == db.resets[s]))
  {
  }

  /** Request number `n` of the run asked for this secret. */
  predicate RequestedAt(events: seq<Event>, n: nat, secret: Secret, row: ResetToken) {
    && n < |events| && events[n].RequestReset?
    && events[n].secret == secret && events[n].userId == row.userId && row.expiresAt == events[n].now + events[n].lifetime
  }

  lemma NextResets(db: Db, e: Event, secret: Secret)
    requires secret in Next(db, e).resets
    ensures var row := Next(db, e).resets[secret];
            || (secret in db.resets && row.userId == db.resets[secret].userId && row.expiresAt == db.resets[secret].expiresAt)
            || RequestedAt([e], 0, secret, row)
  {
  }

  lemma {:induction false} ResetsWereRequested(events: seq<Event>, secret: Secret)
    requires secret in Run(Empty(), events).resets
    ensures exists n :: RequestedAt(events, n, secret, Run(Empty(), events).resets[secret])
  {
    var before, e := events[..|events| - 1], events[|events| - 1];
    var row := Run(Empty(), events).resets[secret];
    NextResets(Run(Empty(), before), e, secret);
    if RequestedAt([e], 0, secret, row) {
      assert RequestedAt(events, |events| - 1, secret, row);
    } else {
      ResetsWereRequested(before, secret);
      var n :| RequestedAt(before, n, secret, Run(Empty(), before).resets[secret]);
      assert RequestedAt(events, n, secret, row);
    }
  }

  /** Over every run a confirmed reset was requested for that user less than its lifetime ago. */
  lemma ResetFollowsRequest(events: seq<Event>, secret: Secret, password: nat, now: Time)
    requires ConfirmReset(Run(Empty(), events), secret, password, now).1
    ensures exists n :: 0 <= n < |events| && events[n].RequestReset? && events[n].secret == secret
                        && now < events[n].now + events[n].lifetime
                        && events[n].userId in Run(Empty(), events).users
                        && ConfirmReset(Run(Empty(), events), secret, password, now).0.users[events[n].userId].password == password
  {
    ResetConfirmedExactly(Run(Empty(), events), secret, password, now);
    ResetsWereRequested(events, secret);
    var n :| RequestedAt(events, n, secret, Run(Empty(), events).resets[secret]);
  }
}
