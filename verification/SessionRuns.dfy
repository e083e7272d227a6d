/** Every sequence of logins, rotations, replays, logouts, revocations and password resets. */
module SessionRuns {
  import opened Common
  import opened Sessions

  datatype Event =
    | SetUser(userId: UserId, account: Account)
    | RemoveUser(userId: UserId)
    | Login(userId: UserId, familyId: FamilyId, token: Token, expiresAt: Time, now: Time, device: string)
    | Refresh(token: Token, now: Time, newToken: Token, expiresAt: Time)
    | LogoutToken(token: Token, now: Time)
    | RevokeSession(userId: UserId, familyId: FamilyId, now: Time)
    | RevokeAll(userId: UserId, reason: Reason, now: Time)
    | RequestReset(userId: UserId, secret: Secret, now: Time, lifetime: Time)
    | Reset(secret: Secret, password: nat, now: Time)

  /** Reasons that bulk revocation of a user's sessions is called with. */
  predicate UserWide(reason: Reason) {
    reason != Rotated && reason != ReuseDetected
  }

  predicate FreshToken(db: Db, token: Token) {
    forall i :: 0 <= i < |db.records| ==> db.records[i].token != token
  }

  predicate FreshFamily(db: Db, f: FamilyId) {
    forall i :: 0 <= i < |db.records| ==> db.records[i].familyId != f
  }

  predicate Enabled(db: Db, e: Event) {
    match e
    case Login(_, f, t, _, _, _) => FreshToken(db, t) && FreshFamily(db, f)
    case Refresh(_, _, newToken, _) => FreshToken(db, newToken)
    case RevokeAll(_, reason, _) => UserWide(reason)
    case RequestReset(_, secret, _, _) => secret !in db.resets
    case _ => true
  }

  function Next(db: Db, e: Event): Db {
    if !Enabled(db, e) then db else
    match e
    case SetUser(u, account) => db.(users := db.users[u := account])
    case RemoveUser(u) => db.(users := db.users - {u})
    case Login(u, f, t, expiresAt, now, device) => IssueSession(db, u, f, t, expiresAt, now, device).0
    case Refresh(t, now, newToken, expiresAt) => RefreshAccess(db, t, now, newToken, expiresAt).0
    case LogoutToken(t, now) => Logout(db, t, now).0
    case RevokeSession(u, f, now) => db.(records := RevokeLive(db.records, OfUserFamily(u, f), UserRevoked, now))
    case RevokeAll(u, reason, now) => db.(records := RevokeLive(db.records, OfUser(u), reason, now))
    case RequestReset(u, secret, now, lifetime) => IssueReset(db, u, secret, now, lifetime).0
    case Reset(secret, password, now) => ConfirmReset(db, secret, password, now).0
  }

  function Run(db: Db, events: seq<Event>): Db {
    if events == [] then db else Next(Run(db, events[..|events| - 1]), events[|events| - 1])
  }

  // ---- Families are chains ----

  ghost predicate HasSuccessor(rs: seq<Record>, i: nat)
    requires i < |rs|
  {
    exists j :: i < j < |rs| && rs[j].familyId == rs[i].familyId
  }

  /** In creation order a family is rotated, rotated, ..., and a last record that is not. */
  ghost predicate Chains(rs: seq<Record>) {
    && (forall i, j :: 0 <= i < j < |rs| ==> rs[i].token != rs[j].token)
    && (forall i, j :: 0 <= i < j < |rs| && rs[i].familyId == rs[j].familyId ==>
          rs[i].userId == rs[j].userId && rs[i].reason == Some(Rotated))
    && (forall i :: 0 <= i < |rs| ==>
          && (rs[i].revoked <==> rs[i].revokedAt.Some?)
          && (rs[i].revoked <==> rs[i].reason.Some?))
    && (forall i :: 0 <= i < |rs| && rs[i].reason == Some(Rotated) ==> HasSuccessor(rs, i))
  }

  /** `r'` is `r`, or `r` was live and `r'` is the same record revoked for a reason other than rotation. */
  predicate SameOrRevoked(r: Record, r': Record) {
    || r' == r
    || (&& r'.token == r.token && r'.familyId == r.familyId && r'.userId == r.userId
        && !r.revoked && r'.revoked && r'.revokedAt.Some? && r'.reason.Some? && r'.reason != Some(Rotated))
  }

  lemma RevocationKeepsChains(rs: seq<Record>, rs': seq<Record>)
    requires Chains(rs) && |rs'| == |rs|
    requires forall i :: 0 <= i < |rs| ==> SameOrRevoked(rs[i], rs'[i])
    ensures Chains(rs')
  {
    forall i | 0 <= i < |rs'| && rs'[i].reason == Some(Rotated) ensures HasSuccessor(rs', i) {
      assert SameOrRevoked(rs[i], rs'[i]) && HasSuccessor(rs, i);
      var j :| i < j < |rs| && rs[j].familyId == rs[i].familyId;
      assert SameOrRevoked(rs[j], rs'[j]);
    }
    forall i, j | 0 <= i < j < |rs'| && rs'[i].familyId == rs'[j].familyId
      ensures rs'[i].userId == rs'[j].userId && rs'[i].reason == Some(Rotated)
    {
      assert SameOrRevoked(rs[i], rs'[i]) && SameOrRevoked(rs[j], rs'[j]);
    }
    forall i, j | 0 <= i < j < |rs'| ensures rs'[i].token != rs'[j].token {
      assert SameOrRevoked(rs[i], rs'[i]) && SameOrRevoked(rs[j], rs'[j]);
    }
  }

  lemma RevokeKeepsChains(rs: seq<Record>, scope: Scope, reason: Reason, at: Time)
    requires Chains(rs) && reason != Rotated
    ensures Chains(RevokeLive(rs, scope, reason, at))
  {
    var rs' := RevokeLive(rs, scope, reason, at);
    forall i | 0 <= i < |rs| ensures SameOrRevoked(rs[i], rs'[i]) {
      assert rs'[i] == rs[i] || (rs'[i] == Revoke(rs[i], reason, at) && !rs[i].revoked);
    }
    RevocationKeepsChains(rs, rs');
  }

  lemma RotationKeepsChains(rs: seq<Record>, i: nat, used: Record, issued: Record)
    requires Chains(rs) && i < |rs| && !rs[i].revoked
    requires used.token == rs[i].token && used.familyId == rs[i].familyId && used.userId == rs[i].userId
    requires used.revoked && used.revokedAt.Some? && used.reason == Some(Rotated)
    requires issued.familyId == rs[i].familyId && issued.userId == rs[i].userId
    requires !issued.revoked && issued.revokedAt.None? && issued.reason.None?
    requires forall k :: 0 <= k < |rs| ==> rs[k].token != issued.token
    ensures Chains(rs[i := used] + [issued])
  {
    var rs' := rs[i := used] + [issued];
    assert rs'[|rs|] == issued;
    forall k | 0 <= k < |rs'| && rs'[k].reason == Some(Rotated) ensures HasSuccessor(rs', k) {
      if k != i {
        assert rs[k] == rs'[k] && HasSuccessor(rs, k);
        var j :| k < j < |rs| && rs[j].familyId == rs[k].familyId;
        assert rs'[j].familyId == rs'[k].familyId;
      } else {
        assert rs'[|rs|].familyId == rs'[i].familyId;
      }
    }
    forall k, j | 0 <= k < j < |rs'| && rs'[k].familyId == rs'[j].familyId
      ensures rs'[k].userId == rs'[j].userId && rs'[k].reason == Some(Rotated)
    {
      if j == |rs| {
        // Only the last record of a family is live, so the rotated one is the last before `issued`.
        assert k < i ==> rs[k].reason == Some(Rotated);
        assert forall m :: i < m < |rs| ==> rs[m].familyId != rs[i].familyId;
      }
    }
  }

  lemma NextKeepsChains(db: Db, e: Event)
    requires Chains(db.records)
    ensures Chains(Next(db, e).records)
  {
    if Enabled(db, e) {
      match e
      case Login(u, f, t, expiresAt, now, device) =>
        var rs' := db.records + [NewRecord(u, f, t, expiresAt, now, device)];
        forall i | 0 <= i < |db.records| && db.records[i].reason == Some(Rotated) ensures HasSuccessor(rs', i) {
          assert HasSuccessor(db.records, i);
          var j :| i < j < |db.records| && db.records[j].familyId == db.records[i].familyId;
          assert rs'[j].familyId == rs'[i].familyId;
        }
      case Refresh(t, now, newToken, expiresAt) =>
        match Find(db.records, t) {
          case None =>
          case Some(i) =>
            var stored := db.records[i];
            RevokeKeepsChains(db.records, OfFamily(stored.familyId), ReuseDetected, now);
            RevokeKeepsChains(db.records, OfUser(stored.userId), AccountDisabled, now);
            if !stored.revoked {
              RotationKeepsChains(db.records, i, Revoke(stored, Rotated, now).(lastUsedAt := now),
                                  NewRecord(stored.userId, stored.familyId, newToken, expiresAt, now, stored.device));
            }
        }
      case LogoutToken(t, now) =>
        match Find(db.records, t) {
          case None =>
          case Some(i) => RevokeKeepsChains(db.records, OfFamily(db.records[i].familyId), LoggedOut, now);
        }
      case RevokeSession(u, f, now) => RevokeKeepsChains(db.records, OfUserFamily(u, f), UserRevoked, now);
      case RevokeAll(u, reason, now) => RevokeKeepsChains(db.records, OfUser(u), reason, now);
      case Reset(secret, _, now) =>
        if secret in db.resets {
          RevokeKeepsChains(db.records, OfUser(db.resets[secret].userId), PasswordReset, now);
        }
      case _ =>
    }
  }

  lemma {:induction false} RunKeepsChains(db: Db, events: seq<Event>)
    requires Chains(db.records)
    ensures Chains(Run(db, events).records)
  {
    if events != [] {
      RunKeepsChains(db, events[..|events| - 1]);
      NextKeepsChains(Run(db, events[..|events| - 1]), events[|events| - 1]);
    }
  }

  /**
    In every run a family is a chain: a record is rotated exactly when another one of its family comes
    after it, so only the last can be live; user and family never mix and no token repeats.
   */
  lemma FamiliesAreChains(events: seq<Event>, i: nat)
    requires i < |Run(Empty(), events).records|
    ensures var rs := Run(Empty(), events).records;
            && (rs[i].reason == Some(Rotated) <==> HasSuccessor(rs, i))
            && (rs[i].revoked <==> rs[i].revokedAt.Some? && rs[i].reason.Some?)
            && (!rs[i].revoked ==> forall j :: i < j < |rs| ==> rs[j].familyId != rs[i].familyId)
            && (forall j :: 0 <= j < |rs| && j != i ==> rs[j].token != rs[i].token)
            && (forall j :: 0 <= j < |rs| && rs[j].familyId == rs[i].familyId ==> rs[j].userId == rs[i].userId)
            && (forall j :: 0 <= j < |rs| && j != i && rs[j].familyId == rs[i].familyId && !rs[j].revoked ==> rs[i].revoked)
  {
    RunKeepsChains(Empty(), events);
    var rs := Run(Empty(), events).records;
    forall j | 0 <= j < |rs| && j != i
      ensures rs[j].token != rs[i].token
      ensures rs[j].familyId == rs[i].familyId ==> rs[j].userId == rs[i].userId && (!rs[j].revoked ==> rs[i].revoked)
    {
      var a, b := if i < j then i else j, if i < j then j else i;
      assert rs[a].token != rs[b].token;
    }
  }

  // ---- Records are append-only and revocation is written once ----

  ghost predicate Preserves(before: seq<Record>, after: seq<Record>) {
    && |before| <= |after|
    && forall i :: 0 <= i < |before| ==>
         && after[i].userId == before[i].userId && after[i].familyId == before[i].familyId
         && after[i].token == before[i].token && after[i].expiresAt == before[i].expiresAt
         && after[i].createdAt == before[i].createdAt && after[i].device == before[i].device
         && (before[i].revoked ==> after[i] == before[i])
  }

  lemma NextPreserves(db: Db, e: Event)
    ensures Preserves(db.records, Next(db, e).records)
  {
  }

  /** Nothing ever rewrites a revoked record: its time and reason are the first ones written. */
  lemma {:induction false} RevocationIsFinal(db: Db, events: seq<Event>)
    ensures Preserves(db.records, Run(db, events).records)
  {
    if events != [] {
      var middle := Run(db, events[..|events| - 1]);
      RevocationIsFinal(db, events[..|events| - 1]);
      NextPreserves(middle, events[|events| - 1]);
    }
  }

  predicate Dead(rs: seq<Record>, f: FamilyId) {
    forall i :: 0 <= i < |rs| && rs[i].familyId == f ==> rs[i].revoked
  }

  lemma DeadStep(db: Db, e: Event, f: FamilyId)
    requires Dead(db.records, f) && !FreshFamily(db, f)
    ensures Dead(Next(db, e).records, f) && !FreshFamily(Next(db, e), f)
    ensures forall i :: |db.records| <= i < |Next(db, e).records| ==> Next(db, e).records[i].familyId != f
  {
    var i :| 0 <= i < |db.records| && db.records[i].familyId == f;
    assert Next(db, e).records[i].familyId == f;
  }

  /** A family without a live token never gets one again, on any path. */
  lemma {:induction false} DeadFamiliesStayDead(db: Db, events: seq<Event>, f: FamilyId)
    requires Dead(db.records, f) && !FreshFamily(db, f)
    ensures Dead(Run(db, events).records, f) && !FreshFamily(Run(db, events), f)
    ensures |db.records| <= |Run(db, events).records|
    ensures forall i :: |db.records| <= i < |Run(db, events).records| ==> Run(db, events).records[i].familyId != f
  {
    if events != [] {
      DeadFamiliesStayDead(db, events[..|events| - 1], f);
      DeadStep(Run(db, events[..|events| - 1]), events[|events| - 1], f);
      RevocationIsFinal(db, events);
      RevocationIsFinal(db, events[..|events| - 1]);
    }
  }

  // ---- What single operations do to a chain ----

  /**
    Replay. Presenting a token that was already rotated kills its family for good: the one live
    record is revoked as reused, and no other record changes.
   */
  lemma ReplayKillsFamily(events: seq<Event>, i: nat, now: Time, newToken: Token, expiresAt: Time, later: seq<Event>)
    requires i < |Run(Empty(), events).records| && Run(Empty(), events).records[i].revoked
    ensures var db := Run(Empty(), events);
            var (db', r) := RefreshAccess(db, db.records[i].token, now, newToken, expiresAt);
            && r == InvalidToken
            && |db'.records| == |db.records|
            && (forall k :: 0 <= k < |db.records| ==>
                  db'.records[k] == if db.records[k].familyId == db.records[i].familyId && !db.records[k].revoked
                                    then Revoke(db.records[k], ReuseDetected, now) else db.records[k])
            && Dead(Run(db', later).records, db.records[i].familyId)
  {
    RunKeepsChains(Empty(), events);
    var db := Run(Empty(), events);
    var f := db.records[i].familyId;
    var db' := RefreshAccess(db, db.records[i].token, now, newToken, expiresAt).0;
    FindIsExact(db.records, i);
    assert db'.records[i].familyId == f;
    DeadFamiliesStayDead(db', later, f);
  }

  lemma FindIsExact(rs: seq<Record>, i: nat)
    requires Chains(rs) && i < |rs|
    ensures Find(rs, rs[i].token) == Some(i)
  {
    var found := Find(rs, rs[i].token);
    assert forall k :: 0 <= k < |rs| && k != i ==> rs[k].token != rs[i].token;
  }

  /** A refresh that succeeds moves the family's single live token from the old record to the new one. */
  lemma RotationMovesTheLiveToken(events: seq<Event>, token: Token, now: Time, newToken: Token, expiresAt: Time, k: nat)
    requires FreshToken(Run(Empty(), events), newToken)
    requires RefreshAccess(Run(Empty(), events), token, now, newToken, expiresAt).1.Refreshed?
    requires k < |Run(Empty(), events).records| + 1
    ensures var db := Run(Empty(), events);
            var db' := RefreshAccess(db, token, now, newToken, expiresAt).0;
            |db'.records| == |db.records| + 1 &&
            var issued := db'.records[|db.records|];
            && issued.token == newToken && issued.createdAt == now && issued.expiresAt == expiresAt && !issued.revoked
            && (db'.records[k].familyId == issued.familyId ==> (db'.records[k].revoked <==> k < |db.records|))
            && (k < |db.records| && db.records[k].token == token ==>
                  && db'.records[k] == Revoke(db.records[k], Rotated, now).(lastUsedAt := now)
                  && issued.familyId == db.records[k].familyId && issued.userId == db.records[k].userId
                  && issued.device == db.records[k].device)
            && (k < |db.records| && db.records[k].token != token ==> db'.records[k] == db.records[k])
  {
    RunKeepsChains(Empty(), events);
    var db := Run(Empty(), events);
    NextKeepsChains(db, Refresh(token, now, newToken, expiresAt));
    var i := Find(db.records, token).value;
    if k < |db.records| && k != i {
      var a, b := if k < i then k else i, if k < i then i else k;
      assert db.records[a].token != db.records[b].token;
    }
  }

  /** Logging out with any token of a family ends that family for good and touches no other. */
  lemma LogoutEndsFamily(events: seq<Event>, i: nat, now: Time, later: seq<Event>)
    requires i < |Run(Empty(), events).records|
    ensures var db := Run(Empty(), events);
            var f := db.records[i].familyId;
            var (db', ok) := Logout(db, db.records[i].token, now);
            && ok && |db'.records| == |db.records|
            && (forall k :: 0 <= k < |db.records| && db.records[k].familyId != f ==> db'.records[k] == db.records[k])
            && (forall k :: 0 <= k < |db.records| && db.records[k].familyId == f ==>
                  db'.records[k] == if db.records[k].revoked then db.records[k] else Revoke(db.records[k], LoggedOut, now))
            && Dead(Run(db', later).records, f)
  {
    RunKeepsChains(Empty(), events);
    var db := Run(Empty(), events);
    FindIsExact(db.records, i);
    var db' := Logout(db, db.records[i].token, now).0;
    assert db'.records[i].familyId == db.records[i].familyId;
    DeadFamiliesStayDead(db', later, db.records[i].familyId);
  }

  // ---- Password reset ----

  /** A password reset ends every session of the user, and none of those families comes back. */
  lemma ResetEndsSessions(events: seq<Event>, secret: Secret, password: nat, now: Time, later: seq<Event>, f: FamilyId)
    requires ConfirmReset(Run(Empty(), events), secret, password, now).1
    requires var db := Run(Empty(), events);
             exists i :: 0 <= i < |db.records| && db.records[i].familyId == f && db.records[i].userId == db.resets[secret].userId
    ensures var db := Run(Empty(), events);
            var db' := ConfirmReset(db, secret, password, now).0;
            && Dead(Run(db', later).records, f)
            && db'.users[db.resets[secret].userId].password == password
  {
    RunKeepsChains(Empty(), events);
    var db := Run(Empty(), events);
    var u := db.resets[secret].userId;
    var db' := ConfirmReset(db, secret, password, now).0;
    var i :| 0 <= i < |db.records| && db.records[i].familyId == f && db.records[i].userId == u;
    forall k | 0 <= k < |db'.records| && db'.records[k].familyId == f ensures db'.records[k].revoked {
      if k != i {
        var a, b := if k < i then k else i, if k < i then i else k;
        assert db.records[a].familyId == db.records[b].familyId;
      }
    }
    assert db'.records[i].familyId == f;
    DeadFamiliesStayDead(db', later, f);
  }

  ghost predicate Spent(db: Db, secret: Secret) {
    secret in db.resets && db.resets[secret].consumedAt.Some?
  }

  /** A consumed reset secret is refused on every later path. */
  lemma {:induction false} SpentStaysSpent(db: Db, events: seq<Event>, secret: Secret, password: nat, now: Time)
    requires Spent(db, secret)
    ensures Spent(Run(db, events), secret)
    ensures ConfirmReset(Run(db, events), secret, password, now) == (Run(db, events), false)
  {
    if events != [] {
      SpentStaysSpent(db, events[..|events| - 1], secret, password, now);
    }
  }

  /** At most one reset succeeds among all the secrets outstanding for a user, and each works at most once. */
  lemma ResetWorksOnce(db: Db, secret: Secret, password: nat, now: Time, events: seq<Event>, again: Secret,
                       password': nat, now': Time)
    requires ConfirmReset(db, secret, password, now).1
    requires again in db.resets && db.resets[again].userId == db.resets[secret].userId
    ensures var after := Run(ConfirmReset(db, secret, password, now).0, events);
            ConfirmReset(after, again, password', now') == (after, false)
  {
    SpentStaysSpent(ConfirmReset(db, secret, password, now).0, events, again, password', now');
  }
}
