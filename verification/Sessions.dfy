/**
  Refresh-token families: login, rotation, replay detection and every way a session is revoked.

  Each operation is one committed transaction. Raw tokens stand for their SHA-256 hashes, and new
  tokens, family ids and reset secrets are fresh values chosen by the caller.
 */
module Sessions {
  import opened Common

  type UserId = nat
  type FamilyId = nat
  type Token = nat
  type Secret = nat
  type Email = nat

  datatype Reason =
    | Rotated | ReuseDetected | LoggedOut | UserRevoked | AccountDisabled | PasswordReset
    | MfaRegenerated | MfaDisabled | MfaRecoveryUsed | IdentityLinked | IdentityUnlinked

  datatype Record = Record(
    userId: UserId,
    familyId: FamilyId,
    token: Token,
    expiresAt: Time,
    createdAt: Time,
    lastUsedAt: Time,
    device: string,
    revoked: bool,
    revokedAt: Option<Time>,
    reason: Option<Reason>)

  datatype Account = Account(active: bool, email: Option<Email>, emailVerified: bool, password: nat, passwordLogin: bool)

  datatype ResetToken = ResetToken(userId: UserId, target: Email, expiresAt: Time, consumedAt: Option<Time>)

  /** Token records are kept in creation order. */
  datatype Db = Db(users: map<UserId, Account>, records: seq<Record>, resets: map<Secret, ResetToken>)

  function Empty(): Db { Db(map[], [], map[]) }

  // ---- Lookups and bulk updates ----

  function Find(records: seq<Record>, token: Token): (r: Option<nat>)
    ensures r.Some? ==> r.value < |records| && records[r.value].token == token
    ensures r.None? ==> forall i :: 0 <= i < |records| ==> records[i].token != token
  {
    if records == [] then None
    else if records[|records| - 1].token == token then Some(|records| - 1)
    else Find(records[..|records| - 1], token)
  }

  datatype Scope = OfFamily(familyId: FamilyId) | OfUser(userId: UserId) | OfUserFamily(userId: UserId, familyId: FamilyId)

  predicate InScope(r: Record, scope: Scope) {
    match scope
    case OfFamily(f) => r.familyId == f
    case OfUser(u) => r.userId == u
    case OfUserFamily(u, f) => r.userId == u && r.familyId == f
  }

  function Revoke(r: Record, reason: Reason, at: Time): Record {
    r.(revoked := true, revokedAt := Some(at), reason := Some(reason))
  }

  /** The bulk update: only records that are not revoked yet are touched. */
  function RevokeLive(records: seq<Record>, scope: Scope, reason: Reason, at: Time): (r: seq<Record>)
    ensures |r| == |records|
  {
    seq(|records|, i requires 0 <= i < |records| =>
      if InScope(records[i], scope) && !records[i].revoked then Revoke(records[i], reason, at) else records[i])
  }

  // ---- Operations ----

  datatype RefreshResult = Refreshed(token: Token) | InvalidToken | TokenExpired | UserNotFound | AccountInactive

  function NewRecord(userId: UserId, familyId: FamilyId, token: Token, expiresAt: Time, now: Time, device: string): Record {
    Record(userId, familyId, token, expiresAt, now, now, device, false, None, None)
  }

  function RefreshAccess(db: Db, token: Token, now: Time, newToken: Token, expiresAt: Time): (Db, RefreshResult) {
    match Find(db.records, token)
    case None => (db, InvalidToken)
    case Some(i) =>
      var stored := db.records[i];
      if stored.revoked then
        (db.(records := RevokeLive(db.records, OfFamily(stored.familyId), ReuseDetected, now)), InvalidToken)
      else if stored.expiresAt < now then (db, TokenExpired)
      else if stored.userId !in db.users then (db, UserNotFound)
      else if !db.users[stored.userId].active then
        (db.(records := RevokeLive(db.records, OfUser(stored.userId), AccountDisabled, now)), AccountInactive)
      else
        var used := Revoke(stored, Rotated, now).(lastUsedAt := now);
        var issued := NewRecord(stored.userId, stored.familyId, newToken, expiresAt, now, stored.device);
        (db.(records := db.records[i := used] + [issued]), Refreshed(newToken))
  }

  function Logout(db: Db, token: Token, now: Time): (Db, bool) {
    match Find(db.records, token)
    case None => (db, false)
    case Some(i) => (db.(records := RevokeLive(db.records, OfFamily(db.records[i].familyId), LoggedOut, now)), true)
  }

  function IssueSession(db: Db, userId: UserId, familyId: FamilyId, token: Token, expiresAt: Time, now: Time,
                        device: string): (Db, bool)
  {
    if userId !in db.users || !db.users[userId].active then (db, false)
    else (db.(records := db.records + [NewRecord(userId, familyId, token, expiresAt, now, device)]), true)
  }

  function ConsumeResets(resets: map<Secret, ResetToken>, userId: UserId, now: Time): map<Secret, ResetToken> {
    map s | s in resets ::
      if resets[s].userId == userId && resets[s].consumedAt.None? then resets[s].(consumedAt := Some(now)) else resets[s]
  }

  function IssueReset(db: Db, userId: UserId, secret: Secret, now: Time, lifetime: Time): (Db, bool) {
    if userId !in db.users || !db.users[userId].active || !db.users[userId].emailVerified || db.users[userId].email.None?
    then (db, false)
    else (db.(resets := ConsumeResets(db.resets, userId, now)
                          [secret := ResetToken(userId, db.users[userId].email.value, now + lifetime, None)]), true)
  }

  /** Null and non-null e-mail addresses differ, so a user without one cannot confirm a reset. */
  predicate ResetAccepted(db: Db, secret: Secret, now: Time) {
    && secret in db.resets && db.resets[secret].consumedAt.None? && db.resets[secret].expiresAt > now
    && db.resets[secret].userId in db.users
    && var user := db.users[db.resets[secret].userId];
       user.active && user.emailVerified && user.email == Some(db.resets[secret].target)
  }

  function ConfirmReset(db: Db, secret: Secret, password: nat, now: Time): (Db, bool) {
    if !ResetAccepted(db, secret, now) then (db, false)
    else
      var u := db.resets[secret].userId;
      (Db(db.users[u := db.users[u].(password := password, passwordLogin := true)],
          RevokeLive(db.records, OfUser(u), PasswordReset, now),
          ConsumeResets(db.resets, u, now)), true)
  }

  // ---- The store, updated in place ----

  class SessionStore {
    var users: map<UserId, Account>
    var records: seq<Record>
    var resets: map<Secret, ResetToken>

    ghost function Contents(): Db
      reads this
    {
      Db(users, records, resets)
    }

    constructor ()
      ensures Contents() == Empty()
    {
      users, records, resets := map[], [], map[];
    }

    method BulkRevoke(scope: Scope, reason: Reason, now: Time)
      modifies this`records
      ensures records == RevokeLive(old(records), scope, reason, now)
    {
      ghost var before := records;
      for i := 0 to |records|
        invariant |records| == |before|
        invariant forall k :: 0 <= k < i ==> records[k] == RevokeLive(before, scope, reason, now)[k]
        invariant forall k :: i <= k < |before| ==> records[k] == before[k]
      {
        if InScope(records[i], scope) && !records[i].revoked {
          records := records[i := Revoke(records[i], reason, now)];
        }
      }
    }

    method Refresh(token: Token, now: Time, newToken: Token, expiresAt: Time) returns (r: RefreshResult)
      modifies this`records
      ensures (Contents(), r) == RefreshAccess(old(Contents()), token, now, newToken, expiresAt)
    {
      var found := Find(records, token);
      if found.None? {
        return InvalidToken;
      }
      var stored := records[found.value];
      if stored.revoked {
        BulkRevoke(OfFamily(stored.familyId), ReuseDetected, now);
        return InvalidToken;
      }
      if stored.expiresAt < now {
        return TokenExpired;
      }
      if stored.userId !in users {
        return UserNotFound;
      }
      if !users[stored.userId].active {
        BulkRevoke(OfUser(stored.userId), AccountDisabled, now);
        return AccountInactive;
      }
      var issued := NewRecord(stored.userId, stored.familyId, newToken, expiresAt, now, stored.device);
      stored := stored.(revoked := true);
      stored := stored.(revokedAt := Some(now));
      stored := stored.(reason := Some(Rotated));
      stored := stored.(lastUsedAt := now);
      records := records[found.value := stored];
      records := records + [issued];
      return Refreshed(newToken);
    }

    method LogOut(token: Token, now: Time) returns (ok: bool)
      modifies this`records
      ensures (Contents(), ok) == Logout(old(Contents()), token, now)
    {
      var found := Find(records, token);
      ok := found.Some?;
      if ok {
        BulkRevoke(OfFamily(records[found.value].familyId), LoggedOut, now);
      }
    }

    method Issue(userId: UserId, familyId: FamilyId, token: Token, expiresAt: Time, now: Time, device: string)
      returns (ok: bool)
      modifies this`records
      ensures (Contents(), ok) == IssueSession(old(Contents()), userId, familyId, token, expiresAt, now, device)
    {
      if userId !in users || !users[userId].active {
        return false;
      }
      records := records + [NewRecord(userId, familyId, token, expiresAt, now, device)];
      return true;
    }

    method Confirm(secret: Secret, password: nat, now: Time) returns (ok: bool)
      modifies this
      ensures (Contents(), ok) == ConfirmReset(old(Contents()), secret, password, now)
    {
      if secret !in resets || resets[secret].consumedAt.Some? || resets[secret].expiresAt <= now {
        return false;
      }
      var stored := resets[secret];
      if stored.userId !in users || !users[stored.userId].active || !users[stored.userId].emailVerified
         || users[stored.userId].email != Some(stored.target)
      {
        return false;
      }
      var user := users[stored.userId];
      user := user.(password := password);
      user := user.(passwordLogin := true);
      users := users[stored.userId := user];
      resets := ConsumeResets(resets, stored.userId, now);
      BulkRevoke(OfUser(stored.userId), PasswordReset, now);
      return true;
    }
  }
}
