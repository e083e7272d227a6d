/** The MFA service at work on its tables, updated in place; each method does what `Mfa` specifies. */
module MfaService {
  import opened Common
  import opened Mfa
  import Sessions

  class MfaStore {
    var users: map<UserId, User>
    var codes: map<Hash, Recovery>
    var challenges: map<Token, Challenge>
    var sessions: seq<Session>

    function Contents(): Db
      reads this
    {
      Db(users, codes, challenges, sessions)
    }

    constructor ()
      ensures Contents() == Empty()
    {
      users, codes, challenges, sessions := map[], map[], map[], [];
    }

    /** Old rows go first; a hash that is already stored then fails the commit, and the rows come back. */
    method ReplaceRecoveryCodes(u: UserId, hashes: seq<Hash>) returns (ok: bool)
      modifies this`codes
      ensures ok <==> Insertable(old(codes), u, hashes)
      ensures codes == if ok then Replaced(old(codes), u, hashes) else old(codes)
    {
      var before := codes;
      codes := map h | h in before && before[h].userId != u :: before[h];
      var i := 0;
      while i < |hashes|
        invariant 0 <= i <= |hashes|
        invariant codes == Replaced(before, u, hashes[..i])
        invariant Insertable(before, u, hashes[..i])
      {
        if hashes[i] in codes {
          TakenHash(before, u, hashes, i);
          codes := before;
          return false;
        }
        FreeHash(before, u, hashes, i);
        codes := codes[hashes[i] := Recovery(u, None)];
        i := i + 1;
      }
      assert hashes[..i] == hashes;
      return true;
    }

    method ConsumeRecoveryCode(u: UserId, code: Code, now: Time) returns (ok: bool)
      modifies this`codes
      ensures ok == Spendable(old(codes), u, code)
      ensures codes == if ok then Spend(old(codes), code.recovery.value, now) else old(codes)
    {
      if code.recovery.None? || code.recovery.value !in codes {
        return false;
      }
      var row := codes[code.recovery.value];
      if row.userId != u || row.usedAt.Some? {
        return false;
      }
      codes := codes[code.recovery.value := row.(usedAt := Some(now))];
      return true;
    }

    method RevokeAll(u: UserId, reason: Sessions.Reason)
      modifies this`sessions
      ensures sessions == RevokeSessions(old(sessions), u, reason)
    {
      ghost var before := sessions;
      for i := 0 to |sessions|
        invariant |sessions| == |before|
        invariant forall k :: 0 <= k < i ==> sessions[k] == RevokeSessions(before, u, reason)[k]
        invariant forall k :: i <= k < |before| ==> sessions[k] == before[k]
      {
        if sessions[i].userId == u && sessions[i].revokedFor.None? {
          sessions := sessions[i := sessions[i].(revokedFor := Some(reason))];
        }
      }
    }

    method BeginTotpEnrollment(cfg: Settings, u: UserId, password: nat, secret: Secret, now: Time) returns (r: Outcome)
      modifies this`users, this`codes
      ensures (Contents(), r) == Begin(old(Contents()), cfg, u, password, secret, now)
    {
      if !cfg.available { return NotAvailable; }
      if u !in users || !users[u].active || users[u].password != password { return Unauthorized; }
      if users[u].enabledAt.Some? { return AlreadyEnabled; }
      users := users[u := users[u].(secret := Some(secret), pendingSince := Some(now), lastCounter := None)];
      codes := map h | h in codes && codes[h].userId != u :: codes[h];
      return Done(None);
    }

    method ConfirmTotpEnrollment(otp: Authenticator, cfg: Settings, u: UserId, code: Code, hashes: seq<Hash>, now: Time)
      returns (r: Outcome)
      modifies this`users, this`codes
      ensures (Contents(), r) == Confirm(old(Contents()), otp, cfg, u, code, hashes, now)
    {
      if u !in users || !users[u].active { return Unauthorized; }
      var user := users[u];
      if user.enabledAt.Some? || user.pendingSince.None? || user.pendingSince.value + cfg.enrolmentLifetime <= now {
        return InvalidFactor;
      }
      var search := MatchingTotpCounter(otp, cfg, user, code, now);
      if search.Unusable? { return NotAvailable; }
      if search.NotFound? { return InvalidFactor; }
      var replaced := ReplaceRecoveryCodes(u, hashes);
      if !replaced { return Conflict; }
      users := users[u := user.(enabledAt := Some(now), pendingSince := None, lastCounter := Some(search.counter))];
      return Done(Some(ByTotp(user.secret.value, search.counter)));
    }

    method RegenerateRecoveryCodes(otp: Authenticator, cfg: Settings, u: UserId, password: nat, code: Code,
                                   hashes: seq<Hash>, now: Time) returns (r: Outcome)
      modifies this`users, this`codes, this`sessions
      ensures (Contents(), r) == Regenerate(old(Contents()), otp, cfg, u, password, code, hashes, now)
    {
      if u !in users || !users[u].active || users[u].password != password { return Unauthorized; }
      var user := users[u];
      if user.enabledAt.None? { return InvalidFactor; }
      var search := MatchingTotpCounter(otp, cfg, user, code, now);
      if search.Unusable? { return NotAvailable; }
      if search.NotFound? { return InvalidFactor; }
      var replaced := ReplaceRecoveryCodes(u, hashes);
      if !replaced { return Conflict; }
      users := users[u := user.(lastCounter := Some(search.counter))];
      RevokeAll(u, Sessions.MfaRegenerated);
      return Done(Some(ByTotp(user.secret.value, search.counter)));
    }

    method DisableMfa(otp: Authenticator, cfg: Settings, u: UserId, password: nat, code: Code, now: Time)
      returns (r: Outcome)
      modifies this`users, this`codes, this`sessions
      ensures (Contents(), r) == Disable(old(Contents()), otp, cfg, u, password, code, now)
    {
      if u !in users || !users[u].active || users[u].password != password { return Unauthorized; }
      var user := users[u];
      if user.enabledAt.None? { return InvalidFactor; }
      var search := MatchingTotpCounter(otp, cfg, user, code, now);
      if search.Unusable? { return NotAvailable; }
      if search.Found? {
        r := Done(Some(ByTotp(user.secret.value, search.counter)));
      } else {
        var spent := ConsumeRecoveryCode(u, code, now);
        if !spent { return InvalidFactor; }
        r := Done(Some(ByRecovery(code.recovery.value)));
      }
      users := users[u := user.(secret := None, pendingSince := None, enabledAt := None, lastCounter := None)];
      codes := map h | h in codes && codes[h].userId != u :: codes[h];
      assert codes == WithoutRows(old(codes), u);
      RevokeAll(u, Sessions.MfaDisabled);
    }

    method PrepareLoginChallenge(cfg: Settings, u: UserId, primary: Primary, device: string, token: Token, now: Time)
      returns (r: Outcome)
      modifies this`challenges
      ensures (Contents(), r) == Prepare(old(Contents()), cfg, u, primary, device, token, now)
    {
      if !cfg.available { return NotAvailable; }
      if token in challenges { return Conflict; }
      challenges := map t | t in challenges ::
        if challenges[t].userId == u && challenges[t].consumedAt.None? then challenges[t].(consumedAt := Some(now))
        else challenges[t];
      challenges := challenges[token := Challenge(u, primary, device, now + cfg.challengeLifetime, None)];
      return Done(None);
    }

    method VerifyLoginChallenge(otp: Authenticator, cfg: Settings, token: Token, code: Code, now: Time)
      returns (r: Outcome)
      modifies this
      ensures (Contents(), r) == Verify(old(Contents()), otp, cfg, token, code, now)
    {
      if !cfg.available { return NotAvailable; }
      if token !in challenges || challenges[token].consumedAt.Some? || challenges[token].expiresAt <= now {
        return InvalidChallenge;
      }
      var challenge := challenges[token];
      var u := challenge.userId;
      if u !in users || !users[u].active { return Unauthorized; }
      if users[u].enabledAt.None? { return InvalidChallenge; }
      var search := MatchingTotpCounter(otp, cfg, users[u], code, now);
      if search.Unusable? { return NotAvailable; }
      var factor: Factor;
      if search.Found? {
        factor := ByTotp(users[u].secret.value, search.counter);
      } else {
        var spent := ConsumeRecoveryCode(u, code, now);
        if !spent { return InvalidFactor; }
        factor := ByRecovery(code.recovery.value);
        RevokeAll(u, Sessions.MfaRecoveryUsed);
      }
      challenges := challenges[token := challenge.(consumedAt := Some(now))];
      if search.Found? {
        users := users[u := users[u].(lastCounter := Some(search.counter))];
      }
      sessions := sessions + [Session(u, token, challenge.device, challenge.primary, factor, None)];
      return Done(Some(factor));
    }
  }

  lemma TakenHash(codes: map<Hash, Recovery>, u: UserId, hashes: seq<Hash>, i: nat)
    requires i < |hashes| && hashes[i] in Replaced(codes, u, hashes[..i])
    ensures !Insertable(codes, u, hashes)
  {
    if hashes[i] in hashes[..i] {
      var j :| 0 <= j < i && hashes[j] == hashes[i];
      assert !Distinct(hashes);
    } else {
      assert hashes[i] in hashes;
    }
  }

  lemma FreeHash(codes: map<Hash, Recovery>, u: UserId, hashes: seq<Hash>, i: nat)
    requires i < |hashes| && Insertable(codes, u, hashes[..i]) && hashes[i] !in Replaced(codes, u, hashes[..i])
    ensures Insertable(codes, u, hashes[..i + 1])
    ensures Replaced(codes, u, hashes[..i + 1]) == Replaced(codes, u, hashes[..i])[hashes[i] := Recovery(u, None)]
  {
    assert hashes[..i + 1] == hashes[..i] + [hashes[i]];
    DistinctAppend(hashes[..i], hashes[i]);
  }
}
