/** The external sign-in service at work on its tables, updated in place and rolled back on refusal. */
module OidcService {
  import opened Common
  import opened OidcUsername
  import opened Oidc
  import Sessions

  class IdentityStore {
    var users: map<UserId, User>
    var identities: map<Subject, Identity>
    var transactions: map<State, Transaction>
    var records: seq<Sessions.Record>

    function Contents(): Db
      reads this
    {
      Db(users, identities, transactions, records)
    }

    constructor ()
      ensures Contents() == Empty()
    {
      users, identities, transactions, records := map[], map[], map[], [];
    }

    method Begin(cfg: Settings, issuer: Option<string>, state: State, browser: Binding, nonce: Nonce, intent: Intent,
                 device: string, now: Time) returns (ok: bool)
      modifies this`transactions
      ensures (Contents(), ok) == BeginAuthorization(old(Contents()), cfg, issuer, state, browser, nonce, intent, device, now)
    {
      ok := cfg.available && issuer.Some?;
      if ok {
        transactions := transactions[state :=
          Transaction(browser, nonce, intent, issuer.value, cfg.redirectUri, device, now + cfg.lifetime, None)];
      }
    }

    method IdentityForLink(u: UserId, subject: Subject, email: Option<Email>, now: Time) returns (r: Result)
      modifies this`identities, this`records
      ensures (Contents(), r) == LinkIdentity(old(Contents()), u, subject, email, now)
    {
      if u !in users || !users[u].active { return InvalidTransaction; }
      if subject in identities {
        if identities[subject].userId != u { return LinkedElsewhere; }
        return Linked(subject);
      }
      if HasProvider(identities, u, subject.0) { return ProviderInUse; }
      identities := identities[subject := Identity(u, email, None)];
      records := Sessions.RevokeLive(records, Sessions.OfUser(u), Sessions.IdentityLinked, now);
      return Linked(subject);
    }

    method IdentityForLogin(subject: Subject, email: Option<Email>, now: Time, made: Generated) returns (r: Result)
      requires IsDigest(made.digest)
      modifies this`users, this`identities
      ensures (Contents(), r) == LoginAccount(old(Contents()), subject, email, now, made)
    {
      if subject in identities {
        var u := identities[subject].userId;
        if u !in users || !users[u].active { return LoginRefused; }
        return Tokens(u);
      }
      if email.None? { return EmailRequired; }
      if EmailTaken(users, email.value) { return EmailInUse; }
      var name := NewUsername(Usernames(users), LocalOf(email.value), made.digest);
      users := users[made.userId := User(true, name, email, false, false)];
      identities := identities[subject := Identity(made.userId, email, Some(now))];
      return Tokens(made.userId);
    }

    method Open(cfg: Settings, u: UserId, subject: Subject, email: Option<Email>, device: string, now: Time, made: Generated)
      returns (r: Result)
      requires u in users && subject in identities
      modifies this`identities, this`records
      ensures (Contents(), r) == OpenSession(old(Contents()), cfg, u, subject, email, device, now, made)
    {
      var identity := identities[subject];
      if email.Some? { identity := identity.(email := email); }
      identity := identity.(lastLoginAt := Some(now));
      if users[u].mfa {
        if !cfg.mfaAvailable { return NotAvailable; }
        identities := identities[subject := identity];
        return MfaChallenge(u);
      }
      identities := identities[subject := identity];
      records := records + [Sessions.NewRecord(u, made.familyId, made.token, made.expiresAt, now, device)];
      return Tokens(u);
    }

    method CompleteAuthorization(cfg: Settings, state: State, browser: Option<Binding>, reply: Reply, now: Time,
                                 made: Generated) returns (r: Result)
      requires IsDigest(made.digest) && made.userId !in users
      modifies this
      ensures (Contents(), r) == Complete(old(Contents()), cfg, state, browser, reply, now, made)
    {
      if !cfg.available { return NotAvailable; }
      if state !in transactions { return InvalidTransaction; }
      var t := transactions[state];
      if t.consumedAt.Some? || t.expiresAt <= now || t.issuer != cfg.issuer || t.redirectUri != cfg.redirectUri
         || browser != Some(t.browser)
      {
        return InvalidTransaction;
      }
      if reply.ProviderFailed? || reply.subject.None? || reply.subject.value == "" || |reply.subject.value| > 255
         || reply.nonce != Some(t.nonce)
      {
        return InvalidTransaction;
      }
      var before := Contents();
      var subject := (reply.issuer, reply.subject.value);
      transactions := transactions[state := t.(consumedAt := Some(now))];
      match t.intent {
        case Link(u) =>
          r := IdentityForLink(u, subject, reply.email, now);
        case Login =>
          r := IdentityForLogin(subject, reply.email, now, made);
          if r.Tokens? {
            r := Open(cfg, r.userId, subject, reply.email, t.device, now, made);
          }
      }
      if !Succeeded(r) {
        users, identities, transactions, records := before.users, before.identities, before.transactions, before.records;
      }
    }

    method UnlinkIdentity(subject: Subject, u: UserId, now: Time) returns (r: Result)
      modifies this`identities, this`records
      ensures (Contents(), r) == Unlink(old(Contents()), subject, u, now)
    {
      if subject !in identities || identities[subject].userId != u { return Unlinked; }
      var owned := set k | k in identities && identities[k].userId == u;
      if u !in users || (!users[u].passwordLogin && |owned| <= 1) { return OnlySignIn; }
      identities := identities - {subject};
      records := Sessions.RevokeLive(records, Sessions.OfUser(u), Sessions.IdentityUnlinked, now);
      return Unlinked;
    }
  }
}
