/**
  External sign-in: single-use authorization transactions, and which account an external identity opens.

  Raw states, browser bindings and nonces stand for their hashes. The provider's answer is an input.
  Identities are kept under the pair of issuer and subject that is unique in the database.
 */
module Oidc {
  import opened Common
  import opened OidcUsername
  import Sessions

  type UserId = Sessions.UserId
  type Email = string
  type State = nat
  type Binding = nat
  type Nonce = nat
  type Subject = (string, string)

  datatype Settings = Settings(available: bool, issuer: string, redirectUri: string, lifetime: Time, mfaAvailable: bool)

  datatype User = User(active: bool, username: string, email: Option<Email>, passwordLogin: bool, mfa: bool)

  datatype Identity = Identity(userId: UserId, email: Option<Email>, lastLoginAt: Option<Time>)

  datatype Intent = Login | Link(userId: UserId)

  datatype Transaction = Transaction(
    browser: Binding,
    nonce: Nonce,
    intent: Intent,
    issuer: string,
    redirectUri: string,
    device: string,
    expiresAt: Time,
    consumedAt: Option<Time>)

  datatype Db = Db(
    users: map<UserId, User>,
    identities: map<Subject, Identity>,
    transactions: map<State, Transaction>,
    records: seq<Sessions.Record>)

  /** The claims of a validated ID token; the address only when the provider has verified it. */
  datatype Reply = ProviderFailed | Claims(issuer: string, subject: Option<string>, nonce: Option<Nonce>, email: Option<Email>)

  /** Values the server generates while it completes a transaction. */
  datatype Generated = Generated(userId: UserId, digest: string, familyId: Sessions.FamilyId, token: Sessions.Token, expiresAt: Time)

  datatype Result =
    | Tokens(userId: UserId) | MfaChallenge(userId: UserId) | Linked(subject: Subject) | Unlinked
    | NotAvailable | InvalidTransaction | LoginRefused | EmailRequired | EmailInUse | LinkedElsewhere | ProviderInUse
    | OnlySignIn

  predicate Succeeded(r: Result) { r.Tokens? || r.MfaChallenge? || r.Linked? || r.Unlinked? }

  function Empty(): Db { Db(map[], map[], map[], []) }

  function Usernames(users: map<UserId, User>): set<string> {
    set u | u in users :: users[u].username
  }

  predicate EmailTaken(users: map<UserId, User>, email: Email) {
    exists u :: u in users && users[u].email == Some(email)
  }

  predicate HasProvider(identities: map<Subject, Identity>, u: UserId, issuer: string) {
    exists k :: k in identities && k.0 == issuer && identities[k].userId == u
  }

  function Owned(identities: map<Subject, Identity>, u: UserId): set<Subject> {
    set k | k in identities && identities[k].userId == u
  }

  function LocalOf(email: Email): string {
    if email == "" || email[0] == '@' then "" else [email[0]] + LocalOf(email[1..])
  }

  // ---- Operations ----

  /** `issuer` comes with the provider's metadata; `None` when they could not be discovered. */
  function BeginAuthorization(db: Db, cfg: Settings, issuer: Option<string>, state: State, browser: Binding, nonce: Nonce,
                              intent: Intent, device: string, now: Time): (Db, bool)
  {
    if !cfg.available || issuer.None? then (db, false)
    else
      (db.(transactions := db.transactions[state :=
             Transaction(browser, nonce, intent, issuer.value, cfg.redirectUri, device, now + cfg.lifetime, None)]), true)
  }

  predicate Acceptable(cfg: Settings, t: Transaction, browser: Option<Binding>, now: Time) {
    && t.consumedAt.None? && t.expiresAt > now
    && t.issuer == cfg.issuer && t.redirectUri == cfg.redirectUri && browser == Some(t.browser)
  }

  predicate Trusted(t: Transaction, reply: Reply) {
    && reply.Claims? && reply.subject.Some? && 0 < |reply.subject.value| <= 255 && reply.nonce == Some(t.nonce)
  }

  function LinkIdentity(db: Db, u: UserId, subject: Subject, email: Option<Email>, now: Time): (Db, Result) {
    if u !in db.users || !db.users[u].active then (db, InvalidTransaction)
    else if subject in db.identities then
      (db, if db.identities[subject].userId == u then Linked(subject) else LinkedElsewhere)
    else if HasProvider(db.identities, u, subject.0) then (db, ProviderInUse)
    else
      (db.(identities := db.identities[subject := Identity(u, email, None)],
           records := Sessions.RevokeLive(db.records, Sessions.OfUser(u), Sessions.IdentityLinked, now)), Linked(subject))
  }

  /** The account behind a subject; a new one when the subject is unknown and its address is free. */
  ghost function LoginAccount(db: Db, subject: Subject, email: Option<Email>, now: Time, made: Generated): (Db, Result)
    requires IsDigest(made.digest)
  {
    if subject in db.identities then
      var u := db.identities[subject].userId;
      (db, if u in db.users && db.users[u].active then Tokens(u) else LoginRefused)
    else if email.None? then (db, EmailRequired)
    else if EmailTaken(db.users, email.value) then (db, EmailInUse)
    else
      var u := made.userId;
      var name := FreeName(Usernames(db.users), LocalOf(email.value), made.digest);
      (db.(users := db.users[u := User(true, name, email, false, false)],
           identities := db.identities[subject := Identity(u, email, Some(now))]), Tokens(u))
  }

  function OpenSession(db: Db, cfg: Settings, u: UserId, subject: Subject, email: Option<Email>, device: string, now: Time,
                       made: Generated): (Db, Result)
    requires u in db.users && subject in db.identities
  {
    var identity := db.identities[subject];
    var seen := identity.(email := if email.Some? then email else identity.email, lastLoginAt := Some(now));
    if db.users[u].mfa then
      if cfg.mfaAvailable then (db.(identities := db.identities[subject := seen]), MfaChallenge(u)) else (db, NotAvailable)
    else
      (db.(identities := db.identities[subject := seen],
           records := db.records + [Sessions.NewRecord(u, made.familyId, made.token, made.expiresAt, now, device)]),
       Tokens(u))
  }

  /** Any refusal rolls the whole transaction back, so the authorization stays open. */
  ghost function Complete(db: Db, cfg: Settings, state: State, browser: Option<Binding>, reply: Reply, now: Time,
                          made: Generated): (Db, Result)
    requires IsDigest(made.digest) && made.userId !in db.users
  {
    if !cfg.available then (db, NotAvailable)
    else if state !in db.transactions || !Acceptable(cfg, db.transactions[state], browser, now)
         || !Trusted(db.transactions[state], reply) then (db, InvalidTransaction)
    else
      var t := db.transactions[state];
      var consumed := db.(transactions := db.transactions[state := t.(consumedAt := Some(now))]);
      var subject := (reply.issuer, reply.subject.value);
      var (after, r) :=
        match t.intent
        case Link(u) => LinkIdentity(consumed, u, subject, reply.email, now)
        case Login =>
          var (known, account) := LoginAccount(consumed, subject, reply.email, now, made);
          if account.Tokens? then OpenSession(known, cfg, account.userId, subject, reply.email, t.device, now, made)
          else (known, account);
      if Succeeded(r) then (after, r) else (db, r)
  }

  function Unlink(db: Db, subject: Subject, u: UserId, now: Time): (Db, Result) {
    if subject !in db.identities || db.identities[subject].userId != u then (db, Unlinked)
    else if u !in db.users || (!db.users[u].passwordLogin && |Owned(db.identities, u)| <= 1) then (db, OnlySignIn)
    else
      (db.(identities := db.identities - {subject},
           records := Sessions.RevokeLive(db.records, Sessions.OfUser(u), Sessions.IdentityUnlinked, now)), Unlinked)
  }
}
