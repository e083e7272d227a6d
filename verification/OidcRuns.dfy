/** Every run of registration, external sign-in, linking and unlinking. */
module OidcRuns {
  import opened Common
  import opened OidcUsername
  import opened Oidc

  datatype Event =
    | Register(u: UserId, username: string, email: Option<Email>)
    | SetActive(u: UserId, active: bool)
    | SetMfa(u: UserId, mfa: bool)
    | ResetPassword(u: UserId)
    | Start(issuer: Option<string>, state: State, browser: Binding, nonce: Nonce, intent: Intent, device: string, now: Time)
    | Callback(state: State, presented: Option<Binding>, reply: Reply, now: Time, made: Generated)
    | Remove(subject: Subject, u: UserId, now: Time)

  predicate Enabled(db: Db, e: Event) {
    match e
    case Register(u, username, email) =>
      u !in db.users && username !in Usernames(db.users) && (email.Some? ==> !EmailTaken(db.users, email.value))
    case SetActive(u, _) => u in db.users
    case SetMfa(u, _) => u in db.users
    case ResetPassword(u) => u in db.users
    case Start(_, state, _, _, _, _, _) => state !in db.transactions
    case Callback(_, _, _, _, made) => IsDigest(made.digest) && made.userId !in db.users
    case Remove(_, _, _) => true
  }

  ghost function Next(db: Db, cfg: Settings, e: Event): Db {
    if !Enabled(db, e) then db else
    match e
    case Register(u, username, email) => db.(users := db.users[u := User(true, username, email, true, false)])
    case SetActive(u, active) => db.(users := db.users[u := db.users[u].(active := active)])
    case SetMfa(u, mfa) => db.(users := db.users[u := db.users[u].(mfa := mfa)])
    case ResetPassword(u) => db.(users := db.users[u := db.users[u].(passwordLogin := true)])
    case Start(issuer, state, browser, nonce, intent, device, now) =>
      BeginAuthorization(db, cfg, issuer, state, browser, nonce, intent, device, now).0
    case Callback(state, browser, reply, now, made) => Complete(db, cfg, state, browser, reply, now, made).0
    case Remove(subject, u, now) => Unlink(db, subject, u, now).0
  }

  ghost function Run(db: Db, cfg: Settings, events: seq<Event>): Db {
    if events == [] then db else Next(Run(db, cfg, events[..|events| - 1]), cfg, events[|events| - 1])
  }

  // ---- The invariant ----

  /** No two accounts share a username or an address. */
  ghost predicate AccountsDiffer(users: map<UserId, User>) {
    forall u, v :: u in users && v in users && u != v ==>
      users[u].username != users[v].username && (users[u].email.Some? ==> users[u].email != users[v].email)
  }

  /** Every identity belongs to an account, which has at most one per provider. */
  ghost predicate IdentitiesOk(users: map<UserId, User>, identities: map<Subject, Identity>) {
    && (forall k :: k in identities ==> identities[k].userId in users)
    && (forall k, l :: k in identities && l in identities && k != l && k.0 == l.0 ==> identities[k].userId != identities[l].userId)
  }

  predicate CanSignIn(users: map<UserId, User>, identities: map<Subject, Identity>, u: UserId)
    requires u in users
  {
    users[u].passwordLogin || exists k :: k in identities && identities[k].userId == u
  }

  ghost predicate AllCanSignIn(users: map<UserId, User>, identities: map<Subject, Identity>) {
    forall u :: u in users ==> CanSignIn(users, identities, u)
  }

  ghost predicate Inv(db: Db) {
    && AccountsDiffer(db.users)
    && IdentitiesOk(db.users, db.identities)
    && AllCanSignIn(db.users, db.identities)
  }

  // ---- Steps ----

  /** A property of one account changes, but not its name, its address or its ways to sign in. */
  lemma AccountKeeps(db: Db, u: UserId, user: User)
    requires Inv(db) && u in db.users
    requires user.username == db.users[u].username && user.email == db.users[u].email
    requires db.users[u].passwordLogin ==> user.passwordLogin
    ensures Inv(db.(users := db.users[u := user]))
  {
    var users' := db.users[u := user];
    forall v | v in users' ensures CanSignIn(users', db.identities, v) {
      assert CanSignIn(db.users, db.identities, v);
    }
  }

  lemma NewAccountKeeps(users: map<UserId, User>, identities: map<Subject, Identity>, identities': map<Subject, Identity>,
                        u: UserId, user: User)
    requires AccountsDiffer(users) && IdentitiesOk(users, identities) && AllCanSignIn(users, identities)
    requires u !in users && user.username !in Usernames(users) && (user.email.Some? ==> !EmailTaken(users, user.email.value))
    requires IdentitiesOk(users[u := user], identities') && (forall k :: k in identities ==> k in identities' && identities'[k] == identities[k])
    requires CanSignIn(users[u := user], identities', u)
    ensures AccountsDiffer(users[u := user]) && AllCanSignIn(users[u := user], identities')
  {
    var users' := users[u := user];
    forall v | v in users ensures users[v].username != user.username && (user.email.Some? ==> users[v].email != user.email) {
      assert users[v].username in Usernames(users);
    }
    forall v | v in users' ensures CanSignIn(users', identities', v) {
      if v != u && !users[v].passwordLogin {
        assert CanSignIn(users, identities, v);
        var k :| k in identities && identities[k].userId == v;
        assert identities'[k].userId == v;
      }
    }
  }

  /** One identity more, for an account without one of that provider, or the same identities. */
  lemma LinkKeeps(db: Db, u: UserId, subject: Subject, email: Option<Email>, now: Time)
    requires Inv(db)
    ensures Inv(LinkIdentity(db, u, subject, email, now).0)
  {
    var (after, r) := LinkIdentity(db, u, subject, email, now);
    if r.Linked? && subject !in db.identities {
      MoreIdentitiesKeep(db.users, db.identities, subject, Identity(u, email, None));
    }
  }

  lemma MoreIdentitiesKeep(users: map<UserId, User>, identities: map<Subject, Identity>, subject: Subject, added: Identity)
    requires IdentitiesOk(users, identities) && AllCanSignIn(users, identities)
    requires subject !in identities && added.userId in users && !HasProvider(identities, added.userId, subject.0)
    ensures IdentitiesOk(users, identities[subject := added]) && AllCanSignIn(users, identities[subject := added])
  {
    var identities' := identities[subject := added];
    forall v | v in users ensures CanSignIn(users, identities', v) {
      assert CanSignIn(users, identities, v);
      if !users[v].passwordLogin {
        var k :| k in identities && identities[k].userId == v;
        assert k in identities' && identities'[k].userId == v;
      }
    }
  }

  lemma LoginKeeps(db: Db, subject: Subject, email: Option<Email>, now: Time, made: Generated)
    requires Inv(db) && IsDigest(made.digest) && made.userId !in db.users
    ensures Inv(LoginAccount(db, subject, email, now, made).0)
  {
    var (after, r) := LoginAccount(db, subject, email, now, made);
    if after != db {
      assert after.identities[subject].userId == made.userId;
      NewAccountKeeps(db.users, db.identities, after.identities, made.userId, after.users[made.userId]);
    }
  }

  /** Identities may be updated as long as their owners stay. */
  lemma SameOwnersKeep(users: map<UserId, User>, identities: map<Subject, Identity>, identities': map<Subject, Identity>)
    requires IdentitiesOk(users, identities) && AllCanSignIn(users, identities)
    requires identities.Keys == identities'.Keys && forall k :: k in identities ==> identities'[k].userId == identities[k].userId
    ensures IdentitiesOk(users, identities') && AllCanSignIn(users, identities')
  {
    forall v | v in users ensures CanSignIn(users, identities', v) {
      assert CanSignIn(users, identities, v);
      if !users[v].passwordLogin {
        var k :| k in identities && identities[k].userId == v;
        assert k in identities' && identities'[k].userId == v;
      }
    }
  }

  lemma OpenKeeps(db: Db, cfg: Settings, u: UserId, subject: Subject, email: Option<Email>, device: string, now: Time,
                  made: Generated)
    requires Inv(db) && u in db.users && subject in db.identities
    ensures Inv(OpenSession(db, cfg, u, subject, email, device, now, made).0)
  {
    var after := OpenSession(db, cfg, u, subject, email, device, now, made).0;
    SameOwnersKeep(db.users, db.identities, after.identities);
  }

  lemma CompleteKeeps(db: Db, cfg: Settings, state: State, browser: Option<Binding>, reply: Reply, now: Time, made: Generated)
    requires Inv(db) && IsDigest(made.digest) && made.userId !in db.users
    ensures Inv(Complete(db, cfg, state, browser, reply, now, made).0)
  {
    if Succeeded(Complete(db, cfg, state, browser, reply, now, made).1) {
      var t := db.transactions[state];
      var consumed := db.(transactions := db.transactions[state := t.(consumedAt := Some(now))]);
      var subject := (reply.issuer, reply.subject.value);
      match t.intent
      case Link(u) => LinkKeeps(consumed, u, subject, reply.email, now);
      case Login =>
        LoginKeeps(consumed, subject, reply.email, now, made);
        var (known, account) := LoginAccount(consumed, subject, reply.email, now, made);
        OpenKeeps(known, cfg, account.userId, subject, reply.email, t.device, now, made);
    }
  }

  /** The guard of unlinking: what is left can still be signed in to. */
  lemma UnlinkKeeps(db: Db, subject: Subject, u: UserId, now: Time)
    requires Inv(db)
    ensures Inv(Unlink(db, subject, u, now).0)
  {
    var after := Unlink(db, subject, u, now).0;
    if after != db {
      forall v | v in after.users ensures CanSignIn(after.users, after.identities, v) {
        assert CanSignIn(db.users, db.identities, v);
        if !db.users[v].passwordLogin {
          if v == u {
            OtherRemains(db.identities, subject, u);
          } else {
            var k :| k in db.identities && db.identities[k].userId == v;
            assert k in after.identities && after.identities[k].userId == v;
          }
        }
      }
    }
  }

  lemma OtherRemains(identities: map<Subject, Identity>, subject: Subject, u: UserId)
    requires |Owned(identities, u)| > 1
    ensures exists k :: k in identities - {subject} && (identities - {subject})[k].userId == u
  {
    var owned := Owned(identities, u);
    var others := owned - {subject};
    assert owned == if subject in owned then others + {subject} else others;
    assert |others| >= 1;
    var k :| k in others;
    assert k in identities - {subject};
  }

  lemma NextKeeps(db: Db, cfg: Settings, e: Event)
    requires Inv(db)
    ensures Inv(Next(db, cfg, e))
  {
    if Enabled(db, e) {
      match e
      case Register(u, username, email) =>
        NewAccountKeeps(db.users, db.identities, db.identities, u, User(true, username, email, true, false));
      case SetActive(u, active) => AccountKeeps(db, u, db.users[u].(active := active));
      case SetMfa(u, mfa) => AccountKeeps(db, u, db.users[u].(mfa := mfa));
      case ResetPassword(u) => AccountKeeps(db, u, db.users[u].(passwordLogin := true));
      case Start(_, _, _, _, _, _, _) =>
      case Callback(state, browser, reply, now, made) => CompleteKeeps(db, cfg, state, browser, reply, now, made);
      case Remove(subject, u, now) => UnlinkKeeps(db, subject, u, now);
    }
  }

  lemma {:induction false} RunKeepsInv(db: Db, cfg: Settings, events: seq<Event>)
    requires Inv(db)
    ensures Inv(Run(db, cfg, events))
  {
    if events != [] {
      RunKeepsInv(db, cfg, events[..|events| - 1]);
      NextKeeps(Run(db, cfg, events[..|events| - 1]), cfg, events[|events| - 1]);
    }
  }

  // ---- Main results ----

  /**
    On every run: usernames and addresses stay unique, an account has one identity per provider, and
    every account keeps a way to sign in, however identities are linked and unlinked.
   */
  lemma AccountsStayReachable(cfg: Settings, events: seq<Event>)
    ensures var db := Run(Empty(), cfg, events);
            AccountsDiffer(db.users) && IdentitiesOk(db.users, db.identities) && AllCanSignIn(db.users, db.identities)
  {
    RunKeepsInv(Empty(), cfg, events);
  }

  /**
    An external login opens the account its subject was linked to, or an account created just now; an
    account that was there before is never opened by a subject that was not linked to it.
   */
  lemma NoTakeover(cfg: Settings, events: seq<Event>, state: State, browser: Option<Binding>, reply: Reply, now: Time,
                   made: Generated)
    requires IsDigest(made.digest) && made.userId !in Run(Empty(), cfg, events).users
    ensures var db := Run(Empty(), cfg, events);
            var (after, r) := Complete(db, cfg, state, browser, reply, now, made);
            r.Tokens? || r.MfaChallenge? ==>
              && reply.Claims? && reply.subject.Some? && state in db.transactions && db.transactions[state].intent == Login
              && Opens(db, after, (reply.issuer, reply.subject.value), made, r.userId)
  {
    RunKeepsInv(Empty(), cfg, events);
    var db := Run(Empty(), cfg, events);
    var r := Complete(db, cfg, state, browser, reply, now, made).1;
    if r.Tokens? || r.MfaChallenge? {
      var t := db.transactions[state];
      var consumed := db.(transactions := db.transactions[state := t.(consumedAt := Some(now))]);
      var subject := (reply.issuer, reply.subject.value);
      LoginOpens(consumed, cfg, subject, reply.email, t.device, now, made);
    }
  }

  /** `u` is the account linked to the subject before, or was created now; all that was there stays. */
  ghost predicate Opens(db: Db, after: Db, subject: Subject, made: Generated, u: UserId) {
    && subject in after.identities && after.identities[subject].userId == u
    && (if u in db.users then subject in db.identities && db.identities[subject].userId == u
        else u == made.userId && u in after.users && !after.users[u].passwordLogin
             && Presentable(Usernames(db.users), after.users[u].username))
    && (forall v :: v in db.users ==> v in after.users && after.users[v] == db.users[v])
    && (forall k :: k in db.identities ==> k in after.identities && after.identities[k].userId == db.identities[k].userId)
  }

  lemma LoginOpens(db: Db, cfg: Settings, subject: Subject, email: Option<Email>, device: string, now: Time, made: Generated)
    requires IsDigest(made.digest) && made.userId !in db.users
    ensures var (known, account) := LoginAccount(db, subject, email, now, made);
            account.Tokens? ==>
              Opens(db, OpenSession(known, cfg, account.userId, subject, email, device, now, made).0, subject, made, account.userId)
  {
  }

  /** The transaction is open, in time, of this provider and return address, and of the browser that presents it. */
  predicate Presented(cfg: Settings, t: Transaction, browser: Option<Binding>, now: Time) {
    && t.consumedAt == None && now < t.expiresAt && browser.Some? && browser.value == t.browser
    && t.issuer == cfg.issuer && t.redirectUri == cfg.redirectUri
  }

  /** The reply names a subject of 1 to 255 characters and carries the nonce of the transaction. */
  predicate Answers(t: Transaction, reply: Reply) {
    && reply.Claims? && reply.subject.Some? && 1 <= |reply.subject.value| < 256
    && reply.nonce.Some? && reply.nonce.value == t.nonce
  }

  /** The account conditions of a callback, once transaction and reply are accepted. */
  predicate Admissible(db: Db, cfg: Settings, intent: Intent, subject: Subject, email: Option<Email>) {
    match intent
    case Link(u) =>
      && u in db.users && db.users[u].active
      && (if subject in db.identities then db.identities[subject].userId == u
          else forall k :: k in db.identities && db.identities[k].userId == u ==> k.0 != subject.0)
    case Login =>
      if subject in db.identities then
        var u := db.identities[subject].userId;
        u in db.users && db.users[u].active && (db.users[u].mfa ==> cfg.mfaAvailable)
      else email.Some? && forall u :: u in db.users ==> db.users[u].email != email
  }

  /**
    A callback succeeds exactly for an open transaction, in the browser that began it, with a reply that
    carries its nonce, and for an admissible account; it then uses the transaction up and no other.
    Otherwise nothing changes.
   */
  lemma SuccessConsumes(db: Db, cfg: Settings, state: State, browser: Option<Binding>, reply: Reply, now: Time, made: Generated)
    requires IsDigest(made.digest) && made.userId !in db.users
    ensures var (after, r) := Complete(db, cfg, state, browser, reply, now, made);
            && (Succeeded(r) <==>
                && cfg.available && state in db.transactions
                && Presented(cfg, db.transactions[state], browser, now) && Answers(db.transactions[state], reply)
                && Admissible(db, cfg, db.transactions[state].intent, (reply.issuer, reply.subject.value), reply.email))
            && (Succeeded(r) ==>
                  && state in db.transactions
                  && after.transactions == db.transactions[state := db.transactions[state].(consumedAt := Some(now))])
            && (!Succeeded(r) ==> after == db)
  {
    if cfg.available && state in db.transactions && Presented(cfg, db.transactions[state], browser, now)
       && Answers(db.transactions[state], reply)
    {
      var t := db.transactions[state];
      var consumed := db.(transactions := db.transactions[state := t.(consumedAt := Some(now))]);
      AdmissibleExactly(consumed, cfg, t.intent, (reply.issuer, reply.subject.value), reply.email, t.device, now, made);
    }
  }

  /** The two ways a trusted reply is carried out, and when they succeed. */
  lemma AdmissibleExactly(db: Db, cfg: Settings, intent: Intent, subject: Subject, email: Option<Email>, device: string,
                          now: Time, made: Generated)
    requires IsDigest(made.digest) && made.userId !in db.users
    ensures intent.Link? ==>
      && (Succeeded(LinkIdentity(db, intent.userId, subject, email, now).1) <==> Admissible(db, cfg, intent, subject, email))
      && LinkIdentity(db, intent.userId, subject, email, now).0.transactions == db.transactions
    ensures intent.Login? ==>
      var (known, account) := LoginAccount(db, subject, email, now, made);
      && known.transactions == db.transactions
      && (Admissible(db, cfg, intent, subject, email) <==>
          account.Tokens? && Succeeded(OpenSession(known, cfg, account.userId, subject, email, device, now, made).1))
      && (account.Tokens? ==> OpenSession(known, cfg, account.userId, subject, email, device, now, made).0.transactions == db.transactions)
  {
  }

  lemma ConsumedStep(db: Db, cfg: Settings, e: Event, state: State)
    requires state in db.transactions && db.transactions[state].consumedAt.Some?
    ensures var after := Next(db, cfg, e);
            state in after.transactions && after.transactions[state] == db.transactions[state]
  {
    if Enabled(db, e) && e.Callback? {
      SuccessConsumes(db, cfg, e.state, e.presented, e.reply, e.now, e.made);
    }
  }

  lemma {:induction false} ConsumedForGood(db: Db, cfg: Settings, events: seq<Event>, state: State)
    requires state in db.transactions && db.transactions[state].consumedAt.Some?
    ensures var after := Run(db, cfg, events);
            state in after.transactions && after.transactions[state] == db.transactions[state]
  {
    if events != [] {
      ConsumedForGood(db, cfg, events[..|events| - 1], state);
      ConsumedStep(Run(db, cfg, events[..|events| - 1]), cfg, events[|events| - 1], state);
    }
  }

  /** An authorization transaction completes at most once, whatever happens after its success. */
  lemma CompletesOnce(db: Db, cfg: Settings, first: Event, events: seq<Event>, again: Event)
    requires first.Callback? && again.Callback? && again.state == first.state
    requires Enabled(db, first) && Enabled(Run(Next(db, cfg, first), cfg, events), again)
    ensures Succeeded(Complete(db, cfg, first.state, first.presented, first.reply, first.now, first.made).1) ==>
              var later := Run(Next(db, cfg, first), cfg, events);
              var (after, r) := Complete(later, cfg, again.state, again.presented, again.reply, again.now, again.made);
              after == later && !Succeeded(r)
  {
    SuccessConsumes(db, cfg, first.state, first.presented, first.reply, first.now, first.made);
    if Succeeded(Complete(db, cfg, first.state, first.presented, first.reply, first.now, first.made).1) {
      ConsumedForGood(Next(db, cfg, first), cfg, events, first.state);
    }
  }

  /** Unlinking an account's identity is refused exactly when it would leave no way to sign in. */
  lemma UnlinkRefusedExactly(cfg: Settings, events: seq<Event>, subject: Subject, now: Time)
    requires subject in Run(Empty(), cfg, events).identities
    ensures var db := Run(Empty(), cfg, events);
            var u := db.identities[subject].userId;
            && u in db.users
            && (Unlink(db, subject, u, now).1 == OnlySignIn <==> !CanSignIn(db.users, db.identities - {subject}, u))
  {
    RunKeepsInv(Empty(), cfg, events);
    var db := Run(Empty(), cfg, events);
    var u := db.identities[subject].userId;
    if |Owned(db.identities, u)| > 1 {
      OtherRemains(db.identities, subject, u);
    } else {
      OnlyOne(db.identities, subject, u);
    }
  }

  lemma OnlyOne(identities: map<Subject, Identity>, subject: Subject, u: UserId)
    requires subject in identities && identities[subject].userId == u && |Owned(identities, u)| <= 1
    ensures forall k :: k in identities && identities[k].userId == u ==> k == subject
  {
    forall k | k in identities && identities[k].userId == u ensures k == subject {
      var pair := {k, subject};
      var others := Owned(identities, u) - pair;
      assert Owned(identities, u) == others + pair;
    }
  }

  /** A new link and a removed link end every session of the user. */
  lemma LinkChangeEndsSessions(db: Db, u: UserId, subject: Subject, email: Option<Email>, now: Time, i: nat)
    requires i < |db.records|
    ensures var after := LinkIdentity(db, u, subject, email, now).0;
            && |after.records| == |db.records|
            && (if after.identities != db.identities && db.records[i].userId == u then after.records[i].revoked
                else after.records[i] == db.records[i])
    ensures var after := Unlink(db, subject, u, now).0;
            && |after.records| == |db.records|
            && (if after.identities != db.identities && db.records[i].userId == u then after.records[i].revoked
                else after.records[i] == db.records[i])
  {
    assert subject in db.identities ==> subject !in db.identities - {subject};
  }
}
