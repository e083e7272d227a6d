/** Callbacks told by the events before them, and what they answer and write. */
module OidcOutcomes {
  import opened Common
  import opened OidcUsername
  import opened Oidc
  import opened OidcRuns
  import Sessions

  // ---- A callback and the start it belongs to ----

  /** Event `m` of the run is a callback for the state that succeeds. */
  ghost predicate Completes(cfg: Settings, events: seq<Event>, m: nat, state: State)
    requires m < |events|
  {
    var e := events[m];
    && e.Callback? && e.state == state && Enabled(Run(Empty(), cfg, events[..m]), e)
    && Succeeded(Complete(Run(Empty(), cfg, events[..m]), cfg, state, e.presented, e.reply, e.now, e.made).1)
  }

  /** Event `n` of the run is the start that stored the transaction, which no callback has completed if it is open. */
  ghost predicate StartedAt(cfg: Settings, events: seq<Event>, n: nat, state: State, t: Transaction) {
    && n < |events| && events[n].Start? && events[n].state == state
    && events[n].browser == t.browser && events[n].nonce == t.nonce && events[n].issuer == Some(t.issuer)
    && events[n].intent == t.intent && events[n].device == t.device && t.expiresAt == events[n].now + cfg.lifetime
    && (t.consumedAt.None? ==> forall m :: n < m < |events| ==> !Completes(cfg, events, m, state))
  }

  /** What one event does to a stored transaction: nothing, consume it, or store it. */
  lemma NextTransaction(db: Db, cfg: Settings, e: Event, state: State)
    requires state in Next(db, cfg, e).transactions
    ensures var t := Next(db, cfg, e).transactions[state];
            || (state in db.transactions && t.consumedAt.None? && t == db.transactions[state])
            || (state in db.transactions && t.consumedAt.Some? && t.(consumedAt := db.transactions[state].consumedAt) == db.transactions[state])
            || (state !in db.transactions && e.Start? && e.state == state && e.issuer == Some(t.issuer)
                && t == Transaction(e.browser, e.nonce, e.intent, t.issuer, cfg.redirectUri, e.device, e.now + cfg.lifetime, None))
  {
    if Enabled(db, e) && e.Callback? {
      SuccessConsumes(db, cfg, e.state, e.presented, e.reply, e.now, e.made);
    }
  }

  /** A callback that succeeds consumes its transaction, so an open one was not completed by this event. */
  lemma OpenWasNotCompleted(cfg: Settings, events: seq<Event>, state: State)
    requires events != [] && state in Run(Empty(), cfg, events).transactions
    requires Run(Empty(), cfg, events).transactions[state].consumedAt.None?
    ensures !Completes(cfg, events, |events| - 1, state)
  {
    var before, e := events[..|events| - 1], events[|events| - 1];
    if Completes(cfg, events, |events| - 1, state) {
      SuccessConsumes(Run(Empty(), cfg, before), cfg, e.state, e.presented, e.reply, e.now, e.made);
    }
  }

  lemma {:induction false} TransactionsWereStarted(cfg: Settings, events: seq<Event>, state: State)
    requires state in Run(Empty(), cfg, events).transactions
    ensures exists n: nat :: StartedAt(cfg, events, n, state, Run(Empty(), cfg, events).transactions[state])
  {
    var last := |events| - 1;
    var before, e := events[..last], events[last];
    var t := Run(Empty(), cfg, events).transactions[state];
    NextTransaction(Run(Empty(), cfg, before), cfg, e, state);
    if state in Run(Empty(), cfg, before).transactions {
      TransactionsWereStarted(cfg, before, state);
      var n: nat :| StartedAt(cfg, before, n, state, Run(Empty(), cfg, before).transactions[state]);
      if t.consumedAt.None? {
        OpenWasNotCompleted(cfg, events, state);
        forall m: nat | n < m < |events| ensures !Completes(cfg, events, m, state) {
          if m < last {
            assert before[..m] == events[..m] && before[m] == events[m];
            assert !Completes(cfg, before, m, state);
          }
        }
      }
      assert StartedAt(cfg, events, n, state, t);
    } else {
      assert StartedAt(cfg, events, last, state, t);
    }
  }

  /**
    Told by events alone: a callback that succeeds belongs to an earlier start with its state, the very
    browser it presents, the nonce its reply carries and the configured issuer, less than the lifetime
    ago; and no callback for the state has succeeded since.
   */
  lemma CallbackFollowsStart(cfg: Settings, events: seq<Event>, e: Event)
    requires e.Callback? && Enabled(Run(Empty(), cfg, events), e)
    requires Succeeded(Complete(Run(Empty(), cfg, events), cfg, e.state, e.presented, e.reply, e.now, e.made).1)
    ensures exists n :: 0 <= n < |events| && events[n].Start? && events[n].state == e.state
                        && e.presented == Some(events[n].browser)
                        && e.reply.Claims? && e.reply.nonce == Some(events[n].nonce)
                        && events[n].issuer == Some(cfg.issuer)
                        && e.now < events[n].now + cfg.lifetime
                        && forall m :: n < m < |events| ==> !Completes(cfg, events, m, e.state)
  {
    var db := Run(Empty(), cfg, events);
    SuccessConsumes(db, cfg, e.state, e.presented, e.reply, e.now, e.made);
    TransactionsWereStarted(cfg, events, e.state);
    var n: nat :| StartedAt(cfg, events, n, e.state, db.transactions[e.state]);
  }

  // ---- What a callback answers and writes ----

  /** Why a login is refused, once transaction and reply are accepted, and which account it reaches otherwise. */
  lemma LoginAnswers(db: Db, subject: Subject, email: Option<Email>, now: Time, made: Generated)
    requires IsDigest(made.digest) && made.userId !in db.users
    ensures var (after, r) := LoginAccount(db, subject, email, now, made);
            if subject in db.identities then
              var u := db.identities[subject].userId;
              after == db && r == (if u in db.users && db.users[u].active then Tokens(u) else LoginRefused)
            else
              && (r == EmailRequired <==> email == None)
              && (r == EmailInUse <==> email.Some? && exists u :: u in db.users && db.users[u].email == email)
              && (r.Tokens? ==>
                    && r.userId == made.userId && after.records == db.records && after.transactions == db.transactions
                    && after.users.Keys == db.users.Keys + {made.userId}
                    && after.users[made.userId].email == email && after.users[made.userId].active
                    && !after.users[made.userId].passwordLogin && !after.users[made.userId].mfa
                    && after.identities.Keys == db.identities.Keys + {subject}
                    && after.identities[subject] == Identity(made.userId, email, Some(now)))
              && (r == EmailRequired || r == EmailInUse || r.Tokens?)
              && (!r.Tokens? ==> after == db)
  {
  }

  /** Why a link is refused, and what a new one writes. */
  lemma LinkAnswers(db: Db, u: UserId, subject: Subject, email: Option<Email>, now: Time)
    ensures var (after, r) := LinkIdentity(db, u, subject, email, now);
            && (r == InvalidTransaction <==> u !in db.users || !db.users[u].active)
            && (r == LinkedElsewhere <==>
                u in db.users && db.users[u].active && subject in db.identities && db.identities[subject].userId != u)
            && (r == ProviderInUse <==>
                u in db.users && db.users[u].active && subject !in db.identities
                && exists k :: k in db.identities && k.0 == subject.0 && db.identities[k].userId == u)
            && (r.Linked? || r == InvalidTransaction || r == LinkedElsewhere || r == ProviderInUse)
            && (!r.Linked? || subject in db.identities ==> after == db)
            && (r.Linked? && subject !in db.identities ==>
                  after.identities == db.identities[subject := Identity(u, email, None)] && after.users == db.users)
  {
  }

  /** A login without a second factor opens one session on the device of its start; with one it opens none yet. */
  lemma LoginOpensOneSession(db: Db, cfg: Settings, u: UserId, subject: Subject, email: Option<Email>, device: string,
                             now: Time, made: Generated)
    requires u in db.users && subject in db.identities
    ensures var (after, r) := OpenSession(db, cfg, u, subject, email, device, now, made);
            && (r.Tokens? <==> !db.users[u].mfa) && (r.MfaChallenge? <==> db.users[u].mfa && cfg.mfaAvailable)
            && (r.Tokens? ==>
                  && |after.records| == |db.records| + 1 && after.records[..|db.records|] == db.records
                  && var row := after.records[|db.records|];
                     row.userId == u && row.familyId == made.familyId && row.token == made.token && row.device == device
                     && row.expiresAt == made.expiresAt && row.createdAt == now && !row.revoked)
            && (!r.Tokens? ==> after.records == db.records)
            && (r.Tokens? || r.MfaChallenge? ==>
                  && after.identities.Keys == db.identities.Keys
                  && after.identities[subject].lastLoginAt == Some(now)
                  && after.identities[subject].email == (if email == None then db.identities[subject].email else email))
  {
  }
}
