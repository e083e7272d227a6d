/**
  One browser tab against the session server, over a network that delays, loses and reorders.

  Other clients act at any time, with one exception: the refresh tokens of this tab's own sessions
  are presented for refresh by nobody else.
 */
module TabAndServer {
  import opened Common
  import opened Sessions
  import S = SessionRuns
  import opened BrowserTab

  datatype World = World(
    db: Db,
    tab: Tab,
    wire: set<Token>,                // refresh requests under way to the server
    reply: Option<Option<Token>>,    // the answer under way to the waiting promise; inner None is a refusal
    logins: set<Token>,              // accepted logins whose response the tab has not seen
    families: set<FamilyId>,         // the sessions issued to this tab
    sent: seq<Token>)                // every token the tab presented for refresh, in order

  datatype Event =
    | Other(e: S.Event)
    | LoginServed(userId: UserId, familyId: FamilyId, token: Token, expiresAt: Time, now: Time, device: string)
    | LoginDelivered(token: Token, access: nat)
    | ResponseUnauthorized
    | RefreshServed(token: Token, now: Time, newToken: Token, expiresAt: Time)
    | ReplyDelivered(access: nat)
    | NetworkFailed
    | PromiseCleared
    | SessionCleared   // logout finished, session expired, or loading the user failed
    | LogoutServed(token: Token, now: Time)
    | Reload

  function Start(): World {
    World(Empty(), NewTab(), {}, None, {}, {}, [])
  }

  predicate InFamilies(w: World, i: nat)
    requires i < |w.db.records|
  {
    w.db.records[i].familyId in w.families
  }

  predicate Allowed(w: World, e: S.Event) {
    e.Refresh? && Find(w.db.records, e.token).Some? ==> !InFamilies(w, Find(w.db.records, e.token).value)
  }

  function Served(w: World, token: Token, now: Time, newToken: Token, expiresAt: Time): World {
    var (db', result) := RefreshAccess(w.db, token, now, newToken, expiresAt);
    var answered := w.(db := db', wire := w.wire - {token});
    if w.tab.promise == Waiting(token) && w.reply.None?
    then answered.(reply := Some(if result.Refreshed? then Some(result.token) else None))
    else answered
  }

  function Next(w: World, e: Event): World {
    match e
    case Other(se) => if Allowed(w, se) then w.(db := S.Next(w.db, se)) else w
    case LoginServed(u, f, t, expiresAt, now, device) =>
      if S.Enabled(w.db, S.Login(u, f, t, expiresAt, now, device)) && IssueSession(w.db, u, f, t, expiresAt, now, device).1
      then w.(db := IssueSession(w.db, u, f, t, expiresAt, now, device).0,
              logins := w.logins + {t}, families := w.families + {f})
      else w
    case LoginDelivered(t, access) =>
      if t in w.logins then w.(logins := w.logins - {t}, tab := SetTokens(w.tab, access, t)) else w
    case ResponseUnauthorized =>
      var (tab', sent) := Unauthorized(w.tab);
      if sent.Some? then w.(tab := tab', wire := w.wire + {sent.value}, sent := w.sent + [sent.value])
      else w.(tab := tab')
    case RefreshServed(t, now, newToken, expiresAt) =>
      if t in w.wire && S.FreshToken(w.db, newToken) then Served(w, t, now, newToken, expiresAt) else w
    case ReplyDelivered(access) =>
      if w.reply.Some? && w.tab.promise.Waiting?
      then w.(reply := None,
              tab := FinishRefresh(w.tab, if w.reply.value.None? then None else Some((access, w.reply.value.value))))
      else w
    case NetworkFailed =>
      if w.tab.promise.Waiting? then w.(reply := None, tab := FinishRefresh(w.tab, None)) else w
    case PromiseCleared =>
      if w.tab.promise.Settled? then w.(tab := w.tab.(promise := NoPromise)) else w
    case SessionCleared => w.(tab := ClearTokens(w.tab))
    case LogoutServed(t, now) => w.(db := Logout(w.db, t, now).0)
    case Reload => w.(tab := Reloaded(w.tab), reply := None, logins := {})
  }

  function Run(w: World, events: seq<Event>): World {
    if events == [] then w else Next(Run(w, events[..|events| - 1]), events[|events| - 1])
  }

  /** A reload is safe unless the stored token is the one a refresh under way is presenting. */
  predicate ReloadSafe(tab: Tab) {
    !(tab.promise.Waiting? && tab.stored == Some(tab.promise.token))
  }

  predicate ReloadsSafely(w: World, events: seq<Event>) {
    events != [] ==>
      && ReloadsSafely(w, events[..|events| - 1])
      && (events[|events| - 1].Reload? ==> ReloadSafe(Run(w, events[..|events| - 1]).tab))
  }

  // ---- The invariant ----

  ghost predicate Mine(w: World, t: Token) {
    exists i :: 0 <= i < |w.db.records| && w.db.records[i].token == t && InFamilies(w, i)
  }

  /** Tokens the tab holds or is about to receive, none of which it has presented yet. */
  predicate Unseen(w: World, t: Token) {
    || t in w.logins
    || w.reply == Some(Some(t))
  }

  ghost predicate TabInv(w: World) {
    && Distinct(w.sent)
    && (forall t :: t in w.wire ==> t in w.sent)
    && (w.tab.promise.Waiting? ==> w.tab.promise.token in w.sent)
    && (w.reply.Some? ==> w.tab.promise.Waiting? && w.tab.promise.token !in w.wire)
    && (w.tab.stored.Some? && w.tab.stored.value in w.sent ==> w.tab.promise == Waiting(w.tab.stored.value))
    && (forall t :: Unseen(w, t) ==> t !in w.sent && w.tab.stored != Some(t))
    && (w.reply.Some? && w.reply.value.Some? ==> w.reply.value.value !in w.logins)
  }

  ghost predicate TokensMine(w: World) {
    && (forall t :: t in w.sent ==> Mine(w, t))
    && (forall t :: Unseen(w, t) ==> Mine(w, t))
    && (w.tab.stored.Some? ==> Mine(w, w.tab.stored.value))
  }

  /** Only tokens the tab presented are rotated, and no family of the tab is marked as reused. */
  ghost predicate RowOk(w: World, i: nat)
    requires i < |w.db.records|
  {
    InFamilies(w, i) ==>
      && w.db.records[i].reason != Some(ReuseDetected)
      && (w.db.records[i].reason == Some(Rotated) ==> w.db.records[i].token in w.sent && w.db.records[i].token !in w.wire)
  }

  ghost predicate Inv(w: World) {
    && S.Chains(w.db.records)
    && TabInv(w)
    && TokensMine(w)
    && (forall i :: 0 <= i < |w.db.records| ==> RowOk(w, i))
  }

  lemma MineSurvives(w: World, w': World)
    requires TokensMine(w) && S.Preserves(w.db.records, w'.db.records) && w.families <= w'.families
    ensures forall t :: Mine(w, t) ==> Mine(w', t)
  {
    forall t | Mine(w, t) ensures Mine(w', t) {
      var i :| 0 <= i < |w.db.records| && w.db.records[i].token == t && InFamilies(w, i);
      assert w'.db.records[i].token == t && InFamilies(w', i);
    }
  }

  lemma NextPreserves(db: Db, e: S.Event)
    ensures S.Preserves(db.records, S.Next(db, e).records)
  {
    S.RevocationIsFinal(db, [e]);
    assert [e][..0] == [];
    assert S.Run(db, []) == db;
  }

  lemma FreshIsNotMine(w: World, t: Token)
    requires S.FreshToken(w.db, t)
    ensures !Mine(w, t)
  {
  }

  lemma OtherKeepsInv(w: World, se: S.Event)
    requires Inv(w) && Allowed(w, se)
    ensures Inv(Next(w, Other(se)))
  {
    var w' := Next(w, Other(se));
    S.NextKeepsChains(w.db, se);
    NextPreserves(w.db, se);
    MineSurvives(w, w');
    forall i | 0 <= i < |w'.db.records| ensures RowOk(w', i) {
      if i < |w.db.records| {
        assert RowOk(w, i);
        OtherLeavesRow(w, se, i);
      } else if InFamilies(w', i) {
        OtherAddsElsewhere(w, se, i);
      }
    }
  }

  /** Another client cannot rotate a record of the tab or mark it as reused. */
  lemma OtherLeavesRow(w: World, se: S.Event, i: nat)
    requires Inv(w) && Allowed(w, se) && i < |w.db.records|
    ensures i < |S.Next(w.db, se).records|
    ensures InFamilies(w, i) ==>
      var r, r' := w.db.records[i], S.Next(w.db, se).records[i];
      r' == r || (r'.token == r.token && r'.reason != Some(Rotated) && r'.reason != Some(ReuseDetected))
  {
    NextPreserves(w.db, se);
    if se.Refresh? && Find(w.db.records, se.token).Some? {
      var k := Find(w.db.records, se.token).value;
      assert InFamilies(w, i) ==> w.db.records[i].familyId != w.db.records[k].familyId;
    }
  }

  lemma OtherAddsElsewhere(w: World, se: S.Event, i: nat)
    requires Inv(w) && Allowed(w, se)
    requires |w.db.records| <= i < |S.Next(w.db, se).records|
    ensures S.Next(w.db, se).records[i].reason.None?
  {
  }

  /** A token on the wire is not rotated; if it is revoked, its family is already dead and replay changes nothing. */
  lemma PresentedTokenIsClean(w: World, t: Token, now: Time)
    requires Inv(w) && t in w.wire
    ensures Find(w.db.records, t).Some?
    ensures var i := Find(w.db.records, t).value;
            && InFamilies(w, i) && w.db.records[i].reason != Some(Rotated)
            && (w.db.records[i].revoked ==>
                  RevokeLive(w.db.records, OfFamily(w.db.records[i].familyId), ReuseDetected, now) == w.db.records)
  {
    assert Mine(w, t);
    var k :| 0 <= k < |w.db.records| && w.db.records[k].token == t && InFamilies(w, k);
    S.FindIsExact(w.db.records, k);
    assert RowOk(w, k);
    var rs := w.db.records;
    if rs[k].revoked {
      forall j | 0 <= j < |rs| && rs[j].familyId == rs[k].familyId ensures rs[j].revoked {
        assert j < k ==> rs[j].reason == Some(Rotated);
        assert forall m :: k < m < |rs| ==> rs[m].familyId != rs[k].familyId;
      }
    }
  }

  /** What serving a token on the wire does to the records: rotate it, or end sessions for another reason. */
  lemma ServedRecords(w: World, t: Token, now: Time, newToken: Token, expiresAt: Time, k: nat)
    requires Inv(w) && t in w.wire && k < |w.db.records|
    ensures Find(w.db.records, t).Some?
    ensures var i := Find(w.db.records, t).value;
            var after := RefreshAccess(w.db, t, now, newToken, expiresAt).0.records;
            && InFamilies(w, i) && k < |after|
            && after[k].token == w.db.records[k].token && after[k].familyId == w.db.records[k].familyId
            && (after[k].reason == w.db.records[k].reason
                || (after[k].reason == Some(Rotated) && k == i)
                || after[k].reason == Some(AccountDisabled))
  {
    PresentedTokenIsClean(w, t, now);
  }

  lemma ServedAdds(w: World, t: Token, now: Time, newToken: Token, expiresAt: Time, k: nat)
    requires |w.db.records| <= k < |RefreshAccess(w.db, t, now, newToken, expiresAt).0.records|
    ensures RefreshAccess(w.db, t, now, newToken, expiresAt).0.records[k].reason.None?
  {
  }

  lemma ServedRowOk(w: World, e: Event, k: nat)
    requires Inv(w) && e.RefreshServed? && e.token in w.wire && S.FreshToken(w.db, e.newToken)
    requires k < |Next(w, e).db.records|
    ensures RowOk(Next(w, e), k)
  {
    var w' := Next(w, e);
    assert w'.db == RefreshAccess(w.db, e.token, e.now, e.newToken, e.expiresAt).0;
    assert w'.wire == w.wire - {e.token} && w'.sent == w.sent && w'.families == w.families;
    if k < |w.db.records| {
      assert RowOk(w, k);
      ServedRecords(w, e.token, e.now, e.newToken, e.expiresAt, k);
    } else {
      ServedAdds(w, e.token, e.now, e.newToken, e.expiresAt, k);
    }
  }

  lemma ServedTokensMine(w: World, e: Event)
    requires Inv(w) && e.RefreshServed? && e.token in w.wire && S.FreshToken(w.db, e.newToken)
    ensures TokensMine(Next(w, e))
  {
    var w' := Next(w, e);
    PresentedTokenIsClean(w, e.token, e.now);
    NextPreserves(w.db, S.Refresh(e.token, e.now, e.newToken, e.expiresAt));
    MineSurvives(w, w');
    if w'.reply == Some(Some(e.newToken)) && w.reply.None? {
      assert w'.db.records[|w.db.records|].token == e.newToken && InFamilies(w', |w.db.records|);
    }
  }

  lemma ServedKeepsInv(w: World, e: Event)
    requires Inv(w) && e.RefreshServed? && e.token in w.wire && S.FreshToken(w.db, e.newToken)
    ensures Inv(Next(w, e))
  {
    var w' := Next(w, e);
    S.NextKeepsChains(w.db, S.Refresh(e.token, e.now, e.newToken, e.expiresAt));
    ServedTokensMine(w, e);
    FreshIsNotMine(w, e.newToken);
    assert w'.reply == w.reply || w'.reply == Some(None) || w'.reply == Some(Some(e.newToken));
    assert TabInv(w');
    forall k | 0 <= k < |w'.db.records| ensures RowOk(w', k) {
      ServedRowOk(w, e, k);
    }
  }

  lemma LoginKeepsInv(w: World, e: Event)
    requires Inv(w) && e.LoginServed? && Next(w, e) != w
    ensures Inv(Next(w, e))
  {
    var w' := Next(w, e);
    var se := S.Login(e.userId, e.familyId, e.token, e.expiresAt, e.now, e.device);
    S.NextKeepsChains(w.db, se);
    NextPreserves(w.db, se);
    MineSurvives(w, w');
    FreshIsNotMine(w, e.token);
    assert w'.db.records[|w.db.records|].token == e.token && InFamilies(w', |w.db.records|);
    forall k | 0 <= k < |w'.db.records| ensures RowOk(w', k) {
      if k < |w.db.records| {
        assert RowOk(w, k);
        assert w.db.records[k].familyId != e.familyId;
      }
    }
  }

  lemma LogoutKeepsInv(w: World, e: Event)
    requires Inv(w) && e.LogoutServed?
    ensures Inv(Next(w, e))
  {
    OtherKeepsInv(w, S.LogoutToken(e.token, e.now));
  }

  lemma SendKeepsInv(w: World)
    requires Inv(w)
    ensures Inv(Next(w, ResponseUnauthorized))
  {
    var w' := Next(w, ResponseUnauthorized);
    var sent := Unauthorized(w.tab).1;
    if sent.Some? {
      DistinctAppend(w.sent, sent.value);
    }
    assert forall t :: Mine(w, t) ==> Mine(w', t) by {
      MineSurvives(w, w');
    }
    forall k | 0 <= k < |w'.db.records| ensures RowOk(w', k) {
      assert RowOk(w, k);
    }
  }

  lemma TabStepKeepsInv(w: World, e: Event)
    requires Inv(w)
    requires e.LoginDelivered? || e.ReplyDelivered? || e.NetworkFailed? || e.PromiseCleared? || e.SessionCleared?
          || (e.Reload? && ReloadSafe(w.tab))
    ensures Inv(Next(w, e))
  {
    var w' := Next(w, e);
    MineSurvives(w, w');
    forall k | 0 <= k < |w'.db.records| ensures RowOk(w', k) {
      assert RowOk(w, k);
    }
    assert forall t :: Unseen(w', t) ==> Unseen(w, t);
    assert e.LoginDelivered? && e.token in w.logins ==> Unseen(w, e.token);
    assert w.reply.Some? && w.reply.value.Some? ==> Unseen(w, w.reply.value.value);
  }

  lemma NextKeepsInv(w: World, e: Event)
    requires Inv(w) && (e.Reload? ==> ReloadSafe(w.tab))
    ensures Inv(Next(w, e))
  {
    match e
    case Other(se) => if Allowed(w, se) { OtherKeepsInv(w, se); }
    case LoginServed(_, _, _, _, _, _) => if Next(w, e) != w { LoginKeepsInv(w, e); }
    case RefreshServed(t, _, newToken, _) =>
      if t in w.wire && S.FreshToken(w.db, newToken) { ServedKeepsInv(w, e); }
    case LogoutServed(_, _) => LogoutKeepsInv(w, e);
    case ResponseUnauthorized => SendKeepsInv(w);
    case _ => TabStepKeepsInv(w, e);
  }

  lemma {:induction false} RunKeepsInv(w: World, events: seq<Event>)
    requires Inv(w) && ReloadsSafely(w, events)
    ensures Inv(Run(w, events))
  {
    if events != [] {
      RunKeepsInv(w, events[..|events| - 1]);
      NextKeepsInv(Run(w, events[..|events| - 1]), events[|events| - 1]);
    }
  }

  // ---- What every run guarantees ----

  /**
    However logins, concurrent 401 responses, logouts, lost replies, other clients and safe reloads
    interleave, the tab presents no refresh token twice, and the server never detects reuse in a
    session of this tab.
   */
  lemma NoTokenIsPresentedTwice(events: seq<Event>)
    requires ReloadsSafely(Start(), events)
    ensures var w := Run(Start(), events);
            && Distinct(w.sent)
            && forall i :: 0 <= i < |w.db.records| && w.db.records[i].familyId in w.families ==>
                 w.db.records[i].reason != Some(ReuseDetected)
  {
    RunKeepsInv(Start(), events);
    var w := Run(Start(), events);
    forall i | 0 <= i < |w.db.records| && w.db.records[i].familyId in w.families
      ensures w.db.records[i].reason != Some(ReuseDetected)
    {
      assert RowOk(w, i);
    }
  }

  /**
    Exactly which reloads break this: after a reload, presenting a token twice stays impossible if and
    only if the stored token was not the one being presented when the page went away.
   */
  lemma ReloadExactly(events: seq<Event>)
    requires ReloadsSafely(Start(), events)
    ensures var w := Run(Start(), events);
            ReloadSafe(w.tab) <==>
            forall later | ReloadsSafely(Next(w, Reload), later) :: Distinct(Run(Next(w, Reload), later).sent)
  {
    RunKeepsInv(Start(), events);
    var w := Run(Start(), events);
    if ReloadSafe(w.tab) {
      NextKeepsInv(w, Reload);
      forall later | ReloadsSafely(Next(w, Reload), later) ensures Distinct(Run(Next(w, Reload), later).sent) {
        RunKeepsInv(Next(w, Reload), later);
      }
    } else {
      var later := UnsafeReloadRepeats(w);
    }
  }

  lemma UnsafeReloadRepeats(w: World) returns (later: seq<Event>)
    requires w.tab.promise.Waiting? && w.tab.promise.token in w.sent && !ReloadSafe(w.tab)
    ensures ReloadsSafely(Next(w, Reload), later)
    ensures !Distinct(Run(Next(w, Reload), later).sent)
  {
    var reloaded := Next(w, Reload);
    later := [ResponseUnauthorized];
    assert later[..0] == [];
    assert Run(reloaded, []) == reloaded && ReloadsSafely(reloaded, []);
    var sent := Run(reloaded, later).sent;
    assert sent == w.sent + [w.tab.promise.token];
    var i :| 0 <= i < |w.sent| && w.sent[i] == w.tab.promise.token;
    assert sent[i] == sent[|w.sent|];
  }

  const ACCOUNT: Account := Account(true, None, false, 0, true)

  /** The shortest such history: reload while the first refresh is answered but not delivered. */
  function ReloadHistory(): seq<Event> {
    [Other(S.SetUser(0, ACCOUNT)),
     LoginServed(0, 0, 10, 100, 0, ""), LoginDelivered(10, 0),
     ResponseUnauthorized, RefreshServed(10, 1, 11, 100),
     Reload,
     ResponseUnauthorized, RefreshServed(10, 2, 12, 100)]
  }

  lemma {:induction false} RunFront(w: World, e: Event, events: seq<Event>)
    ensures Run(w, [e] + events) == Run(Next(w, e), events)
  {
    if events == [] {
      assert ([e] + events)[..0] == [];
      assert Run(w, []) == w;
    } else {
      var all := [e] + events;
      assert all[..|all| - 1] == [e] + events[..|events| - 1];
      RunFront(w, e, events[..|events| - 1]);
    }
  }

  lemma RunAll(w: World, events: seq<Event>)
    requires events != []
    ensures Run(w, events) == Run(Next(w, events[0]), events[1..])
  {
    assert events == [events[0]] + events[1..];
    RunFront(w, events[0], events[1..]);
  }

  const FIRST_RECORD: Record := NewRecord(0, 0, 10, 100, 0, "")
  const SECOND_RECORD: Record := NewRecord(0, 0, 11, 100, 1, "")

  function LoggedIn(): World {
    World(Db(map[0 := ACCOUNT], [FIRST_RECORD], map[]), Tab(Some(0), Some(10), NoPromise), {}, None, {}, {0}, [])
  }

  lemma HistoryLogsIn()
    ensures Run(Start(), ReloadHistory()) == Run(LoggedIn(), ReloadHistory()[3..])
  {
    var h := ReloadHistory();
    RunAll(Start(), h);
    var w1 := World(Db(map[0 := ACCOUNT], [], map[]), NewTab(), {}, None, {}, {}, []);
    assert Next(Start(), h[0]) == w1;
    RunAll(w1, h[1..]);
    var w2 := LoggedIn().(tab := NewTab(), logins := {10});
    assert Next(w1, h[1]) == w2;
    RunAll(w2, h[2..]);
    assert Next(w2, h[2]) == LoggedIn();
  }

  /** The only token is rotated, and its successor has not reached the tab. */
  lemma HistoryRotates()
    ensures Run(LoggedIn(), ReloadHistory()[3..])
         == Run(World(Db(map[0 := ACCOUNT], [Revoke(FIRST_RECORD, Rotated, 1).(lastUsedAt := 1), SECOND_RECORD], map[]),
                      Tab(Some(0), Some(10), Waiting(10)), {}, Some(Some(11)), {}, {0}, [10]), ReloadHistory()[5..])
  {
    var h := ReloadHistory();
    RunAll(LoggedIn(), h[3..]);
    var w4 := LoggedIn().(tab := Tab(Some(0), Some(10), Waiting(10)), wire := {10}, sent := [10]);
    assert Next(LoggedIn(), h[3]) == w4;
    RunAll(w4, h[4..]);
    var used := Revoke(FIRST_RECORD, Rotated, 1).(lastUsedAt := 1);
    var db := Db(map[0 := ACCOUNT], [used, SECOND_RECORD], map[]);
    assert Find([FIRST_RECORD], 10) == Some(0);
    assert [FIRST_RECORD][0 := used] + [SECOND_RECORD] == [used, SECOND_RECORD];
    assert RefreshAccess(w4.db, 10, 1, 11, 100) == (db, Refreshed(11));
    assert Next(w4, h[4]) == World(db, w4.tab, {}, Some(Some(11)), {}, {0}, [10]);
    assert h[4..][1..] == h[5..];
  }

  /** With that reload the server does detect reuse and the tab loses its session. */
  lemma UnsafeReloadIsDetected()
    ensures var w := Run(Start(), ReloadHistory());
            && w.sent == [10, 10]
            && |w.db.records| == 2 && w.db.records[1].reason == Some(ReuseDetected)
  {
    HistoryLogsIn();
    HistoryRotates();
    var h := ReloadHistory();
    var records := [Revoke(FIRST_RECORD, Rotated, 1).(lastUsedAt := 1), SECOND_RECORD];
    var db := Db(map[0 := ACCOUNT], records, map[]);
    var w5 := World(db, Tab(Some(0), Some(10), Waiting(10)), {}, Some(Some(11)), {}, {0}, [10]);
    RunAll(w5, h[5..]);
    var w6 := World(db, Tab(None, Some(10), NoPromise), {}, None, {}, {0}, [10]);
    assert Next(w5, h[5]) == w6;
    RunAll(w6, h[6..]);
    var w7 := World(db, Tab(None, Some(10), Waiting(10)), {10}, None, {}, {0}, [10, 10]);
    assert Next(w6, h[6]) == w7;
    RunAll(w7, h[7..]);
    assert records[..1] == [records[0]];
    assert Find(records, 10) == Some(0);
    assert h[8..] == [];
  }

  // ---- The two tokens of the tab ----

  /** In every run, unsafe reloads included, an access token is held only beside a stored refresh token. */
  lemma {:induction false} AccessNeedsStored(events: seq<Event>)
    ensures var tab := Run(Start(), events).tab; tab.access.Some? ==> tab.stored.Some?
  {
    if events != [] {
      AccessNeedsStored(events[..|events| - 1]);
      AccessStep(Run(Start(), events[..|events| - 1]), events[|events| - 1]);
    }
  }

  lemma AccessStep(w: World, e: Event)
    requires w.tab.access.Some? ==> w.tab.stored.Some?
    ensures Next(w, e).tab.access.Some? ==> Next(w, e).tab.stored.Some?
  {
  }
}
