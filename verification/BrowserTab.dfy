/**
  The token store of one browser tab and its single-flight refresh.

  An asynchronous function runs without interruption up to its first await, so each method below is
  one uninterrupted stretch of it: starting a refresh, its reply, and the clean-up that follows.
 */
module BrowserTab {
  import opened Common
  import opened Sessions

  /** The shared refresh promise: absent, waiting for the server, or resolved but not yet cleared. */
  datatype Promise = NoPromise | Waiting(token: Token) | Settled(ok: bool)

  /** The access token and promise live in memory; the stored refresh token survives a page reload. */
  datatype Tab = Tab(access: Option<nat>, stored: Option<Token>, promise: Promise)

  function NewTab(): Tab { Tab(None, None, NoPromise) }

  function SetTokens(tab: Tab, access: nat, refresh: Token): Tab {
    tab.(access := Some(access), stored := Some(refresh))
  }

  function ClearTokens(tab: Tab): Tab {
    tab.(access := None, stored := None)
  }

  /** Joins the refresh under way, or starts one; the result names the token put on the wire. */
  function StartRefresh(tab: Tab): (Tab, Option<Token>) {
    if tab.promise != NoPromise then (tab, None)
    else match tab.stored
         case None => (tab.(promise := Settled(false)), None)
         case Some(token) => (tab.(promise := Waiting(token)), Some(token))
  }

  /** What a 401 does: nothing without a stored token, otherwise it joins or starts the refresh. */
  function Unauthorized(tab: Tab): (Tab, Option<Token>) {
    if tab.stored.None? then (tab, None) else StartRefresh(tab)
  }

  /** `None` is a refusal or a network failure. */
  function FinishRefresh(tab: Tab, tokens: Option<(nat, Token)>): Tab {
    match tokens
    case None => ClearTokens(tab).(promise := Settled(false))
    case Some((access, refresh)) => SetTokens(tab, access, refresh).(promise := Settled(true))
  }

  /** Nothing in memory outlives a reload; the stored token does. */
  function Reloaded(tab: Tab): Tab {
    Tab(None, tab.stored, NoPromise)
  }

  class TabSession {
    var accessToken: Option<nat>
    var refreshToken: Option<Token>
    var refreshPromise: Promise

    ghost function Contents(): Tab
      reads this
    {
      Tab(accessToken, refreshToken, refreshPromise)
    }

    constructor ()
      ensures Contents() == NewTab()
    {
      accessToken, refreshToken, refreshPromise := None, None, NoPromise;
    }

    method SetSession(access: nat, refresh: Token)
      modifies this`accessToken, this`refreshToken
      ensures Contents() == SetTokens(old(Contents()), access, refresh)
    {
      accessToken := Some(access);
      refreshToken := Some(refresh);
    }

    method ClearSession()
      modifies this`accessToken, this`refreshToken
      ensures Contents() == ClearTokens(old(Contents()))
    {
      accessToken := None;
      refreshToken := None;
    }

    method RefreshSession() returns (sent: Option<Token>)
      modifies this`refreshPromise
      ensures (Contents(), sent) == StartRefresh(old(Contents()))
    {
      sent := None;
      if refreshPromise == NoPromise {
        if refreshToken.None? {
          refreshPromise := Settled(false);
        } else {
          refreshPromise := Waiting(refreshToken.value);
          sent := refreshToken;
        }
      }
    }

    method OnUnauthorized() returns (sent: Option<Token>)
      modifies this`refreshPromise
      ensures (Contents(), sent) == Unauthorized(old(Contents()))
    {
      if refreshToken.None? {
        return None;
      }
      sent := RefreshSession();
    }

    method OnRefreshReply(tokens: Option<(nat, Token)>)
      modifies this
      ensures Contents() == FinishRefresh(old(Contents()), tokens)
    {
      if tokens.None? {
        ClearSession();
        refreshPromise := Settled(false);
      } else {
        SetSession(tokens.value.0, tokens.value.1);
        refreshPromise := Settled(true);
      }
    }

    method OnRefreshSettled()
      modifies this`refreshPromise
      ensures Contents() == old(Contents()).(promise := NoPromise)
    {
      refreshPromise := NoPromise;
    }
  }

  // ---- One request per refresh ----

  /** `n` responses of 401 in a row, and the tokens they put on the wire. */
  function Unauthorizeds(tab: Tab, n: nat): (Tab, seq<Token>) {
    if n == 0 then (tab, [])
    else
      var (before, sent) := Unauthorizeds(tab, n - 1);
      var (after, token) := Unauthorized(before);
      (after, if token.Some? then sent + [token.value] else sent)
  }

  /** However many requests fail together, the stored token goes out once; while it is out nothing else does. */
  lemma {:induction false} OneRequestPerRefresh(tab: Tab, n: nat)
    requires n > 0
    ensures tab.promise != NoPromise || tab.stored == None ==> Unauthorizeds(tab, n) == (tab, [])
    ensures tab.promise == NoPromise && tab.stored.Some? ==>
      Unauthorizeds(tab, n) == (tab.(promise := Waiting(tab.stored.value)), [tab.stored.value])
  {
    if n == 1 {
      assert Unauthorizeds(tab, 0) == (tab, []);
      assert tab.stored.Some? ==> [] + [tab.stored.value] == [tab.stored.value];
    } else {
      OneRequestPerRefresh(tab, n - 1);
    }
  }

  /**
    A full round: after `n` failures, a reply with new tokens and the clean-up, the next failures present
    the token that came with the reply, once; after a refusal they present nothing and no token is left.
   */
  lemma RefreshRound(tab: Tab, n: nat, access: nat, refresh: Token, m: nat)
    requires n > 0 && m > 0 && tab.promise == NoPromise && tab.stored.Some?
    ensures var waiting := Unauthorizeds(tab, n).0;
            var renewed := FinishRefresh(waiting, Some((access, refresh))).(promise := NoPromise);
            var refused := FinishRefresh(waiting, None).(promise := NoPromise);
            && renewed.access == Some(access) && Unauthorizeds(renewed, m).1 == [refresh]
            && refused == NewTab() && Unauthorizeds(refused, m) == (NewTab(), [])
  {
    OneRequestPerRefresh(tab, n);
    var waiting := tab.(promise := Waiting(tab.stored.value));
    OneRequestPerRefresh(FinishRefresh(waiting, Some((access, refresh))).(promise := NoPromise), m);
    OneRequestPerRefresh(NewTab(), m);
  }
}
