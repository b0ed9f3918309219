/** The one-time settings sessions: every authorised settings request consumes its token and is handed a new one. */
module SettingsSessions {
  import opened MailTypes

  const SETTINGS_SCOPE := "mail.settings.write"

  /** SHA-256 of a text, as a free constructor: collision-free by assumption. */
  datatype TextHash = TextHash(text: string)

  datatype Session = Session(
    user: UserKey, scopes: set<string>, clientId: string, csrfHash: TextHash, expiresAtMs: Time)

  datatype Context = Context(scopes: set<string>, clientId: string, oauthExpiresAtSeconds: Option<int>)

  datatype Refusal =
    | ScopeRequired | ClientRequired | OauthExpired
    | MalformedAuthorization | ExpiredOrUsed | InvalidCsrf

  datatype Outcome<+T> = Granted(value: T) | Refused(why: Refusal)

  type Sessions = map<TextHash, Session>

  /** `issue` reads the clock three times: to prune, to set the expiry, and to see that it is still ahead. */
  datatype Readings = Readings(pruned: Time, issued: Time, checked: Time)

  // ----- issue, consume, revoke, prune -----

  function Pruned(sessions: Sessions, now: Time): Sessions {
    map k <- sessions | now < sessions[k].expiresAtMs :: sessions[k]
  }

  function WithoutUser(sessions: Sessions, user: UserKey): Sessions {
    map k <- sessions | sessions[k].user != user :: sessions[k]
  }

  /** An absent OAuth expiry and an expiry of zero seconds both mean no limit. */
  function ExpiryOf(ttl: int, ctx: Context, now: Time): Time {
    if ctx.oauthExpiresAtSeconds.None? || ctx.oauthExpiresAtSeconds.value == 0 then now + ttl
    else if ctx.oauthExpiresAtSeconds.value * 1000 < now + ttl then ctx.oauthExpiresAtSeconds.value * 1000
    else now + ttl
  }

  function IssueRefusal(ttl: int, ctx: Context, at: Readings): Option<Refusal> {
    if SETTINGS_SCOPE !in ctx.scopes then Some(ScopeRequired)
    else if ctx.clientId == "" || |ctx.clientId| > 256 then Some(ClientRequired)
    else if ExpiryOf(ttl, ctx, at.issued) <= at.checked then Some(OauthExpired)
    else None
  }

  function IssuedSession(ttl: int, user: UserKey, ctx: Context, csrf: string, now: Time): Session {
    Session(user, ctx.scopes, ctx.clientId, TextHash(csrf), ExpiryOf(ttl, ctx, now))
  }

  function AfterIssue(
    sessions: Sessions, ttl: int, user: UserKey, ctx: Context, token: string, csrf: string, at: Readings): Sessions
  {
    if IssueRefusal(ttl, ctx, at).Some? then Pruned(sessions, at.pruned)
    else Pruned(sessions, at.pruned)[TextHash(token) := IssuedSession(ttl, user, ctx, csrf, at.issued)]
  }

  predicate WellFormed(token: string, csrf: string) {
    0 < |token| <= 256 && 0 < |csrf| <= 256
  }

  function AfterConsume(sessions: Sessions, token: string, csrf: string): Sessions {
    if WellFormed(token, csrf) then sessions - {TextHash(token)} else sessions
  }

  function ConsumeOutcome(sessions: Sessions, token: string, csrf: string, now: Time): Outcome<Session> {
    var k := TextHash(token);
    if !WellFormed(token, csrf) then Refused(MalformedAuthorization)
    else if k !in sessions || sessions[k].expiresAtMs <= now then Refused(ExpiredOrUsed)
    else if sessions[k].csrfHash != TextHash(csrf) then Refused(InvalidCsrf)
    else Granted(sessions[k])
  }

  predicate ValidTtl(ttl: int) {
    30_000 <= ttl <= 10 * 60_000
  }

  class OneTimeSettingsSessions {
    const ttlMs: int
    var sessions: Sessions

    constructor (ttlMs: int)
      requires ValidTtl(ttlMs)
      ensures this.ttlMs == ttlMs && sessions == map[]
    {
      this.ttlMs, sessions := ttlMs, map[];
    }

    /** `token` and `csrf` are the freshly drawn random texts. */
    method Issue(user: UserKey, ctx: Context, token: string, csrf: string, at: Readings) returns (r: Outcome<Session>)
      modifies this
      ensures sessions == AfterIssue(old(sessions), ttlMs, user, ctx, token, csrf, at)
      ensures r == match IssueRefusal(ttlMs, ctx, at)
                   case Some(why) => Refused(why)
                   case None => Granted(IssuedSession(ttlMs, user, ctx, csrf, at.issued))
    {
      Prune(at.pruned);
      if SETTINGS_SCOPE !in ctx.scopes { return Refused(ScopeRequired); }
      if ctx.clientId == "" || |ctx.clientId| > 256 { return Refused(ClientRequired); }
      var expiresAt := at.issued + ttlMs;
      if ctx.oauthExpiresAtSeconds.Some? && ctx.oauthExpiresAtSeconds.value != 0 {
        var oauthExpiry := ctx.oauthExpiresAtSeconds.value * 1000;
        if oauthExpiry < expiresAt { expiresAt := oauthExpiry; }
      }
      if expiresAt <= at.checked { return Refused(OauthExpired); }
      var session := Session(user, ctx.scopes, ctx.clientId, TextHash(csrf), expiresAt);
      sessions := sessions[TextHash(token) := session];
      return Granted(session);
    }

    method Consume(token: string, csrf: string, now: Time) returns (r: Outcome<Session>)
      modifies this
      ensures sessions == AfterConsume(old(sessions), token, csrf)
      ensures r == ConsumeOutcome(old(sessions), token, csrf, now)
    {
      if token == "" || csrf == "" || |token| > 256 || |csrf| > 256 { return Refused(MalformedAuthorization); }
      var key := TextHash(token);
      var stored := if key in sessions then Some(sessions[key]) else None;
      sessions := sessions - {key};
      if stored.None? || stored.value.expiresAtMs <= now { return Refused(ExpiredOrUsed); }
      if TextHash(csrf) != stored.value.csrfHash { return Refused(InvalidCsrf); }
      return Granted(stored.value);
    }

    method RevokeUser(user: UserKey)
      modifies this
      ensures sessions == WithoutUser(old(sessions), user)
    {
      var keys := sessions.Keys;
      while keys != {}
        invariant keys <= sessions.Keys <= old(sessions).Keys
        invariant forall k <- old(sessions) :: k in sessions <==> k in keys || old(sessions)[k].user != user
        invariant forall k <- sessions :: sessions[k] == old(sessions)[k]
        decreases |keys|
      {
        var key :| key in keys;
        if sessions[key].user == user { sessions := sessions - {key}; }
        keys := keys - {key};
      }
    }

    method Size(now: Time) returns (n: nat)
      modifies this
      ensures sessions == Pruned(old(sessions), now) && n == |sessions|
    {
      Prune(now);
      return |sessions|;
    }

    method Prune(now: Time)
      modifies this
      ensures sessions == Pruned(old(sessions), now)
    {
      var keys := sessions.Keys;
      while keys != {}
        invariant keys <= sessions.Keys <= old(sessions).Keys
        invariant forall k <- old(sessions) :: k in sessions <==> k in keys || now < old(sessions)[k].expiresAtMs
        invariant forall k <- sessions :: sessions[k] == old(sessions)[k]
        decreases |keys|
      {
        var key :| key in keys;
        if sessions[key].expiresAtMs <= now { sessions := sessions - {key}; }
        keys := keys - {key};
      }
    }
  }

  /** The original's constructor throws for a lifetime outside the accepted range. */
  method Open(ttlMs: int) returns (r: Option<OneTimeSettingsSessions>)
    ensures r.Some? <==> 30_000 <= ttlMs <= 600_000
    ensures r.Some? ==> fresh(r.value) && r.value.ttlMs == ttlMs && r.value.sessions == map[]
  {
    if ttlMs < 30_000 || ttlMs > 10 * 60_000 { return None; }
    var sessions := new OneTimeSettingsSessions(ttlMs);
    return Some(sessions);
  }

  // ----- authorising a settings request: consume, then reissue -----

  /** One request. `token` is None when the Authorization header does not have the expected form;
      `newToken` and `newCsrf` are the texts drawn if it gets as far as reissuing. */
  datatype Attempt = Attempt(
    token: Option<string>, csrf: string, consumedAt: Time, reissue: Readings, newToken: string, newCsrf: string)

  function Rotation(s: Session): Context {
    Context(s.scopes, s.clientId, Some(s.expiresAtMs / 1000))
  }

  function AfterAuthorize(sessions: Sessions, ttl: int, a: Attempt): Sessions {
    if a.token.None? then sessions
    else
      var consumed := AfterConsume(sessions, a.token.value, a.csrf);
      match ConsumeOutcome(sessions, a.token.value, a.csrf, a.consumedAt)
      case Refused(_) => consumed
      case Granted(s) =>
        if SETTINGS_SCOPE !in s.scopes then consumed
        else AfterIssue(consumed, ttl, s.user, Rotation(s), a.newToken, a.newCsrf, a.reissue)
  }

  function AuthorizeOutcome(sessions: Sessions, ttl: int, a: Attempt): Option<Session> {
    if a.token.None? then None
    else
      match ConsumeOutcome(sessions, a.token.value, a.csrf, a.consumedAt)
      case Refused(_) => None
      case Granted(s) =>
        if SETTINGS_SCOPE !in s.scopes || IssueRefusal(ttl, Rotation(s), a.reissue).Some? then None
        else Some(s)
  }

  /** The request is let through as the user of the consumed session, or answered 401. */
  method AuthorizeSettings(store: OneTimeSettingsSessions, a: Attempt) returns (r: Option<Session>)
    modifies store
    ensures store.sessions == AfterAuthorize(old(store.sessions), store.ttlMs, a)
    ensures r == AuthorizeOutcome(old(store.sessions), store.ttlMs, a)
  {
    if a.token.None? { return None; }
    var consumed := store.Consume(a.token.value, a.csrf, a.consumedAt);
    if consumed.Refused? || SETTINGS_SCOPE !in consumed.value.scopes { return None; }
    var rotated := store.Issue(consumed.value.user, Rotation(consumed.value), a.newToken, a.newCsrf, a.reissue);
    return if rotated.Granted? then Some(consumed.value) else None;
  }
}
