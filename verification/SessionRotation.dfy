/** What the one-time sessions guarantee over whole runs: who can act, how often, and until when. */
module SessionRotation {
  import opened MailTypes
  import opened SettingsSessions

  // ----- one rotation -----

  /** Rotating never extends a session, with one exception: an expiry within the first second of 1970
      rounds down to zero seconds, and zero means no OAuth limit at all. */
  lemma ExpiryGrowsExactlyWhen(ttl: int, s: Session, issuedAt: Time)
    ensures ExpiryOf(ttl, Rotation(s), issuedAt) > s.expiresAtMs
            <==> 0 <= s.expiresAtMs < 1000 && s.expiresAtMs < issuedAt + ttl
  {
    assert s.expiresAtMs == s.expiresAtMs / 1000 * 1000 + s.expiresAtMs % 1000;
  }

  ghost predicate WellGranted(s: Session) {
    SETTINGS_SCOPE in s.scopes && 0 < |s.clientId| <= 256
  }

  /** A request is let through exactly when its token is stored and unexpired, the CSRF text is the one issued,
      and the whole second in which the session ends has not begun when the new one is checked: in its last partial
      second a session is spent but not replaced. */
  lemma AuthorizedExactlyWhen(sessions: Sessions, ttl: int, a: Attempt)
    requires ValidTtl(ttl) && 1000 <= a.consumedAt
    requires forall k <- sessions :: WellGranted(sessions[k])
    ensures AuthorizeOutcome(sessions, ttl, a).Some? <==>
            && a.token.Some? && WellFormed(a.token.value, a.csrf)
            && TextHash(a.token.value) in sessions
            && var s := sessions[TextHash(a.token.value)];
               s.csrfHash == TextHash(a.csrf) && a.consumedAt < s.expiresAtMs
               && a.reissue.checked < s.expiresAtMs - s.expiresAtMs % 1000
               && a.reissue.checked < a.reissue.issued + ttl
  {
    if a.token.Some? && TextHash(a.token.value) in sessions {
      var e := sessions[TextHash(a.token.value)].expiresAtMs;
      assert e == e / 1000 * 1000 + e % 1000;
    }
  }

  /** Presenting a token answers by the first of these that fails: both texts have 1 to 256 characters; the token is
      stored and not expired; the CSRF text is the one issued with it. A well-formed token is gone afterwards whatever
      the answer, and no other is. */
  lemma ConsumeIsExact(sessions: Sessions, token: string, csrf: string, now: Time)
    ensures var r, k, after := ConsumeOutcome(sessions, token, csrf, now), TextHash(token),
                               AfterConsume(sessions, token, csrf);
            var formed := 1 <= |token| <= 256 && 1 <= |csrf| <= 256;
            && (r == Refused(MalformedAuthorization) <==> !formed)
            && (r == Refused(ExpiredOrUsed) <==> formed && (k in sessions ==> now >= sessions[k].expiresAtMs))
            && (r == Refused(InvalidCsrf) <==>
                  formed && k in sessions && now < sessions[k].expiresAtMs && sessions[k].csrfHash != TextHash(csrf))
            && (r.Granted? <==>
                  formed && k in sessions && now < sessions[k].expiresAtMs && sessions[k].csrfHash == TextHash(csrf))
            && (r.Granted? ==> r.value == sessions[k])
            && (formed ==> k !in after) && (!formed ==> after == sessions)
            && (forall l <- sessions | l != k :: l in after && after[l] == sessions[l]) && after.Keys <= sessions.Keys
  {
  }

  /** A session is issued exactly to a caller with the settings scope and a client id of 1 to 256 characters whose OAuth
      grant outlives the check; it has the caller's user, scopes and client, ends with the lifetime or the grant,
      whichever is first, and joins those of the others that had not expired. */
  lemma IssueIsExact(
    sessions: Sessions, ttl: int, user: UserKey, ctx: Context, token: string, csrf: string, at: Readings)
    ensures var granted := ctx.oauthExpiresAtSeconds;
            var limited := granted.Some? && granted.value != 0 && granted.value * 1000 < at.issued + ttl;
            var ends := if limited then granted.value * 1000 else at.issued + ttl;
            var r, after := IssueRefusal(ttl, ctx, at), AfterIssue(sessions, ttl, user, ctx, token, csrf, at);
            && (r == Some(ScopeRequired) <==> "mail.settings.write" !in ctx.scopes)
            && (r == Some(ClientRequired) <==>
                  "mail.settings.write" in ctx.scopes && !(1 <= |ctx.clientId| <= 256))
            && (r == Some(OauthExpired) <==>
                  "mail.settings.write" in ctx.scopes && 1 <= |ctx.clientId| <= 256 && ends <= at.checked)
            && (r.None? <==>
                  "mail.settings.write" in ctx.scopes && 1 <= |ctx.clientId| <= 256 && at.checked < ends)
            && (r.None? ==>
                  && TextHash(token) in after
                  && after[TextHash(token)] == Session(user, ctx.scopes, ctx.clientId, TextHash(csrf), ends))
            && (r.None? && ValidTtl(ttl) ==>
                  && after[TextHash(token)].expiresAtMs <= at.issued + 600_000
                  && (!limited ==> after[TextHash(token)].expiresAtMs >= at.issued + 30_000))
            && (forall k | k != TextHash(token) || r.Some? ::
                  if k in sessions && at.pruned < sessions[k].expiresAtMs then k in after && after[k] == sessions[k]
                  else k !in after)
  {
  }

  /** A request that is let through trades its token for the new one: same user, scopes and client, the new CSRF text,
      and an end no later than the whole second of the old one, unless that is the first second of 1970. */
  lemma RotationCarriesOver(sessions: Sessions, ttl: int, a: Attempt)
    requires AuthorizeOutcome(sessions, ttl, a).Some?
    requires a.token.Some? && a.newToken != a.token.value
    ensures TextHash(a.token.value) in sessions
    ensures var before, after := sessions[TextHash(a.token.value)], AfterAuthorize(sessions, ttl, a);
            && AuthorizeOutcome(sessions, ttl, a) == Some(before)
            && TextHash(a.token.value) !in after && TextHash(a.newToken) in after
            && var next := after[TextHash(a.newToken)];
               && next.user == before.user && next.scopes == before.scopes && next.clientId == before.clientId
               && next.csrfHash == TextHash(a.newCsrf)
               && (before.expiresAtMs / 1000 != 0 ==>
                     next.expiresAtMs <= before.expiresAtMs - before.expiresAtMs % 1000)
               && next.expiresAtMs <= a.reissue.issued + ttl && a.reissue.checked < next.expiresAtMs
  {
    var e := sessions[TextHash(a.token.value)].expiresAtMs;
    assert e == e / 1000 * 1000 + e % 1000;
  }

  // ----- runs -----

  /** The first session of a chain: `number` tells chains apart. */
  datatype Origin = Origin(number: nat, user: UserKey, startedAt: Time, expiresAtMs: Time)

  /** `origins` remembers, for every token ever handed out, the chain it belongs to; `clock` the latest reading. */
  datatype System = System(ttl: int, sessions: Sessions, origins: map<TextHash, Origin>, chains: nat, clock: Time)

  datatype Event =
    | Issuing(user: UserKey, ctx: Context, token: string, csrf: string, at: Readings)
    | Authorizing(attempt: Attempt)
    | Revoking(user: UserKey)
    | Sizing(now: Time)

  function Initial(ttl: int, now: Time): System {
    System(ttl, map[], map[], 0, now)
  }

  predicate InOrder(before: Time, at: Readings) {
    before <= at.pruned <= at.issued <= at.checked
  }

  /** Random tokens never repeat, and the clock does not run backwards. */
  predicate Possible(s: System, e: Event) {
    match e
    case Issuing(_, _, token, _, at) => TextHash(token) !in s.origins && InOrder(s.clock, at)
    case Authorizing(a) =>
      TextHash(a.newToken) !in s.origins && s.clock <= a.consumedAt && InOrder(a.consumedAt, a.reissue)
    case Revoking(_) => true
    case Sizing(now) => s.clock <= now
  }

  function Start(s: System, user: UserKey, ctx: Context, now: Time): Origin {
    Origin(s.chains, user, now, ExpiryOf(s.ttl, ctx, now))
  }

  function Next(s: System, e: Event): System {
    match e
    case Issuing(user, ctx, token, csrf, at) =>
      var after := s.(sessions := AfterIssue(s.sessions, s.ttl, user, ctx, token, csrf, at), clock := at.checked);
      if IssueRefusal(s.ttl, ctx, at).Some? then after
      else after.(origins := s.origins[TextHash(token) := Start(s, user, ctx, at.issued)], chains := s.chains + 1)
    case Authorizing(a) =>
      var after := s.(sessions := AfterAuthorize(s.sessions, s.ttl, a), clock := a.reissue.checked);
      if AuthorizeOutcome(s.sessions, s.ttl, a).None? || TextHash(a.token.value) !in s.origins then after
      else after.(origins := s.origins[TextHash(a.newToken) := s.origins[TextHash(a.token.value)]])
    case Revoking(user) => s.(sessions := WithoutUser(s.sessions, user))
    case Sizing(now) => s.(sessions := Pruned(s.sessions, now), clock := now)
  }

  function Execute(s: System, run: seq<Event>): System
    decreases |run|
  {
    if run == [] then s else Execute(Next(s, run[0]), run[1..])
  }

  predicate PossibleRun(s: System, run: seq<Event>)
    decreases |run|
  {
    run == [] || (Possible(s, run[0]) && PossibleRun(Next(s, run[0]), run[1..]))
  }

  // ----- the invariant -----

  ghost predicate Traced(s: System) {
    && s.sessions.Keys <= s.origins.Keys
    && (forall k <- s.origins :: s.origins[k].number < s.chains)
    && (forall k <- s.sessions :: WellGranted(s.sessions[k]) && s.sessions[k].user == s.origins[k].user)
  }

  ghost predicate OnePerChain(s: System)
    requires Traced(s)
  {
    forall j, k :: j in s.sessions && k in s.sessions && s.origins[j].number == s.origins[k].number ==> j == k
  }

  /** Every session of a chain expires when the first one did, or at the whole second before that. */
  ghost predicate Anchored(session: Session, o: Origin, ttl: int, clock: Time) {
    && o.startedAt <= clock
    && o.expiresAtMs <= o.startedAt + ttl
    && (session.expiresAtMs == o.expiresAtMs || session.expiresAtMs == o.expiresAtMs - o.expiresAtMs % 1000)
  }

  ghost predicate Sound(s: System) {
    && ValidTtl(s.ttl) && 1000 <= s.clock
    && Traced(s) && OnePerChain(s)
    && (forall k <- s.sessions :: Anchored(s.sessions[k], s.origins[k], s.ttl, s.clock))
  }

  ghost predicate Restricts(t: Sessions, s: Sessions) {
    t.Keys <= s.Keys && forall k <- t :: t[k] == s[k]
  }

  /** Some sessions disappear and nothing else happens. */
  ghost predicate OnlyShrinks(s: System, t: System) {
    t.ttl == s.ttl && t.chains == s.chains && t.origins == s.origins && s.clock <= t.clock
    && Restricts(t.sessions, s.sessions)
  }

  lemma ShrinkingKeepsSound(s: System, t: System)
    requires Sound(s) && OnlyShrinks(s, t)
    ensures Sound(t)
  {
  }

  /** Some sessions disappear and one new token appears, belonging to a chain that has no other session left. */
  ghost predicate Adds(s: System, t: System, k: TextHash, o: Origin) {
    && t.ttl == s.ttl && s.chains <= t.chains && s.clock <= t.clock
    && k !in s.origins && t.origins == s.origins[k := o] && o.number < t.chains
    && k in t.sessions && Restricts(t.sessions - {k}, s.sessions)
    && (forall j <- t.sessions :: j != k ==> j in s.origins && s.origins[j].number != o.number)
    && WellGranted(t.sessions[k]) && t.sessions[k].user == o.user && Anchored(t.sessions[k], o, t.ttl, t.clock)
  }

  lemma AddingKeepsTraced(s: System, t: System, k: TextHash, o: Origin)
    requires Sound(s) && Adds(s, t, k, o)
    ensures Traced(t) && OnePerChain(t)
  {
    forall j <- t.sessions | j != k
      ensures j in s.sessions && t.sessions[j] == s.sessions[j] && t.origins[j] == s.origins[j]
    {
      assert j in t.sessions - {k};
    }
  }

  lemma AddingKeepsSound(s: System, t: System, k: TextHash, o: Origin)
    requires Sound(s) && Adds(s, t, k, o)
    ensures Sound(t)
  {
    AddingKeepsTraced(s, t, k, o);
    forall j <- t.sessions
      ensures Anchored(t.sessions[j], t.origins[j], t.ttl, t.clock)
    {
      if j != k {
        assert j in t.sessions - {k};
      }
    }
  }

  lemma IssuingKeepsSound(s: System, e: Event)
    requires Sound(s) && e.Issuing? && Possible(s, e)
    ensures Sound(Next(s, e))
  {
    if IssueRefusal(s.ttl, e.ctx, e.at).Some? {
      ShrinkingKeepsSound(s, Next(s, e));
    } else {
      AddingKeepsSound(s, Next(s, e), TextHash(e.token), Start(s, e.user, e.ctx, e.at.issued));
    }
  }

  lemma RotatedIsAnchored(s: Session, o: Origin, ttl: int, a: Attempt, clock: Time)
    requires 1000 <= clock <= a.consumedAt <= a.reissue.issued && Anchored(s, o, ttl, clock)
    requires a.consumedAt < s.expiresAtMs
    ensures ExpiryOf(ttl, Rotation(s), a.reissue.issued) == o.expiresAtMs - o.expiresAtMs % 1000
  {
    assert s.expiresAtMs == s.expiresAtMs / 1000 * 1000 + s.expiresAtMs % 1000;
  }

  lemma AuthorizingKeepsSound(s: System, e: Event)
    requires Sound(s) && e.Authorizing? && Possible(s, e)
    ensures Sound(Next(s, e))
  {
    var a := e.attempt;
    if AuthorizeOutcome(s.sessions, s.ttl, a).None? {
      ShrinkingKeepsSound(s, Next(s, e));
    } else {
      var k := TextHash(a.token.value);
      RotatedIsAnchored(s.sessions[k], s.origins[k], s.ttl, a, s.clock);
      AddingKeepsSound(s, Next(s, e), TextHash(a.newToken), s.origins[k]);
    }
  }

  lemma {:induction false} SoundAlways(s: System, run: seq<Event>)
    requires Sound(s) && PossibleRun(s, run)
    ensures Sound(Execute(s, run)) && Execute(s, run).ttl == s.ttl
    decreases |run|
  {
    if run != [] {
      match run[0] {
        case Issuing(_, _, _, _, _) => { IssuingKeepsSound(s, run[0]); }
        case Authorizing(_) => { AuthorizingKeepsSound(s, run[0]); }
        case Revoking(_) => { ShrinkingKeepsSound(s, Next(s, run[0])); }
        case Sizing(_) => { ShrinkingKeepsSound(s, Next(s, run[0])); }
      }
      SoundAlways(Next(s, run[0]), run[1..]);
    }
  }

  // ----- the main results -----

  /** However often it is rotated, a chain has at most one live token, belongs to the user it was issued to,
      and ends no later than its first session would have. */
  lemma ChainsStaySingleAndEnd(ttl: int, start: Time, run: seq<Event>, j: TextHash, k: TextHash)
    requires ValidTtl(ttl) && 1000 <= start && PossibleRun(Initial(ttl, start), run)
    requires j in Execute(Initial(ttl, start), run).sessions && k in Execute(Initial(ttl, start), run).sessions
    ensures var s := Execute(Initial(ttl, start), run);
            && j in s.origins && k in s.origins
            && (s.origins[j].number == s.origins[k].number ==> j == k)
            && s.sessions[k].user == s.origins[k].user
            && s.sessions[k].expiresAtMs <= s.origins[k].expiresAtMs <= s.origins[k].startedAt + ttl
  {
    SoundAlways(Initial(ttl, start), run);
  }

  /** From the moment the first session's lifetime is over, no token of the chain authorises anything. */
  lemma DeadAfterLifetime(ttl: int, start: Time, run: seq<Event>, a: Attempt)
    requires ValidTtl(ttl) && 1000 <= start && PossibleRun(Initial(ttl, start), run)
    requires a.token.Some? && TextHash(a.token.value) in Execute(Initial(ttl, start), run).origins
    requires Execute(Initial(ttl, start), run).origins[TextHash(a.token.value)].startedAt + ttl <= a.consumedAt
    ensures AuthorizeOutcome(Execute(Initial(ttl, start), run).sessions, ttl, a).None?
  {
    SoundAlways(Initial(ttl, start), run);
  }

  ghost predicate Spent(s: System, k: TextHash) {
    k in s.origins && k !in s.sessions
  }

  lemma {:induction false} SpentForever(s: System, run: seq<Event>, k: TextHash)
    requires Spent(s, k) && PossibleRun(s, run)
    ensures Spent(Execute(s, run), k)
    decreases |run|
  {
    if run != [] {
      SpentForever(Next(s, run[0]), run[1..], k);
    }
  }

  /** Presenting a token with any CSRF text, right or wrong, uses it up for good: whatever happens afterwards,
      it authorises nothing. A request that is refused for its form leaves the token as it was. */
  lemma TokenWorksOnce(s: System, a: Attempt, run: seq<Event>, later: Attempt)
    requires Sound(s) && Possible(s, Authorizing(a)) && PossibleRun(Next(s, Authorizing(a)), run)
    requires a.token.Some? && TextHash(a.token.value) in s.sessions && later.token == a.token
    ensures if WellFormed(a.token.value, a.csrf)
            then AuthorizeOutcome(Execute(Next(s, Authorizing(a)), run).sessions, s.ttl, later).None?
            else Next(s, Authorizing(a)).sessions == s.sessions
  {
    if WellFormed(a.token.value, a.csrf) {
      SpentForever(Next(s, Authorizing(a)), run, TextHash(a.token.value));
    }
  }

  ghost predicate Absent(s: System, user: UserKey) {
    forall k <- s.sessions :: s.sessions[k].user != user
  }

  lemma AbsentStays(s: System, e: Event, user: UserKey)
    requires Absent(s, user) && !(e.Issuing? && e.user == user)
    ensures Absent(Next(s, e), user)
  {
  }

  /** Revoking a user ends every chain of that user: until a new session is issued to them, no run of other
      events brings one back, and no request is authorised as that user. */
  lemma {:induction false} RevokedStaysOut(s: System, run: seq<Event>, user: UserKey, a: Attempt)
    requires Absent(s, user)
    requires forall e <- run :: !(e.Issuing? && e.user == user)
    ensures Absent(Execute(s, run), user)
    ensures AuthorizeOutcome(Execute(s, run).sessions, s.ttl, a).Some? ==>
              AuthorizeOutcome(Execute(s, run).sessions, s.ttl, a).value.user != user
    decreases |run|
  {
    if run != [] {
      AbsentStays(s, run[0], user);
      assert Next(s, run[0]).ttl == s.ttl;
      RevokedStaysOut(Next(s, run[0]), run[1..], user, a);
    }
  }

  /** Revocation takes away exactly that user's sessions. */
  lemma RevocationIsExact(s: System, user: UserKey)
    ensures Absent(Next(s, Revoking(user)), user)
    ensures forall k :: k in Next(s, Revoking(user)).sessions <==> k in s.sessions && s.sessions[k].user != user
    ensures Restricts(Next(s, Revoking(user)).sessions, s.sessions)
  {
  }
}
