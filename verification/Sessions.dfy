/**
  The session lifecycle: short-lived access tokens, rotating refresh secrets, an idle timeout measured by a timestamp
  that is updated at most once a minute. Times are microseconds; secrets and session ids are fresh values.
*/
module Sessions {
  import opened Positions

  const MINUTE := 60_000_000

  type SessionId = nat
  type Secret = nat
  type AccountId = nat

  /** SESSION_IDLE_TIMEOUT_MINUTES, SESSION_LIFETIME_MINUTES and REFRESH_TOKEN_LIFETIME_DAYS. */
  datatype Config = Config(idleTimeout: nat, tokenLifetime: nat, refreshLifetime: nat)

  /** 120 minutes, 15 minutes, 7 days. */
  const DEFAULTS := Config(120 * MINUTE, 15 * MINUTE, 7 * 24 * 60 * MINUTE)

  /** A row of personal_access_tokens; the columns are nullable. */
  datatype Session = Session(account: AccountId, secret: Option<Secret>, lastUsed: Option<int>, created: Option<int>)

  type Sessions = map<SessionId, Session>

  /** The claims of an access token that matter here: jti and exp. */
  datatype Token = Token(jti: SessionId, exp: int)

  // ---- the operations -----------------------------------------------------------------------

  function NewToken(config: Config, sid: SessionId, now: int): Token {
    Token(sid, now + config.tokenLifetime)
  }

  function Opened(sessions: Sessions, account: AccountId, sid: SessionId, secret: Secret, now: int): Sessions {
    sessions[sid := Session(account, Some(secret), Some(now), Some(now))]
  }

  predicate Older(time: Option<int>, age: int, now: int) {
    time.Some? && now - time.value > age
  }

  predicate Refreshable(config: Config, s: Session, secret: Secret, accountOk: bool, now: int) {
    && s.secret == Some(secret) && accountOk
    && !Older(s.lastUsed, config.idleTimeout, now) && !Older(s.created, config.refreshLifetime, now)
  }

  /** Exchanging a refresh secret rotates it; anything wrong with it ends the session. */
  function Refreshed(config: Config, sessions: Sessions, sid: SessionId, secret: Secret, newSecret: Secret,
                     accountOk: bool, now: int)
    : Sessions
  {
    if sid !in sessions then sessions
    else if Refreshable(config, sessions[sid], secret, accountOk, now) then
      sessions[sid := sessions[sid].(secret := Some(newSecret), lastUsed := Some(now))]
    else sessions - {sid}
  }

  /** The timestamp follows only when it is more than a minute behind. */
  function Used(s: Session, now: int): Session {
    if s.lastUsed.None? || now - s.lastUsed.value > MINUTE then s.(lastUsed := Some(now)) else s
  }

  /** The token has expired on or after its exp (section 4.1.4 of RFC 7519). */
  predicate Fresh(token: Token, now: int) {
    now < token.exp
  }

  predicate PassesIdleCheck(config: Config, sessions: Sessions, token: Token, now: int) {
    Fresh(token, now) && token.jti in sessions && !Older(sessions[token.jti].lastUsed, config.idleTimeout, now)
  }

  function AfterRequest(config: Config, sessions: Sessions, token: Token, now: int): Sessions {
    if !Fresh(token, now) || token.jti !in sessions then sessions
    else if PassesIdleCheck(config, sessions, token, now) then sessions[token.jti := Used(sessions[token.jti], now)]
    else sessions - {token.jti}
  }

  predicate Accepted(config: Config, sessions: Sessions, token: Token, accountOk: bool, now: int) {
    PassesIdleCheck(config, sessions, token, now) && accountOk
  }

  function WithoutAccount(sessions: Sessions, account: AccountId): Sessions {
    map sid | sid in sessions && sessions[sid].account != account :: sessions[sid]
  }

  /**
    The table and the calls on it. accountOk: the account named exists, is neither locked nor deleted, has an
    address.
  */
  class SessionTable {
    const config: Config
    var sessions: Sessions

    constructor (config: Config)
      ensures this.config == config && sessions == map[]
    {
      this.config := config;
      sessions := map[];
    }

    method CreateUserSession(account: AccountId, sid: SessionId, secret: Secret, now: int) returns (token: Token)
      modifies this
      ensures sessions == Opened(old(sessions), account, sid, secret, now)
      ensures token == NewToken(config, sid, now)
    {
      token := NewToken(config, sid, now);
      sessions := sessions[sid := Session(account, Some(secret), Some(now), Some(now))];
    }

    method RefreshSession(sid: SessionId, secret: Secret, newSecret: Secret, accountOk: bool, now: int)
      returns (token: Option<Token>)
      modifies this
      ensures sessions == Refreshed(config, old(sessions), sid, secret, newSecret, accountOk, now)
      ensures token == if sid in old(sessions) && Refreshable(config, old(sessions)[sid], secret, accountOk, now)
                       then Some(NewToken(config, sid, now)) else None
    {
      if sid !in sessions {
        return None;
      }
      var s := sessions[sid];
      if s.secret.None? || s.secret.value != secret {
        sessions := sessions - {sid};
        return None;
      }
      if s.lastUsed.Some? && now - s.lastUsed.value > config.idleTimeout {
        sessions := sessions - {sid};
        return None;
      }
      if s.created.Some? && now - s.created.value > config.refreshLifetime {
        sessions := sessions - {sid};
        return None;
      }
      if !accountOk {
        sessions := sessions - {sid};
        return None;
      }
      sessions := sessions[sid := s.(secret := Some(newSecret), lastUsed := Some(now))];
      token := Some(NewToken(config, sid, now));
    }

    method EnforceIdleTimeout(sid: SessionId, now: int) returns (ok: bool)
      requires sid in sessions
      modifies this
      ensures ok <==> !Older(old(sessions)[sid].lastUsed, config.idleTimeout, now)
      ensures sessions == if ok then old(sessions)[sid := Used(old(sessions)[sid], now)] else old(sessions) - {sid}
    {
      var s := sessions[sid];
      if s.lastUsed.None? {
        sessions := sessions[sid := s.(lastUsed := Some(now))];
        return true;
      }
      var idleDuration := now - s.lastUsed.value;
      if idleDuration > config.idleTimeout {
        sessions := sessions - {sid};
        return false;
      }
      if idleDuration > MINUTE {
        sessions := sessions[sid := s.(lastUsed := Some(now))];
      }
      assert sessions[sid] == Used(s, now);
      ok := true;
    }

    /** The creation time is not looked at. */
    method GetCurrentUser(token: Token, accountOk: bool, now: int) returns (ok: bool)
      modifies this
      ensures ok <==> Accepted(config, old(sessions), token, accountOk, now)
      ensures sessions == AfterRequest(config, old(sessions), token, now)
    {
      if now >= token.exp || token.jti !in sessions {
        return false;
      }
      ok := EnforceIdleTimeout(token.jti, now);
      ok := ok && accountOk;
    }

    /** The expiry is not looked at. */
    method LogoutUser(token: Token)
      modifies this
      ensures sessions == old(sessions) - {token.jti}
    {
      sessions := sessions - {token.jti};
    }

    /** A successful password reset ends every session of the account. */
    method EndSessions(account: AccountId)
      modifies this
      ensures sessions == WithoutAccount(old(sessions), account)
    {
      sessions := map sid | sid in sessions && sessions[sid].account != account :: sessions[sid];
    }
  }

  // ---- histories ----------------------------------------------------------------------------

  datatype Step =
    | Open(account: AccountId, sid: SessionId, newSecret: Secret)
    | Refresh(sid: SessionId, secret: Secret, newSecret: Secret, accountOk: bool)
    | Request(token: Token)
    | Logout(token: Token)
    | Reset(account: AccountId)

  /** The table, and what has happened so far: the history is kept for the statements only. */
  datatype World = World(
    sessions: Sessions,
    openedAt: map<SessionId, int>,   // every session ever, and when it was opened
    seen: map<SessionId, int>,     // when a session last passed an idle check
    issued: set<Token>,            // every access token ever issued
    secrets: set<Secret>,          // every refresh secret ever issued
    spent: set<Secret>)            // those that have been exchanged

  const EMPTY := World(map[], map[], map[], {}, {}, {})

  function Next(config: Config, w: World, step: Step, now: int): World {
    match step
    case Open(account, sid, newSecret) =>
      World(Opened(w.sessions, account, sid, newSecret, now), w.openedAt[sid := now], w.seen[sid := now],
            w.issued + {NewToken(config, sid, now)}, w.secrets + {newSecret}, w.spent)
    case Refresh(sid, secret, newSecret, accountOk) =>
      var after := Refreshed(config, w.sessions, sid, secret, newSecret, accountOk, now);
      if sid in w.sessions && Refreshable(config, w.sessions[sid], secret, accountOk, now) then
        World(after, w.openedAt, w.seen[sid := now], w.issued + {NewToken(config, sid, now)},
              w.secrets + {newSecret}, w.spent + {secret})
      else w.(sessions := after)
    case Request(token) =>
      w.(sessions := AfterRequest(config, w.sessions, token, now),
         seen := if PassesIdleCheck(config, w.sessions, token, now) then w.seen[token.jti := now] else w.seen)
    case Logout(token) => w.(sessions := w.sessions - {token.jti})
    case Reset(account) => w.(sessions := WithoutAccount(w.sessions, account))
  }

  /** Ids and secrets are fresh; access tokens cannot be forged. */
  predicate Enabled(w: World, step: Step) {
    match step
    case Open(_, sid, newSecret) => sid !in w.openedAt && newSecret !in w.secrets
    case Refresh(_, _, newSecret, _) => newSecret !in w.secrets
    case Request(token) => token in w.issued
    case Logout(token) => token in w.issued
    case Reset(_) => true
  }

  type Trace = seq<(Step, int)>

  function After(config: Config, w: World, trace: Trace): World {
    if trace == [] then w
    else Next(config, After(config, w, trace[..|trace| - 1]), trace[|trace| - 1].0, trace[|trace| - 1].1)
  }

  /** Steps happen one after the other, between the two times given. */
  predicate Legal(config: Config, w: World, trace: Trace, from: int, now: int) {
    if trace == [] then from <= now
    else
      var (init, last) := (trace[..|trace| - 1], trace[|trace| - 1]);
      Legal(config, w, init, from, last.1) && last.1 <= now && Enabled(After(config, w, init), last.0)
  }

  /** The histories meant: steps in the order of time, with fresh ids and secrets, and tokens that were issued. */
  lemma {:induction false} HistoryMeans(config: Config, w: World, trace: Trace, from: int, now: int, step: Step, t: int)
    ensures Legal(config, w, [], from, now) <==> from <= now
    ensures var w' := After(config, w, trace);
            && After(config, w, trace + [(step, t)]) == Next(config, w', step, t)
            && (Legal(config, w, trace + [(step, t)], from, now)
                <==> && Legal(config, w, trace, from, t) && t <= now
                     && (step.Open? ==> step.sid !in w'.openedAt && step.newSecret !in w'.secrets)
                     && (step.Refresh? ==> step.newSecret !in w'.secrets)
                     && (step.Request? || step.Logout? ==> step.token in w'.issued))
  {
    assert (trace + [(step, t)])[..|trace|] == trace;
  }

  // ---- what holds in every history ----------------------------------------------------------

  /** The timestamp trails the last passed idle check by at most a minute. */
  predicate SessionOk(w: World, sid: SessionId, now: int)
    requires sid in w.sessions
  {
    var s := w.sessions[sid];
    && sid in w.openedAt && s.created == Some(w.openedAt[sid])
    && sid in w.seen && w.seen[sid] <= now
    && s.lastUsed.Some? && s.lastUsed.value <= w.seen[sid] <= s.lastUsed.value + MINUTE
    && s.secret.Some? && s.secret.value in w.secrets && s.secret.value !in w.spent
  }

  predicate TokenOk(config: Config, w: World, token: Token) {
    token.jti in w.openedAt && token.exp <= w.openedAt[token.jti] + config.refreshLifetime + config.tokenLifetime
  }

  ghost predicate SecretsApart(sessions: Sessions) {
    forall a, b :: a in sessions && b in sessions && sessions[a].secret == sessions[b].secret ==> a == b
  }

  ghost predicate Inv(config: Config, w: World, now: int) {
    && (forall sid :: sid in w.sessions ==> SessionOk(w, sid, now))
    && (forall token :: token in w.issued ==> TokenOk(config, w, token))
    && SecretsApart(w.sessions)
    && w.spent <= w.secrets
  }

  lemma {:induction false} StepInv(config: Config, w: World, step: Step, before: int, now: int)
    requires Inv(config, w, before) && before <= now && Enabled(w, step)
    ensures Inv(config, Next(config, w, step, now), now)
  {
    match step
    case Open(_, sid, _) =>
      assert NewToken(config, sid, now).jti == sid;
    case Refresh(sid, secret, newSecret, accountOk) =>
      if sid in w.sessions && Refreshable(config, w.sessions[sid], secret, accountOk, now) {
        assert SessionOk(w, sid, before);
        assert TokenOk(config, Next(config, w, step, now), NewToken(config, sid, now));
      }
    case Request(token) =>
    case Logout(_) =>
    case Reset(_) =>
  }

  lemma {:induction false} RunInv(config: Config, w: World, trace: Trace, from: int, now: int)
    requires Inv(config, w, from) && Legal(config, w, trace, from, now)
    ensures Inv(config, After(config, w, trace), now)
  {
    if trace != [] {
      var init, last := trace[..|trace| - 1], trace[|trace| - 1];
      RunInv(config, w, init, from, last.1);
      StepInv(config, After(config, w, init), last.0, last.1, last.1);
    }
  }

  /** In every history, of every session that lives, written out. */
  lemma {:induction false} SessionsHold(config: Config, trace: Trace, from: int, now: int, sid: SessionId)
    requires Legal(config, EMPTY, trace, from, now) && sid in After(config, EMPTY, trace).sessions
    ensures var w := After(config, EMPTY, trace);
            var s := w.sessions[sid];
            && sid in w.openedAt && sid in w.seen && s.created == Some(w.openedAt[sid]) && s.lastUsed.Some?
            && s.lastUsed.value <= w.seen[sid] <= now && w.seen[sid] <= s.lastUsed.value + 60_000_000
            && s.secret.Some? && s.secret.value in w.secrets && s.secret.value !in w.spent
            && forall other :: other in w.sessions && other != sid ==> w.sessions[other].secret != s.secret
  {
    RunInv(config, EMPTY, trace, from, now);
    assert SessionOk(After(config, EMPTY, trace), sid, now);
  }

  /** And of every token ever issued. */
  lemma {:induction false} TokensHold(config: Config, trace: Trace, from: int, now: int, token: Token)
    requires Legal(config, EMPTY, trace, from, now) && token in After(config, EMPTY, trace).issued
    ensures var w := After(config, EMPTY, trace);
            && token.jti in w.openedAt
            && token.exp <= w.openedAt[token.jti] + config.refreshLifetime + config.tokenLifetime
  {
    RunInv(config, EMPTY, trace, from, now);
    assert TokenOk(config, After(config, EMPTY, trace), token);
  }

  // ---- the bounds ---------------------------------------------------------------------------

  /**
    No request is accepted later than the refresh lifetime plus the lifetime of one access token after the session was
    opened, although the check never reads the time it was opened.
  */
  lemma {:induction false} NoLateRequest(config: Config, trace: Trace, from: int, now: int, token: Token,
                                         accountOk: bool)
    requires Legal(config, EMPTY, trace, from, now)
    requires var w := After(config, EMPTY, trace);
             token in w.issued && Accepted(config, w.sessions, token, accountOk, now)
    ensures var w := After(config, EMPTY, trace);
            token.jti in w.openedAt && now < w.openedAt[token.jti] + config.refreshLifetime + config.tokenLifetime
  {
    RunInv(config, EMPTY, trace, from, now);
    assert TokenOk(config, After(config, EMPTY, trace), token);
  }

  /** With the default settings: 7 days and 15 minutes. */
  lemma {:induction false} NoLateRequestByDefault(trace: Trace, from: int, now: int, token: Token, accountOk: bool)
    requires Legal(DEFAULTS, EMPTY, trace, from, now)
    requires var w := After(DEFAULTS, EMPTY, trace);
             token in w.issued && Accepted(DEFAULTS, w.sessions, token, accountOk, now)
    ensures var w := After(DEFAULTS, EMPTY, trace);
            token.jti in w.openedAt && now < w.openedAt[token.jti] + (7 * 24 * 60 + 15) * MINUTE
  {
    NoLateRequest(DEFAULTS, trace, from, now, token, accountOk);
  }

  /**
    A gap of at most the timeout less a minute since the last passed check never ends a session; a gap over the
    timeout always does, with a request that reaches the check as with a refresh.
  */
  lemma {:induction false} IdleBounds(config: Config, trace: Trace, from: int, now: int, sid: SessionId)
    requires Legal(config, EMPTY, trace, from, now) && sid in After(config, EMPTY, trace).sessions
    ensures var w := After(config, EMPTY, trace);
            && sid in w.seen
            && (now - w.seen[sid] <= config.idleTimeout - MINUTE
                ==> !Older(w.sessions[sid].lastUsed, config.idleTimeout, now))
            && (now - w.seen[sid] > config.idleTimeout ==> Older(w.sessions[sid].lastUsed, config.idleTimeout, now))
  {
    RunInv(config, EMPTY, trace, from, now);
    assert SessionOk(After(config, EMPTY, trace), sid, now);
  }

  /** A gap over the timeout since the last passed check: whatever is tried with the session ends it. */
  lemma {:induction false} IdleEnds(config: Config, trace: Trace, from: int, now: int, sid: SessionId, secret: Secret,
                                    newSecret: Secret, accountOk: bool, token: Token)
    requires Legal(config, EMPTY, trace, from, now) && sid in After(config, EMPTY, trace).seen
    requires now - After(config, EMPTY, trace).seen[sid] > config.idleTimeout
    ensures var (w, w') := (After(config, EMPTY, trace),
                            Next(config, After(config, EMPTY, trace), Refresh(sid, secret, newSecret, accountOk), now));
            sid !in w'.sessions && w'.issued == w.issued
    ensures var w' := Next(config, After(config, EMPTY, trace), Request(token), now);
            token.jti == sid && now < token.exp ==> sid !in w'.sessions
    ensures token.jti == sid ==> !Accepted(config, After(config, EMPTY, trace).sessions, token, accountOk, now)
  {
    RunInv(config, EMPTY, trace, from, now);
    if sid in After(config, EMPTY, trace).sessions {
      assert SessionOk(After(config, EMPTY, trace), sid, now);
    }
  }

  /**
    A gap of at most the timeout less a minute: a refresh with the session's own secret, within its lifetime and for a
    good account, goes on and issues a token; a request with a live token is accepted; and the session stays.
  */
  lemma {:induction false} IdleStays(config: Config, trace: Trace, from: int, now: int, sid: SessionId, secret: Secret,
                                     newSecret: Secret, token: Token)
    requires Legal(config, EMPTY, trace, from, now) && sid in After(config, EMPTY, trace).sessions
    requires sid in After(config, EMPTY, trace).seen
    requires now - After(config, EMPTY, trace).seen[sid] <= config.idleTimeout - 60_000_000
    ensures sid in After(config, EMPTY, trace).openedAt
    ensures var w := After(config, EMPTY, trace);
            var w' := Next(config, w, Refresh(sid, secret, newSecret, true), now);
            w.sessions[sid].secret == Some(secret) && now - w.openedAt[sid] <= config.refreshLifetime ==>
              && sid in w'.sessions && w'.sessions[sid].secret == Some(newSecret) && w'.seen[sid] == now
              && w'.issued == w.issued + {Token(sid, now + config.tokenLifetime)} && w'.spent == w.spent + {secret}
    ensures var w := After(config, EMPTY, trace);
            var w' := Next(config, w, Request(token), now);
            token.jti == sid && now < token.exp ==>
              sid in w'.sessions && w'.seen[sid] == now && Accepted(config, w.sessions, token, true, now)
  {
    RunInv(config, EMPTY, trace, from, now);
    assert SessionOk(After(config, EMPTY, trace), sid, now);
  }

  /**
    A refresh goes through exactly with the stored secret, for a good account, within the timeout since the stored
    timestamp and within the lifetime since the stored creation; where a column is null, its check is skipped.
  */
  lemma {:induction false} RefreshAnswers(config: Config, w: World, sid: SessionId, secret: Secret, newSecret: Secret,
                                          accountOk: bool, now: int)
    ensures var w' := Next(config, w, Refresh(sid, secret, newSecret, accountOk), now);
            sid in w'.sessions
            <==> && sid in w.sessions && w.sessions[sid].secret == Some(secret) && accountOk
                 && (w.sessions[sid].lastUsed.Some? ==> now - w.sessions[sid].lastUsed.value <= config.idleTimeout)
                 && (w.sessions[sid].created.Some? ==> now - w.sessions[sid].created.value <= config.refreshLifetime)
    ensures var w' := Next(config, w, Refresh(sid, secret, newSecret, accountOk), now);
            w'.issued == if sid in w'.sessions then w.issued + {Token(sid, now + config.tokenLifetime)} else w.issued
    ensures var w' := Next(config, w, Refresh(sid, secret, newSecret, accountOk), now);
            sid in w'.sessions ==> w'.sessions[sid] == Session(w.sessions[sid].account, Some(newSecret), Some(now),
                                                               w.sessions[sid].created)
    ensures var w' := Next(config, w, Refresh(sid, secret, newSecret, accountOk), now);
            forall other :: other != sid ==>
              && (other in w'.sessions <==> other in w.sessions)
              && (other in w.sessions ==> w'.sessions[other] == w.sessions[other])
  {
  }

  /** Which requests are accepted, and what a request does to its session. */
  lemma {:induction false} RequestAnswers(config: Config, sessions: Sessions, token: Token, accountOk: bool, now: int)
    ensures Accepted(config, sessions, token, accountOk, now)
            <==> && now < token.exp && token.jti in sessions && accountOk
                 && (sessions[token.jti].lastUsed.Some? ==>
                       now - sessions[token.jti].lastUsed.value <= config.idleTimeout)
    ensures var after := AfterRequest(config, sessions, token, now);
            now < token.exp && token.jti in sessions ==>
              var last := sessions[token.jti].lastUsed;
              if last.Some? && now - last.value > config.idleTimeout then after == sessions - {token.jti}
              else if last.Some? && now - last.value <= 60_000_000 then after == sessions
              else after == sessions[token.jti := sessions[token.jti].(lastUsed := Some(now))]
    ensures now >= token.exp || token.jti !in sessions ==> AfterRequest(config, sessions, token, now) == sessions
  {
    var after := AfterRequest(config, sessions, token, now);
    if token.jti in sessions && after == sessions[token.jti := sessions[token.jti]] {
      assert after == sessions;
    }
  }

  /** A session starts with the secret given, used and created at once, and its first token. */
  lemma {:induction false} OpenAnswers(config: Config, w: World, account: AccountId, sid: SessionId, secret: Secret,
                                       now: int)
    ensures var w' := Next(config, w, Open(account, sid, secret), now);
            && w'.sessions == w.sessions[sid := Session(account, Some(secret), Some(now), Some(now))]
            && w'.issued == w.issued + {Token(sid, now + config.tokenLifetime)}
            && w'.openedAt == w.openedAt[sid := now] && w'.seen == w.seen[sid := now]
  {
  }

  /** Logging out ends the session of the token, expired or not; a password reset ends those of the account. */
  lemma {:induction false} EndAnswers(config: Config, w: World, token: Token, account: AccountId, now: int,
                                      sid: SessionId)
    ensures sid in Next(config, w, Logout(token), now).sessions <==> sid in w.sessions && sid != token.jti
    ensures sid in Next(config, w, Reset(account), now).sessions
            <==> sid in w.sessions && w.sessions[sid].account != account
  {
  }

  /** The default settings in microseconds: two hours, a quarter of an hour, a week. */
  lemma {:induction false} DefaultTimes()
    ensures DEFAULTS == Config(7_200_000_000, 900_000_000, 604_800_000_000) && MINUTE == 60_000_000
  {
  }

  /**
    Between the two the answer depends on when the timestamp was last written: a request a minute after opening does
    not move it, one a moment later does; then a gap of the timeout less a minute plus a moment ends the first session
    and not the second.
  */
  lemma {:induction false} IdleBoundsTight(config: Config, s: Session, start: int)
    requires config.idleTimeout > MINUTE && s.lastUsed == Some(start)
    ensures var gap := config.idleTimeout - MINUTE + 1;
            && Older(Used(s, start + MINUTE).lastUsed, config.idleTimeout, start + MINUTE + gap)
            && !Older(Used(s, start + MINUTE + 1).lastUsed, config.idleTimeout, start + MINUTE + 1 + gap)
  {
  }

  // ---- the end of a session -----------------------------------------------------------------

  lemma {:induction false} EndedStep(config: Config, w: World, step: Step, now: int, sid: SessionId)
    requires Enabled(w, step) && sid in w.openedAt && sid !in w.sessions
    ensures var w' := Next(config, w, step, now); sid in w'.openedAt && sid !in w'.sessions
  {
  }

  /** A session that has ended, by logout, reset, timeout or misuse, never comes back, whatever happens afterwards. */
  lemma {:induction false} EndedForGood(config: Config, w: World, trace: Trace, from: int, now: int, sid: SessionId)
    requires Legal(config, w, trace, from, now) && sid in w.openedAt && sid !in w.sessions
    ensures sid in After(config, w, trace).openedAt && sid !in After(config, w, trace).sessions
    ensures forall token: Token, accountOk :: token.jti == sid ==>
              !Accepted(config, After(config, w, trace).sessions, token, accountOk, now)
  {
    if trace != [] {
      var init, last := trace[..|trace| - 1], trace[|trace| - 1];
      EndedForGood(config, w, init, from, last.1, sid);
      EndedStep(config, After(config, w, init), last.0, last.1, sid);
    }
  }

  /** Spent secrets stay spent. */
  lemma {:induction false} SpentForGood(config: Config, w: World, trace: Trace)
    ensures w.spent <= After(config, w, trace).spent
  {
    if trace != [] {
      SpentForGood(config, w, trace[..|trace| - 1]);
    }
  }

  /** Presenting a spent secret gets nothing, and ends the session it is presented for. */
  lemma {:induction false} SpentIsRefused(config: Config, w: World, now: int, step: Step)
    requires Inv(config, w, now) && step.Refresh? && step.secret in w.spent
    ensures step.sid in w.sessions ==> !Refreshable(config, w.sessions[step.sid], step.secret, step.accountOk, now)
    ensures Next(config, w, step, now) == w.(sessions := w.sessions - {step.sid})
  {
    if step.sid in w.sessions {
      assert SessionOk(w, step.sid, now);
    } else {
      assert w.sessions - {step.sid} == w.sessions;
    }
  }

  /**
    Each refresh secret works once: after any history, a successful exchange and any further history, presenting the
    secret again gets nothing, for whatever session, and ends that session.
  */
  lemma {:induction false} SecretWorksOnce(config: Config, before: Trace, from: int, first: Step, t: int,
                                           later: Trace, now: int, again: Step)
    requires Legal(config, EMPTY, before, from, t) && first.Refresh? && Enabled(After(config, EMPTY, before), first)
    requires var w := After(config, EMPTY, before);
             first.sid in w.sessions && Refreshable(config, w.sessions[first.sid], first.secret, first.accountOk, t)
    requires Legal(config, Next(config, After(config, EMPTY, before), first, t), later, t, now)
    requires again.Refresh? && again.secret == first.secret
    ensures var w := After(config, Next(config, After(config, EMPTY, before), first, t), later);
            && (again.sid in w.sessions ==>
                  !Refreshable(config, w.sessions[again.sid], again.secret, again.accountOk, now))
            && Next(config, w, again, now) == w.(sessions := w.sessions - {again.sid})
  {
    var w := Next(config, After(config, EMPTY, before), first, t);
    RunInv(config, EMPTY, before, from, t);
    StepInv(config, After(config, EMPTY, before), first, t, t);
    RunInv(config, w, later, t, now);
    SpentForGood(config, w, later);
    SpentIsRefused(config, After(config, w, later), now, again);
  }
}
