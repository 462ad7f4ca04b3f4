/** What the clean-up job may take away. No statement but the deletion of anonymous users touches a session that a
    request could still refresh, provided no session is verified twice before its first refresh; where that proviso or
    that statement matters, the exact conditions are given. Then: which statements run in consecutive calls. */
module CleanupTheorems {
  import opened Common
  import opened Sessions
  import opened RefreshTokens
  import opened RefreshGrant
  import opened TokenRuns
  import opened Cleanup

  /** Some request at `now` or later would find the session valid: judged through one of its tokens,
      or (as the single-session rule does) through none. */
  ghost predicate Acceptable(db: Tables, config: ValidityConfig, sid: nat, now: Time) {
    exists later: Time, tokenTime: Option<Time>, highest: AssuranceLevel ::
      AcceptedAt(db, config, sid, now, later, tokenTime, highest)
  }

  ghost predicate AcceptedAt(db: Tables, config: ValidityConfig, sid: nat, now: Time,
                             later: Time, tokenTime: Option<Time>, highest: AssuranceLevel)
  {
    && sid in db.sessions
    && now <= later
    && (tokenTime.Some? ==> exists t :: InSession(db, t, sid) && db.tokens[t].updatedAt == tokenTime.value)
    && CheckValidity(db.sessions[sid], config, later, tokenTime, highest) == Valid
  }

  predicate Unrefreshed(db: Tables, t: nat) {
    HasSession(db, t) && db.sessions[db.tokens[t].session.value].refreshedAt.None?
  }

  /** A session that was never refreshed has at most one unrevoked token, and no token was updated after it. */
  ghost predicate LoneActive(db: Tables) {
    forall s, t :: Unrefreshed(db, s) && Unrefreshed(db, t) && db.tokens[s].session == db.tokens[t].session
                   && !db.tokens[s].revoked ==>
      db.tokens[t].updatedAt <= db.tokens[s].updatedAt && (t == s || db.tokens[t].revoked)
  }

  /** A session row selected for deletion is one the grant refuses from now on. */
  lemma SelectedSessionsAreUnacceptable(db: Tables, users: map<nat, Person>, clock: Time, config: ValidityConfig,
                                        st: Statement, sid: nat, now: Time)
    requires Sound(db, clock) && LoneActive(db) && ConfigAccepted(config) && clock <= now
    requires st.PurgeExpiredSessions? || st.PurgeTimeboxedSessions? || st.PurgeInactiveSessions?
             || st.PurgeUnrefreshedSessions?
    requires Selects(db, users, config, st, sid, now)
    ensures !Acceptable(db, config, sid, now)
  {
    if st.PurgeUnrefreshedSessions? {
      LoneActiveIsIdle(db, users, clock, config, sid, now);
      IdleIsUnacceptable(db, users, clock, config, sid, now);
    } else {
      assert SoundSession(db, clock, sid);
    }
  }

  /** When the only unrevoked token is idle, so are all. */
  lemma LoneActiveIsIdle(db: Tables, users: map<nat, Person>, clock: Time, config: ValidityConfig, sid: nat, now: Time)
    requires Sound(db, clock) && LoneActive(db) && ConfigAccepted(config)
    requires Selects(db, users, config, PurgeUnrefreshedSessions, sid, now)
    ensures AllIdle(db, sid, config.inactivityTimeout.value, now)
  {
    var s :| s in db.tokens && db.tokens[s].session == Some(sid) && !db.tokens[s].revoked
             && db.tokens[s].updatedAt + WholeSeconds(config.inactivityTimeout.value) < now - 24 * HOUR;
    assert Unrefreshed(db, s);
    forall t | InSession(db, t, sid) ensures db.tokens[t].updatedAt + config.inactivityTimeout.value < now {
      assert Unrefreshed(db, t);
    }
  }

  /** The session's row and all its unrevoked tokens are as they were. */
  ghost predicate Spared(db: Tables, after: Tables, sid: nat)
    requires sid in db.sessions
  {
    && sid in after.sessions && after.sessions[sid] == db.sessions[sid]
    && forall t :: t in ActiveTokens(db, sid) ==> t in after.tokens && after.tokens[t] == db.tokens[t]
  }

  /** One execution of any statement spares a session that some later request could refresh, unless it is the deletion
      of anonymous users and picked the owner. Truncating the configured durations to whole seconds does no harm,
      because every statement also waits a day. */
  lemma CleanupSparesTheLiving(db: Tables, users: map<nat, Person>, clock: Time, config: ValidityConfig,
                               st: Statement, ids: set<nat>, now: Time, sid: nat)
    requires Sound(db, clock) && LoneActive(db) && ConfigAccepted(config) && clock <= now
    requires Picks(db, users, config, st, ids, now)
    requires Acceptable(db, config, sid, now)
    ensures sid in db.sessions
    ensures Spared(db, Execute(db, st, ids, now), sid) <==>
            !(st.PurgeAnonymousUsers? && db.sessions[sid].userId in ids)
  {
    assert sid in db.sessions;
    if st.PurgeExpiredSessions? || st.PurgeTimeboxedSessions? || st.PurgeInactiveSessions?
       || st.PurgeUnrefreshedSessions? {
      if sid in ids { SelectedSessionsAreUnacceptable(db, users, clock, config, st, sid, now); }
    } else if st.RevokeExpiredTokens? {
      forall t | t in ActiveTokens(db, sid) ensures t !in ids {
        assert t in ids ==> Selects(db, users, config, st, t, now);
      }
    }
  }

  // ----- the deletion of anonymous users

  /** Whichever users are picked, the deletion of anonymous users spares all sessions that could be refreshed, if and
      only if no anonymous user older than thirty days owns such a session. */
  lemma AnonymousPurgeExactlySafe(db: Tables, users: map<nat, Person>, config: ValidityConfig, now: Time)
    ensures (forall ids, sid :: Picks(db, users, config, PurgeAnonymousUsers, ids, now)
                                && Acceptable(db, config, sid, now) ==>
               Spared(db, Execute(db, PurgeAnonymousUsers, ids, now), sid))
            <==> (forall sid :: Acceptable(db, config, sid, now) ==> !Stale(users, db.sessions[sid].userId, now))
  {
    if sid :| Acceptable(db, config, sid, now) && Stale(users, db.sessions[sid].userId, now) {
      var ids := {db.sessions[sid].userId};
      assert Picks(db, users, config, PurgeAnonymousUsers, ids, now);
      assert sid in SessionsOf(db, ids);
      assert !Spared(db, Execute(db, PurgeAnonymousUsers, ids, now), sid);
    } else {
      forall ids, sid | Picks(db, users, config, PurgeAnonymousUsers, ids, now) && Acceptable(db, config, sid, now)
        ensures Spared(db, Execute(db, PurgeAnonymousUsers, ids, now), sid)
      {
        var owner := db.sessions[sid].userId;
        assert !Selects(db, users, config, PurgeAnonymousUsers, owner, now);
      }
    }
  }

  const NO_LIMITS := ValidityConfig(None, None, None)

  /** Without limits on sessions, a month after an anonymous user signed in the session would be accepted at any time,
      and the statement deletes it. */
  lemma AnonymousPurgeTakesALivingSession(config: Config, users: map<nat, Person>, es: seq<Event>, now: Time)
    requires config.validity == NO_LIMITS && users == map[7 := Person(true, 1)] && now == 30 * 24 * HOUR + 2
    requires es == [SignInEvent(7, NO_PARAMS, 1)]
    ensures Runs(config, EMPTY, ZERO_TIME, es)
    ensures var db := End(config, EMPTY, ZERO_TIME, es);
            && Picks(db, users, config.validity, PurgeAnonymousUsers, {7}, now)
            && (forall later :: now <= later ==> Acceptable(db, config.validity, 0, later))
            && Execute(db, PurgeAnonymousUsers, {7}, now).sessions == map[]
            && Execute(db, PurgeAnonymousUsers, {7}, now).tokens == map[]
  {
    RunFirst(config, EMPTY, ZERO_TIME, es[0], []);
    assert es == [es[0]] + [];
    var db := End(config, EMPTY, ZERO_TIME, es);
    assert SessionsOf(db, {7}) == {0};
    forall later | now <= later ensures Acceptable(db, config.validity, 0, later) {
      assert AcceptedAt(db, config.validity, 0, later, later, None, AAL1);
    }
  }

  // ----- the side condition holds in every run in which no session is verified twice before its first refresh

  /** Along the run, no session is verified by a factor a second time before it is first refreshed; `seen` are those
      verified so far. */
  ghost predicate VerifiedOnce(config: Config, db: Tables, clock: Time, es: seq<Event>, seen: set<nat>)
    requires Runs(config, db, clock, es)
    decreases |es|
  {
    es == [] ||
    var e := es[0];
    var first := e.FactorEvent? && db.sessions[e.sid].refreshedAt.None?;
    && (first ==> e.sid !in seen)
    && VerifiedOnce(config, Step(config, db, clock, e), At(e), es[1..], if first then seen + {e.sid} else seen)
  }

  /** Sessions neither refreshed nor verified have one token; those verified have at most one unrevoked. */
  ghost predicate Calm(db: Tables, seen: set<nat>) {
    && LoneActive(db)
    && forall s, t :: Unrefreshed(db, s) && Unrefreshed(db, t) && db.tokens[s].session == db.tokens[t].session
                      && db.tokens[s].session.value !in seen ==>
         s == t
  }

  /** Steps that add no token to a session that was never refreshed, and revoke later than anything else there. */
  lemma CalmBySubset(db: Tables, after: Tables, seen: set<nat>)
    requires Calm(db, seen)
    requires forall t: nat :: Unrefreshed(after, t) ==>
               && Unrefreshed(db, t) && after.tokens[t].session == db.tokens[t].session
               && (after.tokens[t] == db.tokens[t] || (!db.tokens[t].revoked && after.tokens[t].revoked))
    ensures Calm(after, seen)
  {
    forall s, t | Unrefreshed(after, s) && Unrefreshed(after, t) && after.tokens[s].session == after.tokens[t].session
                  && !after.tokens[s].revoked
      ensures after.tokens[t].updatedAt <= after.tokens[s].updatedAt && (t == s || after.tokens[t].revoked)
    {
      assert Unrefreshed(db, s) && Unrefreshed(db, t);
    }
  }

  lemma CalmShape(db: Tables, clock: Time, req: Request, after: Tables, seen: set<nat>)
    requires Sound(db, clock) && Calm(db, seen) && GrantShape(db, req, after)
    ensures Calm(after, seen)
  {
    if req.presented in db.tokens { assert SoundToken(db, clock, req.presented); }
    forall t: nat | Unrefreshed(after, t)
      ensures && Unrefreshed(db, t) && after.tokens[t].session == db.tokens[t].session
              && (after.tokens[t] == db.tokens[t] || (!db.tokens[t].revoked && after.tokens[t].revoked))
    {
      if t in db.tokens { assert SoundToken(db, clock, t); }
    }
    CalmBySubset(db, after, seen);
  }

  lemma CalmSignIn(db: Tables, clock: Time, userId: nat, params: GrantParams, now: Time, seen: set<nat>)
    requires Sound(db, clock) && Calm(db, seen)
    ensures Calm(SignIn(db, userId, params, now), seen)
  {
    var after := SignIn(db, userId, params, now);
    forall t: nat | t in db.tokens ensures db.tokens[t].session != Some(db.nextSession) && t < db.nextToken {
      assert SoundToken(db, clock, t) && SoundSession(db, clock, db.tokens[t].session.value);
    }
    forall t: nat | Unrefreshed(after, t) && t != db.nextToken ensures Unrefreshed(db, t) {}
  }

  /** The first verification of a session that was never refreshed: its only token is swapped. */
  lemma CalmFirstFactor(db: Tables, clock: Time, sid: nat, t: nat, factor: nat, now: Time, seen: set<nat>)
    requires Sound(db, clock) && clock <= now && Calm(db, seen) && IsOldest(db, sid, t) && sid in db.sessions
    requires db.sessions[sid].refreshedAt.None? && sid !in seen
    ensures Calm(VerifyFactor(db, sid, t, factor, now), seen + {sid})
  {
    var after := VerifyFactor(db, sid, t, factor, now);
    assert SoundToken(db, clock, t) && Unrefreshed(db, t);
    forall u: nat | u in db.tokens && db.tokens[u].session == Some(sid) ensures u == t { assert Unrefreshed(db, u); }
    forall u: nat | Unrefreshed(after, u) && u != db.nextToken
      ensures Unrefreshed(db, u) && (after.tokens[u] == db.tokens[u] || u == t) {}
  }

  /** A later verification, after a refresh: the session no longer counts. */
  lemma CalmLaterFactor(db: Tables, clock: Time, sid: nat, t: nat, factor: nat, now: Time, seen: set<nat>)
    requires Sound(db, clock) && Calm(db, seen) && IsOldest(db, sid, t) && sid in db.sessions
    requires db.sessions[sid].refreshedAt.Some?
    ensures Calm(VerifyFactor(db, sid, t, factor, now), seen)
  {
    var after := VerifyFactor(db, sid, t, factor, now);
    assert SoundToken(db, clock, t);
    forall u: nat | Unrefreshed(after, u) ensures Unrefreshed(db, u) && after.tokens[u] == db.tokens[u] {}
    CalmBySubset(db, after, seen);
  }

  /** Clean-up, family revocations and logouts. */
  lemma CalmOther(config: Config, db: Tables, clock: Time, e: Event, seen: set<nat>)
    requires Sound(db, clock) && Calm(db, seen) && Enabled(config, db, clock, e)
    requires e.CleanEvent? || e.FamilyEvent? || e.LogoutEvent?
    ensures Calm(Step(config, db, clock, e), seen)
  {
    var after := Step(config, db, clock, e);
    if e.FamilyEvent? { assert SoundToken(db, clock, e.token); }
    if e.CleanEvent? && e.st.RevokeExpiredTokens? {
      forall t | t in e.ids ensures t in db.tokens && !db.tokens[t].revoked {
        assert Selects(db, e.users, config.validity, e.st, t, e.at);
      }
    }
    CalmBySubset(db, after, seen);
  }

  lemma CalmStep(config: Config, db: Tables, clock: Time, e: Event, seen: set<nat>)
    requires Sound(db, clock) && Calm(db, seen) && Enabled(config, db, clock, e)
    requires e.FactorEvent? && db.sessions[e.sid].refreshedAt.None? ==> e.sid !in seen
    ensures var first := e.FactorEvent? && db.sessions[e.sid].refreshedAt.None?;
            Calm(Step(config, db, clock, e), if first then seen + {e.sid} else seen)
  {
    if e.RefreshEvent? {
      GrantHasShape(db, config, e.req);
      CalmShape(db, clock, e.req, Grant(db, config, e.req).0, seen);
    } else if e.SignInEvent? {
      CalmSignIn(db, clock, e.userId, e.params, e.at, seen);
    } else if e.FactorEvent? {
      if db.sessions[e.sid].refreshedAt.None? {
        CalmFirstFactor(db, clock, e.sid, e.token, e.factor, e.at, seen);
      } else {
        CalmLaterFactor(db, clock, e.sid, e.token, e.factor, e.at, seen);
      }
    } else {
      CalmOther(config, db, clock, e, seen);
    }
  }

  lemma {:induction false} CalmRun(config: Config, db: Tables, clock: Time, es: seq<Event>, seen: set<nat>)
    requires Sound(db, clock) && Calm(db, seen) && Runs(config, db, clock, es)
    requires VerifiedOnce(config, db, clock, es, seen)
    ensures LoneActive(End(config, db, clock, es))
    decreases |es|
  {
    if es != [] {
      var e := es[0];
      SoundStep(config, db, clock, e);
      CalmStep(config, db, clock, e, seen);
      var first := e.FactorEvent? && db.sessions[e.sid].refreshedAt.None?;
      CalmRun(config, Step(config, db, clock, e), At(e), es[1..], if first then seen + {e.sid} else seen);
    }
  }

  /** After any run in which no session is verified twice before its first refresh, every clean-up statement spares
      every session that some request, now or later, could still refresh, unless it deletes the anonymous owner. */
  lemma CleanupIsSafeAfterAnyRun(config: Config, users: map<nat, Person>, es: seq<Event>, st: Statement, ids: set<nat>,
                                 now: Time, sid: nat)
    requires ConfigAccepted(config.validity) && Runs(config, EMPTY, ZERO_TIME, es)
    requires VerifiedOnce(config, EMPTY, ZERO_TIME, es, {})
    requires EndClock(ZERO_TIME, es) <= now
    requires var db := End(config, EMPTY, ZERO_TIME, es);
             Picks(db, users, config.validity, st, ids, now) && Acceptable(db, config.validity, sid, now)
    ensures var db := End(config, EMPTY, ZERO_TIME, es);
            && sid in db.sessions
            && (Spared(db, Execute(db, st, ids, now), sid) <==>
                !(st.PurgeAnonymousUsers? && db.sessions[sid].userId in ids))
  {
    EveryRunIsSound(config, EMPTY, ZERO_TIME, es);
    CalmRun(config, EMPTY, ZERO_TIME, es, {});
    var db, clock := End(config, EMPTY, ZERO_TIME, es), EndClock(ZERO_TIME, es);
    CleanupSparesTheLiving(db, users, clock, config.validity, st, ids, now, sid);
  }

  // ----- where the side condition matters

  const TIMEOUT_ONLY := ValidityConfig(None, Some(HOUR), None)

  /** Two factor verifications on a session that was never refreshed swap its first token twice, and
      leave two unrevoked children behind. A day later the statement for unrefreshed sessions selects
      the session because of the first child, although a client holding the second one would still be
      accepted: the promise fails there. */
  lemma TwoFactorVerificationsBreakThePromise(config: Config, es: seq<Event>, first: Time, second: Time, now: Time)
    requires config.validity == TIMEOUT_ONLY
    requires first == 2 && now == first + HOUR + 24 * HOUR + 1 && second == now - 1
    requires es == [SignInEvent(7, NO_PARAMS, 1), FactorEvent(0, 0, 5, first), FactorEvent(0, 0, 5, second)]
    ensures Runs(config, EMPTY, ZERO_TIME, es)
    ensures var db := End(config, EMPTY, ZERO_TIME, es);
            && Picks(db, map[], config.validity, PurgeUnrefreshedSessions, {0}, now)
            && Acceptable(db, config.validity, 0, now)
            && Execute(db, PurgeUnrefreshedSessions, {0}, now).sessions == map[]
  {
    var session := Session(7, None, 1, None, None, Some(AAL1), None);
    var raised := session.(aal := Some(AAL2), factorId := Some(5));
    var db1 := Tables(map[0 := Token(7, None, Some(0), false, 1, 1)], map[0 := session], 1, 1);
    var db2 := Tables(map[0 := Token(7, None, Some(0), true, 1, first),
                          1 := Token(7, Some(0), Some(0), false, first, first)], map[0 := raised], 2, 1);
    var db3 := VerifiedTwice(first, second);
    assert Step(config, EMPTY, ZERO_TIME, es[0]) == db1;
    VerifyOldest(db1, first);
    assert VerifyFactor(db1, 0, 0, 5, first) == db2;
    VerifyOldest(db2, second);
    assert VerifyFactor(db2, 0, 0, 5, second) == db3;
    RunFirst(config, db2, first, es[2], []);
    RunFirst(config, db1, 1, es[1], [es[2]]);
    RunFirst(config, EMPTY, ZERO_TIME, es[0], [es[1]] + [es[2]]);
    assert es == [es[0]] + ([es[1]] + [es[2]]);
    assert End(config, EMPTY, ZERO_TIME, es) == db3;
    SecondVerificationIsStillGood(first, second, now);
  }

  /** Verifying swaps the token created first. */
  lemma VerifyOldest(db: Tables, now: Time)
    requires InSession(db, 0, 0) && 0 in db.sessions && db.tokens[0].createdAt == 1
    requires forall t :: t in db.tokens ==> db.tokens[t].createdAt >= 1
    ensures IsOldest(db, 0, 0)
    ensures var after, token := VerifyFactor(db, 0, 0, 5, now), db.tokens[0];
            && after.tokens == db.tokens[0 := token.(revoked := true, updatedAt := now)]
                                        [db.nextToken := Token(token.userId, Some(0), Some(0), false, now, now)]
            && after.sessions == db.sessions[0 := db.sessions[0].(aal := Some(AAL2), factorId := Some(5))]
            && after.nextToken == db.nextToken + 1 && after.nextSession == db.nextSession
  {
  }

  /** The tables after a session's first token was swapped twice. */
  function VerifiedTwice(first: Time, second: Time): Tables {
    Tables(map[0 := Token(7, None, Some(0), true, 1, second),
               1 := Token(7, Some(0), Some(0), false, first, first),
               2 := Token(7, Some(0), Some(0), false, second, second)],
           map[0 := Session(7, None, 1, None, Some(5), Some(AAL2), None)], 3, 1)
  }

  lemma SecondVerificationIsStillGood(first: Time, second: Time, now: Time)
    requires first == 2 && now == first + HOUR + 24 * HOUR + 1 && second == now - 1
    ensures var db := VerifiedTwice(first, second);
            && Picks(db, map[], TIMEOUT_ONLY, PurgeUnrefreshedSessions, {0}, now)
            && Acceptable(db, TIMEOUT_ONLY, 0, now)
            && Execute(db, PurgeUnrefreshedSessions, {0}, now).sessions == map[]
  {
    var db := VerifiedTwice(first, second);
    assert WholeSeconds(HOUR) == HOUR;
    assert Selects(db, map[], TIMEOUT_ONLY, PurgeUnrefreshedSessions, 0, now) by { assert 1 in db.tokens; }
    assert InSession(db, 2, 0);
    assert AcceptedAt(db, TIMEOUT_ONLY, 0, now, now, Some(second), AAL1);
  }

  /** All tokens of the session, not just the one it was selected by, have been idle for longer than the timeout. */
  ghost predicate AllIdle(db: Tables, sid: nat, timeout: int, now: Time) {
    forall t :: InSession(db, t, sid) ==> db.tokens[t].updatedAt + timeout < now
  }

  /** When exactly the statement for unrefreshed sessions is harmless: a selected session may be deleted safely if and
      only if its end date or its time box has passed, or every one of its tokens has been idle for longer than the
      timeout. */
  lemma UnrefreshedPurgeExactlySafe(db: Tables, users: map<nat, Person>, clock: Time, config: ValidityConfig, sid: nat,
                                    now: Time)
    requires Sound(db, clock) && clock <= now && ConfigAccepted(config)
    requires Selects(db, users, config, PurgeUnrefreshedSessions, sid, now)
    ensures var s := db.sessions[sid];
            !Acceptable(db, config, sid, now) <==>
            || (s.notAfter.Some? && s.notAfter.value < now)
            || (config.timebox.Some? && s.createdAt + config.timebox.value < now)
            || AllIdle(db, sid, config.inactivityTimeout.value, now)
  {
    assert SoundSession(db, clock, sid);
    var timeout := config.inactivityTimeout.value;
    if t :| InSession(db, t, sid) && db.tokens[t].updatedAt + timeout >= now {
      assert SoundToken(db, clock, t);
      var s := db.sessions[sid];
      if !(s.notAfter.Some? && s.notAfter.value < now)
         && !(config.timebox.Some? && s.createdAt + config.timebox.value < now) {
        assert AcceptedAt(db, config, sid, now, now, Some(db.tokens[t].updatedAt), AAL1);
      }
    } else {
      IdleIsUnacceptable(db, users, clock, config, sid, now);
    }
  }

  lemma IdleIsUnacceptable(db: Tables, users: map<nat, Person>, clock: Time, config: ValidityConfig, sid: nat,
                           now: Time)
    requires Sound(db, clock) && clock <= now && ConfigAccepted(config)
    requires Selects(db, users, config, PurgeUnrefreshedSessions, sid, now)
    requires AllIdle(db, sid, config.inactivityTimeout.value, now)
    ensures !Acceptable(db, config, sid, now)
  {
    var s :| InSession(db, s, sid);
    assert SoundToken(db, clock, s) && SoundSession(db, clock, sid);
    assert db.sessions[sid].createdAt + config.inactivityTimeout.value < now;
    forall later: Time, tokenTime: Option<Time>, highest: AssuranceLevel
      ensures !AcceptedAt(db, config, sid, now, later, tokenTime, highest)
    {
      if tokenTime.Some? && (exists t :: InSession(db, t, sid) && db.tokens[t].updatedAt == tokenTime.value) {
        var t :| InSession(db, t, sid) && db.tokens[t].updatedAt == tokenTime.value;
        assert db.tokens[t].updatedAt + config.inactivityTimeout.value < now;
      }
    }
  }

  // ----- whose turn it is

  /** Within `n` consecutive calls starting at counter `c`, the `j`-th call runs this statement. */
  function TurnAt(c: nat, n: nat, j: nat): nat
    requires n > 0
  {
    Turn((c + j) % WORD, n)
  }

  ghost predicate RunsIn(c: nat, n: nat, i: nat)
    requires n > 0
  {
    exists j :: 0 <= j < n && TurnAt(c, n, j) == i
  }

  lemma WrapOnce(x: nat)
    requires x < 2 * WORD
    ensures x % WORD == if x < WORD then x else x - WORD
  {
  }

  lemma TurnBeforeWrap(c: nat, n: nat, j: nat)
    requires n > 0 && c < WORD && j < n <= WORD
    ensures c + j + 1 < WORD ==> TurnAt(c, n, j) == (c + j + 1) % n
    ensures c + j + 1 >= WORD ==> TurnAt(c, n, j) == (c + j + 1 - WORD) % n
  {
    WrapOnce(c + j);
    WrapOnce((c + j) % WORD + 1);
  }

  lemma {:induction false} MoreMultiples(a: nat, b: nat, n: nat)
    requires a < b
    ensures a * n + n <= b * n
  {
    if a + 1 < b {
      MoreMultiples(a, b - 1, n);
      assert b * n == (b - 1) * n + n;
    } else {
      assert b * n == a * n + n;
    }
  }

  lemma ResidueOf(x: nat, q: nat, n: nat, i: nat)
    requires i < n && x == q * n + i
    ensures x % n == i
  {
    var d := x / n;
    assert x == d * n + x % n;
    if d < q { MoreMultiples(d, q, n); }
    if q < d { MoreMultiples(q, d, n); }
  }

  /** Among `n` consecutive numbers one has remainder `i`. */
  lemma ResidueHit(a: nat, n: nat, i: nat) returns (j: nat)
    requires i < n
    ensures j < n && (a + j) % n == i
  {
    var q, r := a / n, a % n;
    assert a == q * n + r;
    if i >= r {
      j := i - r;
      ResidueOf(a + j, q, n, i);
    } else {
      j := i + n - r;
      assert (q + 1) * n == q * n + n;
      ResidueOf(a + j, q + 1, n, i);
    }
  }

  /** No statement is left out of `n` consecutive calls, exactly when the 32-bit counter does not wrap
      in the middle of them, or wraps without a gap because `n` divides 2^32. */
  lemma RoundRobin(c: nat, config: ValidityConfig, anonymousUsers: bool)
    requires c < WORD
    ensures var n := |Statements(config, anonymousUsers)|;
            (forall i: nat :: i < n ==> RunsIn(c, n, i)) <==> (c + n < WORD || c == WORD - 1 || WORD % n == 0)
  {
    var n := |Statements(config, anonymousUsers)|;
    if c + n < WORD || c == WORD - 1 || n == 8 {
      forall i: nat | i < n ensures RunsIn(c, n, i) {
        var j := ResidueHit(if c == WORD - 1 then 0 else c + 1, n, i);
        TurnBeforeWrap(c, n, j);
        assert TurnAt(c, n, j) == i;
      }
    } else {
      WrapSkips(c, n);
    }
  }

  /** A wrap inside the window, with `n` not a divisor of 2^32, leaves a statement out. */
  lemma WrapSkips(c: nat, n: nat)
    requires c < WORD - 1 && c + n >= WORD && 7 <= n <= 11 && n != 8
    ensures exists i: nat :: i < n && !RunsIn(c, n, i)
    ensures WORD % n != 0
  {
    var before := WORD - (c + 1);
    var r := if n == 10 then 6 else 4;
    var skipped: nat := if r >= before then n - 1 else Max(n - before, r);
    forall j | 0 <= j < n ensures TurnAt(c, n, j) != skipped {
      TurnBeforeWrap(c, n, j);
      if n == 7 { } else if n == 9 { } else if n == 10 { } else { }
    }
    assert !RunsIn(c, n, skipped);
  }
}
