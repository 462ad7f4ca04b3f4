/** Reuse detection: it commits although it answers with an error, and the session it kills stays
    dead, with one exception that the code leaves open. */
module DeadSessions {
  import opened Common
  import opened Sessions
  import opened RefreshTokens
  import opened RefreshGrant
  import opened TokenRuns
  import opened TokenChains

  /** What each answer of the grant means for the tables. An answer of "already used" under rotation
      leaves the whole session revoked; every other refusal leaves the tables exactly as they were
      (a token that lost its session is the one exception: it is deleted). */
  lemma AnswersAndTables(db: Tables, config: Config, req: Request)
    ensures var (after, answer) := Grant(db, config, req);
            && (answer == AlreadyUsed ==> HasSession(db, req.presented) && db.tokens[req.presented].revoked)
            && (answer == AlreadyUsed && config.rotation ==>
                  && ActiveTokens(after, db.tokens[req.presented].session.value) == {}
                  && after.tokens.Keys == db.tokens.Keys && after.sessions == db.sessions)
            && (answer == AlreadyUsed && !config.rotation ==> after == db)
            && (!answer.Granted? && answer != AlreadyUsed && answer != SessionMissing ==> after == db)
            && (answer == SessionMissing ==> after == DeleteTokens(db, {req.presented}))
            && (answer.Granted? ==>
                  HasSession(db, req.presented) && answer.token in after.tokens && !after.tokens[answer.token].revoked
                                    && after.tokens[answer.token].parent == Some(req.presented))
  {
    var (after, answer) := Grant(db, config, req);
    if answer == AlreadyUsed && config.rotation {
      assert ActiveTokens(after, db.tokens[req.presented].session.value) == {};
    }
    if Precheck(db, config, req).None? && Decide(db, config, req, Loses(db, config, req)).Replay? {
      var sid := db.tokens[req.presented].session.value;
      assert Decide(db, config, req, Loses(db, config, req)).active in ActiveTokens(db, sid);
    }
  }

  /** Every token of the session is revoked and past its reuse window. */
  ghost predicate Dead(db: Tables, config: Config, sid: nat, clock: Time) {
    && sid < db.nextSession
    && forall t :: InSession(db, t, sid) ==>
         db.tokens[t].revoked && db.tokens[t].updatedAt + config.reuseInterval * SECOND < clock
  }

  predicate Revives(e: Event, sid: nat) {
    e.FactorEvent? && e.sid == sid
  }

  lemma DeadHasNoActive(db: Tables, config: Config, sid: nat, clock: Time)
    requires Dead(db, config, sid, clock)
    ensures ActiveTokens(db, sid) == {} && FindActive(db, sid) == None
  {
    forall t | t in ActiveTokens(db, sid) ensures false {
      assert InSession(db, t, sid);
    }
  }

  lemma DeadRefresh(config: Config, db: Tables, clock: Time, req: Request, sid: nat)
    requires Sound(db, clock) && Dead(db, config, sid, clock) && clock <= req.now
    ensures Dead(Grant(db, config, req).0, config, sid, req.now)
    ensures InSession(db, req.presented, sid) ==> !Grant(db, config, req).1.Granted?
  {
    DeadHasNoActive(db, config, sid, clock);
    var after := Grant(db, config, req).0;
    if req.presented in db.tokens { assert SoundToken(db, clock, req.presented); }
    if InSession(db, req.presented, sid) && Precheck(db, config, req).None? {
      assert Decide(db, config, req, Loses(db, config, req)) == Reject
             || Decide(db, config, req, Loses(db, config, req)) == Reuse;
      assert after.tokens == db.tokens;
    }
    forall t | InSession(after, t, sid)
      ensures after.tokens[t].revoked && after.tokens[t].updatedAt + config.reuseInterval * SECOND < req.now
    {
      assert InSession(db, t, sid);
      assert after.tokens[t] == db.tokens[t];
    }
  }

  /** One event keeps a dead session dead if and only if it is not a factor verification of that very
      session: such a verification swaps the oldest token without asking whether it is revoked. */
  lemma DeadStep(config: Config, db: Tables, clock: Time, e: Event, sid: nat)
    requires Sound(db, clock) && Dead(db, config, sid, clock) && Enabled(config, db, clock, e)
    ensures Dead(Step(config, db, clock, e), config, sid, At(e)) <==> !Revives(e, sid)
  {
    var after := Step(config, db, clock, e);
    if e.RefreshEvent? {
      DeadRefresh(config, db, clock, e.req, sid);
    } else if Revives(e, sid) {
      assert InSession(after, db.nextToken, sid) && !after.tokens[db.nextToken].revoked;
    } else {
      if e.FactorEvent? { assert SoundToken(db, clock, e.token); }
      if e.FamilyEvent? { assert SoundToken(db, clock, e.token); }
      forall t | InSession(after, t, sid)
        ensures after.tokens[t].revoked && after.tokens[t].updatedAt + config.reuseInterval * SECOND < At(e)
      {
        assert InSession(db, t, sid);
        assert after.tokens[t] == db.tokens[t];
      }
    }
  }

  /** Over whole runs: a dead session never has an active token again, and none of its tokens is
      ever honoured, unless one of its factors is verified. */
  lemma {:induction false} DeadSessionsStayDead(config: Config, db: Tables, clock: Time, es: seq<Event>, sid: nat)
    requires Sound(db, clock) && Dead(db, config, sid, clock) && Runs(config, db, clock, es)
    requires forall e :: e in es ==> !Revives(e, sid)
    ensures Dead(End(config, db, clock, es), config, sid, EndClock(clock, es))
    ensures FindActive(End(config, db, clock, es), sid) == None
    ensures forall req: Request :: req.now >= EndClock(clock, es)
                                   && InSession(End(config, db, clock, es), req.presented, sid) ==>
              !Grant(End(config, db, clock, es), config, req).1.Granted?
    decreases |es|
  {
    if es == [] {
      DeadHasNoActive(db, config, sid, clock);
      forall req: Request | req.now >= clock && InSession(db, req.presented, sid)
        ensures !Grant(db, config, req).1.Granted?
      {
        DeadRefresh(config, db, clock, req, sid);
      }
    } else {
      assert es[0] in es;
      SoundStep(config, db, clock, es[0]);
      DeadStep(config, db, clock, es[0], sid);
      var next := Step(config, db, clock, es[0]);
      assert forall e :: e in es[1..] ==> e in es;
      DeadSessionsStayDead(config, next, At(es[0]), es[1..], sid);
      assert EndClock(clock, es) == EndClock(At(es[0]), es[1..]);
    }
  }

  /** Reuse detection plus the passing of the reuse window kills a session: once a reuse was answered
      under rotation, the session is dead as soon as the window (if any) is over. */
  lemma ReuseDetectionKills(config: Config, db: Tables, clock: Time, req: Request, later: Time)
    requires Sound(db, clock) && clock <= req.now
    requires Grant(db, config, req).1 == AlreadyUsed && config.rotation
    requires req.now + config.reuseInterval * SECOND < later
    ensures Dead(Grant(db, config, req).0, config, db.tokens[req.presented].session.value, later)
  {
    AnswersAndTables(db, config, req);
    var sid := db.tokens[req.presented].session.value;
    var after := Grant(db, config, req).0;
    assert SoundSession(db, clock, sid);
    forall t | InSession(after, t, sid)
      ensures after.tokens[t].revoked && after.tokens[t].updatedAt + config.reuseInterval * SECOND < later
    {
      assert t !in ActiveTokens(after, sid);
      assert SoundToken(db, clock, t);
    }
  }

  // ----- the exception is real

  function ReusedAt(reuse: Time): Tables {
    ROTATED_TWICE.(tokens := ROTATED_TWICE.tokens[2 := Token(7, Some(1), Some(0), true, 3, reuse)])
  }

  function RevivedAt(reuse: Time, later: Time): Tables {
    Tables(ReusedAt(reuse).tokens[0 := Token(7, None, Some(0), true, 1, later)]
                                 [3 := Token(7, Some(0), Some(0), false, later, later)],
           map[0 := Session(7, None, 1, Some(3), Some(5), Some(AAL2), None)], 4, 1)
  }

  /** The first of three tokens, presented after the reuse window, takes the whole session down. */
  lemma ReuseAfterTwoRotations(config: Config, reuse: Time)
    requires config.rotation && config.reuseInterval >= 0 && config.validity == ValidityConfig(None, None, None)
    requires reuse == 4 + config.reuseInterval * SECOND
    ensures var e := RefreshEvent(Request(0, reuse, reuse, AAL1, false, false));
            Enabled(config, ROTATED_TWICE, 3, e) && Step(config, ROTATED_TWICE, 3, e) == ReusedAt(reuse)
  {
    var req := Request(0, reuse, reuse, AAL1, false, false);
    assert ActiveTokens(ROTATED_TWICE, 0) == {2};
    OnlyActive(ROTATED_TWICE, 0, 2);
    assert !Superseded(ROTATED_TWICE, config, req);
    assert Grant(ROTATED_TWICE, config, req).0.tokens == ReusedAt(reuse).tokens;
  }

  lemma ReusedIsDead(config: Config, reuse: Time, later: Time)
    requires config.reuseInterval >= 0 && 3 <= reuse && reuse + config.reuseInterval * SECOND < later
    ensures Dead(ReusedAt(reuse), config, 0, later)
  {
    assert forall t :: t in ReusedAt(reuse).tokens ==> t == 0 || t == 1 || t == 2;
  }

  lemma VerifyingRevives(config: Config, reuse: Time, later: Time)
    requires 3 <= reuse <= later
    ensures var e := FactorEvent(0, 0, 5, later);
            Enabled(config, ReusedAt(reuse), reuse, e)
              && Step(config, ReusedAt(reuse), reuse, e) == RevivedAt(reuse, later)
  {
    assert IsOldest(ReusedAt(reuse), 0, 0);
    assert VerifyFactor(ReusedAt(reuse), 0, 0, 5, later) == RevivedAt(reuse, later);
  }

  lemma RevivedIsHonoured(config: Config, reuse: Time, later: Time)
    requires config.validity == ValidityConfig(None, None, None)
    ensures ActiveTokens(RevivedAt(reuse, later), 0) == {3}
    ensures Grant(RevivedAt(reuse, later), config, Request(3, later, later, AAL2, false, false)).1 == Granted(4)
  {
    assert !Superseded(RevivedAt(reuse, later), config, Request(3, later, later, AAL2, false, false));
  }

  /** A session rotated twice, whose first token is then presented again after the reuse window, is dead one window
      later; verifying a factor afterwards leaves it with a token that the grant honours. */
  lemma VerificationRevivesADeadSession(config: Config, es: seq<Event>, reuse: Time, later: Time)
    requires config.rotation && config.reuseInterval >= 0 && config.validity == ValidityConfig(None, None, None)
    requires reuse == 4 + config.reuseInterval * SECOND && later == reuse + config.reuseInterval * SECOND + 1
    requires es == TWO_ROTATIONS + [RefreshEvent(Request(0, reuse, reuse, AAL1, false, false))]
    ensures Runs(config, EMPTY, ZERO_TIME, es) && Dead(End(config, EMPTY, ZERO_TIME, es), config, 0, later)
    ensures Runs(config, EMPTY, ZERO_TIME, es + [FactorEvent(0, 0, 5, later)])
    ensures var db := End(config, EMPTY, ZERO_TIME, es + [FactorEvent(0, 0, 5, later)]);
            && ActiveTokens(db, 0) == {3}
            && Grant(db, config, Request(3, later, later, AAL2, false, false)).1 == Granted(4)
  {
    TwoRotations(config);
    ReuseAfterTwoRotations(config, reuse);
    RunLast(config, EMPTY, ZERO_TIME, TWO_ROTATIONS, es[3]);
    ReusedIsDead(config, reuse, later);
    VerifyingRevives(config, reuse, later);
    RunLast(config, EMPTY, ZERO_TIME, es, FactorEvent(0, 0, 5, later));
    RevivedIsHonoured(config, reuse, later);
  }
}
