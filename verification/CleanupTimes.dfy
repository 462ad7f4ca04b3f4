/** When the clean-up job takes a row: never much before its time, and after it, some statement of the job's list
    does. */
module CleanupTimes {
  import opened Common
  import opened Sessions
  import opened RefreshTokens
  import opened Cleanup

  const DAY: int := 24 * HOUR

  /** Durations are cut to whole seconds. */
  lemma CutByLessThanASecond(duration: int)
    requires duration >= 0
    ensures WholeSeconds(duration) <= duration < WholeSeconds(duration) + SECOND
  {
  }

  /** The session is over its end date, its time box or its inactivity timeout by `late`; an unrefreshed one is idle as
      soon as one of its unrevoked tokens is. */
  ghost predicate Overdue(db: Tables, config: ValidityConfig, s: nat, late: int, now: Time)
    requires s in db.sessions
  {
    var session := db.sessions[s];
    || (session.notAfter.Some? && session.notAfter.value + late + 2 * DAY < now)
    || (config.timebox.Some? && session.createdAt + config.timebox.value + late < now)
    || (config.inactivityTimeout.Some? && session.refreshedAt.Some?
        && session.refreshedAt.value + config.inactivityTimeout.value + late < now)
    || (config.inactivityTimeout.Some? && session.refreshedAt.None?
        && exists t :: InSession(db, t, s) && !db.tokens[t].revoked
                       && db.tokens[t].updatedAt + config.inactivityTimeout.value + late < now)
  }

  predicate Abandoned(users: map<nat, Person>, u: nat, now: Time) {
    u in users && users[u].anonymous && users[u].createdAt + 30 * DAY < now
  }

  lemma SelectedSessionsAreOverdue(db: Tables, users: map<nat, Person>, config: ValidityConfig, st: Statement, s: nat,
                                   now: Time)
    requires ConfigAccepted(config) && Selects(db, users, config, st, s, now)
    requires !st.PurgeRevokedTokens? && !st.RevokeExpiredTokens? && !st.PurgeAnonymousUsers?
    ensures s in db.sessions && Overdue(db, config, s, DAY - SECOND, now)
  {
    if config.timebox.Some? { CutByLessThanASecond(config.timebox.value); }
    if config.inactivityTimeout.Some? { CutByLessThanASecond(config.inactivityTimeout.value); }
  }

  /** Whatever statement runs, and whatever rows it picks: a session that goes was overdue for a day (three, if only
      its end date has passed), less the second that whole seconds cost, or is of an anonymous user older than thirty
      days. A token that goes while its session stays was revoked for a day. A token that is changed is one that was
      not revoked in a session a day past its end, and is revoked now. Everything else stays, and at most a hundred
      rows are picked at once, ten when their sessions are past their end. */
  lemma NothingIsTakenEarly(db: Tables, users: map<nat, Person>, config: ValidityConfig, st: Statement, ids: set<nat>,
                            now: Time)
    requires ConfigAccepted(config) && Picks(db, users, config, st, ids, now)
    ensures var after := Execute(db, st, ids, now);
            && |ids| <= 100 && (st.PurgeExpiredSessions? ==> |ids| <= 10)
            && (forall s :: s in after.sessions ==> s in db.sessions && after.sessions[s] == db.sessions[s])
            && (forall s :: s in db.sessions && s !in after.sessions ==>
                  Overdue(db, config, s, DAY - SECOND, now) || Abandoned(users, db.sessions[s].userId, now))
            && after.tokens.Keys <= db.tokens.Keys
            && (forall t :: t in db.tokens && t !in after.tokens ==>
                  || (db.tokens[t].revoked && db.tokens[t].updatedAt + DAY < now)
                  || (HasOwner(db, t) && db.tokens[t].session.value !in after.sessions))
            && (forall t :: t in after.tokens && after.tokens[t] != db.tokens[t] ==>
                  && !db.tokens[t].revoked && after.tokens[t] == db.tokens[t].(revoked := true, updatedAt := now)
                  && HasOwner(db, t) && db.sessions[db.tokens[t].session.value].notAfter.Some?
                  && db.sessions[db.tokens[t].session.value].notAfter.value + DAY < now)
  {
    var after := Execute(db, st, ids, now);
    forall s | s in db.sessions && s !in after.sessions
      ensures Overdue(db, config, s, DAY - SECOND, now) || Abandoned(users, db.sessions[s].userId, now)
    {
      if !st.PurgeAnonymousUsers? {
        assert s in ids;
        SelectedSessionsAreOverdue(db, users, config, st, s, now);
      }
    }
    forall t | t in db.tokens && t !in after.tokens
      ensures || (db.tokens[t].revoked && db.tokens[t].updatedAt + DAY < now)
              || (HasOwner(db, t) && db.tokens[t].session.value !in after.sessions)
    {
      TokenGone(db, users, config, st, ids, now, t);
    }
  }

  predicate HasOwner(db: Tables, t: nat) {
    t in db.tokens && db.tokens[t].session.Some? && db.tokens[t].session.value in db.sessions
  }

  lemma TokenGone(db: Tables, users: map<nat, Person>, config: ValidityConfig, st: Statement, ids: set<nat>, now: Time,
                  t: nat)
    requires Picks(db, users, config, st, ids, now) && t in db.tokens && t !in Execute(db, st, ids, now).tokens
    ensures || (db.tokens[t].revoked && db.tokens[t].updatedAt + DAY < now)
            || (HasOwner(db, t) && db.tokens[t].session.value !in Execute(db, st, ids, now).sessions)
  {
    if !st.PurgeRevokedTokens? && !st.PurgeAnonymousUsers? {
      var s := db.tokens[t].session.value;
      assert s in ids && Selects(db, users, config, st, s, now);
    }
  }

  /** The rows picked are taken: tokens, sessions with their tokens, or the sessions of users with theirs. */
  lemma PickedRowsAreTaken(db: Tables, users: map<nat, Person>, config: ValidityConfig, st: Statement, ids: set<nat>,
                           now: Time, id: nat)
    requires Picks(db, users, config, st, ids, now) && id in ids
    ensures var after := Execute(db, st, ids, now);
            match st
            case PurgeRevokedTokens => id in db.tokens && id !in after.tokens
            case RevokeExpiredTokens => id in after.tokens && !db.tokens[id].revoked && after.tokens[id].revoked
            case PurgeAnonymousUsers =>
              && (forall s :: s in after.sessions ==> after.sessions[s].userId != id)
              && (forall t :: HasOwner(db, t) && db.sessions[db.tokens[t].session.value].userId == id ==>
                    t !in after.tokens)
            case _ => id in db.sessions && id !in after.sessions && SessionTokens(after, id) == {}
  {
    if st.PurgeRevokedTokens? || st.RevokeExpiredTokens? || st.PurgeAnonymousUsers? {
    } else {
      forall t: nat ensures t !in SessionTokens(Execute(db, st, ids, now), id) {
      }
    }
  }

  /** A row of the job's tables that is due: some statement on the job's list selects it. */
  ghost predicate IsListed(db: Tables, users: map<nat, Person>, config: ValidityConfig, anonymousUsers: bool, id: nat,
                           now: Time, sessions: bool) {
    exists st :: st in Statements(config, anonymousUsers) && Selects(db, users, config, st, id, now)
                 && (sessions <==> !st.PurgeRevokedTokens? && !st.RevokeExpiredTokens? && !st.PurgeAnonymousUsers?)
  }

  /** Nothing that is due is forgotten: a session overdue for a day (three past its end date) is selected by a statement
      that the job has, and so is a token revoked for a day, or not revoked in a session a day past its end. */
  lemma EverythingDueIsListed(db: Tables, users: map<nat, Person>, config: ValidityConfig, anonymousUsers: bool,
                              id: nat, now: Time)
    requires ConfigAccepted(config)
    ensures id in db.sessions && Overdue(db, config, id, DAY, now) ==>
              IsListed(db, users, config, anonymousUsers, id, now, true)
    ensures id in db.tokens && db.tokens[id].revoked && db.tokens[id].updatedAt + DAY < now ==>
              IsListed(db, users, config, anonymousUsers, id, now, false)
    ensures && HasOwner(db, id) && !db.tokens[id].revoked
            && db.sessions[db.tokens[id].session.value].notAfter.Some?
            && db.sessions[db.tokens[id].session.value].notAfter.value + DAY < now ==>
              IsListed(db, users, config, anonymousUsers, id, now, false)
  {
    var sts := Statements(config, anonymousUsers);
    assert sts[0] == PurgeRevokedTokens && sts[1] == RevokeExpiredTokens && sts[2] == PurgeExpiredSessions;
    if id in db.sessions && Overdue(db, config, id, DAY, now) {
      SessionListed(db, users, config, anonymousUsers, id, now);
    }
  }

  /** Anonymous users older than thirty days are selected, if the job looks after them at all. */
  lemma AbandonedUsersAreListed(db: Tables, users: map<nat, Person>, config: ValidityConfig, u: nat, now: Time)
    ensures Abandoned(users, u, now) <==> Selects(db, users, config, PurgeAnonymousUsers, u, now)
    ensures PurgeAnonymousUsers in Statements(config, true) && PurgeAnonymousUsers !in Statements(config, false)
  {
    assert Statements(config, true)[7] == PurgeAnonymousUsers;
  }

  lemma SessionListed(db: Tables, users: map<nat, Person>, config: ValidityConfig, anonymousUsers: bool, s: nat,
                      now: Time)
    requires ConfigAccepted(config) && s in db.sessions && Overdue(db, config, s, DAY, now)
    ensures IsListed(db, users, config, anonymousUsers, s, now, true)
  {
    var sts, session := Statements(config, anonymousUsers), db.sessions[s];
    if session.notAfter.Some? && session.notAfter.value + 3 * DAY < now {
      assert sts[2] == PurgeExpiredSessions && Selects(db, users, config, sts[2], s, now);
    } else if config.timebox.Some? && session.createdAt + config.timebox.value + DAY < now {
      CutByLessThanASecond(config.timebox.value);
      assert PurgeTimeboxedSessions in sts && Selects(db, users, config, PurgeTimeboxedSessions, s, now);
    } else {
      CutByLessThanASecond(config.inactivityTimeout.value);
      IdleSessionListed(db, users, config, anonymousUsers, s, now);
    }
  }

  lemma IdleSessionListed(db: Tables, users: map<nat, Person>, config: ValidityConfig, anonymousUsers: bool, s: nat,
                          now: Time)
    requires s in db.sessions && config.inactivityTimeout.Some?
    requires WholeSeconds(config.inactivityTimeout.value) <= config.inactivityTimeout.value
    requires var session := db.sessions[s];
             || (session.refreshedAt.Some? && session.refreshedAt.value + config.inactivityTimeout.value + DAY < now)
             || (session.refreshedAt.None?
                 && exists t :: InSession(db, t, s) && !db.tokens[t].revoked
                                && db.tokens[t].updatedAt + config.inactivityTimeout.value + DAY < now)
    ensures IsListed(db, users, config, anonymousUsers, s, now, true)
  {
    var sts := Statements(config, anonymousUsers);
    assert sts[|sts| - 2] == PurgeInactiveSessions && sts[|sts| - 1] == PurgeUnrefreshedSessions;
    if db.sessions[s].refreshedAt.Some? {
      assert Selects(db, users, config, PurgeInactiveSessions, s, now);
    } else {
      var t :| InSession(db, t, s) && !db.tokens[t].revoked
               && db.tokens[t].updatedAt + config.inactivityTimeout.value + DAY < now;
      assert Selects(db, users, config, PurgeUnrefreshedSessions, s, now);
    }
  }
}
