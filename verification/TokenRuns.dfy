/** Whole runs over the token and session tables: sign-ins, refresh grants, factor verifications
    (which swap the oldest token of a session), family revocations, clean-up and logouts, in any order. */
module TokenRuns {
  import opened Common
  import opened Sessions
  import opened RefreshTokens
  import opened RefreshGrant
  import Cleanup

  datatype Event =
    | SignInEvent(userId: nat, params: GrantParams, at: Time)
    | RefreshEvent(req: Request)
    | FactorEvent(sid: nat, token: nat, factor: nat, at: Time)
    | FamilyEvent(token: nat, at: Time)
    | CleanEvent(st: Cleanup.Statement, users: map<nat, Cleanup.Person>, ids: set<nat>, at: Time)
    | LogoutEvent(ids: set<nat>, at: Time)

  function At(e: Event): Time {
    if e.RefreshEvent? then e.req.now else e.at
  }

  /** An event can happen: the clock has not gone back, and its parameters name what the tables hold. */
  predicate Enabled(config: Config, db: Tables, clock: Time, e: Event) {
    && clock <= At(e)
    && ZERO_TIME < At(e)
    && match e
       case FactorEvent(sid, t, _, _) => IsOldest(db, sid, t) && sid in db.sessions
       case FamilyEvent(t, _) => t in db.tokens
       case CleanEvent(st, users, ids, at) => Cleanup.Picks(db, users, config.validity, st, ids, at)
       case _ => true
  }

  /** A verified factor swaps the session's oldest token and lifts the session to the second level. */
  function VerifyFactor(db: Tables, sid: nat, t: nat, factor: nat, now: Time): Tables
    requires t in db.tokens && sid in db.sessions
  {
    var swapped := Swap(db, db.tokens[t].userId, t, now);
    swapped.(sessions := swapped.sessions[sid := db.sessions[sid].(aal := Some(AAL2), factorId := Some(factor))])
  }

  ghost function Step(config: Config, db: Tables, clock: Time, e: Event): Tables
    requires Enabled(config, db, clock, e)
  {
    match e
    case SignInEvent(userId, params, at) => SignIn(db, userId, params, at)
    case RefreshEvent(req) => Grant(db, config, req).0
    case FactorEvent(sid, t, factor, at) => VerifyFactor(db, sid, t, factor, at)
    case FamilyEvent(t, at) => RevokeFamily(db, t, at)
    case CleanEvent(st, _, ids, at) => Cleanup.Execute(db, st, ids, at)
    case LogoutEvent(ids, _) => DeleteSessions(db, ids)
  }

  ghost predicate Runs(config: Config, db: Tables, clock: Time, es: seq<Event>)
    decreases |es|
  {
    es == [] || (Enabled(config, db, clock, es[0]) && Runs(config, Step(config, db, clock, es[0]), At(es[0]), es[1..]))
  }

  ghost function End(config: Config, db: Tables, clock: Time, es: seq<Event>): Tables
    requires Runs(config, db, clock, es)
    decreases |es|
  {
    if es == [] then db else End(config, Step(config, db, clock, es[0]), At(es[0]), es[1..])
  }

  function EndClock(clock: Time, es: seq<Event>): Time {
    if es == [] then clock else At(es[|es| - 1])
  }

  lemma RunFirst(config: Config, db: Tables, clock: Time, e: Event, es: seq<Event>)
    requires Enabled(config, db, clock, e) && Runs(config, Step(config, db, clock, e), At(e), es)
    ensures Runs(config, db, clock, [e] + es)
    ensures End(config, db, clock, [e] + es) == End(config, Step(config, db, clock, e), At(e), es)
  {
    assert ([e] + es)[1..] == es;
  }

  // ----- the invariant every event keeps

  /** A stored token: known session of the same user, sane times, and a parent that, when still
      stored, is an older, already revoked token of the same session and user. */
  predicate SoundToken(db: Tables, clock: Time, t: nat)
    requires t in db.tokens
  {
    var token := db.tokens[t];
    && t < db.nextToken
    && ZERO_TIME < token.createdAt <= token.updatedAt <= clock
    && token.session.Some?
    && token.session.value in db.sessions
    && db.sessions[token.session.value].userId == token.userId
    && db.sessions[token.session.value].createdAt <= token.createdAt
    && (token.parent.Some? ==> token.parent.value < t)
    && (token.parent.Some? && token.parent.value in db.tokens ==> SoundParent(db.tokens[token.parent.value], token))
  }

  predicate SoundParent(parent: Token, child: Token) {
    && parent.revoked
    && parent.session == child.session
    && parent.userId == child.userId
    && parent.createdAt <= child.createdAt
  }

  predicate SoundSession(db: Tables, clock: Time, s: nat)
    requires s in db.sessions
  {
    && s < db.nextSession
    && ZERO_TIME < db.sessions[s].createdAt <= clock
    && (db.sessions[s].refreshedAt.Some? ==> db.sessions[s].createdAt <= db.sessions[s].refreshedAt.value <= clock)
  }

  ghost predicate Sound(db: Tables, clock: Time) {
    && (forall t :: t in db.tokens ==> SoundToken(db, clock, t))
    && (forall s :: s in db.sessions ==> SoundSession(db, clock, s))
  }

  lemma SoundSignIn(db: Tables, clock: Time, userId: nat, params: GrantParams, now: Time)
    requires Sound(db, clock) && clock <= now && ZERO_TIME < now
    ensures Sound(SignIn(db, userId, params, now), now)
  {
    var after := SignIn(db, userId, params, now);
    forall t | t in after.tokens ensures SoundToken(after, now, t) {
      if t != db.nextToken { assert SoundToken(db, clock, t); }
    }
    forall s | s in after.sessions ensures SoundSession(after, now, s) {
      if s != db.nextSession { assert SoundSession(db, clock, s); }
    }
  }

  lemma SoundRevoke(db: Tables, clock: Time, ids: set<nat>, now: Time)
    requires Sound(db, clock) && clock <= now
    ensures Sound(Revoke(db, ids, now), now)
  {
    var after := Revoke(db, ids, now);
    forall t | t in after.tokens ensures SoundToken(after, now, t) {
      assert SoundToken(db, clock, t);
    }
    forall s | s in after.sessions ensures SoundSession(after, now, s) {
      assert SoundSession(db, clock, s);
    }
  }

  lemma SoundSwap(db: Tables, clock: Time, t: nat, now: Time)
    requires Sound(db, clock) && clock <= now && ZERO_TIME < now && t in db.tokens
    ensures Sound(Swap(db, db.tokens[t].userId, t, now), now)
  {
    SoundRevoke(db, clock, {t}, now);
    var mid := Revoke(db, {t}, now);
    assert SoundToken(db, clock, t);
    var after := Swap(db, db.tokens[t].userId, t, now);
    forall u | u in after.tokens ensures SoundToken(after, now, u) {
      if u != db.nextToken {
        assert SoundToken(mid, now, u);
      } else {
        assert SoundToken(mid, now, t);
      }
    }
    forall s | s in after.sessions ensures SoundSession(after, now, s) {
      assert SoundSession(mid, now, s);
    }
  }

  /** Changing columns of a session row other than owner and creation time. */
  lemma SoundTouch(db: Tables, clock: Time, sid: nat, row: Session)
    requires Sound(db, clock) && sid in db.sessions
    requires row.userId == db.sessions[sid].userId && row.createdAt == db.sessions[sid].createdAt
    requires row.refreshedAt.Some? ==> row.createdAt <= row.refreshedAt.value <= clock
    ensures Sound(db.(sessions := db.sessions[sid := row]), clock)
  {
    var after := db.(sessions := db.sessions[sid := row]);
    forall t | t in after.tokens ensures SoundToken(after, clock, t) {
      assert SoundToken(db, clock, t);
    }
    forall s | s in after.sessions ensures SoundSession(after, clock, s) {
      assert SoundSession(db, clock, s);
    }
  }

  lemma SoundLater(db: Tables, clock: Time, now: Time)
    requires Sound(db, clock) && clock <= now
    ensures Sound(db, now)
  {
    forall t | t in db.tokens ensures SoundToken(db, now, t) { assert SoundToken(db, clock, t); }
    forall s | s in db.sessions ensures SoundSession(db, now, s) { assert SoundSession(db, clock, s); }
  }

  lemma SoundDelete(db: Tables, clock: Time, ids: set<nat>)
    requires Sound(db, clock)
    ensures Sound(DeleteTokens(db, ids), clock)
    ensures Sound(DeleteSessions(db, ids), clock)
  {
    forall t | t in db.tokens ensures SoundToken(db, clock, t) {}
    forall s | s in db.sessions ensures SoundSession(db, clock, s) {}
    var a, b := DeleteTokens(db, ids), DeleteSessions(db, ids);
    forall t | t in a.tokens ensures SoundToken(a, clock, t) { assert SoundToken(db, clock, t); }
    forall t | t in b.tokens ensures SoundToken(b, clock, t) { assert SoundToken(db, clock, t); }
    forall s | s in b.sessions ensures SoundSession(b, clock, s) { assert SoundSession(db, clock, s); }
    forall s | s in a.sessions ensures SoundSession(a, clock, s) { assert SoundSession(db, clock, s); }
  }

  lemma SoundGrant(config: Config, db: Tables, clock: Time, req: Request)
    requires Sound(db, clock) && clock <= req.now && ZERO_TIME < req.now
    ensures Sound(Grant(db, config, req).0, req.now)
  {
    SoundLater(db, clock, req.now);
    SoundDelete(db, req.now, {req.presented});
    if Precheck(db, config, req).None? {
      assert SoundToken(db, clock, req.presented);
      var token := db.tokens[req.presented];
      var sid := token.session.value;
      assert SoundSession(db, clock, sid);
      SoundRevoke(db, clock, ActiveTokens(db, sid), req.now);
      SoundSwap(db, clock, req.presented, req.now);
      var swapped := Swap(db, token.userId, req.presented, req.now);
      var row := db.sessions[sid].(refreshedAt := Some(req.now));
      SoundTouch(db, req.now, sid, row);
      SoundTouch(swapped, req.now, sid, row);
    }
  }

  lemma SoundStep(config: Config, db: Tables, clock: Time, e: Event)
    requires Sound(db, clock) && Enabled(config, db, clock, e)
    ensures Sound(Step(config, db, clock, e), At(e))
  {
    SoundLater(db, clock, At(e));
    match e
    case SignInEvent(userId, params, at) => SoundSignIn(db, clock, userId, params, at);
    case RefreshEvent(req) => SoundGrant(config, db, clock, req);
    case FactorEvent(sid, t, factor, at) =>
      SoundSwap(db, clock, t, at);
      assert SoundSession(db, clock, sid) && SoundToken(db, clock, t);
      SoundTouch(Swap(db, db.tokens[t].userId, t, at), at, sid,
                 db.sessions[sid].(aal := Some(AAL2), factorId := Some(factor)));
    case FamilyEvent(t, at) =>
      assert SoundToken(db, clock, t);
      SoundRevoke(db, clock, ActiveTokens(db, db.tokens[t].session.value), at);
    case CleanEvent(_, _, ids, at) =>
      SoundDelete(db, at, ids);
      SoundDelete(db, at, Cleanup.SessionsOf(db, ids));
      SoundRevoke(db, clock, ids, at);
    case LogoutEvent(ids, at) => SoundDelete(db, at, ids);
  }

  /** Every state a run reaches satisfies the invariant. */
  lemma {:induction false} EveryRunIsSound(config: Config, db: Tables, clock: Time, es: seq<Event>)
    requires Sound(db, clock) && Runs(config, db, clock, es)
    ensures Sound(End(config, db, clock, es), EndClock(clock, es))
    decreases |es|
  {
    if es != [] {
      SoundStep(config, db, clock, es[0]);
      EveryRunIsSound(config, Step(config, db, clock, es[0]), At(es[0]), es[1..]);
    }
  }
}
