/** What a sign-in, a swap, a factor verification and a refresh mean for a client: exactly which answer a request gets,
    and what each answer leaves behind, in terms of the stored rows alone. */
module GrantTheorems {
  import opened Common
  import opened Sessions
  import opened RefreshTokens
  import opened RefreshGrant
  import opened TokenRuns

  // ----- when a session has ended

  predicate Ended(s: Session, now: Time) {
    s.notAfter.Some? && s.notAfter.value < now
  }

  /** More than the limit has passed since the session was created; a limit of zero is none. */
  predicate Outlived(s: Session, limit: Option<int>, now: Time) {
    limit.Some? && limit.value != 0 && s.createdAt + limit.value < now
  }

  /** More than the limit has passed since the last refresh or, without one, since both the session's creation and the
      presented token's last change. */
  predicate Idle(s: Session, tokenTime: Option<Time>, limit: Option<int>, now: Time) {
    && limit.Some? && limit.value != 0
    && if s.refreshedAt.Some? && s.refreshedAt.value != ZERO_TIME then s.refreshedAt.value + limit.value < now
       else
         && s.createdAt + limit.value < now
         && (tokenTime.Some? && tokenTime.value != ZERO_TIME ==> tokenTime.value + limit.value < now)
  }

  /** The session is below a level its user could reach. */
  predicate TooLow(s: Session, highest: AssuranceLevel) {
    match highest
    case AAL1 => false
    case AAL2 => s.aal == None || s.aal == Some(AAL1)
    case AAL3 => s.aal != Some(AAL3)
  }

  predicate Alive(s: Session, config: ValidityConfig, tokenTime: Option<Time>, highest: AssuranceLevel, now: Time) {
    && !Ended(s, now) && !Outlived(s, config.timebox, now) && !Idle(s, tokenTime, config.inactivityTimeout, now)
    && !(TooLow(s, highest) && Outlived(s, config.allowLowAAL, now))
  }

  /** The first rule that a session breaks is the reason given. */
  lemma ReasonsExactly(s: Session, config: ValidityConfig, now: Time, tokenTime: Option<Time>, highest: AssuranceLevel)
    ensures CheckValidity(s, config, now, tokenTime, highest) ==
            if Ended(s, now) then PastNotAfter
            else if Outlived(s, config.timebox, now) then PastTimebox
            else if Idle(s, tokenTime, config.inactivityTimeout, now) then TimedOut
            else if TooLow(s, highest) && Outlived(s, config.allowLowAAL, now) then LowAAL
            else Valid
    ensures CheckValidity(s, config, now, tokenTime, highest) == Valid <==> Alive(s, config, tokenTime, highest, now)
  {
  }

  /** A request gets past the checks made before any lock exactly when its token is stored with a session that is still
      alive and its user is not banned. */
  lemma ChecksPassedExactly(db: Tables, config: Config, req: Request)
    ensures Precheck(db, config, req).None? <==>
            && HasSession(db, req.presented) && !req.banned
            && var token := db.tokens[req.presented];
               Alive(db.sessions[token.session.value], config.validity, Some(token.updatedAt), req.highest, req.start)
  {
    if HasSession(db, req.presented) {
      var token := db.tokens[req.presented];
      ReasonsExactly(db.sessions[token.session.value], config.validity, req.start, Some(token.updatedAt), req.highest);
    }
  }

  // ----- who competes with whom

  /** The session carries one of the configured tags. */
  predicate OwnTag(s: Session, tags: seq<string>) {
    s.tag.Some? && s.tag.value != "" && s.tag.value in tags
  }

  /** Two sessions compete: they carry the same configured tag, or carry none, or one carries none and the other the
      first. */
  predicate Compete(a: Session, b: Session, tags: seq<string>) {
    if OwnTag(a, tags) && OwnTag(b, tags) then a.tag == b.tag
    else if OwnTag(a, tags) then a.tag.value == tags[0]
    else if OwnTag(b, tags) then b.tag.value == tags[0]
    else true
  }

  lemma CompeteByTag(a: Session, b: Session, tags: seq<string>)
    ensures TagOf(a, tags) == TagOf(b, tags) <==> Compete(a, b, tags)
  {
  }

  /** Another session of the user that competes, is alive and was seen later. */
  predicate Rival(db: Tables, config: Config, req: Request, s: nat)
    requires HasSession(db, req.presented)
  {
    var token := db.tokens[req.presented];
    var sid := token.session.value;
    && s in db.sessions && s != sid && db.sessions[s].userId == token.userId
    && Alive(db.sessions[s], config.validity, None, req.highest, req.start)
    && Compete(db.sessions[s], db.sessions[sid], config.tags)
    && LastRefreshedAt(db.sessions[s], None) > LastRefreshedAt(db.sessions[sid], Some(token.updatedAt))
  }

  ghost predicate Outdone(db: Tables, config: Config, req: Request)
    requires HasSession(db, req.presented)
  {
    config.singlePerUser && exists s: nat :: Rival(db, config, req, s)
  }

  lemma OutdoneIsLosing(db: Tables, config: Config, req: Request)
    requires HasSession(db, req.presented)
    ensures Loses(db, config, req) <==> Outdone(db, config, req)
  {
    var token := db.tokens[req.presented];
    var sid := token.session.value;
    forall s | s in db.sessions
      ensures Beats(db.sessions, config, req.start, req.highest, token.userId, s, sid, token.updatedAt) <==>
              Rival(db, config, req, s)
    {
      ReasonsExactly(db.sessions[s], config.validity, req.start, None, req.highest);
      CompeteByTag(db.sessions[s], db.sessions[sid], config.tags);
    }
  }

  // ----- the answers

  /** The token is the parent of the youngest unrevoked token of its session. */
  ghost predicate HasActiveChild(db: Tables, t: nat, child: nat)
    requires HasSession(db, t)
  {
    var sid := db.tokens[t].session.value;
    && InSession(db, child, sid) && !db.tokens[child].revoked && db.tokens[child].parent == Some(t)
    && forall b: nat :: InSession(db, b, sid) && !db.tokens[b].revoked ==> b <= child
  }

  lemma ActiveChildIsFound(db: Tables, t: nat)
    requires HasSession(db, t)
    ensures var active := FindActive(db, db.tokens[t].session.value);
            forall child: nat :: HasActiveChild(db, t, child) <==>
              active == Some(child) && db.tokens[child].parent == Some(t)
  {
    var sid := db.tokens[t].session.value;
    forall child: nat | HasActiveChild(db, t, child) ensures FindActive(db, sid) == Some(child) {
      assert child in ActiveTokens(db, sid);
      var m := FindActive(db, sid).value;
      assert m in ActiveTokens(db, sid) && InSession(db, m, sid);
    }
    forall child: nat | FindActive(db, sid) == Some(child) && db.tokens[child].parent == Some(t)
      ensures HasActiveChild(db, t, child)
    {
      assert child in ActiveTokens(db, sid);
      forall b: nat | InSession(db, b, sid) && !db.tokens[b].revoked ensures b <= child {
        assert b in ActiveTokens(db, sid);
      }
    }
  }

  /** The token may still be used: it is unrevoked, the parent of the active one, or inside the reuse window. */
  ghost predicate Usable(db: Tables, config: Config, req: Request)
    requires HasSession(db, req.presented)
  {
    var token := db.tokens[req.presented];
    || !token.revoked
    || (exists child: nat :: HasActiveChild(db, req.presented, child))
    || req.now <= token.updatedAt + config.reuseInterval * SECOND
  }

  /** The answer a request gets, rule by rule in the order they are looked at. */
  ghost predicate Deserves(db: Tables, config: Config, req: Request, answer: Answer) {
    if req.presented !in db.tokens then answer == NotFound
    else if req.banned then answer == UserBanned
    else if !HasSession(db, req.presented) then answer == SessionMissing
    else
      var token := db.tokens[req.presented];
      var session := db.sessions[token.session.value];
      if Ended(session, req.start) then answer == SessionExpired(PastNotAfter)
      else if Outlived(session, config.validity.timebox, req.start) then answer == SessionExpired(PastTimebox)
      else if Idle(session, Some(token.updatedAt), config.validity.inactivityTimeout, req.start) then
        answer == SessionExpired(TimedOut)
      else if TooLow(session, req.highest) && Outlived(session, config.validity.allowLowAAL, req.start) then
        answer == SessionExpired(LowAAL)
      else if Outdone(db, config, req) then answer == RevokedByNewer
      else if !Usable(db, config, req) then answer == AlreadyUsed
      else if req.lateFailure then answer == ServerError
      else answer.Granted?
  }

  /** Every request gets exactly the answer that the rules on the stored rows give it. */
  lemma AnsweredExactly(db: Tables, config: Config, req: Request)
    ensures Deserves(db, config, req, Grant(db, config, req).1)
  {
    if HasSession(db, req.presented) {
      var token := db.tokens[req.presented];
      ReasonsExactly(db.sessions[token.session.value], config.validity, req.start, Some(token.updatedAt), req.highest);
      OutdoneIsLosing(db, config, req);
      ActiveChildIsFound(db, req.presented);
    }
  }

  /** When a request is granted: exactly when its token is stored with a session that is still alive, its user is not
      banned, no rival outdoes it, the token may still be used, and nothing fails afterwards. */
  lemma GrantedExactly(db: Tables, config: Config, req: Request)
    ensures Grant(db, config, req).1.Granted? <==>
            && HasSession(db, req.presented) && !req.banned && !req.lateFailure
            && var token := db.tokens[req.presented];
               var session := db.sessions[token.session.value];
            && Alive(session, config.validity, Some(token.updatedAt), req.highest, req.start)
            && !Outdone(db, config, req) && Usable(db, config, req)
  {
    AnsweredExactly(db, config, req);
  }

  function Without(db: Tables, s: nat): Tables {
    db.(sessions := db.sessions - {s})
  }

  /** Sessions that carry different configured tags never turn each other away: whether a request is refused because of
      a newer login is the same with and without a session of another tag. */
  lemma TagsKeepApart(db: Tables, config: Config, req: Request, s: nat)
    requires HasSession(db, req.presented) && s in db.sessions && s != db.tokens[req.presented].session.value
    requires OwnTag(db.sessions[s], config.tags)
    requires OwnTag(db.sessions[db.tokens[req.presented].session.value], config.tags)
    requires db.sessions[s].tag != db.sessions[db.tokens[req.presented].session.value].tag
    ensures Grant(Without(db, s), config, req).1 == RevokedByNewer <==> Grant(db, config, req).1 == RevokedByNewer
  {
    var fewer := Without(db, s);
    AnsweredExactly(db, config, req);
    AnsweredExactly(fewer, config, req);
    forall r: nat ensures Rival(db, config, req, r) <==> Rival(fewer, config, req, r) {
    }
  }

  /** What a granted request leaves: the replayed child and no change of any token, or a new child of the presented
      token, which is revoked from then on; and in both cases the session counts as refreshed at that moment. */
  lemma GrantLeaves(db: Tables, config: Config, req: Request)
    requires Grant(db, config, req).1.Granted?
    ensures HasSession(db, req.presented)
    ensures var (after, answer) := Grant(db, config, req);
            var token := db.tokens[req.presented];
            var sid := token.session.value;
            && after.sessions == db.sessions[sid := db.sessions[sid].(refreshedAt := Some(req.now))]
            && (if token.revoked && HasActiveChild(db, req.presented, answer.token)
                then after.tokens == db.tokens
                else
                  && !(token.revoked && exists child: nat :: HasActiveChild(db, req.presented, child))
                  && answer.token == db.nextToken
                  && after.tokens == db.tokens[req.presented := token.(revoked := true, updatedAt := req.now)]
                       [db.nextToken := Token(token.userId, Some(req.presented), Some(sid), false, req.now, req.now)])
  {
    ActiveChildIsFound(db, req.presented);
    var token := db.tokens[req.presented];
    SwapRows(db, req.presented, req.now);
    if token.revoked && FindActive(db, token.session.value).Some? {
      assert FindActive(db, token.session.value).value in ActiveTokens(db, token.session.value);
    }
  }

  lemma SwapRows(db: Tables, t: nat, now: Time)
    requires HasSession(db, t)
    ensures var token := db.tokens[t];
            Swap(db, token.userId, t, now).tokens ==
            db.tokens[t := token.(revoked := true, updatedAt := now)]
              [db.nextToken := Token(token.userId, Some(t), token.session, false, now, now)]
    ensures Swap(db, db.tokens[t].userId, t, now).sessions == db.sessions
  {
  }

  /** What a refusal leaves: an orphaned token goes, a token used too late takes the unrevoked tokens of its session
      with it when rotation is on, and any other refusal changes nothing. */
  lemma RefusalLeaves(db: Tables, config: Config, req: Request)
    requires !Grant(db, config, req).1.Granted?
    ensures var (after, answer) := Grant(db, config, req);
            && after.sessions == db.sessions
            && (answer == SessionMissing ==> after.tokens == db.tokens - {req.presented})
            && (answer == AlreadyUsed && config.rotation ==>
                  && after.tokens.Keys == db.tokens.Keys
                  && forall t :: t in db.tokens ==>
                       after.tokens[t] ==
                       if db.tokens[t].session == db.tokens[req.presented].session && !db.tokens[t].revoked
                       then db.tokens[t].(revoked := true, updatedAt := req.now)
                       else db.tokens[t])
            && (answer != SessionMissing && !(answer == AlreadyUsed && config.rotation) ==> after == db)
  {
  }

  // ----- sign-ins, swaps and verifications

  /** A sign-in hands out the only token of a session nobody had before, with the given end date, tag and factor, at the
      lowest level; the grant accepts it at once unless the end date is past; every other row is untouched. */
  lemma SignInOpensASession(db: Tables, clock: Time, userId: nat, params: GrantParams, now: Time, config: Config)
    requires Sound(db, clock) && clock <= now && ZERO_TIME < now && ConfigAccepted(config.validity)
    ensures var after, t, sid := SignIn(db, userId, params, now), db.nextToken, db.nextSession;
            && t !in db.tokens && sid !in db.sessions && SessionTokens(db, sid) == {}
            && after.tokens == db.tokens[t := Token(userId, None, Some(sid), false, now, now)]
            && SessionTokens(after, sid) == {t} && FindActive(after, sid) == Some(t)
            && sid in after.sessions && after.sessions == db.sessions[sid := after.sessions[sid]]
            && after.sessions[sid] == Session(userId, params.notAfter, now, None, params.factorId, Some(AAL1),
                                              after.sessions[sid].tag)
            && (params.tag.Some? && params.tag.value != "" ==> after.sessions[sid].tag == params.tag)
            && (params.tag.None? || params.tag.value == "" ==> after.sessions[sid].tag == None)
            && (forall highest :: Precheck(after, config, Request(t, now, now, highest, false, false)).None? <==>
                  !(params.notAfter.Some? && params.notAfter.value < now))
  {
    forall u | u in db.tokens ensures u < db.nextToken && db.tokens[u].session != Some(db.nextSession) {
      assert SoundToken(db, clock, u) && SoundSession(db, clock, db.tokens[u].session.value);
    }
    forall s | s in db.sessions ensures s < db.nextSession { assert SoundSession(db, clock, s); }
    var after, t, sid := SignIn(db, userId, params, now), db.nextToken, db.nextSession;
    assert SessionTokens(after, sid) == {t} && ActiveTokens(after, sid) == {t};
  }

  /** A swap hands the session over: the presented token no longer counts, its new child is what the session finds
      active, and nothing outside the two rows has changed. */
  lemma SwapHandsOver(db: Tables, clock: Time, t: nat, now: Time)
    requires Sound(db, clock) && t in db.tokens
    ensures var after, n, sid := Swap(db, db.tokens[t].userId, t, now), db.nextToken, db.tokens[t].session.value;
            && ActiveTokens(after, sid) == ActiveTokens(db, sid) - {t} + {n}
            && FindActive(after, sid) == Some(n) && after.tokens[n].parent == Some(t)
            && (forall other :: other != sid ==> SessionTokens(after, other) == SessionTokens(db, other))
            && (forall u :: u in db.tokens && u != t ==> u in after.tokens && after.tokens[u] == db.tokens[u])
            && after.sessions == db.sessions
  {
    forall u | u in db.tokens ensures u < db.nextToken { assert SoundToken(db, clock, u); }
    assert SoundToken(db, clock, t);
    var after, n, sid := Swap(db, db.tokens[t].userId, t, now), db.nextToken, db.tokens[t].session.value;
    assert ActiveTokens(after, sid) == ActiveTokens(db, sid) - {t} + {n};
  }

  /** A factor verification swaps the session's oldest token and raises the session to level two; no other session and
      none of its tokens is touched. */
  lemma VerificationRaisesTheSession(db: Tables, clock: Time, sid: nat, t: nat, factor: nat, now: Time)
    requires Sound(db, clock) && sid in db.sessions && IsOldest(db, sid, t)
    ensures var after := VerifyFactor(db, sid, t, factor, now);
            && after.sessions == db.sessions[sid := db.sessions[sid].(aal := Some(AAL2), factorId := Some(factor))]
            && (forall u :: InSession(db, u, sid) ==> db.tokens[t].createdAt <= db.tokens[u].createdAt)
            && FindActive(after, sid) == Some(db.nextToken)
            && after.tokens[db.nextToken].parent == Some(t) && after.tokens[t].revoked
            && (forall u :: u in db.tokens && u != t ==> u in after.tokens && after.tokens[u] == db.tokens[u])
  {
    SwapHandsOver(db, clock, t, now);
    var after, swapped := VerifyFactor(db, sid, t, factor, now), Swap(db, db.tokens[t].userId, t, now);
    assert ActiveTokens(after, sid) == ActiveTokens(swapped, sid);
    assert SoundToken(db, clock, t);
  }
}
