/** One active session per user and tag: a session that lost to a newer one keeps losing. */
module SingleSession {
  import opened Common
  import opened Sessions
  import opened RefreshTokens
  import opened RefreshGrant
  import opened TokenRuns
  import opened TokenChains

  predicate Plain(e: Event) {
    e.SignInEvent? || e.RefreshEvent? || e.LogoutEvent?
  }

  /** When the session was last seen, without looking at any token. */
  function Seen(s: Session): Time {
    LastRefreshedAt(s, None)
  }

  /** A session that was never refreshed still has its tokens as sign-in made them. */
  ghost predicate Untouched(db: Tables) {
    forall t :: t in db.tokens && HasSession(db, t) && db.sessions[db.tokens[t].session.value].refreshedAt.None? ==>
      !db.tokens[t].revoked && db.tokens[t].updatedAt == db.sessions[db.tokens[t].session.value].createdAt
  }

  lemma UntouchedShape(db: Tables, clock: Time, req: Request, after: Tables)
    requires Sound(db, clock) && Untouched(db) && GrantShape(db, req, after)
    ensures Untouched(after)
  {
    if req.presented in db.tokens { assert SoundToken(db, clock, req.presented); }
    forall t | t in after.tokens && HasSession(after, t)
      && after.sessions[after.tokens[t].session.value].refreshedAt.None?
      ensures !after.tokens[t].revoked
              && after.tokens[t].updatedAt == after.sessions[after.tokens[t].session.value].createdAt
    {
      if t in db.tokens { assert SoundToken(db, clock, t) && SoundSession(db, clock, db.tokens[t].session.value); }
    }
  }

  lemma UntouchedStep(config: Config, db: Tables, clock: Time, e: Event)
    requires Sound(db, clock) && Untouched(db) && Enabled(config, db, clock, e) && Plain(e)
    ensures Untouched(Step(config, db, clock, e))
  {
    if e.RefreshEvent? {
      GrantHasShape(db, config, e.req);
      UntouchedShape(db, clock, e.req, Grant(db, config, e.req).0);
    } else {
      UntouchedPlain(config, db, clock, e);
    }
  }

  lemma UntouchedPlain(config: Config, db: Tables, clock: Time, e: Event)
    requires Sound(db, clock) && Untouched(db) && Enabled(config, db, clock, e) && (e.SignInEvent? || e.LogoutEvent?)
    ensures Untouched(Step(config, db, clock, e))
  {
    var after := Step(config, db, clock, e);
    forall t | t in after.tokens && HasSession(after, t)
      && after.sessions[after.tokens[t].session.value].refreshedAt.None?
      ensures !after.tokens[t].revoked
              && after.tokens[t].updatedAt == after.sessions[after.tokens[t].session.value].createdAt
    {
      if t in db.tokens { assert SoundToken(db, clock, t) && SoundSession(db, clock, db.tokens[t].session.value); }
    }
  }

  /** Whatever token of an untouched session is presented, the session counts as last seen at the same time. */
  lemma SeenThroughAnyToken(db: Tables, clock: Time, t: nat)
    requires Sound(db, clock) && Untouched(db) && t in db.tokens
    ensures HasSession(db, t)
    ensures LastRefreshedAt(db.sessions[db.tokens[t].session.value], Some(db.tokens[t].updatedAt))
            == Seen(db.sessions[db.tokens[t].session.value])
  {
    assert SoundToken(db, clock, t) && SoundSession(db, clock, db.tokens[t].session.value);
  }

  /** `winner` was seen after `loser`, and the two compete: same user, same tag. */
  predicate Behind(db: Tables, config: Config, loser: nat, winner: nat) {
    && loser in db.sessions && winner in db.sessions && winner != loser
    && db.sessions[winner].userId == db.sessions[loser].userId
    && TagOf(db.sessions[winner], config.tags) == TagOf(db.sessions[loser], config.tags)
    && Seen(db.sessions[winner]) > Seen(db.sessions[loser])
  }

  predicate WinnerValid(db: Tables, config: Config, req: Request, winner: nat) {
    winner in db.sessions && CheckValidity(db.sessions[winner], config.validity, req.start, None, req.highest) == Valid
  }

  /** A request turned away by the single-session rule has lost to some valid session. */
  lemma RejectionNamesAWinner(db: Tables, clock: Time, config: Config, req: Request) returns (winner: nat)
    requires Sound(db, clock) && Untouched(db)
    requires Grant(db, config, req).1 == RevokedByNewer
    ensures HasSession(db, req.presented)
    ensures Behind(db, config, db.tokens[req.presented].session.value, winner) && WinnerValid(db, config, req, winner)
  {
    SeenThroughAnyToken(db, clock, req.presented);
    assert SoundToken(db, clock, req.presented);
    var token := db.tokens[req.presented];
    winner :| winner in db.sessions
              && Beats(db.sessions, config, req.start, req.highest, token.userId, winner, token.session.value,
                       token.updatedAt);
  }

  lemma LoserRefused(db: Tables, clock: Time, config: Config, req: Request, loser: nat, winner: nat)
    requires config.singlePerUser && Sound(db, clock) && Untouched(db)
    requires Behind(db, config, loser, winner)
    requires InSession(db, req.presented, loser) && WinnerValid(db, config, req, winner)
    ensures !Grant(db, config, req).1.Granted? && Grant(db, config, req).0 == db
  {
    SeenThroughAnyToken(db, clock, req.presented);
    assert SoundToken(db, clock, req.presented);
    var token := db.tokens[req.presented];
    assert Beats(db.sessions, config, req.start, req.highest, token.userId, winner, loser, token.updatedAt);
  }

  /** Along the run the winner stays stored, and is valid whenever a token of the loser is presented. */
  ghost predicate WinnerHolds(config: Config, db: Tables, clock: Time, es: seq<Event>, loser: nat, winner: nat)
    requires Runs(config, db, clock, es)
    decreases |es|
  {
    && winner in db.sessions
    && (es != [] ==>
          && (es[0].RefreshEvent? && InSession(db, es[0].req.presented, loser) ==>
                WinnerValid(db, config, es[0].req, winner))
          && WinnerHolds(config, Step(config, db, clock, es[0]), At(es[0]), es[1..], loser, winner))
  }

  /** No request along the run that presents a token of session `sid` is granted. */
  ghost predicate NeverGranted(config: Config, db: Tables, clock: Time, es: seq<Event>, sid: nat)
    requires Runs(config, db, clock, es)
    decreases |es|
  {
    es != [] ==>
      && (es[0].RefreshEvent? && InSession(db, es[0].req.presented, sid) ==> !Grant(db, config, es[0].req).1.Granted?)
      && NeverGranted(config, Step(config, db, clock, es[0]), At(es[0]), es[1..], sid)
  }

  lemma BehindShape(db: Tables, clock: Time, config: Config, req: Request, after: Tables, loser: nat, winner: nat)
    requires Sound(db, clock) && clock < req.now && Behind(db, config, loser, winner) && GrantShape(db, req, after)
    requires InSession(db, req.presented, loser) ==> after == db
    ensures Behind(after, config, loser, winner) && after.sessions[loser] == db.sessions[loser]
  {
    assert SoundSession(db, clock, winner) && SoundSession(db, clock, loser);
    if req.presented in db.tokens { assert SoundToken(db, clock, req.presented); }
  }

  lemma BehindStep(config: Config, db: Tables, clock: Time, e: Event, loser: nat, winner: nat)
    requires config.singlePerUser && Sound(db, clock) && Untouched(db) && Enabled(config, db, clock, e) && Plain(e)
    requires clock < At(e)
    requires Behind(db, config, loser, winner)
    requires e.RefreshEvent? && InSession(db, e.req.presented, loser) ==> WinnerValid(db, config, e.req, winner)
    requires winner in Step(config, db, clock, e).sessions && loser in Step(config, db, clock, e).sessions
    ensures Behind(Step(config, db, clock, e), config, loser, winner)
    ensures Step(config, db, clock, e).sessions[loser] == db.sessions[loser]
  {
    if e.RefreshEvent? {
      GrantHasShape(db, config, e.req);
      if InSession(db, e.req.presented, loser) {
        LoserRefused(db, clock, config, e.req, loser, winner);
      }
      BehindShape(db, clock, config, e.req, Grant(db, config, e.req).0, loser, winner);
    } else {
      assert SoundSession(db, clock, winner) && SoundSession(db, clock, loser);
    }
  }

  /** Over every run of sign-ins, refresh grants and logouts under a strictly increasing clock: a session
      that lost to another keeps being refused, and its own row does not move, for as long as the other
      session stays stored and valid. (If the loser itself is logged out, nothing is left to refuse.) */
  lemma {:induction false} LosersKeepLosing(config: Config, db: Tables, clock: Time, es: seq<Event>, loser: nat,
                                            winner: nat)
    requires config.singlePerUser && Sound(db, clock) && Untouched(db) && Runs(config, db, clock, es)
    requires (forall e :: e in es ==> Plain(e)) && StrictlyTimed(clock, es)
    requires loser < db.nextSession
    requires loser in db.sessions ==> Behind(db, config, loser, winner)
    requires WinnerHolds(config, db, clock, es, loser, winner)
    ensures NeverGranted(config, db, clock, es, loser)
    ensures var end := End(config, db, clock, es);
            loser in end.sessions ==> loser in db.sessions && end.sessions[loser] == db.sessions[loser]
                                      && Behind(end, config, loser, winner)
    decreases |es|
  {
    if es != [] {
      var e := es[0];
      assert e in es;
      var next := Step(config, db, clock, e);
      SoundStep(config, db, clock, e);
      UntouchedStep(config, db, clock, e);
      if e.RefreshEvent? && e.req.presented in db.tokens { assert SoundToken(db, clock, e.req.presented); }
      if e.RefreshEvent? && InSession(db, e.req.presented, loser) {
        LoserRefused(db, clock, config, e.req, loser, winner);
      }
      assert winner in next.sessions;
      if loser in next.sessions { BehindStep(config, db, clock, e, loser, winner); }
      assert forall e :: e in es[1..] ==> e in es;
      LosersKeepLosing(config, next, At(e), es[1..], loser, winner);
    }
  }

  lemma {:induction false} UntouchedRun(config: Config, db: Tables, clock: Time, es: seq<Event>)
    requires Sound(db, clock) && Untouched(db) && Runs(config, db, clock, es)
    requires forall e :: e in es ==> Plain(e)
    ensures Untouched(End(config, db, clock, es))
    decreases |es|
  {
    if es != [] {
      assert es[0] in es;
      SoundStep(config, db, clock, es[0]);
      UntouchedStep(config, db, clock, es[0]);
      UntouchedRun(config, Step(config, db, clock, es[0]), At(es[0]), es[1..]);
    }
  }

  /** From the first sign-in on: whenever a request is refused because of a newer login, there is a session to
      blame, and as long as that session holds, every later request for the refused session is refused too. */
  lemma RefusedByNewerStaysRefused(config: Config, es: seq<Event>, req: Request, later: seq<Event>)
      returns (winner: nat)
    requires config.singlePerUser && Runs(config, EMPTY, ZERO_TIME, es)
    requires forall e :: e in es ==> Plain(e)
    requires var db, clock := End(config, EMPTY, ZERO_TIME, es), EndClock(ZERO_TIME, es);
             && Grant(db, config, req).1 == RevokedByNewer
             && Runs(config, db, clock, later) && (forall e :: e in later ==> Plain(e)) && StrictlyTimed(clock, later)
    ensures var db, clock := End(config, EMPTY, ZERO_TIME, es), EndClock(ZERO_TIME, es);
            && HasSession(db, req.presented)
            && (WinnerHolds(config, db, clock, later, db.tokens[req.presented].session.value, winner) ==>
                  NeverGranted(config, db, clock, later, db.tokens[req.presented].session.value))
  {
    EveryRunIsSound(config, EMPTY, ZERO_TIME, es);
    UntouchedRun(config, EMPTY, ZERO_TIME, es);
    var db, clock := End(config, EMPTY, ZERO_TIME, es), EndClock(ZERO_TIME, es);
    winner := RejectionNamesAWinner(db, clock, config, req);
    var loser := db.tokens[req.presented].session.value;
    assert SoundSession(db, clock, loser);
    if WinnerHolds(config, db, clock, later, loser, winner) {
      LosersKeepLosing(config, db, clock, later, loser, winner);
    }
  }
}
