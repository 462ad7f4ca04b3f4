/** The refresh_token grant: pre-checks, the locked transaction with its single-session rule, replay
    and reuse detection, and the retry loop around it. All clock readings taken inside one
    transaction are one instant, `now`; `start` is the instant the request arrived. */
module RefreshGrant {
  import opened Common
  import opened Sessions
  import opened RefreshTokens
  import opened Transactions

  datatype Config = Config(
    validity: ValidityConfig,
    singlePerUser: bool,
    tags: seq<string>,
    reuseInterval: int,
    rotation: bool)

  /** `highest` and `banned` are what the user row says; `lateFailure` is the outcome of the calls that
      can still fail after the rows were written (audit log, hook, token signing). */
  datatype Request = Request(
    presented: nat,
    start: Time,
    now: Time,
    highest: AssuranceLevel,
    banned: bool,
    lateFailure: bool)

  datatype Answer =
    | Granted(token: nat)
    | NotFound
    | UserBanned
    | SessionMissing
    | SessionExpired(reason: Validity)
    | RevokedByNewer
    | AlreadyUsed
    | ServerError
    | TooManyConcurrent

  predicate HasSession(db: Tables, t: nat) {
    && t in db.tokens
    && db.tokens[t].session.Some?
    && db.tokens[t].session.value in db.sessions
  }

  /** Session `s` beats session `sid`: same user, same tag, still valid, and refreshed later than `sid`
      as seen through the presented token's `updated_at`. */
  predicate Beats(sessions: map<nat, Session>, config: Config, start: Time, highest: AssuranceLevel,
                  userId: nat, s: nat, sid: nat, tokenTime: Time)
    requires sid in sessions
  {
    && s in sessions
    && s != sid
    && sessions[s].userId == userId
    && CheckValidity(sessions[s], config.validity, start, None, highest) == Valid
    && TagOf(sessions[s], config.tags) == TagOf(sessions[sid], config.tags)
    && LastRefreshedAt(sessions[s], None) > LastRefreshedAt(sessions[sid], Some(tokenTime))
  }

  ghost predicate Superseded(db: Tables, config: Config, req: Request)
    requires HasSession(db, req.presented)
  {
    var token := db.tokens[req.presented];
    exists s :: s in db.sessions
                && Beats(db.sessions, config, req.start, req.highest, token.userId, s, token.session.value,
                         token.updatedAt)
  }

  /** What to do with the presented token once its row and session are locked. */
  datatype Decision = Reject | Rotate | Replay(active: nat) | Reuse

  ghost function Decide(db: Tables, config: Config, req: Request, superseded: bool): Decision
    requires HasSession(db, req.presented)
  {
    var token := db.tokens[req.presented];
    var active := FindActive(db, token.session.value);
    if superseded then Reject
    else if !token.revoked then Rotate
    else if active.Some? && db.tokens[active.value].parent == Some(req.presented) then Replay(active.value)
    else if req.now > token.updatedAt + config.reuseInterval * SECOND then Reuse
    else Rotate
  }

  function Touch(db: Tables, sid: nat, now: Time): Tables
    requires sid in db.sessions
  {
    db.(sessions := db.sessions[sid := db.sessions[sid].(refreshedAt := Some(now))])
  }

  function Finish(db: Tables, sid: nat, issued: nat, req: Request): (Tables, TxError<Answer>)
    requires sid in db.sessions
  {
    if req.lateFailure then (db, Plain(ServerError)) else (Touch(db, sid, req.now), NoError)
  }

  /** The single-session rule, when it is switched on. */
  ghost predicate Loses(db: Tables, config: Config, req: Request)
    requires HasSession(db, req.presented)
  {
    config.singlePerUser && Superseded(db, config, req)
  }

  /** The transaction body, once the single-session rule has spoken: the tables as it leaves them,
      the error it returns, the token it issues. */
  ghost function Body(db: Tables, config: Config, req: Request, superseded: bool): (Tables, TxError<Answer>, nat)
    requires HasSession(db, req.presented)
  {
    var token := db.tokens[req.presented];
    var sid := token.session.value;
    match Decide(db, config, req, superseded)
    case Reject => (db, Plain(RevokedByNewer), 0)
    case Reuse =>
      (if config.rotation then RevokeFamily(db, req.presented, req.now) else db, CommitWithError(AlreadyUsed), 0)
    case Replay(active) =>
      var (after, err) := Finish(db, sid, active, req);
      (after, err, active)
    case Rotate =>
      var (after, err) := Finish(Swap(db, token.userId, req.presented, req.now), sid, db.nextToken, req);
      (after, err, db.nextToken)
  }

  ghost function InTransaction(db: Tables, config: Config, req: Request): (Tables, Answer)
    requires HasSession(db, req.presented)
  {
    var (after, err, issued) := Body(db, config, req, Loses(db, config, req));
    var (left, told) := Settle(db, after, err);
    (left, if told.NoError? then Granted(issued) else told.error)
  }

  /** The checks made before any lock is taken; `None` lets the request through. */
  function Precheck(db: Tables, config: Config, req: Request): Option<Answer> {
    if req.presented !in db.tokens then Some(NotFound)
    else if req.banned then Some(UserBanned)
    else if !HasSession(db, req.presented) then Some(SessionMissing)
    else
      var token := db.tokens[req.presented];
      var reason := CheckValidity(db.sessions[token.session.value], config.validity, req.start,
                                  Some(token.updatedAt), req.highest);
      if reason != Valid then Some(SessionExpired(reason)) else None
  }

  /** One unlocked attempt, start to end. A token whose session is gone is destroyed on sight. */
  ghost function Grant(db: Tables, config: Config, req: Request): (Tables, Answer) {
    match Precheck(db, config, req)
    case Some(answer) => (if answer.SessionMissing? then DeleteTokens(db, {req.presented}) else db, answer)
    case None => InTransaction(db, config, req)
  }

  /** What an attempt can have made of the tables. */
  ghost predicate GrantShape(db: Tables, req: Request, after: Tables) {
    || after == db
    || (!HasSession(db, req.presented) && after == DeleteTokens(db, {req.presented}))
    || (HasSession(db, req.presented)
        && var token := db.tokens[req.presented];
           || after == Touch(db, token.session.value, req.now)
           || after == Touch(Swap(db, token.userId, req.presented, req.now), token.session.value, req.now)
           || (token.revoked && after == RevokeFamily(db, req.presented, req.now)))
  }

  lemma GrantHasShape(db: Tables, config: Config, req: Request)
    ensures GrantShape(db, req, Grant(db, config, req).0)
  {
  }

  // ----- the same, statement by statement on the store

  method PrecheckStore(store: TokenStore, config: Config, req: Request) returns (answer: Option<Answer>)
    modifies store
    ensures answer == Precheck(old(store.View()), config, req)
    ensures store.View() == if answer == Some(SessionMissing) then DeleteTokens(old(store.View()), {req.presented})
                            else old(store.View())
  {
    if req.presented !in store.tokens { return Some(NotFound); }
    var token := store.tokens[req.presented];
    if req.banned { return Some(UserBanned); }
    if token.session.None? || token.session.value !in store.sessions {
      store.tokens := map t | t in store.tokens && t != req.presented :: store.tokens[t];
      return Some(SessionMissing);
    }
    var reason := CheckValidity(store.sessions[token.session.value], config.validity, req.start,
                                Some(token.updatedAt), req.highest);
    if reason != Valid { return Some(SessionExpired(reason)); }
    return None;
  }

  /** The loop over all sessions of the user, in whatever order the rows come back. */
  method MostRecentSession(store: TokenStore, config: Config, req: Request) returns (superseded: bool)
    requires HasSession(store.View(), req.presented)
    ensures superseded == Superseded(store.View(), config, req)
  {
    var token := store.tokens[req.presented];
    var sid := token.session.value;
    var session := store.sessions[sid];
    var tag := DetermineTag(session, config.tags);
    var rows: set<nat> := set s | s in store.sessions && store.sessions[s].userId == token.userId;
    while rows != {}
      invariant forall s :: s in rows ==> s in store.sessions && store.sessions[s].userId == token.userId
      invariant forall s :: s in store.sessions
                            && Beats(store.sessions, config, req.start, req.highest, token.userId, s, sid,
                                     token.updatedAt) ==>
                  s in rows
      decreases |rows|
    {
      var s :| s in rows;
      rows := rows - {s};
      if s == sid { continue; }
      var other := store.sessions[s];
      if CheckValidity(other, config.validity, req.start, None, req.highest) != Valid { continue; }
      var otherTag := DetermineTag(other, config.tags);
      if otherTag != tag { continue; }
      if LastRefreshedAt(other, None) > LastRefreshedAt(session, Some(token.updatedAt)) {
        assert Beats(store.sessions, config, req.start, req.highest, token.userId, s, sid, token.updatedAt);
        return true;
      }
    }
    return false;
  }

  /** The transaction body on the store, with the error it returns. */
  method BodyOnStore(store: TokenStore, config: Config, req: Request) returns (err: TxError<Answer>, issued: nat)
    requires HasSession(store.View(), req.presented)
    modifies store
    ensures (store.View(), err, issued) == Body(old(store.View()), config, req, Loses(old(store.View()), config, req))
  {
    var token := store.tokens[req.presented];
    var sid := token.session.value;
    issued := 0;
    if config.singlePerUser {
      var superseded := MostRecentSession(store, config, req);
      if superseded { return Plain(RevokedByNewer), 0; }
    }
    var reuseActive := false;
    if token.revoked {
      var active := store.FindCurrentlyActiveRefreshToken(sid);
      if active.Some? && store.tokens[active.value].parent == Some(req.presented) {
        issued := active.value;
        reuseActive := true;
      } else if req.now > token.updatedAt + config.reuseInterval * SECOND {
        if config.rotation {
          store.RevokeTokenFamily(req.presented, req.now);
        }
        return CommitWithError(AlreadyUsed), 0;
      }
    }
    if !reuseActive {
      issued := store.GrantRefreshTokenSwap(token.userId, req.presented, req.now);
    }
    if req.lateFailure { return Plain(ServerError), issued; }
    store.sessions := store.sessions[sid := store.sessions[sid].(refreshedAt := Some(req.now))];
    return NoError, issued;
  }

  method TransactionOnStore(store: TokenStore, config: Config, req: Request) returns (answer: Answer)
    requires HasSession(store.View(), req.presented)
    modifies store
    ensures (store.View(), answer) == InTransaction(old(store.View()), config, req)
  {
    var tokens, sessions, nextToken, nextSession :=
      store.tokens, store.sessions, store.nextToken, store.nextSession;
    var err, issued := BodyOnStore(store, config, req);
    match err
    case NoError => answer := Granted(issued);
    case CommitWithError(e) => answer := e;
    case Plain(e) =>
      answer := e;
      store.tokens, store.sessions, store.nextToken, store.nextSession := tokens, sessions, nextToken, nextSession;
  }

  /** The world as the `i`-th attempt finds it: the tables other requests have left, the time spent
      since the request arrived, and whether one of the needed rows is locked by somebody else. */
  datatype Moment = Moment(db: Tables, elapsed: int, locked: bool)

  /** The attempt gets past the checks and finds a row locked. */
  predicate Blocked(here: Moment, config: Config, req: Request) {
    here.locked && Precheck(here.db, config, req).None?
  }

  /** The attempt leaves the tables and gives the answer of a grant. */
  ghost predicate Grants(here: Moment, config: Config, req: Request, after: Tables, answer: Answer) {
    (after, answer) == Grant(here.db, config, req)
  }

  /** One pass through the retry loop; `None` asks for another. */
  method Attempt(store: TokenStore, config: Config, req: Request, here: Moment) returns (answer: Option<Answer>)
    modifies store
    ensures answer.None? <==> Blocked(here, config, req)
    ensures answer.None? ==> store.View() == here.db
    ensures answer.Some? ==> Grants(here, config, req, store.View(), answer.value)
    ensures answer != Some(TooManyConcurrent)
  {
    store.tokens, store.sessions, store.nextToken, store.nextSession :=
      here.db.tokens, here.db.sessions, here.db.nextToken, here.db.nextSession;
    assert store.View() == here.db;
    answer := PrecheckStore(store, config, req);
    if answer.Some? || here.locked { return; }
    var settled := TransactionOnStore(store, config, req);
    answer := Some(settled);
  }

  const RETRY_BUDGET: int := 5_000_000_000 // five seconds
  const MIN_SLEEP: int := 10_000_000 // ten milliseconds

  /** The retry loop. Every retry sleeps at least ten milliseconds inside a five-second budget, so it
      makes at most 500 attempts. It answers with the first attempt that finds its rows unlocked (or
      fails a pre-check); only when every attempt found them locked does it give up, having changed nothing. */
  method RefreshTokenGrant(store: TokenStore, config: Config, req: Request, world: nat -> Moment)
    returns (answer: Answer, attempts: nat)
    requires world(0).elapsed >= 0
    requires forall i: nat, j: nat :: j == i + 1 ==> world(j).elapsed >= world(i).elapsed + MIN_SLEEP
    modifies store
    ensures attempts <= 500
    ensures forall i: nat {:trigger Blocked(world(i), config, req)} :: i + 1 < attempts ==>
              Blocked(world(i), config, req)
    ensures answer != TooManyConcurrent ==>
              attempts > 0 && Grants(world(attempts - 1), config, req, store.View(), answer)
    ensures answer == TooManyConcurrent ==>
              && world(attempts).elapsed >= RETRY_BUDGET
              && (attempts > 0 ==> store.View() == world(attempts - 1).db && world(attempts - 1).locked)
  {
    attempts := 0;
    var retry := true;
    while retry && world(attempts).elapsed < RETRY_BUDGET
      invariant retry
      invariant world(attempts).elapsed >= attempts * MIN_SLEEP
      invariant attempts <= 500
      invariant forall i: nat {:trigger Blocked(world(i), config, req)} :: i < attempts ==>
                  Blocked(world(i), config, req)
      invariant attempts > 0 ==> store.View() == world(attempts - 1).db
      decreases 500 - attempts
    {
      var reply := Attempt(store, config, req, world(attempts));
      assert world(attempts + 1).elapsed >= world(attempts).elapsed + MIN_SLEEP;
      attempts := attempts + 1;
      retry := reply.None?;
      if !retry {
        return reply.value, attempts;
      }
    }
    assert attempts > 0 ==> Blocked(world(attempts - 1), config, req);
    answer := TooManyConcurrent;
  }
}
