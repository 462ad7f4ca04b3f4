/** Rotation without a reuse window: under a strictly increasing clock, sign-ins and refresh grants
    keep the tokens of every session in one chain, each the parent of the next, with at most the last
    one still usable; and replaying the parent of the active token is harmless. */
module TokenChains {
  import opened Common
  import opened Sessions
  import opened RefreshTokens
  import opened RefreshGrant
  import opened TokenRuns

  predicate SignInOrRefresh(e: Event) {
    e.SignInEvent? || e.RefreshEvent?
  }

  predicate StrictlyTimed(clock: Time, es: seq<Event>)
    decreases |es|
  {
    es == [] || (clock < At(es[0]) && StrictlyTimed(At(es[0]), es[1..]))
  }

  predicate SameSession(db: Tables, t: nat, u: nat)
    requires t in db.tokens
  {
    u in db.tokens && db.tokens[u].session == db.tokens[t].session
  }

  /** The token's parent is the next older token of its session; the first has none. */
  ghost predicate LinkedToken(db: Tables, t: nat)
    requires t in db.tokens
  {
    match db.tokens[t].parent
    case None => forall u: nat :: SameSession(db, t, u) ==> t <= u
    case Some(p) => p < t && SameSession(db, t, p) && forall u: nat :: SameSession(db, t, u) ==> u <= p || t <= u
  }

  ghost predicate Linked(db: Tables) {
    && (forall t :: t in db.tokens ==> LinkedToken(db, t))
    && (forall t, u :: t in db.tokens && SameSession(db, t, u) && t < u ==> db.tokens[t].revoked)
  }

  lemma LinkedSignIn(db: Tables, clock: Time, userId: nat, params: GrantParams, now: Time)
    requires Sound(db, clock) && Linked(db)
    ensures Linked(SignIn(db, userId, params, now))
  {
    var after := SignIn(db, userId, params, now);
    forall t | t in db.tokens ensures SoundToken(db, clock, t) && LinkedToken(after, t) {
      assert SoundToken(db, clock, t);
      assert SoundSession(db, clock, db.tokens[t].session.value);
      assert LinkedToken(db, t);
      assert forall u :: SameSession(after, t, u) ==> SameSession(db, t, u);
    }
    forall u | u in db.tokens ensures !SameSession(after, db.nextToken, u) || u == db.nextToken {
      assert SoundToken(db, clock, u) && SoundSession(db, clock, db.tokens[u].session.value);
    }
    assert LinkedToken(after, db.nextToken);
    forall t, u | t in after.tokens && SameSession(after, t, u) && t < u ensures after.tokens[t].revoked {
      assert SameSession(db, t, u);
    }
  }

  lemma LinkedRevoke(db: Tables, ids: set<nat>, now: Time)
    requires Linked(db)
    ensures Linked(Revoke(db, ids, now))
  {
    var after := Revoke(db, ids, now);
    forall t | t in after.tokens ensures LinkedToken(after, t) {
      assert LinkedToken(db, t);
      assert forall u :: SameSession(after, t, u) <==> SameSession(db, t, u);
    }
    assert forall t, u :: t in after.tokens && SameSession(after, t, u) ==> SameSession(db, t, u);
  }

  lemma LinkedSwapKeeps(db: Tables, clock: Time, t: nat, now: Time, u: nat)
    requires Sound(db, clock) && Linked(db) && t in db.tokens && u in db.tokens
    ensures u < db.nextToken
    ensures LinkedToken(Swap(db, db.tokens[t].userId, t, now), u)
  {
    var after := Swap(db, db.tokens[t].userId, t, now);
    assert SoundToken(db, clock, t) && SoundToken(db, clock, u) && LinkedToken(db, u);
    forall v: nat | SameSession(after, u, v) ensures v == db.nextToken || SameSession(db, u, v) {}
    if db.tokens[u].parent.Some? { assert SameSession(after, u, db.tokens[u].parent.value); }
  }

  lemma LinkedSwapAdds(db: Tables, clock: Time, t: nat, now: Time)
    requires Sound(db, clock) && Linked(db) && t in db.tokens && !db.tokens[t].revoked
    ensures LinkedToken(Swap(db, db.tokens[t].userId, t, now), db.nextToken)
    ensures forall u: nat :: SameSession(db, t, u) ==> u <= t
  {
    assert SoundToken(db, clock, t);
    var after, n := Swap(db, db.tokens[t].userId, t, now), db.nextToken;
    assert forall u: nat :: SameSession(db, t, u) ==> u <= t;
    assert forall u: nat :: SameSession(after, n, u) && u != n ==> SameSession(db, t, u);
    assert SameSession(after, n, t);
  }

  lemma LinkedSwapRevokes(db: Tables, clock: Time, t: nat, now: Time, u: nat, v: nat)
    requires Sound(db, clock) && Linked(db) && t in db.tokens && !db.tokens[t].revoked
    requires var after := Swap(db, db.tokens[t].userId, t, now); u in after.tokens && SameSession(after, u, v) && u < v
    ensures Swap(db, db.tokens[t].userId, t, now).tokens[u].revoked
  {
    assert SoundToken(db, clock, t);
    var after, n := Swap(db, db.tokens[t].userId, t, now), db.nextToken;
    SwapTokens(db, t, now);
    if v in db.tokens {
      assert SoundToken(db, clock, v);
      assert SameSession(db, u, v);
    } else {
      LinkedSwapAdds(db, clock, t, now);
      assert SameSession(db, t, u);
      assert u == t || SameSession(db, u, t);
    }
  }

  /** The token table after a swap, row by row. */
  lemma SwapTokens(db: Tables, t: nat, now: Time)
    requires t in db.tokens && db.tokens[t].session.Some?
    ensures Swap(db, db.tokens[t].userId, t, now).tokens ==
            db.tokens[t := db.tokens[t].(revoked := true, updatedAt := now)]
              [db.nextToken := Token(db.tokens[t].userId, Some(t), db.tokens[t].session, false, now, now)]
    ensures Swap(db, db.tokens[t].userId, t, now).sessions == db.sessions
  {
  }

  lemma LinkedSwap(db: Tables, clock: Time, t: nat, now: Time)
    requires Sound(db, clock) && Linked(db) && t in db.tokens && !db.tokens[t].revoked
    ensures Linked(Swap(db, db.tokens[t].userId, t, now))
  {
    var after := Swap(db, db.tokens[t].userId, t, now);
    forall u | u in after.tokens ensures LinkedToken(after, u) {
      if u == db.nextToken { LinkedSwapAdds(db, clock, t, now); } else { LinkedSwapKeeps(db, clock, t, now, u); }
    }
    forall u: nat, v: nat | u in after.tokens && SameSession(after, u, v) && u < v ensures after.tokens[u].revoked {
      LinkedSwapRevokes(db, clock, t, now, u, v);
    }
  }

  lemma LinkedRefresh(config: Config, db: Tables, clock: Time, req: Request)
    requires config.reuseInterval <= 0
    requires Sound(db, clock) && Linked(db) && clock < req.now
    ensures Linked(Grant(db, config, req).0)
  {
    if req.presented in db.tokens { assert SoundToken(db, clock, req.presented); }
    if Precheck(db, config, req).None? {
      var token := db.tokens[req.presented];
      LinkedRevoke(db, ActiveTokens(db, token.session.value), req.now);
      if !token.revoked { LinkedSwap(db, clock, req.presented, req.now); }
      LinkedIgnoresSessions(db, Grant(db, config, req).0);
      if !token.revoked {
        LinkedIgnoresSessions(Swap(db, token.userId, req.presented, req.now), Grant(db, config, req).0);
      }
      LinkedIgnoresSessions(RevokeSession(db, token.session.value, req.now), Grant(db, config, req).0);
    }
  }

  lemma LinkedStep(config: Config, db: Tables, clock: Time, e: Event)
    requires config.reuseInterval <= 0
    requires Sound(db, clock) && Linked(db) && Enabled(config, db, clock, e)
    requires SignInOrRefresh(e) && clock < At(e)
    ensures Linked(Step(config, db, clock, e))
  {
    match e
    case SignInEvent(userId, params, at) => LinkedSignIn(db, clock, userId, params, at);
    case RefreshEvent(req) => LinkedRefresh(config, db, clock, req);
  }

  lemma LinkedIgnoresSessions(db: Tables, other: Tables)
    ensures db.tokens == other.tokens && Linked(db) ==> Linked(other)
  {
    if db.tokens == other.tokens && Linked(db) {
      forall t | t in other.tokens ensures LinkedToken(other, t) {
        assert LinkedToken(db, t);
        assert forall u :: SameSession(other, t, u) <==> SameSession(db, t, u);
      }
      assert forall t, u :: t in other.tokens && SameSession(other, t, u) ==> SameSession(db, t, u);
    }
  }

  lemma {:induction false} RunsStayLinked(config: Config, db: Tables, clock: Time, es: seq<Event>)
    requires config.reuseInterval <= 0
    requires Sound(db, clock) && Linked(db) && Runs(config, db, clock, es)
    requires (forall e :: e in es ==> SignInOrRefresh(e)) && StrictlyTimed(clock, es)
    ensures Linked(End(config, db, clock, es))
    decreases |es|
  {
    if es != [] {
      assert es[0] in es;
      SoundStep(config, db, clock, es[0]);
      LinkedStep(config, db, clock, es[0]);
      RunsStayLinked(config, Step(config, db, clock, es[0]), At(es[0]), es[1..]);
    }
  }

  /** All tokens of the session, oldest first: the first has no parent, each is the parent of the
      next, and all but the last are revoked. */
  ghost predicate IsChain(db: Tables, sid: nat, chain: seq<nat>) {
    && (forall i :: 0 <= i < |chain| ==> chain[i] in db.tokens)
    && (forall t :: t in chain <==> t in SessionTokens(db, sid))
    && (forall i, j :: 0 <= i < j < |chain| ==> chain[i] < chain[j])
    && (|chain| > 0 ==> db.tokens[chain[0]].parent == None)
    && (forall i :: 0 < i < |chain| ==> db.tokens[chain[i]].parent == Some(chain[i - 1]))
    && (forall i :: 0 <= i < |chain| - 1 ==> db.tokens[chain[i]].revoked)
  }

  ghost predicate HasChain(db: Tables, sid: nat) {
    exists chain: seq<nat> :: IsChain(db, sid, chain)
  }

  /** The chain of a session up to token `t`, read off by following the parents. */
  lemma {:induction false} ChainUpTo(db: Tables, t: nat) returns (chain: seq<nat>)
    requires Linked(db) && t in db.tokens
    ensures forall i :: 0 <= i < |chain| ==> chain[i] in db.tokens
    ensures forall u: nat :: u in chain <==> SameSession(db, t, u) && u <= t
    ensures forall i, j :: 0 <= i < j < |chain| ==> chain[i] < chain[j]
    ensures |chain| > 0 && db.tokens[chain[0]].parent == None && chain[|chain| - 1] == t
    ensures forall i :: 0 < i < |chain| ==> db.tokens[chain[i]].parent == Some(chain[i - 1])
    decreases t
  {
    assert LinkedToken(db, t);
    match db.tokens[t].parent
    case None => chain := [t];
    case Some(p) =>
      var older := ChainUpTo(db, p);
      chain := older + [t];
      assert forall u: nat :: SameSession(db, t, u) <==> SameSession(db, p, u);
      assert forall i :: 0 <= i < |older| ==> older[i] in older;
  }

  lemma LinkedMakesChains(db: Tables, sid: nat)
    requires Linked(db)
    ensures HasChain(db, sid)
  {
    var tokens := SessionTokens(db, sid);
    if tokens == {} {
      assert IsChain(db, sid, []);
    } else {
      var last := MaxOf(tokens);
      var chain := ChainUpTo(db, last);
      forall t ensures t in chain <==> t in tokens {
        assert SameSession(db, last, t) <==> t in tokens;
      }
      forall i | 0 <= i < |chain| - 1 ensures db.tokens[chain[i]].revoked {
        assert chain[i] in chain && chain[i + 1] in chain && chain[i] < chain[i + 1];
        assert SameSession(db, chain[i], chain[i + 1]);
      }
      assert IsChain(db, sid, chain);
    }
  }

  /** With no reuse window and a strictly increasing clock, however sign-ins and refresh grants are
      mixed, the tokens of each session form one chain with at most one unrevoked token. */
  lemma RotationKeepsOneChain(config: Config, es: seq<Event>, sid: nat)
    requires config.reuseInterval <= 0
    requires Runs(config, EMPTY, ZERO_TIME, es)
    requires (forall e :: e in es ==> SignInOrRefresh(e)) && StrictlyTimed(ZERO_TIME, es)
    ensures HasChain(End(config, EMPTY, ZERO_TIME, es), sid)
    ensures var active := ActiveTokens(End(config, EMPTY, ZERO_TIME, es), sid);
            forall t, u :: t in active && u in active ==> t == u
  {
    RunsStayLinked(config, EMPTY, ZERO_TIME, es);
    var db := End(config, EMPTY, ZERO_TIME, es);
    LinkedMakesChains(db, sid);
    forall t, u | t in ActiveTokens(db, sid) && u in ActiveTokens(db, sid) ensures t == u {
      assert SameSession(db, t, u) && SameSession(db, u, t);
    }
  }

  lemma OnlyActive(db: Tables, sid: nat, a: nat)
    requires ActiveTokens(db, sid) == {a}
    ensures FindActive(db, sid) == Some(a)
  {
  }

  /** One more event at the end of a run. */
  lemma {:induction false} RunLast(config: Config, db: Tables, clock: Time, es: seq<Event>, e: Event)
    requires Runs(config, db, clock, es)
    requires Enabled(config, End(config, db, clock, es), EndClock(clock, es), e)
    ensures Runs(config, db, clock, es + [e])
    ensures End(config, db, clock, es + [e]) == Step(config, End(config, db, clock, es), EndClock(clock, es), e)
    decreases |es|
  {
    if es == [] {
      assert es + [e] == [e] + [];
      RunFirst(config, db, clock, e, []);
    } else {
      var next := Step(config, db, clock, es[0]);
      assert EndClock(clock, es) == EndClock(At(es[0]), es[1..]);
      RunLast(config, next, At(es[0]), es[1..], e);
      assert es + [e] == [es[0]] + (es[1..] + [e]);
      RunFirst(config, db, clock, es[0], es[1..] + [e]);
    }
  }

  /** Limits on sessions that four requests within three nanoseconds cannot exceed. */
  predicate Lenient(validity: ValidityConfig) {
    ConfigAccepted(validity) && (validity.timebox.Some? ==> validity.timebox.value >= 3)
  }

  /** A sign-in, then each new token presented once. */
  const TWO_ROTATIONS := [SignInEvent(7, NO_PARAMS, 1), RefreshEvent(Request(0, 2, 2, AAL1, false, false)),
                          RefreshEvent(Request(1, 3, 3, AAL1, false, false))]

  const ROTATED_TWICE := Tables(
    map[0 := Token(7, None, Some(0), true, 1, 2),
        1 := Token(7, Some(0), Some(0), true, 2, 3),
        2 := Token(7, Some(1), Some(0), false, 3, 3)],
    map[0 := Session(7, None, 1, Some(3), None, Some(AAL1), None)], 3, 1)

  /** A rotation in tables with a single session. */
  lemma RotateAlone(config: Config, db: Tables, clock: Time, req: Request, sid: nat)
    requires HasSession(db, req.presented) && db.tokens[req.presented].session == Some(sid)
    requires db.sessions.Keys == {sid} && !db.tokens[req.presented].revoked
    requires Precheck(db, config, req).None? && !req.lateFailure && clock <= req.now && ZERO_TIME < req.now
    ensures Enabled(config, db, clock, RefreshEvent(req))
    ensures var token := db.tokens[req.presented];
            Step(config, db, clock, RefreshEvent(req)) ==
            Touch(Swap(db, token.userId, req.presented, req.now), sid, req.now)
  {
    assert !Superseded(db, config, req);
  }

  lemma TwoRotations(config: Config)
    requires Lenient(config.validity)
    ensures Runs(config, EMPTY, ZERO_TIME, TWO_ROTATIONS)
    ensures End(config, EMPTY, ZERO_TIME, TWO_ROTATIONS) == ROTATED_TWICE
  {
    var es := TWO_ROTATIONS;
    var db1 := Tables(map[0 := Token(7, None, Some(0), false, 1, 1)],
                      map[0 := Session(7, None, 1, None, None, Some(AAL1), None)], 1, 1);
    var db2 := Tables(map[0 := Token(7, None, Some(0), true, 1, 2), 1 := Token(7, Some(0), Some(0), false, 2, 2)],
                      map[0 := Session(7, None, 1, Some(2), None, Some(AAL1), None)], 2, 1);
    assert Step(config, EMPTY, ZERO_TIME, es[0]) == db1;
    RotateAlone(config, db1, 1, es[1].req, 0);
    assert Step(config, db1, 1, es[1]) == db2;
    RotateAlone(config, db2, 2, es[2].req, 0);
    assert Step(config, db2, 2, es[2]) == ROTATED_TWICE;
    RunFirst(config, db2, 2, es[2], []);
    RunFirst(config, db1, 1, es[1], [es[2]]);
    RunFirst(config, EMPTY, ZERO_TIME, es[0], [es[1]] + [es[2]]);
    assert es == [es[0]] + ([es[1]] + [es[2]]);
  }

  /** With any reuse window at all the claim fails: a token rotated twice over, presented again within
      the window, gets a second unrevoked child beside its grandchild. */
  lemma AnyReuseWindowForksTheChain(config: Config, es: seq<Event>)
    requires config.reuseInterval > 0 && Lenient(config.validity)
    requires es == TWO_ROTATIONS + [RefreshEvent(Request(0, 4, 4, AAL1, false, false))]
    ensures Runs(config, EMPTY, ZERO_TIME, es) && StrictlyTimed(ZERO_TIME, es)
    ensures ActiveTokens(End(config, EMPTY, ZERO_TIME, es), 0) == {2, 3}
  {
    TwoRotations(config);
    var db, e := ROTATED_TWICE, es[3];
    assert ActiveTokens(db, 0) == {2};
    OnlyActive(db, 0, 2);
    assert !Superseded(db, config, e.req);
    RunLast(config, EMPTY, ZERO_TIME, TWO_ROTATIONS, e);
    assert ActiveTokens(Step(config, db, 3, e), 0) == {2, 3};
    var e1, e2, e3 := es[1..], es[2..], es[3..];
    assert e1[1..] == e2 && e2[1..] == e3 && e3[1..] == [];
    assert StrictlyTimed(3, e3) && StrictlyTimed(2, e2) && StrictlyTimed(1, e1);
  }

  // ----- replay

  predicate Refusal(answer: Answer) {
    answer.UserBanned? || answer.SessionExpired? || answer.RevokedByNewer? || answer.ServerError?
  }

  ghost predicate Welcome(db: Tables, config: Config, req: Request) {
    && Precheck(db, config, req).None?
    && !Loses(db, config, req)
    && !req.lateFailure
  }

  lemma ReplayOnce(config: Config, db: Tables, req: Request, sid: nat, a: nat)
    requires FindActive(db, sid) == Some(a) && sid in db.sessions
    requires InSession(db, req.presented, sid) && db.tokens[req.presented].revoked
    requires db.tokens[a].parent == Some(req.presented)
    ensures var (after, answer) := Grant(db, config, req);
            && after.tokens == db.tokens
            && sid in after.sessions
            && (answer == Granted(a) || Refusal(answer))
            && (Welcome(db, config, req) ==> answer == Granted(a))
  {
  }

  /** The answers to a series of requests, one after the other. */
  ghost function Answers(config: Config, db: Tables, reqs: seq<Request>): (Tables, seq<Answer>)
    decreases |reqs|
  {
    if reqs == [] then (db, [])
    else
      var (mid, first) := Grant(db, config, reqs[0]);
      var (end, rest) := Answers(config, mid, reqs[1..]);
      (end, [first] + rest)
  }

  /** A client that lost the answer may present the parent of the active token again and again: it
      gets that same active token (or a refusal for an unrelated reason), and no token is added or changed. */
  lemma {:induction false} ReplayIsIdempotent(config: Config, db: Tables, reqs: seq<Request>, sid: nat, parent: nat,
                                              a: nat)
    requires FindActive(db, sid) == Some(a) && sid in db.sessions
    requires InSession(db, parent, sid) && db.tokens[parent].revoked
    requires db.tokens[a].parent == Some(parent)
    requires forall r :: r in reqs ==> r.presented == parent
    ensures var (end, answers) := Answers(config, db, reqs);
            && end.tokens == db.tokens
            && |answers| == |reqs|
            && forall i :: 0 <= i < |answers| ==> answers[i] == Granted(a) || Refusal(answers[i])
    decreases |reqs|
  {
    if reqs != [] {
      assert reqs[0] in reqs;
      ReplayOnce(config, db, reqs[0], sid, a);
      var mid := Grant(db, config, reqs[0]).0;
      assert ActiveTokens(mid, sid) == ActiveTokens(db, sid);
      ReplayIsIdempotent(config, mid, reqs[1..], sid, parent, a);
    }
  }
}
