/** The refresh-token and session tables, and what each statement on them does.

    A token's random string is represented by its serial number: both are unique, and neither is ever
    handed out twice. `Tables` is the content of the two tables as a value; class `TokenStore` holds
    the same content in fields and changes it statement by statement. */
module RefreshTokens {
  import opened Common
  import opened Sessions

  datatype Token = Token(
    userId: nat,
    parent: Option<nat>,
    session: Option<nat>,
    revoked: bool,
    createdAt: Time,
    updatedAt: Time)

  datatype Tables = Tables(
    tokens: map<nat, Token>,
    sessions: map<nat, Session>,
    nextToken: nat,
    nextSession: nat)

  const EMPTY := Tables(map[], map[], 0, 0)

  /** Parameters a sign-in may fix on the session it opens. */
  datatype GrantParams = GrantParams(factorId: Option<nat>, notAfter: Option<Time>, tag: Option<string>)

  const NO_PARAMS := GrantParams(None, None, None)

  predicate InSession(db: Tables, t: nat, sid: nat) {
    t in db.tokens && db.tokens[t].session == Some(sid)
  }

  function SessionTokens(db: Tables, sid: nat): set<nat> {
    set t | t in db.tokens && db.tokens[t].session == Some(sid)
  }

  function ActiveTokens(db: Tables, sid: nat): set<nat> {
    set t | t in db.tokens && db.tokens[t].session == Some(sid) && !db.tokens[t].revoked
  }

  /** `session_id = ? and revoked is false order by id desc limit 1` */
  ghost function FindActive(db: Tables, sid: nat): Option<nat> {
    if ActiveTokens(db, sid) == {} then None else Some(MaxOf(ActiveTokens(db, sid)))
  }

  /** `session_id = ? order by created_at asc limit 1`: any of the rows created first. */
  predicate IsOldest(db: Tables, sid: nat, t: nat) {
    && InSession(db, t, sid)
    && forall u :: u in db.tokens && db.tokens[u].session == Some(sid) ==>
         db.tokens[t].createdAt <= db.tokens[u].createdAt
  }

  function NewSession(userId: nat, params: GrantParams, now: Time): Session {
    Session(userId, params.notAfter, now, None, params.factorId, Some(AAL1),
            if params.tag.Some? && params.tag.value != "" then params.tag else None)
  }

  /** A row for a brand-new token; a token without a session to inherit opens a new one. */
  function CreateToken(db: Tables, userId: nat, parent: Option<nat>, session: Option<nat>,
                       params: GrantParams, now: Time): Tables
  {
    var base :=
      if session.Some? then db
      else db.(sessions := db.sessions[db.nextSession := NewSession(userId, params, now)],
               nextSession := db.nextSession + 1);
    var sid := if session.Some? then session else Some(db.nextSession);
    base.(tokens := base.tokens[db.nextToken := Token(userId, parent, sid, false, now, now)],
            nextToken := db.nextToken + 1)
  }

  function SignIn(db: Tables, userId: nat, params: GrantParams, now: Time): Tables {
    CreateToken(db, userId, None, None, params, now)
  }

  function Revoke(db: Tables, ids: set<nat>, now: Time): Tables {
    db.(tokens := map t | t in db.tokens ::
                    if t in ids then db.tokens[t].(revoked := true, updatedAt := now) else db.tokens[t])
  }

  /** The presented row is revoked (which also moves its `updated_at`) and a child replaces it. */
  function Swap(db: Tables, userId: nat, t: nat, now: Time): Tables
    requires t in db.tokens
  {
    CreateToken(Revoke(db, {t}, now), userId, Some(t), db.tokens[t].session, NO_PARAMS, now)
  }

  function RevokeSession(db: Tables, sid: nat, now: Time): Tables {
    Revoke(db, ActiveTokens(db, sid), now)
  }

  function DeleteTokens(db: Tables, ids: set<nat>): Tables {
    db.(tokens := map t | t in db.tokens && t !in ids :: db.tokens[t])
  }

  /** Deleting sessions cascades to their tokens. */
  function DeleteSessions(db: Tables, ids: set<nat>): Tables {
    db.(sessions := map s | s in db.sessions && s !in ids :: db.sessions[s],
        tokens := map t | t in db.tokens && (db.tokens[t].session.Some? ==> db.tokens[t].session.value !in ids)
                    :: db.tokens[t])
  }

  // ----- the token family: what the recursive query collects

  function Children(tokens: map<nat, Token>, of: set<nat>): set<nat> {
    set t | t in tokens && tokens[t].parent.Some? && tokens[t].parent.value in of
  }

  /** `d` is `steps + 1` parent links below `a`, every row on the way being stored. */
  predicate DescendsBy(tokens: map<nat, Token>, a: nat, d: nat, steps: nat)
    decreases steps
  {
    && d in tokens
    && tokens[d].parent.Some?
    && (if steps == 0 then tokens[d].parent.value == a
        else DescendsBy(tokens, a, tokens[d].parent.value, steps - 1))
  }

  ghost predicate Descends(tokens: map<nat, Token>, a: nat, d: nat) {
    exists steps: nat :: DescendsBy(tokens, a, d, steps)
  }

  lemma {:induction false} ClosedSetHoldsDescendants(tokens: map<nat, Token>, a: nat, family: set<nat>, d: nat,
                                                     steps: nat)
    requires Children(tokens, {a}) <= family
    requires Children(tokens, family) <= family
    requires DescendsBy(tokens, a, d, steps)
    ensures d in family
    decreases steps
  {
    if steps == 0 {
      assert d in Children(tokens, {a});
    } else {
      ClosedSetHoldsDescendants(tokens, a, family, tokens[d].parent.value, steps - 1);
      assert d in Children(tokens, family);
    }
  }

  /** The recursive query `token_family`, evaluated as the database does: every round joins the rows
      found in the previous round against the table and keeps those not seen before. It collects
      exactly the stored descendants, whatever the parent links look like (cycles included), and
      stops after at most one productive round per stored token. */
  method TokenFamily(tokens: map<nat, Token>, a: nat) returns (family: set<nat>, rounds: nat)
    ensures forall d :: d in family <==> Descends(tokens, a, d)
    ensures rounds <= |tokens|
  {
    var working := Children(tokens, {a});
    family := working;
    rounds := 0;
    assert forall d :: d in family ==> DescendsBy(tokens, a, d, 0);
    while working != {}
      invariant working <= family <= tokens.Keys
      invariant Children(tokens, {a}) <= family
      invariant Children(tokens, family - working) <= family
      invariant forall d :: d in family ==> Descends(tokens, a, d)
      invariant rounds <= |family - working|
      decreases |tokens.Keys - family| + (if working == {} then 0 else 1), |tokens.Keys - family|
    {
      var next := Children(tokens, working) - family;
      FamilyRound(tokens, a, family, working, next);
      working, family, rounds := next, family + next, rounds + 1;
    }
    assert family - working == family;
    SubsetSize(family, tokens.Keys);
    forall d | Descends(tokens, a, d) ensures d in family {
      var steps: nat :| DescendsBy(tokens, a, d, steps);
      ClosedSetHoldsDescendants(tokens, a, family, d, steps);
    }
  }

  lemma FamilyRound(tokens: map<nat, Token>, a: nat, family: set<nat>, working: set<nat>, next: set<nat>)
    requires working <= family <= tokens.Keys
    requires working != {}
    requires Children(tokens, family - working) <= family
    requires forall d :: d in family ==> Descends(tokens, a, d)
    requires next == Children(tokens, working) - family
    ensures family + next <= tokens.Keys
    ensures Children(tokens, (family + next) - next) <= family + next
    ensures forall d :: d in next ==> Descends(tokens, a, d)
    ensures |family - working| + 1 <= |(family + next) - next|
    ensures next != {} ==> |tokens.Keys - (family + next)| < |tokens.Keys - family|
    ensures next == {} ==> tokens.Keys - (family + next) == tokens.Keys - family
  {
    assert (family + next) - next == family;
    forall d | d in Children(tokens, family) ensures d in family + next {
      var p := tokens[d].parent.value;
      if p in working {
        assert d in Children(tokens, working);
      } else {
        assert d in Children(tokens, family - working);
      }
    }
    forall d | d in next ensures Descends(tokens, a, d) {
      var p := tokens[d].parent.value;
      var steps: nat :| DescendsBy(tokens, a, p, steps);
      assert DescendsBy(tokens, a, d, steps + 1);
    }
    assert family == (family - working) + working;
    assert |family| == |family - working| + |working|;
    if next != {} {
      assert tokens.Keys - family == (tokens.Keys - (family + next)) + next;
    }
  }

  /** Revoking a token family: the whole session when the token has one, the stored descendants
      otherwise (the second form leaves `updated_at` alone). */
  ghost function RevokeFamily(db: Tables, t: nat, now: Time): Tables
    requires t in db.tokens
  {
    if db.tokens[t].session.Some? then RevokeSession(db, db.tokens[t].session.value, now)
    else db.(tokens := map d | d in db.tokens ::
                         if Descends(db.tokens, t, d) then db.tokens[d].(revoked := true) else db.tokens[d])
  }

  class TokenStore {
    var tokens: map<nat, Token>
    var sessions: map<nat, Session>
    var nextToken: nat
    var nextSession: nat

    function View(): Tables
      reads this
    {
      Tables(tokens, sessions, nextToken, nextSession)
    }

    constructor ()
      ensures View() == EMPTY
    {
      tokens, sessions, nextToken, nextSession := map[], map[], 0, 0;
    }

    method CreateRefreshToken(userId: nat, oldToken: Option<nat>, params: GrantParams, now: Time) returns (t: nat)
      requires oldToken.Some? ==> oldToken.value in tokens
      modifies this
      ensures t == old(nextToken)
      ensures View() == CreateToken(old(View()), userId, oldToken,
                                    if oldToken.Some? then old(tokens)[oldToken.value].session else None, params, now)
    {
      var sid := None;
      if oldToken.Some? {
        sid := tokens[oldToken.value].session;
      }
      if sid.None? {
        var tag := if params.tag.Some? && params.tag.value != "" then params.tag else None;
        sessions := sessions[nextSession := Session(userId, params.notAfter, now, None, params.factorId, Some(AAL1),
                                                    tag)];
        sid := Some(nextSession);
        nextSession := nextSession + 1;
      }
      t := nextToken;
      tokens := tokens[t := Token(userId, oldToken, sid, false, now, now)];
      nextToken := nextToken + 1;
    }

    method GrantAuthenticatedUser(userId: nat, params: GrantParams, now: Time) returns (t: nat)
      modifies this
      ensures t == old(nextToken)
      ensures View() == SignIn(old(View()), userId, params, now)
    {
      t := CreateRefreshToken(userId, None, params, now);
    }

    method GrantRefreshTokenSwap(userId: nat, token: nat, now: Time) returns (t: nat)
      requires token in tokens
      modifies this
      ensures t == old(nextToken)
      ensures View() == Swap(old(View()), userId, token, now)
    {
      tokens := tokens[token := tokens[token].(revoked := true, updatedAt := now)];
      assert View() == Revoke(old(View()), {token}, now);
      t := CreateRefreshToken(userId, Some(token), NO_PARAMS, now);
    }

    method RevokeTokenFamily(token: nat, now: Time)
      requires token in tokens
      modifies this
      ensures View() == RevokeFamily(old(View()), token, now)
    {
      var sid := tokens[token].session;
      if sid.Some? {
        tokens := map t | t in tokens ::
          if tokens[t].session == sid && !tokens[t].revoked then tokens[t].(revoked := true, updatedAt := now)
          else tokens[t];
      } else {
        var family, _ := TokenFamily(tokens, token);
        tokens := map t | t in tokens :: if t in family then tokens[t].(revoked := true) else tokens[t];
      }
    }

    method FindTokenBySessionID(sid: nat) returns (t: Option<nat>)
      ensures t.Some? ==> IsOldest(View(), sid, t.value)
      ensures t.None? ==> SessionTokens(View(), sid) == {}
    {
      var rows := set u | u in tokens && tokens[u].session == Some(sid);
      if rows == {} { return None; }
      ghost var table := tokens;
      MaxByExists(rows, (u: nat) requires u in table => -table[u].createdAt);
      var first :| first in rows && forall u :: u in rows ==> tokens[first].createdAt <= tokens[u].createdAt;
      t := Some(first);
    }

    method FindCurrentlyActiveRefreshToken(sid: nat) returns (t: Option<nat>)
      ensures t == FindActive(View(), sid)
    {
      var rows := set u | u in tokens && tokens[u].session == Some(sid) && !tokens[u].revoked;
      if rows == {} { return None; }
      MaxExists(rows);
      var last :| last in rows && forall x :: x in rows ==> x <= last;
      t := Some(last);
    }
  }
}
