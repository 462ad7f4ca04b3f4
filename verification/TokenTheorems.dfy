/** What holds of every run over the token tables: the parent links form a forest, revocation is final, and a family
    revocation reaches the whole family. */
module TokenTheorems {
  import opened Common
  import opened RefreshTokens
  import opened RefreshGrant
  import opened TokenRuns

  // ----- the forest

  lemma {:induction false} DescendantsAreYounger(db: Tables, clock: Time, a: nat, d: nat, steps: nat)
    requires Sound(db, clock) && DescendsBy(db.tokens, a, d, steps)
    ensures a < d
    ensures a in db.tokens ==> db.tokens[d].session == db.tokens[a].session && db.tokens[a].revoked
    decreases steps
  {
    assert SoundToken(db, clock, d);
    if steps > 0 {
      var p := db.tokens[d].parent.value;
      DescendantsAreYounger(db, clock, a, p, steps - 1);
    }
  }

  /** Parents are older, revoked tokens of the same session and user; no token descends from itself;
      unrevoked tokens are leaves. */
  ghost predicate Forest(db: Tables) {
    && (forall t, p :: t in db.tokens && p in db.tokens && db.tokens[t].parent == Some(p) ==>
          p < t && SoundParent(db.tokens[p], db.tokens[t]))
    && (forall t :: !Descends(db.tokens, t, t))
    && (forall t, d :: t in db.tokens && Descends(db.tokens, t, d) ==> db.tokens[t].revoked)
  }

  lemma RunsBuildAForest(config: Config, es: seq<Event>)
    requires Runs(config, EMPTY, ZERO_TIME, es)
    ensures Forest(End(config, EMPTY, ZERO_TIME, es))
  {
    EveryRunIsSound(config, EMPTY, ZERO_TIME, es);
    var db, clock := End(config, EMPTY, ZERO_TIME, es), EndClock(ZERO_TIME, es);
    forall t, p | t in db.tokens && p in db.tokens && db.tokens[t].parent == Some(p)
      ensures p < t && SoundParent(db.tokens[p], db.tokens[t])
    {
      assert SoundToken(db, clock, t);
    }
    forall t, d, steps: nat | DescendsBy(db.tokens, t, d, steps)
      ensures t != d && (t in db.tokens ==> db.tokens[t].revoked)
    {
      DescendantsAreYounger(db, clock, t, d, steps);
    }
  }

  // ----- what never changes about a token

  /** How a row may look later: it keeps its owner, session, parent and birth, it never becomes
      unrevoked, and its `updated_at` never goes back. */
  predicate Aged(old_: Token, new_: Token) {
    && new_.userId == old_.userId
    && new_.session == old_.session
    && new_.parent == old_.parent
    && new_.createdAt == old_.createdAt
    && old_.updatedAt <= new_.updatedAt
    && (old_.revoked ==> new_.revoked)
  }

  lemma StepAgesTokens(config: Config, db: Tables, clock: Time, e: Event, t: nat)
    requires Sound(db, clock) && Enabled(config, db, clock, e) && t in db.tokens
    ensures t in Step(config, db, clock, e).tokens ==> Aged(db.tokens[t], Step(config, db, clock, e).tokens[t])
    ensures db.nextToken <= Step(config, db, clock, e).nextToken
  {
    assert SoundToken(db, clock, t);
  }

  /** Serial numbers of tokens that are gone are never used again, so a revoked token is either
      deleted for good or still revoked. */
  lemma {:induction false} RevocationIsFinal(config: Config, db: Tables, clock: Time, es: seq<Event>, t: nat)
    requires Sound(db, clock) && Runs(config, db, clock, es)
    requires t < db.nextToken
    ensures var end := End(config, db, clock, es);
            t in end.tokens ==> t in db.tokens && Aged(db.tokens[t], end.tokens[t])
    decreases |es|
  {
    if es != [] {
      var next := Step(config, db, clock, es[0]);
      SoundStep(config, db, clock, es[0]);
      forall u | u in db.tokens
        ensures db.nextToken <= next.nextToken && (u in next.tokens ==> Aged(db.tokens[u], next.tokens[u])) {
        StepAgesTokens(config, db, clock, es[0], u);
      }
      StepKeepsSerials(config, db, clock, es[0]);
      RevocationIsFinal(config, next, At(es[0]), es[1..], t);
    }
  }

  lemma StepKeepsSerials(config: Config, db: Tables, clock: Time, e: Event)
    requires Sound(db, clock) && Enabled(config, db, clock, e)
    ensures db.nextToken <= Step(config, db, clock, e).nextToken
    ensures forall t :: t in Step(config, db, clock, e).tokens && t < db.nextToken ==> t in db.tokens
  {
    if e.FamilyEvent? { assert SoundToken(db, clock, e.token); }
  }

  // ----- family revocation

  /** On any sound tables, revoking a token's family revokes every token the recursive query would
      have reached, keeps every row, and leaves the session without an active token. */
  lemma FamilyRevocationReachesTheFamily(db: Tables, clock: Time, t: nat, now: Time)
    requires Sound(db, clock) && t in db.tokens && clock <= now
    ensures var after := RevokeFamily(db, t, now);
            && (forall d :: Descends(db.tokens, t, d) ==> d in after.tokens && after.tokens[d].revoked)
            && after.tokens.Keys == db.tokens.Keys
            && FindActive(after, db.tokens[t].session.value) == None
            && (forall u :: u in db.tokens && db.tokens[u].session != db.tokens[t].session ==>
                  after.tokens[u] == db.tokens[u])
  {
    assert SoundToken(db, clock, t);
    var after := RevokeFamily(db, t, now);
    forall d | Descends(db.tokens, t, d) ensures d in after.tokens && after.tokens[d].revoked {
      var steps: nat :| DescendsBy(db.tokens, t, d, steps);
      DescendantsAreYounger(db, clock, t, d, steps);
    }
    assert ActiveTokens(after, db.tokens[t].session.value) == {};
  }

  /** A token from before there were sessions: exactly the tokens that descend from it are revoked, over any parent
      links, and nothing else about any token changes. */
  lemma SessionlessFamilyRevocation(db: Tables, t: nat, now: Time, d: nat)
    requires t in db.tokens && db.tokens[t].session.None? && d in db.tokens
    ensures var after := RevokeFamily(db, t, now);
            && d in after.tokens && after.tokens[d] == db.tokens[d].(revoked := after.tokens[d].revoked)
            && (after.tokens[d].revoked <==> db.tokens[d].revoked || Descends(db.tokens, t, d))
            && after.sessions == db.sessions && after.tokens.Keys == db.tokens.Keys
  {
  }
}
