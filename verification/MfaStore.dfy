/** The operations on factors and sessions as they work on the stored tables, and the computation of a session's level
    and of its list of authentication methods. */
module MfaStore {
  import opened Common
  import opened Sessions
  import opened Mfa
  import opened MfaRuns
  import Linking
  import RefreshTokens
  import TokenRuns

  // ----- level and methods of a session

  datatype Claim = Claim(how: string, at: Time)

  datatype Entry = Entry(how: string, timestamp: int, provider: string)

  /** How a claim appears in the list; the provider of a SAML claim is that of the user's only identity. */
  function EntryOf(claim: Claim, providers: seq<string>): Entry {
    var sso := claim.how == "sso/saml" && |providers| == 1 && Linking.IsSso(providers[0]);
    Entry(claim.how, claim.at / SECOND, if sso then providers[0][|Linking.SSO_PREFIX|..] else "")
  }

  function Entries(claims: seq<Claim>, providers: seq<string>): seq<Entry> {
    seq(|claims|, i requires 0 <= i < |claims| => EntryOf(claims[i], providers))
  }

  predicate RecentFirst(amr: seq<Entry>) {
    forall i, j :: 0 <= i < j < |amr| ==> amr[i].timestamp >= amr[j].timestamp
  }

  /** Puts an entry in its place. */
  method Insert(amr: seq<Entry>, e: Entry) returns (r: seq<Entry>)
    requires RecentFirst(amr)
    ensures RecentFirst(r) && multiset(r) == multiset(amr) + multiset{e}
  {
    var n := 0;
    while n < |amr| && amr[n].timestamp >= e.timestamp
      invariant 0 <= n <= |amr|
      invariant forall i :: 0 <= i < n ==> amr[i].timestamp >= e.timestamp
    {
      n := n + 1;
    }
    r := amr[..n] + [e] + amr[n..];
    InsertedIsOrdered(amr, e, n);
    InsertedKeepsEntries(amr, e, n);
  }

  lemma InsertedKeepsEntries(amr: seq<Entry>, e: Entry, n: nat)
    requires n <= |amr|
    ensures multiset(amr[..n] + [e] + amr[n..]) == multiset(amr) + multiset{e}
  {
    assert amr == amr[..n] + amr[n..];
  }

  lemma InsertedIsOrdered(amr: seq<Entry>, e: Entry, n: nat)
    requires RecentFirst(amr) && n <= |amr|
    requires forall i :: 0 <= i < n ==> amr[i].timestamp >= e.timestamp
    requires n < |amr| ==> amr[n].timestamp < e.timestamp
    ensures RecentFirst(amr[..n] + [e] + amr[n..])
  {
    var r := amr[..n] + [e] + amr[n..];
    assert forall i :: 0 <= i < |r| ==> r[i] == if i < n then amr[i] else if i == n then e else amr[i - 1];
    forall j | n <= j < |amr| ensures amr[j].timestamp < e.timestamp {
      assert j == n || amr[n].timestamp >= amr[j].timestamp;
    }
  }

  method SortRecentFirst(amr: seq<Entry>) returns (r: seq<Entry>)
    ensures RecentFirst(r) && multiset(r) == multiset(amr)
  {
    r := [];
    for i := 0 to |amr|
      invariant RecentFirst(r) && multiset(r) == multiset(amr[..i])
    {
      assert amr[..i + 1] == amr[..i] + [amr[i]];
      r := Insert(r, amr[i]);
    }
    assert amr[..|amr|] == amr;
  }

  /** The level that the claims stand for, and the claims as a list with the most recent first. */
  method CalculateAALAndAMR(claims: seq<Claim>, providers: seq<string>) returns (aal: AssuranceLevel, amr: seq<Entry>)
    ensures aal == Level(set c | c in claims :: c.how)
    ensures multiset(amr) == multiset(Entries(claims, providers))
    ensures RecentFirst(amr)
  {
    amr, aal := [], AAL1;
    for i := 0 to |claims|
      invariant amr == Entries(claims[..i], providers)
      invariant aal == if exists j :: 0 <= j < i && IsAal2Method(claims[j].how) then AAL2 else AAL1
    {
      var claim := claims[i];
      if IsAal2Method(claim.how) {
        aal := AAL2;
      }
      var entry := Entry(claim.how, claim.at / SECOND, "");
      if claim.how == "sso/saml" {
        if |providers| == 1 && Linking.IsSso(providers[0]) {
          entry := entry.(provider := providers[0][|Linking.SSO_PREFIX|..]);
        }
      }
      amr := amr + [entry];
    }
    assert claims[..|claims|] == claims;
    ghost var methods := set c | c in claims :: c.how;
    assert aal == Level(methods) by {
      if aal == AAL2 {
        var j :| 0 <= j < |claims| && IsAal2Method(claims[j].how);
        assert claims[j] in claims && claims[j].how in methods;
      }
    }
    amr := SortRecentFirst(amr);
  }

  // ----- the tables

  /** The user's sessions below level two, once the session of the verification has been raised. */
  function Invalidated(t: Tables, s: nat, f: nat, now: Time): set<nat>
    requires f in t.factors && s in t.logins
  {
    Below(Raise(MarkVerified(t, f), s, f, now), t.factors[f].user)
  }

  /** What a verification does to the refresh tokens: the factor event of a run over them, and a logout of the rest. */
  ghost predicate HandedOver(before: RefreshTokens.Tables, after: RefreshTokens.Tables, s: nat, f: nat, now: Time,
                             gone: set<nat>)
    requires s in before.sessions
  {
    exists t :: RefreshTokens.IsOldest(before, s, t)
                && after == RefreshTokens.DeleteSessions(TokenRuns.VerifyFactor(before, s, t, f, now), gone)
  }

  class Store {
    var factors: map<nat, Factor>
    var logins: map<nat, Login>
    var nextFactor: nat
    var nextLogin: nat

    function View(): Tables
      reads this
    {
      Tables(factors, logins, nextFactor, nextLogin)
    }

    constructor ()
      ensures View() == EMPTY
    {
      factors, logins, nextFactor, nextLogin := map[], map[], 0, 0;
    }

    method IssueRefreshToken(u: nat, how: string, now: Time)
      modifies this
      ensures View() == SignIn(old(View()), u, how, now)
    {
      logins, nextLogin := logins[nextLogin := Login(u, Some(AAL1), None, map[how := now], None)], nextLogin + 1;
    }

    method DeleteExpiredFactors(expiry: int, now: Time, challenged: set<nat>)
      modifies this`factors
      ensures View() == DropFactors(old(View()), Expired(old(View()), expiry, now, challenged))
    {
      factors := map f | f in factors && (factors[f].verified || f in challenged
                         || factors[f].createdAt + WholeSeconds(expiry) >= now) :: factors[f];
    }

    /** Goes through the user's factors; stops at one of that name. */
    method CountFactors(u: nat, name: string) returns (clash: bool, total: nat, verified: nat)
      ensures clash <==> exists f :: f in FactorsOf(View(), u) && factors[f].name == name
      ensures !clash ==> total == |FactorsOf(View(), u)| && verified == |VerifiedOf(View(), u)|
    {
      var own := set f | f in factors && factors[f].user == u;
      assert own == FactorsOf(View(), u);
      var rows := Rows(own);
      clash, total, verified := false, |rows|, 0;
      for i := 0 to |rows|
        invariant forall j :: 0 <= j < i ==> factors[rows[j]].name != name
        invariant verified == |set j | 0 <= j < i && factors[rows[j]].verified :: rows[j]|
      {
        if factors[rows[i]].name == name {
          return true, total, verified;
        }
        ghost var before := set j | 0 <= j < i && factors[rows[j]].verified :: rows[j];
        ghost var after := set j | 0 <= j < i + 1 && factors[rows[j]].verified :: rows[j];
        if factors[rows[i]].verified {
          assert after == before + {rows[i]};
          verified := verified + 1;
        } else {
          assert after == before;
        }
      }
      AllRows(rows, VerifiedOf(View(), u));
      assert VerifiedOf(View(), u) == set j | 0 <= j < |rows| && factors[rows[j]].verified :: rows[j];
      forall f | f in FactorsOf(View(), u) ensures factors[f].name != name {
        assert f in rows;
      }
    }

    /** Clears expired factors away and looks at the limits. */
    method ValidateFactors(u: nat, name: string, config: Config, aal2: bool, now: Time, challenged: set<nat>)
        returns (ok: bool)
      modifies this`factors
      ensures View() == DropFactors(old(View()), Expired(old(View()), config.expiry, now, challenged))
      ensures ok <==> MayEnrol(View(), config, u, name, aal2)
    {
      DeleteExpiredFactors(config.expiry, now, challenged);
      var clash, total, verified := CountFactors(u, name);
      if clash { return false; }
      if total >= config.maxEnrolled { return false; }
      if verified >= config.maxVerified { return false; }
      if verified > 0 && !aal2 { return false; }
      return true;
    }

    method EnrolFactor(config: Config, req: Enrolment)
      requires req.login in logins
      modifies this
      ensures View() == Enrol(old(View()), config, req)
    {
      if req.kind !in config.kinds { return; }
      if req.kind.Phone? {
        var rows := Rows(set f | f in factors && factors[f].user == req.user);
        var gone: set<nat> := {};
        for i := 0 to |rows|
          invariant View() == old(View())
          invariant forall j :: 0 <= j < i && rows[j] in SamePhone(View(), req.user, req.phone) ==>
                      !factors[rows[j]].verified
          invariant gone == set j | 0 <= j < i && rows[j] in SamePhone(View(), req.user, req.phone) :: rows[j]
        {
          if factors[rows[i]].kind.Phone? && factors[rows[i]].phone == req.phone {
            if factors[rows[i]].verified {
              return;
            }
            gone := gone + {rows[i]};
          }
        }
        AllRows(rows, SamePhone(View(), req.user, req.phone));
        assert gone == SamePhone(View(), req.user, req.phone);
        factors := factors - gone;
      }
      var ok := ValidateFactors(req.user, req.name, config, logins[req.login].IsAal2(), req.now, req.challenged);
      if ok {
        var factor := Factor(req.user, req.kind, false, req.name, if req.kind.Phone? then req.phone else "", req.now);
        factors, nextFactor := factors[nextFactor := factor], nextFactor + 1;
      }
    }

    /** The claim of the verification is recorded and the session gets the level and the factor. */
    method UpdateMfaSessionAndClaims(s: nat, f: nat, now: Time)
      requires s in logins && f in factors
      modifies this
      ensures View() == Raise(old(View()), s, f, now)
    {
      var how := factors[f].kind.Method();
      logins := logins[s := logins[s].(claims := logins[s].claims[how := now])];
      var login := logins[s];
      var methods := Rows(login.claims.Keys);
      var rows := seq(|methods|, i requires 0 <= i < |methods| => Claim(methods[i], login.claims[methods[i]]));
      var aal, _ := CalculateAALAndAMR(rows, []);
      assert (set c | c in rows :: c.how) == login.claims.Keys by {
        forall m | m in login.claims.Keys ensures m in set c | c in rows :: c.how {
          var i :| 0 <= i < |methods| && methods[i] == m;
          assert rows[i] in rows && rows[i].how == m;
        }
      }
      logins := logins[s := logins[s].(aal := Some(aal), factor := Some(f))];
    }

    /** The whole transaction: the session's oldest refresh token is swapped too, and a session without any token
        fails it. The sessions that are invalidated go from both tables. */
    method VerifyFactor(tokens: RefreshTokens.TokenStore, s: nat, f: nat, now: Time) returns (issued: Option<nat>)
      requires Enabled(View(), VerifyEvent(s, f, now)) && s in tokens.sessions
      requires forall t :: RefreshTokens.InSession(tokens.View(), t, s) ==> tokens.tokens[t].userId == factors[f].user
      modifies this, tokens
      ensures issued.None? <==> RefreshTokens.SessionTokens(old(tokens.View()), s) == {}
      ensures issued.None? ==> View() == old(View()) && tokens.View() == old(tokens.View())
      ensures issued.Some? ==> View() == Verify(old(View()), s, f, now)
      ensures issued.Some? ==> issued.value == old(tokens.nextToken)
                               && HandedOver(old(tokens.View()), tokens.View(), s, f, now,
                                             Invalidated(old(View()), s, f, now))
    {
      var current := tokens.FindTokenBySessionID(s);
      if current.None? { return None; }
      assert current.value in RefreshTokens.SessionTokens(tokens.View(), s);
      var user := factors[f].user;
      var gone := ApplyVerification(s, f, now);
      var t := tokens.GrantRefreshTokenSwap(user, current.value, now);
      tokens.sessions := tokens.sessions[s := tokens.sessions[s].(aal := Some(AAL2), factorId := Some(f))];
      assert tokens.View() == TokenRuns.VerifyFactor(old(tokens.View()), s, current.value, f, now);
      tokens.sessions := map l | l in tokens.sessions && l !in gone :: tokens.sessions[l];
      tokens.tokens := map u | u in tokens.tokens
          && (tokens.tokens[u].session.Some? ==> tokens.tokens[u].session.value !in gone) :: tokens.tokens[u];
      return Some(t);
    }

    /** The factor, the claims and the sessions; `gone` are the sessions below level two that are deleted. */
    method ApplyVerification(s: nat, f: nat, now: Time) returns (gone: set<nat>)
      requires Enabled(View(), VerifyEvent(s, f, now))
      modifies this
      ensures View() == Verify(old(View()), s, f, now)
      ensures gone == Invalidated(old(View()), s, f, now)
    {
      var u, kind := factors[f].user, factors[f].kind;
      if !factors[f].verified {
        factors := factors[f := factors[f].(verified := true)];
      }
      assert View() == MarkVerified(old(View()), f);
      UpdateMfaSessionAndClaims(s, f, now);
      ghost var raised := View();
      gone := set l | l in logins && logins[l].user == u && logins[l].aal.Some?
        && logins[l].aal.value.Rank() < AAL2.Rank();
      logins := map l | l in logins && (logins[l].user != u || logins[l].aal.None?
                                        || logins[l].aal.value.Rank() >= AAL2.Rank()) :: logins[l];
      assert View() == Logout(raised, Below(raised, u));
      ghost var invalidated := View();
      factors := map g | g in factors
        && (factors[g].user != u || factors[g].verified || factors[g].kind != kind) :: factors[g];
      assert factors == invalidated.factors - PendingOfKind(invalidated, u, kind);
    }

    /** Takes the claim of that name from each session. */
    method DeleteClaims(rows: seq<nat>, how: string)
      requires forall i :: 0 <= i < |rows| ==> rows[i] in logins
      modifies this`logins
      ensures logins == map s | s in old(logins) ::
                if s in rows then old(logins)[s].(claims := old(logins)[s].claims - {how}) else old(logins)[s]
    {
      for i := 0 to |rows|
        invariant logins.Keys == old(logins).Keys
        invariant forall s :: s in logins ==>
          logins[s] == if s in rows[..i] then old(logins)[s].(claims := old(logins)[s].claims - {how})
            else old(logins)[s]
      {
        var s := rows[i];
        logins := logins[s := logins[s].(claims := logins[s].claims - {how})];
      }
      assert rows[..|rows|] == rows;
    }

    method DowngradeSessions(f: nat, factor: Factor)
      modifies this`logins
      ensures View() == Downgrade(old(View()), f, factor)
    {
      var sessions := set s | s in logins && logins[s].factor == Some(f);
      assert sessions == WithFactor(View(), f);
      var rows := Rows(sessions);
      DeleteClaims(rows, factor.kind.Name());
      logins := map s | s in logins ::
        if logins[s].user == factor.user && logins[s].factor == Some(f)
        then logins[s].(aal := Some(AAL1), factor := None)
        else logins[s];
    }

    method UnenrolFactor(s: nat, f: nat) returns (ok: bool)
      requires Enabled(View(), UnenrolEvent(s, f))
      modifies this
      ensures ok <==> (old(factors)[f].verified ==> old(logins)[s].aal == Some(AAL2))
      ensures ok <==> f !in factors
      ensures View() == Unenrol(old(View()), s, f)
    {
      var factor := factors[f];
      if factor.verified && !logins[s].IsAal2() {
        return false;
      }
      factors := factors - {f};
      DowngradeSessions(f, factor);
      return true;
    }
  }

  lemma AllRows(rows: seq<nat>, s: set<nat>)
    requires forall x :: x in s ==> x in rows
    ensures s == set j | 0 <= j < |rows| && rows[j] in s :: rows[j]
  {
    forall x | x in s ensures x in set j | 0 <= j < |rows| && rows[j] in s :: rows[j] {
      var j :| 0 <= j < |rows| && rows[j] == x;
    }
  }
}
