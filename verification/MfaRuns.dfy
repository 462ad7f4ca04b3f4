/** Runs of sign-ins, enrolments, verifications, unenrolments, expiries, refreshes and logouts, and what they say about
    assurance levels and about the number of factors. */
module MfaRuns {
  import opened Common
  import opened Sessions
  import opened Mfa

  datatype Event =
    | SignInEvent(user: nat, how: string, now: Time)
    | RefreshEvent(login: nat, now: Time)
    | LogoutEvent(logins: set<nat>)
    | EnrolEvent(req: Enrolment)
    | VerifyEvent(login: nat, factor: nat, now: Time)
    | UnenrolEvent(login: nat, factor: nat)
    | ExpireEvent(factors: set<nat>)

  /** Requests come from a session of the user they concern, a first sign-in is not a second factor, and only pending
      factors expire. */
  predicate Enabled(t: Tables, e: Event) {
    match e
    case SignInEvent(_, how, _) => !IsAal2Method(how)
    case RefreshEvent(s, _) => s in t.logins
    case LogoutEvent(_) => true
    case EnrolEvent(req) => req.login in t.logins && t.logins[req.login].user == req.user
    case VerifyEvent(s, f, _) => s in t.logins && f in t.factors && t.factors[f].user == t.logins[s].user
    case UnenrolEvent(s, f) => s in t.logins && f in t.factors && t.factors[f].user == t.logins[s].user
    case ExpireEvent(gone) => forall f :: f in gone && f in t.factors ==> !t.factors[f].verified
  }

  function Step(t: Tables, config: Config, e: Event): Tables
    requires Enabled(t, e)
  {
    match e
    case SignInEvent(u, how, now) => SignIn(t, u, how, now)
    case RefreshEvent(s, now) => Refresh(t, s, now)
    case LogoutEvent(gone) => Logout(t, gone)
    case EnrolEvent(req) => Enrol(t, config, req)
    case VerifyEvent(s, f, now) => Verify(t, s, f, now)
    case UnenrolEvent(s, f) => Unenrol(t, s, f)
    case ExpireEvent(gone) => DropFactors(t, gone)
  }

  predicate Runs(t: Tables, config: Config, es: seq<Event>)
    decreases |es|
  {
    es != [] ==> Enabled(t, es[0]) && Runs(Step(t, config, es[0]), config, es[1..])
  }

  function End(t: Tables, config: Config, es: seq<Event>): Tables
    requires Runs(t, config, es)
    decreases |es|
  {
    if es == [] then t else End(Step(t, config, es[0]), config, es[1..])
  }

  // ----- rows make sense

  predicate Sound(t: Tables) {
    && (forall f :: f in t.factors ==> f < t.nextFactor)
    && (forall s :: s in t.logins ==> s < t.nextLogin)
    && (forall s :: s in t.logins ==> t.logins[s].aal == Some(AAL1) || t.logins[s].aal == Some(AAL2))
    && (forall s :: s in t.logins && t.logins[s].factor.Some? ==> t.logins[s].factor.value < t.nextFactor)
    && (forall s :: s in t.logins && t.logins[s].factor.Some? && t.logins[s].factor.value in t.factors ==>
          t.factors[t.logins[s].factor.value].user == t.logins[s].user)
  }

  lemma SoundDrop(t: Tables, gone: set<nat>)
    requires Sound(t)
    ensures Sound(DropFactors(t, gone)) && Sound(Logout(t, gone))
  {
  }

  lemma SoundEnrol(t: Tables, config: Config, req: Enrolment)
    requires Sound(t) && req.login in t.logins
    ensures Sound(Enrol(t, config, req))
  {
    var d := if req.kind.Phone? then DropFactors(t, SamePhone(t, req.user, req.phone)) else t;
    SoundDrop(t, SamePhone(t, req.user, req.phone));
    SoundDrop(d, Expired(d, config.expiry, req.now, req.challenged));
  }

  lemma SoundVerify(t: Tables, s: nat, f: nat, now: Time)
    requires Sound(t) && Enabled(t, VerifyEvent(s, f, now))
    ensures Sound(Verify(t, s, f, now))
  {
    var raised := Raise(MarkVerified(t, f), s, f, now);
    assert Sound(MarkVerified(t, f));
    assert Sound(raised);
    SoundDrop(raised, Below(raised, t.factors[f].user));
    var invalidated := Logout(raised, Below(raised, t.factors[f].user));
    SoundDrop(invalidated, PendingOfKind(invalidated, t.factors[f].user, t.factors[f].kind));
  }

  lemma SoundUnenrol(t: Tables, s: nat, f: nat)
    requires Sound(t) && Enabled(t, UnenrolEvent(s, f))
    ensures Sound(Unenrol(t, s, f))
  {
    SoundDrop(t, {f});
  }

  lemma SoundStep(t: Tables, config: Config, e: Event)
    requires Sound(t) && Enabled(t, e)
    ensures Sound(Step(t, config, e))
  {
    match e
    case SignInEvent(_, _, _) =>
    case RefreshEvent(_, _) =>
    case LogoutEvent(gone) => SoundDrop(t, gone);
    case EnrolEvent(req) => SoundEnrol(t, config, req);
    case VerifyEvent(s, f, now) => SoundVerify(t, s, f, now);
    case UnenrolEvent(s, f) => SoundUnenrol(t, s, f);
    case ExpireEvent(gone) => SoundDrop(t, gone);
  }

  lemma {:induction false} EveryRunIsSound(t: Tables, config: Config, es: seq<Event>)
    requires Sound(t) && Runs(t, config, es)
    ensures Sound(End(t, config, es))
    decreases |es|
  {
    if es != [] {
      SoundStep(t, config, es[0]);
      EveryRunIsSound(Step(t, config, es[0]), config, es[1..]);
    }
  }

  // ----- signing in and expiring

  /** A sign-in adds a session of level one that agrees with its only claim, and leaves every other session alone. */
  lemma SignInStartsAtLevelOne(t: Tables, u: nat, how: string, now: Time)
    requires Sound(t) && !IsAal2Method(how)
    ensures var r, s := SignIn(t, u, how, now), t.nextLogin;
            && s !in t.logins && s in r.logins && r.logins[s].user == u && !r.logins[s].IsAal2()
            && Agrees(r.logins[s]) && r.logins[s].claims.Keys == {how}
            && (forall l :: l in t.logins ==> l in r.logins && r.logins[l] == t.logins[l])
            && r.factors == t.factors
  {
  }

  /** Expiring takes no verified factor and no factor with a challenge. Cutting the configured time to whole seconds
      makes it take a factor less than a second early at most, and none late; doing it again takes nothing more. */
  lemma ExpiryTakesStaleFactorsOnly(t: Tables, expiry: int, now: Time, challenged: set<nat>, u: nat)
    requires expiry >= 0
    ensures var r := DropFactors(t, Expired(t, expiry, now, challenged));
            && VerifiedOf(r, u) == VerifiedOf(t, u)
            && (forall f :: f in t.factors && f !in r.factors ==>
                  !t.factors[f].verified && f !in challenged && t.factors[f].createdAt + expiry < now + SECOND)
            && (forall f :: f in r.factors ==>
                  && f in t.factors && r.factors[f] == t.factors[f]
                  && (r.factors[f].verified || f in challenged || now <= r.factors[f].createdAt + expiry))
            && Expired(r, expiry, now, challenged) == {}
  {
  }

  // ----- after a verification

  lemma AMethodOfLevelTwo(kind: Kind)
    ensures IsAal2Method(kind.Method())
  {
  }

  /** Verifying a factor leaves the session it happened in, at level two and tied to the factor, and of the user's other
      sessions exactly those not below level two, as they were. No other user's session is touched. */
  lemma VerifyKeepsOnlyLevelTwo(t: Tables, s: nat, f: nat, now: Time)
    requires Enabled(t, VerifyEvent(s, f, now))
    ensures var r := Verify(t, s, f, now);
            && s in r.logins && r.logins[s].IsAal2() && r.logins[s].factor == Some(f)
            && r.logins[s].claims == t.logins[s].claims[t.factors[f].kind.Method() := now]
            && (forall l :: l in r.logins <==>
                  && l in t.logins
                  && (l == s || t.logins[l].user != t.factors[f].user || t.logins[l].aal != Some(AAL1)))
            && (forall l :: l in r.logins && l != s ==> r.logins[l] == t.logins[l])
  {
    var kind := t.factors[f].kind;
    AMethodOfLevelTwo(kind);
    var claims := t.logins[s].claims[kind.Method() := now];
    assert kind.Method() in claims.Keys;
    var raised := Raise(MarkVerified(t, f), s, f, now);
    assert raised.logins[s].IsAal2();
    assert Below(raised, t.factors[f].user) == Below(t, t.factors[f].user) - {s};
  }

  /** After a verification at the end of any run, every session the user still has is at level two. */
  lemma AfterVerificationAllSessionsAreAal2(t: Tables, config: Config, es: seq<Event>, s: nat, f: nat, now: Time)
    requires Sound(t) && Runs(t, config, es) && Enabled(End(t, config, es), VerifyEvent(s, f, now))
    ensures var r := Verify(End(t, config, es), s, f, now);
            && s in r.logins
            && forall l :: l in r.logins && r.logins[l].user == r.logins[s].user ==> r.logins[l].IsAal2()
  {
    EveryRunIsSound(t, config, es);
    VerifyKeepsOnlyLevelTwo(End(t, config, es), s, f, now);
  }

  // ----- the stored level agrees with the claims

  predicate Agrees(login: Login) {
    login.aal == Some(Level(login.claims.Keys))
  }

  predicate AllAgree(t: Tables, u: nat) {
    forall s :: s in t.logins && t.logins[s].user == u ==> Agrees(t.logins[s])
  }

  /** Unenrolling leaves the level in agreement with the claims exactly when no session verified with the factor has a
      claim of level two other than one spelled like the factor's kind. */
  lemma UnenrolAgreesExactly(t: Tables, s: nat, f: nat)
    requires Enabled(t, UnenrolEvent(s, f)) && MayUnenrol(t, s, f) && AllAgree(t, t.factors[f].user)
    ensures AllAgree(Unenrol(t, s, f), t.factors[f].user) <==>
            forall l, m :: l in WithFactor(t, f) && t.logins[l].user == t.factors[f].user
                           && m in t.logins[l].claims && IsAal2Method(m) ==>
              m == t.factors[f].kind.Name()
  {
    var r, factor := Unenrol(t, s, f), t.factors[f];
    assert r.logins.Keys == t.logins.Keys;
    forall l | l in t.logins && t.logins[l].user == factor.user
      ensures r.logins[l].user == factor.user
      ensures Agrees(r.logins[l]) <==>
              (l in WithFactor(t, f) ==> forall m :: m in t.logins[l].claims && IsAal2Method(m) ==>
                 m == factor.kind.Name())
    {
      if l in WithFactor(t, f) {
        assert r.logins[l] == Downgraded(t.logins[l], factor);
        assert r.logins[l].claims.Keys == t.logins[l].claims.Keys - {factor.kind.Name()};
      }
    }
    if AllAgree(r, factor.user) {
      forall l, m | l in WithFactor(t, f) && t.logins[l].user == factor.user && m in t.logins[l].claims
        && IsAal2Method(m)
        ensures m == factor.kind.Name()
      {
        assert Agrees(r.logins[l]);
      }
    }
  }

  /** The user only ever has TOTP factors, and its sessions no claim of level two but theirs. */
  predicate TotpOnly(t: Tables, u: nat) {
    && (forall f :: f in FactorsOf(t, u) ==> t.factors[f].kind.Totp?)
    && (forall s, m :: s in t.logins && t.logins[s].user == u && m in t.logins[s].claims && IsAal2Method(m) ==>
          m == "totp")
  }

  predicate TotpEvent(e: Event, u: nat) {
    e.EnrolEvent? && e.req.user == u ==> e.req.kind.Totp?
  }

  lemma TotpVerify(t: Tables, u: nat, s: nat, f: nat, now: Time)
    requires Sound(t) && TotpOnly(t, u) && AllAgree(t, u) && Enabled(t, VerifyEvent(s, f, now))
    ensures TotpOnly(Verify(t, s, f, now), u) && AllAgree(Verify(t, s, f, now), u)
  {
    VerifyKeepsOnlyLevelTwo(t, s, f, now);
    var r := Verify(t, s, f, now);
    assert forall g :: g in FactorsOf(r, u) ==> g in FactorsOf(t, u) && r.factors[g].kind == t.factors[g].kind;
    if t.logins[s].user == u {
      assert t.factors[f].kind.Method() == "totp" by { assert f in FactorsOf(t, u); }
      assert "totp" in r.logins[s].claims.Keys && IsAal2Method("totp");
    }
  }

  lemma TotpUnenrol(t: Tables, u: nat, s: nat, f: nat)
    requires Sound(t) && TotpOnly(t, u) && AllAgree(t, u) && Enabled(t, UnenrolEvent(s, f))
    ensures TotpOnly(Unenrol(t, s, f), u) && AllAgree(Unenrol(t, s, f), u)
  {
    var r := Unenrol(t, s, f);
    if MayUnenrol(t, s, f) {
      if t.factors[f].user == u {
        assert f in FactorsOf(t, u);
        UnenrolAgreesExactly(t, s, f);
      } else {
        assert forall l :: l in WithFactor(t, f) ==> t.logins[l].user != u;
      }
      assert forall g :: g in FactorsOf(r, u) ==> g in FactorsOf(t, u) && r.factors[g].kind == t.factors[g].kind;
    }
  }

  lemma TotpEnrol(t: Tables, config: Config, u: nat, req: Enrolment)
    requires TotpOnly(t, u) && req.login in t.logins && (req.user == u ==> req.kind.Totp?)
    ensures TotpOnly(Enrol(t, config, req), u) && Enrol(t, config, req).logins == t.logins
  {
    var r := Enrol(t, config, req);
    forall f | f in FactorsOf(r, u) ensures r.factors[f].kind.Totp? {
      if f in t.factors && r.factors[f] == t.factors[f] { assert f in FactorsOf(t, u); }
    }
  }

  lemma TotpStep(t: Tables, config: Config, u: nat, e: Event)
    requires Sound(t) && TotpOnly(t, u) && AllAgree(t, u) && Enabled(t, e) && TotpEvent(e, u)
    ensures TotpOnly(Step(t, config, e), u) && AllAgree(Step(t, config, e), u)
  {
    match e
    case SignInEvent(_, _, _) =>
    case RefreshEvent(_, _) =>
    case LogoutEvent(_) =>
    case EnrolEvent(req) => TotpEnrol(t, config, u, req);
    case VerifyEvent(s, f, now) => TotpVerify(t, u, s, f, now);
    case UnenrolEvent(s, f) => TotpUnenrol(t, u, s, f);
    case ExpireEvent(_) =>
  }

  /** A user who only ever enrols TOTP factors has, after any run, the stored level of each session equal to the one
      that its claims stand for. */
  lemma {:induction false} TotpLevelsAgree(t: Tables, config: Config, u: nat, es: seq<Event>)
    requires Sound(t) && TotpOnly(t, u) && AllAgree(t, u) && Runs(t, config, es)
    requires forall e :: e in es ==> TotpEvent(e, u)
    ensures AllAgree(End(t, config, es), u)
    decreases |es|
  {
    if es != [] {
      SoundStep(t, config, es[0]);
      TotpStep(t, config, u, es[0]);
      TotpLevelsAgree(Step(t, config, es[0]), config, u, es[1..]);
    }
  }

  /** For the other kinds agreement is lost by the first unenrolment of a factor that a session was verified with: the
      claim is spelled differently from the kind, so it survives. */
  lemma OtherKindsLoseAgreement(t: Tables, s: nat, f: nat, now: Time)
    requires Enabled(t, VerifyEvent(s, f, now)) && AllAgree(t, t.factors[f].user)
    ensures var v := Verify(t, s, f, now);
            && AllAgree(v, t.factors[f].user)
            && Enabled(v, UnenrolEvent(s, f)) && MayUnenrol(v, s, f)
            && (!t.factors[f].kind.Totp? ==> !AllAgree(Unenrol(v, s, f), t.factors[f].user))
  {
    VerifyKeepsOnlyLevelTwo(t, s, f, now);
    var v, factor := Verify(t, s, f, now), t.factors[f];
    AMethodOfLevelTwo(factor.kind);
    assert factor.kind.Method() in v.logins[s].claims;
    assert Agrees(v.logins[s]) by { assert factor.kind.Method() in v.logins[s].claims.Keys; }
    assert f in v.factors && v.factors[f] == factor.(verified := true);
    if !factor.kind.Totp? {
      assert s in WithFactor(v, f) && v.logins[s].user == factor.user;
      assert factor.kind.Method() != factor.kind.Name() by {
        assert |factor.kind.Method()| != |factor.kind.Name()|;
      }
      UnenrolAgreesExactly(v, s, f);
    }
  }
}
