/** The laws that protect second factors, over single requests and over whole runs: who can take a verified factor away,
    who can add another, and what each request leaves. */
module MfaLaws {
  import opened Common
  import opened Sessions
  import opened Mfa
  import opened MfaRuns

  predicate AtLevelTwo(t: Tables, s: nat) {
    s in t.logins && t.logins[s].aal == Some(AAL2)
  }

  predicate IsVerified(t: Tables, f: nat) {
    f in t.factors && t.factors[f].verified
  }

  predicate HasVerified(t: Tables, u: nat) {
    exists f :: f in t.factors && t.factors[f].user == u && t.factors[f].verified
  }

  /** A session is at level two exactly when one of its claims is of a second factor, and else at level one. */
  lemma LevelExactly(methods: set<string>)
    ensures Level(methods) == if "totp" in methods || "mfa/phone" in methods || "mfa/webauthn" in methods then AAL2
                              else AAL1
  {
    if "totp" in methods { assert IsAal2Method("totp"); }
    if "mfa/phone" in methods { assert IsAal2Method("mfa/phone"); }
    if "mfa/webauthn" in methods { assert IsAal2Method("mfa/webauthn"); }
  }

  // ----- unenrolling

  function Spelling(kind: Kind): string {
    if kind == Totp then "totp" else if kind == Phone then "phone" else "webauthn"
  }

  /** A pending factor can always be unenrolled, a verified one exactly from a session at level two; otherwise nothing
      changes. Only that factor goes; the owner's sessions that were verified with it fall to level one, and lose the
      claim spelled like the factor's kind; all others stay as they were. */
  lemma UnenrolledExactly(t: Tables, s: nat, f: nat)
    requires Enabled(t, UnenrolEvent(s, f))
    ensures var r := Unenrol(t, s, f);
            && (f !in r.factors <==> !IsVerified(t, f) || AtLevelTwo(t, s))
            && (f in r.factors ==> r == t)
            && (f !in r.factors ==>
                  && r.factors == t.factors - {f} && r.logins.Keys == t.logins.Keys
                  && forall l :: l in t.logins ==>
                       r.logins[l] ==
                       if t.logins[l].factor != Some(f) then t.logins[l]
                       else if t.logins[l].user != t.factors[f].user then
                         t.logins[l].(claims := t.logins[l].claims - {Spelling(t.factors[f].kind)})
                       else
                         t.logins[l].(claims := t.logins[l].claims - {Spelling(t.factors[f].kind)},
                                      aal := Some(AAL1), factor := None))
  {
  }

  /** A verified factor goes by one kind of event only: its unenrolment, from a session of its owner at level two. As
      long as it stays it does not change. */
  lemma VerifiedFactorsStay(t: Tables, config: Config, e: Event, f: nat)
    requires Enabled(t, e) && IsVerified(t, f) && f < t.nextFactor
    ensures var r := Step(t, config, e);
            && (f !in r.factors <==> e.UnenrolEvent? && e.factor == f && AtLevelTwo(t, e.login))
            && (f in r.factors ==> r.factors[f] == t.factors[f])
  {
    match e
    case SignInEvent(_, _, _) =>
    case RefreshEvent(_, _) =>
    case LogoutEvent(_) =>
    case EnrolEvent(req) =>
      if req.kind.Phone? && f in SamePhone(t, req.user, req.phone) { assert PhoneIsVerified(t, req); }
    case VerifyEvent(s, g, now) =>
      var raised, u := Raise(MarkVerified(t, g), s, g, now), t.factors[g].user;
      assert f !in PendingOfKind(Logout(raised, Below(raised, u)), u, t.factors[g].kind);
    case UnenrolEvent(s, g) => UnenrolledExactly(t, s, g);
    case ExpireEvent(_) =>
  }

  /** Somewhere along the run the factor is unenrolled from a session of its owner that is then at level two. */
  ghost predicate GivenUp(t: Tables, config: Config, es: seq<Event>, f: nat)
    requires Runs(t, config, es)
    decreases |es|
  {
    es != [] && (|| (es[0].UnenrolEvent? && es[0].factor == f && AtLevelTwo(t, es[0].login))
                 || GivenUp(Step(t, config, es[0]), config, es[1..], f))
  }

  /** Numbers of factors are not used again. */
  lemma {:induction false} GoneForGood(t: Tables, config: Config, es: seq<Event>, f: nat)
    requires Sound(t) && Runs(t, config, es) && f < t.nextFactor && f !in t.factors
    ensures f !in End(t, config, es).factors
    decreases |es|
  {
    if es != [] {
      SoundStep(t, config, es[0]);
      OnlyNewNumbers(t, config, es[0], f);
      GoneForGood(Step(t, config, es[0]), config, es[1..], f);
    }
  }

  lemma OnlyNewNumbers(t: Tables, config: Config, e: Event, f: nat)
    requires Enabled(t, e) && f < t.nextFactor && f !in t.factors
    ensures var r := Step(t, config, e); f !in r.factors && f < r.nextFactor
  {
  }

  /** Over every run a verified factor is gone at the end exactly when it was unenrolled, on the way, from a session of
      its owner at level two; and while it is there it stays verified. */
  lemma {:induction false} VerifiedFactorsGoByUnenrolmentOnly(t: Tables, config: Config, es: seq<Event>, f: nat)
    requires Sound(t) && IsVerified(t, f) && Runs(t, config, es)
    ensures var r := End(t, config, es);
            && (f !in r.factors <==> GivenUp(t, config, es, f))
            && (f in r.factors ==> r.factors[f] == t.factors[f])
    decreases |es|
  {
    if es != [] {
      var r := Step(t, config, es[0]);
      SoundStep(t, config, es[0]);
      VerifiedFactorsStay(t, config, es[0], f);
      if f in r.factors {
        VerifiedFactorsGoByUnenrolmentOnly(r, config, es[1..], f);
      } else {
        NumbersGrow(t, config, es[0]);
        GoneForGood(r, config, es[1..], f);
      }
    }
  }

  lemma NumbersGrow(t: Tables, config: Config, e: Event)
    requires Enabled(t, e)
    ensures t.nextFactor <= Step(t, config, e).nextFactor
  {
  }

  // ----- enrolling

  /** Swept away by an enrolment: a pending factor with the same phone number, or one whose time is up and that has no
      challenge. */
  predicate Swept(t: Tables, config: Config, req: Enrolment, f: nat)
    requires f in t.factors
  {
    && !t.factors[f].verified
    && (|| (req.kind == Phone && t.factors[f].kind == Phone && t.factors[f].user == req.user
            && t.factors[f].phone == req.phone)
        || (f !in req.challenged && t.factors[f].createdAt + WholeSeconds(config.expiry) < req.now))
  }

  /** The user's factors that an enrolment leaves. */
  function Kept(t: Tables, config: Config, req: Enrolment): set<nat> {
    set f | f in t.factors && t.factors[f].user == req.user && !Swept(t, config, req, f)
  }

  /** The request is one to look at: the kind is switched on, and the number is not that of a verified factor. */
  predicate Considered(t: Tables, config: Config, req: Enrolment) {
    && req.kind in config.kinds
    && !(req.kind == Phone && exists f :: f in t.factors && t.factors[f].user == req.user && t.factors[f].kind == Phone
                                          && t.factors[f].phone == req.phone && t.factors[f].verified)
  }

  predicate Allowed(t: Tables, config: Config, req: Enrolment) {
    && Considered(t, config, req)
    && (forall f :: f in Kept(t, config, req) ==> t.factors[f].name != req.name)
    && |Kept(t, config, req)| < config.maxEnrolled
    && |VerifiedOf(t, req.user)| < config.maxVerified
    && (HasVerified(t, req.user) ==> AtLevelTwo(t, req.login))
  }

  lemma ClearedIsSwept(t: Tables, config: Config, req: Enrolment)
    requires Considered(t, config, req)
    ensures !PhoneIsVerified(t, req)
    ensures var c := Cleared(t, config, req);
            && c.logins == t.logins && c.nextFactor == t.nextFactor
            && (forall f :: f in c.factors <==> f in t.factors && !Swept(t, config, req, f))
            && (forall f :: f in c.factors ==> c.factors[f] == t.factors[f])
            && FactorsOf(c, req.user) == Kept(t, config, req) && VerifiedOf(c, req.user) == VerifiedOf(t, req.user)
  {
  }

  lemma SomeVerified(t: Tables, u: nat)
    ensures |VerifiedOf(t, u)| > 0 <==> HasVerified(t, u)
  {
    if f :| f in t.factors && t.factors[f].user == u && t.factors[f].verified { assert f in VerifiedOf(t, u); }
    if VerifiedOf(t, u) != {} { var f :| f in VerifiedOf(t, u); }
  }

  /** An enrolment gives the user a new, pending factor exactly when the kind is switched on, the number is not that
      of a verified factor, no factor that stays has the name, neither cap is reached, and a user with a verified
      factor asks from a session at level two. Whatever it decides it sweeps, and nothing else changes. */
  lemma EnrolledExactly(t: Tables, config: Config, req: Enrolment)
    requires Sound(t) && Enabled(t, EnrolEvent(req))
    ensures var r := Enrol(t, config, req);
            && r.logins == t.logins
            && (!Considered(t, config, req) ==> r == t)
            && (Considered(t, config, req) ==>
                  && (forall f :: f in r.factors <==>
                        || (f in t.factors && !Swept(t, config, req, f))
                        || (f == t.nextFactor && Allowed(t, config, req)))
                  && (forall f :: f in r.factors && f != t.nextFactor ==> r.factors[f] == t.factors[f])
                  && (Allowed(t, config, req) ==>
                        r.factors[t.nextFactor] == Factor(req.user, req.kind, false, req.name,
                                                          if req.kind == Phone then req.phone else "", req.now)))
  {
    if Considered(t, config, req) {
      ClearedIsSwept(t, config, req);
      SomeVerified(t, req.user);
      assert t.nextFactor !in t.factors;
    }
  }

  /** Wherever in a run a factor appears, it is pending and comes from an enrolment by its owner, who is at level two if
      there is a verified factor already; and a factor becomes verified only by a verification of its owner. */
  lemma FactorsComeByEnrolment(t: Tables, config: Config, e: Event, f: nat)
    requires Sound(t) && Enabled(t, e) && f in Step(t, config, e).factors
    ensures var r := Step(t, config, e);
            && (f !in t.factors ==>
                  && e.EnrolEvent? && f == t.nextFactor && r.factors[f].user == e.req.user && !r.factors[f].verified
                  && (HasVerified(t, r.factors[f].user) ==> AtLevelTwo(t, e.req.login)))
            && (f in t.factors ==>
                  && r.factors[f] == t.factors[f].(verified := r.factors[f].verified)
                  && (r.factors[f].verified <==> t.factors[f].verified || (e.VerifyEvent? && e.factor == f)))
  {
    match e
    case EnrolEvent(req) => EnrolledExactly(t, config, req);
    case _ =>
  }

  // ----- verifying

  /** The factors after a verification: this one is verified, the user's pending ones of the same kind are gone, and all
      others are as they were. */
  lemma VerifySettlesFactors(t: Tables, s: nat, f: nat, now: Time)
    requires Enabled(t, VerifyEvent(s, f, now))
    ensures var r := Verify(t, s, f, now);
            && (forall g :: g in r.factors <==>
                  && g in t.factors
                  && (g == f || t.factors[g].verified || t.factors[g].user != t.factors[f].user
                      || t.factors[g].kind != t.factors[f].kind))
            && (forall g :: g in r.factors ==> r.factors[g] == if g == f then t.factors[f].(verified := true)
                                                               else t.factors[g])
            && r.nextFactor == t.nextFactor
  {
  }
}
