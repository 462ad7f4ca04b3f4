/** Factors and assurance levels: enrolling, verifying and unenrolling a factor, and what that does to the claims, the
    stored level and the very existence of the user's sessions. */
module Mfa {
  import opened Common
  import opened Sessions

  datatype Kind = Totp | Phone | WebAuthn
  {
    /** How the factor table spells the kind. */
    function Name(): string {
      match this case Totp => "totp" case Phone => "phone" case WebAuthn => "webauthn"
    }

    /** How a claim spells a verification with a factor of the kind. */
    function Method(): string {
      match this case Totp => "totp" case Phone => "mfa/phone" case WebAuthn => "mfa/webauthn"
    }
  }

  datatype Factor = Factor(user: nat, kind: Kind, verified: bool, name: string, phone: string, createdAt: Time)

  /** The columns of a session that concern assurance; `claims` maps each authentication method to its latest use. */
  datatype Login = Login(user: nat, aal: Option<AssuranceLevel>, factor: Option<nat>, claims: map<string, Time>,
                         refreshedAt: Option<Time>)
  {
    predicate IsAal2() { aal == Some(AAL2) }
  }

  datatype Tables = Tables(factors: map<nat, Factor>, logins: map<nat, Login>, nextFactor: nat, nextLogin: nat)

  const EMPTY := Tables(map[], map[], 0, 0)

  datatype Config = Config(maxEnrolled: int, maxVerified: int, expiry: int, kinds: set<Kind>)

  predicate IsAal2Method(how: string) {
    how == "totp" || how == "mfa/phone" || how == "mfa/webauthn"
  }

  /** The level that a set of authentication methods stands for. */
  function Level(methods: set<string>): AssuranceLevel {
    if exists m :: m in methods && IsAal2Method(m) then AAL2 else AAL1
  }

  function FactorsOf(t: Tables, u: nat): set<nat> {
    set f | f in t.factors && t.factors[f].user == u
  }

  function VerifiedOf(t: Tables, u: nat): set<nat> {
    set f | f in FactorsOf(t, u) && t.factors[f].verified
  }

  function PendingOf(t: Tables, u: nat): set<nat> {
    set f | f in FactorsOf(t, u) && !t.factors[f].verified
  }

  function DropFactors(t: Tables, gone: set<nat>): Tables {
    t.(factors := t.factors - gone)
  }

  // ----- signing in, refreshing and logging out

  function SignIn(t: Tables, u: nat, how: string, now: Time): Tables {
    t.(logins := t.logins[t.nextLogin := Login(u, Some(AAL1), None, map[how := now], None)],
       nextLogin := t.nextLogin + 1)
  }

  function Refresh(t: Tables, s: nat, now: Time): Tables
    requires s in t.logins
  {
    t.(logins := t.logins[s := t.logins[s].(refreshedAt := Some(now))])
  }

  function Logout(t: Tables, gone: set<nat>): Tables {
    t.(logins := t.logins - gone)
  }

  // ----- enrolling

  datatype Enrolment = Enrolment(user: nat, login: nat, kind: Kind, name: string, phone: string, now: Time,
                                 challenged: set<nat>)

  /** The pending factors, without a challenge, whose time is up. */
  function Expired(t: Tables, expiry: int, now: Time, challenged: set<nat>): set<nat> {
    set f | f in t.factors && !t.factors[f].verified && f !in challenged
            && t.factors[f].createdAt + WholeSeconds(expiry) < now
  }

  function SamePhone(t: Tables, u: nat, phone: string): set<nat> {
    set f | f in FactorsOf(t, u) && t.factors[f].kind.Phone? && t.factors[f].phone == phone
  }

  /** A user may be given another factor. */
  predicate MayEnrol(t: Tables, config: Config, u: nat, name: string, aal2: bool) {
    && (forall f :: f in FactorsOf(t, u) ==> t.factors[f].name != name)
    && |FactorsOf(t, u)| < config.maxEnrolled
    && |VerifiedOf(t, u)| < config.maxVerified
    && (|VerifiedOf(t, u)| > 0 ==> aal2)
  }

  /** What is cleared away before the limits are looked at; it stays cleared when the enrolment is then refused. */
  function Cleared(t: Tables, config: Config, req: Enrolment): Tables {
    var d := if req.kind.Phone? then DropFactors(t, SamePhone(t, req.user, req.phone)) else t;
    DropFactors(d, Expired(d, config.expiry, req.now, req.challenged))
  }

  predicate PhoneIsVerified(t: Tables, req: Enrolment) {
    req.kind.Phone? && exists f :: f in SamePhone(t, req.user, req.phone) && t.factors[f].verified
  }

  function AddFactor(t: Tables, factor: Factor): Tables {
    t.(factors := t.factors[t.nextFactor := factor], nextFactor := t.nextFactor + 1)
  }

  function Enrol(t: Tables, config: Config, req: Enrolment): Tables
    requires req.login in t.logins
  {
    if req.kind !in config.kinds || PhoneIsVerified(t, req) then t
    else
      var c := Cleared(t, config, req);
      if !MayEnrol(c, config, req.user, req.name, t.logins[req.login].IsAal2()) then c
      else
        AddFactor(c, Factor(req.user, req.kind, false, req.name, if req.kind.Phone? then req.phone else "", req.now))
  }

  // ----- verifying

  function MarkVerified(t: Tables, f: nat): Tables
    requires f in t.factors
  {
    t.(factors := t.factors[f := t.factors[f].(verified := true)])
  }

  /** The session gets the claim, the level that its claims now stand for, and the factor. */
  function Raise(t: Tables, s: nat, f: nat, now: Time): Tables
    requires f in t.factors && s in t.logins
  {
    var claims := t.logins[s].claims[t.factors[f].kind.Method() := now];
    t.(logins := t.logins[s := t.logins[s].(claims := claims, aal := Some(Level(claims.Keys)), factor := Some(f))])
  }

  /** The user's sessions below level two; an unset level is below nothing. */
  function Below(t: Tables, u: nat): set<nat> {
    set s | s in t.logins && t.logins[s].user == u && t.logins[s].aal.Some?
      && t.logins[s].aal.value.Rank() < AAL2.Rank()
  }

  function PendingOfKind(t: Tables, u: nat, kind: Kind): set<nat> {
    set f | f in PendingOf(t, u) && t.factors[f].kind == kind
  }

  /** The session `s` of the owner of `f` presents a code that fits. */
  function Verify(t: Tables, s: nat, f: nat, now: Time): Tables
    requires f in t.factors && s in t.logins
  {
    var u, kind := t.factors[f].user, t.factors[f].kind;
    var raised := Raise(MarkVerified(t, f), s, f, now);
    var invalidated := Logout(raised, Below(raised, u));
    DropFactors(invalidated, PendingOfKind(invalidated, u, kind))
  }

  // ----- unenrolling

  function WithFactor(t: Tables, f: nat): set<nat> {
    set s | s in t.logins && t.logins[s].factor == Some(f)
  }

  /** A session verified with the factor loses the claim named like the kind; if it is the owner's, also the level. */
  function Downgraded(login: Login, factor: Factor): Login {
    var l := login.(claims := login.claims - {factor.kind.Name()});
    if l.user == factor.user then l.(aal := Some(AAL1), factor := None) else l
  }

  function Downgrade(t: Tables, f: nat, factor: Factor): Tables {
    t.(logins := map s | s in t.logins ::
        if s in WithFactor(t, f) then Downgraded(t.logins[s], factor) else t.logins[s])
  }

  predicate MayUnenrol(t: Tables, s: nat, f: nat)
    requires f in t.factors && s in t.logins
  {
    t.factors[f].verified ==> t.logins[s].IsAal2()
  }

  function Unenrol(t: Tables, s: nat, f: nat): Tables
    requires f in t.factors && s in t.logins
  {
    if !MayUnenrol(t, s, f) then t
    else Downgrade(DropFactors(t, {f}), f, t.factors[f])
  }
}
