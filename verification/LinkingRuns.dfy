/** Runs of sign-ups, invitations, external and SAML sign-ins, confirmations and unlinks, and the invariant that
    ties each user to one linking domain. */
module LinkingRuns {
  import opened Common
  import opened Linking

  datatype Event =
    | SignInEvent(req: SignIn)
    | AcceptEvent(user: nat, req: SignIn)
    | SignUpEvent(signUp: SignUpRequest, found: Option<nat>)
    | InviteEvent(email: string, aud: string, found: Option<nat>, mailFails: bool)
    | ConfirmEvent(user: nat, byPhone: bool)
    | UnlinkEvent(user: nat, key: Key, choice: Option<string>)

  /** What a SAML assertion provides: one address, vouched for. */
  predicate IsAssertion(emails: seq<ProviderEmail>) {
    |emails| == 1 && emails[0].verified && emails[0].primary && emails[0].email != ""
  }

  /** Only SAML assertions come from SSO providers, invitations are accepted through the others, and the queries
      that an event depends on may give any answer the tables allow. */
  ghost predicate Enabled(d: Directory, e: Event)
    requires Intact(d)
  {
    match e
    case SignInEvent(req) => IsSso(req.provider) ==> IsAssertion(req.emails)
    case AcceptEvent(_, req) => !IsSso(req.provider)
    case SignUpEvent(signUp, found) => signUp.contact != "" && SignUpFinds(d, signUp, found)
    case InviteEvent(email, aud, found, _) =>
      (match found
       case Some(u) => u in UsersByEmail(d, email, aud)
       case None => UsersByEmail(d, email, aud) == {})
    case ConfirmEvent(u, _) => u in d.users && d.users[u].pending
    case UnlinkEvent(u, k, choice) =>
      Unlinkable(d, u, k) && k.provider != "phone" ==> EmailChoice(Without(d, {k}), u, choice)
  }

  ghost function Step(d: Directory, config: Config, e: Event): (r: Directory)
    requires Intact(d) && Enabled(d, e)
    ensures Intact(r)
  {
    match e
    case SignInEvent(req) => Enter(d, config, req).0
    case AcceptEvent(u, req) => AcceptInvite(d, u, req).0
    case SignUpEvent(signUp, found) => SignUp(d, config, signUp, found)
    case InviteEvent(email, aud, found, mailFails) => Invite(d, email, aud, found, mailFails)
    case ConfirmEvent(u, byPhone) => if byPhone then PhoneConfirmed(d, u) else Confirmed(d, u)
    case UnlinkEvent(u, k, choice) => Unlink(d, u, k, choice)
  }

  ghost predicate Runs(d: Directory, config: Config, es: seq<Event>)
    requires Intact(d)
    decreases |es|
  {
    es != [] ==>
      && Enabled(d, es[0])
      && Runs(Step(d, config, es[0]), config, es[1..])
  }

  ghost function End(d: Directory, config: Config, es: seq<Event>): (r: Directory)
    requires Intact(d) && Runs(d, config, es)
    ensures Intact(r)
    decreases |es|
  {
    if es == [] then d else End(Step(d, config, es[0]), config, es[1..])
  }

  // ----- one linking domain per user

  predicate SsoMatches(d: Directory)
    requires Intact(d)
  {
    forall k :: k in d.identities ==> (d.users[d.identities[k].user].sso <==> IsSso(k.provider))
  }

  predicate OneDomain(d: Directory) {
    forall k, l :: k in d.identities && l in d.identities && d.identities[k].user == d.identities[l].user ==>
      Domain(k.provider) == Domain(l.provider)
  }

  predicate NoSsoPending(d: Directory) {
    forall u :: u in d.users && d.users[u].sso ==> !d.users[u].pending
  }

  predicate Linked(d: Directory) {
    Intact(d) && SsoMatches(d) && OneDomain(d) && NoSsoPending(d)
  }

  /** A change of a user that leaves its kind alone. */
  lemma LinkedSetUser(d: Directory, u: nat, user: User)
    requires Linked(d) && u in d.users && user.sso == d.users[u].sso && (user.sso ==> !user.pending)
    ensures Linked(SetUser(d, u, user))
  {
  }

  lemma LinkedWithout(d: Directory, gone: set<Key>)
    requires Linked(d)
    ensures Linked(Without(d, gone))
  {
  }

  lemma LinkedKeepOnly(d: Directory, u: nat, k: Key)
    requires Linked(d) && u in d.users
    ensures Linked(KeepOnly(d, u, k))
    ensures KeepOnly(d, u, k).users.Keys == d.users.Keys
    ensures KeepOnly(d, u, k).users[u].sso == d.users[u].sso
  {
    var s := SetUser(d, u, d.users[u].(password := d.users[u].password && k.provider in {"email", "phone"}));
    LinkedSetUser(d, u, s.users[u]);
    var w := Without(s, Owned(d, u) - {k});
    LinkedWithout(s, Owned(d, u) - {k});
    LinkedSetUser(w, u, w.users[u].(providers := ProvidersOf(w, u)));
  }

  /** A user may be given an identity of its own domain. */
  lemma LinkedSetIdentity(d: Directory, k: Key, u: nat, email: string)
    requires Linked(d) && u in d.users && d.users[u].sso == IsSso(k.provider)
    requires d.users[u].sso ==> forall l :: l in Owned(d, u) ==> Domain(l.provider) == Domain(k.provider)
    ensures Linked(SetIdentity(d, k, u, email))
  {
    var s := SetIdentity(d, k, u, email);
    forall l | l in s.identities && s.identities[l].user == u ensures Domain(l.provider) == Domain(k.provider) {
      assert l == k || l in Owned(d, u);
    }
  }

  lemma LinkedNewUser(d: Directory, user: User)
    requires Linked(d) && !user.pending
    ensures Linked(NewUser(d, user)) && Owned(NewUser(d, user), d.nextUser) == {}
  {
  }

  /** The user that a decision settles on is of the provider's kind, and all its identities of the provider's domain. */
  lemma DecisionStaysInDomain(d: Directory, config: Config, req: SignIn)
    requires Linked(d)
    ensures var r := Decide(d, config, req);
            r.AccountExists? || r.LinkAccount? ==>
              && d.users[r.user].sso == IsSso(req.provider)
              && forall l :: l in Owned(d, r.user) ==> Domain(l.provider) == Domain(req.provider)
  {
    var r := Decide(d, config, req);
    if r.LinkAccount? {
      var verified := Verified(config, req.emails);
      var owners := LinkingOwners(d, verified, Domain(req.provider));
      if owners != {} {
        assert r.user in owners;
      } else {
        assert r.user in UsersWith(d, verified);
      }
    }
  }

  lemma LinkedCarried(d: Directory, config: Config, req: SignIn)
    requires Linked(d)
    ensures var c := Carried(d, config, req);
            c.Some? ==>
              && Linked(c.value.0)
              && c.value.0.users[c.value.1].sso == IsSso(req.provider)
  {
    DecisionStaysInDomain(d, config, req);
    match Decide(d, config, req) {
      case AccountExists(u, _) =>
        var s := SetIdentity(d, req.Id(), u, req.metaEmail);
        LinkedSetIdentity(d, req.Id(), u, req.metaEmail);
        LinkedSetUser(s, u, s.users[u].(providers := ProvidersOf(s, u)));
      case LinkAccount(u, _) =>
        var s := SetIdentity(d, req.Id(), u, req.metaEmail);
        LinkedSetIdentity(d, req.Id(), u, req.metaEmail);
        LinkedSetUser(s, u, s.users[u].(providers := ProvidersOf(s, u)));
      case CreateAccount(candidate) =>
        LinkedNewUser(d, ExternalUser(req, candidate.email));
        LinkedSetIdentity(NewUser(d, ExternalUser(req, candidate.email)), req.Id(), d.nextUser, req.metaEmail);
      case MultipleAccounts(_) =>
    }
  }

  lemma AssertionsAreVerified(d: Directory, config: Config, req: SignIn)
    requires Intact(d) && IsAssertion(req.emails)
    ensures Decide(d, config, req).candidate.verified
  {
    assert Lower(req.emails[0].email) in Verified(config, req.emails);
  }

  lemma LinkedNotices(d: Directory, u: nat)
    requires Linked(d) && u in d.users
    ensures Linked(Confirmed(d, u)) && Linked(PhoneConfirmed(d, u))
    ensures !d.users[u].sso ==> Linked(Mailed(d, u))
  {
    LinkedSetUser(d, u, Confirmed(d, u).users[u]);
    LinkedSetUser(d, u, PhoneConfirmed(d, u).users[u]);
    if !d.users[u].sso { LinkedSetUser(d, u, Mailed(d, u).users[u]); }
  }

  lemma LinkedAdmit(d: Directory, c: Directory, u: nat, candidate: ProviderEmail, config: Config, req: SignIn)
    requires Linked(d) && Linked(c) && u in c.users && (c.users[u].sso ==> candidate.verified)
    ensures Linked(Admit(d, c, u, candidate, config, req).0)
  {
    LinkedKeepOnly(c, u, req.Id());
    LinkedNotices(KeepOnly(c, u, req.Id()), u);
  }

  lemma LinkedEnter(d: Directory, config: Config, req: SignIn)
    requires Linked(d) && (IsSso(req.provider) ==> IsAssertion(req.emails))
    ensures Linked(Enter(d, config, req).0)
  {
    LinkedCarried(d, config, req);
    if IsSso(req.provider) { AssertionsAreVerified(d, config, req); }
    var c := Carried(d, config, req);
    if c.Some? {
      LinkedAdmit(d, c.value.0, c.value.1, Decide(d, config, req).candidate, config, req);
    }
  }

  lemma LinkedAccept(d: Directory, u: nat, req: SignIn)
    requires Linked(d) && !IsSso(req.provider)
    ensures Linked(AcceptInvite(d, u, req).0)
  {
    if AcceptInvite(d, u, req).1.Entered? {
      var s := SetIdentity(d, req.Id(), u, req.metaEmail);
      LinkedSetIdentity(d, req.Id(), u, req.metaEmail);
      LinkedKeepOnly(s, u, req.Id());
      var kept := KeepOnly(s, u, req.Id());
      LinkedSetUser(kept, u, Confirmed(kept, u).users[u]);
    }
  }

  lemma BuiltInProvidersArePlain()
    ensures !IsSso("email") && !IsSso("phone")
  {
    assert "email"[0] != SSO_PREFIX[0] && "phone"[0] != SSO_PREFIX[0];
  }

  lemma LinkedRegistered(d: Directory, req: SignUpRequest, u: nat)
    requires Linked(d) && u in d.users && !d.users[u].sso
    ensures Linked(Registered(d, req, u)) && !Registered(d, req, u).users[u].sso
  {
    var k := Key(req.Provider(), OfUser(u));
    var email := if d.users[u].email != "" then d.users[u].email else req.dataEmail;
    BuiltInProvidersArePlain();
    LinkedSetIdentity(d, k, u, email);
    LinkedKeepOnly(SetIdentity(d, k, u, email), u, k);
  }

  lemma LinkedRegister(d: Directory, config: Config, req: SignUpRequest, u: nat)
    requires Linked(d) && u in d.users && !d.users[u].sso
    ensures var r := Notified(Registered(d, req, u), config, req, u); r.Some? ==> Linked(r.value)
  {
    LinkedRegistered(d, req, u);
    LinkedNotices(Registered(d, req, u), u);
  }

  /** Whom a sign-up comes upon is never an SSO user. */
  lemma SignUpFindsPlainUsers(d: Directory, req: SignUpRequest, u: nat)
    requires Linked(d) && SignUpFinds(d, req, Some(u))
    ensures u in d.users && !d.users[u].sso
  {
  }

  lemma LinkedSignUp(d: Directory, config: Config, req: SignUpRequest, found: Option<nat>)
    requires Linked(d) && SignUpFinds(d, req, found)
    ensures Linked(SignUp(d, config, req, found))
  {
    match found
    case None =>
      LinkedNewUser(d, req.Account());
      LinkedRegister(NewUser(d, req.Account()), config, req, d.nextUser);
    case Some(u) =>
      SignUpFindsPlainUsers(d, req, u);
      LinkedRegister(d, config, req, u);
  }

  lemma LinkedInvite(d: Directory, email: string, aud: string, found: Option<nat>, mailFails: bool)
    requires Linked(d) && Enabled(d, InviteEvent(email, aud, found, mailFails))
    ensures Linked(Invite(d, email, aud, found, mailFails))
  {
    match found
    case Some(u) => LinkedSetUser(d, u, Mailed(d, u).users[u]);
    case None =>
      var user := User(aud, Lower(email), "", false, false, {"email"}, false, false, false);
      var k, n := Key("email", OfUser(d.nextUser)), NewUser(d, user);
      BuiltInProvidersArePlain();
      LinkedNewUser(d, user);
      LinkedSetIdentity(n, k, d.nextUser, Lower(email));
      var s := SetIdentity(n, k, d.nextUser, Lower(email));
      LinkedSetUser(s, d.nextUser, Mailed(s, d.nextUser).users[d.nextUser]);
  }

  lemma LinkedUnlink(d: Directory, u: nat, k: Key, choice: Option<string>)
    requires Linked(d)
    ensures Linked(Unlink(d, u, k, choice))
  {
    LinkedWithout(d, {k});
  }

  lemma LinkedStep(d: Directory, config: Config, e: Event)
    requires Linked(d) && Enabled(d, e)
    ensures Linked(Step(d, config, e))
  {
    match e
    case SignInEvent(req) => LinkedEnter(d, config, req);
    case AcceptEvent(u, req) => LinkedAccept(d, u, req);
    case SignUpEvent(signUp, found) => LinkedSignUp(d, config, signUp, found);
    case InviteEvent(email, aud, found, mailFails) => LinkedInvite(d, email, aud, found, mailFails);
    case ConfirmEvent(u, byPhone) => LinkedSetUser(d, u, Step(d, config, e).users[u]);
    case UnlinkEvent(u, k, choice) => LinkedUnlink(d, u, k, choice);
  }

  /** Over every run all identities of a user lie in one linking domain, and a user with identities is an SSO user
      exactly when that domain is an SSO provider. */
  lemma {:induction false} EveryUserHasOneDomain(d: Directory, config: Config, es: seq<Event>)
    requires Linked(d) && Runs(d, config, es)
    ensures Linked(End(d, config, es))
    decreases |es|
  {
    if es != [] {
      LinkedStep(d, config, es[0]);
      EveryUserHasOneDomain(Step(d, config, es[0]), config, es[1..]);
    }
  }
}
