/** What account linking guarantees over whole runs: unique addresses within an audience, decisions that do not
    depend on any order and that last, and accurate lists of providers. */
module LinkingTheorems {
  import opened Common
  import opened Linking
  import opened LinkingRuns

  // ----- the decision does not depend on the order of addresses

  predicate OnePrimary(emails: seq<ProviderEmail>) {
    forall x, y :: x in emails && y in emails && x.primary && y.primary ==> x == y
  }

  lemma {:induction false} CandidateIsPrimary(emails: seq<ProviderEmail>)
    ensures var c := Candidate(emails);
            if c == NO_EMAIL then forall e :: e in emails ==> !e.primary
            else exists e :: e in emails && e.primary && c == e.(email := Lower(e.email))
  {
    if emails != [] {
      var init, last := emails[..|emails| - 1], emails[|emails| - 1];
      assert emails == init + [last];
      if last.primary {
        assert last in emails && Candidate(emails) == last.(email := Lower(last.email));
      } else {
        CandidateIsPrimary(init);
        if Candidate(init) != NO_EMAIL {
          var e :| e in init && e.primary && Candidate(init) == e.(email := Lower(e.email));
          assert e in emails;
        }
      }
    }
  }

  /** Two lists with the same addresses, in whatever order, lead to the same decision and the same user. */
  lemma DecisionIgnoresOrder(d: Directory, config: Config, req: SignIn, other: SignIn)
    requires Intact(d) && OnePrimary(req.emails)
    requires other == req.(emails := other.emails)
    requires forall e :: e in req.emails <==> e in other.emails
    ensures Decide(d, config, req) == Decide(d, config, other)
  {
    CandidateIsPrimary(req.emails);
    CandidateIsPrimary(other.emails);
    assert Candidate(req.emails) == Candidate(other.emails);
    assert Verified(config, req.emails) == Verified(config, other.emails);
  }

  // ----- what a step leaves of the users it does not create

  /** The same users, with the same audience, address and kind. */
  predicate SameFaces(d: Directory, r: Directory) {
    && r.users.Keys == d.users.Keys
    && forall u :: u in d.users ==>
         r.users[u].aud == d.users[u].aud && r.users[u].email == d.users[u].email && r.users[u].sso == d.users[u].sso
  }

  lemma FacesChain(a: Directory, b: Directory, c: Directory)
    requires SameFaces(a, b) && SameFaces(b, c)
    ensures SameFaces(a, c)
  {
  }

  lemma KeepOnlyFaces(d: Directory, u: nat, k: Key)
    requires u in d.users
    ensures SameFaces(d, KeepOnly(d, u, k))
  {
  }

  lemma NoticesFaces(d: Directory, u: nat)
    requires u in d.users
    ensures SameFaces(d, Confirmed(d, u)) && SameFaces(d, PhoneConfirmed(d, u)) && SameFaces(d, Mailed(d, u))
  {
  }

  lemma SettleFaces(d: Directory, kept: Directory, u: nat, candidate: ProviderEmail, config: Config, req: SignIn)
    requires u in kept.users
    ensures var r := Settle(d, kept, u, candidate, config, req);
            if r.1.Refused? then r.0 == d else SameFaces(kept, r.0)
  {
    NoticesFaces(kept, u);
  }

  lemma AdmitFaces(d: Directory, c: Directory, u: nat, candidate: ProviderEmail, config: Config, req: SignIn)
    requires u in c.users
    ensures var r := Admit(d, c, u, candidate, config, req);
            if r.1.Refused? then r.0 == d else SameFaces(c, r.0)
  {
    var kept, r := KeepOnly(c, u, req.Id()), Admit(d, c, u, candidate, config, req);
    KeepOnlyFaces(c, u, req.Id());
    SettleFaces(d, kept, u, candidate, config, req);
    if SameFaces(kept, r.0) { FacesChain(c, kept, r.0); }
  }

  lemma CarriedFaces(d: Directory, config: Config, req: SignIn)
    requires Intact(d)
    ensures var c, decision := Carried(d, config, req), Decide(d, config, req);
            c.Some? ==>
              if decision.CreateAccount?
              then SameFaces(NewUser(d, ExternalUser(req, decision.candidate.email)), c.value.0)
              else SameFaces(d, c.value.0)
  {
  }

  /** The user an external sign-in adds, if it adds one. */
  ghost predicate Adds(d: Directory, config: Config, req: SignIn)
    requires Intact(d)
  {
    Decide(d, config, req).CreateAccount? && !Enter(d, config, req).1.Refused?
  }

  lemma EnterFaces(d: Directory, config: Config, req: SignIn)
    requires Intact(d)
    ensures var r := Enter(d, config, req).0;
            if Adds(d, config, req)
            then SameFaces(NewUser(d, ExternalUser(req, Decide(d, config, req).candidate.email)), r)
            else SameFaces(d, r)
  {
    var c, decision, r := Carried(d, config, req), Decide(d, config, req), Enter(d, config, req);
    if c.Some? {
      CarriedFaces(d, config, req);
      AdmitFaces(d, c.value.0, c.value.1, decision.candidate, config, req);
      if !r.1.Refused? {
        var base := if decision.CreateAccount? then NewUser(d, ExternalUser(req, decision.candidate.email)) else d;
        FacesChain(base, c.value.0, r.0);
      }
    }
  }

  lemma RegisterFaces(d: Directory, config: Config, req: SignUpRequest, u: nat)
    requires u in d.users
    ensures var r := Notified(Registered(d, req, u), config, req, u); r.Some? ==> SameFaces(d, r.value)
  {
    var k := Key(req.Provider(), OfUser(u));
    var email := if d.users[u].email != "" then d.users[u].email else req.dataEmail;
    KeepOnlyFaces(SetIdentity(d, k, u, email), u, k);
    var s := Registered(d, req, u);
    assert SameFaces(d, s);
    NoticesFaces(s, u);
  }

  lemma SignUpFaces(d: Directory, config: Config, req: SignUpRequest, found: Option<nat>)
    requires Intact(d)
    ensures var r := SignUp(d, config, req, found);
            SameFaces(d, r) || (found == None && SameFaces(NewUser(d, req.Account()), r))
  {
    match found
    case None => RegisterFaces(NewUser(d, req.Account()), config, req, d.nextUser);
    case Some(u) => if u in d.users { RegisterFaces(d, config, req, u); }
  }

  lemma AcceptFaces(d: Directory, u: nat, req: SignIn)
    ensures SameFaces(d, AcceptInvite(d, u, req).0)
  {
    if AcceptInvite(d, u, req).1.Entered? {
      var s := SetIdentity(d, req.Id(), u, req.metaEmail);
      KeepOnlyFaces(s, u, req.Id());
      NoticesFaces(KeepOnly(s, u, req.Id()), u);
    }
  }

  lemma InviteFaces(d: Directory, email: string, aud: string, found: Option<nat>, mailFails: bool)
    requires Intact(d)
    ensures var r := Invite(d, email, aud, found, mailFails);
            var user := User(aud, Lower(email), "", false, false, {"email"}, false, false, false);
            SameFaces(d, r) || (found == None && SameFaces(NewUser(d, user), r))
  {
  }

  // ----- unique addresses

  /** Addresses are stored in lower case. */
  predicate Folded(d: Directory) {
    && (forall u :: u in d.users ==> Lower(d.users[u].email) == d.users[u].email)
    && (forall k :: k in d.identities ==> Lower(d.identities[k].email) == d.identities[k].email)
  }

  predicate Clash(d: Directory, u: nat, v: nat)
    requires u in d.users && v in d.users
  {
    && u != v && !d.users[u].sso && !d.users[v].sso && d.users[u].aud == d.users[v].aud
    && d.users[u].email != "" && d.users[u].email == d.users[v].email
  }

  /** No two non-SSO users of an audience share an address. */
  predicate UniqueEmails(d: Directory) {
    forall u, v :: u in d.users && v in d.users ==> !Clash(d, u, v)
  }

  lemma UniqueByFaces(d: Directory, r: Directory)
    requires SameFaces(d, r)
    ensures UniqueEmails(d) <==> UniqueEmails(r)
  {
    if UniqueEmails(d) {
      forall u, v | u in r.users && v in r.users ensures !Clash(r, u, v) {
        assert u in d.users && v in d.users && !Clash(d, u, v);
      }
    }
    if UniqueEmails(r) {
      forall u, v | u in d.users && v in d.users ensures !Clash(d, u, v) {
        assert u in r.users && v in r.users && !Clash(r, u, v);
      }
    }
  }

  predicate Taken(d: Directory, email: string, aud: string) {
    UsersByEmail(d, email, aud) != {}
  }

  lemma UniqueNewUser(d: Directory, user: User)
    requires Intact(d) && Folded(d) && UniqueEmails(d) && Lower(user.email) == user.email
    ensures UniqueEmails(NewUser(d, user)) <==> user.sso || !Taken(d, user.email, user.aud)
  {
    var n := NewUser(d, user);
    if !user.sso && Taken(d, user.email, user.aud) {
      var v :| v in UsersByEmail(d, user.email, user.aud);
      assert Clash(n, v, d.nextUser);
    } else {
      forall u, v | u in n.users && v in n.users ensures !Clash(n, u, v) {
        if u != d.nextUser && v != d.nextUser {
          assert !Clash(d, u, v);
        } else if u != v {
          var w := if u == d.nextUser then v else u;
          assert w !in UsersByEmail(d, user.email, user.aud) || user.sso;
        }
      }
    }
  }

  /** The primary address is vouched for, or absent, or no address is vouched for at all. */
  predicate Safe(config: Config, emails: seq<ProviderEmail>) {
    || Verified(config, emails) == {}
    || Candidate(emails).email == ""
    || Candidate(emails).email in Verified(config, emails)
  }

  lemma VerifiedPrimaryIsSafe(config: Config, emails: seq<ProviderEmail>)
    requires Candidate(emails).verified || config.autoconfirm
    ensures Safe(config, emails)
  {
    CandidateIsPrimary(emails);
    if Candidate(emails) != NO_EMAIL {
      var e :| e in emails && e.primary && Candidate(emails) == e.(email := Lower(e.email));
      assert Lower(e.email) in Verified(config, emails);
    }
  }

  /** The address of an account about to be created is free, if it is a safe one or was found free. */
  lemma CreatedAddressIsFree(d: Directory, config: Config, req: SignIn)
    requires Intact(d) && Folded(d) && Decide(d, config, req).CreateAccount? && !IsSso(req.provider)
    ensures var email := Decide(d, config, req).candidate.email;
            && Lower(email) == email
            && (Taken(d, email, req.aud) <==>
                !Safe(config, req.emails) && Taken(d, Candidate(req.emails).email, req.aud))
  {
    var candidate, verified := Candidate(req.emails), Verified(config, req.emails);
    CandidateIsPrimary(req.emails);
    forall e | e in req.emails { LowerTwice(e.email); }
    if verified != {} && candidate.email in verified {
      assert UsersByEmail(d, candidate.email, req.aud) <= UsersWith(d, verified);
    }
  }

  /** The sign-in is of the shape that makes the program create an account for an address nobody vouched for: the
      primary address is unvouched while another one is vouched for, the identity is new, no account is found by the
      vouched addresses, and nothing turns the sign-in away. */
  predicate CreatesUnvouched(d: Directory, config: Config, req: SignIn) {
    var verified := Verified(config, req.emails);
    && !Safe(config, req.emails) && !IsSso(req.provider)
    && req.Id() !in d.identities
    && LinkingOwners(d, verified, Domain(req.provider)) == {} && UsersWith(d, verified) == {}
    && !config.disableSignup && d.nextUser !in req.banned && (req.provider == "web3" || !req.mailFails)
  }

  lemma UnvouchedIsAdded(d: Directory, config: Config, req: SignIn)
    requires Intact(d) && !Safe(config, req.emails) && !IsSso(req.provider)
    ensures Adds(d, config, req) <==> CreatesUnvouched(d, config, req)
  {
    if Candidate(req.emails).verified || config.autoconfirm { VerifiedPrimaryIsSafe(config, req.emails); }
  }

  /** The exact condition under which an external sign-in keeps addresses unique: it fails only by creating an account
      for a primary address that nobody vouched for, while vouching for another one, when that address is in use. */
  lemma SignInKeepsAddressesUniqueExactly(d: Directory, config: Config, req: SignIn)
    requires Intact(d) && Folded(d) && UniqueEmails(d)
    ensures UniqueEmails(Enter(d, config, req).0) <==>
            !(CreatesUnvouched(d, config, req) && Taken(d, Candidate(req.emails).email, req.aud))
  {
    EnterFaces(d, config, req);
    if !Safe(config, req.emails) && !IsSso(req.provider) { UnvouchedIsAdded(d, config, req); }
    var r, decision := Enter(d, config, req).0, Decide(d, config, req);
    if Adds(d, config, req) {
      var user := ExternalUser(req, decision.candidate.email);
      LowerTwice(decision.candidate.email);
      UniqueNewUser(d, user);
      UniqueByFaces(NewUser(d, user), r);
      if !IsSso(req.provider) { CreatedAddressIsFree(d, config, req); }
    } else {
      UniqueByFaces(d, r);
    }
  }

  /** The family of requests that the condition shuts out is not empty: the second account has the first one's
      address. */
  lemma UnverifiedPrimaryDuplicatesAnAddress()
    ensures var d := Directory(map[0 := User("aud", "a", "", false, true, {"email"}, true, false, false)],
                               map[Key("email", OfUser(0)) := Identity(0, "a")], 1);
            var req := SignIn("oauth", "s", [ProviderEmail("a", false, true), ProviderEmail("b", true, false)], "a",
                              "aud", {}, false);
            Intact(d) && Folded(d) && UniqueEmails(d)
              && !UniqueEmails(Enter(d, Config(false, false, false, false), req).0)
  {
    var config := Config(false, false, false, false);
    var d := Directory(map[0 := User("aud", "a", "", false, true, {"email"}, true, false, false)],
                       map[Key("email", OfUser(0)) := Identity(0, "a")], 1);
    var emails := [ProviderEmail("a", false, true), ProviderEmail("b", true, false)];
    var req := SignIn("oauth", "s", emails, "a", "aud", {}, false);
    assert Lower("a") == "a" && Lower("b") == "b";
    assert !IsSso("oauth") by { assert "oauth"[0] != SSO_PREFIX[0]; }
    assert emails[..1] == [emails[0]];
    assert Candidate(emails) == emails[0];
    assert Verified(config, emails) == {"b"} by { assert emails[1] in emails; }
    assert LinkingOwners(d, {"b"}, Domain("oauth")) == {} && UsersWith(d, {"b"}) == {};
    assert Decide(d, config, req) == CreateAccount(emails[0]);
    assert 0 in UsersByEmail(d, "a", "aud");
    SignInKeepsAddressesUniqueExactly(d, config, req);
  }

  /** The address that unlinking leaves the user with is one nobody else holds. */
  lemma UnlinkKeepsAddressesUnique(d: Directory, u: nat, k: Key, choice: Option<string>)
    requires Intact(d) && Folded(d) && UniqueEmails(d) && Enabled(d, UnlinkEvent(u, k, choice))
    ensures UniqueEmails(Unlink(d, u, k, choice))
  {
    var r, rest := Unlink(d, u, k, choice), Without(d, {k});
    if SameFaces(d, r) {
      UniqueByFaces(d, r);
    } else {
      var email := choice.value;
      assert email in FreeEmails(rest, u);
      var l :| l in Owned(rest, u) && UsersByEmail(rest, rest.identities[l].email, rest.users[u].aud) == {}
               && rest.identities[l].email == email;
      forall v, w | v in r.users && w in r.users ensures !Clash(r, v, w) {
        assert !Clash(d, v, w);
        var x := if v == u then w else v;
        assert x !in UsersByEmail(rest, email, rest.users[u].aud);
      }
    }
  }

  lemma FoldedKeepOnly(d: Directory, u: nat, k: Key)
    requires u in d.users && Folded(d)
    ensures Folded(KeepOnly(d, u, k))
  {
  }

  lemma FoldedSetIdentity(d: Directory, k: Key, u: nat, email: string)
    requires Folded(d)
    ensures Folded(SetIdentity(d, k, u, email))
  {
    LowerTwice(email);
  }

  lemma FoldedNotices(d: Directory, u: nat)
    requires u in d.users && Folded(d)
    ensures Folded(Confirmed(d, u)) && Folded(PhoneConfirmed(d, u)) && Folded(Mailed(d, u))
  {
  }

  lemma FoldedAdmit(d: Directory, c: Directory, u: nat, candidate: ProviderEmail, config: Config, req: SignIn)
    requires u in c.users && Folded(d) && Folded(c)
    ensures Folded(Admit(d, c, u, candidate, config, req).0)
  {
    FoldedKeepOnly(c, u, req.Id());
    FoldedNotices(KeepOnly(c, u, req.Id()), u);
  }

  lemma FoldedEnter(d: Directory, config: Config, req: SignIn)
    requires Intact(d) && Folded(d)
    ensures Folded(Enter(d, config, req).0)
  {
    LowerTwice(req.metaEmail);
    LowerTwice(Decide(d, config, req).candidate.email);
    var c := Carried(d, config, req);
    if c.Some? { FoldedAdmit(d, c.value.0, c.value.1, Decide(d, config, req).candidate, config, req); }
  }

  lemma FoldedAccept(d: Directory, u: nat, req: SignIn)
    requires Folded(d)
    ensures Folded(AcceptInvite(d, u, req).0)
  {
    FoldedSetIdentity(d, req.Id(), u, req.metaEmail);
    if u in d.users {
      FoldedKeepOnly(SetIdentity(d, req.Id(), u, req.metaEmail), u, req.Id());
    }
  }

  lemma FoldedRegister(d: Directory, config: Config, req: SignUpRequest, u: nat)
    requires u in d.users && Folded(d)
    ensures var r := Notified(Registered(d, req, u), config, req, u); r.Some? ==> Folded(r.value)
  {
    var k := Key(req.Provider(), OfUser(u));
    var email := if d.users[u].email != "" then d.users[u].email else req.dataEmail;
    FoldedSetIdentity(d, k, u, email);
    FoldedKeepOnly(SetIdentity(d, k, u, email), u, k);
    FoldedNotices(Registered(d, req, u), u);
  }

  lemma FoldedSignUp(d: Directory, config: Config, req: SignUpRequest, found: Option<nat>)
    requires Folded(d)
    ensures Folded(SignUp(d, config, req, found))
  {
    match found
    case None =>
      LowerTwice(req.contact);
      FoldedRegister(NewUser(d, req.Account()), config, req, d.nextUser);
    case Some(u) => if u in d.users { FoldedRegister(d, config, req, u); }
  }

  lemma FoldedInvite(d: Directory, email: string, aud: string, found: Option<nat>, mailFails: bool)
    requires Folded(d)
    ensures Folded(Invite(d, email, aud, found, mailFails))
  {
    LowerTwice(email);
    LowerTwice(Lower(email));
  }

  lemma FoldedUnlink(d: Directory, u: nat, k: Key, choice: Option<string>)
    requires Intact(d) && Folded(d) && Enabled(d, UnlinkEvent(u, k, choice))
    ensures Folded(Unlink(d, u, k, choice))
  {
    if Unlinkable(d, u, k) && k.provider != "phone" && choice.Some? {
      assert Lower(choice.value) == choice.value;
    }
  }

  lemma FoldedStep(d: Directory, config: Config, e: Event)
    requires Intact(d) && Folded(d) && Enabled(d, e)
    ensures Folded(Step(d, config, e))
  {
    match e
    case SignInEvent(req) => FoldedEnter(d, config, req);
    case AcceptEvent(u, req) => FoldedAccept(d, u, req);
    case SignUpEvent(signUp, found) => FoldedSignUp(d, config, signUp, found);
    case InviteEvent(email, aud, found, mailFails) => FoldedInvite(d, email, aud, found, mailFails);
    case ConfirmEvent(u, _) => FoldedNotices(d, u);
    case UnlinkEvent(u, k, choice) => FoldedUnlink(d, u, k, choice);
  }

  ghost predicate SafeEvent(config: Config, e: Event) {
    e.SignInEvent? && !IsSso(e.req.provider) ==> Safe(config, e.req.emails)
  }

  /** A step that at most adds a user with a free address. */
  lemma UniqueByAddition(d: Directory, user: User, r: Directory)
    requires Intact(d) && Folded(d) && UniqueEmails(d) && Lower(user.email) == user.email
    requires SameFaces(d, r) || (!Taken(d, user.email, user.aud) && SameFaces(NewUser(d, user), r))
    ensures UniqueEmails(r)
  {
    if SameFaces(d, r) {
      UniqueByFaces(d, r);
    } else {
      UniqueNewUser(d, user);
      UniqueByFaces(NewUser(d, user), r);
    }
  }

  lemma UniqueSignUp(d: Directory, config: Config, req: SignUpRequest, found: Option<nat>)
    requires Intact(d) && Folded(d) && UniqueEmails(d) && SignUpFinds(d, req, found)
    ensures UniqueEmails(SignUp(d, config, req, found))
  {
    SignUpFaces(d, config, req, found);
    LowerTwice(req.contact);
    UniqueByAddition(d, req.Account(), SignUp(d, config, req, found));
  }

  lemma UniqueInvite(d: Directory, email: string, aud: string, found: Option<nat>, mailFails: bool)
    requires Intact(d) && Folded(d) && UniqueEmails(d) && Enabled(d, InviteEvent(email, aud, found, mailFails))
    ensures UniqueEmails(Invite(d, email, aud, found, mailFails))
  {
    InviteFaces(d, email, aud, found, mailFails);
    LowerTwice(email);
    UniqueByAddition(d, User(aud, Lower(email), "", false, false, {"email"}, false, false, false),
                     Invite(d, email, aud, found, mailFails));
  }

  lemma UniqueStep(d: Directory, config: Config, e: Event)
    requires Intact(d) && Folded(d) && UniqueEmails(d) && Enabled(d, e) && SafeEvent(config, e)
    ensures UniqueEmails(Step(d, config, e))
  {
    match e
    case SignInEvent(req) => SignInKeepsAddressesUniqueExactly(d, config, req);
    case AcceptEvent(u, req) =>
      AcceptFaces(d, u, req);
      UniqueByFaces(d, AcceptInvite(d, u, req).0);
    case SignUpEvent(signUp, found) => UniqueSignUp(d, config, signUp, found);
    case InviteEvent(email, aud, found, mailFails) => UniqueInvite(d, email, aud, found, mailFails);
    case ConfirmEvent(u, _) =>
      NoticesFaces(d, u);
      UniqueByFaces(d, Step(d, config, e));
    case UnlinkEvent(u, k, choice) => UnlinkKeepsAddressesUnique(d, u, k, choice);
  }

  /** Over every run of sign-ups, invitations, unlinks and safe external sign-ins, no two non-SSO users of an audience
      come to share an address. */
  lemma {:induction false} AddressesStayUnique(d: Directory, config: Config, es: seq<Event>)
    requires Intact(d) && Folded(d) && UniqueEmails(d) && Runs(d, config, es)
    requires forall e :: e in es ==> SafeEvent(config, e)
    ensures UniqueEmails(End(d, config, es))
    decreases |es|
  {
    if es != [] {
      UniqueStep(d, config, es[0]);
      FoldedStep(d, config, es[0]);
      AddressesStayUnique(Step(d, config, es[0]), config, es[1..]);
    }
  }
}
