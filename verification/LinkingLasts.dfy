/** What becomes of the identities: a pair of provider and subject keeps leading to the same user, an unconfirmed
    user is left with one identity, unlinking never takes the last one, and the lists of providers are accurate. */
module LinkingLasts {
  import opened Common
  import opened Linking
  import opened LinkingRuns

  // ----- who owns what after each step

  lemma OwnedAfterKeepOnly(d: Directory, u: nat, k: Key)
    requires u in d.users && k in Owned(d, u)
    ensures var r := KeepOnly(d, u, k);
            && Owned(r, u) == {k}
            && r.users[u].providers == {k.provider}
            && (r.users[u].password ==> k.provider in {"email", "phone"})
            && (forall v: nat :: v != u ==> Owned(r, v) == Owned(d, v))
  {
    var r := KeepOnly(d, u, k);
    assert ProvidersOf(r, u) == {k.provider};
    assert ProvidersOf(Without(d, Owned(d, u) - {k}), u) == ProvidersOf(r, u);
  }

  lemma OwnedAfterSetIdentity(d: Directory, k: Key, u: nat, email: string)
    requires k in d.identities ==> d.identities[k].user == u
    ensures var r := SetIdentity(d, k, u, email);
            Owned(r, u) == Owned(d, u) + {k} && (forall v: nat :: v != u ==> Owned(r, v) == Owned(d, v))
  {
  }

  /** The user of an identity never changes while the identity is stored. */
  predicate SameOwners(d: Directory, r: Directory) {
    forall k :: k in d.identities && k in r.identities ==> d.identities[k].user == r.identities[k].user
  }

  lemma CarriedOwns(d: Directory, config: Config, req: SignIn)
    requires Intact(d)
    ensures var c := Carried(d, config, req);
            c.Some? ==>
              && req.Id() in Owned(c.value.0, c.value.1)
              && (forall v: nat :: v != c.value.1 ==> Owned(c.value.0, v) == Owned(d, v))
              && Owned(c.value.0, c.value.1) == Owned(d, c.value.1) + {req.Id()}
              && (c.value.1 in d.users ==>
                    c.value.0.users[c.value.1].emailConfirmed == d.users[c.value.1].emailConfirmed)
              && (c.value.1 !in d.users ==> !c.value.0.users[c.value.1].emailConfirmed)
  {
  }

  lemma AdmitOwns(d: Directory, c: Directory, u: nat, candidate: ProviderEmail, config: Config, req: SignIn)
    requires u in c.users && req.Id() in Owned(c, u)
    ensures var r := Admit(d, c, u, candidate, config, req);
            if r.1.Refused? then r.0 == d
            else
              && r.1.user == u && u in r.0.users
              && (forall v: nat :: v != u ==> Owned(r.0, v) == Owned(c, v))
              && (if req.provider == "web3" || c.users[u].emailConfirmed then r.0 == c
                  else Owned(r.0, u) == {req.Id()} && r.0.users[u].providers == {req.provider}
                       && (r.0.users[u].password ==> req.provider in {"email", "phone"}))
  {
    OwnedAfterKeepOnly(c, u, req.Id());
    var kept := KeepOnly(c, u, req.Id());
    assert forall v: nat :: Owned(Confirmed(kept, u), v) == Owned(kept, v)
                            && Owned(Mailed(kept, u), v) == Owned(kept, v);
  }

  /** A sign-in that is carried out leaves its identity with the user it names, and leaves the other users alone. An
      unconfirmed user is left with that identity alone, with the list of providers and the password to match. */
  lemma SignInOwns(d: Directory, config: Config, req: SignIn)
    requires Intact(d) && !Enter(d, config, req).1.Refused?
    ensures var r := Enter(d, config, req);
            && r.1.user in r.0.users
            && req.Id() in r.0.identities && r.0.identities[req.Id()].user == r.1.user
            && (forall v: nat :: v != r.1.user ==> Owned(r.0, v) == Owned(d, v))
            && (if req.provider == "web3" || (r.1.user in d.users && d.users[r.1.user].emailConfirmed)
                then Owned(r.0, r.1.user) == Owned(d, r.1.user) + {req.Id()}
                else
                  && Owned(r.0, r.1.user) == {req.Id()}
                  && r.0.users[r.1.user].providers == {req.provider}
                  && (r.0.users[r.1.user].password ==> req.provider in {"email", "phone"}))
  {
    CarriedOwns(d, config, req);
    var c, r := Carried(d, config, req), Enter(d, config, req);
    AdmitOwns(d, c.value.0, c.value.1, Decide(d, config, req).candidate, config, req);
    assert req.Id() in Owned(r.0, r.1.user);
  }

  /** Where the identities of `r` come from: those of `d` keep their user, and no new one is filed under the number of
      a user yet to come. */
  predicate Origins(d: Directory, r: Directory) {
    && d.nextUser <= r.nextUser
    && SameOwners(d, r)
    && forall k :: k in r.identities && k !in d.identities && k.subject.OfUser? ==> k.subject.user < r.nextUser
  }

  predicate Fewer(d: Directory, r: Directory) {
    r.nextUser == d.nextUser && forall k :: k in r.identities ==>
      k in d.identities && r.identities[k] == d.identities[k]
  }

  lemma KeepOnlyFewer(d: Directory, u: nat, k: Key)
    requires u in d.users
    ensures Fewer(d, KeepOnly(d, u, k))
  {
  }

  lemma OriginsFewer(d: Directory, c: Directory, r: Directory)
    requires Origins(d, c) && Fewer(c, r)
    ensures Origins(d, r)
  {
  }

  lemma SettleFewer(d: Directory, kept: Directory, u: nat, candidate: ProviderEmail, config: Config, req: SignIn)
    requires u in kept.users
    ensures var r := Settle(d, kept, u, candidate, config, req);
            !r.1.Refused? ==> Fewer(kept, r.0)
  {
  }

  lemma OriginsAdmit(d: Directory, c: Directory, u: nat, candidate: ProviderEmail, config: Config, req: SignIn)
    requires u in c.users && Origins(d, c)
    ensures Origins(d, Admit(d, c, u, candidate, config, req).0)
  {
    var kept, r := KeepOnly(c, u, req.Id()), Admit(d, c, u, candidate, config, req);
    if !r.1.Refused? {
      KeepOnlyFewer(c, u, req.Id());
      SettleFewer(d, kept, u, candidate, config, req);
      OriginsFewer(d, c, kept);
      if Fewer(kept, r.0) { OriginsFewer(d, kept, r.0); }
    }
  }

  lemma OriginsCarried(d: Directory, config: Config, req: SignIn)
    requires Intact(d)
    ensures var c := Carried(d, config, req); c.Some? ==> Origins(d, c.value.0)
  {
  }

  lemma OriginsEnter(d: Directory, config: Config, req: SignIn)
    requires Intact(d)
    ensures Origins(d, Enter(d, config, req).0)
  {
    OriginsCarried(d, config, req);
    var c := Carried(d, config, req);
    if c.Some? { OriginsAdmit(d, c.value.0, c.value.1, Decide(d, config, req).candidate, config, req); }
  }

  lemma OriginsReplaced(d: Directory, k: Key, u: nat, email: string)
    requires u in d.users && k !in d.identities && (k.subject.OfUser? ==> k.subject.user < d.nextUser)
    ensures Origins(d, KeepOnly(SetIdentity(d, k, u, email), u, k))
  {
    KeepOnlyFewer(SetIdentity(d, k, u, email), u, k);
    OriginsFewer(d, SetIdentity(d, k, u, email), KeepOnly(SetIdentity(d, k, u, email), u, k));
  }

  lemma OriginsAccept(d: Directory, u: nat, req: SignIn)
    ensures Origins(d, AcceptInvite(d, u, req).0)
  {
    if AcceptInvite(d, u, req).1.Entered? { OriginsReplaced(d, req.Id(), u, req.metaEmail); }
  }

  lemma OriginsRegister(d: Directory, config: Config, req: SignUpRequest, u: nat)
    requires u in d.users && u < d.nextUser
    ensures var r := Notified(Registered(d, req, u), config, req, u); r.Some? ==> Origins(d, r.value)
  {
    var k := Key(req.Provider(), OfUser(u));
    if k !in d.identities {
      OriginsReplaced(d, k, u, if d.users[u].email != "" then d.users[u].email else req.dataEmail);
    }
    var s := Registered(d, req, u);
    assert Origins(d, s);
    assert Fewer(s, PhoneConfirmed(s, u)) && Fewer(s, Confirmed(s, u)) && Fewer(s, Mailed(s, u));
  }

  lemma OriginsSignUp(d: Directory, config: Config, req: SignUpRequest, found: Option<nat>)
    requires Intact(d)
    ensures Origins(d, SignUp(d, config, req, found))
  {
    match found
    case None => OriginsRegister(NewUser(d, req.Account()), config, req, d.nextUser);
    case Some(u) => if u in d.users { OriginsRegister(d, config, req, u); }
  }

  lemma OriginsStep(d: Directory, config: Config, e: Event)
    requires Intact(d) && Enabled(d, e)
    ensures Origins(d, Step(d, config, e))
  {
    match e
    case SignInEvent(req) => OriginsEnter(d, config, req);
    case AcceptEvent(u, req) => OriginsAccept(d, u, req);
    case SignUpEvent(signUp, found) => OriginsSignUp(d, config, signUp, found);
    case InviteEvent(_, _, _, _) =>
    case ConfirmEvent(_, _) =>
    case UnlinkEvent(_, _, _) =>
  }

  // ----- decisions last

  /** The identity is stored throughout the run. */
  ghost predicate Stays(d: Directory, config: Config, es: seq<Event>, k: Key)
    requires Intact(d) && Runs(d, config, es)
    decreases |es|
  {
    k in d.identities && (es != [] ==> Stays(Step(d, config, es[0]), config, es[1..], k))
  }

  lemma {:induction false} OwnerLasts(d: Directory, config: Config, es: seq<Event>, k: Key)
    requires Intact(d) && Runs(d, config, es) && Stays(d, config, es, k)
    ensures k in End(d, config, es).identities && End(d, config, es).identities[k].user == d.identities[k].user
    decreases |es|
  {
    if es != [] {
      OriginsStep(d, config, es[0]);
      OwnerLasts(Step(d, config, es[0]), config, es[1..], k);
    }
  }

  /** After a sign-in that is carried out, and for as long as its identity is stored, every later decision for the same
      provider and subject is that the account exists, and it is the same user's. */
  lemma SignInLasts(d: Directory, config: Config, req: SignIn, es: seq<Event>, later: Config, again: SignIn)
    requires Intact(d) && !Enter(d, config, req).1.Refused?
    requires Runs(Enter(d, config, req).0, config, es) && Stays(Enter(d, config, req).0, config, es, req.Id())
    requires again.Id() == req.Id()
    ensures var decision := Decide(End(Enter(d, config, req).0, config, es), later, again);
            decision.AccountExists? && decision.user == Enter(d, config, req).1.user
  {
    SignInOwns(d, config, req);
    OwnerLasts(Enter(d, config, req).0, config, es, req.Id());
  }

  // ----- unlinking

  /** Unlinking takes that identity and no other, never the last one; unless it was a phone's, the address of the user
      is then that of an identity which remains. */
  lemma UnlinkLeavesAnIdentity(d: Directory, u: nat, k: Key, choice: Option<string>)
    requires Intact(d) && Unlinkable(d, u, k) && Enabled(d, UnlinkEvent(u, k, choice))
    requires k.provider == "phone" || choice.Some?
    ensures var r := Unlink(d, u, k, choice);
            && Owned(r, u) == Owned(d, u) - {k} && Owned(r, u) != {}
            && (forall v: nat :: v != u ==> Owned(r, v) == Owned(d, v))
            && (k.provider != "phone" ==> EmailIsBacked(r, u))
            && r.users[u].providers == ProvidersOf(r, u)
  {
    var r, rest := Unlink(d, u, k, choice), Without(d, {k});
    assert Owned(rest, u) == Owned(r, u) == Owned(d, u) - {k};
    assert |Owned(r, u)| == |Owned(d, u)| - 1;
    assert forall v: nat :: Owned(r, v) == Owned(rest, v);
    assert ProvidersOf(rest, u) == ProvidersOf(r, u);
    if k.provider != "phone" {
      if EmailIsBacked(rest, u) {
        var l :| l in Owned(rest, u) && rest.identities[l].email == rest.users[u].email;
        assert l in Owned(r, u) && r.identities[l].email == r.users[u].email;
      } else {
        var l :| l in Owned(rest, u) && rest.identities[l].email == choice.value;
        assert l in Owned(r, u) && r.identities[l].email == r.users[u].email;
      }
    }
  }

  // ----- lists of providers

  predicate ListedExactly(d: Directory, u: nat)
    requires u in d.users
  {
    d.users[u].providers == ProvidersOf(d, u)
  }

  predicate Accurate(d: Directory) {
    forall u :: u in d.users ==> ListedExactly(d, u)
  }

  /** A step that concerns one user, whose list it leaves accurate. */
  lemma AccurateElsewhere(d: Directory, r: Directory, u: nat)
    requires Accurate(d) && u in r.users && ListedExactly(r, u)
    requires forall v: nat :: v != u ==> Owned(r, v) == Owned(d, v)
    requires forall v: nat :: v in r.users && v != u ==> v in d.users && r.users[v].providers == d.users[v].providers
    ensures Accurate(r)
  {
    forall v | v in r.users ensures ListedExactly(r, v) {
      if v != u {
        assert ListedExactly(d, v);
        assert ProvidersOf(r, v) == ProvidersOf(d, v);
      }
    }
  }

  /** The other users' lists, and their being there at all. */
  predicate OthersListed(d: Directory, r: Directory, u: nat) {
    forall v: nat :: v in r.users && v != u ==> v in d.users && r.users[v].providers == d.users[v].providers
  }

  lemma CarriedLists(d: Directory, config: Config, req: SignIn)
    requires Intact(d)
    ensures var c := Carried(d, config, req);
            c.Some? ==> OthersListed(d, c.value.0, c.value.1) && ListedExactly(c.value.0, c.value.1)
  {
    var c := Carried(d, config, req);
    if c.Some? {
      var s, u := c.value.0, c.value.1;
      CarriedOwns(d, config, req);
      if u !in d.users {
        assert Owned(d, u) == {};
        assert ProvidersOf(s, u) == {req.provider};
      } else {
        assert Owned(s, u) == Owned(SetIdentity(d, req.Id(), u, req.metaEmail), u);
        assert ProvidersOf(s, u) == ProvidersOf(SetIdentity(d, req.Id(), u, req.metaEmail), u);
      }
    }
  }

  lemma AdmitLists(d: Directory, c: Directory, u: nat, candidate: ProviderEmail, config: Config, req: SignIn)
    requires u in c.users && req.Id() in Owned(c, u) && ListedExactly(c, u)
    ensures var r := Admit(d, c, u, candidate, config, req);
            !r.1.Refused? ==> OthersListed(c, r.0, u) && u in r.0.users && ListedExactly(r.0, u)
  {
    var r := Admit(d, c, u, candidate, config, req);
    AdmitOwns(d, c, u, candidate, config, req);
    if !r.1.Refused? && req.provider != "web3" && !c.users[u].emailConfirmed {
      assert ProvidersOf(r.0, u) == {req.provider};
    }
  }

  lemma AccurateEnter(d: Directory, config: Config, req: SignIn)
    requires Intact(d) && Accurate(d)
    ensures Accurate(Enter(d, config, req).0)
  {
    var c, r := Carried(d, config, req), Enter(d, config, req);
    if !r.1.Refused? {
      CarriedOwns(d, config, req);
      CarriedLists(d, config, req);
      AdmitOwns(d, c.value.0, c.value.1, Decide(d, config, req).candidate, config, req);
      AdmitLists(d, c.value.0, c.value.1, Decide(d, config, req).candidate, config, req);
      AccurateElsewhere(d, r.0, c.value.1);
    }
  }

  /** Giving a user an identity and taking away all others. */
  lemma AccurateReplaced(d: Directory, k: Key, u: nat, email: string)
    requires u in d.users && k !in d.identities
    requires forall v :: v in d.users && v != u ==> ListedExactly(d, v)
    ensures Accurate(KeepOnly(SetIdentity(d, k, u, email), u, k))
  {
    var s := SetIdentity(d, k, u, email);
    OwnedAfterSetIdentity(d, k, u, email);
    OwnedAfterKeepOnly(s, u, k);
    var r := KeepOnly(s, u, k);
    assert ProvidersOf(r, u) == {k.provider};
    forall v | v in r.users ensures ListedExactly(r, v) {
      if v != u {
        assert ListedExactly(d, v);
        assert ProvidersOf(r, v) == ProvidersOf(d, v);
      }
    }
  }

  lemma AccurateNotices(d: Directory, u: nat)
    requires u in d.users && Accurate(d)
    ensures Accurate(Confirmed(d, u)) && Accurate(PhoneConfirmed(d, u)) && Accurate(Mailed(d, u))
  {
    forall r, v | r in {Confirmed(d, u), PhoneConfirmed(d, u), Mailed(d, u)} && v in r.users
      ensures ListedExactly(r, v) {
      assert ListedExactly(d, v);
      assert Owned(r, v) == Owned(d, v);
    }
  }

  lemma AccurateAccept(d: Directory, u: nat, req: SignIn)
    requires Accurate(d)
    ensures Accurate(AcceptInvite(d, u, req).0)
  {
    if AcceptInvite(d, u, req).1.Entered? {
      AccurateReplaced(d, req.Id(), u, req.metaEmail);
      AccurateNotices(KeepOnly(SetIdentity(d, req.Id(), u, req.metaEmail), u, req.Id()), u);
    }
  }

  lemma AccurateRegister(d: Directory, config: Config, req: SignUpRequest, u: nat)
    requires u in d.users && (forall v :: v in d.users && v != u ==> ListedExactly(d, v))
    requires Key(req.Provider(), OfUser(u)) in d.identities ==> ListedExactly(d, u)
    ensures var r := Notified(Registered(d, req, u), config, req, u); r.Some? ==> Accurate(r.value)
  {
    var k := Key(req.Provider(), OfUser(u));
    var email := if d.users[u].email != "" then d.users[u].email else req.dataEmail;
    if k !in d.identities { AccurateReplaced(d, k, u, email); }
    AccurateNotices(Registered(d, req, u), u);
  }

  lemma ListedNewUser(d: Directory, user: User)
    requires Intact(d) && Accurate(d)
    ensures var n := NewUser(d, user);
            Owned(n, d.nextUser) == {} && forall v :: v in n.users && v != d.nextUser ==> ListedExactly(n, v)
  {
    var n := NewUser(d, user);
    forall v | v in n.users && v != d.nextUser ensures ListedExactly(n, v) {
      assert ListedExactly(d, v);
      assert Owned(n, v) == Owned(d, v);
    }
  }

  /** No identity is filed under the number of a user yet to come. */
  predicate OwnSubjects(d: Directory) {
    forall k :: k in d.identities && k.subject.OfUser? ==> k.subject.user < d.nextUser
  }

  lemma AccurateSignUp(d: Directory, config: Config, req: SignUpRequest, found: Option<nat>)
    requires Intact(d) && Accurate(d) && OwnSubjects(d)
    ensures Accurate(SignUp(d, config, req, found))
  {
    match found
    case None =>
      ListedNewUser(d, req.Account());
      AccurateRegister(NewUser(d, req.Account()), config, req, d.nextUser);
    case Some(u) => if u in d.users { AccurateRegister(d, config, req, u); }
  }

  lemma AccurateInvite(d: Directory, email: string, aud: string, found: Option<nat>, mailFails: bool)
    requires Intact(d) && Accurate(d)
    ensures Accurate(Invite(d, email, aud, found, mailFails))
  {
    match found
    case Some(u) => if u in d.users { AccurateNotices(d, u); }
    case None =>
      var user := User(aud, Lower(email), "", false, false, {"email"}, false, false, false);
      var k, u, n := Key("email", OfUser(d.nextUser)), d.nextUser, NewUser(d, user);
      if k !in d.identities {
        ListedNewUser(d, user);
        var s := SetIdentity(n, k, u, Lower(email));
        OwnedAfterSetIdentity(n, k, u, Lower(email));
        assert ProvidersOf(s, u) == {"email"};
        forall v | v in s.users ensures ListedExactly(s, v) {
          if v != u { assert ListedExactly(n, v) && ProvidersOf(s, v) == ProvidersOf(n, v); }
        }
        AccurateNotices(s, u);
      }
  }

  lemma AccurateUnlink(d: Directory, u: nat, k: Key, choice: Option<string>)
    requires Intact(d) && Accurate(d) && Enabled(d, UnlinkEvent(u, k, choice))
    ensures Accurate(Unlink(d, u, k, choice))
  {
    if Unlinkable(d, u, k) && (k.provider == "phone" || choice.Some?) {
      UnlinkLeavesAnIdentity(d, u, k, choice);
      AccurateElsewhere(d, Unlink(d, u, k, choice), u);
    }
  }

  lemma AccurateStep(d: Directory, config: Config, e: Event)
    requires Intact(d) && Enabled(d, e) && Accurate(d) && OwnSubjects(d)
    ensures Accurate(Step(d, config, e))
  {
    match e
    case SignInEvent(req) => AccurateEnter(d, config, req);
    case AcceptEvent(u, req) => AccurateAccept(d, u, req);
    case SignUpEvent(signUp, found) => AccurateSignUp(d, config, signUp, found);
    case InviteEvent(email, aud, found, mailFails) => AccurateInvite(d, email, aud, found, mailFails);
    case ConfirmEvent(u, _) => AccurateNotices(d, u);
    case UnlinkEvent(u, k, choice) => AccurateUnlink(d, u, k, choice);
  }

  /** Over every run the list of providers stored with a user names exactly the providers of its identities. */
  lemma {:induction false} ProviderListsStayAccurate(d: Directory, config: Config, es: seq<Event>)
    requires Intact(d) && Accurate(d) && OwnSubjects(d) && Runs(d, config, es)
    ensures Accurate(End(d, config, es))
    decreases |es|
  {
    if es != [] {
      AccurateStep(d, config, es[0]);
      OriginsStep(d, config, es[0]);
      ProviderListsStayAccurate(Step(d, config, es[0]), config, es[1..]);
    }
  }
}
