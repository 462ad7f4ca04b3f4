/** What comes of a sign-in, a sign-up, an invitation and an unlink, in terms of the stored rows and the request alone:
    whose account it is, when it is refused, and what is different afterwards. */
module LinkingOutcomes {
  import opened Common
  import opened Linking
  import opened LinkingRuns

  /** Lower case: capital letters go to their small ones, everything else stays, so no capital letter is left. */
  lemma LowerFolds(s: string, i: nat)
    requires i < |s|
    ensures |Lower(s)| == |s| && !('A' <= Lower(s)[i] <= 'Z')
    ensures Lower(s)[i] as int == s[i] as int + if 'A' <= s[i] <= 'Z' then 32 else 0
  {
  }

  // ----- who has a claim to a new identity

  /** The provider, or the configuration, vouches for the address. */
  predicate Vouched(config: Config, req: SignIn, a: string) {
    exists e :: e in req.emails && (e.verified || config.autoconfirm) && Lower(e.email) == a
  }

  /** Identities of one SSO provider belong together, and so do all that come from elsewhere. */
  predicate SameDomain(p: string, q: string) {
    if "sso:" <= p || "sso:" <= q then p == q else true
  }

  predicate IsClaim(d: Directory, config: Config, req: SignIn, k: Key) {
    && k in d.identities && d.identities[k].email != "" && Vouched(config, req, d.identities[k].email)
    && SameDomain(k.provider, req.provider)
  }

  /** The user owns an identity of the domain under an address vouched for. */
  ghost predicate OwnsOne(d: Directory, config: Config, req: SignIn, u: nat) {
    exists k :: IsClaim(d, config, req, k) && d.identities[k].user == u
  }

  /** A user has a claim by such an identity or, when nobody does and this is no SSO provider, by its own address. */
  ghost predicate Claims(d: Directory, config: Config, req: SignIn, u: nat) {
    || OwnsOne(d, config, req, u)
    || (&& (forall v: nat :: !OwnsOne(d, config, req, v)) && !("sso:" <= req.provider)
        && u in d.users && !d.users[u].sso && d.users[u].email != "" && Vouched(config, req, d.users[u].email))
  }

  predicate LastPrimary(emails: seq<ProviderEmail>, i: int) {
    0 <= i < |emails| && emails[i].primary && forall j :: i < j < |emails| ==> !emails[j].primary
  }

  /** The address that counts: the last one marked primary, in lower case. */
  ghost predicate IsPrimary(emails: seq<ProviderEmail>, p: ProviderEmail) {
    || (p == NO_EMAIL && forall e :: e in emails ==> !e.primary)
    || exists i :: LastPrimary(emails, i) && p == emails[i].(email := Lower(emails[i].email))
  }

  /** A non-SSO identity under the address, of a user of the audience. */
  predicate PlainIdentity(d: Directory, k: Key, email: string, aud: string)
    requires Intact(d)
  {
    && k in d.identities && d.identities[k].email == Lower(email) != "" && !("sso:" <= k.provider)
    && d.users[d.identities[k].user].aud == aud
  }

  /** A non-SSO user of the audience with that address. */
  predicate HoldsEmail(user: User, email: string, aud: string) {
    user.email != "" && Lower(user.email) == Lower(email) && user.aud == aud && !user.sso
  }

  /** A non-SSO identity or user of the audience is under the address. */
  ghost predicate InUse(d: Directory, email: string, aud: string)
    requires Intact(d)
  {
    || (exists k :: PlainIdentity(d, k, email, aud))
    || (exists u :: u in d.users && HoldsEmail(d.users[u], email, aud))
  }

  /** The address the sign-in is about: that of a known identity's user, none if nobody vouches for anything and the
      primary one is in use, and otherwise the primary one. */
  ghost function AboutEmail(d: Directory, config: Config, req: SignIn, p: ProviderEmail): string
    requires Intact(d)
  {
    if req.Id() in d.identities then d.users[d.identities[req.Id()].user].email
    else if (forall a :: !Vouched(config, req, a)) && InUse(d, p.email, req.aud) then ""
    else p.email
  }

  /** What is to be decided. */
  ghost predicate Decided(d: Directory, config: Config, req: SignIn, r: Decision)
    requires Intact(d)
  {
    && (exists p :: IsPrimary(req.emails, p) && r.candidate == p.(email := AboutEmail(d, config, req, p)))
    && if req.Id() in d.identities then r.AccountExists? && r.user == d.identities[req.Id()].user
       else
         match r
         case AccountExists(_, _) => false
         case LinkAccount(u, _) => Claims(d, config, req, u) && forall v: nat :: Claims(d, config, req, v) ==> v == u
         case CreateAccount(_) => forall v: nat :: !Claims(d, config, req, v)
         case MultipleAccounts(_) =>
           exists v: nat, w: nat :: Claims(d, config, req, v) && Claims(d, config, req, w) && v != w
  }

  lemma {:induction false} PrimaryIsTheLast(emails: seq<ProviderEmail>)
    ensures IsPrimary(emails, Candidate(emails))
  {
    if emails != [] {
      var n := |emails| - 1;
      if emails[n].primary {
        assert LastPrimary(emails, n);
      } else {
        PrimaryIsTheLast(emails[..n]);
        if i :| LastPrimary(emails[..n], i) && Candidate(emails) == emails[i].(email := Lower(emails[i].email)) {
          assert LastPrimary(emails, i);
        }
      }
    }
  }

  lemma PrimaryIsUnique(emails: seq<ProviderEmail>, p: ProviderEmail, q: ProviderEmail)
    requires IsPrimary(emails, p) && IsPrimary(emails, q)
    ensures p == q
  {
  }

  lemma VouchedIsVerified(config: Config, req: SignIn, a: string)
    ensures Vouched(config, req, a) <==> a in Verified(config, req.emails)
  {
  }

  lemma DomainsAgree(p: string, q: string)
    ensures Domain(p) == Domain(q) <==> SameDomain(p, q)
  {
  }

  lemma OwnersClaim(d: Directory, config: Config, req: SignIn, u: nat)
    ensures u in LinkingOwners(d, Verified(config, req.emails), Domain(req.provider)) <==> OwnsOne(d, config, req, u)
  {
    forall k | k in d.identities
      ensures IsClaim(d, config, req, k) <==>
              k in IdentitiesWith(d, Verified(config, req.emails)) && Domain(k.provider) == Domain(req.provider)
    {
      VouchedIsVerified(config, req, d.identities[k].email);
      DomainsAgree(k.provider, req.provider);
    }
  }

  /** The users that the decision looks at. */
  ghost function Claimants(d: Directory, config: Config, req: SignIn): set<nat> {
    var owners := LinkingOwners(d, Verified(config, req.emails), Domain(req.provider));
    if owners != {} then owners
    else if IsSso(req.provider) then {} else UsersWith(d, Verified(config, req.emails))
  }

  lemma ClaimantsClaim(d: Directory, config: Config, req: SignIn, u: nat)
    ensures u in Claimants(d, config, req) <==> Claims(d, config, req, u)
  {
    var owners := LinkingOwners(d, Verified(config, req.emails), Domain(req.provider));
    forall v: nat ensures v in owners <==> OwnsOne(d, config, req, v) { OwnersClaim(d, config, req, v); }
    if u in d.users { VouchedIsVerified(config, req, d.users[u].email); }
    if owners != {} {
      var v :| v in owners;
      assert OwnsOne(d, config, req, v);
    }
  }

  lemma InUseIsDuplicate(d: Directory, email: string, aud: string)
    requires Intact(d)
    ensures InUse(d, email, aud) <==> !Duplicate(d, email, aud, None, None)
  {
    var byIdentity, byUser := IdentityDuplicates(d, email, aud, None), UsersByEmail(d, email, aud);
    if byIdentity != {} {
      var k :| k in IdentitiesWith(d, {Lower(email)}) && !IsSso(k.provider) && d.users[d.identities[k].user].aud == aud;
      assert PlainIdentity(d, k, email, aud);
    }
    if byUser != {} {
      var u :| u in byUser;
      assert HoldsEmail(d.users[u], email, aud);
    }
    if k :| PlainIdentity(d, k, email, aud) { assert d.identities[k].user in byIdentity; }
    if u :| u in d.users && HoldsEmail(d.users[u], email, aud) { assert u in byUser; }
  }

  lemma NobodyVouches(config: Config, req: SignIn)
    ensures Verified(config, req.emails) == {} <==> forall a :: !Vouched(config, req, a)
  {
    forall a ensures Vouched(config, req, a) <==> a in Verified(config, req.emails) {
      VouchedIsVerified(config, req, a);
    }
  }

  lemma AboutEmailIsCandidate(d: Directory, config: Config, req: SignIn)
    requires Intact(d)
    ensures var p := Candidate(req.emails);
            Decide(d, config, req).candidate == p.(email := AboutEmail(d, config, req, p))
  {
    NobodyVouches(config, req);
    InUseIsDuplicate(d, Candidate(req.emails).email, req.aud);
  }

  lemma DecideByClaimants(d: Directory, config: Config, req: SignIn)
    requires Intact(d) && req.Id() !in d.identities
    ensures var hits, r := Claimants(d, config, req), Decide(d, config, req);
            && !r.AccountExists? && (r.CreateAccount? <==> hits == {}) && (r.LinkAccount? <==> |hits| == 1)
            && (r.LinkAccount? ==> hits == {r.user})
  {
    if Verified(config, req.emails) == {} { assert Claimants(d, config, req) == {}; }
  }

  /** The decision for every sign-in: the user of a known identity; for a new one the only user with a claim, or a new
      account if nobody has one, or none at all if several have. */
  lemma DecidedByClaims(d: Directory, config: Config, req: SignIn)
    requires Intact(d)
    ensures Decided(d, config, req, Decide(d, config, req))
  {
    PrimaryIsTheLast(req.emails);
    AboutEmailIsCandidate(d, config, req);
    if req.Id() !in d.identities {
      DecideByClaimants(d, config, req);
      var hits := Claimants(d, config, req);
      forall v: nat ensures v in hits <==> Claims(d, config, req, v) { ClaimantsClaim(d, config, req, v); }
      if |hits| > 1 {
        var v :| v in hits;
        assert |hits - {v}| == |hits| - 1;
        var w :| w in hits - {v};
        assert Claims(d, config, req, v) && Claims(d, config, req, w);
      }
    }
  }

  // ----- where a sign-in leads

  /** The account the sign-in belongs to; a number not in use yet stands for a new account. */
  ghost predicate BelongsTo(d: Directory, config: Config, req: SignIn, u: nat) {
    if req.Id() in d.identities then u == d.identities[req.Id()].user
    else
      || (Claims(d, config, req, u) && forall v: nat :: Claims(d, config, req, v) ==> v == u)
      || (u == d.nextUser && forall v: nat :: !Claims(d, config, req, v))
  }

  /** The user is unconfirmed, and this sign-in cannot confirm it without a mail. */
  predicate Unconfirmed(d: Directory, config: Config, req: SignIn, p: ProviderEmail, u: nat) {
    && req.provider != "web3" && !(u in d.users && d.users[u].emailConfirmed)
    && !p.verified && !config.autoconfirm
  }

  ghost predicate Admitted(d: Directory, config: Config, req: SignIn, p: ProviderEmail, u: nat)
    requires Intact(d)
  {
    && BelongsTo(d, config, req, u) && u !in req.banned && (u in d.users || !config.disableSignup)
    && !(Unconfirmed(d, config, req, p, u) && AboutEmail(d, config, req, p) != "" && req.mailFails)
  }

  lemma BelongsByDecision(d: Directory, config: Config, req: SignIn, u: nat)
    requires Intact(d)
    ensures var r := Decide(d, config, req);
            BelongsTo(d, config, req, u) <==>
            match r
            case AccountExists(v, _) => u == v
            case LinkAccount(v, _) => u == v
            case CreateAccount(_) => u == d.nextUser
            case MultipleAccounts(_) => false
  {
    DecidedByClaims(d, config, req);
    var r := Decide(d, config, req);
    if r.MultipleAccounts? {
      var v: nat, w: nat :| Claims(d, config, req, v) && Claims(d, config, req, w) && v != w;
      assert !BelongsTo(d, config, req, u);
    }
  }

  /** The rows `c` once the sign-in is settled on `u`, before that user is let in: the identity is stored under the
      user, who is new under the given address or as before. */
  predicate Assigns(d: Directory, c: Directory, req: SignIn, u: nat, email: string) {
    && c.users.Keys == d.users.Keys + {u}
    && (forall v :: v in d.users && v != u ==> c.users[v] == d.users[v])
    && c.identities == d.identities[req.Id() := Identity(u, Lower(req.metaEmail))]
    && c.users[u] ==
       if u in d.users then d.users[u].(providers := c.users[u].providers)
       else User(req.aud, Lower(email), "", "sso:" <= req.provider, false, {req.provider}, false, false, false)
  }

  lemma CarriedOut(d: Directory, config: Config, req: SignIn)
    requires Intact(d)
    ensures var c, r := Carried(d, config, req), Decide(d, config, req);
            && (c.None? <==> r.MultipleAccounts? || (r.CreateAccount? && config.disableSignup))
            && (c.Some? ==>
                  && c.value.1 == (if r.CreateAccount? then d.nextUser else r.user)
                  && Assigns(d, c.value.0, req, c.value.1, r.candidate.email))
  {
    assert d.nextUser !in d.users;
  }

  /** The user has no confirmed address, and neither this sign-in nor the configuration confirms it. */
  predicate Asks(user: User, candidate: ProviderEmail, config: Config, req: SignIn) {
    req.provider != "web3" && !user.emailConfirmed && !candidate.verified && !config.autoconfirm
  }

  lemma LetIn(d: Directory, c: Directory, u: nat, candidate: ProviderEmail, config: Config, req: SignIn)
    requires u in c.users
    ensures var r := Admit(d, c, u, candidate, config, req);
            && (r.1.Refused? <==>
                u in req.banned || (Asks(c.users[u], candidate, config, req) && candidate.email != "" && req.mailFails))
            && (r.1.Refused? ==> r.0 == d)
            && (!r.1.Refused? ==>
                  r.1 == if Asks(c.users[u], candidate, config, req) && !config.allowUnverified
                         then NeedsVerification(u) else Entered(u))
  {
  }

  /** Only one user has changed, and of it only what a sign-in may change. */
  predicate OnlyUser(d: Directory, r: Directory, u: nat) {
    && r.users.Keys == d.users.Keys && u in d.users
    && (forall v :: v in d.users && v != u ==> r.users[v] == d.users[v])
    && var user, was := r.users[u], d.users[u];
    && (user.password ==> was.password)
    && user == was.(password := user.password, providers := user.providers,
                    emailConfirmed := user.emailConfirmed, pending := user.pending)
  }

  lemma KeptUser(d: Directory, u: nat, k: Key)
    requires u in d.users
    ensures var r := KeepOnly(d, u, k);
            && OnlyUser(d, r, u)
            && r.users[u].emailConfirmed == d.users[u].emailConfirmed && r.users[u].pending == d.users[u].pending
            && (r.users[u].password <==> d.users[u].password && (k.provider == "email" || k.provider == "phone"))
  {
  }

  lemma SettledUser(d: Directory, kept: Directory, u: nat, candidate: ProviderEmail, config: Config, req: SignIn)
    requires u in kept.users && !Settle(d, kept, u, candidate, config, req).1.Refused?
    ensures var r, vouched := Settle(d, kept, u, candidate, config, req).0, candidate.verified || config.autoconfirm;
            && OnlyUser(kept, r, u)
            && (r.users[u].emailConfirmed <==> kept.users[u].emailConfirmed || vouched)
            && (r.users[u].pending <==> !vouched && (candidate.email != "" || kept.users[u].pending))
  {
  }

  lemma UserLetIn(d: Directory, c: Directory, u: nat, candidate: ProviderEmail, config: Config, req: SignIn)
    requires u in c.users && !Admit(d, c, u, candidate, config, req).1.Refused?
    ensures var r := Admit(d, c, u, candidate, config, req).0;
            && OnlyUser(c, r, u)
            && var user, was := r.users[u], c.users[u];
            && (user.emailConfirmed <==>
                was.emailConfirmed || (req.provider != "web3" && (candidate.verified || config.autoconfirm)))
            && (user.pending <==>
                if req.provider == "web3" || was.emailConfirmed then was.pending
                else Asks(was, candidate, config, req) && (candidate.email != "" || was.pending))
  {
    KeptUser(c, u, req.Id());
    if req.provider != "web3" && !c.users[u].emailConfirmed {
      SettledUser(d, KeepOnly(c, u, req.Id()), u, candidate, config, req);
    }
  }

  lemma IdentitiesLetIn(d: Directory, c: Directory, u: nat, candidate: ProviderEmail, config: Config, req: SignIn)
    requires u in c.users && req.Id() in c.identities
    requires !Admit(d, c, u, candidate, config, req).1.Refused?
    ensures var r := Admit(d, c, u, candidate, config, req).0;
            && req.Id() in r.identities
            && (forall k :: k in r.identities ==> k in c.identities && r.identities[k] == c.identities[k])
  {
  }

  /** A sign-in is carried out for a user exactly when it belongs to that account, the user is not banned, a new
      account may be opened if one is needed, and no mail that is needed fails. So two users with a claim, like any
      other reason, have it refused, and then nothing changes. Otherwise the only user it can add is the one it ends
      at. */
  lemma SignInLeadsExactly(d: Directory, config: Config, req: SignIn, p: ProviderEmail, u: nat)
    requires Intact(d) && IsPrimary(req.emails, p)
    ensures var (after, answer) := Enter(d, config, req);
            && (!answer.Refused? && answer.user == u <==> Admitted(d, config, req, p, u))
            && (answer.Refused? ==> after == d)
            && (Admitted(d, config, req, p, u) ==>
                  && after.users.Keys == d.users.Keys + {u}
                  && (answer == NeedsVerification(u) <==>
                      Unconfirmed(d, config, req, p, u) && !config.allowUnverified))
  {
    PrimaryIsTheLast(req.emails);
    PrimaryIsUnique(req.emails, p, Candidate(req.emails));
    AboutEmailIsCandidate(d, config, req);
    BelongsByDecision(d, config, req, u);
    CarriedOut(d, config, req);
    var c, candidate := Carried(d, config, req), Decide(d, config, req).candidate;
    if c.Some? {
      LetIn(d, c.value.0, c.value.1, candidate, config, req);
      if !Enter(d, config, req).1.Refused? { UserLetIn(d, c.value.0, c.value.1, candidate, config, req); }
    }
  }

  /** The rows after a sign-in about the given address: others are as they were, the user it ends at keeps its
      address, audience and kind if it was there, and otherwise has those of the sign-in; it is confirmed if it was or
      the primary address is vouched for, and has a mail under way if it had one or was sent one. */
  predicate Leaves(d: Directory, after: Directory, config: Config, req: SignIn, p: ProviderEmail, about: string,
                   u: nat)
  {
    && u in after.users
    && (forall v :: v in d.users && v != u ==> v in after.users && after.users[v] == d.users[v])
    && req.Id() in after.identities && after.identities[req.Id()] == Identity(u, Lower(req.metaEmail))
    && (forall k :: k in after.identities && k != req.Id() ==>
          k in d.identities && after.identities[k] == d.identities[k])
    && var user := after.users[u];
    && (u in d.users ==> user == d.users[u].(password := user.password, providers := user.providers,
                                             emailConfirmed := user.emailConfirmed, pending := user.pending))
    && (u !in d.users ==>
          user.aud == req.aud && user.email == Lower(about) && user.phone == ""
          && (user.sso <==> "sso:" <= req.provider) && !user.password && !user.phoneConfirmed)
    && var known, asked := u in d.users && d.users[u].emailConfirmed, u in d.users && d.users[u].pending;
    && (user.emailConfirmed <==> known || (req.provider != "web3" && (p.verified || config.autoconfirm)))
    && (user.pending <==>
        if req.provider == "web3" || known then asked
        else !p.verified && !config.autoconfirm && (about != "" || asked))
  }

  lemma LeavesByAdmit(d: Directory, c: Directory, config: Config, req: SignIn, p: ProviderEmail, about: string, u: nat)
    requires u in c.users && Assigns(d, c, req, u, about)
    requires !Admit(d, c, u, p.(email := about), config, req).1.Refused?
    ensures Leaves(d, Admit(d, c, u, p.(email := about), config, req).0, config, req, p, about, u)
  {
    UserLetIn(d, c, u, p.(email := about), config, req);
    IdentitiesLetIn(d, c, u, p.(email := about), config, req);
  }

  /** What every sign-in that is carried out leaves. */
  lemma SignInLeaves(d: Directory, config: Config, req: SignIn, p: ProviderEmail, u: nat)
    requires Intact(d) && IsPrimary(req.emails, p) && Admitted(d, config, req, p, u)
    ensures Leaves(d, Enter(d, config, req).0, config, req, p, AboutEmail(d, config, req, p), u)
  {
    PrimaryIsTheLast(req.emails);
    PrimaryIsUnique(req.emails, p, Candidate(req.emails));
    AboutEmailIsCandidate(d, config, req);
    SignInLeadsExactly(d, config, req, p, u);
    BelongsByDecision(d, config, req, u);
    CarriedOut(d, config, req);
    LeavesByAdmit(d, Carried(d, config, req).value.0, config, req, p, AboutEmail(d, config, req, p), u);
  }

  /** Two users with a claim: nobody gets the new identity, and nothing changes. */
  lemma SeveralClaimsAreRefused(d: Directory, config: Config, req: SignIn, u: nat, v: nat)
    requires Intact(d) && req.Id() !in d.identities
    requires Claims(d, config, req, u) && Claims(d, config, req, v) && u != v
    ensures Enter(d, config, req) == (d, Refused)
  {
    DecidedByClaims(d, config, req);
  }

  // ----- invitations

  /** An invitation is accepted exactly when it is pending, the invited address is among those the provider gives, and
      the identity is new. The user is then confirmed and has this identity alone; otherwise nothing changes. */
  lemma InvitationAcceptedExactly(d: Directory, u: nat, req: SignIn)
    requires Intact(d)
    ensures var (after, answer) := AcceptInvite(d, u, req);
            && (answer == Entered(u) <==>
                && u in d.users && d.users[u].pending && req.Id() !in d.identities
                && exists e :: e in req.emails && e.email == d.users[u].email)
            && (answer != Entered(u) ==> after == d)
            && (answer == Entered(u) ==>
                  && OnlyUser(d, after, u) && after.users[u].emailConfirmed && !after.users[u].pending
                  && (forall k :: k in after.identities <==>
                        k == req.Id() || (k in d.identities && d.identities[k].user != u))
                  && after.identities[req.Id()] == Identity(u, Lower(req.metaEmail)))
  {
    if AcceptInvite(d, u, req).1 == Entered(u) { AcceptedUser(d, u, req); }
  }

  lemma AcceptedUser(d: Directory, u: nat, req: SignIn)
    requires u in d.users && req.Id() !in d.identities && AcceptInvite(d, u, req).1 == Entered(u)
    ensures var after := AcceptInvite(d, u, req).0;
            && OnlyUser(d, after, u) && after.users[u].emailConfirmed && !after.users[u].pending
            && (forall k :: k in after.identities <==>
                  k == req.Id() || (k in d.identities && d.identities[k].user != u))
            && after.identities[req.Id()] == Identity(u, Lower(req.metaEmail))
  {
    var given := SetIdentity(d, req.Id(), u, req.metaEmail);
    KeptUser(given, u, req.Id());
    assert Confirmed(KeepOnly(given, u, req.Id()), u) == AcceptInvite(d, u, req).0;
  }

  /** An invitation changes nothing if its mail fails or the address belongs to a confirmed user. Otherwise the user
      with that address has a mail under way; if there was none, a new one with that address and identity has. */
  lemma InvitationLeaves(d: Directory, email: string, aud: string, found: Option<nat>, mailFails: bool)
    requires Intact(d) && Enabled(d, InviteEvent(email, aud, found, mailFails))
    requires Key("email", OfUser(d.nextUser)) !in d.identities
    ensures var after, key := Invite(d, email, aud, found, mailFails), Key("email", OfUser(d.nextUser));
            && (found.None? <==> forall v :: v in d.users ==> !HoldsEmail(d.users[v], email, aud))
            && (found.Some? ==> found.value in d.users && HoldsEmail(d.users[found.value], email, aud))
            && if mailFails || (found.Some? && d.users[found.value].emailConfirmed) then after == d
               else if found.Some? then
                 && after.identities == d.identities
                 && after.users == d.users[found.value := d.users[found.value].(pending := true)]
               else
                 && after.identities == d.identities[key := Identity(d.nextUser, Lower(email))]
                 && after.users ==
                    d.users[d.nextUser := User(aud, Lower(email), "", false, false, {"email"}, false, false, true)]
  {
    LowerTwice(email);
    if found.None? {
      forall v | v in d.users ensures !HoldsEmail(d.users[v], email, aud) {
        assert v !in UsersByEmail(d, email, aud);
      }
    }
  }

  // ----- sign-ups

  predicate Auto(config: Config, req: SignUpRequest) {
    if req.byPhone then config.smsAutoconfirm else config.autoconfirm
  }

  predicate IsConfirmed(user: User, byPhone: bool) {
    if byPhone then user.phoneConfirmed else user.emailConfirmed
  }

  predicate HasOwnIdentity(d: Directory, r: Directory, req: SignUpRequest, u: nat)
    requires u in d.users
  {
    var k, user := Key(if req.byPhone then "phone" else "email", OfUser(u)), d.users[u];
    && k in r.identities
    && (k !in d.identities ==>
          r.identities[k] == Identity(u, Lower(if user.email != "" then user.email else req.dataEmail)))
  }

  /** The user has come to have the identity of the sign-up, is confirmed or has a message under way as the
      configuration says, and is otherwise as before, like everybody else. */
  predicate Joins(d: Directory, r: Directory, config: Config, req: SignUpRequest, u: nat) {
    && u in d.users && HasOwnIdentity(d, r, req, u)
    && r.users.Keys == d.users.Keys && (forall v :: v in d.users && v != u ==> r.users[v] == d.users[v])
    && var user := r.users[u];
    && user == d.users[u].(providers := user.providers, pending := !Auto(config, req),
                           emailConfirmed := user.emailConfirmed, phoneConfirmed := user.phoneConfirmed)
    && (IsConfirmed(user, req.byPhone) <==> Auto(config, req))
    && (IsConfirmed(user, !req.byPhone) <==> IsConfirmed(d.users[u], !req.byPhone))
  }

  /** The tables with the new account of a sign-up that comes upon nobody. */
  function Opened(d: Directory, req: SignUpRequest): Directory {
    var user := if req.byPhone then User(req.aud, "", req.contact, false, true, {"phone"}, false, false, false)
                else User(req.aud, Lower(req.contact), "", false, true, {"email"}, false, false, false);
    d.(users := d.users[d.nextUser := user], nextUser := d.nextUser + 1)
  }

  /** A sign-up changes nothing if sign-ups are off, the user it comes upon is confirmed, or the message it has to send
      fails. Otherwise the user it comes upon, or a new one with that address or number, joins. */
  lemma SignUpLeaves(d: Directory, config: Config, req: SignUpRequest, found: Option<nat>)
    requires Intact(d) && Enabled(d, SignUpEvent(req, found))
    ensures found.Some? ==> found.value in d.users
    ensures var after := SignUp(d, config, req, found);
            if config.disableSignup || (found.Some? && IsConfirmed(d.users[found.value], req.byPhone))
               || (!Auto(config, req) && req.sendFails)
            then after == d
            else if found.Some? then Joins(d, after, config, req, found.value)
            else Joins(Opened(d, req), after, config, req, d.nextUser)
  {
    if found.Some? {
      if !IsConfirmed(d.users[found.value], req.byPhone) { SignedUp(d, config, req, found.value); }
    } else {
      assert NewUser(d, req.Account()) == Opened(d, req);
      SignedUp(Opened(d, req), config, req, d.nextUser);
    }
  }

  lemma RegisteredUser(d: Directory, req: SignUpRequest, u: nat)
    requires u in d.users
    ensures var r := Registered(d, req, u);
            && HasOwnIdentity(d, r, req, u) && OnlyUser(d, r, u)
            && r.users[u] == d.users[u].(providers := r.users[u].providers)
  {
    var k := Key(req.Provider(), OfUser(u));
    if k !in d.identities {
      var email := if d.users[u].email != "" then d.users[u].email else req.dataEmail;
      KeptUser(SetIdentity(d, k, u, email), u, k);
    }
  }

  lemma NotifiedUser(kept: Directory, config: Config, req: SignUpRequest, u: nat)
    requires u in kept.users && !IsConfirmed(kept.users[u], req.byPhone)
    ensures var r := Notified(kept, config, req, u);
            && (r.None? <==> !Auto(config, req) && req.sendFails)
            && (r.Some? ==>
                  && r.value.identities == kept.identities
                  && r.value.users == kept.users[u := kept.users[u].(
                       pending := !Auto(config, req),
                       emailConfirmed := kept.users[u].emailConfirmed || (!req.byPhone && config.autoconfirm),
                       phoneConfirmed := kept.users[u].phoneConfirmed || (req.byPhone && config.smsAutoconfirm))])
  {
  }

  lemma JoinsByNotice(d: Directory, kept: Directory, r: Directory, config: Config, req: SignUpRequest, u: nat)
    requires u in d.users && !IsConfirmed(d.users[u], req.byPhone)
    requires HasOwnIdentity(d, kept, req, u) && OnlyUser(d, kept, u)
    requires kept.users[u] == d.users[u].(providers := kept.users[u].providers)
    requires r.identities == kept.identities
    requires r.users == kept.users[u := kept.users[u].(
               pending := !Auto(config, req),
               emailConfirmed := kept.users[u].emailConfirmed || (!req.byPhone && config.autoconfirm),
               phoneConfirmed := kept.users[u].phoneConfirmed || (req.byPhone && config.smsAutoconfirm))]
    ensures Joins(d, r, config, req, u)
  {
  }

  lemma SignedUp(d: Directory, config: Config, req: SignUpRequest, u: nat)
    requires u in d.users && !IsConfirmed(d.users[u], req.byPhone)
    ensures var r := Notified(Registered(d, req, u), config, req, u);
            && (r.None? <==> !Auto(config, req) && req.sendFails)
            && (r.Some? ==> Joins(d, r.value, config, req, u))
  {
    RegisteredUser(d, req, u);
    var kept := Registered(d, req, u);
    NotifiedUser(kept, config, req, u);
    var r := Notified(kept, config, req, u);
    if r.Some? { JoinsByNotice(d, kept, r.value, config, req, u); }
  }

  /** Whom a sign-up comes upon: somebody of the audience with that number or under that address, if there is anybody.
      */
  lemma SignUpComesUpon(d: Directory, req: SignUpRequest, found: Option<nat>)
    requires Intact(d) && Enabled(d, SignUpEvent(req, found))
    ensures if req.byPhone
            then found.Some? <==> exists v :: v in d.users && HoldsPhone(d.users[v], req.contact, req.aud)
            else found.Some? <==> InUse(d, Lower(req.contact), req.aud)
    ensures req.byPhone && found.Some? ==>
              found.value in d.users && HoldsPhone(d.users[found.value], req.contact, req.aud)
    ensures !req.byPhone && found.Some? ==>
              && found.value in d.users && d.users[found.value].aud == req.aud
              && (if exists k :: PlainIdentity(d, k, req.contact, req.aud)
                  then exists k :: PlainIdentity(d, k, req.contact, req.aud) && d.identities[k].user == found.value
                  else HoldsEmail(d.users[found.value], req.contact, req.aud))
  {
    if req.byPhone {
      if v :| v in d.users && HoldsPhone(d.users[v], req.contact, req.aud) {
        assert v in UsersByPhone(d, req.contact, req.aud);
      }
    } else {
      InUseIsDuplicate(d, Lower(req.contact), req.aud);
      LowerTwice(req.contact);
      if k :| PlainIdentity(d, k, req.contact, req.aud) {
        assert d.identities[k].user in IdentityDuplicates(d, Lower(req.contact), req.aud, None);
      }
      if found.Some? && IdentityDuplicates(d, Lower(req.contact), req.aud, None) != {} {
        var k :| k in IdentitiesWith(d, {Lower(Lower(req.contact))}) && !IsSso(k.provider)
                 && d.users[d.identities[k].user].aud == req.aud && d.identities[k].user == found.value;
        assert PlainIdentity(d, k, req.contact, req.aud);
      }
    }
  }

  predicate HoldsPhone(user: User, phone: string, aud: string) {
    user.phone != "" && user.phone == phone && user.aud == aud && !user.sso
  }

  // ----- unlinking

  predicate Owner(d: Directory, k: Key, u: nat) {
    k in d.identities && d.identities[k].user == u
  }

  /** After the identity is gone the user can go by its own address or one that nobody of the audience has. */
  ghost predicate HasAddress(d: Directory, u: nat, k: Key)
    requires u in d.users
  {
    exists l :: l != k && Owner(d, l, u)
                && (d.identities[l].email == d.users[u].email
                    || forall v :: v in d.users ==> !HoldsEmail(d.users[v], d.identities[l].email, d.users[u].aud))
  }

  /** An identity is unlinked exactly when it is the user's, the user has another, and (unless it is a phone's) an
      address is left to go by; otherwise nothing changes. */
  lemma UnlinkedExactly(d: Directory, u: nat, k: Key, choice: Option<string>)
    requires Intact(d) && Enabled(d, UnlinkEvent(u, k, choice)) && k in d.identities
    ensures var after := Unlink(d, u, k, choice);
            if u in d.users && Owner(d, k, u) && (exists l :: l != k && Owner(d, l, u))
               && (k.provider == "phone" || HasAddress(d, u, k))
            then
              && after.identities == d.identities - {k}
              && after.users == d.users[u := after.users[u]]
              && var user, was := after.users[u], d.users[u];
              && user == (if k.provider == "phone" then was.(phone := "", phoneConfirmed := false)
                          else was.(email := user.email,
                                    emailConfirmed := was.emailConfirmed && !(was.email != "" && user.email == "")))
                         .(providers := user.providers)
            else after == d
  {
    if u in d.users && Owner(d, k, u) {
      SeveralOwned(d, u, k);
      if Unlinkable(d, u, k) && k.provider != "phone" { ChoiceExactly(d, u, k, choice); }
    }
  }

  lemma SeveralOwned(d: Directory, u: nat, k: Key)
    requires Owner(d, k, u)
    ensures |Owned(d, u)| > 1 <==> exists l :: l != k && Owner(d, l, u)
  {
    var rest := Owned(d, u) - {k};
    assert k in Owned(d, u) && |rest| == |Owned(d, u)| - 1;
    if l :| l != k && Owner(d, l, u) { assert l in rest; }
    if rest != {} {
      var l :| l in rest;
      assert l != k && Owner(d, l, u);
    }
  }

  lemma ChoiceExactly(d: Directory, u: nat, k: Key, choice: Option<string>)
    requires u in d.users && EmailChoice(Without(d, {k}), u, choice)
    ensures choice.Some? <==> HasAddress(d, u, k)
  {
    var rest := Without(d, {k});
    forall l ensures l in Owned(rest, u) <==> l != k && Owner(d, l, u) {
    }
    forall email ensures UsersByEmail(rest, email, d.users[u].aud) == {} <==>
                         forall v :: v in d.users ==> !HoldsEmail(d.users[v], email, d.users[u].aud) {
      NobodyHolds(rest, email, d.users[u].aud);
    }
    if EmailIsBacked(rest, u) {
      var l :| l in Owned(rest, u) && rest.identities[l].email == rest.users[u].email;
      assert l != k && Owner(d, l, u);
    } else {
      FreeIsHasAddress(d, u, k);
    }
  }

  lemma NobodyHolds(d: Directory, email: string, aud: string)
    ensures UsersByEmail(d, email, aud) == {} <==> forall v :: v in d.users ==> !HoldsEmail(d.users[v], email, aud)
  {
    if v :| v in d.users && HoldsEmail(d.users[v], email, aud) { assert v in UsersByEmail(d, email, aud); }
  }

  lemma FreeIsHasAddress(d: Directory, u: nat, k: Key)
    requires u in d.users && !EmailIsBacked(Without(d, {k}), u)
    ensures FreeEmails(Without(d, {k}), u) != {} <==> HasAddress(d, u, k)
  {
    var rest := Without(d, {k});
    forall l | l != k && Owner(d, l, u) ensures d.identities[l].email != d.users[u].email {
      assert l in Owned(rest, u);
    }
    if FreeEmails(rest, u) != {} {
      var email :| email in FreeEmails(rest, u);
      var l :| l in Owned(rest, u) && UsersByEmail(rest, rest.identities[l].email, d.users[u].aud) == {};
      NobodyHolds(rest, d.identities[l].email, d.users[u].aud);
      assert l != k && Owner(d, l, u);
    }
    if l :| l != k && Owner(d, l, u)
            && forall v :: v in d.users ==> !HoldsEmail(d.users[v], d.identities[l].email, d.users[u].aud)
    {
      NobodyHolds(rest, d.identities[l].email, d.users[u].aud);
      assert l in Owned(rest, u) && rest.identities[l].email in FreeEmails(rest, u);
    }
  }
}
