/** The operations of account linking as they work on the stored tables. Queries return their rows in an arbitrary
    order, so what is proved here holds for each of them. */
module LinkingStore {
  import opened Common
  import opened Linking
  import opened LinkingRuns
  import opened LinkingOutcomes

  function Elements<T(==)>(s: seq<T>): set<T> {
    set x | x in s
  }

  lemma ElementsOfPrefix<T>(s: seq<T>, i: nat)
    requires i < |s|
    ensures s[..i + 1] == s[..i] + [s[i]]
    ensures Elements(s[..i + 1]) == Elements(s[..i]) + {s[i]}
  {
    assert s[..i + 1] == s[..i] + [s[i]];
  }

  lemma MoreThanOne<T>(s: set<T>, a: T, b: T)
    requires a in s && b in s && a != b
    ensures |s| > 1
  {
    assert |s| == |s - {a}| + 1;
    assert b in s - {a};
  }

  lemma ScanStep(config: Config, emails: seq<ProviderEmail>, i: nat)
    requires i < |emails|
    ensures Verified(config, emails[..i + 1]) ==
            Verified(config, emails[..i]) + if emails[i].verified || config.autoconfirm then {Lower(emails[i].email)}
              else {}
    ensures Candidate(emails[..i + 1]) ==
            if emails[i].primary then emails[i].(email := Lower(emails[i].email)) else Candidate(emails[..i])
  {
    ElementsOfPrefix(emails, i);
    assert emails[..i + 1][..i] == emails[..i];
  }

  lemma ElementsAppend<T>(s: seq<T>, x: T)
    ensures Elements(s + [x]) == Elements(s) + {x}
  {
  }

  class Store {
    var users: map<nat, User>
    var identities: map<Key, Identity>
    var nextUser: nat

    function View(): Directory
      reads this
    {
      Directory(users, identities, nextUser)
    }

    constructor ()
      ensures View() == Directory(map[], map[], 0)
    {
      users, identities, nextUser := map[], map[], 0;
    }

    method ScanEmails(config: Config, emails: seq<ProviderEmail>)
        returns (verified: seq<string>, candidate: ProviderEmail)
      ensures Elements(verified) == Verified(config, emails) && candidate == Candidate(emails)
    {
      verified, candidate := [], NO_EMAIL;
      for i := 0 to |emails|
        invariant Elements(verified) == Verified(config, emails[..i])
        invariant candidate == Candidate(emails[..i])
      {
        var email := emails[i];
        ScanStep(config, emails, i);
        if email.verified || config.autoconfirm {
          ElementsAppend(verified, Lower(email.email));
          verified := verified + [Lower(email.email)];
        }
        if email.primary {
          candidate := email.(email := Lower(email.email));
        }
      }
      assert emails[..|emails|] == emails;
    }

    /** Whether all rows belong to the user of the first one. */
    method ShareUser(rows: seq<Key>) returns (same: bool)
      requires rows != [] && forall k :: k in rows ==> k in identities
      ensures same <==> forall k :: k in rows ==> identities[k].user == identities[rows[0]].user
    {
      var first := identities[rows[0]].user;
      for i := 0 to |rows|
        invariant forall j :: 0 <= j < i ==> identities[rows[j]].user == first
      {
        if identities[rows[i]].user != first {
          assert rows[i] in rows;
          return false;
        }
      }
      return true;
    }

    method IdentitiesInDomain(verified: seq<string>, domain: string) returns (linking: seq<Key>)
      ensures forall k :: k in linking <==>
              k in IdentitiesWith(View(), Elements(verified)) && Domain(k.provider) == domain
    {
      var similar := Rows(set k | k in identities && identities[k].email in verified && identities[k].email != "");
      assert Elements(similar) == IdentitiesWith(View(), Elements(verified));
      linking := [];
      for i := 0 to |similar|
        invariant forall k :: k in linking <==> k in similar[..i] && Domain(k.provider) == domain
      {
        ElementsOfPrefix(similar, i);
        if Domain(similar[i].provider) == domain {
          linking := linking + [similar[i]];
        }
      }
      assert similar[..|similar|] == similar;
    }

    method DetermineAccountLinking(config: Config, req: SignIn) returns (r: Decision)
      requires Intact(View())
      ensures r == Decide(View(), config, req)
      ensures Decided(View(), config, req, r)
    {
      DecidedByClaims(View(), config, req);
      var verified, candidate := ScanEmails(config, req.emails);
      if req.Id() in identities {
        var u := identities[req.Id()].user;
        return AccountExists(u, candidate.(email := users[u].email));
      }
      assert verified == [] <==> Elements(verified) == {} by {
        if verified != [] { assert verified[0] in Elements(verified); }
      }
      if verified == [] {
        var user := IsDuplicatedEmail(candidate.email, req.aud, None);
        if user.Some? {
          candidate := candidate.(email := "");
        }
        return CreateAccount(candidate);
      }
      var linking := IdentitiesInDomain(verified, Domain(req.provider));
      ghost var owners := LinkingOwners(View(), Elements(verified), Domain(req.provider));
      if linking == [] {
        assert owners == {};
        var similar: seq<nat> := [];
        if !IsSso(req.provider) {
          var holders := set u | u in users && users[u].email in verified && users[u].email != "" && !users[u].sso;
          assert holders == UsersWith(View(), Elements(verified));
          similar := Rows(holders);
        }
        if |similar| == 1 {
          assert similar[0] in UsersWith(View(), Elements(verified));
          return LinkAccount(similar[0], candidate);
        } else if |similar| > 1 {
          assert similar[0] in UsersWith(View(), Elements(verified));
          return MultipleAccounts(candidate);
        }
        return CreateAccount(candidate);
      }
      assert identities[linking[0]].user in owners by { assert linking[0] in linking; }
      var same := ShareUser(linking);
      if !same {
        ghost var k :| k in linking && identities[k].user != identities[linking[0]].user;
        assert identities[k].user in owners;
        MoreThanOne(owners, identities[k].user, identities[linking[0]].user);
        return MultipleAccounts(candidate);
      }
      assert owners == {identities[linking[0]].user};
      return LinkAccount(identities[linking[0]].user, candidate);
    }

    /** The users with a non-SSO identity under the address. */
    method PlainOwners(email: string) returns (owners: set<nat>)
      requires Intact(View())
      ensures owners == set k | k in IdentitiesWith(View(), {Lower(email)}) && !IsSso(k.provider) :: identities[k].user
    {
      var rows := Rows(set k | k in identities && identities[k].email == Lower(email) && identities[k].email != "");
      assert Elements(rows) == IdentitiesWith(View(), {Lower(email)});
      owners := {};
      for i := 0 to |rows|
        invariant owners == set k | k in rows[..i] && !IsSso(k.provider) :: identities[k].user
      {
        ElementsOfPrefix(rows, i);
        if !IsSso(rows[i].provider) {
          owners := owners + {identities[rows[i]].user};
        }
      }
      assert rows[..|rows|] == rows;
    }

    method IsDuplicatedEmail(email: string, aud: string, current: Option<nat>) returns (found: Option<nat>)
      requires Intact(View())
      ensures Duplicate(View(), email, aud, current, found)
    {
      var owners := PlainOwners(email);
      ghost var duplicates := IdentityDuplicates(View(), email, aud, current);
      assert duplicates == set u | u in owners && current != Some(u) && users[u].aud == aud;
      var ids := Rows(owners);
      for i := 0 to |ids|
        invariant forall j :: 0 <= j < i ==> ids[j] !in duplicates
      {
        if current != Some(ids[i]) && users[ids[i]].aud == aud {
          return Some(ids[i]);
        }
      }
      assert duplicates == {} by {
        forall u | u in owners ensures u !in duplicates { assert u in ids; }
      }
      found := FindUserByEmailAndAudience(email, aud);
    }

    method FindUserByEmailAndAudience(email: string, aud: string) returns (found: Option<nat>)
      ensures match found
              case Some(u) => u in UsersByEmail(View(), email, aud)
              case None => UsersByEmail(View(), email, aud) == {}
    {
      var rows := Rows(set u | u in users && users[u].email != "" && Lower(users[u].email) == Lower(email)
                               && users[u].aud == aud && !users[u].sso);
      assert Elements(rows) == UsersByEmail(View(), email, aud);
      if rows == [] { return None; }
      assert rows[0] in rows;
      return Some(rows[0]);
    }

    /** The providers of a user's identities, each named once. */
    method FindProvidersByUser(u: nat) returns (providers: seq<string>)
      ensures Elements(providers) == ProvidersOf(View(), u)
      ensures forall i, j :: 0 <= i < j < |providers| ==> providers[i] != providers[j]
    {
      var rows := Rows(set k | k in identities && identities[k].user == u);
      assert Elements(rows) == Owned(View(), u);
      var seen: map<string, bool> := map[];
      providers := [];
      for i := 0 to |rows|
        invariant forall p :: p in providers <==> p in seen
        invariant forall p :: p in seen <==> exists k :: k in rows[..i] && k.provider == p
        invariant forall a, b :: 0 <= a < b < |providers| ==> providers[a] != providers[b]
      {
        ElementsOfPrefix(rows, i);
        assert rows[i] in rows[..i + 1];
        if rows[i].provider !in seen {
          providers, seen := providers + [rows[i].provider], seen[rows[i].provider := true];
        }
      }
      assert rows[..|rows|] == rows;
      forall p ensures p in Elements(providers) <==> p in ProvidersOf(View(), u) {}
    }

    method UpdateAppMetaDataProviders(u: nat)
      requires u in users
      modifies this
      ensures View() == RefreshProviders(old(View()), u)
    {
      var providers := FindProvidersByUser(u);
      users := users[u := users[u].(providers := set p | p in providers)];
    }

    method CreateNewIdentity(u: nat, k: Key, email: string) returns (ok: bool)
      modifies this
      ensures ok <==> k !in old(identities)
      ensures View() == if ok then SetIdentity(old(View()), k, u, email) else old(View())
    {
      if k in identities { return false; }
      identities := identities[k := Identity(u, Lower(email))];
      return true;
    }

    method IdentitiesOf(u: nat) returns (rows: seq<Key>)
      ensures Elements(rows) == Owned(View(), u) && |rows| == |Owned(View(), u)|
    {
      var own := set k | k in identities && identities[k].user == u;
      assert own == Owned(View(), u);
      rows := Rows(own);
    }

    method DestroyIdentities(rows: seq<Key>, k: Key)
      modifies this`identities
      ensures View() == Without(old(View()), Elements(rows) - {k})
    {
      for i := 0 to |rows|
        invariant identities == old(identities) - (Elements(rows[..i]) - {k})
      {
        ElementsOfPrefix(rows, i);
        if rows[i] != k {
          identities := identities - {rows[i]};
        }
      }
      assert rows[..|rows|] == rows;
    }

    /** A password set by whoever signed up goes when the user enters through another provider. */
    method ForgetPassword(u: nat, k: Key)
      requires u in users
      modifies this`users
      ensures var user := old(users)[u];
              View() == SetUser(old(View()), u, user.(password := user.password && k.provider in {"email", "phone"}))
    {
      if k.provider != "email" && k.provider != "phone" {
        users := users[u := users[u].(password := false)];
      } else {
        assert users == users[u := users[u]];
      }
    }

    method RemoveUnconfirmedIdentities(u: nat, k: Key)
      requires u in users
      modifies this
      ensures View() == KeepOnly(old(View()), u, k)
    {
      ForgetPassword(u, k);
      var rows := IdentitiesOf(u);
      DestroyIdentities(rows, k);
      UpdateAppMetaDataProviders(u);
    }

    method CreateAccountFromExternalIdentity(config: Config, req: SignIn) returns (answer: Answer)
      requires Intact(View())
      modifies this
      ensures (View(), answer) == Enter(old(View()), config, req)
    {
      var before := View();
      var decision := DetermineAccountLinking(config, req);
      var u: nat;
      match decision {
        case LinkAccount(user, _) =>
          u := user;
          var _ := CreateNewIdentity(u, req.Id(), req.metaEmail);
          UpdateAppMetaDataProviders(u);
        case CreateAccount(candidate) =>
          if config.disableSignup { return Refused; }
          u := nextUser;
          users, nextUser := users[u := ExternalUser(req, candidate.email)], nextUser + 1;
          var _ := CreateNewIdentity(u, req.Id(), req.metaEmail);
        case AccountExists(user, _) =>
          u := user;
          identities := identities[req.Id() := Identity(u, Lower(req.metaEmail))];
          UpdateAppMetaDataProviders(u);
        case MultipleAccounts(_) => return Refused;
      }
      assert Carried(before, config, req) == Some((View(), u));
      answer := Admitted(before, u, decision.candidate, config, req);
    }

    /** The part of an external sign-in that follows the switch over the decision; a refusal rolls back to `before`. */
    method Admitted(before: Directory, u: nat, candidate: ProviderEmail, config: Config, req: SignIn)
        returns (answer: Answer)
      requires u in users
      modifies this
      ensures (View(), answer) == Admit(before, old(View()), u, candidate, config, req)
    {
      answer := Entered(u);
      if u in req.banned {
        users, identities, nextUser := before.users, before.identities, before.nextUser;
        return Refused;
      }
      if req.provider != "web3" && !users[u].emailConfirmed {
        RemoveUnconfirmedIdentities(u, req.Id());
        if candidate.verified || config.autoconfirm {
          users := users[u := users[u].(emailConfirmed := true, pending := false)];
        } else {
          if candidate.email != "" {
            if req.mailFails {
              users, identities, nextUser := before.users, before.identities, before.nextUser;
              return Refused;
            }
            users := users[u := users[u].(pending := true)];
          }
          if !config.allowUnverified { return NeedsVerification(u); }
        }
      }
    }

    method ProcessInvite(u: nat, req: SignIn) returns (answer: Answer)
      modifies this
      ensures (View(), answer) == AcceptInvite(old(View()), u, req)
    {
      if u !in users || !users[u].pending { return Refused; }
      var matched := false;
      for i := 0 to |req.emails|
        invariant View() == old(View())
        invariant matched <==> exists j :: 0 <= j < i && req.emails[j].email == users[u].email
      {
        if req.emails[i].email == users[u].email {
          matched := true;
          break;
        }
      }
      assert matched <==> exists e :: e in req.emails && e.email == users[u].email;
      if !matched { return Refused; }
      var created := CreateNewIdentity(u, req.Id(), req.metaEmail);
      if !created { return Refused; }
      UpdateAppMetaDataProviders(u);
      assert View() == RefreshProviders(SetIdentity(old(View()), req.Id(), u, req.metaEmail), u);
      RemoveUnconfirmedIdentities(u, req.Id());
      RefreshThenKeep(SetIdentity(old(View()), req.Id(), u, req.metaEmail), u, req.Id());
      users := users[u := users[u].(emailConfirmed := true, pending := false)];
      return Entered(u);
    }

    method FindForSignUp(req: SignUpRequest) returns (found: Option<nat>)
      requires Intact(View())
      ensures SignUpFinds(View(), req, found)
      ensures found.Some? ==> found.value in users
    {
      if req.byPhone {
        var rows := Rows(set u | u in users && users[u].phone != "" && users[u].phone == req.contact
                                 && users[u].aud == req.aud && !users[u].sso);
        assert Elements(rows) == UsersByPhone(View(), req.contact, req.aud);
        found := if rows == [] then None else Some(rows[0]);
        assert rows != [] ==> rows[0] in rows;
      } else {
        found := IsDuplicatedEmail(Lower(req.contact), req.aud, None);
      }
    }

    /** A sign-up, and the existing user it came upon. */
    method SignUpUser(config: Config, req: SignUpRequest) returns (found: Option<nat>)
      requires Intact(View())
      modifies this
      ensures SignUpFinds(old(View()), req, found)
      ensures View() == SignUp(old(View()), config, req, found)
    {
      found := FindForSignUp(req);
      if config.disableSignup { return; }
      var before := View();
      var u: nat;
      if found.Some? {
        u := found.value;
        if if req.byPhone then users[u].phoneConfirmed else users[u].emailConfirmed { return; }
      } else {
        u := nextUser;
        users, nextUser := users[u := req.Account()], nextUser + 1;
      }
      var ok := FinishSignUp(config, req, u);
      if !ok {
        users, identities, nextUser := before.users, before.identities, before.nextUser;
      }
    }

    method FinishSignUp(config: Config, req: SignUpRequest, u: nat) returns (ok: bool)
      requires u in users
      modifies this
      ensures var r := Notified(Registered(old(View()), req, u), config, req, u);
              ok == r.Some? && (ok ==> View() == r.value)
    {
      var k := Key(req.Provider(), OfUser(u));
      if k !in identities {
        var _ := CreateNewIdentity(u, k, if users[u].email != "" then users[u].email else req.dataEmail);
        RemoveUnconfirmedIdentities(u, k);
      }
      assert View() == Registered(old(View()), req, u);
      if !req.byPhone && !users[u].emailConfirmed {
        if config.autoconfirm {
          users := users[u := users[u].(emailConfirmed := true, pending := false)];
        } else if req.sendFails {
          return false;
        } else {
          users := users[u := users[u].(pending := true)];
        }
      } else if req.byPhone && !users[u].phoneConfirmed {
        if config.smsAutoconfirm {
          users := users[u := users[u].(phoneConfirmed := true, pending := false)];
        } else if req.sendFails {
          return false;
        } else {
          users := users[u := users[u].(pending := true)];
        }
      }
      return true;
    }

    method SomeIdentityHas(rows: seq<Key>, email: string) returns (found: bool)
      requires forall i :: 0 <= i < |rows| ==> rows[i] in identities
      ensures found <==> exists i :: 0 <= i < |rows| && identities[rows[i]].email == email
    {
      for i := 0 to |rows|
        invariant forall j :: 0 <= j < i ==> identities[rows[j]].email != email
      {
        if email == identities[rows[i]].email {
          return true;
        }
      }
      return false;
    }

    /** The first address among the identities that no non-SSO user of the audience holds. */
    method FirstFreeEmail(rows: seq<Key>, aud: string) returns (choice: Option<string>)
      requires forall i :: 0 <= i < |rows| ==> rows[i] in identities
      ensures match choice
              case None => forall i :: 0 <= i < |rows| ==> UsersByEmail(View(), identities[rows[i]].email, aud) != {}
              case Some(email) =>
                && UsersByEmail(View(), email, aud) == {}
                && exists i :: 0 <= i < |rows| && identities[rows[i]].email == email
    {
      for i := 0 to |rows|
        invariant forall j :: 0 <= j < i ==> UsersByEmail(View(), identities[rows[j]].email, aud) != {}
      {
        var other := FindUserByEmailAndAudience(identities[rows[i]].email, aud);
        if other.None? {
          return Some(identities[rows[i]].email);
        }
      }
      return None;
    }

    /** The present address, if an identity has it, and else a free one. */
    method ChooseEmail(u: nat) returns (choice: Option<string>)
      requires u in users
      ensures EmailChoice(View(), u, choice)
    {
      var rows := Rows(set k | k in identities && identities[k].user == u);
      RowsOfOwner(View(), u, rows);
      var backed := SomeIdentityHas(rows, users[u].email);
      if backed {
        return Some(users[u].email);
      }
      choice := FirstFreeEmail(rows, users[u].aud);
    }

    /** Gives the user another address; without one it no longer counts as confirmed. */
    method SetEmail(u: nat, email: string)
      requires u in users && email != users[u].email
      modifies this`users
      ensures View() == WithEmail(old(View()), u, email)
    {
      users := users[u := users[u].(email := email)];
      if email == "" {
        users := users[u := users[u].(emailConfirmed := false)];
      }
    }

    /** Gives the user an address of its identities, unless the present one is among them. */
    method UpdateUserEmailFromIdentities(u: nat) returns (choice: Option<string>)
      requires u in users
      modifies this`users
      ensures EmailChoice(old(View()), u, choice)
      ensures View() == if choice.Some? then WithEmail(old(View()), u, choice.value) else old(View())
    {
      choice := ChooseEmail(u);
      if choice == Some(users[u].email) {
        assert users == users[u := users[u]];
      } else if choice.Some? {
        SetEmail(u, choice.value);
      }
    }

    /** Unlinks an identity of `u`; `choice` is the address the remaining ones provided. */
    method DeleteIdentity(u: nat, k: Key) returns (done: bool, choice: Option<string>)
      requires Intact(View()) && u in users
      modifies this
      ensures Enabled(old(View()), UnlinkEvent(u, k, choice))
      ensures View() == Unlink(old(View()), u, k, choice)
      ensures done <==> Unlinkable(old(View()), u, k) && (k.provider == "phone" || choice.Some?)
    {
      choice := None;
      var rows := IdentitiesOf(u);
      if |rows| <= 1 { return false, None; }
      var found := false;
      for i := 0 to |rows|
        invariant View() == old(View())
        invariant found <==> k in rows[..i]
      {
        ElementsOfPrefix(rows, i);
        if rows[i] == k {
          found := true;
          break;
        }
      }
      assert found <==> k in rows by { assert rows[..|rows|] == rows; }
      if !found { return false, None; }
      var before := View();
      identities := identities - {k};
      assert View() == Without(before, {k});
      if k.provider == "phone" {
        users := users[u := users[u].(phone := "", phoneConfirmed := false)];
      } else {
        choice := UpdateUserEmailFromIdentities(u);
        if choice.None? {
          users, identities, nextUser := before.users, before.identities, before.nextUser;
          return false, None;
        }
      }
      UpdateAppMetaDataProviders(u);
      return true, choice;
    }
  }

  /** What the rows of a user's identities say about its address. */
  lemma RowsOfOwner(d: Directory, u: nat, rows: seq<Key>)
    requires u in d.users && (forall k :: k in rows <==> k in d.identities && d.identities[k].user == u)
    ensures EmailIsBacked(d, u) <==>
            exists i :: 0 <= i < |rows| && rows[i] in d.identities && d.identities[rows[i]].email == d.users[u].email
    ensures FreeEmails(d, u) == set i | 0 <= i < |rows| && rows[i] in d.identities
                                        && UsersByEmail(d, d.identities[rows[i]].email, d.users[u].aud) == {} ::
                                             d.identities[rows[i]].email
  {
    forall k | k in Owned(d, u) ensures exists i :: 0 <= i < |rows| && rows[i] == k { assert k in rows; }
    forall i | 0 <= i < |rows| ensures rows[i] in Owned(d, u) { assert rows[i] in rows; }
  }

  /** Bringing the list of providers up to date first makes no difference. */
  lemma RefreshThenKeep(d: Directory, u: nat, k: Key)
    requires u in d.users
    ensures KeepOnly(RefreshProviders(d, u), u, k) == KeepOnly(d, u, k)
  {
    var e := RefreshProviders(d, u);
    assert Owned(e, u) == Owned(d, u);
    var a, b := KeepOnly(e, u, k), KeepOnly(d, u, k);
    assert a.identities == b.identities;
    assert forall v: nat :: Owned(a, v) == Owned(b, v);
    assert a.users[u] == b.users[u] by {
      var we, wd := Without(e, Owned(e, u) - {k}), Without(d, Owned(d, u) - {k});
      assert Owned(we, u) == Owned(wd, u) == Owned(a, u);
      assert ProvidersOf(we, u) == ProvidersOf(wd, u);
    }
    assert a.users == b.users;
  }
}
