/** Account linking: the tables of users and identities, the decision that an external sign-in leads to, and the
    steps that apply it, sign a user up, invite, and unlink. */
module Linking {
  import opened Common

  // ----- data

  /** The identifier an identity has at its provider: one the provider gives, or the identifier of the user
      itself for the built-in "email" and "phone" providers. */
  datatype Subject = Given(text: string) | OfUser(user: nat)

  /** What identifies an identity: the table holds at most one row per provider and subject. */
  datatype Key = Key(provider: string, subject: Subject)

  /** An empty `email` stands for the null column, which no query by address ever matches. */
  datatype Identity = Identity(user: nat, email: string)

  datatype User = User(aud: string, email: string, phone: string, sso: bool, password: bool, providers: set<string>,
                       emailConfirmed: bool, phoneConfirmed: bool, pending: bool)

  datatype Directory = Directory(users: map<nat, User>, identities: map<Key, Identity>, nextUser: nat)

  datatype ProviderEmail = ProviderEmail(email: string, verified: bool, primary: bool)

  const NO_EMAIL := ProviderEmail("", false, false)

  datatype Config = Config(autoconfirm: bool, smsAutoconfirm: bool, disableSignup: bool, allowUnverified: bool)

  /** What an external provider says about who is signing in. `banned` are the users under a ban at that moment,
      `mailFails` tells whether sending a mail would fail. */
  datatype SignIn = SignIn(provider: string, subject: string, emails: seq<ProviderEmail>, metaEmail: string,
                           aud: string,
                           banned: set<nat>, mailFails: bool)
  {
    function Id(): Key { Key(provider, Given(subject)) }
  }

  datatype Decision =
    | AccountExists(user: nat, candidate: ProviderEmail)
    | CreateAccount(candidate: ProviderEmail)
    | LinkAccount(user: nat, candidate: ProviderEmail)
    | MultipleAccounts(candidate: ProviderEmail)

  datatype Answer = Entered(user: nat) | NeedsVerification(user: nat) | Refused

  /** The foreign key from identities to users, and the freshness of the next identifier. */
  predicate Intact(d: Directory) {
    && (forall k :: k in d.identities ==> d.identities[k].user in d.users)
    && (forall u :: u in d.users ==> u < d.nextUser)
  }

  // ----- addresses

  function LowerChar(c: char): char {
    if 'A' <= c <= 'Z' then c + 32 as char else c
  }

  function Lower(s: string): string {
    seq(|s|, i requires 0 <= i < |s| => LowerChar(s[i]))
  }

  lemma LowerTwice(s: string)
    ensures Lower(Lower(s)) == Lower(s)
  {
    assert forall i :: 0 <= i < |s| ==> Lower(Lower(s))[i] == Lower(s)[i];
  }

  // ----- linking domains

  const SSO_PREFIX := "sso:"

  predicate IsSso(provider: string) {
    SSO_PREFIX <= provider
  }

  /** Each SSO provider is a linking domain of its own, all others share one. */
  function Domain(provider: string): (d: string)
    ensures IsSso(d) <==> IsSso(provider)
  {
    assert "default"[0] != SSO_PREFIX[0];
    if IsSso(provider) then provider else "default"
  }

  // ----- the decision

  function Verified(config: Config, emails: seq<ProviderEmail>): set<string> {
    set e | e in emails && (e.verified || config.autoconfirm) :: Lower(e.email)
  }

  /** The last address marked primary. */
  function Candidate(emails: seq<ProviderEmail>): ProviderEmail {
    if emails == [] then NO_EMAIL
    else
      var e := emails[|emails| - 1];
      if e.primary then e.(email := Lower(e.email)) else Candidate(emails[..|emails| - 1])
  }

  function Owned(d: Directory, u: nat): set<Key> {
    set k | k in d.identities && d.identities[k].user == u
  }

  function IdentitiesWith(d: Directory, emails: set<string>): set<Key> {
    set k | k in d.identities && d.identities[k].email in emails && d.identities[k].email != ""
  }

  /** The users with an identity of that domain under one of these addresses. */
  function LinkingOwners(d: Directory, emails: set<string>, domain: string): set<nat> {
    set k | k in IdentitiesWith(d, emails) && Domain(k.provider) == domain :: d.identities[k].user
  }

  function UsersWith(d: Directory, emails: set<string>): set<nat> {
    set u | u in d.users && d.users[u].email in emails && d.users[u].email != "" && !d.users[u].sso
  }

  /** Whom a look-up by address and audience can find. */
  function UsersByEmail(d: Directory, email: string, aud: string): set<nat> {
    set u | u in d.users && d.users[u].email != "" && Lower(d.users[u].email) == Lower(email)
            && d.users[u].aud == aud && !d.users[u].sso
  }

  /** The other users of the audience with a non-SSO identity under the address. */
  function IdentityDuplicates(d: Directory, email: string, aud: string, current: Option<nat>): set<nat>
    requires Intact(d)
  {
    set k | k in IdentitiesWith(d, {Lower(email)}) && !IsSso(k.provider) && current != Some(d.identities[k].user)
            && d.users[d.identities[k].user].aud == aud :: d.identities[k].user
  }

  /** `found` is an answer the duplicate check can give. */
  ghost predicate Duplicate(d: Directory, email: string, aud: string, current: Option<nat>, found: Option<nat>)
    requires Intact(d)
  {
    var byIdentity, byUser := IdentityDuplicates(d, email, aud, current), UsersByEmail(d, email, aud);
    match found
    case Some(u) => u in (if byIdentity != {} then byIdentity else byUser)
    case None => byIdentity == {} && byUser == {}
  }

  ghost function Only(s: set<nat>): (u: nat)
    requires |s| == 1
    ensures s == {u}
  {
    var u :| u in s;
    assert s == {u} by {
      assert s - {u} == {} by { assert |s - {u}| == 0; }
    }
    u
  }

  ghost function Decide(d: Directory, config: Config, req: SignIn): (r: Decision)
    requires Intact(d)
    ensures r.AccountExists? || r.LinkAccount? ==> r.user in d.users
  {
    var candidate, verified := Candidate(req.emails), Verified(config, req.emails);
    if req.Id() in d.identities then
      var u := d.identities[req.Id()].user;
      AccountExists(u, candidate.(email := d.users[u].email))
    else if verified == {} then
      var duplicated := !Duplicate(d, candidate.email, req.aud, None, None);
      CreateAccount(if duplicated then candidate.(email := "") else candidate)
    else
      var owners := LinkingOwners(d, verified, Domain(req.provider));
      var holders := if IsSso(req.provider) then {} else UsersWith(d, verified);
      var hits := if owners != {} then owners else holders;
      if hits == {} then CreateAccount(candidate)
      else if |hits| == 1 then
        assert Only(hits) in hits;
        LinkAccount(Only(hits), candidate)
      else MultipleAccounts(candidate)
  }

  // ----- the steps

  function SetUser(d: Directory, u: nat, user: User): Directory {
    d.(users := d.users[u := user])
  }

  function NewUser(d: Directory, user: User): Directory {
    d.(users := d.users[d.nextUser := user], nextUser := d.nextUser + 1)
  }

  function SetIdentity(d: Directory, k: Key, u: nat, email: string): Directory {
    d.(identities := d.identities[k := Identity(u, Lower(email))])
  }

  function ProvidersOf(d: Directory, u: nat): set<string> {
    set k | k in Owned(d, u) :: k.provider
  }

  function RefreshProviders(d: Directory, u: nat): Directory
    requires u in d.users
  {
    SetUser(d, u, d.users[u].(providers := ProvidersOf(d, u)))
  }

  function Without(d: Directory, gone: set<Key>): Directory {
    d.(identities := d.identities - gone)
  }

  /** Leaves an unconfirmed user with one identity only, and without a password set by somebody else. */
  function KeepOnly(d: Directory, u: nat, k: Key): (r: Directory)
    requires u in d.users
    ensures Intact(d) ==> Intact(r)
    ensures r.users.Keys == d.users.Keys
  {
    var user := d.users[u].(password := d.users[u].password && k.provider in {"email", "phone"});
    RefreshProviders(Without(SetUser(d, u, user), Owned(d, u) - {k}), u)
  }

  function Confirmed(d: Directory, u: nat): Directory
    requires u in d.users
  {
    SetUser(d, u, d.users[u].(emailConfirmed := true, pending := false))
  }

  function PhoneConfirmed(d: Directory, u: nat): Directory
    requires u in d.users
  {
    SetUser(d, u, d.users[u].(phoneConfirmed := true, pending := false))
  }

  function Mailed(d: Directory, u: nat): Directory
    requires u in d.users
  {
    SetUser(d, u, d.users[u].(pending := true))
  }

  function ExternalUser(req: SignIn, email: string): User {
    User(req.aud, Lower(email), "", IsSso(Domain(req.provider)), false, {req.provider}, false, false, false)
  }

  /** The tables after the decision is carried out, with the user it settles on. */
  ghost function Carried(d: Directory, config: Config, req: SignIn): (r: Option<(Directory, nat)>)
    requires Intact(d)
    ensures r.Some? ==> Intact(r.value.0) && r.value.1 in r.value.0.users
  {
    match Decide(d, config, req)
    case AccountExists(u, _) => Some((RefreshProviders(SetIdentity(d, req.Id(), u, req.metaEmail), u), u))
    case LinkAccount(u, _) => Some((RefreshProviders(SetIdentity(d, req.Id(), u, req.metaEmail), u), u))
    case CreateAccount(candidate) =>
      if config.disableSignup then None
      else
        var n := NewUser(d, ExternalUser(req, candidate.email));
        Some((SetIdentity(n, req.Id(), d.nextUser, req.metaEmail), d.nextUser))
    case MultipleAccounts(_) => None
  }

  /** The address of an unconfirmed user, left with one identity in `kept`, is confirmed or asked about. If that fails,
      the tables are `d` again. */
  function Settle(d: Directory, kept: Directory, u: nat, candidate: ProviderEmail, config: Config, req: SignIn)
    : (r: (Directory, Answer))
    requires u in kept.users
    ensures Intact(d) && Intact(kept) ==> Intact(r.0)
  {
    if candidate.verified || config.autoconfirm then (Confirmed(kept, u), Entered(u))
    else if candidate.email != "" && req.mailFails then (d, Refused)
    else
      var sent := if candidate.email != "" then Mailed(kept, u) else kept;
      (sent, if config.allowUnverified then Entered(u) else NeedsVerification(u))
  }

  /** What follows once the user `u` is settled on: `d` are the tables to fall back on, `c` those reached so far. */
  function Admit(d: Directory, c: Directory, u: nat, candidate: ProviderEmail, config: Config, req: SignIn)
    : (r: (Directory, Answer))
    requires u in c.users
    ensures Intact(d) && Intact(c) ==> Intact(r.0)
  {
    if u in req.banned then (d, Refused)
    else if req.provider == "web3" || c.users[u].emailConfirmed then (c, Entered(u))
    else Settle(d, KeepOnly(c, u, req.Id()), u, candidate, config, req)
  }

  /** An external sign-in, up to the issuing of tokens. */
  ghost function Enter(d: Directory, config: Config, req: SignIn): (r: (Directory, Answer))
    requires Intact(d)
    ensures Intact(r.0)
  {
    match Carried(d, config, req)
    case None => (d, Refused)
    case Some((c, u)) => Admit(d, c, u, Decide(d, config, req).candidate, config, req)
  }

  /** Accepting the invitation of `u` through an external provider. */
  function AcceptInvite(d: Directory, u: nat, req: SignIn): (r: (Directory, Answer))
    ensures Intact(d) ==> Intact(r.0)
  {
    if u !in d.users || !d.users[u].pending || (forall e :: e in req.emails ==> e.email != d.users[u].email)
       || req.Id() in d.identities then (d, Refused)
    else (Confirmed(KeepOnly(SetIdentity(d, req.Id(), u, req.metaEmail), u, req.Id()), u), Entered(u))
  }

  /** A sign-up by address or by phone number. `dataEmail` is an address inside the free-form data of the request. */
  datatype SignUpRequest = SignUpRequest(byPhone: bool, contact: string, dataEmail: string, aud: string,
                                         sendFails: bool)
  {
    function Provider(): string { if byPhone then "phone" else "email" }
    function Email(): string { if byPhone then "" else Lower(contact) }
    function Account(): User {
      User(aud, Email(), if byPhone then contact else "", false, true, {Provider()}, false, false, false)
    }
  }

  function UsersByPhone(d: Directory, phone: string, aud: string): set<nat> {
    set u | u in d.users && d.users[u].phone != "" && d.users[u].phone == phone && d.users[u].aud == aud
      && !d.users[u].sso
  }

  /** `found` is an existing user that the sign-up can come upon. */
  ghost predicate SignUpFinds(d: Directory, req: SignUpRequest, found: Option<nat>)
    requires Intact(d)
  {
    if req.byPhone then
      match found
      case Some(u) => u in UsersByPhone(d, req.contact, req.aud)
      case None => UsersByPhone(d, req.contact, req.aud) == {}
    else Duplicate(d, Lower(req.contact), req.aud, None, found)
  }

  /** Gives `u` the identity of the sign-up, if it is missing. */
  function Registered(d: Directory, req: SignUpRequest, u: nat): (r: Directory)
    requires u in d.users
    ensures Intact(d) ==> Intact(r)
    ensures r.users.Keys == d.users.Keys
  {
    var k := Key(req.Provider(), OfUser(u));
    var email := if d.users[u].email != "" then d.users[u].email else req.dataEmail;
    if k in d.identities then d else KeepOnly(SetIdentity(d, k, u, email), u, k)
  }

  /** Confirms the user or sends a code. */
  function Notified(d: Directory, config: Config, req: SignUpRequest, u: nat): (r: Option<Directory>)
    requires u in d.users
    ensures r.Some? && Intact(d) ==> Intact(r.value)
  {
    if if req.byPhone then d.users[u].phoneConfirmed else d.users[u].emailConfirmed then Some(d)
    else if req.byPhone && config.smsAutoconfirm then Some(PhoneConfirmed(d, u))
    else if !req.byPhone && config.autoconfirm then Some(Confirmed(d, u))
    else if req.sendFails then None
    else Some(Mailed(d, u))
  }

  function SignUp(d: Directory, config: Config, req: SignUpRequest, found: Option<nat>): (r: Directory)
    ensures Intact(d) ==> Intact(r)
  {
    if config.disableSignup then d
    else
      match found
      case None =>
        var s := Notified(Registered(NewUser(d, req.Account()), req, d.nextUser), config, req, d.nextUser);
        if s.Some? then s.value else d
      case Some(u) =>
        if u !in d.users || (if req.byPhone then d.users[u].phoneConfirmed else d.users[u].emailConfirmed) then d
        else
          var s := Notified(Registered(d, req, u), config, req, u);
          if s.Some? then s.value else d
  }

  /** An administrator invites an address. */
  function Invite(d: Directory, email: string, aud: string, found: Option<nat>, mailFails: bool): (r: Directory)
    ensures Intact(d) ==> Intact(r)
  {
    if mailFails then d
    else
      match found
      case Some(u) => if u !in d.users || d.users[u].emailConfirmed then d else Mailed(d, u)
      case None =>
        var user := User(aud, Lower(email), "", false, false, {"email"}, false, false, false);
        var k := Key("email", OfUser(d.nextUser));
        if k in d.identities then d else Mailed(SetIdentity(NewUser(d, user), k, d.nextUser, Lower(email)), d.nextUser)
  }

  /** The addresses of the user's identities that no other non-SSO user of the audience holds. */
  function FreeEmails(d: Directory, u: nat): set<string>
    requires u in d.users
  {
    set k | k in Owned(d, u) && UsersByEmail(d, d.identities[k].email, d.users[u].aud) == {} :: d.identities[k].email
  }

  predicate EmailIsBacked(d: Directory, u: nat)
    requires u in d.users
  {
    exists k :: k in Owned(d, u) && d.identities[k].email == d.users[u].email
  }

  /** `choice` is an address the user can be given from its identities; `None` if all are taken. */
  predicate EmailChoice(d: Directory, u: nat, choice: Option<string>)
    requires u in d.users
  {
    if EmailIsBacked(d, u) then choice == Some(d.users[u].email)
    else if choice.None? then FreeEmails(d, u) == {}
    else choice.value in FreeEmails(d, u)
  }

  function WithEmail(d: Directory, u: nat, email: string): Directory
    requires u in d.users
  {
    var user := d.users[u];
    SetUser(d, u, user.(email := email, emailConfirmed := user.emailConfirmed && (email != "" || user.email == "")))
  }

  predicate Unlinkable(d: Directory, u: nat, k: Key) {
    u in d.users && |Owned(d, u)| > 1 && k in Owned(d, u)
  }

  /** Unlinking an identity; `choice` is the address the remaining identities provide. */
  function Unlink(d: Directory, u: nat, k: Key, choice: Option<string>): (r: Directory)
    ensures Intact(d) ==> Intact(r)
  {
    if !Unlinkable(d, u, k) then d
    else
      var rest := Without(d, {k});
      if k.provider == "phone" then
        RefreshProviders(SetUser(rest, u, rest.users[u].(phone := "", phoneConfirmed := false)), u)
      else if choice.None? then d
      else RefreshProviders(WithEmail(rest, u, choice.value), u)
  }
}
