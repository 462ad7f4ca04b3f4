/** What verifications mean for the people behind the accounts: which links and codes still work afterwards, and exactly
    which events confirm an address or a phone number, or move one. */
module Confirmations {
  import opened Common
  import opened OneTimeTokens
  import opened Verification
  import opened OneTimeRuns
  import opened OneTimeTheorems

  // ----- rows

  function RowsOf(db: Store, u: nat, k: Kind): map<nat, Row> {
    map r | r in db.rows && db.rows[r].userId == u && db.rows[r].kind == k :: db.rows[r]
  }

  lemma ClearingLeavesTheRest(db: Store, u: nat, k: Kind, v: nat, l: Kind)
    ensures RowsOf(ClearOne(db, u, k), v, l) == if v == u && l == k then map[] else RowsOf(db, v, l)
  {
  }

  /** A new secret is the only one of its user and kind that a link can present, and displaces no other. */
  lemma NewSecretReplacesTheOld(db: Store, u: nat, k: Kind, h: Hash, v: nat, l: Kind)
    requires db.nextRow !in db.rows
    ensures var after := Create(db, u, k, h);
            && RowsOf(after, v, l) == (if v == u && l == k then map[db.nextRow := Row(u, k, h)] else RowsOf(db, v, l))
            && after.users == db.users
  {
    ClearingLeavesTheRest(db, u, k, v, l);
    var cleared := ClearOne(db, u, k);
    assert db.nextRow !in cleared.rows;
    assert RowsOf(Create(db, u, k, h), v, l) ==
           if v == u && l == k then RowsOf(cleared, v, l)[db.nextRow := Row(u, k, h)] else RowsOf(cleared, v, l);
  }

  /** The link leads to the user, for whatever purpose. */
  ghost predicate LeadsTo(db: Store, config: Config, req: LinkRequest, found: Option<nat>, u: nat) {
    && Finds(db, KindsFor(req.ty), req.hash, found)
    && LookupByHash(db, config, req, found).Found? && LookupByHash(db, config, req, found).userId == u
  }

  /** After any of the user's confirmations (of an address, a phone number, a change, a recovery, an identity check or a
      new password) no link sent before leads to the user; links of other users lead where they led before. */
  lemma ConfirmationEndsAllLinks(db: Store, config: Config, u: nat, user: User, req: LinkRequest, found: Option<nat>,
                                 v: nat)
    requires u in db.users
    ensures var after := Conclude(db, u, user);
            && !LeadsTo(after, config, req, found, u)
            && (v != u ==> (LeadsTo(after, config, req, found, v) <==> LeadsTo(db, config, req, found, v)))
  {
  }

  /** A code typed for the user is accepted as being of this type. */
  predicate CodeAccepted(db: Store, config: Config, req: TypedRequest) {
    LookupByCode(db, config, req).Found?
  }

  /** A new password ends every typed code of the user as well; codes of other users are as good as before. */
  lemma NewPasswordEndsAllCodes(db: Store, config: Config, u: nat, hasPassword: bool, req: TypedRequest)
    requires u in db.users
    ensures var after := Conclude(db, u, PasswordUpdated(db.users[u], hasPassword));
            && (req.userId == u ==> !CodeAccepted(after, config, req))
            && (req.userId != u ==> LookupByCode(after, config, req) == LookupByCode(db, config, req))
  {
  }

  /** A kind whose column a confirmation drops has no code left, every other kind keeps its own. */
  lemma DroppedKindsHaveNoCodes(user: User, kinds: set<Kind>, k: Kind, digest: nat, exp: nat, now: Time)
    ensures CodeFits(Drop(user, kinds), k, digest, exp, now) <==> k !in kinds && CodeFits(user, k, digest, exp, now)
  {
  }

  /** The codes of that kind that an accepted verification ends: those of the same purpose, the pending confirmation of
      an address that is confirmed with it, and all of them when an invited user gets a password. */
  predicate Ends(ty: VerifyType, user: User, k: Kind) {
    match ty
    case SignupType => k == Confirmation || (user.invited && !user.hasPassword)
    case InviteType => k == Confirmation || (user.invited && !user.hasPassword)
    case RecoveryType => k == Recovery || (k == Confirmation && !user.emailConfirmed)
    case MagicLinkType => k == Recovery || (k == Confirmation && !user.emailConfirmed)
    case EmailChangeType => k == EmailNew || k == EmailCurrent || (k == Confirmation && !user.emailConfirmed)
    case SmsType => k == Confirmation
    case PhoneChangeType => k == PhoneChange
    case EmailType => false
  }

  /** What an accepted verification makes of its user. */
  ghost predicate Settled(ty: VerifyType, user: User, settled: User) {
    && (forall k :: Column(settled, k) == if Ends(ty, user, k) then None else Column(user, k))
    && settled.invited == user.invited
    && (settled.hasPassword <==> user.hasPassword || (user.invited && (ty == SignupType || ty == InviteType)))
    && settled.emailChange == (if ty == EmailChangeType then "" else user.emailChange)
    && settled.phoneChange == (if ty == PhoneChangeType then "" else user.phoneChange)
    && settled.confirmStatus == (if ty == EmailChangeType then 0 else user.confirmStatus)
  }

  /** Only this user has changed, and its link rows are gone. */
  ghost predicate ClearedFor(db: Store, after: Store, u: nat) {
    && (forall r :: r in after.rows <==> r in db.rows && db.rows[r].userId != u)
    && (forall r :: r in after.rows ==> after.rows[r] == db.rows[r])
    && u in after.users && after.users == db.users[u := after.users[u]]
  }

  lemma SignupSettles(db: Store, u: nat)
    requires u in db.users
    ensures var after := SignupVerified(db, u);
            ClearedFor(db, after, u) && Settled(SignupType, db.users[u], after.users[u])
  {
  }

  lemma RecoverSettles(db: Store, u: nat)
    requires u in db.users
    ensures var after := RecoverVerified(db, u);
            ClearedFor(db, after, u) && Settled(RecoveryType, db.users[u], after.users[u])
  {
  }

  lemma ChangeSettles(db: Store, u: nat)
    requires u in db.users
    ensures var after := Conclude(db, u, Moved(db.users[u]));
            ClearedFor(db, after, u) && Settled(EmailChangeType, db.users[u], after.users[u])
  {
  }

  /** An accepted verification takes all link rows of its user and no other, ends exactly those codes, gives an invited
      user a password, leaves no change pending of the kind it completes, and touches no other user. */
  lemma AcceptanceSettles(db: Store, config: Config, u: nat, ty: VerifyType, req: LinkRequest)
    requires u in db.users && Apply(db, config, u, ty, req).1.Accepted?
    ensures var (after, outcome) := Apply(db, config, u, ty, req);
            outcome == Accepted(u, ty) && ClearedFor(db, after, u) && Settled(ty, db.users[u], after.users[u])
  {
    match ty
    case SignupType => SignupSettles(db, u);
    case InviteType => SignupSettles(db, u);
    case RecoveryType => RecoverSettles(db, u);
    case MagicLinkType => RecoverSettles(db, u);
    case EmailChangeType => ChangeSettles(db, u);
    case SmsType =>
    case PhoneChangeType =>
  }

  /** A sign-up adds an account with nothing confirmed and no secret, and touches no other. */
  lemma SignUpOpensAnAccount(db: Store, email: string, phone: string, hasPassword: bool)
    ensures var after, n := SignUp(db, email, phone, hasPassword), db.nextUser;
            && n in after.users && after.users == db.users[n := after.users[n]] && after.rows == db.rows
            && var user := after.users[n];
            && user.email == email && user.phone == phone && user.hasPassword == hasPassword
            && !user.emailConfirmed && !user.phoneConfirmed && !user.invited && user.confirmStatus == 0
            && user.emailChange == "" && user.phoneChange == "" && user.columns == map[] && user.sent == map[]
  {
  }

  /** A new password and a passed identity check: what they end, and for whom. */
  lemma PasswordsAndChecksSettle(config: Config, db: Store, e: Event)
    requires Enabled(db, e) && (e.PasswordEvent? || e.ReauthEvent?)
    ensures var after := Step(config, db, e);
            && (forall r :: r in after.rows <==> r in db.rows && db.rows[r].userId != e.u)
            && e.u in after.users && after.users == db.users[e.u := after.users[e.u]]
            && var user, settled := db.users[e.u], after.users[e.u];
            && (forall k :: k in settled.columns <==> e.ReauthEvent? && k in user.columns && k != Reauthentication)
            && (forall k :: k in settled.columns ==> settled.columns[k] == user.columns[k])
            && settled.hasPassword == (if e.PasswordEvent? then e.hasPassword else user.hasPassword)
  {
  }

  // ----- who is confirmed, and by what

  predicate ConfirmsEmail(ty: VerifyType) {
    ty in {SignupType, InviteType, RecoveryType, MagicLinkType, EmailChangeType}
  }

  predicate ConfirmsPhone(ty: VerifyType) {
    ty in {SmsType, PhoneChangeType}
  }

  /** How the columns about addresses and numbers of user `v` come out of an event that ended with `outcome`. */
  ghost predicate Follows(before: User, after: User, outcome: Outcome, v: nat) {
    var accepted := outcome.Accepted? && outcome.userId == v;
    && (after.emailConfirmed <==> before.emailConfirmed || (accepted && ConfirmsEmail(outcome.ty)))
    && (after.phoneConfirmed <==> before.phoneConfirmed || (accepted && ConfirmsPhone(outcome.ty)))
    && after.email == (if accepted && outcome.ty == EmailChangeType then before.emailChange else before.email)
    && after.phone == (if accepted && outcome.ty == PhoneChangeType then before.phoneChange else before.phone)
  }

  lemma ApplyFollows(db: Store, config: Config, u: nat, ty: VerifyType, req: LinkRequest, v: nat)
    requires u in db.users && v in db.users
    ensures var (after, outcome) := Apply(db, config, u, ty, req);
            v in after.users && Follows(db.users[v], after.users[v], outcome, v)
  {
    if ty == EmailChangeType && NeedsTwo(config, db.users[u]) { HalfConfirmedIsHalfDone(db, u, req); }
  }

  lemma LinkFollows(db: Store, config: Config, req: LinkRequest, found: Option<nat>, v: nat)
    requires v in db.users
    ensures var (after, outcome) := ByLink(db, config, req, found);
            v in after.users && Follows(db.users[v], after.users[v], outcome, v)
  {
    var lookup := LookupByHash(db, config, req, found);
    if lookup.Found? { ApplyFollows(db, config, lookup.userId, lookup.ty, req, v); }
  }

  lemma CodeFollows(db: Store, config: Config, req: TypedRequest, v: nat)
    requires v in db.users
    ensures var (after, outcome) := ByCode(db, config, req);
            v in after.users && Follows(db.users[v], after.users[v], outcome, v)
  {
    var lookup := LookupByCode(db, config, req);
    if lookup.Found? {
      ApplyFollows(db, config, lookup.userId, lookup.ty,
                   LinkRequest(req.ty, false, Hash(false, req.digest), req.banned, req.lateFailure, req.now), v);
    }
  }

  lemma OtherEventsFollow(config: Config, db: Store, e: Event, v: nat)
    requires Enabled(db, e) && v in db.users && v < db.nextUser && !e.LinkEvent? && !e.CodeEvent?
    ensures v in Step(config, db, e).users && Follows(db.users[v], Step(config, db, e).users[v], Rejected, v)
  {
    if e.ChangeEvent? {
      assert Step(config, db, e).users ==
             db.users[e.u := ChangeRequested(db.users[e.u], e.email, config.secure, e.pkce, db.nextDigest, e.at)];
    }
  }

  /** Whatever happens in any reachable state: an address or a phone number is confirmed afterwards exactly when it was
      before or a verification of the user that vouches for it was accepted; an address or a number moves exactly by an
      accepted change, to the one that was requested. */
  lemma ConfirmedExactlyByAcceptance(config: Config, es: seq<Event>, e: Event, v: nat)
    requires Runs(config, EMPTY, es) && Enabled(End(config, EMPTY, es), e)
    ensures var db := End(config, EMPTY, es);
            v in db.users ==>
              && v in Step(config, db, e).users
              && Follows(db.users[v], Step(config, db, e).users[v], OutcomeOf(config, db, e), v)
  {
    EveryRunIsMirrored(config, EMPTY, es);
    var db := End(config, EMPTY, es);
    if v in db.users {
      match e
      case LinkEvent(req, found) => LinkFollows(db, config, req, found, v);
      case CodeEvent(req) => CodeFollows(db, config, req, v);
      case SignUpEvent(_, _, _) => OtherEventsFollow(config, db, e, v);
      case SendEvent(_, _, _, _, _) => OtherEventsFollow(config, db, e, v);
      case InviteEvent(_, _) => OtherEventsFollow(config, db, e, v);
      case ChangeEvent(_, _, _, _) => OtherEventsFollow(config, db, e, v);
      case PasswordEvent(_, _) => OtherEventsFollow(config, db, e, v);
      case ReauthEvent(_) => OtherEventsFollow(config, db, e, v);
    }
  }

  // ----- the "email" identity follows the address

  predicate Matched(user: User) {
    user.identity == if user.email == "" then None else Some(user.email)
  }

  /** Every user's "email" identity is under its address, and a change under way is to some address. */
  ghost predicate Following(db: Store) {
    && (forall u :: u in db.users ==> Matched(db.users[u]))
    && (forall r :: r in db.rows && (db.rows[r].kind == EmailNew || db.rows[r].kind == EmailCurrent)
                    && db.rows[r].userId in db.users ==>
          db.users[db.rows[r].userId].emailChange != "")
  }

  lemma FollowingConclude(db: Store, u: nat, user: User)
    requires Following(db) && u in db.users && Matched(user)
    ensures Following(Conclude(db, u, user))
  {
  }

  lemma FollowingApply(db: Store, config: Config, u: nat, ty: VerifyType, req: LinkRequest)
    requires Following(db) && u in db.users && (ty == EmailChangeType ==> db.users[u].emailChange != "")
    ensures Following(Apply(db, config, u, ty, req).0)
  {
    var user := db.users[u];
    assert Matched(user);
    match ty
    case EmailChangeType =>
      if NeedsTwo(config, user) { FollowingHalf(db, u, req); } else { FollowingConclude(db, u, Moved(user)); }
    case SmsType => FollowingConclude(db, u, PhoneConfirmed(user));
    case PhoneChangeType => FollowingConclude(db, u, PhoneChanged(user));
    case SignupType => FollowingSignup(db, u);
    case InviteType => FollowingSignup(db, u);
    case RecoveryType => FollowingRecover(db, u);
    case MagicLinkType => FollowingRecover(db, u);
    case EmailType =>
  }

  lemma FollowingHalf(db: Store, u: nat, req: LinkRequest)
    requires Following(db) && u in db.users
    ensures Following(HalfConfirmed(db, u, req))
  {
    HalfConfirmedIsHalfDone(db, u, req);
    FollowingHalfDone(db, u, HalfConfirmed(db, u, req));
  }

  lemma FollowingHalfDone(db: Store, u: nat, after: Store)
    requires Following(db) && HalfDone(db, u, after)
    ensures Following(after)
  {
    forall v | v in after.users ensures Matched(after.users[v]) { assert Matched(db.users[v]); }
  }

  lemma FollowingSignup(db: Store, u: nat)
    requires Following(db) && u in db.users
    ensures Following(SignupVerified(db, u))
  {
    var user := db.users[u];
    FollowingConclude(db, u, PasswordUpdated(user, true));
    var first := if !user.hasPassword && user.invited then Conclude(db, u, PasswordUpdated(user, true)) else db;
    FollowingConclude(first, u, Confirmed(first.users[u]));
  }

  lemma FollowingRecover(db: Store, u: nat)
    requires Following(db) && u in db.users
    ensures Following(RecoverVerified(db, u))
  {
    FollowingConclude(db, u, Recovered(db.users[u]));
    var first := Conclude(db, u, Recovered(db.users[u]));
    FollowingConclude(first, u, Confirmed(first.users[u]));
  }

  lemma FollowingLink(config: Config, db: Store, req: LinkRequest, found: Option<nat>)
    requires Mirrored(db) && Following(db) && Finds(db, KindsFor(req.ty), req.hash, found)
    ensures Following(ByLink(db, config, req, found).0)
  {
    var lookup := LookupByHash(db, config, req, found);
    if lookup.Found? {
      ResolvedType(db, req.ty, req.hash, found.value);
      FollowingApply(db, config, lookup.userId, lookup.ty, req);
    }
  }

  lemma FollowingCode(config: Config, db: Store, req: TypedRequest)
    requires Following(db)
    ensures Following(ByCode(db, config, req).0)
  {
    var lookup := LookupByCode(db, config, req);
    if lookup.Found? {
      FollowingApply(db, config, lookup.userId, lookup.ty,
                     LinkRequest(req.ty, false, Hash(false, req.digest), req.banned, req.lateFailure, req.now));
    }
  }

  lemma FollowingChange(config: Config, db: Store, e: Event)
    requires Following(db) && Enabled(db, e) && e.ChangeEvent?
    ensures Following(Step(config, db, e))
  {
    assert Step(config, db, e).users ==
           db.users[e.u := ChangeRequested(db.users[e.u], e.email, config.secure, e.pkce, db.nextDigest, e.at)];
  }

  lemma FollowingStep(config: Config, db: Store, e: Event)
    requires Mirrored(db) && Following(db) && Enabled(db, e)
    ensures Following(Step(config, db, e))
  {
    match e
    case LinkEvent(req, found) => FollowingLink(config, db, req, found);
    case CodeEvent(req) => FollowingCode(config, db, req);
    case ChangeEvent(_, _, _, _) => FollowingChange(config, db, e);
    case PasswordEvent(u, hasPassword) => FollowingConclude(db, u, PasswordUpdated(db.users[u], hasPassword));
    case ReauthEvent(u) => FollowingConclude(db, u, Reauthenticated(db.users[u]));
    case SignUpEvent(email, phone, hasPassword) => FollowingSignUp(db, email, phone, hasPassword);
    case SendEvent(u, k, pkce, phone, at) => FollowingSend(db, u, k, pkce, phone, at);
    case InviteEvent(u, at) =>
      FollowingSend(SetUser(db, u, db.users[u].(invited := true)), u, Confirmation, false, "", at);
  }

  lemma FollowingSignUp(db: Store, email: string, phone: string, hasPassword: bool)
    requires Mirrored(db) && Following(db)
    ensures Following(SignUp(db, email, phone, hasPassword))
  {
    forall r | r in db.rows ensures RowOk(db, r) {}
  }

  lemma FollowingSend(db: Store, u: nat, k: Kind, pkce: bool, phone: string, now: Time)
    requires Following(db) && u in db.users && k != EmailNew && k != EmailCurrent
    ensures Following(Send(db, u, k, pkce, phone, now))
  {
    forall v | v in Send(db, u, k, pkce, phone, now).users ensures Matched(Send(db, u, k, pkce, phone, now).users[v]) {
      assert Matched(db.users[v]);
    }
  }

  /** Over every run the address on a user's "email" identity is the user's own, and there is such an identity exactly
      when the user has an address. */
  lemma {:induction false} IdentityFollowsTheAddress(config: Config, db: Store, es: seq<Event>)
    requires Mirrored(db) && Following(db) && Runs(config, db, es)
    ensures Following(End(config, db, es))
    decreases |es|
  {
    if es != [] {
      MirroredStep(config, db, es[0]);
      FollowingStep(config, db, es[0]);
      IdentityFollowsTheAddress(config, Step(config, db, es[0]), es[1..]);
    }
  }
}
