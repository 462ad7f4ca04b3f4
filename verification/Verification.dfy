/** Spending one-time tokens: by link or token hash (looked up by row) and by typed code (looked up by
    column), and what an accepted one does. Row lookups return any matching row, so the row found is
    a parameter. Confirming an email change by typed code is not part of this model. */
module Verification {
  import opened Common
  import opened OneTimeTokens

  datatype VerifyType =
    | SignupType | InviteType | RecoveryType | MagicLinkType | EmailChangeType | EmailType | SmsType | PhoneChangeType

  datatype Config = Config(otpExp: nat, smsExp: nat, autoconfirm: bool, secure: bool)

  /** A link (GET, which sends the hash as token too) or a posted token hash. `lateFailure` is the outcome
      of everything that can still fail after the token was spent (opening the session, redirecting). */
  datatype LinkRequest = LinkRequest(ty: VerifyType, viaGet: bool, hash: Hash, banned: bool, lateFailure: bool,
                                     now: Time)

  /** A typed code for the user found by the given email or phone; `digest` is the hash of the code. */
  datatype TypedRequest = TypedRequest(ty: VerifyType, userId: nat, digest: nat, banned: bool, lateFailure: bool,
                                       now: Time)

  datatype Lookup = Refused | Crash | Found(userId: nat, ty: VerifyType)

  datatype Outcome = Accepted(userId: nat, ty: VerifyType) | Half(userId: nat) | Rejected | Crashed

  predicate Expired(sentAt: Time, exp: nat, now: Time) {
    now > sentAt + exp * SECOND
  }

  function KindsFor(ty: VerifyType): set<Kind> {
    match ty
    case EmailType => {Confirmation, Recovery}
    case SignupType => {Confirmation}
    case InviteType => {Confirmation}
    case RecoveryType => {Recovery}
    case MagicLinkType => {Recovery}
    case EmailChangeType => {EmailCurrent, EmailNew}
    case SmsType => {}
    case PhoneChangeType => {}
  }

  predicate Matches(db: Store, r: nat, kinds: set<Kind>, hash: Hash) {
    r in db.rows && db.rows[r].kind in kinds && db.rows[r].hash == hash
  }

  ghost predicate Finds(db: Store, kinds: set<Kind>, hash: Hash, found: Option<nat>) {
    match found
    case Some(r) => Matches(db, r, kinds, hash)
    case None => forall r :: r in db.rows ==> !Matches(db, r, kinds, hash)
  }

  function Column(user: User, k: Kind): Option<Hash> {
    if k in user.columns then Some(user.columns[k]) else None
  }

  /** The generic type "email" turns into sign-up or magic link, whichever column holds the hash. */
  function Resolve(user: User, ty: VerifyType, hash: Hash): VerifyType {
    if ty != EmailType then ty
    else if Column(user, Recovery) == Some(hash) then MagicLinkType
    else SignupType
  }

  function SlotFor(ty: VerifyType): Slot {
    match ty
    case RecoveryType => RecoverySent
    case MagicLinkType => RecoverySent
    case EmailChangeType => EmailChangeSent
    case PhoneChangeType => PhoneChangeSent
    case _ => ConfirmationSent
  }

  /** Reading a sent-at time that is not set would crash; the lookup says so. */
  function LookupByHash(db: Store, config: Config, req: LinkRequest, found: Option<nat>): Lookup {
    if KindsFor(req.ty) == {} || found.None? || found.value !in db.rows then Refused
    else
      var u := db.rows[found.value].userId;
      if u !in db.users || req.banned then Refused
      else
        var ty := Resolve(db.users[u], req.ty, req.hash);
        if SlotFor(ty) !in db.users[u].sent then Crash
        else if Expired(db.users[u].sent[SlotFor(ty)], config.otpExp, req.now) then Refused
        else Found(u, ty)
  }

  predicate CodeFits(user: User, k: Kind, digest: nat, exp: nat, now: Time) {
    && k in user.columns
    && SlotOf(k) in user.sent
    && !Expired(user.sent[SlotOf(k)], exp, now)
    && user.columns[k].digest == digest
  }

  function LookupByCode(db: Store, config: Config, req: TypedRequest): Lookup {
    if req.userId !in db.users || req.banned then Refused
    else
      var user := db.users[req.userId];
      match req.ty
      case EmailType =>
        if CodeFits(user, Confirmation, req.digest, config.otpExp, req.now) then Found(req.userId, SignupType)
        else if CodeFits(user, Recovery, req.digest, config.otpExp, req.now) then Found(req.userId, MagicLinkType)
        else Refused
      case SignupType => CodeOr(user, Confirmation, req, config.otpExp)
      case InviteType => CodeOr(user, Confirmation, req, config.otpExp)
      case RecoveryType => CodeOr(user, Recovery, req, config.otpExp)
      case MagicLinkType => CodeOr(user, Recovery, req, config.otpExp)
      case SmsType => CodeOr(user, Confirmation, req, config.smsExp)
      case PhoneChangeType => CodeOr(user, PhoneChange, req, config.smsExp)
      case EmailChangeType => Refused
  }

  function CodeOr(user: User, k: Kind, req: TypedRequest, exp: nat): Lookup {
    if CodeFits(user, k, req.digest, exp, req.now) then Found(req.userId, req.ty) else Refused
  }

  // ----- what an accepted token does

  function SignupVerified(db: Store, u: nat): Store
    requires u in db.users
  {
    var first := if !db.users[u].hasPassword && db.users[u].invited
                 then Conclude(db, u, PasswordUpdated(db.users[u], true)) else db;
    Conclude(first, u, Confirmed(first.users[u]))
  }

  function RecoverVerified(db: Store, u: nat): Store
    requires u in db.users
  {
    var first := Conclude(db, u, Recovered(db.users[u]));
    if db.users[u].emailConfirmed then first else Conclude(first, u, Confirmed(first.users[u]))
  }

  /** The two-step rule applies: first confirmation of a secure change of an existing address. */
  predicate NeedsTwo(config: Config, user: User) {
    !config.autoconfirm && config.secure && user.confirmStatus == 0 && user.email != ""
  }

  /** One of the three comparisons with a column or row; a request without a token compares the empty
      string, which an empty column equals. */
  ghost predicate Hits(db: Store, user: User, k: Kind, req: LinkRequest) {
    || (if req.viaGet then Column(user, k) == Some(req.hash) else Column(user, k) == None)
    || Column(user, k) == Some(req.hash)
    || exists r :: r in db.rows && Matches(db, r, {k}, req.hash)
  }

  /** First of two confirmations: remember it and spend the secret it came with. */
  ghost function HalfConfirmed(db: Store, u: nat, req: LinkRequest): Store
    requires u in db.users
  {
    var user := db.users[u].(confirmStatus := 1);
    if Hits(db, user, EmailCurrent, req) then ClearOne(SetUser(db, u, Drop(user, {EmailCurrent})), u, EmailCurrent)
    else if Hits(db, user, EmailNew, req) then ClearOne(SetUser(db, u, Drop(user, {EmailNew})), u, EmailNew)
    else SetUser(db, u, user)
  }

  /** The new address is on the "email" identity, which is created if need be, and becomes the user's. */
  function Moved(user: User): User {
    EmailChanged(user.(identity := Some(user.emailChange)))
  }

  ghost function Apply(db: Store, config: Config, u: nat, ty: VerifyType, req: LinkRequest): (Store, Outcome)
    requires u in db.users
  {
    match ty
    case SignupType => (SignupVerified(db, u), Accepted(u, ty))
    case InviteType => (SignupVerified(db, u), Accepted(u, ty))
    case RecoveryType => (RecoverVerified(db, u), Accepted(u, ty))
    case MagicLinkType => (RecoverVerified(db, u), Accepted(u, ty))
    case SmsType => (Conclude(db, u, PhoneConfirmed(db.users[u])), Accepted(u, ty))
    case PhoneChangeType => (Conclude(db, u, PhoneChanged(db.users[u])), Accepted(u, ty))
    case EmailChangeType =>
      if NeedsTwo(config, db.users[u]) then (HalfConfirmed(db, u, req), Half(u))
      else (Conclude(db, u, Moved(db.users[u])), Accepted(u, ty))
    case EmailType => (db, Rejected)
  }

  /** A whole verification, as one transaction. */
  ghost function Spend(db: Store, config: Config, lookup: Lookup, req: LinkRequest, lateFailure: bool): (Store, Outcome)
    requires lookup.Found? ==> lookup.userId in db.users
  {
    match lookup
    case Refused => (db, Rejected)
    case Crash => (db, Crashed)
    case Found(u, ty) => if lateFailure then (db, Rejected) else Apply(db, config, u, ty, req)
  }

  ghost function ByLink(db: Store, config: Config, req: LinkRequest, found: Option<nat>): (Store, Outcome) {
    Spend(db, config, LookupByHash(db, config, req, found), req, req.lateFailure)
  }

  /** A typed code never confirms an email change here, so the link parameters do not matter. */
  ghost function ByCode(db: Store, config: Config, req: TypedRequest): (Store, Outcome) {
    Spend(db, config, LookupByCode(db, config, req),
          LinkRequest(req.ty, false, Hash(false, req.digest), req.banned, req.lateFailure, req.now),
          req.lateFailure)
  }

  // ----- the same, step by step on the tables

  method FindOneTimeToken(accounts: Accounts, kinds: set<Kind>, hash: Hash) returns (found: Option<nat>)
    ensures Finds(accounts.View(), kinds, hash, found)
  {
    if exists r :: r in accounts.rows && accounts.rows[r].kind in kinds && accounts.rows[r].hash == hash {
      var r :| r in accounts.rows && accounts.rows[r].kind in kinds && accounts.rows[r].hash == hash;
      return Some(r);
    }
    return None;
  }

  method VerifyTokenHash(accounts: Accounts, config: Config, req: LinkRequest)
      returns (found: Option<nat>, lookup: Lookup)
    ensures Finds(accounts.View(), KindsFor(req.ty), req.hash, found)
    ensures lookup == LookupByHash(accounts.View(), config, req, found)
    ensures lookup.Found? ==>
              && found.Some? && !req.banned && accounts.rows[found.value].userId == lookup.userId
              && lookup.userId in accounts.users && SlotFor(lookup.ty) in accounts.users[lookup.userId].sent
              && req.now <= accounts.users[lookup.userId].sent[SlotFor(lookup.ty)] + config.otpExp * SECOND
    ensures lookup.Refused? ==>
              || found.None? || req.banned || accounts.rows[found.value].userId !in accounts.users
              || var user := accounts.users[accounts.rows[found.value].userId];
                 var slot := SlotFor(Resolve(user, req.ty, req.hash));
                 slot in user.sent && user.sent[slot] + config.otpExp * SECOND < req.now
    ensures lookup.Crash? ==>
              && found.Some? && accounts.rows[found.value].userId in accounts.users
              && var user := accounts.users[accounts.rows[found.value].userId];
                 SlotFor(Resolve(user, req.ty, req.hash)) !in user.sent
  {
    found := FindOneTimeToken(accounts, KindsFor(req.ty), req.hash);
    if found.None? { return found, Refused; }
    var u := accounts.rows[found.value].userId;
    if u !in accounts.users { return found, Refused; }
    var user := accounts.users[u];
    if req.banned { return found, Refused; }
    var ty := req.ty;
    var slot := SlotFor(ty);
    if ty == EmailType {
      ty, slot := SignupType, ConfirmationSent;
      if Column(user, Recovery) == Some(req.hash) {
        ty, slot := MagicLinkType, RecoverySent;
      }
    }
    if slot !in user.sent { return found, Crash; }
    if req.now > user.sent[slot] + config.otpExp * SECOND { return found, Refused; }
    return found, Found(u, ty);
  }

  method SignupVerify(accounts: Accounts, u: nat)
    requires u in accounts.users
    modifies accounts
    ensures accounts.View() == SignupVerified(old(accounts.View()), u)
  {
    if !accounts.users[u].hasPassword && accounts.users[u].invited {
      accounts.UpdatePassword(u, true);
    }
    accounts.Confirm(u);
  }

  method RecoverVerify(accounts: Accounts, u: nat)
    requires u in accounts.users
    modifies accounts
    ensures accounts.View() == RecoverVerified(old(accounts.View()), u)
  {
    accounts.Recover(u);
    if !accounts.users[u].emailConfirmed {
      accounts.Confirm(u);
    }
  }

  method EmailChangeVerify(accounts: Accounts, config: Config, u: nat, req: LinkRequest) returns (outcome: Outcome)
    requires u in accounts.users
    modifies accounts
    ensures (accounts.View(), outcome) == Apply(old(accounts.View()), config, u, EmailChangeType, req)
  {
    var user := accounts.users[u];
    if !config.autoconfirm && config.secure && user.confirmStatus == 0 && user.email != "" {
      var currentOTT := FindOneTimeToken(accounts, {EmailCurrent}, req.hash);
      var newOTT := FindOneTimeToken(accounts, {EmailNew}, req.hash);
      ghost var before := accounts.View();
      var token := if req.viaGet then Some(req.hash) else None;
      user := user.(confirmStatus := 1);
      assert currentOTT.Some? <==> exists r :: r in before.rows && Matches(before, r, {EmailCurrent}, req.hash);
      assert newOTT.Some? <==> exists r :: r in before.rows && Matches(before, r, {EmailNew}, req.hash);
      if token == Column(user, EmailCurrent) || Column(user, EmailCurrent) == Some(req.hash) || currentOTT.Some? {
        assert Hits(before, user, EmailCurrent, req);
        user := user.(columns := user.columns - {EmailCurrent});
        accounts.ClearOneTimeTokenForUser(u, EmailCurrent);
      } else if token == Column(user, EmailNew) || Column(user, EmailNew) == Some(req.hash) || newOTT.Some? {
        assert !Hits(before, user, EmailCurrent, req) && Hits(before, user, EmailNew, req);
        user := user.(columns := user.columns - {EmailNew});
        accounts.ClearOneTimeTokenForUser(u, EmailNew);
      }
      accounts.users := accounts.users[u := user];
      return Half(u);
    }
    accounts.users := accounts.users[u := user.(identity := Some(user.emailChange))];
    accounts.ConfirmEmailChange(u);
    ConcludeTwice(old(accounts.View()), u, user.(identity := Some(user.emailChange)), Moved(user));
    return Accepted(u, EmailChangeType);
  }

  method Verify(accounts: Accounts, config: Config, lookup: Lookup, req: LinkRequest, lateFailure: bool)
      returns (outcome: Outcome)
    requires lookup.Found? ==> lookup.userId in accounts.users
    modifies accounts
    ensures (accounts.View(), outcome) == Spend(old(accounts.View()), config, lookup, req, lateFailure)
  {
    if lookup.Refused? { return Rejected; }
    if lookup.Crash? { return Crashed; }
    if lateFailure { return Rejected; }
    var u := lookup.userId;
    outcome := Accepted(u, lookup.ty);
    match lookup.ty
    case SignupType => SignupVerify(accounts, u);
    case InviteType => SignupVerify(accounts, u);
    case RecoveryType => RecoverVerify(accounts, u);
    case MagicLinkType => RecoverVerify(accounts, u);
    case SmsType => accounts.ConfirmPhone(u);
    case PhoneChangeType => accounts.ConfirmPhoneChange(u);
    case EmailChangeType =>
      outcome := EmailChangeVerify(accounts, config, u, req);
    case EmailType => outcome := Rejected;
  }
}
