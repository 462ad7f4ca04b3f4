/** How long secrets last. A run's own list of events says when a secret of each kind was last sent to each user;
    exactly the links and codes that come in time, counted from that moment, are accepted. */
module Expiry {
  import opened Common
  import opened OneTimeTokens
  import opened Verification
  import opened OneTimeRuns
  import opened OneTimeTheorems

  // ----- when secrets were sent

  /** The event sends the user a secret of that kind. */
  predicate Sends(e: Event, u: nat, k: Kind) {
    match e
    case SendEvent(v, l, _, _, _) => v == u && l == k
    case InviteEvent(v, _) => v == u && k == Confirmation
    case ChangeEvent(v, _, _, _) => v == u && (k == EmailNew || k == EmailCurrent)
    case _ => false
  }

  /** When the user was last sent a secret of that kind. */
  function LastSent(es: seq<Event>, u: nat, k: Kind): Option<Time> {
    if es == [] then None
    else
      var last := es[|es| - 1];
      if Sends(last, u, k) then Some(last.at) else LastSent(es[..|es| - 1], u, k)
  }

  /** A column holds the secret that was sent last, and the row says when that was. A secret for the current address is
      there only if changes are secure and there is a current address. */
  ghost predicate DatedUser(config: Config, past: seq<Event>, u: nat, user: User) {
    && (forall k :: k in user.columns ==>
          SlotOf(k) in user.sent && LastSent(past, u, k) == Some(user.sent[SlotOf(k)]))
    && (EmailCurrent in user.columns ==> config.secure && user.email != "")
  }

  ghost predicate Dated(config: Config, past: seq<Event>, db: Store) {
    forall u :: u in db.users ==> DatedUser(config, past, u, db.users[u])
  }

  lemma OneMore(past: seq<Event>, e: Event, u: nat, k: Kind)
    ensures LastSent(past + [e], u, k) == if Sends(e, u, k) then Some(e.at) else LastSent(past, u, k)
  {
    assert (past + [e])[..|past|] == past;
  }

  /** An event that sends nothing to the user and takes columns away only. */
  lemma DatedStays(config: Config, past: seq<Event>, e: Event, u: nat, before: User, after: User)
    requires DatedUser(config, past, u, before) && SubColumns(after, before)
    requires after.sent == before.sent || after.columns == map[]
    requires after.email == before.email || EmailCurrent !in after.columns
    requires forall k :: k in after.columns ==> !Sends(e, u, k)
    ensures DatedUser(config, past + [e], u, after)
  {
    forall k | k in after.columns
      ensures SlotOf(k) in after.sent && LastSent(past + [e], u, k) == Some(after.sent[SlotOf(k)])
    {
      OneMore(past, e, u, k);
    }
  }

  /** The user who was sent a secret of a kind that has its own sent-at time. */
  lemma DatedReceiver(config: Config, past: seq<Event>, e: Event, u: nat, k: Kind, h: Hash, before: User, after: User)
    requires DatedUser(config, past, u, before) && k != EmailNew && k != EmailCurrent
    requires (e.SendEvent? && e.u == u && e.k == k) || (e.InviteEvent? && e.u == u && k == Confirmation)
    requires after.columns == before.columns[k := h] && after.sent == before.sent[SlotOf(k) := e.at]
    requires after.email == before.email
    ensures DatedUser(config, past + [e], u, after)
  {
    forall l | l in after.columns
      ensures SlotOf(l) in after.sent && LastSent(past + [e], u, l) == Some(after.sent[SlotOf(l)])
    {
      OneMore(past, e, u, l);
    }
  }

  lemma DatedSend(config: Config, past: seq<Event>, db: Store, e: Event)
    requires Dated(config, past, db) && Enabled(db, e) && (e.SendEvent? || e.InviteEvent?)
    ensures Dated(config, past + [e], Step(config, db, e))
  {
    var after, k := Step(config, db, e), if e.SendEvent? then e.k else Confirmation;
    var h := after.users[e.u].columns[k];
    forall u | u in after.users ensures DatedUser(config, past + [e], u, after.users[u]) {
      if u == e.u {
        DatedReceiver(config, past, e, u, k, h, db.users[u], after.users[u]);
      } else {
        DatedStays(config, past, e, u, db.users[u], after.users[u]);
      }
    }
  }

  lemma DatedChange(config: Config, past: seq<Event>, db: Store, e: Event)
    requires Dated(config, past, db) && Enabled(db, e) && e.ChangeEvent?
    ensures Dated(config, past + [e], Step(config, db, e))
  {
    var after := Step(config, db, e);
    assert after.users ==
           db.users[e.u := ChangeRequested(db.users[e.u], e.email, config.secure, e.pkce, db.nextDigest, e.at)];
    forall u | u in after.users ensures DatedUser(config, past + [e], u, after.users[u]) {
      forall k ensures LastSent(past + [e], u, k) == if Sends(e, u, k) then Some(e.at) else LastSent(past, u, k) {
        OneMore(past, e, u, k);
      }
      assert DatedUser(config, past, u, db.users[u]);
    }
  }

  /** What a verification can have made of a user. */
  predicate Fewer(before: User, after: User) {
    && SubColumns(after, before)
    && (after.sent == before.sent || after.columns == map[])
    && (after.email == before.email || EmailCurrent !in after.columns)
  }

  lemma ApplyTakesAway(config: Config, db: Store, u: nat, ty: VerifyType, req: LinkRequest, v: nat)
    requires u in db.users && v in Apply(db, config, u, ty, req).0.users
    ensures v in db.users && Fewer(db.users[v], Apply(db, config, u, ty, req).0.users[v])
  {
    if ty == EmailChangeType && NeedsTwo(config, db.users[u]) { HalfConfirmedIsHalfDone(db, u, req); }
  }

  lemma OtherEventsTakeAway(config: Config, db: Store, e: Event, v: nat)
    requires Enabled(db, e) && v in Step(config, db, e).users && v in db.users && v < db.nextUser
    requires !e.SendEvent? && !e.InviteEvent? && !e.ChangeEvent?
    ensures Fewer(db.users[v], Step(config, db, e).users[v])
  {
    match e
    case LinkEvent(req, found) =>
      var lookup := LookupByHash(db, config, req, found);
      if lookup.Found? && !req.lateFailure { ApplyTakesAway(config, db, lookup.userId, lookup.ty, req, v); }
    case CodeEvent(req) =>
      var lookup := LookupByCode(db, config, req);
      if lookup.Found? && !req.lateFailure {
        ApplyTakesAway(config, db, lookup.userId, lookup.ty,
                       LinkRequest(req.ty, false, Hash(false, req.digest), req.banned, req.lateFailure, req.now), v);
      }
    case _ =>
  }

  lemma DatedOther(config: Config, past: seq<Event>, db: Store, e: Event)
    requires Mirrored(db) && Dated(config, past, db) && Enabled(db, e)
    requires !e.SendEvent? && !e.InviteEvent? && !e.ChangeEvent?
    ensures Dated(config, past + [e], Step(config, db, e))
  {
    var after := Step(config, db, e);
    forall u | u in after.users ensures DatedUser(config, past + [e], u, after.users[u]) {
      if u in db.users {
        OtherEventsTakeAway(config, db, e, u);
        DatedStays(config, past, e, u, db.users[u], after.users[u]);
      } else {
        NewUsersHaveNoColumns(config, db, e, u);
      }
    }
  }

  lemma NewUsersHaveNoColumns(config: Config, db: Store, e: Event, u: nat)
    requires Enabled(db, e) && u in Step(config, db, e).users && u !in db.users
    requires !e.SendEvent? && !e.InviteEvent? && !e.ChangeEvent?
    ensures Step(config, db, e).users[u].columns == map[]
  {
    match e
    case LinkEvent(req, found) =>
      var lookup := LookupByHash(db, config, req, found);
      if lookup.Found? && !req.lateFailure { ApplyTakesAway(config, db, lookup.userId, lookup.ty, req, u); }
    case CodeEvent(req) =>
      var lookup := LookupByCode(db, config, req);
      if lookup.Found? && !req.lateFailure {
        ApplyTakesAway(config, db, lookup.userId, lookup.ty,
                       LinkRequest(req.ty, false, Hash(false, req.digest), req.banned, req.lateFailure, req.now), u);
      }
    case _ =>
  }

  lemma DatedStep(config: Config, past: seq<Event>, db: Store, e: Event)
    requires Mirrored(db) && Dated(config, past, db) && Enabled(db, e)
    ensures Dated(config, past + [e], Step(config, db, e))
  {
    if e.ChangeEvent? {
      DatedChange(config, past, db, e);
    } else if e.SendEvent? || e.InviteEvent? {
      DatedSend(config, past, db, e);
    } else {
      DatedOther(config, past, db, e);
    }
  }

  /** Over every run each stored secret is the one sent last, and the time that counts is the time of that event. */
  lemma {:induction false} EveryRunIsDated(config: Config, past: seq<Event>, db: Store, es: seq<Event>)
    requires Mirrored(db) && Dated(config, past, db) && Runs(config, db, es)
    ensures Dated(config, past + es, End(config, db, es))
    decreases |es|
  {
    if es == [] {
      assert past + es == past;
    } else {
      MirroredStep(config, db, es[0]);
      DatedStep(config, past, db, es[0]);
      EveryRunIsDated(config, past + [es[0]], Step(config, db, es[0]), es[1..]);
      assert past + [es[0]] + es[1..] == past + es;
    }
  }

  // ----- which links are accepted

  /** A link of that type may present a secret of that kind. */
  predicate Serves(ty: VerifyType, k: Kind) {
    match k
    case Confirmation => ty == SignupType || ty == InviteType || ty == EmailType
    case Recovery => ty == RecoveryType || ty == MagicLinkType || ty == EmailType
    case EmailNew => ty == EmailChangeType
    case EmailCurrent => ty == EmailChangeType
    case Reauthentication => false
    case PhoneChange => false
  }

  /** The user was sent a secret of that kind no more than so many seconds ago. */
  predicate InTime(es: seq<Event>, u: nat, k: Kind, exp: nat, now: Time) {
    LastSent(es, u, k).Some? && now <= LastSent(es, u, k).value + exp * SECOND
  }

  /** The row holds the presented secret for the purpose of the link. */
  predicate Holds(db: Store, r: nat, req: LinkRequest) {
    r in db.rows && db.rows[r].hash == req.hash && Serves(req.ty, db.rows[r].kind)
  }

  lemma ServesIsKindsFor(db: Store, r: nat, req: LinkRequest)
    ensures Matches(db, r, KindsFor(req.ty), req.hash) <==> Holds(db, r, req)
  {
  }

  /** The link changes an address in two steps and this is the first. */
  predicate IsFirstOfTwo(config: Config, req: LinkRequest, user: User) {
    req.ty == EmailChangeType && config.secure && !config.autoconfirm && user.email != "" && user.confirmStatus == 0
  }

  /** The type under which a link for a secret of that kind is accepted. */
  function Meaning(ty: VerifyType, k: Kind): VerifyType {
    if ty != EmailType then ty else if k == Recovery then MagicLinkType else SignupType
  }

  /** What becomes of a link whose secret is in that row. */
  function Ruling(config: Config, es: seq<Event>, db: Store, req: LinkRequest, r: nat): Outcome
    requires r in db.rows && db.rows[r].userId in db.users
  {
    var u, k := db.rows[r].userId, db.rows[r].kind;
    if req.banned || req.lateFailure || !InTime(es, u, k, config.otpExp, req.now) then Rejected
    else if IsFirstOfTwo(config, req, db.users[u]) then Half(u)
    else Accepted(u, Meaning(req.ty, k))
  }

  lemma LinkToRow(config: Config, es: seq<Event>, db: Store, req: LinkRequest, r: nat)
    requires Mirrored(db) && Dated(config, es, db) && Matches(db, r, KindsFor(req.ty), req.hash)
    ensures db.rows[r].userId in db.users && ByLink(db, config, req, Some(r)).1 == Ruling(config, es, db, req, r)
  {
    FoundRow(db, r);
    ResolvedType(db, req.ty, req.hash, r);
    assert DatedUser(config, es, db.rows[r].userId, db.users[db.rows[r].userId]);
  }

  lemma OnlyRow(db: Store, kinds: set<Kind>, hash: Hash, r: nat, s: nat)
    requires Mirrored(db) && Matches(db, r, kinds, hash) && Matches(db, s, kinds, hash)
    ensures r == s
  {
    FoundRow(db, r);
    FoundRow(db, s);
    assert SameTarget(db.rows[r], db.rows[s]);
  }

  lemma RejectedLinksChangeNothing(config: Config, db: Store, req: LinkRequest, found: Option<nat>)
    requires Mirrored(db) && Finds(db, KindsFor(req.ty), req.hash, found)
    ensures ByLink(db, config, req, found).1 == Rejected ==> ByLink(db, config, req, found).0 == db
    ensures found.None? ==> ByLink(db, config, req, found).1 == Rejected
  {
    if found.Some? { ResolvedType(db, req.ty, req.hash, found.value); }
  }

  /** In every reachable state a link does something exactly when a row holds its secret for its purpose, that secret
      was sent no longer ago than allowed, the user is not banned and nothing fails afterwards. Then it confirms, or
      confirms the first of two steps, for the user the secret was sent to; otherwise it is rejected and changes
      nothing. */
  lemma LinksAcceptedExactlyInTime(config: Config, es: seq<Event>, req: LinkRequest, found: Option<nat>)
    requires Runs(config, EMPTY, es) && Enabled(End(config, EMPTY, es), LinkEvent(req, found))
    ensures var db := End(config, EMPTY, es);
            var (after, outcome) := ByLink(db, config, req, found);
            && (forall r :: Holds(db, r, req) ==>
                  db.rows[r].userId in db.users && outcome == Ruling(config, es, db, req, r))
            && ((forall r :: !Holds(db, r, req)) ==> outcome == Rejected)
            && (outcome == Rejected ==> after == db)
  {
    var db := End(config, EMPTY, es);
    EveryRunIsMirrored(config, EMPTY, es);
    EveryRunIsDated(config, [], EMPTY, es);
    assert [] + es == es;
    RejectedLinksChangeNothing(config, db, req, found);
    if found.Some? {
      ServesIsKindsFor(db, found.value, req);
      LinkToRow(config, es, db, req, found.value);
    }
    forall r: nat | Holds(db, r, req) ensures found == Some(r) { HeldRowIsFound(db, req, found, r); }
  }

  lemma HeldRowIsFound(db: Store, req: LinkRequest, found: Option<nat>, r: nat)
    requires Mirrored(db) && Finds(db, KindsFor(req.ty), req.hash, found) && Holds(db, r, req)
    ensures found == Some(r)
  {
    ServesIsKindsFor(db, r, req);
    if found.Some? { OnlyRow(db, KindsFor(req.ty), req.hash, r, found.value); }
  }

  // ----- which codes are accepted

  /** A code of that type stands for a secret of that kind. */
  predicate TypedFor(ty: VerifyType, k: Kind) {
    match k
    case Confirmation => ty == SignupType || ty == InviteType || ty == EmailType || ty == SmsType
    case Recovery => ty == RecoveryType || ty == MagicLinkType || ty == EmailType
    case PhoneChange => ty == PhoneChangeType
    case Reauthentication => false
    case EmailNew => false
    case EmailCurrent => false
  }

  function Allowed(config: Config, ty: VerifyType): nat {
    if ty == SmsType || ty == PhoneChangeType then config.smsExp else config.otpExp
  }

  /** The typed code is the user's secret of that kind, and in time. */
  predicate Fits(config: Config, es: seq<Event>, db: Store, req: TypedRequest, k: Kind) {
    && TypedFor(req.ty, k) && Owns(db, req.userId, k, req.digest)
    && InTime(es, req.userId, k, Allowed(config, req.ty), req.now)
  }

  lemma CodesRuled(config: Config, es: seq<Event>, db: Store, req: TypedRequest)
    requires Mirrored(db) && Dated(config, es, db)
    ensures var outcome := ByCode(db, config, req).1;
            && (forall k :: Fits(config, es, db, req, k) && !req.banned && !req.lateFailure ==>
                  outcome == Accepted(req.userId, Meaning(req.ty, k)))
            && ((forall k :: !Fits(config, es, db, req, k)) || req.banned || req.lateFailure ==> outcome == Rejected)
  {
    if req.userId in db.users {
      var user := db.users[req.userId];
      assert DatedUser(config, es, req.userId, user);
      forall k | TypedFor(req.ty, k)
        ensures Fits(config, es, db, req, k) <==> CodeFits(user, k, req.digest, Allowed(config, req.ty), req.now)
      {
      }
      assert !(Owns(db, req.userId, Confirmation, req.digest) && Owns(db, req.userId, Recovery, req.digest));
      CodeByKinds(config, es, db, req);
    }
  }

  /** In every reachable state a typed code is accepted exactly when it is a secret of the user that was sent for that
      purpose no longer ago than allowed, the user is not banned and nothing fails afterwards; it confirms what the
      secret was sent for. Otherwise it is rejected and changes nothing. */
  lemma CodesAcceptedExactlyInTime(config: Config, es: seq<Event>, req: TypedRequest)
    requires Runs(config, EMPTY, es)
    ensures var db := End(config, EMPTY, es);
            var (after, outcome) := ByCode(db, config, req);
            && (forall k :: Fits(config, es, db, req, k) && !req.banned && !req.lateFailure ==>
                  outcome == Accepted(req.userId, Meaning(req.ty, k)))
            && ((forall k :: !Fits(config, es, db, req, k)) || req.banned || req.lateFailure ==>
                  outcome == Rejected)
            && (outcome == Rejected ==> after == db)
  {
    var db := End(config, EMPTY, es);
    EveryRunIsMirrored(config, EMPTY, es);
    EveryRunIsDated(config, [], EMPTY, es);
    assert [] + es == es;
    CodesRuled(config, es, db, req);
  }

  lemma CodeByKinds(config: Config, es: seq<Event>, db: Store, req: TypedRequest)
    requires req.userId in db.users
    requires forall k :: TypedFor(req.ty, k) ==>
               (Fits(config, es, db, req, k) <==>
                CodeFits(db.users[req.userId], k, req.digest, Allowed(config, req.ty), req.now))
    requires !(Owns(db, req.userId, Confirmation, req.digest) && Owns(db, req.userId, Recovery, req.digest))
    ensures var outcome := ByCode(db, config, req).1;
            && (forall k :: Fits(config, es, db, req, k) && !req.banned && !req.lateFailure ==>
                  outcome == Accepted(req.userId, Meaning(req.ty, k)))
            && ((forall k :: !Fits(config, es, db, req, k)) || req.banned || req.lateFailure ==> outcome == Rejected)
  {
    assert TypedFor(req.ty, Confirmation) || TypedFor(req.ty, Recovery) || TypedFor(req.ty, PhoneChange)
           || req.ty == EmailChangeType;
  }

  // ----- fresh secrets

  /** The secret of that kind which the event sends. */
  function SecretOf(db: Store, e: Event, k: Kind): Hash {
    var pkce := if e.SendEvent? then e.pkce else e.ChangeEvent? && e.pkce;
    Hash(pkce, if k == EmailCurrent then db.nextDigest + 1 else db.nextDigest)
  }

  /** The event really sends a secret of that kind: one for the current address goes out only under secure change. */
  predicate Delivers(config: Config, db: Store, e: Event, u: nat, k: Kind) {
    Sends(e, u, k) && u in db.users && (k == EmailCurrent ==> config.secure && db.users[u].email != "")
  }

  lemma FreshSecretsAreStored(config: Config, db: Store, e: Event, u: nat, k: Kind)
    requires Enabled(db, e) && Delivers(config, db, e, u, k) && forall r :: r in db.rows ==> r < db.nextRow
    ensures var after := Step(config, db, e);
            && u in after.users && Column(after.users[u], k) == Some(SecretOf(db, e, k))
            && exists r :: r in after.rows && after.rows[r] == Row(u, k, SecretOf(db, e, k))
  {
    var after := Step(config, db, e);
    if k == EmailNew && EmailCurrent in after.users[u].columns {
      assert after.rows[db.nextRow + 1] == Row(u, k, SecretOf(db, e, k));
    } else {
      assert after.rows[db.nextRow] == Row(u, k, SecretOf(db, e, k));
    }
  }

  predicate Succeeds(outcome: Outcome, u: nat) {
    (outcome.Accepted? || outcome.Half?) && outcome.userId == u
  }

  lemma StoredLinkWorks(config: Config, es: seq<Event>, db: Store, r: nat, at: Time, req: LinkRequest)
    requires Mirrored(db) && Dated(config, es, db) && Holds(db, r, req) && !req.banned && !req.lateFailure
    requires LastSent(es, db.rows[r].userId, db.rows[r].kind) == Some(at) && req.now <= at + config.otpExp * SECOND
    ensures Enabled(db, LinkEvent(req, Some(r))) && Succeeds(ByLink(db, config, req, Some(r)).1, db.rows[r].userId)
  {
    ServesIsKindsFor(db, r, req);
    LinkToRow(config, es, db, req, r);
  }

  lemma StoredCodeWorks(config: Config, es: seq<Event>, db: Store, k: Kind, at: Time, req: TypedRequest)
    requires Mirrored(db) && Dated(config, es, db) && TypedFor(req.ty, k) && Owns(db, req.userId, k, req.digest)
    requires LastSent(es, req.userId, k) == Some(at) && req.now <= at + Allowed(config, req.ty) * SECOND
    requires !req.banned && !req.lateFailure
    ensures Succeeds(ByCode(db, config, req).1, req.userId)
  {
    CodesRuled(config, es, db, req);
    assert Fits(config, es, db, req, k);
  }

  /** A message records what it is about (the number or address to move to, that the user is invited), starts an email
      change over, keeps every secret of another kind, and touches no other user. */
  lemma MessagesAreRecorded(config: Config, db: Store, e: Event)
    requires Enabled(db, e) && (e.SendEvent? || e.InviteEvent? || e.ChangeEvent?)
    ensures var after := Step(config, db, e);
            && e.u in after.users && after.users == db.users[e.u := after.users[e.u]]
            && var user, told := db.users[e.u], after.users[e.u];
            && told == user.(columns := told.columns, sent := told.sent,
                             phoneChange := if e.SendEvent? && e.k == PhoneChange then e.phone else user.phoneChange,
                             invited := user.invited || e.InviteEvent?,
                             emailChange := if e.ChangeEvent? then e.email else user.emailChange,
                             confirmStatus := if e.ChangeEvent? then 0 else user.confirmStatus)
            && (forall k :: !Delivers(config, db, e, e.u, k) ==> Column(told, k) == Column(user, k))
  {
    var after := Step(config, db, e);
    if e.ChangeEvent? {
      assert after.users ==
             db.users[e.u := ChangeRequested(db.users[e.u], e.email, config.secure, e.pkce, db.nextDigest, e.at)];
    }
  }

  lemma FreshSecret(config: Config, es: seq<Event>, e: Event, u: nat, k: Kind) returns (r: nat)
    requires Runs(config, EMPTY, es) && Enabled(End(config, EMPTY, es), e)
    requires Delivers(config, End(config, EMPTY, es), e, u, k)
    ensures var db := End(config, EMPTY, es);
            var after := Step(config, db, e);
            && Mirrored(after) && Dated(config, es + [e], after)
            && r in after.rows && after.rows[r] == Row(u, k, SecretOf(db, e, k))
            && Owns(after, u, k, SecretOf(db, e, k).digest)
    ensures LastSent(es + [e], u, k) == Some(e.at)
  {
    var db := End(config, EMPTY, es);
    EveryRunIsMirrored(config, EMPTY, es);
    EveryRunIsDated(config, [], EMPTY, es);
    assert [] + es == es;
    forall s | s in db.rows ensures s < db.nextRow { assert RowOk(db, s); }
    FreshSecretsAreStored(config, db, e, u, k);
    var after := Step(config, db, e);
    r :| r in after.rows && after.rows[r] == Row(u, k, SecretOf(db, e, k));
    MirroredStep(config, db, e);
    OneMore(es, e, u, k);
    DatedStep(config, es, db, e);
  }

  /** A secret that was just sent works: its link, of any type that fits and followed in time by a user who is not
      banned, is never rejected. */
  lemma FreshLinksWork(config: Config, es: seq<Event>, e: Event, u: nat, k: Kind, req: LinkRequest)
    requires Runs(config, EMPTY, es) && Enabled(End(config, EMPTY, es), e)
    requires Delivers(config, End(config, EMPTY, es), e, u, k)
    ensures var db := End(config, EMPTY, es);
            var after := Step(config, db, e);
            req.hash == SecretOf(db, e, k) && Serves(req.ty, k) && !req.banned && !req.lateFailure
            && req.now <= e.at + config.otpExp * SECOND ==>
              exists r :: Enabled(after, LinkEvent(req, Some(r))) && Succeeds(ByLink(after, config, req, Some(r)).1, u)
  {
    var db := End(config, EMPTY, es);
    var r := FreshSecret(config, es, e, u, k);
    if req.hash == SecretOf(db, e, k) && Serves(req.ty, k) && !req.banned && !req.lateFailure
       && req.now <= e.at + config.otpExp * SECOND
    {
      StoredLinkWorks(config, es + [e], Step(config, db, e), r, e.at, req);
    }
  }

  /** And so does its code, typed by that user. */
  lemma FreshCodesWork(config: Config, es: seq<Event>, e: Event, k: Kind, req: TypedRequest)
    requires Runs(config, EMPTY, es) && Enabled(End(config, EMPTY, es), e)
    requires Delivers(config, End(config, EMPTY, es), e, req.userId, k)
    ensures var db := End(config, EMPTY, es);
            var after := Step(config, db, e);
            req.digest == SecretOf(db, e, k).digest && TypedFor(req.ty, k) && !req.banned && !req.lateFailure
            && req.now <= e.at + Allowed(config, req.ty) * SECOND ==>
              Succeeds(ByCode(after, config, req).1, req.userId)
  {
    var db := End(config, EMPTY, es);
    var r := FreshSecret(config, es, e, req.userId, k);
    if req.digest == SecretOf(db, e, k).digest && TypedFor(req.ty, k) && !req.banned && !req.lateFailure
       && req.now <= e.at + Allowed(config, req.ty) * SECOND
    {
      StoredCodeWorks(config, es + [e], Step(config, db, e), k, e.at, req);
    }
  }
}
