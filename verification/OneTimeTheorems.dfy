/** What holds of every run over one-time tokens: links are well defined, and every secret works once. */
module OneTimeTheorems {
  import opened Common
  import opened OneTimeTokens
  import opened Verification
  import opened OneTimeRuns

  // ----- lookups by hash

  function TypeOfKind(k: Kind): VerifyType {
    if k == Recovery then MagicLinkType else SignupType
  }

  lemma FoundRow(db: Store, r: nat)
    requires Mirrored(db) && r in db.rows
    ensures RowOk(db, r) && Owns(db, db.rows[r].userId, db.rows[r].kind, db.rows[r].hash.digest)
  {
  }

  /** The type a found row is treated as belongs to its kind, and so does the sent-at time that is read. */
  lemma ResolvedType(db: Store, ty: VerifyType, hash: Hash, r: nat)
    requires Mirrored(db) && Matches(db, r, KindsFor(ty), hash)
    ensures db.rows[r].userId in db.users
    ensures var resolved := Resolve(db.users[db.rows[r].userId], ty, hash);
            && resolved != EmailType && db.rows[r].kind in KindsFor(resolved)
            && SlotFor(resolved) == SlotOf(db.rows[r].kind)
            && (ty == EmailType ==> resolved == TypeOfKind(db.rows[r].kind))
  {
    FoundRow(db, r);
    var u := db.rows[r].userId;
    if Recovery in db.users[u].columns {
      assert Owns(db, u, Recovery, db.users[u].columns[Recovery].digest);
    }
  }

  /** After any run: a link that finds a row never reads a missing sent-at time, the generic type
      "email" resolves to the type of the very row that was found, and no other row could have been found. */
  lemma LinksAreWellDefined(config: Config, es: seq<Event>, req: LinkRequest, found: Option<nat>)
    requires Runs(config, EMPTY, es)
    requires Finds(End(config, EMPTY, es), KindsFor(req.ty), req.hash, found)
    ensures var db := End(config, EMPTY, es);
            && LookupByHash(db, config, req, found) != Crash
            && (found.Some? ==> db.rows[found.value].userId in db.users)
            && (found.Some? && req.ty == EmailType ==>
                  Resolve(db.users[db.rows[found.value].userId], req.ty, req.hash) ==
                    TypeOfKind(db.rows[found.value].kind))
            && (forall other: Option<nat> :: Finds(db, KindsFor(req.ty), req.hash, other) ==> other == found)
  {
    EveryRunIsMirrored(config, EMPTY, es);
    var db := End(config, EMPTY, es);
    if found.Some? {
      ResolvedType(db, req.ty, req.hash, found.value);
      FoundRow(db, found.value);
      forall other: Option<nat> | Finds(db, KindsFor(req.ty), req.hash, other) ensures other == found {
        if other.Some? { FoundRow(db, other.value); }
      }
    }
  }

  // ----- single use

  /** The digest is in no column any more, and will never be issued again. */
  ghost predicate Spent(db: Store, d: nat) {
    d < db.nextDigest && forall u: nat, k :: !Owns(db, u, k, d)
  }

  /** Under secure email change, a pending first confirmation always has both secrets. */
  ghost predicate Paired(config: Config, db: Store) {
    config.secure ==> forall r :: r in db.rows && db.rows[r].kind == EmailNew && db.rows[r].userId in db.users ==>
      PairedUser(db.users[db.rows[r].userId])
  }

  predicate PairedUser(user: User) {
    user.email != "" && user.confirmStatus == 0 ==> EmailCurrent in user.columns
  }

  lemma PairedConclude(config: Config, db: Store, u: nat, user: User)
    requires Paired(config, db)
    ensures Paired(config, Conclude(db, u, user))
  {
  }

  lemma PairedSend(config: Config, db: Store, u: nat, k: Kind, pkce: bool, phone: string, now: Time)
    requires Mirrored(db) && Paired(config, db) && u in db.users && k != EmailNew && k != EmailCurrent
    ensures Paired(config, Send(db, u, k, pkce, phone, now))
  {
    forall r | r in db.rows ensures RowOk(db, r) {}
  }

  lemma PairedChange(config: Config, db: Store, u: nat, email: string, pkce: bool, now: Time)
    requires Mirrored(db) && Paired(config, db) && u in db.users
    ensures Paired(config, SendEmailChange(db, u, email, config.secure, pkce, now))
  {
    var after := SendEmailChange(db, u, email, config.secure, pkce, now);
    var user := ChangeRequested(db.users[u], email, config.secure, pkce, db.nextDigest, now);
    assert after.users == db.users[u := user];
    assert config.secure ==> PairedUser(user);
    forall r | r in db.rows ensures RowOk(db, r) {}
  }

  lemma PairedApply(config: Config, db: Store, u: nat, ty: VerifyType, req: LinkRequest)
    requires Paired(config, db) && u in db.users
    ensures Paired(config, Apply(db, config, u, ty, req).0)
  {
    var user := db.users[u];
    if ty == EmailChangeType {
      if NeedsTwo(config, user) {
        HalfConfirmedIsHalfDone(db, u, req);
        PairedHalf(config, db, u, HalfConfirmed(db, u, req));
      } else {
        PairedConclude(config, db, u, Moved(user));
      }
    } else if ty == SignupType || ty == InviteType {
      PairedConclude(config, db, u, PasswordUpdated(user, true));
    } else if ty == RecoveryType || ty == MagicLinkType {
      PairedConclude(config, db, u, Recovered(user));
    }
  }

  /** A first confirmation is noted in the user row, and takes rows and columns away only. */
  ghost predicate HalfDone(db: Store, u: nat, after: Store) {
    && u in db.users && u in after.users && after.users == db.users[u := after.users[u]]
    && after.users[u] == db.users[u].(confirmStatus := 1, columns := after.users[u].columns)
    && SubColumns(after.users[u], db.users[u])
    && (forall r :: r in after.rows ==> r in db.rows && after.rows[r] == db.rows[r])
  }

  lemma HalfConfirmedIsHalfDone(db: Store, u: nat, req: LinkRequest)
    requires u in db.users
    ensures HalfDone(db, u, HalfConfirmed(db, u, req))
  {
  }

  lemma PairedHalf(config: Config, db: Store, u: nat, after: Store)
    requires Paired(config, db) && HalfDone(db, u, after)
    ensures Paired(config, after)
  {
  }

  lemma PairedStep(config: Config, db: Store, e: Event)
    requires Mirrored(db) && Paired(config, db) && Enabled(db, e)
    ensures Paired(config, Step(config, db, e))
  {
    match e
    case SignUpEvent(_, _, _) => forall r | r in db.rows ensures RowOk(db, r) {}
    case SendEvent(u, k, pkce, phone, at) => PairedSend(config, db, u, k, pkce, phone, at);
    case InviteEvent(u, at) =>
      MirroredSetUser(db, u, db.users[u].(invited := true));
      PairedSend(config, SetUser(db, u, db.users[u].(invited := true)), u, Confirmation, false, "", at);
    case ChangeEvent(u, email, pkce, at) => PairedChange(config, db, u, email, pkce, at);
    case LinkEvent(req, found) =>
      var lookup := LookupByHash(db, config, req, found);
      if lookup.Found? { PairedApply(config, db, lookup.userId, lookup.ty, req); }
    case CodeEvent(req) =>
      var lookup := LookupByCode(db, config, req);
      if lookup.Found? {
        PairedApply(config, db, lookup.userId, lookup.ty,
                    LinkRequest(req.ty, false, Hash(false, req.digest), req.banned, req.lateFailure, req.now));
      }
    case PasswordEvent(u, hasPassword) => PairedConclude(config, db, u, PasswordUpdated(db.users[u], hasPassword));
    case ReauthEvent(u) => PairedConclude(config, db, u, Reauthenticated(db.users[u]));
  }

  /** Columns only ever receive digests that were never used before. */
  ghost predicate OnlyNewDigests(db: Store, after: Store) {
    && db.nextDigest <= after.nextDigest
    && forall u: nat, k, d: nat :: Owns(after, u, k, d) ==> Owns(db, u, k, d) || db.nextDigest <= d
  }

  lemma ApplyAddsNoDigests(config: Config, db: Store, u: nat, ty: VerifyType, req: LinkRequest)
    requires u in db.users
    ensures OnlyNewDigests(db, Apply(db, config, u, ty, req).0)
  {
    var after := Apply(db, config, u, ty, req).0;
    assert SubColumns(after.users[u], db.users[u]);
    assert forall v :: v in after.users && v != u ==> v in db.users && after.users[v] == db.users[v];
  }

  lemma StepAddsNewDigests(config: Config, db: Store, e: Event)
    requires Enabled(db, e)
    ensures OnlyNewDigests(db, Step(config, db, e))
  {
    match e
    case LinkEvent(req, found) =>
      var lookup := LookupByHash(db, config, req, found);
      if lookup.Found? { ApplyAddsNoDigests(config, db, lookup.userId, lookup.ty, req); }
    case CodeEvent(req) =>
      var lookup := LookupByCode(db, config, req);
      if lookup.Found? {
        ApplyAddsNoDigests(config, db, lookup.userId, lookup.ty,
                           LinkRequest(req.ty, false, Hash(false, req.digest), req.banned, req.lateFailure, req.now));
      }
    case ChangeEvent(_, _, _, _) => ChangeAddsNewDigests(config, db, e);
    case SignUpEvent(_, _, _) =>
    case SendEvent(_, _, _, _, _) =>
    case InviteEvent(_, _) =>
    case PasswordEvent(_, _) =>
    case ReauthEvent(_) =>
  }

  lemma ChangeAddsNewDigests(config: Config, db: Store, e: Event)
    requires Enabled(db, e) && e.ChangeEvent?
    ensures OnlyNewDigests(db, Step(config, db, e))
  {
    assert Step(config, db, e).users ==
           db.users[e.u := ChangeRequested(db.users[e.u], e.email, config.secure, e.pkce, db.nextDigest, e.at)];
  }

  lemma SpentStep(config: Config, db: Store, e: Event, d: nat)
    requires Enabled(db, e) && Spent(db, d)
    ensures Spent(Step(config, db, e), d)
  {
    StepAddsNewDigests(config, db, e);
  }

  lemma SpentLinkIsRefused(config: Config, db: Store, req: LinkRequest, found: Option<nat>)
    requires Mirrored(db) && Spent(db, req.hash.digest) && Finds(db, KindsFor(req.ty), req.hash, found)
    ensures ByLink(db, config, req, found) == (db, Rejected)
  {
    if found.Some? { FoundRow(db, found.value); }
  }

  lemma SpentCodeIsRefused(config: Config, db: Store, req: TypedRequest)
    requires Spent(db, req.digest)
    ensures ByCode(db, config, req) == (db, Rejected)
  {
    forall k | req.userId in db.users ensures !CodeFits(db.users[req.userId], k, req.digest, config.otpExp, req.now)
                                              && !CodeFits(db.users[req.userId], k, req.digest, config.smsExp, req.now)
    {
      assert !Owns(db, req.userId, k, req.digest);
    }
  }

  lemma DroppedIsSpent(db: Store, after: Store, u: nat, k: Kind, d: nat)
    requires Mirrored(db) && OnlyNewDigests(db, after) && Owns(db, u, k, d)
    requires u in after.users ==> k !in after.users[u].columns
    ensures Spent(after, d)
  {
    forall v: nat, l ensures !Owns(after, v, l, d) {
      assert Owns(after, v, l, d) ==> Owns(db, v, l, d);
    }
  }

  /** Accepting a link, fully or as the first of two confirmations, spends its digest. */
  lemma LinkSpends(config: Config, db: Store, req: LinkRequest, found: Option<nat>)
    requires Mirrored(db) && Paired(config, db) && Finds(db, KindsFor(req.ty), req.hash, found)
    requires var outcome := ByLink(db, config, req, found).1; outcome.Accepted? || outcome.Half?
    ensures Spent(ByLink(db, config, req, found).0, req.hash.digest)
  {
    var u := db.rows[found.value].userId;
    ResolvedType(db, req.ty, req.hash, found.value);
    ApplySpends(config, db, u, Resolve(db.users[u], req.ty, req.hash), req, found.value);
  }

  /** Applying a verification of a row's type spends the row's secret. */
  lemma ApplySpends(config: Config, db: Store, u: nat, ty: VerifyType, req: LinkRequest, r: nat)
    requires Mirrored(db) && Paired(config, db) && r in db.rows && db.rows[r].hash == req.hash && db.rows[r].userId == u
    requires u in db.users && db.rows[r].kind in KindsFor(ty) && ty != EmailType
    ensures Spent(Apply(db, config, u, ty, req).0, req.hash.digest)
  {
    var k := db.rows[r].kind;
    FoundRow(db, r);
    ApplyAddsNoDigests(config, db, u, ty, req);
    if ty == EmailChangeType && NeedsTwo(config, db.users[u]) { HalfSpends(config, db, req, r); }
    DroppedIsSpent(db, Apply(db, config, u, ty, req).0, u, k, req.hash.digest);
  }

  lemma HalfSpends(config: Config, db: Store, req: LinkRequest, r: nat)
    requires Mirrored(db) && Paired(config, db) && Matches(db, r, {EmailCurrent, EmailNew}, req.hash)
    requires db.rows[r].userId in db.users && NeedsTwo(config, db.users[db.rows[r].userId])
    ensures var after := HalfConfirmed(db, db.rows[r].userId, req);
            && after.users[db.rows[r].userId].columns == db.users[db.rows[r].userId].columns - {db.rows[r].kind}
            && after == ClearOne(SetUser(db, db.rows[r].userId, after.users[db.rows[r].userId]), db.rows[r].userId,
                                 db.rows[r].kind)
  {
    FoundRow(db, r);
    var u, k := db.rows[r].userId, db.rows[r].kind;
    var user := db.users[u].(confirmStatus := 1);
    assert Matches(db, r, {k}, req.hash);
    if k == EmailNew {
      assert PairedUser(db.users[u]);
      forall s | s in db.rows ensures !Matches(db, s, {EmailCurrent}, req.hash) { FoundRow(db, s); }
      assert Owns(db, u, EmailCurrent, db.users[u].columns[EmailCurrent].digest);
      assert !Hits(db, user, EmailCurrent, req);
    }
  }

  lemma CodeSpends(config: Config, db: Store, req: TypedRequest)
    requires Mirrored(db) && ByCode(db, config, req).1.Accepted?
    ensures Spent(ByCode(db, config, req).0, req.digest)
  {
    var ty := LookupByCode(db, config, req).ty;
    var k := if ty == PhoneChangeType then PhoneChange else if ty == RecoveryType || ty == MagicLinkType then Recovery
             else Confirmation;
    assert Owns(db, req.userId, k, req.digest);
    ApplyAddsNoDigests(config, db, req.userId, ty,
                       LinkRequest(req.ty, false, Hash(false, req.digest), req.banned, req.lateFailure, req.now));
    DroppedIsSpent(db, ByCode(db, config, req).0, req.userId, k, req.digest);
  }

  /** The event presents digest `d`. */
  predicate Presents(e: Event, d: nat) {
    (e.LinkEvent? && e.link.hash.digest == d) || (e.CodeEvent? && e.code.digest == d)
  }

  ghost function OutcomeOf(config: Config, db: Store, e: Event): Outcome {
    if e.LinkEvent? then ByLink(db, config, e.link, e.found).1
    else if e.CodeEvent? then ByCode(db, config, e.code).1
    else Rejected
  }

  /** Along the run, whoever presents digest `d` is turned away. */
  ghost predicate NeverAccepted(config: Config, db: Store, es: seq<Event>, d: nat)
    requires Runs(config, db, es)
    decreases |es|
  {
    es != [] ==>
      && (Presents(es[0], d) ==> OutcomeOf(config, db, es[0]) == Rejected)
      && NeverAccepted(config, Step(config, db, es[0]), es[1..], d)
  }

  lemma {:induction false} SpentForever(config: Config, db: Store, es: seq<Event>, d: nat)
    requires Mirrored(db) && Spent(db, d) && Runs(config, db, es)
    ensures NeverAccepted(config, db, es, d)
    decreases |es|
  {
    if es != [] {
      if Presents(es[0], d) {
        if es[0].LinkEvent? {
          SpentLinkIsRefused(config, db, es[0].link, es[0].found);
        } else {
          SpentCodeIsRefused(config, db, es[0].code);
        }
      }
      SpentStep(config, db, es[0], d);
      MirroredStep(config, db, es[0]);
      SpentForever(config, Step(config, db, es[0]), es[1..], d);
    }
  }

  lemma {:induction false} EveryRunIsPaired(config: Config, db: Store, es: seq<Event>)
    requires Mirrored(db) && Paired(config, db) && Runs(config, db, es)
    ensures Paired(config, End(config, db, es))
    decreases |es|
  {
    if es != [] {
      PairedStep(config, db, es[0]);
      MirroredStep(config, db, es[0]);
      EveryRunIsPaired(config, Step(config, db, es[0]), es[1..]);
    }
  }

  /** A token that was accepted once, by link or by typed code, is never accepted again by either,
      whatever happens in between. */
  lemma TokensAreSingleUse(config: Config, es: seq<Event>, e: Event, later: seq<Event>, d: nat)
    requires Runs(config, EMPTY, es) && Presents(e, d)
    requires var db := End(config, EMPTY, es);
             && Enabled(db, e)
             && (OutcomeOf(config, db, e).Accepted? || OutcomeOf(config, db, e).Half?)
             && Runs(config, Step(config, db, e), later)
    ensures NeverAccepted(config, Step(config, End(config, EMPTY, es), e), later, d)
  {
    EveryRunIsMirrored(config, EMPTY, es);
    EveryRunIsPaired(config, EMPTY, es);
    var db := End(config, EMPTY, es);
    if e.LinkEvent? {
      LinkSpends(config, db, e.link, e.found);
    } else {
      CodeSpends(config, db, e.code);
    }
    MirroredStep(config, db, e);
    SpentForever(config, Step(config, db, e), later, d);
  }
}
