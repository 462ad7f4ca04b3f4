/** Whole runs of sign-ups, messages, verifications and password changes. */
module OneTimeRuns {
  import opened Common
  import opened OneTimeTokens
  import opened Verification

  /** Messages that could not be sent change nothing and are therefore no events. */
  datatype Event =
    | SignUpEvent(email: string, phone: string, hasPassword: bool)
    | SendEvent(u: nat, k: Kind, pkce: bool, phone: string, at: Time)
    | InviteEvent(u: nat, at: Time)
    | ChangeEvent(u: nat, email: string, pkce: bool, at: Time)
    | LinkEvent(link: LinkRequest, found: Option<nat>)
    | CodeEvent(code: TypedRequest)
    | PasswordEvent(u: nat, hasPassword: bool)
    | ReauthEvent(u: nat)

  ghost predicate Enabled(db: Store, e: Event) {
    match e
    case SignUpEvent(_, _, _) => true
    case SendEvent(u, k, _, _, _) => u in db.users && k != EmailNew && k != EmailCurrent
    case InviteEvent(u, _) => u in db.users
    case ChangeEvent(u, email, _, _) => u in db.users && email != ""
    case LinkEvent(req, found) => Finds(db, KindsFor(req.ty), req.hash, found)
    case CodeEvent(_) => true
    case PasswordEvent(u, _) => u in db.users
    case ReauthEvent(u) => u in db.users
  }

  ghost function Step(config: Config, db: Store, e: Event): Store
    requires Enabled(db, e)
  {
    match e
    case SignUpEvent(email, phone, hasPassword) => SignUp(db, email, phone, hasPassword)
    case SendEvent(u, k, pkce, phone, at) => Send(db, u, k, pkce, phone, at)
    case InviteEvent(u, at) => SendInvite(db, u, at)
    case ChangeEvent(u, email, pkce, at) => SendEmailChange(db, u, email, config.secure, pkce, at)
    case LinkEvent(req, found) => ByLink(db, config, req, found).0
    case CodeEvent(req) => ByCode(db, config, req).0
    case PasswordEvent(u, hasPassword) => Conclude(db, u, PasswordUpdated(db.users[u], hasPassword))
    case ReauthEvent(u) => Conclude(db, u, Reauthenticated(db.users[u]))
  }

  ghost predicate Runs(config: Config, db: Store, es: seq<Event>)
    decreases |es|
  {
    es == [] || (Enabled(db, es[0]) && Runs(config, Step(config, db, es[0]), es[1..]))
  }

  ghost function End(config: Config, db: Store, es: seq<Event>): Store
    requires Runs(config, db, es)
    decreases |es|
  {
    if es == [] then db else End(config, Step(config, db, es[0]), es[1..])
  }

  // ----- the invariant: rows mirror columns

  /** User `u` has digest `d` in the column for kind `k`. */
  predicate Owns(db: Store, u: nat, k: Kind, d: nat) {
    u in db.users && k in db.users[u].columns && db.users[u].columns[k].digest == d
  }

  predicate RowOk(db: Store, r: nat)
    requires r in db.rows
  {
    var row := db.rows[r];
    && r < db.nextRow
    && row.userId in db.users
    && Column(db.users[row.userId], row.kind) == Some(row.hash)
    && SlotOf(row.kind) in db.users[row.userId].sent
  }

  ghost predicate DigestsOk(db: Store) {
    && (forall u, k, d: nat :: Owns(db, u, k, d) ==> d < db.nextDigest)
    && (forall u, k, v, l, d :: Owns(db, u, k, d) && Owns(db, v, l, d) ==> u == v && k == l)
  }

  predicate SameTarget(a: Row, b: Row) {
    a.userId == b.userId && a.kind == b.kind
  }

  /** At most one row per user and kind; its hash is the one in the user's column; the time it was sent
      is set; and no two columns hold the same digest. */
  ghost predicate Mirrored(db: Store) {
    && (forall u :: u in db.users ==> u < db.nextUser)
    && (forall r :: r in db.rows ==> RowOk(db, r))
    && (forall r, s :: r in db.rows && s in db.rows && SameTarget(db.rows[r], db.rows[s]) ==> r == s)
    && DigestsOk(db)
  }

  predicate SubColumns(a: User, b: User) {
    forall k :: k in a.columns ==> k in b.columns && a.columns[k] == b.columns[k]
  }

  lemma FewerColumns(db: Store, u: nat, user: User)
    requires DigestsOk(db) && u in db.users && SubColumns(user, db.users[u])
    ensures DigestsOk(SetUser(db, u, user))
  {
    var after := SetUser(db, u, user);
    assert forall v, k, d :: Owns(after, v, k, d) ==> Owns(db, v, k, d);
  }

  /** Spending tokens only takes columns away, and takes all rows of the user away. */
  lemma MirroredConclude(db: Store, u: nat, user: User)
    requires Mirrored(db) && u in db.users && SubColumns(user, db.users[u])
    ensures Mirrored(Conclude(db, u, user))
  {
    FewerColumns(db, u, user);
    var after := Conclude(db, u, user);
    assert forall v, k, d :: Owns(after, v, k, d) <==> Owns(SetUser(db, u, user), v, k, d);
    forall r | r in after.rows ensures RowOk(after, r) { assert RowOk(db, r); }
  }

  /** Writing a row for a column that is set keeps the mirror. */
  lemma MirroredCreate(db: Store, u: nat, k: Kind, h: Hash)
    requires (forall v :: v in db.users ==> v < db.nextUser) && DigestsOk(db)
    requires forall r :: r in db.rows && !(db.rows[r].userId == u && db.rows[r].kind == k) ==> RowOk(db, r)
    requires forall r :: r in db.rows ==> r < db.nextRow
    requires forall r, s :: r in db.rows && s in db.rows && SameTarget(db.rows[r], db.rows[s]) ==> r == s
    requires u in db.users && Column(db.users[u], k) == Some(h) && SlotOf(k) in db.users[u].sent
    ensures Mirrored(Create(db, u, k, h))
  {
    var after := Create(db, u, k, h);
    assert forall v, l, d :: Owns(after, v, l, d) <==> Owns(db, v, l, d);
    forall r | r in after.rows ensures RowOk(after, r) {
      if r != db.nextRow { assert RowOk(db, r); }
    }
  }

  lemma NewDigest(db: Store, u: nat, user: User, k: Kind, pkce: bool)
    requires DigestsOk(db) && u in db.users
    requires user.columns == db.users[u].columns[k := Hash(pkce, db.nextDigest)]
    ensures DigestsOk(SetUser(db, u, user).(nextDigest := db.nextDigest + 1))
  {
    var after := SetUser(db, u, user).(nextDigest := db.nextDigest + 1);
    assert forall v, l, d :: Owns(after, v, l, d) ==> Owns(db, v, l, d) || (v == u && l == k && d == db.nextDigest);
  }

  lemma MirroredSend(db: Store, u: nat, k: Kind, pkce: bool, phone: string, now: Time)
    requires Mirrored(db) && u in db.users && k != EmailNew && k != EmailCurrent
    ensures Mirrored(Send(db, u, k, pkce, phone, now))
  {
    var h := Hash(pkce, db.nextDigest);
    var user := db.users[u].(columns := db.users[u].columns[k := h], sent := db.users[u].sent[SlotOf(k) := now]);
    var named := if k == PhoneChange then user.(phoneChange := phone) else user;
    NewDigest(db, u, named, k, pkce);
    var mid := SetUser(db, u, named).(nextDigest := db.nextDigest + 1);
    forall r | r in mid.rows && !(mid.rows[r].userId == u && mid.rows[r].kind == k) ensures RowOk(mid, r) {
      assert RowOk(db, r);
    }
    forall r | r in mid.rows ensures r < mid.nextRow { assert RowOk(db, r); }
    MirroredCreate(mid, u, k, h);
    assert Send(db, u, k, pkce, phone, now) == Create(mid, u, k, h);
  }

  lemma MirroredSetUser(db: Store, u: nat, user: User)
    requires Mirrored(db) && u in db.users
    requires user.columns == db.users[u].columns && user.sent == db.users[u].sent
    ensures Mirrored(SetUser(db, u, user))
  {
    FewerColumns(db, u, user);
    var after := SetUser(db, u, user);
    forall r | r in after.rows ensures RowOk(after, r) { assert RowOk(db, r); }
  }

  lemma ChangeDigests(db: Store, u: nat, email: string, secure: bool, pkce: bool, now: Time)
    requires DigestsOk(db) && u in db.users
    ensures var user := ChangeRequested(db.users[u], email, secure, pkce, db.nextDigest, now);
            DigestsOk(SetUser(db, u, user).(nextDigest := db.nextDigest + 2))
  {
    var user := ChangeRequested(db.users[u], email, secure, pkce, db.nextDigest, now);
    var after := SetUser(db, u, user).(nextDigest := db.nextDigest + 2);
    assert forall v, l, d :: Owns(after, v, l, d) ==>
      Owns(db, v, l, d)
        || (v == u && ((l == EmailNew && d == db.nextDigest) || (l == EmailCurrent && d == db.nextDigest + 1)));
  }

  lemma MirroredChange(db: Store, u: nat, email: string, secure: bool, pkce: bool, now: Time)
    requires Mirrored(db) && u in db.users
    ensures Mirrored(SendEmailChange(db, u, email, secure, pkce, now))
  {
    ChangeDigests(db, u, email, secure, pkce, now);
    var user := ChangeRequested(db.users[u], email, secure, pkce, db.nextDigest, now);
    var mid := SetUser(db, u, user).(nextDigest := db.nextDigest + 2);
    forall r | r in mid.rows
      && !(mid.rows[r].userId == u && (mid.rows[r].kind == EmailNew || mid.rows[r].kind == EmailCurrent))
      ensures RowOk(mid, r)
    {
      assert RowOk(db, r);
    }
    forall r | r in mid.rows
      ensures r < mid.nextRow
              && (mid.rows[r].userId == u && mid.rows[r].kind == EmailCurrent ==> EmailCurrent in user.columns) {
      assert RowOk(db, r);
    }
    WriteBothRows(mid, u);
  }

  lemma WriteBothRows(db: Store, u: nat)
    requires (forall v :: v in db.users ==> v < db.nextUser) && DigestsOk(db)
    requires u in db.users && EmailNew in db.users[u].columns && EmailChangeSent in db.users[u].sent
    requires forall r :: r in db.rows
                         && !(db.rows[r].userId == u && db.rows[r].kind in {EmailNew, EmailCurrent}) ==>
               RowOk(db, r)
    requires forall r :: r in db.rows ==> r < db.nextRow
    requires forall r :: r in db.rows && db.rows[r].userId == u && db.rows[r].kind == EmailCurrent ==>
               EmailCurrent in db.users[u].columns
    requires forall r, s :: r in db.rows && s in db.rows && SameTarget(db.rows[r], db.rows[s]) ==> r == s
    ensures Mirrored(WriteChangeRows(db, u))
  {
    var cols := db.users[u].columns;
    if EmailCurrent in cols {
      var first := Create(db, u, EmailCurrent, cols[EmailCurrent]);
      forall r | r in first.rows && !(first.rows[r].userId == u && first.rows[r].kind == EmailNew)
        ensures RowOk(first, r) {
        if r != db.nextRow { assert RowOk(db, r); }
      }
      assert forall v, l, d :: Owns(first, v, l, d) <==> Owns(db, v, l, d);
      MirroredCreate(first, u, EmailNew, cols[EmailNew]);
    } else {
      MirroredCreate(db, u, EmailNew, cols[EmailNew]);
    }
  }

  lemma MirroredHalf(db: Store, u: nat, req: LinkRequest)
    requires Mirrored(db) && u in db.users
    ensures Mirrored(HalfConfirmed(db, u, req))
  {
    var user := db.users[u].(confirmStatus := 1);
    FewerColumns(db, u, user);
    MirroredDropOne(db, u, user, EmailCurrent);
    MirroredDropOne(db, u, user, EmailNew);
    var after := SetUser(db, u, user);
    forall r | r in after.rows ensures RowOk(after, r) { assert RowOk(db, r); }
  }

  lemma MirroredDropOne(db: Store, u: nat, user: User, k: Kind)
    requires Mirrored(db) && u in db.users && user == db.users[u].(confirmStatus := 1)
    ensures Mirrored(ClearOne(SetUser(db, u, Drop(user, {k})), u, k))
  {
    FewerColumns(db, u, Drop(user, {k}));
    var set1 := SetUser(db, u, Drop(user, {k}));
    var after := ClearOne(set1, u, k);
    assert forall v, l, d :: Owns(after, v, l, d) <==> Owns(set1, v, l, d);
    forall r | r in after.rows ensures RowOk(after, r) { assert RowOk(db, r); }
  }

  lemma MirroredApply(db: Store, config: Config, u: nat, ty: VerifyType, req: LinkRequest)
    requires Mirrored(db) && u in db.users
    ensures Mirrored(Apply(db, config, u, ty, req).0)
  {
    var user := db.users[u];
    match ty
    case SmsType => MirroredConclude(db, u, PhoneConfirmed(user));
    case PhoneChangeType => MirroredConclude(db, u, PhoneChanged(user));
    case EmailChangeType =>
      if NeedsTwo(config, user) { MirroredHalf(db, u, req); } else { MirroredConclude(db, u, Moved(user)); }
    case EmailType =>
    case SignupType => MirroredSignup(db, u);
    case InviteType => MirroredSignup(db, u);
    case RecoveryType => MirroredRecover(db, u);
    case MagicLinkType => MirroredRecover(db, u);
  }

  lemma MirroredSignup(db: Store, u: nat)
    requires Mirrored(db) && u in db.users
    ensures Mirrored(SignupVerified(db, u))
  {
    MirroredConclude(db, u, PasswordUpdated(db.users[u], true));
    var first := if !db.users[u].hasPassword && db.users[u].invited
                 then Conclude(db, u, PasswordUpdated(db.users[u], true)) else db;
    MirroredConclude(first, u, Confirmed(first.users[u]));
  }

  lemma MirroredRecover(db: Store, u: nat)
    requires Mirrored(db) && u in db.users
    ensures Mirrored(RecoverVerified(db, u))
  {
    MirroredConclude(db, u, Recovered(db.users[u]));
    var first := Conclude(db, u, Recovered(db.users[u]));
    MirroredConclude(first, u, Confirmed(first.users[u]));
  }

  lemma MirroredStep(config: Config, db: Store, e: Event)
    requires Mirrored(db) && Enabled(db, e)
    ensures Mirrored(Step(config, db, e))
  {
    match e
    case SignUpEvent(email, phone, hasPassword) =>
      var after := Step(config, db, e);
      assert forall v, k, d :: Owns(after, v, k, d) ==> Owns(db, v, k, d);
      forall r | r in after.rows ensures RowOk(after, r) { assert RowOk(db, r); }
    case SendEvent(u, k, pkce, phone, at) => MirroredSend(db, u, k, pkce, phone, at);
    case InviteEvent(u, at) =>
      MirroredSetUser(db, u, db.users[u].(invited := true));
      MirroredSend(SetUser(db, u, db.users[u].(invited := true)), u, Confirmation, false, "", at);
    case ChangeEvent(u, email, pkce, at) => MirroredChange(db, u, email, config.secure, pkce, at);
    case LinkEvent(req, found) =>
      var lookup := LookupByHash(db, config, req, found);
      if lookup.Found? { MirroredApply(db, config, lookup.userId, lookup.ty, req); }
    case CodeEvent(req) =>
      var lookup := LookupByCode(db, config, req);
      if lookup.Found? {
        MirroredApply(db, config, lookup.userId, lookup.ty,
                      LinkRequest(req.ty, false, Hash(false, req.digest), req.banned, req.lateFailure, req.now));
      }
    case PasswordEvent(u, hasPassword) => MirroredConclude(db, u, PasswordUpdated(db.users[u], hasPassword));
    case ReauthEvent(u) => MirroredConclude(db, u, Reauthenticated(db.users[u]));
  }

  lemma {:induction false} EveryRunIsMirrored(config: Config, db: Store, es: seq<Event>)
    requires Mirrored(db) && Runs(config, db, es)
    ensures Mirrored(End(config, db, es))
    decreases |es|
  {
    if es != [] {
      MirroredStep(config, db, es[0]);
      EveryRunIsMirrored(config, Step(config, db, es[0]), es[1..]);
    }
  }
}
