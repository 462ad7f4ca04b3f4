/** Secure email change: the address of a user who has one changes only after both the current and the new
    address have confirmed the latest request. */
module EmailChange {
  import opened Common
  import opened OneTimeTokens
  import opened Verification
  import opened OneTimeRuns
  import opened OneTimeTheorems

  /** What the latest request sent out, and which of the two secrets have been accepted since. */
  datatype Progress = Progress(current: Hash, new_: Hash, accepted: set<Kind>)

  /** The history each event adds to; the program does not keep it. */
  ghost function Track(config: Config, db: Store, track: map<nat, Progress>, e: Event): map<nat, Progress>
    requires Enabled(db, e)
  {
    if e.ChangeEvent? then
      track[e.u := Progress(Hash(e.pkce, db.nextDigest + 1), Hash(e.pkce, db.nextDigest), {})]
    else if e.LinkEvent? && e.link.ty == EmailChangeType
            && (OutcomeOf(config, db, e).Accepted? || OutcomeOf(config, db, e).Half?) then
      Note(track, OutcomeOf(config, db, e).userId, e.link.hash)
    else track
  }

  function Note(track: map<nat, Progress>, u: nat, hash: Hash): map<nat, Progress> {
    if u !in track then track
    else
      var p := track[u];
      var cur := if hash == p.current then {EmailCurrent} else {};
      var new_ := if hash == p.new_ then {EmailNew} else {};
      track[u := p.(accepted := p.accepted + cur + new_)]
  }

  predicate SecureConfig(config: Config) {
    config.secure && !config.autoconfirm
  }

  function Other(k: Kind): Kind {
    if k == EmailNew then EmailCurrent else EmailNew
  }

  /** A row of an email change of a user with an address: it is from the latest request and not accepted
      yet; the other one has been accepted exactly when the user row remembers a first confirmation. */
  predicate TrackedRow(db: Store, track: map<nat, Progress>, row: Row) {
    && row.userId in track
    && row.hash == (if row.kind == EmailNew then track[row.userId].new_ else track[row.userId].current)
    && row.kind !in track[row.userId].accepted
    && (row.userId in db.users ==>
          db.users[row.userId].confirmStatus == (if Other(row.kind) in track[row.userId].accepted then 1 else 0))
  }

  predicate Concerns(db: Store, row: Row) {
    (row.kind == EmailNew || row.kind == EmailCurrent) && row.userId in db.users && db.users[row.userId].email != ""
  }

  ghost predicate Tracked(db: Store, track: map<nat, Progress>) {
    forall r :: r in db.rows && Concerns(db, db.rows[r]) ==> TrackedRow(db, track, db.rows[r])
  }

  /** Events that leave the email-change rows, the address and the confirmation status of every user alone
      (or take rows away) keep the history right. */
  lemma TrackedFrame(db: Store, after: Store, track: map<nat, Progress>)
    requires Tracked(db, track)
    requires forall r :: r in after.rows && Concerns(after, after.rows[r]) ==>
               && r in db.rows && db.rows[r] == after.rows[r] && after.rows[r].userId in db.users
               && db.users[after.rows[r].userId].email == after.users[after.rows[r].userId].email
               && db.users[after.rows[r].userId].confirmStatus == after.users[after.rows[r].userId].confirmStatus
    ensures Tracked(after, track)
  {
    forall r | r in after.rows && Concerns(after, after.rows[r]) ensures TrackedRow(after, track, after.rows[r]) {
      assert Concerns(db, db.rows[r]);
    }
  }

  lemma TrackedConclude(db: Store, track: map<nat, Progress>, u: nat, user: User)
    requires Tracked(db, track)
    ensures Tracked(Conclude(db, u, user), track)
  {
    TrackedFrame(db, Conclude(db, u, user), track);
  }

  lemma TrackedElsewhere(db: Store, track: map<nat, Progress>, u: nat, p: Progress)
    requires Tracked(db, track)
    requires forall r :: r in db.rows && Concerns(db, db.rows[r]) ==> db.rows[r].userId != u
    ensures Tracked(db, track[u := p])
  {
  }

  lemma TrackedChange(config: Config, db: Store, track: map<nat, Progress>, e: Event)
    requires SecureConfig(config) && Mirrored(db) && Tracked(db, track) && Enabled(db, e) && e.ChangeEvent?
    ensures Tracked(Step(config, db, e), Track(config, db, track, e))
  {
    var after, track' := Step(config, db, e), Track(config, db, track, e);
    var user := ChangeRequested(db.users[e.u], e.email, config.secure, e.pkce, db.nextDigest, e.at);
    assert after.users == db.users[e.u := user];
    forall r | r in after.rows && Concerns(after, after.rows[r]) ensures TrackedRow(after, track', after.rows[r]) {
      if after.rows[r].userId != e.u {
        assert r in db.rows && after.rows[r] == db.rows[r];
        assert Concerns(db, db.rows[r]) && TrackedRow(db, track, db.rows[r]);
      } else {
        RowsOfChange(config, db, e, r);
      }
    }
  }

  /** The rows of the user that a request leaves for its email change hold the secrets it put into the columns. */
  lemma RowsOfChange(config: Config, db: Store, e: Event, r: nat)
    requires Enabled(db, e) && e.ChangeEvent? && r in Step(config, db, e).rows
    requires var row := Step(config, db, e).rows[r];
             row.userId == e.u && (row.kind == EmailNew || row.kind == EmailCurrent)
    requires r in db.rows && db.rows[r].userId == e.u && db.rows[r].kind == EmailCurrent ==>
               EmailCurrent in db.users[e.u].columns
    ensures var row := Step(config, db, e).rows[r];
            var user := ChangeRequested(db.users[e.u], e.email, config.secure, e.pkce, db.nextDigest, e.at);
            row.kind in user.columns && row.hash == user.columns[row.kind]
  {
  }

  /** A full or half confirmation by link: who it was for, and that it came from the latest request. */
  lemma AcceptedLinkIsTracked(config: Config, db: Store, track: map<nat, Progress>, req: LinkRequest,
                              found: Option<nat>)
    requires Mirrored(db) && Tracked(db, track) && Finds(db, KindsFor(req.ty), req.hash, found)
    requires req.ty == EmailChangeType
             && (ByLink(db, config, req, found).1.Accepted? || ByLink(db, config, req, found).1.Half?)
    ensures found.Some? && found.value in db.rows && db.rows[found.value].hash == req.hash
    ensures db.rows[found.value].kind == EmailNew || db.rows[found.value].kind == EmailCurrent
    ensures db.rows[found.value].userId in db.users
            && ByLink(db, config, req, found).1.userId == db.rows[found.value].userId
    ensures db.users[db.rows[found.value].userId].email != "" ==> TrackedRow(db, track, db.rows[found.value])
  {
    FoundRow(db, found.value);
    assert Concerns(db, db.rows[found.value]) ==> TrackedRow(db, track, db.rows[found.value]);
  }

  lemma NoteElsewhere(track: map<nat, Progress>, u: nat, hash: Hash, v: nat)
    requires v != u
    ensures v in Note(track, u, hash) <==> v in track
    ensures v in track ==> Note(track, u, hash)[v] == track[v]
  {
  }

  lemma TrackedHalf(config: Config, db: Store, track: map<nat, Progress>, req: LinkRequest, r: nat)
    requires SecureConfig(config) && Mirrored(db) && Paired(config, db) && Tracked(db, track)
    requires Matches(db, r, {EmailCurrent, EmailNew}, req.hash)
    requires db.rows[r].userId in db.users && NeedsTwo(config, db.users[db.rows[r].userId])
    ensures Tracked(HalfConfirmed(db, db.rows[r].userId, req), Note(track, db.rows[r].userId, req.hash))
  {
    HalfSpends(config, db, req, r);
    HalfConfirmedIsHalfDone(db, db.rows[r].userId, req);
    TrackedHalfDone(db, track, r, HalfConfirmed(db, db.rows[r].userId, req));
  }

  lemma TrackedHalfDone(db: Store, track: map<nat, Progress>, r: nat, after: Store)
    requires Mirrored(db) && Tracked(db, track) && r in db.rows && r !in after.rows && Concerns(db, db.rows[r])
    requires HalfDone(db, db.rows[r].userId, after) && db.users[db.rows[r].userId].confirmStatus == 0
    ensures Tracked(after, Note(track, db.rows[r].userId, db.rows[r].hash))
  {
    forall s | s in after.rows && Concerns(after, after.rows[s])
      ensures TrackedRow(after, Note(track, db.rows[r].userId, db.rows[r].hash), after.rows[s])
    {
      assert s in db.rows && after.rows[s] == db.rows[s] && Concerns(db, db.rows[s]);
      TrackedHalfRow(db, track, r, s, after);
    }
  }

  /** A row that the first confirmation leaves: the user's other one, or somebody else's. */
  lemma TrackedHalfRow(db: Store, track: map<nat, Progress>, r: nat, s: nat, after: Store)
    requires Mirrored(db) && Tracked(db, track) && r in db.rows && s in db.rows && r != s
    requires Concerns(db, db.rows[r]) && Concerns(db, db.rows[s])
    requires HalfDone(db, db.rows[r].userId, after) && db.users[db.rows[r].userId].confirmStatus == 0
    ensures TrackedRow(after, Note(track, db.rows[r].userId, db.rows[r].hash), db.rows[s])
  {
    var u := db.rows[r].userId;
    FoundRow(db, r);
    FoundRow(db, s);
    assert TrackedRow(db, track, db.rows[r]) && TrackedRow(db, track, db.rows[s]);
    if db.rows[s].userId == u {
      assert !SameTarget(db.rows[r], db.rows[s]);
      assert db.rows[s].hash.digest != db.rows[r].hash.digest;
    } else {
      NoteElsewhere(track, u, db.rows[r].hash, db.rows[s].userId);
    }
  }

  lemma TrackedMove(db: Store, track: map<nat, Progress>, u: nat, hash: Hash)
    requires Tracked(db, track) && u in db.users
    ensures Tracked(Conclude(db, u, Moved(db.users[u])), Note(track, u, hash))
  {
    TrackedConclude(db, track, u, Moved(db.users[u]));
    if u in track { TrackedElsewhere(Conclude(db, u, Moved(db.users[u])), track, u, Note(track, u, hash)[u]); }
  }

  /** A link for an email change that is found: a first confirmation, or the change itself. */
  lemma TrackedChangeLink(config: Config, db: Store, track: map<nat, Progress>, req: LinkRequest, r: nat)
    requires SecureConfig(config) && Mirrored(db) && Paired(config, db) && Tracked(db, track)
    requires Matches(db, r, {EmailCurrent, EmailNew}, req.hash) && db.rows[r].userId in db.users
    ensures var u := db.rows[r].userId;
            Tracked(Apply(db, config, u, EmailChangeType, req).0, Note(track, u, req.hash))
  {
    var u := db.rows[r].userId;
    if NeedsTwo(config, db.users[u]) {
      TrackedHalf(config, db, track, req, r);
    } else {
      TrackedMove(db, track, u, req.hash);
    }
  }

  lemma TrackedLink(config: Config, db: Store, track: map<nat, Progress>, e: Event)
    requires SecureConfig(config) && Mirrored(db) && Paired(config, db) && Tracked(db, track)
    requires Enabled(db, e) && e.LinkEvent?
    ensures Tracked(Step(config, db, e), Track(config, db, track, e))
  {
    var req, lookup := e.link, LookupByHash(db, config, e.link, e.found);
    if lookup.Found? && !req.lateFailure {
      if req.ty == EmailChangeType {
        TrackedChangeLink(config, db, track, req, e.found.value);
      } else {
        ResolvedType(db, req.ty, req.hash, e.found.value);
        TrackedApply(config, db, track, lookup.userId, lookup.ty, req);
      }
    }
  }

  lemma TrackedApply(config: Config, db: Store, track: map<nat, Progress>, u: nat, ty: VerifyType, req: LinkRequest)
    requires Tracked(db, track) && u in db.users && ty != EmailChangeType
    ensures Tracked(Apply(db, config, u, ty, req).0, track)
  {
    TrackedFrame(db, Apply(db, config, u, ty, req).0, track);
  }

  lemma TrackedCode(config: Config, db: Store, track: map<nat, Progress>, e: Event)
    requires Tracked(db, track) && Enabled(db, e) && e.CodeEvent?
    ensures Tracked(Step(config, db, e), Track(config, db, track, e))
  {
    var req, lookup := e.code, LookupByCode(db, config, e.code);
    if lookup.Found? {
      TrackedApply(config, db, track, lookup.userId, lookup.ty,
                   LinkRequest(req.ty, false, Hash(false, req.digest), req.banned, req.lateFailure, req.now));
    }
  }

  lemma TrackedStep(config: Config, db: Store, track: map<nat, Progress>, e: Event)
    requires SecureConfig(config) && Mirrored(db) && Paired(config, db) && Tracked(db, track) && Enabled(db, e)
    ensures Tracked(Step(config, db, e), Track(config, db, track, e))
  {
    if e.ChangeEvent? {
      TrackedChange(config, db, track, e);
    } else if e.LinkEvent? {
      TrackedLink(config, db, track, e);
    } else if e.CodeEvent? {
      TrackedCode(config, db, track, e);
    } else {
      TrackedOther(config, db, track, e);
    }
  }

  lemma TrackedOther(config: Config, db: Store, track: map<nat, Progress>, e: Event)
    requires Mirrored(db) && Tracked(db, track) && Enabled(db, e)
    requires !e.ChangeEvent? && !e.LinkEvent? && !e.CodeEvent?
    ensures Tracked(Step(config, db, e), Track(config, db, track, e))
  {
    if e.SendEvent? {
      TrackedSend(db, track, e.u, e.k, e.pkce, e.phone, e.at);
    } else if e.InviteEvent? {
      TrackedInvite(db, track, e.u, e.at);
    } else {
      forall r | r in db.rows ensures RowOk(db, r) {}
      TrackedFrame(db, Step(config, db, e), track);
    }
  }

  lemma TrackedInvite(db: Store, track: map<nat, Progress>, u: nat, at: Time)
    requires Mirrored(db) && Tracked(db, track) && u in db.users
    ensures Tracked(SendInvite(db, u, at), track)
  {
    forall r | r in db.rows ensures RowOk(db, r) {}
    TrackedFrame(db, SendInvite(db, u, at), track);
  }

  lemma TrackedSend(db: Store, track: map<nat, Progress>, u: nat, k: Kind, pkce: bool, phone: string, at: Time)
    requires Mirrored(db) && Tracked(db, track) && u in db.users && k != EmailNew && k != EmailCurrent
    ensures Tracked(Send(db, u, k, pkce, phone, at), track)
  {
    forall r | r in db.rows ensures RowOk(db, r) {}
    TrackedFrame(db, Send(db, u, k, pkce, phone, at), track);
  }

  /** The history of a run, kept from its first event. */
  ghost function History(config: Config, db: Store, track: map<nat, Progress>, es: seq<Event>): map<nat, Progress>
    requires Runs(config, db, es)
    decreases |es|
  {
    if es == [] then track else History(config, Step(config, db, es[0]), Track(config, db, track, es[0]), es[1..])
  }

  lemma {:induction false} EveryRunIsTracked(config: Config, db: Store, track: map<nat, Progress>, es: seq<Event>)
    requires SecureConfig(config) && Mirrored(db) && Paired(config, db) && Tracked(db, track) && Runs(config, db, es)
    ensures var end := End(config, db, es);
            Mirrored(end) && Paired(config, end) && Tracked(end, History(config, db, track, es))
    decreases |es|
  {
    if es != [] {
      MirroredStep(config, db, es[0]);
      PairedStep(config, db, es[0]);
      TrackedStep(config, db, track, es[0]);
      EveryRunIsTracked(config, Step(config, db, es[0]), Track(config, db, track, es[0]), es[1..]);
    }
  }

  /** With secure email change on and autoconfirm off, at the end of any run: an event that changes the address
      of a user who has one is an accepted link for that user, it spends one of the two secrets of the
      latest request, and the other secret of that same request was accepted before. */
  lemma EmailChangesAfterBothConfirm(config: Config, es: seq<Event>, e: Event, u: nat)
    requires SecureConfig(config) && Runs(config, EMPTY, es) && Enabled(End(config, EMPTY, es), e)
    ensures var db, track := End(config, EMPTY, es), History(config, EMPTY, map[], es);
            MovesAddress(config, db, e, u) && db.users[u].email != "" ==>
              && e.LinkEvent? && e.link.ty == EmailChangeType
              && OutcomeOf(config, db, e) == Accepted(u, EmailChangeType)
              && u in track
              && ((e.link.hash == track[u].current && track[u].accepted == {EmailNew})
                  || (e.link.hash == track[u].new_ && track[u].accepted == {EmailCurrent}))
              && Step(config, db, e).users[u].email == db.users[u].emailChange
  {
    var db, track := End(config, EMPTY, es), History(config, EMPTY, map[], es);
    EveryRunIsTracked(config, EMPTY, map[], es);
    EveryRunNotes(config, EMPTY, map[], es, u);
    if MovesAddress(config, db, e, u) && db.users[u].email != "" { AddressMoves(config, db, track, e, u); }
  }

  /** The event changes the address of a user. */
  ghost predicate MovesAddress(config: Config, db: Store, e: Event, u: nat)
    requires Enabled(db, e)
  {
    u in db.users && u in Step(config, db, e).users && Step(config, db, e).users[u].email != db.users[u].email
  }

  /** A link for an email change that arrives in time and meets no obstacle of another kind. */
  predicate Timely(config: Config, req: LinkRequest, at: Time) {
    req.ty == EmailChangeType && !req.banned && !req.lateFailure && req.now <= at + config.otpExp * SECOND
  }

  /** The two rows that a secure request leaves, and the user they belong to. */
  lemma RowsOfRequest(config: Config, db: Store, e: Event)
    requires SecureConfig(config) && Enabled(db, e) && e.ChangeEvent? && db.users[e.u].email != ""
    ensures var sent := Step(config, db, e);
            && sent.users == db.users[e.u := ChangeRequested(db.users[e.u], e.email, true, e.pkce, db.nextDigest, e.at)]
            && db.nextRow in sent.rows
            && sent.rows[db.nextRow] == Row(e.u, EmailCurrent, Hash(e.pkce, db.nextDigest + 1))
            && db.nextRow + 1 in sent.rows
            && sent.rows[db.nextRow + 1] == Row(e.u, EmailNew, Hash(e.pkce, db.nextDigest))
  {
  }

  /** The first confirmation of a secure request takes its own row and leaves the other. */
  lemma FirstConfirmation(config: Config, db: Store, u: nat, a: LinkRequest, r: nat, s: nat)
    requires SecureConfig(config) && Mirrored(db) && Paired(config, db)
             && Matches(db, r, {EmailCurrent, EmailNew}, a.hash)
    requires u in db.users && NeedsTwo(config, db.users[u]) && EmailChangeSent in db.users[u].sent
    requires Timely(config, a, db.users[u].sent[EmailChangeSent])
    requires db.rows[r].userId == u && s in db.rows && db.rows[s] == Row(u, Other(db.rows[r].kind), db.rows[s].hash)
    ensures ByLink(db, config, a, Some(r)).1 == Half(u)
    ensures var half := ByLink(db, config, a, Some(r)).0;
            && s in half.rows && half.rows[s] == db.rows[s]
            && u in half.users && half.users[u].confirmStatus == 1 && half.users[u].sent == db.users[u].sent
            && half.users[u].emailChange == db.users[u].emailChange
  {
    HalfSpends(config, db, a, r);
    LinkLeadsToUser(config, db, u, a, r);
    var half := HalfConfirmed(db, u, a);
    assert ByLink(db, config, a, Some(r)) == (half, Half(u));
    assert half.users[u] == Drop(db.users[u].(confirmStatus := 1), {db.rows[r].kind});
  }

  lemma LinkLeadsToUser(config: Config, db: Store, u: nat, req: LinkRequest, r: nat)
    requires Matches(db, r, {EmailCurrent, EmailNew}, req.hash) && db.rows[r].userId == u
    requires u in db.users && EmailChangeSent in db.users[u].sent
             && Timely(config, req, db.users[u].sent[EmailChangeSent])
    ensures Enabled(db, LinkEvent(req, Some(r)))
    ensures LookupByHash(db, config, req, Some(r)) == Found(u, EmailChangeType)
  {
  }

  /** The second confirmation changes the address. */
  lemma SecondConfirmation(config: Config, db: Store, u: nat, b: LinkRequest, s: nat)
    requires Matches(db, s, {EmailCurrent, EmailNew}, b.hash) && db.rows[s].userId == u
    requires u in db.users && db.users[u].confirmStatus == 1
    requires EmailChangeSent in db.users[u].sent && Timely(config, b, db.users[u].sent[EmailChangeSent])
    ensures Enabled(db, LinkEvent(b, Some(s)))
    ensures ByLink(db, config, b, Some(s)).1 == Accepted(u, EmailChangeType)
    ensures u in ByLink(db, config, b, Some(s)).0.users
    ensures ByLink(db, config, b, Some(s)).0.users[u].email == db.users[u].emailChange
  {
    LinkLeadsToUser(config, db, u, b, s);
  }

  /** The other direction: a secure request followed by its two links, in either order and in time, is half done after
      the first and changes the address to the requested one with the second. */
  lemma BothConfirmationsChangeTheAddress(config: Config, db: Store, e: Event, currentFirst: bool, a: LinkRequest,
                                          b: LinkRequest)
    requires SecureConfig(config) && Mirrored(db) && Paired(config, db)
    requires Enabled(db, e) && e.ChangeEvent? && db.users[e.u].email != ""
    requires Timely(config, a, e.at) && Timely(config, b, e.at)
    requires a.hash == Hash(e.pkce, if currentFirst then db.nextDigest + 1 else db.nextDigest)
    requires b.hash == Hash(e.pkce, if currentFirst then db.nextDigest else db.nextDigest + 1)
    ensures var r := if currentFirst then db.nextRow else db.nextRow + 1;
            var s := if currentFirst then db.nextRow + 1 else db.nextRow;
            var sent := Step(config, db, e);
            var half := ByLink(sent, config, a, Some(r));
            var done := ByLink(half.0, config, b, Some(s));
            && Enabled(sent, LinkEvent(a, Some(r))) && half.1 == Half(e.u)
            && Enabled(half.0, LinkEvent(b, Some(s))) && done.1 == Accepted(e.u, EmailChangeType)
            && e.u in done.0.users && done.0.users[e.u].email == e.email
  {
    var r := if currentFirst then db.nextRow else db.nextRow + 1;
    var s := if currentFirst then db.nextRow + 1 else db.nextRow;
    var sent := Step(config, db, e);
    RowsOfRequest(config, db, e);
    MirroredStep(config, db, e);
    PairedStep(config, db, e);
    FirstConfirmation(config, sent, e.u, a, r, s);
    LinkLeadsToUser(config, sent, e.u, a, r);
    SecondConfirmation(config, ByLink(sent, config, a, Some(r)).0, e.u, b, s);
  }

  lemma AddressMoves(config: Config, db: Store, track: map<nat, Progress>, e: Event, u: nat)
    requires SecureConfig(config) && Mirrored(db) && Tracked(db, track) && Enabled(db, e)
    requires u in track ==> track[u].accepted <= {EmailNew, EmailCurrent}
    requires MovesAddress(config, db, e, u) && db.users[u].email != ""
    ensures e.LinkEvent? && e.link.ty == EmailChangeType && OutcomeOf(config, db, e) == Accepted(u, EmailChangeType)
    ensures u in track
    ensures || (e.link.hash == track[u].current && track[u].accepted == {EmailNew})
            || (e.link.hash == track[u].new_ && track[u].accepted == {EmailCurrent})
    ensures Step(config, db, e).users[u].email == db.users[u].emailChange
  {
    OnlyEmailChangesMoveTheAddress(config, db, e, u);
    AcceptedLinkIsTracked(config, db, track, e.link, e.found);
    var row := db.rows[e.found.value];
    assert TrackedRow(db, track, row);
    assert Other(row.kind) in track[u].accepted && row.kind !in track[u].accepted;
  }

  /** Only the two kinds are ever noted. */
  lemma {:induction false} EveryRunNotes(config: Config, db: Store, track: map<nat, Progress>, es: seq<Event>, u: nat)
    requires Runs(config, db, es)
    requires u in track ==> track[u].accepted <= {EmailNew, EmailCurrent}
    ensures u in History(config, db, track, es) ==>
              History(config, db, track, es)[u].accepted <= {EmailNew, EmailCurrent}
    decreases |es|
  {
    if es != [] {
      EveryRunNotes(config, Step(config, db, es[0]), Track(config, db, track, es[0]), es[1..], u);
    }
  }

  lemma ApplyKeepsAddresses(config: Config, db: Store, u: nat, ty: VerifyType, req: LinkRequest, v: nat)
    requires u in db.users && v in db.users
    requires ty != EmailChangeType || NeedsTwo(config, db.users[u]) || v != u
    ensures v in Apply(db, config, u, ty, req).0.users
            && Apply(db, config, u, ty, req).0.users[v].email == db.users[v].email
  {
  }

  lemma CodeKeepsAddresses(config: Config, db: Store, req: TypedRequest, u: nat)
    requires u in db.users
    ensures u in ByCode(db, config, req).0.users && ByCode(db, config, req).0.users[u].email == db.users[u].email
  {
    var lookup := LookupByCode(db, config, req);
    if lookup.Found? {
      ApplyKeepsAddresses(config, db, lookup.userId, lookup.ty,
                          LinkRequest(req.ty, false, Hash(false, req.digest), req.banned, req.lateFailure, req.now), u);
    }
  }

  lemma ChangeKeepsAddresses(config: Config, db: Store, e: Event, u: nat)
    requires Enabled(db, e) && e.ChangeEvent? && u in db.users
    ensures u in Step(config, db, e).users && Step(config, db, e).users[u].email == db.users[u].email
  {
    assert Step(config, db, e).users ==
           db.users[e.u := ChangeRequested(db.users[e.u], e.email, config.secure, e.pkce, db.nextDigest, e.at)];
  }

  lemma OnlyEmailChangesMoveTheAddress(config: Config, db: Store, e: Event, u: nat)
    requires Mirrored(db) && Enabled(db, e) && u in db.users
    ensures u in Step(config, db, e).users
    ensures MovesAddress(config, db, e, u) ==>
              && e.LinkEvent? && e.link.ty == EmailChangeType
              && OutcomeOf(config, db, e) == Accepted(u, EmailChangeType)
              && !NeedsTwo(config, db.users[u])
              && Step(config, db, e).users[u].email == db.users[u].emailChange
  {
    if e.ChangeEvent? {
      ChangeKeepsAddresses(config, db, e, u);
    } else if e.CodeEvent? {
      CodeKeepsAddresses(config, db, e.code, u);
    } else if e.LinkEvent? {
      var lookup := LookupByHash(db, config, e.link, e.found);
      if lookup.Found? {
        ResolvedType(db, e.link.ty, e.link.hash, e.found.value);
        if lookup.ty != EmailChangeType || NeedsTwo(config, db.users[lookup.userId]) || lookup.userId != u {
          ApplyKeepsAddresses(config, db, lookup.userId, lookup.ty, e.link, u);
        }
      }
    }
  }
}
