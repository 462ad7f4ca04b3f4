/** Concurrent refresh transactions, lock by lock. A transaction locks the presented token's row and reads it, then
    locks the session row, then (under the single-session rule) the user row, each with SKIP LOCKED: a row locked by
    somebody else ends the attempt. It works with the token as read; the other rows it reads once all locks are held.
    Changing a row takes its lock too, and waits for it. Writes become visible to others only when the transaction
    commits. Serial numbers are drawn when a token row is written and are not given back. A transaction may also be
    aborted at any point. */
module LockProtocol {
  import opened Common
  import opened Sessions
  import opened RefreshTokens
  import opened RefreshGrant
  import opened Transactions

  datatype Phase =
    | Arrived
    | TokenLocked(token: Token, sid: nat)
    | SessionLocked(token: Token, sid: nat)
    | Judged(token: Token, sid: nat, superseded: bool)
    | Written(token: Token, sid: nat, serial: nat, tokens: map<nat, Token>, row: Session, err: TxError<Answer>,
              writes: set<nat>)
    | Finished(committed: bool)
  {
    predicate UnderWay() { !Arrived? && !Finished? }
  }

  datatype Tx = Tx(req: Request, phase: Phase)

  /** A committed transaction, with the serial number it drew. */
  datatype Entry = Entry(req: Request, serial: nat)

  /** The tables every transaction sees, the transactions under way, and the committed ones in order. */
  datatype World = World(db: Tables, txs: map<nat, Tx>, log: seq<Entry>)

  // ----- locks, read off the phases

  predicate HoldsToken(tx: Tx, t: nat) {
    (tx.phase.UnderWay() && tx.req.presented == t) || (tx.phase.Written? && t in tx.phase.writes)
  }

  predicate HoldsSession(tx: Tx, sid: nat) {
    (tx.phase.SessionLocked? || tx.phase.Judged? || tx.phase.Written?) && tx.phase.sid == sid
  }

  predicate HoldsUser(tx: Tx, userId: nat) {
    (tx.phase.Judged? || tx.phase.Written?) && tx.phase.token.userId == userId
  }

  ghost predicate TokenFree(w: World, i: nat, t: nat) {
    forall j :: j in w.txs && j != i ==> !HoldsToken(w.txs[j], t)
  }

  ghost predicate SessionFree(w: World, i: nat, sid: nat) {
    forall j :: j in w.txs && j != i ==> !HoldsSession(w.txs[j], sid)
  }

  ghost predicate UserFree(w: World, i: nat, userId: nat) {
    forall j :: j in w.txs && j != i ==> !HoldsUser(w.txs[j], userId)
  }

  // ----- rows of one session

  function Rows(db: Tables, sid: nat): map<nat, Token> {
    map t | t in db.tokens && db.tokens[t].session == Some(sid) :: db.tokens[t]
  }

  /** Making one transaction's writes visible. */
  function Publish(db: Tables, sid: nat, tokens: map<nat, Token>, row: Session): Tables {
    db.(tokens := db.tokens + tokens, sessions := db.sessions[sid := row])
  }

  /** The same rows, with the next serial number given. */
  function Drawing(db: Tables, serial: nat): Tables {
    Tables(db.tokens, db.sessions, serial, 0)
  }

  /** The tables with the presented token as the transaction read it. */
  function Seen(db: Tables, t: nat, token: Token): Tables {
    db.(tokens := db.tokens[t := token])
  }

  /** The rows that are new or changed. */
  function Writes(db: Tables, rows: map<nat, Token>): set<nat> {
    set r | r in rows && (r !in db.tokens || db.tokens[r] != rows[r])
  }

  // ----- one step of one transaction

  /** What the transaction writes: computed from the token it read and, for the rest, the tables as they are. */
  ghost function Outcome(config: Config, w: World, i: nat): (Tables, TxError<Answer>)
    requires i in w.txs && w.txs[i].phase.Judged?
    requires HasSession(Seen(w.db, w.txs[i].req.presented, w.txs[i].phase.token), w.txs[i].req.presented)
  {
    var tx := w.txs[i];
    var seen := Seen(w.db, tx.req.presented, tx.phase.token);
    var (after, err, _) := Body(Drawing(seen, w.db.nextToken), config, tx.req, tx.phase.superseded);
    (after, err)
  }

  /** A row that is to be written is locked by somebody else. */
  ghost predicate Waits(w: World, i: nat, writes: set<nat>) {
    exists r :: r in writes && !TokenFree(w, i, r)
  }

  ghost function NextPhase(config: Config, w: World, i: nat): Phase
    requires i in w.txs
  {
    var tx := w.txs[i];
    var t := tx.req.presented;
    match tx.phase
    case Arrived =>
      if t in w.db.tokens && w.db.tokens[t].session.Some? && TokenFree(w, i, t)
      then TokenLocked(w.db.tokens[t], w.db.tokens[t].session.value) else Finished(false)
    case TokenLocked(token, sid) =>
      if sid in w.db.sessions && SessionFree(w, i, sid) then SessionLocked(token, sid) else Finished(false)
    case SessionLocked(token, sid) =>
      var seen := Seen(w.db, t, token);
      if !HasSession(seen, t) || (config.singlePerUser && !UserFree(w, i, token.userId)) then Finished(false)
      else Judged(token, sid, Loses(seen, config, tx.req))
    case Judged(token, sid, superseded) =>
      if !HasSession(Seen(w.db, t, token), t) then Finished(false)
      else
        var (after, err) := Outcome(config, w, i);
        var writes := Writes(w.db, Rows(after, sid));
        if sid !in after.sessions then Finished(false)
        else if Waits(w, i, writes) then tx.phase
        else Written(token, sid, w.db.nextToken, Rows(after, sid), after.sessions[sid], err, writes)
    case Written(_, _, _, _, _, err, _) => Finished(!err.Plain?)
    case Finished(_) => tx.phase
  }

  ghost function Advance(config: Config, w: World, i: nat): World
    requires i in w.txs
  {
    var tx, phase := w.txs[i], NextPhase(config, w, i);
    var next := w.txs[i := tx.(phase := phase)];
    if phase.Written? then
      World(w.db.(nextToken := w.db.nextToken + 1), next, w.log)
    else if tx.phase.Written? && !tx.phase.err.Plain? then
      World(Publish(w.db, tx.phase.sid, tx.phase.tokens, tx.phase.row), next, w.log + [Entry(tx.req, tx.phase.serial)])
    else
      World(w.db, next, w.log)
  }

  /** What can happen: a new request arrives, some transaction takes its next step, or one is aborted. */
  datatype Move = Arrive(i: nat, req: Request) | Proceed(i: nat) | Abort(i: nat)

  predicate CanMove(w: World, m: Move) {
    match m
    case Arrive(i, _) => i !in w.txs
    case Proceed(i) => i in w.txs
    case Abort(i) => i in w.txs && !w.txs[i].phase.Finished?
  }

  ghost function Perform(config: Config, w: World, m: Move): World
    requires CanMove(w, m)
  {
    match m
    case Arrive(i, req) => w.(txs := w.txs[i := Tx(req, Arrived)])
    case Proceed(i) => Advance(config, w, i)
    case Abort(i) => w.(txs := w.txs[i := w.txs[i].(phase := Finished(false))])
  }

  ghost predicate Interleaves(config: Config, w: World, ms: seq<Move>)
    decreases |ms|
  {
    ms == [] || (CanMove(w, ms[0]) && Interleaves(config, Perform(config, w, ms[0]), ms[1..]))
  }

  ghost function After(config: Config, w: World, ms: seq<Move>): World
    requires Interleaves(config, w, ms)
    decreases |ms|
  {
    if ms == [] then w else After(config, Perform(config, w, ms[0]), ms[1..])
  }

  // ----- the serial reference: one committed transaction after the other

  ghost function Serially(config: Config, db: Tables, log: seq<Entry>): Tables
    decreases |log|
  {
    if log == [] then db
    else
      var before := Serially(config, db, log[..|log| - 1]);
      var last := log[|log| - 1];
      if HasSession(before, last.req.presented) then InTransaction(Drawing(before, last.serial), config, last.req).0
      else before
  }

  predicate SameRows(a: Tables, b: Tables) {
    a.tokens == b.tokens && a.sessions == b.sessions
  }

  // ----- the body reads and writes nothing but the rows of its own session

  /** The tables cut down to one session. */
  function Only(db: Tables, sid: nat, serial: nat): Tables
    requires sid in db.sessions
  {
    Tables(Rows(db, sid), map[sid := db.sessions[sid]], serial, 0)
  }

  lemma OnlyActive(db: Tables, sid: nat, serial: nat)
    requires sid in db.sessions
    ensures FindActive(Only(db, sid, serial), sid) == FindActive(Drawing(db, serial), sid)
  {
    assert ActiveTokens(Only(db, sid, serial), sid) == ActiveTokens(Drawing(db, serial), sid);
  }

  /** `after` is what `after'` (computed on the session's rows alone) says, and nothing else moved. */
  ghost predicate Agree(db: Tables, sid: nat, after: Tables, after': Tables) {
    && sid in after.sessions && sid in after'.sessions && after.sessions[sid] == after'.sessions[sid]
    && Rows(after, sid) == after'.tokens
    && after.tokens == db.tokens + after'.tokens
    && after.sessions == db.sessions[sid := after'.sessions[sid]]
  }

  lemma AgreeUnchanged(db: Tables, sid: nat, serial: nat)
    requires sid in db.sessions
    ensures Agree(db, sid, Drawing(db, serial), Only(db, sid, serial))
  {
    assert db.tokens == db.tokens + Rows(db, sid);
    assert Rows(Drawing(db, serial), sid) == Rows(db, sid);
  }

  lemma AgreeSwap(db: Tables, sid: nat, serial: nat, t: nat, userId: nat, now: Time)
    requires InSession(db, t, sid) && sid in db.sessions && serial !in db.tokens
    ensures Agree(db, sid, Swap(Drawing(db, serial), userId, t, now), Swap(Only(db, sid, serial), userId, t, now))
  {
    var after, after' := Swap(Drawing(db, serial), userId, t, now), Swap(Only(db, sid, serial), userId, t, now);
    var child := Token(userId, Some(t), Some(sid), false, now, now);
    var parent := db.tokens[t].(revoked := true, updatedAt := now);
    assert after.tokens == db.tokens[t := parent][serial := child];
    assert after'.tokens == Rows(db, sid)[t := parent][serial := child];
    RowsAfterSwap(db, sid, t, parent, serial, child);
  }

  lemma RowsAfterSwap(db: Tables, sid: nat, t: nat, parent: Token, serial: nat, child: Token)
    requires InSession(db, t, sid) && serial !in db.tokens && parent.session == Some(sid) && child.session == Some(sid)
    ensures var all, own := db.tokens[t := parent][serial := child], Rows(db, sid)[t := parent][serial := child];
            all == db.tokens + own && (map u | u in all && all[u].session == Some(sid) :: all[u]) == own
  {
  }

  lemma AgreeRevoke(db: Tables, sid: nat, serial: nat, now: Time)
    requires sid in db.sessions
    ensures Agree(db, sid, RevokeSession(Drawing(db, serial), sid, now), RevokeSession(Only(db, sid, serial), sid, now))
  {
    var after, after' := RevokeSession(Drawing(db, serial), sid, now), RevokeSession(Only(db, sid, serial), sid, now);
    assert ActiveTokens(Only(db, sid, serial), sid) == ActiveTokens(Drawing(db, serial), sid);
    assert Rows(after, sid) == after'.tokens;
    assert after.tokens == db.tokens + after'.tokens;
  }

  lemma AgreeTouch(db: Tables, sid: nat, after: Tables, after': Tables, now: Time)
    requires Agree(db, sid, after, after')
    ensures Agree(db, sid, Touch(after, sid, now), Touch(after', sid, now))
  {
    assert Rows(Touch(after, sid, now), sid) == Rows(after, sid);
  }

  lemma DecideIsLocal(db: Tables, config: Config, req: Request, superseded: bool, serial: nat)
    requires HasSession(db, req.presented)
    ensures var sid := db.tokens[req.presented].session.value;
            Decide(Drawing(db, serial), config, req, superseded) ==
              Decide(Only(db, sid, serial), config, req, superseded)
  {
    var sid := db.tokens[req.presented].session.value;
    OnlyActive(db, sid, serial);
    var active := FindActive(Drawing(db, serial), sid);
    if active.Some? {
      assert active.value in ActiveTokens(Drawing(db, serial), sid);
      assert Only(db, sid, serial).tokens[active.value] == db.tokens[active.value];
    }
  }

  lemma BodyIsLocal(db: Tables, config: Config, req: Request, superseded: bool, serial: nat)
    requires HasSession(db, req.presented) && serial !in db.tokens
    ensures var sid := db.tokens[req.presented].session.value;
            var (after, err, issued) := Body(Drawing(db, serial), config, req, superseded);
            var (after', err', issued') := Body(Only(db, sid, serial), config, req, superseded);
            err == err' && issued == issued' && Agree(db, sid, after, after')
  {
    var token := db.tokens[req.presented];
    var sid := token.session.value;
    var full, cut := Drawing(db, serial), Only(db, sid, serial);
    DecideIsLocal(db, config, req, superseded, serial);
    match Decide(full, config, req, superseded)
    case Reject => AgreeUnchanged(db, sid, serial);
    case Reuse =>
      if config.rotation { AgreeRevoke(db, sid, serial, req.now); } else { AgreeUnchanged(db, sid, serial); }
    case Replay(_) =>
      AgreeUnchanged(db, sid, serial);
      AgreeTouch(db, sid, full, cut, req.now);
    case Rotate =>
      AgreeSwap(db, sid, serial, req.presented, token.userId, req.now);
      AgreeTouch(db, sid, Swap(full, token.userId, req.presented, req.now),
                 Swap(cut, token.userId, req.presented, req.now), req.now);
  }

  /** Which rows the body leaves in its session, and whose they are. */
  lemma BodyRows(db: Tables, config: Config, req: Request, superseded: bool, serial: nat)
    requires HasSession(db, req.presented)
    ensures var sid := db.tokens[req.presented].session.value;
            var after := Body(Only(db, sid, serial), config, req, superseded).0;
            && Rows(db, sid).Keys <= after.tokens.Keys <= Rows(db, sid).Keys + {serial}
            && (forall t :: t in after.tokens ==> after.tokens[t].session == Some(sid))
            && (forall t :: t in after.tokens && t in Rows(db, sid) && t != serial ==>
                  after.tokens[t].userId == db.tokens[t].userId)
            && (serial in after.tokens && serial !in Rows(db, sid) ==>
                  after.tokens[serial].userId == db.tokens[req.presented].userId)
            && sid in after.sessions && after.sessions[sid].userId == db.sessions[sid].userId
  {
  }

  // ----- the invariant

  ghost predicate RefsOk(db: Tables) {
    forall t :: t in db.tokens ==>
      && t < db.nextToken
      && (db.tokens[t].session.Some? ==> db.tokens[t].session.value in db.sessions
                                         && db.sessions[db.tokens[t].session.value].userId == db.tokens[t].userId)
  }

  /** What a transaction has read is still true: nobody else can have changed it. */
  ghost predicate TxOk(config: Config, db: Tables, tx: Tx) {
    && (tx.phase.UnderWay() ==>
          InSession(db, tx.req.presented, tx.phase.sid) && db.tokens[tx.req.presented] == tx.phase.token)
    && (HoldsSession(tx, if tx.phase.UnderWay() then tx.phase.sid else 0) ==> tx.phase.sid in db.sessions)
    && (tx.phase.Judged? ==> tx.phase.superseded == Loses(db, config, tx.req))
    && (tx.phase.Written? ==>
          tx.phase.serial !in db.tokens && tx.phase.serial < db.nextToken && UpToDate(config, db, tx))
  }

  ghost predicate UpToDate(config: Config, db: Tables, tx: Tx)
    requires tx.phase.Written? && InSession(db, tx.req.presented, tx.phase.sid) && tx.phase.sid in db.sessions
  {
    var (after, err, _) := Body(Only(db, tx.phase.sid, tx.phase.serial), config, tx.req, Loses(db, config, tx.req));
    && tx.phase.sid in after.sessions && tx.phase.tokens == after.tokens && tx.phase.row == after.sessions[tx.phase.sid]
    && tx.phase.err == err && tx.phase.writes == Writes(db, tx.phase.tokens)
  }

  /** Two transactions hold no lock in common and have drawn different serial numbers. */
  ghost predicate Apart(config: Config, a: Tx, b: Tx) {
    && (forall t :: !(HoldsToken(a, t) && HoldsToken(b, t)))
    && (forall sid :: !(HoldsSession(a, sid) && HoldsSession(b, sid)))
    && (config.singlePerUser ==> forall u :: !(HoldsUser(a, u) && HoldsUser(b, u)))
    && (a.phase.Written? && b.phase.Written? ==> a.phase.serial != b.phase.serial)
  }

  ghost predicate Inv(config: Config, start: Tables, w: World) {
    && SameRows(w.db, Serially(config, start, w.log))
    && RefsOk(w.db)
    && (forall i :: i in w.txs ==> TxOk(config, w.db, w.txs[i]))
    && (forall i, j :: i in w.txs && j in w.txs && i != j ==> Apart(config, w.txs[i], w.txs[j]))
  }

  // ----- committing

  /** Publishing a session's rows does not touch the rows of any other session. */
  lemma PublishElsewhere(config: Config, db: Tables, tx: Tx, sid: nat, serial: nat)
    requires RefsOk(db) && TxOk(config, db, tx) && tx.phase.Written?
    requires sid in db.sessions && sid != tx.phase.sid
    ensures var db' := Publish(db, tx.phase.sid, tx.phase.tokens, tx.phase.row);
            sid in db'.sessions && Only(db', sid, serial) == Only(db, sid, serial)
  {
    BodyRows(db, config, tx.req, Loses(db, config, tx.req), tx.phase.serial);
    var db' := Publish(db, tx.phase.sid, tx.phase.tokens, tx.phase.row);
    assert Rows(db', sid) == Rows(db, sid);
  }

  lemma PublishKeepsTokens(config: Config, db: Tables, tx: Tx, t: nat)
    requires RefsOk(db) && TxOk(config, db, tx) && tx.phase.Written? && t in db.tokens
    ensures var db' := Publish(db, tx.phase.sid, tx.phase.tokens, tx.phase.row);
            && t in db'.tokens && db'.tokens[t].session == db.tokens[t].session
               && db'.tokens[t].userId == db.tokens[t].userId
            && (t !in tx.phase.writes ==> db'.tokens[t] == db.tokens[t])
  {
    BodyRows(db, config, tx.req, Loses(db, config, tx.req), tx.phase.serial);
  }

  lemma PublishRefs(config: Config, db: Tables, tx: Tx)
    requires RefsOk(db) && TxOk(config, db, tx) && tx.phase.Written?
    ensures RefsOk(Publish(db, tx.phase.sid, tx.phase.tokens, tx.phase.row))
  {
    BodyRows(db, config, tx.req, Loses(db, config, tx.req), tx.phase.serial);
    var db' := Publish(db, tx.phase.sid, tx.phase.tokens, tx.phase.row);
    forall t | t in db'.tokens
      ensures t < db'.nextToken
      ensures db'.tokens[t].session.Some? ==>
                (db'.tokens[t].session.value in db'.sessions
                 && db'.sessions[db'.tokens[t].session.value].userId == db'.tokens[t].userId)
    {
      if t in db.tokens { PublishKeepsTokens(config, db, tx, t); }
    }
  }

  /** The verdict of the single-session rule survives another user's commit. */
  lemma LosesSurvives(config: Config, db: Tables, tx: Tx, other: Tx, sid: nat)
    requires RefsOk(db) && TxOk(config, db, tx) && tx.phase.Written?
    requires InSession(db, other.req.presented, sid) && sid in db.sessions && sid != tx.phase.sid
    requires config.singlePerUser ==> db.tokens[other.req.presented].userId != db.tokens[tx.req.presented].userId
    ensures var db' := Publish(db, tx.phase.sid, tx.phase.tokens, tx.phase.row);
            HasSession(db', other.req.presented) && Loses(db', config, other.req) == Loses(db, config, other.req)
  {
    PublishKeepsTokens(config, db, tx, other.req.presented);
    BodyRows(db, config, tx.req, Loses(db, config, tx.req), tx.phase.serial);
    var db' := Publish(db, tx.phase.sid, tx.phase.tokens, tx.phase.row);
    var req, token := other.req, db.tokens[other.req.presented];
    if config.singlePerUser {
      forall s ensures (s in db.sessions
                        && Beats(db.sessions, config, req.start, req.highest, token.userId, s, sid, token.updatedAt))
                  <==> (s in db'.sessions
                        && Beats(db'.sessions, config, req.start, req.highest, token.userId, s, sid, token.updatedAt))
      {
      }
    }
  }

  lemma WritesSurvive(config: Config, db: Tables, tx: Tx, other: Tx)
    requires RefsOk(db) && TxOk(config, db, tx) && tx.phase.Written? && TxOk(config, db, other) && other.phase.Written?
    requires Apart(config, tx, other)
    ensures var db' := Publish(db, tx.phase.sid, tx.phase.tokens, tx.phase.row);
            other.phase.serial !in db'.tokens && other.phase.writes == Writes(db', other.phase.tokens)
  {
    assert HoldsSession(tx, tx.phase.sid) && HoldsSession(other, other.phase.sid);
    BodyRows(db, config, tx.req, Loses(db, config, tx.req), tx.phase.serial);
    BodyRows(db, config, other.req, Loses(db, config, other.req), other.phase.serial);
    var db' := Publish(db, tx.phase.sid, tx.phase.tokens, tx.phase.row);
    forall r | r in other.phase.tokens ensures r in db'.tokens <==> r in db.tokens
                                       ensures r in db.tokens ==> db'.tokens[r] == db.tokens[r]
    {
    }
  }

  lemma OtherTxSurvivesCommit(config: Config, db: Tables, tx: Tx, other: Tx)
    requires RefsOk(db) && TxOk(config, db, tx) && tx.phase.Written? && TxOk(config, db, other)
    requires Apart(config, tx, other)
    ensures TxOk(config, Publish(db, tx.phase.sid, tx.phase.tokens, tx.phase.row), other)
  {
    if other.phase.UnderWay() {
      var sid := other.phase.sid;
      assert HoldsToken(other, other.req.presented);
      PublishKeepsTokens(config, db, tx, other.req.presented);
      if other.phase.Judged? || other.phase.Written? {
        assert HoldsSession(other, sid) && HoldsSession(tx, tx.phase.sid);
        assert HoldsUser(other, other.phase.token.userId) && HoldsUser(tx, tx.phase.token.userId);
        LosesSurvives(config, db, tx, other, sid);
      }
      if other.phase.Written? {
        PublishElsewhere(config, db, tx, sid, other.phase.serial);
        WritesSurvive(config, db, tx, other);
      }
    }
  }

  /** Committing has the effect of running the whole transaction at once, at the moment of the commit. */
  lemma CommitIsAtomic(config: Config, db: Tables, tx: Tx)
    requires TxOk(config, db, tx) && tx.phase.Written? && !tx.phase.err.Plain?
    ensures SameRows(Publish(db, tx.phase.sid, tx.phase.tokens, tx.phase.row),
                     InTransaction(Drawing(db, tx.phase.serial), config, tx.req).0)
  {
    assert Loses(Drawing(db, tx.phase.serial), config, tx.req) == Loses(db, config, tx.req);
    BodyIsLocal(db, config, tx.req, Loses(db, config, tx.req), tx.phase.serial);
  }

  lemma CommitExtendsTheSerialRun(config: Config, start: Tables, db: Tables, log: seq<Entry>, tx: Tx)
    requires SameRows(db, Serially(config, start, log))
    requires TxOk(config, db, tx) && tx.phase.Written? && !tx.phase.err.Plain?
    ensures SameRows(Publish(db, tx.phase.sid, tx.phase.tokens, tx.phase.row),
                     Serially(config, start, log + [Entry(tx.req, tx.phase.serial)]))
  {
    CommitIsAtomic(config, db, tx);
    var longer := log + [Entry(tx.req, tx.phase.serial)];
    assert longer[..|longer| - 1] == log;
    var before := Serially(config, start, log);
    assert Drawing(before, tx.phase.serial) == Drawing(db, tx.phase.serial);
  }

  lemma FinishedHoldsNothing(config: Config, tx: Tx, other: Tx)
    requires tx.phase.Finished?
    ensures Apart(config, tx, other) && Apart(config, other, tx)
  {
  }

  /** The transactions after one of them, `i`, has committed to `db`. */
  lemma OthersSurviveCommit(config: Config, start: Tables, w: World, i: nat, db: Tables)
    requires Inv(config, start, w) && i in w.txs && w.txs[i].phase.Written?
    requires db == Publish(w.db, w.txs[i].phase.sid, w.txs[i].phase.tokens, w.txs[i].phase.row)
    ensures forall j :: j in w.txs && j != i ==> TxOk(config, db, w.txs[j])
  {
    forall j | j in w.txs && j != i ensures TxOk(config, db, w.txs[j]) {
      assert Apart(config, w.txs[i], w.txs[j]);
      OtherTxSurvivesCommit(config, w.db, w.txs[i], w.txs[j]);
    }
  }

  lemma ApartWithFinished(config: Config, txs: map<nat, Tx>, i: nat, tx: Tx)
    requires i in txs && tx.phase.Finished?
    requires forall j, k :: j in txs && k in txs && j != k ==> Apart(config, txs[j], txs[k])
    ensures var txs' := txs[i := tx];
            forall j, k :: j in txs' && k in txs' && j != k ==> Apart(config, txs'[j], txs'[k])
  {
    forall j | j in txs { FinishedHoldsNothing(config, tx, txs[j]); }
  }

  /** The world once a transaction that has written its rows commits. */
  function Committed(w: World, i: nat): World
    requires i in w.txs && w.txs[i].phase.Written?
  {
    var tx := w.txs[i];
    World(Publish(w.db, tx.phase.sid, tx.phase.tokens, tx.phase.row), w.txs[i := tx.(phase := Finished(true))],
          w.log + [Entry(tx.req, tx.phase.serial)])
  }

  lemma InvCommitted(config: Config, start: Tables, w: World, i: nat)
    requires Inv(config, start, w) && i in w.txs && w.txs[i].phase.Written? && !w.txs[i].phase.err.Plain?
    ensures Inv(config, start, Committed(w, i))
  {
    var tx, w' := w.txs[i], Committed(w, i);
    CommitExtendsTheSerialRun(config, start, w.db, w.log, tx);
    PublishRefs(config, w.db, tx);
    OthersSurviveCommit(config, start, w, i, w'.db);
    ApartWithFinished(config, w.txs, i, w'.txs[i]);
    FinishedIsOk(config, w'.db, w'.txs[i]);
  }

  lemma FinishedIsOk(config: Config, db: Tables, tx: Tx)
    requires tx.phase.Finished?
    ensures TxOk(config, db, tx)
  {
  }

  lemma InvCommit(config: Config, start: Tables, w: World, i: nat)
    requires Inv(config, start, w) && i in w.txs && w.txs[i].phase.Written? && !w.txs[i].phase.err.Plain?
    ensures Inv(config, start, Advance(config, w, i))
  {
    InvCommitted(config, start, w, i);
    AdvanceCommits(config, w, i);
  }

  lemma AdvanceCommits(config: Config, w: World, i: nat)
    requires i in w.txs && w.txs[i].phase.Written? && !w.txs[i].phase.err.Plain?
    ensures Advance(config, w, i) == Committed(w, i)
  {
  }

  lemma SeenIsCurrent(db: Tables, t: nat, token: Token)
    requires t in db.tokens && db.tokens[t] == token
    ensures Seen(db, t, token) == db
  {
    assert db.tokens[t := token] == db.tokens;
  }

  /** What the transaction writes is what it would write with its session's rows alone, as they are now. */
  lemma ComputedFromOwnRows(config: Config, w: World, i: nat)
    requires RefsOk(w.db) && i in w.txs && w.txs[i].phase.Judged? && TxOk(config, w.db, w.txs[i])
    requires NextPhase(config, w, i).Written?
    ensures var tx, phase := w.txs[i], NextPhase(config, w, i);
            var (after, err, _) := Body(Only(w.db, tx.phase.sid, w.db.nextToken), config, tx.req, tx.phase.superseded);
            && phase.sid == tx.phase.sid && phase.token == tx.phase.token && phase.serial == w.db.nextToken
            && phase.sid in after.sessions && phase.tokens == after.tokens && phase.row == after.sessions[phase.sid]
            && phase.err == err && phase.writes == Writes(w.db, phase.tokens)
  {
    var tx, serial := w.txs[i], w.db.nextToken;
    assert serial !in w.db.tokens;
    SeenIsCurrent(w.db, tx.req.presented, tx.phase.token);
    BodyIsLocal(w.db, config, tx.req, tx.phase.superseded, serial);
  }

  lemma ComputeIsUpToDate(config: Config, w: World, i: nat)
    requires RefsOk(w.db) && i in w.txs && w.txs[i].phase.Judged? && TxOk(config, w.db, w.txs[i])
    requires NextPhase(config, w, i).Written?
    ensures var phase := NextPhase(config, w, i);
            && phase.sid == w.txs[i].phase.sid && phase.token == w.txs[i].phase.token && phase.serial == w.db.nextToken
            && TxOk(config, w.db.(nextToken := w.db.nextToken + 1), w.txs[i].(phase := phase))
  {
    ComputedFromOwnRows(config, w, i);
    WrittenIsOk(config, w.db, w.txs[i], NextPhase(config, w, i));
  }

  lemma WrittenIsOk(config: Config, db: Tables, tx: Tx, phase: Phase)
    requires RefsOk(db) && tx.phase.Judged? && TxOk(config, db, tx) && phase.Written?
    requires phase.sid == tx.phase.sid && phase.token == tx.phase.token && phase.serial == db.nextToken
    requires var (after, err, _) := Body(Only(db, tx.phase.sid, db.nextToken), config, tx.req, tx.phase.superseded);
             && phase.sid in after.sessions && phase.tokens == after.tokens && phase.row == after.sessions[phase.sid]
             && phase.err == err && phase.writes == Writes(db, phase.tokens)
    ensures TxOk(config, db.(nextToken := db.nextToken + 1), tx.(phase := phase))
  {
    var db' := db.(nextToken := db.nextToken + 1);
    assert db.nextToken !in db.tokens;
    assert HoldsSession(tx, tx.phase.sid);
    assert Only(db', tx.phase.sid, db.nextToken) == Only(db, tx.phase.sid, db.nextToken);
    assert Loses(db', config, tx.req) == Loses(db, config, tx.req);
  }

  /** The locks a write takes are ones that nobody else holds. */
  lemma ApartAfterCompute(config: Config, w: World, i: nat, j: nat)
    requires RefsOk(w.db) && i in w.txs && w.txs[i].phase.Judged? && TxOk(config, w.db, w.txs[i])
    requires NextPhase(config, w, i).Written?
    requires j in w.txs && j != i && TxOk(config, w.db, w.txs[j])
    requires Apart(config, w.txs[i], w.txs[j]) && Apart(config, w.txs[j], w.txs[i])
    ensures var tx := w.txs[i].(phase := NextPhase(config, w, i));
            Apart(config, tx, w.txs[j]) && Apart(config, w.txs[j], tx)
  {
    ComputeIsUpToDate(config, w, i);
    var old_, tx, other := w.txs[i], w.txs[i].(phase := NextPhase(config, w, i)), w.txs[j];
    forall t | HoldsToken(tx, t) ensures !HoldsToken(other, t) {
      if t in tx.phase.writes { assert TokenFree(w, i, t); } else { assert HoldsToken(old_, t); }
    }
    forall sid | HoldsSession(tx, sid) ensures !HoldsSession(other, sid) { assert HoldsSession(old_, sid); }
    forall u | HoldsUser(tx, u) && config.singlePerUser ensures !HoldsUser(other, u) { assert HoldsUser(old_, u); }
  }

  lemma InvCompute(config: Config, start: Tables, w: World, i: nat)
    requires Inv(config, start, w) && i in w.txs && w.txs[i].phase.Judged? && NextPhase(config, w, i).Written?
    ensures Inv(config, start, Advance(config, w, i))
  {
    var w' := Advance(config, w, i);
    ComputeIsUpToDate(config, w, i);
    forall j | j in w'.txs ensures TxOk(config, w'.db, w'.txs[j]) {
      if j != i { BumpKeepsTxOk(config, w.db, w.txs[j]); }
    }
    forall j | j in w.txs && j != i ensures Apart(config, w'.txs[i], w.txs[j]) && Apart(config, w.txs[j], w'.txs[i]) {
      ApartAfterCompute(config, w, i, j);
    }
  }

  lemma BumpKeepsTxOk(config: Config, db: Tables, tx: Tx)
    requires TxOk(config, db, tx)
    ensures TxOk(config, db.(nextToken := db.nextToken + 1), tx)
  {
    var db' := db.(nextToken := db.nextToken + 1);
    if tx.phase.Judged? || tx.phase.Written? {
      assert Loses(db', config, tx.req) == Loses(db, config, tx.req);
    }
    if tx.phase.Written? {
      assert Only(db', tx.phase.sid, tx.phase.serial) == Only(db, tx.phase.sid, tx.phase.serial);
    }
  }

  /** Taking a lock that is free, or giving all of them up. */
  lemma LockingKeepsApart(config: Config, w: World, i: nat, j: nat)
    requires i in w.txs && j in w.txs && j != i && !NextPhase(config, w, i).Written?
    requires Apart(config, w.txs[i], w.txs[j]) && Apart(config, w.txs[j], w.txs[i])
    ensures var tx := w.txs[i].(phase := NextPhase(config, w, i));
            Apart(config, tx, w.txs[j]) && Apart(config, w.txs[j], tx)
  {
    var old_, tx, other := w.txs[i], w.txs[i].(phase := NextPhase(config, w, i)), w.txs[j];
    forall t | HoldsToken(tx, t) ensures !HoldsToken(other, t) {
      if old_.phase.Arrived? { assert TokenFree(w, i, t); } else { assert HoldsToken(old_, t); }
    }
    forall sid | HoldsSession(tx, sid) ensures !HoldsSession(other, sid) {
      if old_.phase.TokenLocked? { assert SessionFree(w, i, sid); } else { assert HoldsSession(old_, sid); }
    }
    forall u | HoldsUser(tx, u) && config.singlePerUser ensures !HoldsUser(other, u) {
      if old_.phase.SessionLocked? { assert UserFree(w, i, u); } else { assert HoldsUser(old_, u); }
    }
  }

  lemma InvLock(config: Config, start: Tables, w: World, i: nat)
    requires Inv(config, start, w) && i in w.txs && !NextPhase(config, w, i).Written?
    requires w.txs[i].phase.Written? ==> w.txs[i].phase.err.Plain?
    ensures Inv(config, start, Advance(config, w, i))
  {
    var tx, w' := w.txs[i], Advance(config, w, i);
    assert TxOk(config, w.db, tx);
    if tx.phase.UnderWay() { SeenIsCurrent(w.db, tx.req.presented, tx.phase.token); }
    assert TxOk(config, w.db, w'.txs[i]);
    forall j | j in w.txs && j != i ensures Apart(config, w'.txs[i], w.txs[j]) && Apart(config, w.txs[j], w'.txs[i]) {
      LockingKeepsApart(config, w, i, j);
    }
  }

  lemma InvMove(config: Config, start: Tables, w: World, m: Move)
    requires Inv(config, start, w) && CanMove(w, m)
    ensures Inv(config, start, Perform(config, w, m))
  {
    if m.Proceed? {
      if NextPhase(config, w, m.i).Written? {
        InvCompute(config, start, w, m.i);
      } else if w.txs[m.i].phase.Written? && !w.txs[m.i].phase.err.Plain? {
        InvCommit(config, start, w, m.i);
      } else {
        InvLock(config, start, w, m.i);
      }
    }
  }

  // ----- the theorems

  /** No two transactions are past the locks of one session, and the token a transaction read right after locking it is
      still what the tables hold. */
  ghost predicate Guarded(w: World) {
    && (forall i, j, sid :: i in w.txs && j in w.txs && HoldsSession(w.txs[i], sid) && HoldsSession(w.txs[j], sid) ==>
          i == j)
    && (forall i :: i in w.txs && w.txs[i].phase.UnderWay() ==>
          w.txs[i].req.presented in w.db.tokens && w.db.tokens[w.txs[i].req.presented] == w.txs[i].phase.token)
  }

  lemma InvGuards(config: Config, start: Tables, w: World)
    requires Inv(config, start, w)
    ensures Guarded(w)
  {
    forall i, j, sid: nat | i in w.txs && j in w.txs && HoldsSession(w.txs[i], sid) && HoldsSession(w.txs[j], sid)
      ensures i == j
    {
      assert i != j ==> Apart(config, w.txs[i], w.txs[j]);
    }
    forall i | i in w.txs && w.txs[i].phase.UnderWay()
      ensures w.txs[i].req.presented in w.db.tokens && w.db.tokens[w.txs[i].req.presented] == w.txs[i].phase.token
    {
      assert TxOk(config, w.db, w.txs[i]);
    }
  }

  /** However concurrent refresh transactions interleave: the tables hold exactly what the committed
      ones, run one after the other in commit order, would have left; no two transactions are ever past
      the locks of the same session, and none works with a token that has changed since it was read. */
  lemma {:induction false} EveryInterleavingIsSerial(config: Config, start: Tables, w: World, ms: seq<Move>)
    requires Inv(config, start, w) && Interleaves(config, w, ms)
    ensures var end := After(config, w, ms);
            Inv(config, start, end) && SameRows(end.db, Serially(config, start, end.log)) && Guarded(end)
    decreases |ms|
  {
    if ms == [] {
      InvGuards(config, start, w);
    } else {
      InvMove(config, start, w, ms[0]);
      EveryInterleavingIsSerial(config, start, Perform(config, w, ms[0]), ms[1..]);
    }
  }

  /** The same for a world in which nothing is under way yet, over any tables without dangling references. */
  lemma Serializable(config: Config, start: Tables, ms: seq<Move>)
    requires RefsOk(start) && Interleaves(config, World(start, map[], []), ms)
    ensures var end := After(config, World(start, map[], []), ms);
            SameRows(end.db, Serially(config, start, end.log)) && Guarded(end)
  {
    EveryInterleavingIsSerial(config, start, World(start, map[], []), ms);
  }

  /** A transaction that does not commit (a row was locked, its body failed, or it was aborted) changes no row. */
  lemma FailedAttemptsLeaveNoTrace(config: Config, w: World, m: Move)
    requires CanMove(w, m) && !m.Arrive? && !w.txs[m.i].phase.Finished?
    requires Perform(config, w, m).txs[m.i].phase != Finished(true)
    ensures SameRows(Perform(config, w, m).db, w.db) && Perform(config, w, m).log == w.log
  {
  }

  /** A row held is one of the transaction's session, or the new one it drew the number of. */
  lemma HeldRows(config: Config, db: Tables, tx: Tx, r: nat)
    requires RefsOk(db) && TxOk(config, db, tx) && HoldsToken(tx, r)
    ensures r < db.nextToken && (r in db.tokens ==> db.tokens[r].session == Some(tx.phase.sid))
  {
    if tx.phase.Written? { BodyRows(db, config, tx.req, Loses(db, config, tx.req), tx.phase.serial); }
  }

  lemma RowsToWrite(config: Config, w: World, i: nat, r: nat)
    requires RefsOk(w.db) && i in w.txs && w.txs[i].phase.Judged? && TxOk(config, w.db, w.txs[i])
    requires HasSession(Seen(w.db, w.txs[i].req.presented, w.txs[i].phase.token), w.txs[i].req.presented)
    requires r in Writes(w.db, Rows(Outcome(config, w, i).0, w.txs[i].phase.sid))
    ensures r == w.db.nextToken || (r in w.db.tokens && w.db.tokens[r].session == Some(w.txs[i].phase.sid))
  {
    var tx, serial := w.txs[i], w.db.nextToken;
    SeenIsCurrent(w.db, tx.req.presented, tx.phase.token);
    assert serial !in w.db.tokens;
    BodyIsLocal(w.db, config, tx.req, tx.phase.superseded, serial);
    BodyRows(w.db, config, tx.req, tx.phase.superseded, serial);
  }

  /** Transaction `i` is about to write row `r`, which `j` has locked. */
  ghost predicate WaitsFor(config: Config, w: World, i: nat, j: nat, r: nat)
    requires i in w.txs && j in w.txs
  {
    && w.txs[i].phase.Judged?
    && HasSession(Seen(w.db, w.txs[i].req.presented, w.txs[i].phase.token), w.txs[i].req.presented)
    && r in Writes(w.db, Rows(Outcome(config, w, i).0, w.txs[i].phase.sid))
    && HoldsToken(w.txs[j], r)
  }

  /** Waiting for a row to write never deadlocks: whoever holds the row has only just locked it, waits for nothing, and
      gives up at its next step, because the session is taken. */
  lemma WaitingEnds(config: Config, start: Tables, w: World, i: nat, j: nat, r: nat)
    requires Inv(config, start, w) && i in w.txs && j in w.txs && j != i
    ensures WaitsFor(config, w, i, j, r) ==> w.txs[j].phase.TokenLocked? && NextPhase(config, w, j) == Finished(false)
  {
    if WaitsFor(config, w, i, j, r) {
      assert TxOk(config, w.db, w.txs[i]) && TxOk(config, w.db, w.txs[j]) && Apart(config, w.txs[i], w.txs[j]);
      RowsToWrite(config, w, i, r);
      HeldRows(config, w.db, w.txs[j], r);
      TakenSession(config, w, i, j);
    }
  }

  /** With somebody else past the locks of its session, a transaction can only be at its first lock, and fails next. */
  lemma TakenSession(config: Config, w: World, i: nat, j: nat)
    requires i in w.txs && j in w.txs && i != j && w.txs[i].phase.Judged? && Apart(config, w.txs[i], w.txs[j])
    requires w.txs[j].phase.UnderWay() && w.txs[j].phase.sid == w.txs[i].phase.sid
    ensures w.txs[j].phase.TokenLocked? && NextPhase(config, w, j) == Finished(false)
  {
    assert HoldsSession(w.txs[i], w.txs[i].phase.sid);
    assert !HoldsSession(w.txs[j], w.txs[j].phase.sid);
    assert !SessionFree(w, j, w.txs[j].phase.sid);
  }
}
