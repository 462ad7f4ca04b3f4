/** A refresh transaction that nobody disturbs gets all its locks and ends as it would on its own. */
module LockProgress {
  import opened Common
  import opened Sessions
  import opened RefreshTokens
  import opened RefreshGrant
  import opened Transactions
  import opened LockProtocol

  /** No other transaction holds a lock. */
  predicate Quiet(w: World, i: nat) {
    forall j :: j in w.txs && j != i ==> !w.txs[j].phase.UnderWay()
  }

  lemma QuietIsFree(w: World, i: nat, t: nat, sid: nat, userId: nat)
    requires Quiet(w, i)
    ensures TokenFree(w, i, t) && SessionFree(w, i, sid) && UserFree(w, i, userId)
  {
  }

  /** The next step of a transaction on its own: one lock further, and with all locks the rows are written. */
  lemma NextLock(config: Config, start: Tables, w: World, i: nat)
    requires Inv(config, start, w) && i in w.txs && Quiet(w, i) && HasSession(w.db, w.txs[i].req.presented)
    ensures var phase, next := w.txs[i].phase, NextPhase(config, w, i);
            && (phase.Arrived? ==> next.TokenLocked?)
            && (phase.TokenLocked? ==> next.SessionLocked?)
            && (phase.SessionLocked? ==> next.Judged?)
            && (phase.Judged? ==> next.Written? && next.serial == w.db.nextToken)
  {
    var tx := w.txs[i];
    assert TxOk(config, w.db, tx);
    forall t, sid, userId ensures TokenFree(w, i, t) && SessionFree(w, i, sid) && UserFree(w, i, userId) {
      QuietIsFree(w, i, t, sid, userId);
    }
    if tx.phase.UnderWay() { SeenIsCurrent(w.db, tx.req.presented, tx.phase.token); }
    if tx.phase.Judged? {
      assert w.db.nextToken !in w.db.tokens;
      BodyIsLocal(w.db, config, tx.req, tx.phase.superseded, w.db.nextToken);
    }
  }

  /** One step, as seen from outside: nothing becomes visible before the last one. */
  lemma StepAlone(config: Config, start: Tables, w: World, i: nat)
    requires Inv(config, start, w) && i in w.txs && Quiet(w, i) && HasSession(w.db, w.txs[i].req.presented)
    requires !w.txs[i].phase.Written? && !w.txs[i].phase.Finished?
    ensures var next := Perform(config, w, Proceed(i));
            && Inv(config, start, next) && i in next.txs && Quiet(next, i) && next.txs[i].req == w.txs[i].req
            && SameRows(next.db, w.db) && HasSession(next.db, w.txs[i].req.presented) && next.log == w.log
            && next.txs[i].phase == NextPhase(config, w, i)
            && next.db.nextToken == w.db.nextToken + (if w.txs[i].phase.Judged? then 1 else 0)
  {
    NextLock(config, start, w, i);
    InvMove(config, start, w, Proceed(i));
  }

  /** The error a transaction that has written its rows carries is that of running it whole. */
  lemma WrittenError(config: Config, db: Tables, tx: Tx)
    requires TxOk(config, db, tx) && tx.phase.Written?
    ensures HasSession(Drawing(db, tx.phase.serial), tx.req.presented)
    ensures var answer := InTransaction(Drawing(db, tx.phase.serial), config, tx.req).1;
            tx.phase.err.Plain? <==> !answer.Granted? && answer != AlreadyUsed
  {
    assert Loses(Drawing(db, tx.phase.serial), config, tx.req) == Loses(db, config, tx.req);
    BodyIsLocal(db, config, tx.req, Loses(db, config, tx.req), tx.phase.serial);
  }

  lemma LastStep(config: Config, start: Tables, w: World, i: nat)
    requires Inv(config, start, w) && i in w.txs && w.txs[i].phase.Written?
    ensures HasSession(Drawing(w.db, w.txs[i].phase.serial), w.txs[i].req.presented)
    ensures var tx := w.txs[i];
            var (rows, answer) := InTransaction(Drawing(w.db, tx.phase.serial), config, tx.req);
            var done, next := answer.Granted? || answer == AlreadyUsed, Perform(config, w, Proceed(i));
            && i in next.txs && next.txs[i].phase == Finished(done) && SameRows(next.db, rows)
            && next.log == w.log + if done then [Entry(tx.req, tx.phase.serial)] else []
  {
    var tx := w.txs[i];
    assert TxOk(config, w.db, tx);
    WrittenError(config, w.db, tx);
    if tx.phase.err.Plain? {
      PlainEnd(config, w, i);
      PlainLeavesRows(config, Drawing(w.db, tx.phase.serial), tx.req);
    } else {
      CommitIsAtomic(config, w.db, tx);
      AdvanceCommits(config, w, i);
    }
  }

  lemma PlainEnd(config: Config, w: World, i: nat)
    requires i in w.txs && w.txs[i].phase.Written? && w.txs[i].phase.err.Plain?
    ensures Perform(config, w, Proceed(i)) == World(w.db, w.txs[i := w.txs[i].(phase := Finished(false))], w.log)
  {
  }

  lemma PlainLeavesRows(config: Config, db: Tables, req: Request)
    requires HasSession(db, req.presented)
    ensures var (rows, answer) := InTransaction(db, config, req);
            !answer.Granted? && answer != AlreadyUsed ==> rows == db
  {
  }

  /** Arriving, three locks, writing, and the end. */
  function Undisturbed(i: nat, req: Request): seq<Move> {
    [Arrive(i, req), Proceed(i), Proceed(i), Proceed(i), Proceed(i), Proceed(i)]
  }

  lemma Then(config: Config, w: World, m: Move, ms: seq<Move>)
    requires CanMove(w, m) && Interleaves(config, Perform(config, w, m), ms)
    ensures Interleaves(config, w, [m] + ms) && After(config, w, [m] + ms) == After(config, Perform(config, w, m), ms)
  {
    assert ([m] + ms)[1..] == ms;
  }

  lemma Once(config: Config, w: World, m: Move)
    requires CanMove(w, m)
    ensures Interleaves(config, w, [m]) && After(config, w, [m]) == Perform(config, w, m)
  {
    Then(config, w, m, []);
    assert [m] + [] == [m];
  }

  /** From any world that an interleaving leads to, with no lock held: a request for a stored token runs
      through, commits exactly when it is granted or reports a reused token, and leaves the rows that it leaves when run
      at once on the tables as they are. */
  lemma UndisturbedTransactionsFinish(config: Config, start: Tables, w: World, i: nat, req: Request)
    requires Inv(config, start, w) && i !in w.txs && Quiet(w, i) && HasSession(w.db, req.presented)
    ensures Interleaves(config, w, Undisturbed(i, req))
    ensures HasSession(Drawing(w.db, w.db.nextToken), req.presented)
    ensures var (rows, answer) := InTransaction(Drawing(w.db, w.db.nextToken), config, req);
            var done, end := answer.Granted? || answer == AlreadyUsed, After(config, w, Undisturbed(i, req));
            && i in end.txs && end.txs[i].phase == Finished(done) && SameRows(end.db, rows)
            && end.log == w.log + if done then [Entry(req, w.db.nextToken)] else []
  {
    var w1 := Perform(config, w, Arrive(i, req));
    InvMove(config, start, w, Arrive(i, req));
    var w2, w3, w4, w5 := LocksTaken(config, start, w1, i);
    LastStep(config, start, w5, i);
    assert Drawing(w5.db, w5.txs[i].phase.serial) == Drawing(w.db, w.db.nextToken);
    SixMoves(config, w, i, req, w1, w2, w3, w4, w5);
  }

  lemma SixMoves(config: Config, w: World, i: nat, req: Request, w1: World, w2: World, w3: World, w4: World, w5: World)
    requires i !in w.txs && w1 == Perform(config, w, Arrive(i, req))
    requires i in w1.txs && w2 == Perform(config, w1, Proceed(i))
    requires i in w2.txs && w3 == Perform(config, w2, Proceed(i))
    requires i in w3.txs && w4 == Perform(config, w3, Proceed(i))
    requires i in w4.txs && w5 == Perform(config, w4, Proceed(i)) && i in w5.txs
    ensures Interleaves(config, w, Undisturbed(i, req))
    ensures After(config, w, Undisturbed(i, req)) == Perform(config, w5, Proceed(i))
  {
    var p := Proceed(i);
    var one := [p];
    var two := [p] + one;
    var three := [p] + two;
    var four := [p] + three;
    var five := [p] + four;
    Once(config, w5, p);
    Then(config, w4, p, one);
    Then(config, w3, p, two);
    Then(config, w2, p, three);
    Then(config, w1, p, four);
    Then(config, w, Arrive(i, req), five);
    assert Undisturbed(i, req) == [Arrive(i, req)] + five;
  }

  lemma LocksTaken(config: Config, start: Tables, w1: World, i: nat)
    returns (w2: World, w3: World, w4: World, w5: World)
    requires Inv(config, start, w1) && i in w1.txs && Quiet(w1, i) && w1.txs[i].phase.Arrived?
    requires HasSession(w1.db, w1.txs[i].req.presented)
    ensures w2 == Perform(config, w1, Proceed(i))
    ensures i in w2.txs && w3 == Perform(config, w2, Proceed(i))
    ensures i in w3.txs && w4 == Perform(config, w3, Proceed(i))
    ensures i in w4.txs && w5 == Perform(config, w4, Proceed(i))
    ensures Inv(config, start, w5) && i in w5.txs && w5.txs[i].phase.Written? && w5.txs[i].req == w1.txs[i].req
    ensures w5.txs[i].phase.serial == w1.db.nextToken && SameRows(w5.db, w1.db) && w5.log == w1.log
  {
    var p := Proceed(i);
    w2 := Perform(config, w1, p);
    StepAlone(config, start, w1, i);
    NextLock(config, start, w1, i);
    w3 := Perform(config, w2, p);
    StepAlone(config, start, w2, i);
    NextLock(config, start, w2, i);
    w4 := Perform(config, w3, p);
    StepAlone(config, start, w3, i);
    NextLock(config, start, w3, i);
    w5 := Perform(config, w4, p);
    StepAlone(config, start, w4, i);
    NextLock(config, start, w4, i);
  }

  /** A transaction ends as committed by exactly one kind of move: its own last step, with its rows written and no plain
      error. That move, and no other, adds to the log, and what it adds is that transaction. */
  lemma CommittedExactlyByTheLastStep(config: Config, w: World, m: Move)
    requires CanMove(w, m) && (m.Arrive? || !w.txs[m.i].phase.Finished?)
    ensures var next := Perform(config, w, m);
            var last := m.Proceed? && w.txs[m.i].phase.Written? && !w.txs[m.i].phase.err.Plain?;
            && (next.txs[m.i].phase == Finished(true) <==> last)
            && next.log == w.log + (if last then [Entry(w.txs[m.i].req, w.txs[m.i].phase.serial)] else [])
            && (forall j :: j in w.txs && j != m.i ==> j in next.txs && next.txs[j] == w.txs[j])
  {
  }
}
