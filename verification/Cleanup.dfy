/** The clean-up job: the statements it runs on the session and token tables, and whose turn it is. */
module Cleanup {
  import opened Common
  import opened Sessions
  import opened RefreshTokens

  /** The two columns of a user row that matter here. */
  datatype Person = Person(anonymous: bool, createdAt: Time)

  /** Statements that reach the two tables, and (as `Elsewhere`) those that do not. */
  datatype Statement =
    | PurgeRevokedTokens
    | RevokeExpiredTokens
    | PurgeExpiredSessions
    | PurgeTimeboxedSessions
    | PurgeInactiveSessions
    | PurgeUnrefreshedSessions
    | PurgeAnonymousUsers
    | Elsewhere(name: string)

  /** An anonymous account the job may delete. */
  predicate Stale(users: map<nat, Person>, u: nat, now: Time) {
    u in users && users[u].anonymous && users[u].createdAt < now - 30 * 24 * HOUR
  }

  /** The row's `where` clause: a row of the table the statement is on, users for `PurgeAnonymousUsers`. */
  predicate Selects(db: Tables, users: map<nat, Person>, config: ValidityConfig, st: Statement, id: nat, now: Time) {
    match st
    case PurgeRevokedTokens =>
      id in db.tokens && db.tokens[id].revoked && db.tokens[id].updatedAt < now - 24 * HOUR
    case RevokeExpiredTokens =>
      && id in db.tokens && !db.tokens[id].revoked
      && db.tokens[id].session.Some? && db.tokens[id].session.value in db.sessions
      && Expired(db.sessions[db.tokens[id].session.value], now - 24 * HOUR)
    case PurgeExpiredSessions =>
      id in db.sessions && Expired(db.sessions[id], now - 72 * HOUR)
    case PurgeTimeboxedSessions =>
      id in db.sessions && config.timebox.Some?
      && db.sessions[id].createdAt + WholeSeconds(config.timebox.value) < now - 24 * HOUR
    case PurgeInactiveSessions =>
      id in db.sessions && config.inactivityTimeout.Some? && db.sessions[id].refreshedAt.Some?
      && db.sessions[id].refreshedAt.value + WholeSeconds(config.inactivityTimeout.value) < now - 24 * HOUR
    case PurgeUnrefreshedSessions =>
      id in db.sessions && config.inactivityTimeout.Some? && db.sessions[id].refreshedAt.None?
      && exists t :: t in db.tokens && db.tokens[t].session == Some(id) && !db.tokens[t].revoked
                     && db.tokens[t].updatedAt + WholeSeconds(config.inactivityTimeout.value) < now - 24 * HOUR
    case PurgeAnonymousUsers => Stale(users, id, now)
    case Elsewhere(_) => false
  }

  predicate Expired(s: Session, cutoff: Time) {
    s.notAfter.Some? && s.notAfter.value < cutoff
  }

  function Limit(st: Statement): nat {
    if st.PurgeExpiredSessions? then 10 else 100
  }

  /** The rows one execution touches: some of the selected ones, up to the limit, skipping locked rows. */
  predicate Picks(db: Tables, users: map<nat, Person>, config: ValidityConfig, st: Statement, ids: set<nat>,
                  now: Time) {
    |ids| <= Limit(st) && forall id :: id in ids ==> Selects(db, users, config, st, id, now)
  }

  function SessionsOf(db: Tables, users: set<nat>): set<nat> {
    set s | s in db.sessions && db.sessions[s].userId in users
  }

  function Execute(db: Tables, st: Statement, ids: set<nat>, now: Time): Tables {
    match st
    case PurgeRevokedTokens => DeleteTokens(db, ids)
    case RevokeExpiredTokens => Revoke(db, ids, now)
    case PurgeAnonymousUsers => DeleteSessions(db, SessionsOf(db, ids)) // by cascade
    case Elsewhere(_) => db
    case _ => DeleteSessions(db, ids)
  }

  // ----- which statements exist, and in which order they run

  function Statements(config: ValidityConfig, anonymousUsers: bool): (sts: seq<Statement>)
    ensures 7 <= |sts| <= 11
  {
    [PurgeRevokedTokens, RevokeExpiredTokens, PurgeExpiredSessions, Elsewhere("saml_relay_states"),
     Elsewhere("flow_state"), Elsewhere("mfa_challenges"), Elsewhere("mfa_factors")]
    + (if anonymousUsers then [PurgeAnonymousUsers] else [])
    + (if config.timebox.Some? then [PurgeTimeboxedSessions] else [])
    + (if config.inactivityTimeout.Some? then [PurgeInactiveSessions, PurgeUnrefreshedSessions] else [])
  }

  const WORD: nat := 0x1_0000_0000

  class Cleaner {
    const config: ValidityConfig
    const statements: seq<Statement>
    var next: nat

    constructor (config: ValidityConfig, anonymousUsers: bool)
      ensures this.config == config && statements == Statements(config, anonymousUsers) && next == 0
    {
      this.config := config;
      statements := Statements(config, anonymousUsers);
      next := 0;
    }

    /** Runs the statement whose turn it is, on rows picked by the database, and reports how many. */
    method Clean(store: TokenStore, users: map<nat, Person>, ids: set<nat>, now: Time) returns (affected: nat)
      requires next < WORD && |statements| > 0
      requires Picks(store.View(), users, config, statements[Turn(next, |statements|)], ids, now)
      modifies this`next, store
      ensures next == (old(next) + 1) % WORD
      ensures store.View() == Execute(old(store.View()), statements[Turn(old(next), |statements|)], ids, now)
      ensures affected == |ids|
    {
      next := (next + 1) % WORD;
      var st := statements[next % |statements|];
      affected := |ids|;
      match st
      case PurgeRevokedTokens =>
        store.tokens := map t | t in store.tokens && t !in ids :: store.tokens[t];
      case RevokeExpiredTokens =>
        store.tokens := map t | t in store.tokens ::
          if t in ids then store.tokens[t].(revoked := true, updatedAt := now) else store.tokens[t];
      case PurgeAnonymousUsers => Cascade(store, set s | s in store.sessions && store.sessions[s].userId in ids);
      case Elsewhere(_) =>
      case _ => Cascade(store, ids);
    }

    method Cascade(store: TokenStore, sessions: set<nat>)
      modifies store
      ensures store.View() == DeleteSessions(old(store.View()), sessions)
    {
      store.sessions := map s | s in store.sessions && s !in sessions :: store.sessions[s];
      store.tokens := map t | t in store.tokens
          && (store.tokens[t].session.Some? ==> store.tokens[t].session.value !in sessions) :: store.tokens[t];
    }
  }

  /** The statement that runs when the 32-bit counter stands at `counter` before the call. */
  function Turn(counter: nat, n: nat): (i: nat)
    requires n > 0
    ensures i < n
  {
    ((counter + 1) % WORD) % n
  }
}
