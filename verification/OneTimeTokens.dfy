/** One-time tokens: every secret that is mailed or texted out lives twice, in a column of the user row
    and in a row of the one_time_tokens table. Links are looked up by row, typed codes by column.

    A hash is a fresh digest, optionally marked with the PKCE prefix. `Store` is the content of the
    two tables as a value; class `Accounts` changes the same content statement by statement. */
module OneTimeTokens {
  import opened Common

  datatype Kind = Confirmation | Reauthentication | Recovery | EmailNew | EmailCurrent | PhoneChange

  /** The sent-at columns; both halves of an email change share one. */
  datatype Slot = ConfirmationSent | ReauthenticationSent | RecoverySent | EmailChangeSent | PhoneChangeSent

  function SlotOf(k: Kind): Slot {
    match k
    case Confirmation => ConfirmationSent
    case Reauthentication => ReauthenticationSent
    case Recovery => RecoverySent
    case EmailNew => EmailChangeSent
    case EmailCurrent => EmailChangeSent
    case PhoneChange => PhoneChangeSent
  }

  datatype Hash = Hash(pkce: bool, digest: nat)

  /** A column that is empty in the database is absent from `columns` (or `sent`). `identity` is the address on the
      user's "email" identity, if there is one. */
  datatype User = User(
    email: string,
    phone: string,
    emailConfirmed: bool,
    phoneConfirmed: bool,
    invited: bool,
    hasPassword: bool,
    columns: map<Kind, Hash>,
    sent: map<Slot, Time>,
    emailChange: string,
    phoneChange: string,
    confirmStatus: nat,
    identity: Option<string>)

  datatype Row = Row(userId: nat, kind: Kind, hash: Hash)

  datatype Store = Store(users: map<nat, User>, rows: map<nat, Row>, nextUser: nat, nextRow: nat, nextDigest: nat)

  const EMPTY := Store(map[], map[], 0, 0, 0)

  function SetUser(db: Store, u: nat, user: User): Store {
    db.(users := db.users[u := user])
  }

  function ClearAll(db: Store, u: nat): Store {
    db.(rows := map r | r in db.rows && db.rows[r].userId != u :: db.rows[r])
  }

  function ClearOne(db: Store, u: nat, k: Kind): Store {
    db.(rows := map r | r in db.rows && !(db.rows[r].userId == u && db.rows[r].kind == k) :: db.rows[r])
  }

  /** Old row of that kind out, new row in. */
  function Create(db: Store, u: nat, k: Kind, h: Hash): Store {
    var cleared := ClearOne(db, u, k);
    cleared.(rows := cleared.rows[db.nextRow := Row(u, k, h)], nextRow := db.nextRow + 1)
  }

  // ----- what confirming does to the user row; each of these also clears all rows of the user

  function Drop(user: User, kinds: set<Kind>): User {
    user.(columns := user.columns - kinds)
  }

  function Confirmed(user: User): User {
    Drop(user, {Confirmation}).(emailConfirmed := true)
  }

  function PhoneConfirmed(user: User): User {
    Drop(user, {Confirmation}).(phoneConfirmed := true)
  }

  function Recovered(user: User): User {
    Drop(user, {Recovery})
  }

  function Reauthenticated(user: User): User {
    Drop(user, {Reauthentication})
  }

  function PasswordUpdated(user: User, hasPassword: bool): User {
    user.(columns := map[], sent := map[], hasPassword := hasPassword)
  }

  function EmailChanged(user: User): User {
    var changed := Drop(user, {EmailCurrent, EmailNew})
      .(email := user.emailChange, emailChange := "", confirmStatus := 0,
        identity := if user.identity.Some? then Some(user.emailChange) else None);
    if changed.emailConfirmed then changed else Confirmed(changed)
  }

  function PhoneChanged(user: User): User {
    Drop(user, {PhoneChange}).(phone := user.phoneChange, phoneChange := "", phoneConfirmed := true)
  }

  function Conclude(db: Store, u: nat, user: User): Store {
    ClearAll(SetUser(db, u, user), u)
  }

  /** Only the last of several confirmations of one user shows. */
  lemma ConcludeTwice(db: Store, u: nat, first: User, second: User)
    ensures Conclude(Conclude(db, u, first), u, second) == Conclude(db, u, second)
    ensures Conclude(SetUser(db, u, first), u, second) == Conclude(db, u, second)
    ensures SetUser(Conclude(db, u, first), u, second) == Conclude(db, u, second)
  {
    assert db.users[u := first][u := second] == db.users[u := second];
    assert ClearAll(ClearAll(db, u), u).rows == ClearAll(db, u).rows;
  }

  // ----- sending

  /** `now` is inside the minimum distance between two messages; for text messages its end still counts. */
  predicate TooSoon(user: User, slot: Slot, byPhone: bool, minDistance: int, now: Time) {
    slot in user.sent && (if byPhone then user.sent[slot] + minDistance >= now else user.sent[slot] + minDistance > now)
  }

  /** A message with one secret: column, sent-at time and row all change together. */
  function Send(db: Store, u: nat, k: Kind, pkce: bool, phone: string, now: Time): Store
    requires u in db.users
  {
    var h := Hash(pkce, db.nextDigest);
    var user := db.users[u].(columns := db.users[u].columns[k := h], sent := db.users[u].sent[SlotOf(k) := now]);
    var named := if k == PhoneChange then user.(phoneChange := phone) else user;
    Create(SetUser(db, u, named), u, k, h).(nextDigest := db.nextDigest + 1)
  }

  function SendInvite(db: Store, u: nat, now: Time): Store
    requires u in db.users
  {
    Send(SetUser(db, u, db.users[u].(invited := true)), u, Confirmation, false, "", now)
  }

  /** The user row once an email change is requested: a secret for the new address and, with secure
      email change and a current address, one for the current address. */
  function ChangeRequested(user: User, email: string, secure: bool, pkce: bool, digest: nat, now: Time): (r: User)
    ensures EmailNew in r.columns
  {
    var cols := if secure && user.email != ""
                then user.columns[EmailNew := Hash(pkce, digest)][EmailCurrent := Hash(pkce, digest + 1)]
                else user.columns[EmailNew := Hash(pkce, digest)];
    user.(emailChange := email, columns := cols, confirmStatus := 0, sent := user.sent[EmailChangeSent := now])
  }

  /** Both columns get their row written again, the one for the current address only when it is set. */
  function WriteChangeRows(db: Store, u: nat): Store
    requires u in db.users && EmailNew in db.users[u].columns
  {
    var cols := db.users[u].columns;
    var first := if EmailCurrent in cols then Create(db, u, EmailCurrent, cols[EmailCurrent]) else db;
    Create(first, u, EmailNew, cols[EmailNew])
  }

  function SendEmailChange(db: Store, u: nat, email: string, secure: bool, pkce: bool, now: Time): Store
    requires u in db.users
  {
    WriteChangeRows(SetUser(db, u, ChangeRequested(db.users[u], email, secure, pkce, db.nextDigest, now))
                      .(nextDigest := db.nextDigest + 2), u)
  }

  function SignUp(db: Store, email: string, phone: string, hasPassword: bool): Store {
    db.(users := db.users[db.nextUser := User(email, phone, false, false, false, hasPassword, map[], map[], "", "", 0,
                                         if email == "" then None else Some(email))],
        nextUser := db.nextUser + 1)
  }

  class Accounts {
    var users: map<nat, User>
    var rows: map<nat, Row>
    var nextUser: nat
    var nextRow: nat
    var nextDigest: nat

    function View(): Store
      reads this
    {
      Store(users, rows, nextUser, nextRow, nextDigest)
    }

    constructor ()
      ensures View() == EMPTY
    {
      users, rows, nextUser, nextRow, nextDigest := map[], map[], 0, 0, 0;
    }

    method ClearAllOneTimeTokensForUser(u: nat)
      modifies this`rows
      ensures View() == ClearAll(old(View()), u)
    {
      rows := map r | r in rows && rows[r].userId != u :: rows[r];
    }

    method ClearOneTimeTokenForUser(u: nat, k: Kind)
      modifies this`rows
      ensures View() == ClearOne(old(View()), u, k)
    {
      rows := map r | r in rows && !(rows[r].userId == u && rows[r].kind == k) :: rows[r];
    }

    method CreateOneTimeToken(u: nat, k: Kind, h: Hash)
      modifies this`rows, this`nextRow
      ensures View() == Create(old(View()), u, k, h)
    {
      ClearOneTimeTokenForUser(u, k);
      rows := rows[nextRow := Row(u, k, h)];
      nextRow := nextRow + 1;
    }

    /** All single-secret messages. The new secret is put into the user value before the message goes out;
        a message that cannot be sent puts the old one back and writes nothing. */
    method SendMessage(u: nat, k: Kind, pkce: bool, byPhone: bool, phone: string, minDistance: int, delivered: bool,
                       now: Time) returns (ok: bool)
      requires u in users && k != EmailNew && k != EmailCurrent
      modifies this
      ensures var sent := old(users)[u].sent;
              ok <==> delivered
                      && (SlotOf(k) in sent ==>
                            now > sent[SlotOf(k)] + minDistance || (now == sent[SlotOf(k)] + minDistance && !byPhone))
      ensures View() == if ok then Send(old(View()), u, k, pkce, phone, now) else old(View())
    {
      var user := users[u];
      if TooSoon(user, SlotOf(k), byPhone, minDistance, now) { return false; }
      var h := Hash(pkce, nextDigest);
      user := user.(columns := user.columns[k := h]);
      if !delivered { return false; }
      nextDigest := nextDigest + 1;
      user := user.(sent := user.sent[SlotOf(k) := now]);
      if k == PhoneChange { user := user.(phoneChange := phone); }
      users := users[u := user];
      CreateOneTimeToken(u, k, h);
      return true;
    }

    /** The user as it is stored once the messages are on their way. */
    method PrepareEmailChange(before: User, email: string, secure: bool, pkce: bool, digest: nat, now: Time)
        returns (user: User)
      ensures user == ChangeRequested(before, email, secure, pkce, digest, now)
    {
      user := before.(emailChange := email, columns := before.columns[EmailNew := Hash(pkce, digest)]);
      if secure && user.email != "" {
        user := user.(columns := user.columns[EmailCurrent := Hash(pkce, digest + 1)]);
      }
      user := user.(confirmStatus := 0);
      user := user.(sent := user.sent[EmailChangeSent := now]);
    }

    method SendEmailChangeMessage(u: nat, email: string, secure: bool, pkce: bool, minDistance: int, delivered: bool,
                                  now: Time)
      returns (ok: bool)
      requires u in users
      modifies this
      ensures var sent := old(users)[u].sent;
              ok <==> delivered && (EmailChangeSent in sent ==> now >= sent[EmailChangeSent] + minDistance)
      ensures View() == if ok then SendEmailChange(old(View()), u, email, secure, pkce, now) else old(View())
    {
      var user := users[u];
      if TooSoon(user, EmailChangeSent, false, minDistance, now) { return false; }
      if !delivered { return false; }
      user := PrepareEmailChange(user, email, secure, pkce, nextDigest, now);
      nextDigest := nextDigest + 2;
      users := users[u := user];
      WriteEmailChangeRows(u);
      return true;
    }

    method WriteEmailChangeRows(u: nat)
      requires u in users && EmailNew in users[u].columns
      modifies this`rows, this`nextRow
      ensures View() == WriteChangeRows(old(View()), u)
    {
      var cols := users[u].columns;
      if EmailCurrent in cols {
        CreateOneTimeToken(u, EmailCurrent, cols[EmailCurrent]);
      }
      CreateOneTimeToken(u, EmailNew, cols[EmailNew]);
    }

    method Confirm(u: nat)
      requires u in users
      modifies this
      ensures View() == Conclude(old(View()), u, Confirmed(old(users)[u]))
    {
      var user := users[u];
      users := users[u := user.(columns := user.columns - {Confirmation}, emailConfirmed := true)];
      ClearAllOneTimeTokensForUser(u);
    }

    method ConfirmPhone(u: nat)
      requires u in users
      modifies this
      ensures View() == Conclude(old(View()), u, PhoneConfirmed(old(users)[u]))
    {
      var user := users[u];
      users := users[u := user.(columns := user.columns - {Confirmation}, phoneConfirmed := true)];
      ClearAllOneTimeTokensForUser(u);
    }

    method Recover(u: nat)
      requires u in users
      modifies this
      ensures View() == Conclude(old(View()), u, Recovered(old(users)[u]))
    {
      var user := users[u];
      users := users[u := user.(columns := user.columns - {Recovery})];
      ClearAllOneTimeTokensForUser(u);
    }

    method ConfirmReauthentication(u: nat)
      requires u in users
      modifies this
      ensures View() == Conclude(old(View()), u, Reauthenticated(old(users)[u]))
    {
      var user := users[u];
      users := users[u := user.(columns := user.columns - {Reauthentication})];
      ClearAllOneTimeTokensForUser(u);
    }

    method UpdatePassword(u: nat, hasPassword: bool)
      requires u in users
      modifies this
      ensures View() == Conclude(old(View()), u, PasswordUpdated(old(users)[u], hasPassword))
    {
      users := users[u := users[u].(columns := map[], sent := map[], hasPassword := hasPassword)];
      ClearAllOneTimeTokensForUser(u);
    }

    method ConfirmEmailChange(u: nat)
      requires u in users
      modifies this
      ensures View() == Conclude(old(View()), u, EmailChanged(old(users)[u]))
    {
      var user := users[u];
      users := users[u := user.(email := user.emailChange, emailChange := "",
                                columns := user.columns - {EmailCurrent, EmailNew}, confirmStatus := 0)];
      ghost var moved := users[u];
      ClearAllOneTimeTokensForUser(u);
      assert View() == Conclude(old(View()), u, moved);
      if !user.emailConfirmed {
        Confirm(u);
        ConcludeTwice(old(View()), u, moved, Confirmed(moved));
        moved := Confirmed(moved);
      }
      if users[u].identity.Some? {
        users := users[u := users[u].(identity := Some(user.emailChange))];
        ConcludeTwice(old(View()), u, moved, users[u]);
      }
    }

    method ConfirmPhoneChange(u: nat)
      requires u in users
      modifies this
      ensures View() == Conclude(old(View()), u, PhoneChanged(old(users)[u]))
    {
      var user := users[u];
      users := users[u := user.(phone := user.phoneChange, phoneChange := "",
                                columns := user.columns - {PhoneChange}, phoneConfirmed := true)];
      ClearAllOneTimeTokensForUser(u);
    }
  }
}
