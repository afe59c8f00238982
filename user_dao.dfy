/**
 * The `users` table behind the DAO: rows keyed by e-mail, an insert that
 * aborts on a duplicate key, and the two `SELECT ... LIMIT 1` lookups.
 */
module UserStore {
  import opened Wrappers
  import opened Accounts

  /** The table as a map from primary key to row. */
  type Table = map<string, User>

  /** Every row is stored under its own e-mail. */
  ghost predicate Keyed(t: Table) {
    forall e :: e in t ==> t[e].email == e
  }

  /** The `WHERE email = :email AND pass = :pass` condition. */
  ghost predicate Matches(u: User, email: string, pass: string) {
    u.email == email && u.pass == pass
  }

  /** Some stored row satisfies the credentials query. */
  ghost predicate HasMatch(t: Table, email: string, pass: string) {
    exists u :: u in t.Values && Matches(u, email, pass)
  }

  /** The outcome of `@Insert(onConflict = ABORT)`. */
  datatype Insertion = Inserted | DuplicateKey

  /** Inserting a row: `None` when a row with the same key exists (the ABORT). */
  function Insert(t: Table, u: User): (r: Option<Table>)
    requires Keyed(t)
    ensures r.None? <==> exists v :: v in t.Values && v.email == u.email
    ensures r.Some? ==> Keyed(r.value)
    ensures r.Some? ==> r.value.Keys == t.Keys + {u.email} && r.value[u.email] == u
    ensures r.Some? ==> forall e :: e in t ==> r.value[e] == t[e]
  {
    if u.email in t then
      assert t[u.email] in t.Values;
      None
    else
      Some(t[u.email := u])
  }

  /** `SELECT * FROM users WHERE email = :email LIMIT 1` */
  function FindByEmail(t: Table, email: string): (r: Option<User>)
    requires Keyed(t)
    ensures r.Some? <==> exists u :: u in t.Values && u.email == email
    ensures r.Some? ==> r.value in t.Values && r.value.email == email
  {
    if email in t then
      assert t[email] in t.Values;
      Some(t[email])
    else
      None
  }

  /** `SELECT * FROM users WHERE email = :email AND pass = :pass LIMIT 1` */
  function FindByCredentials(t: Table, email: string, pass: string): (r: Option<User>)
    requires Keyed(t)
    ensures r.Some? <==> HasMatch(t, email, pass)
    ensures r.Some? ==> r.value in t.Values && Matches(r.value, email, pass)
  {
    if email in t && t[email].pass == pass then
      assert t[email] in t.Values;
      Some(t[email])
    else
      None
  }

  /** The primary key makes e-mails unique: two rows with the same e-mail are the same row. */
  lemma UniqueEmails(t: Table, u: User, v: User)
    requires Keyed(t)
    requires u in t.Values && v in t.Values && u.email == v.email
    ensures u == v
  {
    var ku :| ku in t && t[ku] == u;
    var kv :| kv in t && t[kv] == v;
  }

  /** After a successful insert both lookups return exactly the inserted row, pets included. */
  lemma InsertThenFind(t: Table, u: User)
    requires Keyed(t)
    requires Insert(t, u).Some?
    ensures FindByEmail(Insert(t, u).value, u.email) == Some(u)
    ensures FindByCredentials(Insert(t, u).value, u.email, u.pass) == Some(u)
    ensures FindByCredentials(Insert(t, u).value, u.email, u.pass).value.pets == u.pets
  {
  }

  /** Once a row is in, any second insert with that e-mail aborts. */
  lemma InsertSameEmailAborts(t: Table, u: User, w: User)
    requires Keyed(t)
    requires Insert(t, u).Some?
    requires w.email == u.email
    ensures Insert(Insert(t, u).value, w) == None
  {
    var t' := Insert(t, u).value;
    assert t'[u.email] in t'.Values;
  }

  /** The DAO: the table, changed in place by inserts and read by the queries. */
  class UserDao {
    var users: Table

    ghost predicate Valid()
      reads this
    {
      Keyed(users)
    }

    /** A handle on the table as the database file currently holds it. */
    constructor (users: Table)
      requires Keyed(users)
      ensures Valid() && this.users == users
    {
      this.users := users;
    }

    method InsertUser(u: User) returns (r: Insertion)
      requires Valid()
      modifies this
      ensures Valid()
      ensures Insert(old(users), u).Some? ==> r == Inserted && users == Insert(old(users), u).value
      ensures Insert(old(users), u).None? ==> r == DuplicateKey && users == old(users)
    {
      if u.email in users {
        r := DuplicateKey;
      } else {
        users := users[u.email := u];
        r := Inserted;
      }
    }

    method FindUserByCredentials(email: string, pass: string) returns (r: Option<User>)
      requires Valid()
      ensures r == FindByCredentials(users, email, pass)
    {
      r := FindByCredentials(users, email, pass);
    }

    method FindUserByEmail(email: string) returns (r: Option<User>)
      requires Valid()
      ensures r == FindByEmail(users, email)
    {
      r := FindByEmail(users, email);
    }
  }
}
