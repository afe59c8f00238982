/** The repository: thin wrappers that forward to one shared DAO. */
module Repository {
  import opened Wrappers
  import opened Accounts
  import opened UserStore

  class UserRepository {
    const dao: UserDao

    ghost predicate Valid()
      reads dao
    {
      dao.Valid()
    }

    constructor (dao: UserDao)
      requires dao.Valid()
      ensures this.dao == dao && Valid()
    {
      this.dao := dao;
    }

    /** Same effect and same failure as the DAO's insert. */
    method AddUser(u: User) returns (r: Insertion)
      requires Valid()
      modifies dao
      ensures Valid()
      ensures Insert(old(dao.users), u).Some? ==> r == Inserted && dao.users == Insert(old(dao.users), u).value
      ensures Insert(old(dao.users), u).None? ==> r == DuplicateKey && dao.users == old(dao.users)
    {
      r := dao.InsertUser(u);
    }

    method FindUserByCredentials(email: string, pass: string) returns (r: Option<User>)
      requires Valid()
      ensures r == FindByCredentials(dao.users, email, pass)
    {
      r := dao.FindUserByCredentials(email, pass);
    }

    /** True exactly when some stored row has this e-mail. */
    method IsEmailRegistered(email: string) returns (b: bool)
      requires Valid()
      ensures b <==> FindByEmail(dao.users, email).Some?
      ensures b <==> email in dao.users
    {
      var u := dao.FindUserByEmail(email);
      b := u.Some?;
    }

    /** After a successful add the e-mail reads as registered and a second add with it fails. */
    method AddThenAddAgain(u: User, w: User) returns (first: Insertion, registered: bool, second: Insertion)
      requires Valid()
      requires w.email == u.email
      modifies dao
      ensures Valid()
      ensures first == Inserted ==> registered && second == DuplicateKey
      ensures first == DuplicateKey ==> second == DuplicateKey && dao.users == old(dao.users)
    {
      first := AddUser(u);
      registered := IsEmailRegistered(u.email);
      second := AddUser(w);
      if first == Inserted {
        InsertSameEmailAborts(old(dao.users), u, w);
      }
    }
  }

  /** Two e-mail checks with no insert in between agree, and neither changes the table. */
  method CheckTwice(repo: UserRepository, email: string) returns (first: bool, second: bool)
    requires repo.Valid()
    ensures first == second
    ensures first <==> email in repo.dao.users
  {
    first := repo.IsEmailRegistered(email);
    second := repo.IsEmailRegistered(email);
  }
}
