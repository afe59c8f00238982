/** The persisted entities: a user account with its embedded, ordered pets. */
module Accounts {
  import opened Wrappers

  datatype Pet = Pet(name: string, petType: string)

  /** One row of the `users` table; `email` is the primary key. */
  datatype User = User(
    fullName: string,
    email: string,
    phone: Option<string>,
    pass: string,
    pets: seq<Pet>)
}
