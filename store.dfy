/**
 * The `users` table: `email` is the primary key, `password` the stored hash.
 * Keying the contents by email gives the table's invariant, at most one
 * record per email, by construction. `online` stands for whether the
 * database binding answers at all; when it does not, every query fails.
 */
module Store {
  import opened Wrappers

  /** The table's rows, as email ↦ stored password. */
  type Users = map<string, string>

  /** One row of the table. */
  datatype UserRow = UserRow(email: string, password: string)

  /** Why a query fails: the store did not answer, or an insert hit the primary key. */
  datatype StoreError = Unavailable | UniqueConstraint

  class Database {
    var users: Users
    var online: bool

    constructor (users: Users, online: bool)
      ensures this.users == users && this.online == online
    {
      this.users := users;
      this.online := online;
    }

    /** `select count() from users where email = ?`. */
    method CountByEmail(email: string) returns (r: Result<nat, StoreError>)
      ensures !online ==> r == Failure(Unavailable)
      ensures online ==> r.Success? && r.value <= 1
      ensures online ==> (r.value == 1 <==> email in users)
    {
      if !online {
        return Failure(Unavailable);
      }
      r := Success(if email in users then 1 else 0);
    }

    /** `select * from users where email = ?`. */
    method SelectByEmail(email: string) returns (r: Result<seq<UserRow>, StoreError>)
      ensures !online ==> r == Failure(Unavailable)
      ensures online ==> r.Success? && |r.value| <= 1
      ensures online ==> (r.value != [] <==> email in users)
      ensures online && email in users ==> r.value == [UserRow(email, users[email])]
    {
      if !online {
        return Failure(Unavailable);
      }
      r := Success(if email in users then [UserRow(email, users[email])] else []);
    }

    /** `insert into users values (?, ?)`, which the primary key refuses for a known email. */
    method Insert(row: UserRow) returns (r: Outcome<StoreError>)
      modifies this
      ensures online == old(online)
      ensures !online ==> r == Fail(Unavailable) && users == old(users)
      ensures online && row.email in old(users) ==> r == Fail(UniqueConstraint) && users == old(users)
      ensures online && row.email !in old(users) ==>
        r == Pass && users == old(users)[row.email := row.password]
    {
      if !online {
        return Fail(Unavailable);
      }
      if row.email in users {
        return Fail(UniqueConstraint);
      }
      users := users[row.email := row.password];
      r := Pass;
    }
  }
}
