/**
 * The `users` table: record shape, the `role` enum validator and its default,
 * the non-null columns and the unique `email` constraint.
 */
module UserModel {
  import opened Wrappers

  datatype Role = Admin | Staff | Customer

  function RoleName(role: Role): string {
    match role
    case Admin => "admin"
    case Staff => "staff"
    case Customer => "customer"
  }

  /** The `isIn` validator of the `role` column. */
  function ParseRole(s: string): (r: Option<Role>)
    ensures r.Some? ==> RoleName(r.value) == s
    ensures r.None? ==> forall role: Role :: RoleName(role) != s
  {
    if s == "admin" then Some(Admin)
    else if s == "staff" then Some(Staff)
    else if s == "customer" then Some(Customer)
    else None
  }

  datatype User = User(id: int, email: string, password: string, role: Role, fullName: string)

  /** Attributes handed to `User.create`; `None` is an attribute left out. */
  datatype UserRow = UserRow(email: Option<string>, password: Option<string>, role: Option<string>, fullName: Option<string>)

  /** Violated columns of a row, in column order. */
  function Violations(row: UserRow): (v: seq<string>)
    ensures v == [] <==>
      row.email.Some? && row.password.Some? && row.fullName.Some?
      && (row.role.None? || ParseRole(row.role.value).Some?)
  {
    (if row.email.None? then ["email"] else [])
    + (if row.password.None? then ["password"] else [])
    + (if row.role.Some? && ParseRole(row.role.value).None? then ["role"] else [])
    + (if row.fullName.None? then ["fullName"] else [])
  }

  datatype CreateError = ValidationError(columns: seq<string>) | UniqueConstraintError(column: string)

  datatype CreateResult = Created(user: User) | Rejected(error: CreateError)

  predicate EmailTaken(users: seq<User>, email: string) {
    exists i :: 0 <= i < |users| && users[i].email == email
  }

  class UserTable {
    var users: seq<User>
    var nextId: int

    /** Ids are auto-increment (increasing, below `nextId`); no two users share an email. */
    ghost predicate Valid()
      reads this
    {
      && nextId >= 1
      && (forall i :: 0 <= i < |users| ==> 0 < users[i].id < nextId)
      && (forall i, j :: 0 <= i < j < |users| ==> users[i].id < users[j].id)
      && (forall i, j :: 0 <= i < j < |users| ==> users[i].email != users[j].email)
    }

    constructor ()
      ensures Valid() && users == [] && nextId == 1
    {
      users := [];
      nextId := 1;
    }

    /**
     * `User.create(row)`: validation first (non-null columns, role enum, role
     * defaulting to `customer`), then the unique index on `email`.
     */
    method Create(row: UserRow) returns (r: CreateResult)
      requires Valid()
      modifies this
      ensures Valid()
      ensures Violations(row) != [] ==>
        r == Rejected(ValidationError(Violations(row))) && users == old(users) && nextId == old(nextId)
      ensures Violations(row) == [] && EmailTaken(old(users), row.email.value) ==>
        r == Rejected(UniqueConstraintError("email")) && users == old(users) && nextId == old(nextId)
      ensures Violations(row) == [] && !EmailTaken(old(users), row.email.value) ==>
        && r.Created?
        && r.user == User(old(nextId), row.email.value, row.password.value,
                          if row.role.None? then Customer else ParseRole(row.role.value).value,
                          row.fullName.value)
        && users == old(users) + [r.user] && nextId == old(nextId) + 1
    {
      var v := Violations(row);
      if v != [] {
        return Rejected(ValidationError(v));
      }
      if EmailTaken(users, row.email.value) {
        return Rejected(UniqueConstraintError("email"));
      }
      var role := if row.role.None? then Customer else ParseRole(row.role.value).value;
      var user := User(nextId, row.email.value, row.password.value, role, row.fullName.value);
      users := users + [user];
      nextId := nextId + 1;
      r := Created(user);
    }
  }
}
