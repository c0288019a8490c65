/** The three tables of the back end (User, Product, Category) as values, with the
    enumerations, defaults, row-level validations and hooks their definitions declare. */
module Models {
  import opened Common

  datatype Role = Admin | Merchant | User
  datatype Status = Active | Inactive

  /** The column value of a role. */
  function RoleName(r: Role): string
  {
    match r
    case Admin => "admin"
    case Merchant => "merchant"
    case User => "user"
  }

  /** Reading a role column or a role filter: exactly the three enumerated names are roles. */
  function ParseRole(s: string): (r: Option<Role>)
    ensures r.Some? <==> s in {"admin", "merchant", "user"}
    ensures r.Some? ==> RoleName(r.value) == s
  {
    if s == "admin" then Some(Admin)
    else if s == "merchant" then Some(Merchant)
    else if s == "user" then Some(User)
    else None
  }

  lemma RoleNameRoundTrip(r: Role)
    ensures ParseRole(RoleName(r)) == Some(r)
  {
  }

  function StatusName(s: Status): string
  {
    match s
    case Active => "active"
    case Inactive => "inactive"
  }

  /** Reading a status column: exactly "active" and "inactive" are statuses. */
  function ParseStatus(s: string): (r: Option<Status>)
    ensures r.Some? <==> s in {"active", "inactive"}
    ensures r.Some? ==> StatusName(r.value) == s
  {
    if s == "active" then Some(Active)
    else if s == "inactive" then Some(Inactive)
    else None
  }

  lemma StatusNameRoundTrip(s: Status)
    ensures ParseStatus(StatusName(s)) == Some(s)
  {
  }

  /** Column defaults of the users table. */
  const DefaultRole: Role := User
  const DefaultStatus: Status := Active

  /** A row of the users table; `None` is a NULL column. */
  datatype UserRow = UserRow(id: int, username: string, email: string, password: string,
                             nickname: Option<string>, avatar: Option<string>,
                             role: Role, status: Status)

  /** A user row as it leaves the server: every column but the password. */
  datatype SafeUser = SafeUser(id: int, username: string, email: string,
                               nickname: Option<string>, avatar: Option<string>,
                               role: Role, status: Status)

  function WithPassword(s: SafeUser, password: string): UserRow
  {
    UserRow(s.id, s.username, s.email, password, s.nickname, s.avatar, s.role, s.status)
  }

  /** `toSafeJSON`: the row without its password; putting the password back gives the row,
      so every other column passes through unchanged. */
  function ToSafeJSON(u: UserRow): (s: SafeUser)
    ensures WithPassword(s, u.password) == u
  {
    SafeUser(u.id, u.username, u.email, u.nickname, u.avatar, u.role, u.status)
  }

  /** The projection reveals nothing of the password: rows that differ only there project alike. */
  lemma SafeJSONIgnoresPassword(u: UserRow, p: string)
    ensures ToSafeJSON(u.(password := p)) == ToSafeJSON(u)
  {
  }

  /** The row-level validations of the users table: username of length 3..50 and a password
      of length 6..255, both checked on the value before the hooks run. */
  predicate UserRowValid(u: UserRow)
  {
    3 <= |u.username| <= 50 && 6 <= |u.password| <= 255
  }

  /** The create hook: a non-empty password is replaced by its hash; nothing else changes. */
  function HashOnCreate(u: UserRow, hash: string -> string): (r: UserRow)
    ensures u.password != "" ==> r.password == hash(u.password)
    ensures u.password == "" ==> r == u
    ensures r.(password := u.password) == u
  {
    if u.password != "" then u.(password := hash(u.password)) else u
  }

  /** The update hook: the password is hashed again only when the update changed it. */
  function HashOnUpdate(before: UserRow, after: UserRow, hash: string -> string): (r: UserRow)
    ensures after.password != before.password ==> r.password == hash(after.password)
    ensures r.(password := after.password) == after
  {
    if after.password != before.password then after.(password := hash(after.password)) else after
  }

  /** An update that leaves the password alone stores the row as given: the stored hash is
      not hashed a second time. */
  lemma UpdateKeepsUnchangedHash(before: UserRow, after: UserRow, hash: string -> string)
    requires after.password == before.password
    ensures HashOnUpdate(before, after, hash) == after
  {
  }

  /** A row of the products table. `price` counts hundredths (the column is DECIMAL(10, 2)). */
  datatype Product = Product(id: int, name: string, image: Option<string>, price: int,
                             status: Status, categoryId: int, userId: int)

  /** Row-level validations of the products table: a name of length 1..100 and a price of at least 0. */
  predicate ProductRowValid(p: Product)
  {
    1 <= |p.name| <= 100 && p.price >= 0
  }

  /** A row of the categories table; `sort` defaults to 0. */
  datatype Category = Category(id: int, name: string, description: Option<string>, sort: int, status: Status)

  /** Row-level validation of the categories table: a name of length 1..50. */
  predicate CategoryRowValid(c: Category)
  {
    1 <= |c.name| <= 50
  }
}
