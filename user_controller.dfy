/** The user handlers behind `authenticateToken`: listing, reading, the self-or-admin profile
    update, the self-only password change, and the delete and status toggle that refuse the
    caller's own account. `caller` is the `req.user` the middleware loaded. */
module UserController {
  import opened Common
  import opened Models
  import opened Store
  import opened Validation
  import opened AuthMiddleware
  import opened Http

  /** The query string of `getUsers`; `page` and `limit` are taken as the numbers they spell. */
  datatype UserQuery = UserQuery(page: Option<int>, limit: Option<int>, search: Option<string>, role: Option<string>)

  /** The `where` object: a substring of username, email or nickname, and a role. */
  datatype UserWhere = UserWhere(search: Option<string>, role: Option<string>)

  /** `getUsers`: filters by search text and by role only when each is non-empty, newest first. */
  method GetUsers(q: UserQuery) returns (spec: FindSpec<UserWhere>)
    ensures spec.where.role.Some? <==> IsTruthyString(q.role)
    ensures spec.where.role.Some? ==> spec.where.role == q.role
    ensures spec.where.search.Some? <==> IsTruthyString(q.search)
    ensures spec.where.search.Some? ==> spec.where.search == q.search
    ensures var page, limit := Default(q.page, 1), Default(q.limit, 10);
            spec.limit == limit && spec.offset == (page - 1) * limit
    ensures spec.sortBy == "created_at" && spec.order == "DESC"
  {
    var page := Default(q.page, 1);
    var limit := Default(q.limit, 10);
    var search := Default(q.search, "");
    var role := Default(q.role, "");
    var offset := Offset(page, limit);

    var where := UserWhere(None, None);
    if search != "" {
      where := where.(search := Some(search));
    }
    if role != "" {
      where := where.(role := Some(role));
    }
    spec := FindSpec(where, "created_at", "DESC", limit, offset);
  }

  /** `getUserById`: 404 for a missing user, otherwise the user without password. */
  function GetUserById(users: map<int, UserRow>, id: int): (r: Reply<SafeUser>)
    ensures r.status == 404 <==> id !in users
    ensures r.status == 200 <==> id in users
    ensures r.status == 200 ==> r.body == Some(ToSafeJSON(users[id]))
    ensures r.effect.NoEffect?
  {
    if id !in users then Refuse(404, UserNotFound)
    else Reply(200, UserFetched, Some(ToSafeJSON(users[id])), NoEffect)
  }

  /** A nullable text column after `update`: absent keeps it, null clears it, a string sets it. */
  function PatchText(column: Option<string>, v: Option<Json>): (r: Option<string>)
    ensures v.None? ==> r == column
    ensures v == Some(Null) ==> r.None?
    ensures v.Some? && v.value.Str? ==> r == Some(v.value.s)
  {
    match v
    case None => column
    case Some(Null) => None
    case Some(Str(s)) => Some(s)
    case Some(_) => column
  }

  /** `user.update(value)` with a value the update schema admitted: nickname, avatar and role
      as supplied; every other column, the password included, as it was. */
  function ApplyProfile(u: UserRow, value: Body): (r: UserRow)
    ensures r.id == u.id && r.username == u.username && r.email == u.email
    ensures r.password == u.password && r.status == u.status
    ensures r.nickname == PatchText(u.nickname, Lookup(value, "nickname"))
    ensures r.avatar == PatchText(u.avatar, Lookup(value, "avatar"))
    ensures var role := Lookup(value, "role");
            r.role == (if role.Some? && role.value.Str? && ParseRole(role.value.s).Some?
                       then ParseRole(role.value.s).value else u.role)
  {
    var role := Lookup(value, "role");
    u.(nickname := PatchText(u.nickname, Lookup(value, "nickname")),
       avatar := PatchText(u.avatar, Lookup(value, "avatar")),
       role := if role.Some? && role.value.Str? && ParseRole(role.value.s).Some?
               then ParseRole(role.value.s).value else u.role)
  }

  /** The profile-update guard: the caller's own account, or any account for an admin. */
  predicate MayEditProfile(caller: UserRow, id: int)
  {
    caller.id == id || caller.role == Admin
  }

  /** `updateUser`: 400 with every validation error, then 404, then 403 unless the caller edits
      their own account or is an admin; otherwise 200 saving the validated value as it is. */
  function UpdateUser(caller: UserRow, id: int, body: Body, fm: Formats, t: Tables): (r: Reply<SafeUser>)
    ensures Validate(UpdateUserSchema, body, fm).Invalid? ==>
              r == Refuse(400, ValidationFailed(Validate(UpdateUserSchema, body, fm).errors))
    ensures Validate(UpdateUserSchema, body, fm).Valid? ==>
              && (r.status == 404 <==> id !in t.users.rows)
              && (r.status == 403 <==> id in t.users.rows && !MayEditProfile(caller, id))
              && (r.status == 200 <==> id in t.users.rows && MayEditProfile(caller, id))
    ensures r.status == 200 ==>
              && id in t.users.rows
              && r.effect == SaveUser(ApplyProfile(t.users.rows[id], body))
              && r.body == Some(ToSafeJSON(r.effect.user))
    ensures r.status != 200 ==> r.effect.NoEffect?
  {
    match Validate(UpdateUserSchema, body, fm)
    case Invalid(errors) => Refuse(400, ValidationFailed(errors))
    case Valid(value) =>
      if id !in t.users.rows then Refuse(404, UserNotFound)
      else if !MayEditProfile(caller, id) then Refuse(403, Denied(InsufficientRights))
      else
        var saved := ApplyProfile(t.users.rows[id], value);
        Reply(200, UserUpdated, Some(ToSafeJSON(saved)), SaveUser(saved))
  }

  /** Nothing stops a plain user from making their own account an admin. */
  lemma SelfPromotion(caller: UserRow, fm: Formats, t: Tables)
    requires caller.id in t.users.rows
    ensures var r := UpdateUser(caller, caller.id, [("role", Str("admin"))], fm, t);
            r.status == 200 && r.effect.user.role == Admin
  {
    var body: Body := [("role", Str("admin"))];
    UpdateUserSchemaAdmits(body, fm);
    assert Lookup(body, "role") == Some(Str("admin"));
    assert Lookup(body, "nickname").None? && Lookup(body, "avatar").None?;
    assert UpdateUserAdmits(body, fm);
  }

  /** `updateUser` with the role guarded: a caller who is not an admin may not send `role`,
      and is refused with 403 when they do; everything else is as `updateUser`. */
  function UpdateUserGuarded(caller: UserRow, id: int, body: Body, fm: Formats, t: Tables): (r: Reply<SafeUser>)
    ensures caller.role != Admin && Validate(UpdateUserSchema, body, fm).Valid? && id in t.users.rows
            && MayEditProfile(caller, id) && Lookup(body, "role").Some? ==>
              r == Refuse(403, Denied(InsufficientRights))
    ensures caller.role == Admin || Lookup(body, "role").None? ==> r == UpdateUser(caller, id, body, fm, t)
    ensures r.status == 200 && caller.role != Admin ==>
              id in t.users.rows && r.effect.SaveUser? && r.effect.user.role == t.users.rows[id].role
  {
    var r := UpdateUser(caller, id, body, fm, t);
    if r.status == 200 && caller.role != Admin && Lookup(body, "role").Some? then
      Refuse(403, Denied(InsufficientRights))
    else r
  }

  /** With the guard, nobody but an admin changes a role: the self-promotion above is refused. */
  lemma NoSelfPromotion(caller: UserRow, fm: Formats, t: Tables)
    requires caller.id in t.users.rows && caller.role != Admin
    ensures UpdateUserGuarded(caller, caller.id, [("role", Str("admin"))], fm, t) == Refuse(403, Denied(InsufficientRights))
  {
    SelfPromotion(caller, fm, t);
  }

  /** An accepted profile update is a write the database accepts, and it leaves the stored
      password hash as it was. */
  lemma UpdateUserAdmissible(caller: UserRow, id: int, body: Body, fm: Formats, t: Tables, hash: string -> string)
    requires Consistent(t)
    ensures var r := UpdateUser(caller, id, body, fm, t);
            && Admissible(t, r.effect)
            && (r.status == 200 ==> Apply(t, r.effect, hash).users.rows[id] == r.effect.user
                                    && r.effect.user.password == t.users.rows[id].password)
  {
    var r := UpdateUser(caller, id, body, fm, t);
    if r.status == 200 {
      var u := r.effect.user;
      UpdateKeepsUnchangedHash(t.users.rows[id], u, hash);
    }
  }

  /** `updatePassword`: 400 with every validation error, then 404, then 403 unless the caller is
      the account's own user (no admin override), then 400 when `checkPassword` rejects the old
      password, which leaves the row alone; otherwise 200 saving the new password. */
  function UpdatePassword(caller: UserRow, id: int, body: Body, fm: Formats, t: Tables,
                          checkPassword: (string, string) -> bool): (r: Reply<()>)
    ensures Validate(UpdatePasswordSchema, body, fm).Invalid? ==>
              r == Refuse(400, ValidationFailed(Validate(UpdatePasswordSchema, body, fm).errors))
    ensures Validate(UpdatePasswordSchema, body, fm).Valid? ==>
              && (r.status == 404 <==> id !in t.users.rows)
              && (r.status == 403 <==> id in t.users.rows && caller.id != id)
              && (id in t.users.rows && caller.id == id ==>
                    if checkPassword(TextOf(Lookup(body, "oldPassword")), t.users.rows[id].password)
                    then r == Reply(200, PasswordUpdated, None,
                                    SaveUser(t.users.rows[id].(password := TextOf(Lookup(body, "newPassword")))))
                    else r == Refuse(400, WrongOldPassword))
    ensures r.status != 200 ==> r.effect.NoEffect?
  {
    match Validate(UpdatePasswordSchema, body, fm)
    case Invalid(errors) => Refuse(400, ValidationFailed(errors))
    case Valid(value) =>
      if id !in t.users.rows then Refuse(404, UserNotFound)
      else if caller.id != id then Refuse(403, Denied(InsufficientRights))
      else if !checkPassword(TextOf(Lookup(value, "oldPassword")), t.users.rows[id].password) then
        Refuse(400, WrongOldPassword)
      else
        Reply(200, PasswordUpdated, None,
              SaveUser(t.users.rows[id].(password := TextOf(Lookup(value, "newPassword")))))
  }

  /** A committed password change stores the hash of the new password (it differs from the
      stored hash) and changes no other column. */
  lemma PasswordChangeStoresHash(caller: UserRow, id: int, body: Body, fm: Formats, t: Tables,
                                 checkPassword: (string, string) -> bool, hash: string -> string)
    requires Consistent(t)
    requires UpdatePassword(caller, id, body, fm, t, checkPassword).status == 200
    requires TextOf(Lookup(body, "newPassword")) != t.users.rows[id].password
    ensures var r := UpdatePassword(caller, id, body, fm, t, checkPassword);
            && Admissible(t, r.effect)
            && var stored := Apply(t, r.effect, hash).users.rows[id];
               stored == t.users.rows[id].(password := hash(TextOf(Lookup(body, "newPassword"))))
  {
  }

  /** `deleteUser` (behind `requireAdmin`): 404, then 400 when the account is the caller's own,
      which destroys nothing even for an admin; otherwise 200 destroying the row. */
  function DeleteUser(caller: UserRow, id: int, t: Tables): (r: Reply<()>)
    ensures r.status == 404 <==> id !in t.users.rows
    ensures r.status == 400 <==> id in t.users.rows && caller.id == id
    ensures r.status == 200 <==> id in t.users.rows && caller.id != id
    ensures r.status == 200 ==> r.effect == DestroyUser(id) && Admissible(t, r.effect)
    ensures r.status != 200 ==> r.effect.NoEffect?
  {
    if id !in t.users.rows then Refuse(404, UserNotFound)
    else if caller.id == id then Refuse(400, CannotDeleteSelf)
    else Reply(200, UserDeleted, None, DestroyUser(id))
  }

  function Flip(s: Status): (f: Status)
    ensures f != s
  {
    if s == Active then Inactive else Active
  }

  /** `toggleUserStatus` (behind `requireAdmin`): 404, then 400 for the caller's own account,
      otherwise 200 saving the row with the other status and answering it without password. */
  function ToggleUserStatus(caller: UserRow, id: int, t: Tables): (r: Reply<SafeUser>)
    ensures r.status == 404 <==> id !in t.users.rows
    ensures r.status == 400 <==> id in t.users.rows && caller.id == id
    ensures r.status == 200 <==> id in t.users.rows && caller.id != id
    ensures r.status == 200 ==>
              && r.effect == SaveUser(t.users.rows[id].(status := Flip(t.users.rows[id].status)))
              && r.msg == StatusToggled(r.effect.user.status)
              && r.body == Some(ToSafeJSON(r.effect.user))
    ensures r.status != 200 ==> r.effect.NoEffect?
  {
    if id !in t.users.rows then Refuse(404, UserNotFound)
    else if caller.id == id then Refuse(400, CannotDisableSelf)
    else
      var row := t.users.rows[id];
      var toggled := row.(status := Flip(row.status));
      Reply(200, StatusToggled(toggled.status), Some(ToSafeJSON(toggled)), SaveUser(toggled))
  }

  /** Toggling the same account twice restores the users table. */
  lemma ToggleTwiceRestores(caller: UserRow, id: int, t: Tables, hash: string -> string)
    requires Consistent(t)
    requires id in t.users.rows && caller.id != id
    ensures var t1 := Apply(t, ToggleUserStatus(caller, id, t).effect, hash);
            var t2 := Apply(t1, ToggleUserStatus(caller, id, t1).effect, hash);
            t2 == t
  {
    var row := t.users.rows[id];
    var t1 := Apply(t, ToggleUserStatus(caller, id, t).effect, hash);
    UpdateKeepsUnchangedHash(row, row.(status := Flip(row.status)), hash);
    assert t1.users.rows[id] == row.(status := Flip(row.status));
    var t2 := Apply(t1, ToggleUserStatus(caller, id, t1).effect, hash);
    UpdateKeepsUnchangedHash(t1.users.rows[id], row, hash);
    assert t2.users.rows[id] == row;
    assert t2.users.rows == t.users.rows;
  }
}
