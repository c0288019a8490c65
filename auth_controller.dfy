/** `register` and `login`: early-return decision chains over the users table. */
module AuthController {
  import opened Common
  import opened Models
  import opened Store
  import opened Validation
  import opened Http

  /** What a successful registration or login sends back: the user without password, and a token. */
  type Session = (SafeUser, string)

  /** The row `register` creates from a validated body: `nickname || username`, default role
      and status, no avatar, the next key. */
  function NewUserRow(value: Body, next: int): UserRow
  {
    var username := TextOf(Lookup(value, "username"));
    var nickname := TextOf(Lookup(value, "nickname"));
    UserRow(next, username, TextOf(Lookup(value, "email")), TextOf(Lookup(value, "password")),
            Some(if nickname != "" then nickname else username), None, DefaultRole, DefaultStatus)
  }

  /** The rows a registration collides with: the same username or the same email. */
  function Clashes(username: string, email: string): UserRow -> bool
  {
    (u: UserRow) => u.username == username || u.email == email
  }

  /** `register`: 400 with every validation error; 400 naming the username when the colliding
      row has it, else naming the email; otherwise 201 creating the row and answering it without
      its password and with the token `sign` issues for its key. */
  function Register(body: Body, fm: Formats, t: Tables, sign: int -> string): (r: Reply<Session>)
    requires Consistent(t)
    ensures Validate(RegisterSchema, body, fm).Invalid? ==>
              r == Refuse(400, ValidationFailed(Validate(RegisterSchema, body, fm).errors))
    ensures r.status == 201 <==>
              Validate(RegisterSchema, body, fm).Valid?
              && FindUser(t.users.rows, Clashes(TextOf(Lookup(body, "username")), TextOf(Lookup(body, "email")))).None?
    ensures r.status == 201 ==>
              && r.effect == InsertUser(NewUserRow(body, t.users.next))
              && r.body == Some((ToSafeJSON(r.effect.user), sign(t.users.next)))
    ensures Validate(RegisterSchema, body, fm).Valid? ==>
              var username := TextOf(Lookup(body, "username"));
              var found := FindUser(t.users.rows, Clashes(username, TextOf(Lookup(body, "email"))));
              found.Some? ==>
                r == Refuse(400, AlreadyUsed(if found.value.username == username then UsernameField else EmailField))
    ensures r.status != 201 ==> r.status == 400 && r.effect.NoEffect?
  {
    match Validate(RegisterSchema, body, fm)
    case Invalid(errors) => Refuse(400, ValidationFailed(errors))
    case Valid(value) =>
      var username, email := TextOf(Lookup(value, "username")), TextOf(Lookup(value, "email"));
      match FindUser(t.users.rows, Clashes(username, email))
      case Some(existing) =>
        Refuse(400, AlreadyUsed(if existing.username == username then UsernameField else EmailField))
      case None =>
        var row := NewUserRow(value, t.users.next);
        Reply(201, Registered, Some((ToSafeJSON(row), sign(row.id))), InsertUser(row))
  }

  /** A rejected body is answered before the users table is looked at. */
  lemma RegisterValidatesFirst(body: Body, fm: Formats, t1: Tables, t2: Tables, sign: int -> string)
    requires Consistent(t1) && Consistent(t2)
    requires Validate(RegisterSchema, body, fm).Invalid?
    ensures Register(body, fm, t1, sign) == Register(body, fm, t2, sign)
  {
  }

  /** When a single row collides, the message names the username if that row holds it, and
      the email otherwise. */
  lemma RegisterConflictField(body: Body, fm: Formats, t: Tables, sign: int -> string, id: int)
    requires Consistent(t)
    requires Validate(RegisterSchema, body, fm).Valid?
    requires id in t.users.rows
    ensures var username, email := TextOf(Lookup(body, "username")), TextOf(Lookup(body, "email"));
            var field := if t.users.rows[id].username == username then UsernameField else EmailField;
            t.users.rows[id].username == username || t.users.rows[id].email == email ==>
              (forall k :: k in t.users.rows && k != id ==> !Clashes(username, email)(t.users.rows[k])) ==>
                Register(body, fm, t, sign) == Refuse(400, AlreadyUsed(field))
  {
    var username, email := TextOf(Lookup(body, "username")), TextOf(Lookup(body, "email"));
    if Clashes(username, email)(t.users.rows[id]) &&
       forall k :: k in t.users.rows && k != id ==> !Clashes(username, email)(t.users.rows[k]) {
      OnlyClash(t.users.rows, Clashes(username, email), id);
    }
  }

  /** When one row alone matches, `findOne` returns it. */
  lemma OnlyClash(users: map<int, UserRow>, matches: UserRow -> bool, id: int)
    requires forall k :: k in users ==> users[k].id == k
    requires id in users && matches(users[id])
    requires forall k :: k in users && k != id ==> !matches(users[k])
    ensures FindUser(users, matches) == Some(users[id])
  {
    var found := FindUser(users, matches);
    assert found.value.id in users && users[found.value.id] == found.value;
  }

  /** The nickname defaults to the username when absent or empty. */
  lemma NicknameDefault(body: Body, next: int)
    ensures var n := TextOf(Lookup(body, "nickname"));
            NewUserRow(body, next).nickname == Some(if n == "" then TextOf(Lookup(body, "username")) else n)
  {
  }

  /** A registration the handler accepts is a write the database accepts: the validated username
      and password meet the row validations and no existing row holds either login. */
  lemma RegisterAdmissible(body: Body, fm: Formats, t: Tables, sign: int -> string)
    requires Consistent(t)
    ensures Admissible(t, Register(body, fm, t, sign).effect)
  {
    var r := Register(body, fm, t, sign);
    if r.status == 201 {
      RegisterSchemaAdmits(body, fm);
      var u := r.effect.user;
      assert RegisterAdmits(body, fm);
      assert UserRowValid(u);
      var found := FindUser(t.users.rows, Clashes(u.username, u.email));
      forall id | id in t.users.rows && id != u.id
        ensures t.users.rows[id].username != u.username && t.users.rows[id].email != u.email
      {
        assert !Clashes(u.username, u.email)(t.users.rows[id]);
      }
    }
  }

  /** The rows a login name designates: the username, or the email, equals it. */
  function Designates(name: string): UserRow -> bool
  {
    (u: UserRow) => u.username == name || u.email == name
  }

  /** `login`: 400 with every validation error; then 401 when no row is designated; then 403 when
      that row is not active, before the password is checked; then 401, with the same message
      as before, when `checkPassword` rejects the password; otherwise 200 with the row without its
      password and the token `sign` issues. Login writes nothing. */
  function Login(body: Body, fm: Formats, t: Tables, checkPassword: (string, string) -> bool,
                 sign: int -> string): (r: Reply<Session>)
    requires Consistent(t)
    ensures r.effect.NoEffect?
    ensures Validate(LoginSchema, body, fm).Invalid? ==>
              r == Refuse(400, ValidationFailed(Validate(LoginSchema, body, fm).errors))
    ensures Validate(LoginSchema, body, fm).Valid? ==>
              var found := FindUser(t.users.rows, Designates(TextOf(Lookup(body, "username"))));
              && (found.None? ==> r == Refuse(401, BadCredentials))
              && (found.Some? && found.value.status != Active ==> r == Refuse(403, AccountDisabled))
              && (found.Some? && found.value.status == Active ==>
                    if checkPassword(TextOf(Lookup(body, "password")), found.value.password)
                    then r == Reply(200, LoggedIn, Some((ToSafeJSON(found.value), sign(found.value.id))), NoEffect)
                    else r == Refuse(401, BadCredentials))
  {
    match Validate(LoginSchema, body, fm)
    case Invalid(errors) => Refuse(400, ValidationFailed(errors))
    case Valid(value) =>
      var name, password := TextOf(Lookup(value, "username")), TextOf(Lookup(value, "password"));
      match FindUser(t.users.rows, Designates(name))
      case None => Refuse(401, BadCredentials)
      case Some(user) =>
        if user.status != Active then Refuse(403, AccountDisabled)
        else if !checkPassword(password, user.password) then Refuse(401, BadCredentials)
        else Reply(200, LoggedIn, Some((ToSafeJSON(user), sign(user.id))), NoEffect)
  }

  /** Login succeeds exactly when the body is admitted and the row the login name designates
      (its username or its email) is active and its password checks. */
  lemma LoginSucceedsIff(body: Body, fm: Formats, t: Tables, checkPassword: (string, string) -> bool,
                         sign: int -> string)
    requires Consistent(t)
    ensures var found := FindUser(t.users.rows, Designates(TextOf(Lookup(body, "username"))));
            Login(body, fm, t, checkPassword, sign).status == 200 <==>
              && LoginAdmits(body)
              && found.Some? && found.value.status == Active
              && checkPassword(TextOf(Lookup(body, "password")), found.value.password)
  {
    LoginSchemaAdmits(body, fm);
  }

  /** An inactive account is refused with 403 whatever password is offered. */
  lemma InactiveLoginIgnoresPassword(body: Body, fm: Formats, t: Tables,
                                     check1: (string, string) -> bool, check2: (string, string) -> bool,
                                     sign: int -> string)
    requires Consistent(t)
    requires Validate(LoginSchema, body, fm).Valid?
    requires var found := FindUser(t.users.rows, Designates(TextOf(Lookup(body, "username"))));
             found.Some? && found.value.status == Inactive
    ensures Login(body, fm, t, check1, sign) == Login(body, fm, t, check2, sign) == Refuse(403, AccountDisabled)
  {
  }
}
