/** The middleware each route mounts in front of its handler, and what follows from the
    combination. The user routes all authenticate; list, delete and status toggle also require
    an admin. The category routes and the product routes mount nothing. */
module Routes {
  import opened Common
  import opened Models
  import opened Store
  import opened Validation
  import opened AuthMiddleware
  import opened Http
  import opened AuthController
  import opened ProductController
  import opened UserController
  import opened CategoryController

  /** How a request leaves the middleware chain: admitted with the loaded user, or answered. */
  datatype Admission = Admitted(caller: UserRow) | Refused(status: int, msg: Msg)

  /** `authenticateToken`, followed by `requireAdmin` when `adminOnly`. */
  function Admit(header: Option<string>, verify: string -> Option<int>, users: map<int, UserRow>,
                 adminOnly: bool): (a: Admission)
    ensures a.Admitted? <==>
              AuthenticateToken(header, verify, users).Pass?
              && (adminOnly ==> AuthenticateToken(header, verify, users).user.role == Admin)
    ensures a.Admitted? ==> a.caller == AuthenticateToken(header, verify, users).user && a.caller.status == Active
    ensures AuthenticateToken(header, verify, users).Halt? ==>
              var h := AuthenticateToken(header, verify, users);
              a == Refused(h.status, Denied(h.msg))
    ensures AuthenticateToken(header, verify, users).Pass? && adminOnly
            && AuthenticateToken(header, verify, users).user.role != Admin ==>
              a == Refused(403, Denied(InsufficientRights))
  {
    match AuthenticateToken(header, verify, users)
    case Halt(status, msg) => Refused(status, Denied(msg))
    case Pass(user) =>
      if !adminOnly then Admitted(user)
      else
        RequireAdminIffAdmin(Some(user));
        match RequireAdmin(Some(user))
        case Stop(status, msg) => Refused(status, Denied(msg))
        case Next => Admitted(user)
  }

  /** The header carrying `token` as a bearer token. */
  function BearerHeader(token: string): string
  {
    "Bearer " + token
  }

  /** A token that verifies to an active account admits its holder. */
  lemma TokenAdmits(token: string, verify: string -> Option<int>, users: map<int, UserRow>, id: int)
    requires token != "" && ' ' !in token
    requires verify(token) == Some(id) && id in users && users[id].status == Active
    ensures Admit(Some(BearerHeader(token)), verify, users, false) == Admitted(users[id])
  {
    BearerTokenOf("Bearer", token, None);
    assert "Bearer" + [' '] + token + "" == BearerHeader(token);
  }

  // --- GET /users, DELETE /users/:id, PATCH /users/:id/status: authenticateToken, requireAdmin

  method ListUsersRoute(header: Option<string>, verify: string -> Option<int>, t: Tables, q: UserQuery)
    returns (r: Listing<UserWhere>)
    ensures r.Find? <==> Admit(header, verify, t.users.rows, true).Admitted?
    ensures r.Rejected? ==> Refused(r.status, r.msg) == Admit(header, verify, t.users.rows, true)
  {
    match Admit(header, verify, t.users.rows, true)
    case Refused(status, msg) =>
      r := Rejected(status, msg);
    case Admitted(_) =>
      var spec := GetUsers(q);
      r := Find(spec);
  }

  function DeleteUserRoute(header: Option<string>, verify: string -> Option<int>, t: Tables, id: int): (r: Reply<()>)
    ensures r.status == 200 ==> r.effect == DestroyUser(id)
  {
    match Admit(header, verify, t.users.rows, true)
    case Refused(status, msg) => Refuse(status, msg)
    case Admitted(caller) => DeleteUser(caller, id, t)
  }

  function ToggleUserStatusRoute(header: Option<string>, verify: string -> Option<int>, t: Tables, id: int)
    : (r: Reply<SafeUser>)
    ensures r.status == 200 ==> id in t.users.rows && r.effect.SaveUser? && r.effect.user.status != t.users.rows[id].status
  {
    match Admit(header, verify, t.users.rows, true)
    case Refused(status, msg) => Refuse(status, msg)
    case Admitted(caller) => ToggleUserStatus(caller, id, t)
  }

  /** Only an active admin deletes or toggles an account, and never their own: the self-check
      answers 400 even for an admin, a non-admin is stopped with 403 before it. */
  lemma AdminOnlyAndNeverSelf(header: Option<string>, verify: string -> Option<int>, t: Tables, id: int)
    ensures var a := Admit(header, verify, t.users.rows, true);
            var d, s := DeleteUserRoute(header, verify, t, id), ToggleUserStatusRoute(header, verify, t, id);
            && (d.status == 200 || s.status == 200 ==> a.Admitted? && a.caller.role == Admin && a.caller.id != id)
            && (a.Admitted? && a.caller.id == id && id in t.users.rows ==> d.status == 400 && s.status == 400)
            && (AuthenticateToken(header, verify, t.users.rows).Pass? && a.Refused? ==> d.status == 403 && s.status == 403)
            && (d.status != 200 ==> d.effect.NoEffect?) && (s.status != 200 ==> s.effect.NoEffect?)
  {
  }

  // --- GET /users/:id, PUT /users/:id, PUT /users/:id/password: authenticateToken

  function UpdateUserRoute(header: Option<string>, verify: string -> Option<int>, t: Tables, id: int,
                           body: Body, fm: Formats): (r: Reply<SafeUser>)
    ensures r.status == 200 ==> r.effect.SaveUser?
  {
    match Admit(header, verify, t.users.rows, false)
    case Refused(status, msg) => Refuse(status, msg)
    case Admitted(caller) => UpdateUser(caller, id, body, fm, t)
  }

  function UpdatePasswordRoute(header: Option<string>, verify: string -> Option<int>, t: Tables, id: int,
                               body: Body, fm: Formats, checkPassword: (string, string) -> bool): (r: Reply<()>)
    ensures r.status == 200 ==>
              r.effect.SaveUser? && Admit(header, verify, t.users.rows, false).Admitted?
              && Admit(header, verify, t.users.rows, false).caller.id == id
  {
    match Admit(header, verify, t.users.rows, false)
    case Refused(status, msg) => Refuse(status, msg)
    case Admitted(caller) => UpdatePassword(caller, id, body, fm, t, checkPassword)
  }

  /** Only the account's own active holder changes a password; an admin token for another account
      is refused with 403 once the body is valid and the account exists. */
  lemma PasswordChangeOnlyBySelf(header: Option<string>, verify: string -> Option<int>, t: Tables, id: int,
                                 body: Body, fm: Formats, checkPassword: (string, string) -> bool)
    ensures var a := Admit(header, verify, t.users.rows, false);
            var r := UpdatePasswordRoute(header, verify, t, id, body, fm, checkPassword);
            && (r.status == 200 ==> a.Admitted? && a.caller.id == id)
            && ((a.Admitted? && a.caller.id != id && Validate(UpdatePasswordSchema, body, fm).Valid?
                 && id in t.users.rows) ==> r == Refuse(403, Denied(InsufficientRights)))
  {
  }

  // --- The answers the checks give to the same situation, compared

  /** An account that is not active: its token is refused with 401 by the middleware, while a
      login with its name is refused with 403. */
  lemma InactiveAccountCodes(token: string, verify: string -> Option<int>, t: Tables, id: int,
                             body: Body, fm: Formats, checkPassword: (string, string) -> bool,
                             sign: int -> string)
    requires Consistent(t)
    requires id in t.users.rows && t.users.rows[id].status == Inactive
    requires token != "" && ' ' !in token && verify(token) == Some(id)
    requires Validate(LoginSchema, body, fm).Valid?
    requires FindUser(t.users.rows, Designates(TextOf(Lookup(body, "username")))) == Some(t.users.rows[id])
    ensures AuthenticateToken(Some(BearerHeader(token)), verify, t.users.rows) == Halt(401, AccountUnavailable)
    ensures Login(body, fm, t, checkPassword, sign).status == 403
  {
    InactiveTokenRefused(token, verify, t.users.rows, id);
  }

  lemma InactiveTokenRefused(token: string, verify: string -> Option<int>, users: map<int, UserRow>, id: int)
    requires id in users && users[id].status == Inactive
    requires token != "" && ' ' !in token && verify(token) == Some(id)
    ensures AuthenticateToken(Some(BearerHeader(token)), verify, users) == Halt(401, AccountUnavailable)
  {
    BearerTokenOf("Bearer", token, None);
    assert "Bearer" + [' '] + token + "" == BearerHeader(token);
  }

  /** `DELETE /categories/:id` served against the database: the handler decides on the current
      tables and the database commits the one write it asks for. */
  method DeleteCategoryRequest(db: Db, id: int) returns (r: Reply<()>)
    requires db.Valid()
    modifies db
    ensures db.Valid()
    ensures r == DeleteCategory(id, old(db.tables))
    ensures db.tables == Apply(old(db.tables), r.effect, db.hash)
    ensures db.tables.products == old(db.tables.products)
    ensures r.status == 200 ==> id !in db.tables.categories.rows
  {
    r := DeleteCategory(id, db.tables);
    DeleteCategoryKeepsReferences(id, db.tables, db.hash);
    db.Commit(r.effect);
  }

  /** A missing category: updating it answers 400, deleting it 404. */
  lemma MissingCategoryCodes(id: int, input: CategoryInput, t: Tables)
    requires id !in t.categories.rows
    ensures UpdateCategory(id, input, t).status == 400
    ensures DeleteCategory(id, t).status == 404
  {
  }

  /** Once an admin has disabled an account, that account's token no longer passes the
      middleware, on any route that mounts it. */
  lemma DisabledTokenRefused(adminHeader: Option<string>, token: string, verify: string -> Option<int>,
                             t: Tables, id: int, hash: string -> string)
    requires Consistent(t)
    requires id in t.users.rows && t.users.rows[id].status == Active
    requires token != "" && ' ' !in token && verify(token) == Some(id)
    requires ToggleUserStatusRoute(adminHeader, verify, t, id).status == 200
    ensures var t' := Apply(t, ToggleUserStatusRoute(adminHeader, verify, t, id).effect, hash);
            AuthenticateToken(Some(BearerHeader(token)), verify, t'.users.rows) == Halt(401, AccountUnavailable)
  {
    var r := ToggleUserStatusRoute(adminHeader, verify, t, id);
    var caller := Admit(adminHeader, verify, t.users.rows, true).caller;
    var row := t.users.rows[id];
    assert r.effect == SaveUser(row.(status := Inactive));
    var t' := Apply(t, r.effect, hash);
    UpdateKeepsUnchangedHash(row, row.(status := Inactive), hash);
    assert t'.users.rows[id].status == Inactive;
    InactiveTokenRefused(token, verify, t'.users.rows, id);
  }

  // --- The product routes as mounted: no middleware, so `req.user` is always absent

  /** `PUT /products/:id` as mounted. */
  function UpdateProductAsMounted(id: int, input: ProductInput, t: Tables): Reply<Product>
  {
    UpdateProduct(None, id, input, t)
  }

  /** `DELETE /products/:id` as mounted. */
  function DeleteProductAsMounted(id: int, t: Tables): Reply<Product>
  {
    DeleteProduct(None, id, t)
  }

  /** As mounted, no product is ever updated or deleted: every such request is 401, whoever sends it. */
  lemma ProductWritesAlwaysRefused(id: int, input: ProductInput, t: Tables)
    ensures UpdateProductAsMounted(id, input, t) == Refuse(401, LoginFirst)
    ensures DeleteProductAsMounted(id, t) == Refuse(401, LoginFirst)
  {
  }

  /** `POST /products` as mounted: always 401. */
  method CreateProductAsMounted(input: ProductInput, t: Tables) returns (r: Reply<Product>)
    ensures r == Refuse(401, LoginFirst)
  {
    r := CreateProduct(None, input, t);
  }

  /** `GET /products` as mounted: the caller is always anonymous, so every listing filters by
      `merchant_id` alone and a merchant's listing is not narrowed to their own products. */
  method ListProductsAsMounted(q: ProductQuery) returns (r: Listing<ProductWhere>)
    ensures r.Find? ==> r.spec.where.owner == (if IsTruthyString(q.merchantId) then Some(OwnerParam(q.merchantId.value)) else None)
  {
    r := GetProducts(None, q);
  }

  // --- The product write routes with `authenticateToken` mounted in front

  function UpdateProductRoute(header: Option<string>, verify: string -> Option<int>, t: Tables, id: int,
                              input: ProductInput): (r: Reply<Product>)
    ensures r.status == 200 ==> r.effect.SaveProduct?
  {
    match Admit(header, verify, t.users.rows, false)
    case Refused(status, msg) => Refuse(status, msg)
    case Admitted(caller) => UpdateProduct(Some(caller), id, input, t)
  }

  function DeleteProductRoute(header: Option<string>, verify: string -> Option<int>, t: Tables, id: int)
    : (r: Reply<Product>)
    ensures r.status == 200 ==> r.effect == DestroyProduct(id)
  {
    match Admit(header, verify, t.users.rows, false)
    case Refused(status, msg) => Refuse(status, msg)
    case Admitted(caller) => DeleteProduct(Some(caller), id, t)
  }

  method CreateProductRoute(header: Option<string>, verify: string -> Option<int>, t: Tables, input: ProductInput)
    returns (r: Reply<Product>)
    ensures var a := Admit(header, verify, t.users.rows, false);
            r.status == 201 <==> a.Admitted? && CreateAccepted(a.caller, input, t)
    ensures r.status == 201 ==>
              var a := Admit(header, verify, t.users.rows, false);
              a.Admitted?
              && r.effect == InsertProduct(NewProductRow(input, ChosenOwner(a.caller, input), t.products.next).value)
    ensures r.status == 201 ==>
              var a := Admit(header, verify, t.users.rows, false);
              a.Admitted? && r.effect.InsertProduct? && r.effect.product.userId == ChosenOwner(a.caller, input)
    ensures r.status != 201 ==> r.effect.NoEffect?
  {
    match Admit(header, verify, t.users.rows, false)
    case Refused(status, msg) =>
      r := Refuse(status, msg);
    case Admitted(caller) =>
      r := CreateProduct(Some(caller), input, t);
  }

  /** With the middleware mounted, the owner of a product, or an admin, holding an active
      account's token deletes it, and updates it whenever the patched row is accepted; nobody
      else does either. */
  lemma OwnerOrAdminWrites(token: string, verify: string -> Option<int>, t: Tables, id: int, input: ProductInput)
    requires token != "" && ' ' !in token
    requires id in t.products.rows
    ensures var h := Some(BearerHeader(token));
            var u := DeleteProductRoute(h, verify, t, id);
            && (u.status == 200 <==>
                  && verify(token).Some? && verify(token).value in t.users.rows
                  && var caller := t.users.rows[verify(token).value];
                     caller.status == Active && MayChange(caller, t.products.rows[id]))
            && (UpdateProductRoute(h, verify, t, id, input).status == 200 <==>
                  && verify(token).Some? && verify(token).value in t.users.rows
                  && var caller := t.users.rows[verify(token).value];
                     caller.status == Active && MayChange(caller, t.products.rows[id])
                     && UpdateAccepted(t.products.rows[id], input, t))
  {
    BearerTokenOf("Bearer", token, None);
    assert "Bearer" + [' '] + token + "" == BearerHeader(token);
  }
}
