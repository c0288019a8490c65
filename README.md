# Access decisions and request validation of an Express/Sequelize admin back end

This project models the part of a small user/product/category admin system that decides who may do what. That part has five pieces:

- **JWT middleware.** `authenticateToken` reads the bearer token, loads the user and refuses inactive accounts. `requireRole`/`requireAdmin` check the role.
- **Joi request schemas.** There is one each for register, login, profile update and password change, plus the `validate` helper that gathers every error.
- **Handlers.** The auth, user, product and category handlers are early-return chains. Each one ends in an HTTP status, a message and at most one database write.
- **Database invariants.** These are the unique logins, the unique category names, the foreign key from products to categories, and the password-hashing hooks.
- **Front-end auth.** The Pinia auth store and the router guard that redirects before every navigation.

Each handler is a decision function. It returns a `Reply`: a status, a `Msg` naming the message, an optional payload, and an `Effect`, which is the one write the request performs. `Store.Apply` performs that write together with the user hooks. `Store.Db.Commit` is the only way the tables change. It accepts only an `Admissible` effect and keeps `Consistent` (unique logins, unique category names, keys, foreign key). The handlers that build a value step by step are methods that reassign locals as the source does: the listing filters and the owner choice of `createProduct`. The front-end store is a class whose actions update its fields. Each action is specified by a function on the store's state.

Things outside the code are function parameters:

- `verify` is the JWT signature check and yields the `userId` a token carries.
- `sign` issues a token.
- `hash` is bcrypt.
- `checkPassword` is `validatePassword`.
- `Formats` holds Joi's email and URI grammars.
- `profile` and `response` are the answers of the front end's API calls.

## Model

| member | source | states |
|---|---|---|
| AuthMiddleware.BearerToken | backend/src/middleware/auth.js:7-8 | a token is only ever the non-empty, space-free second piece of a header that holds a space |
| AuthMiddleware.BearerTokenOf | backend/src/middleware/auth.js:7-8 | `Bearer <token>`, with or without further pieces, yields exactly that token |
| AuthMiddleware.BearerTokenNeedsSpace | backend/src/middleware/auth.js:8-15 | a header without a space (a bare token) yields no token, hence 401 |
| AuthMiddleware.BearerTokenNeedsPiece | backend/src/middleware/auth.js:7-15 | a header whose second space-separated piece is empty (`"Bearer "`, or a double space before the token) yields no token, hence 401 |
| AuthMiddleware.AuthenticateToken | backend/src/middleware/auth.js:5-35 | no token 401; a token that does not verify 403; passes iff the verified id names an active user, and then with that user; every other halt is 401 |
| AuthMiddleware.InactiveNeverPasses | backend/src/middleware/auth.js:20-25 | whoever passes the middleware is active |
| AuthMiddleware.RequireRole | backend/src/middleware/auth.js:38-56 | next iff a user is present and its role is listed; no user 401; unlisted role 403 |
| AuthMiddleware.RequireAdminIffAdmin | backend/src/middleware/auth.js:59 | `requireAdmin` passes exactly the admins and answers 403 to every other user |
| AuthMiddleware.Request.constructor | backend/src/middleware/auth.js:5-35 | a fresh request has no user, no response and `next` not yet called |
| AuthMiddleware.Request.Authenticate | backend/src/middleware/auth.js:27-28 | on success `req.user` is the loaded user and `next` runs once; otherwise the response is sent and `next` does not run |
| AuthMiddleware.Request.RequireRoles | backend/src/middleware/auth.js:38-56 | `req.user` is untouched; `next` runs once exactly when the role gate passes, otherwise the gate's status is sent |
| Validation.Lookup | backend/src/utils/validation.js:99-100 | a key is absent exactly when no field carries it; a present value is that of the last field carrying the key, as `JSON.parse` keeps the last of repeated keys |
| Validation.RuleErrors | backend/src/utils/validation.js:100 | with `abortEarly: false` every rule is tried: the code of every failing rule is reported, and every reported code is that of a failing rule |
| Validation.UsernameReportsEveryFailure | backend/src/utils/validation.js:5-15 | the username "a!" is reported both for its pattern and for its length, in chain order |
| Validation.Validate | backend/src/utils/validation.js:99-111 | valid iff the library reports nothing, and then the value is the body; otherwise one error per detail and at least one |
| Validation.TextOf | backend/src/utils/validation.js:110 | the string a validated key holds; "" when absent |
| Validation.ReportsEveryKeyError | backend/src/utils/validation.js:100-107 | every code any declared key reports appears in `errors` under that key's name |
| Validation.ReportsEveryUnknownKey | backend/src/utils/validation.js:100-107 | every undeclared key of the body is reported as unknown under its own name |
| Validation.AcceptsIffEveryKeyAccepts | backend/src/utils/validation.js:99-111 | a body is valid iff every declared key accepts its value and the body holds no undeclared key |
| Validation.PlainKeyAccepts | backend/src/utils/validation.js:5-54 | a plain string key accepts an absent value when optional, and otherwise exactly a non-empty string its rules admit |
| Validation.NullableKeyAccepts | backend/src/utils/validation.js:58-71 | a key with `allow(null, '')` additionally accepts null and '' |
| Validation.ExclusiveKeyAccepts | backend/src/utils/validation.js:72-77 | a key with `valid(...)` accepts an absent value or one of the listed strings, nothing else |
| Validation.UsernameKey | backend/src/utils/validation.js:5-15 | the register username is accepted iff it is an alphanumeric string of length 3..50 |
| Validation.EmailKey | backend/src/utils/validation.js:16-24 | the register email is accepted iff it is a non-empty string in email format of length at most 100 |
| Validation.PasswordKey | backend/src/utils/validation.js:25-33 | the register password is accepted iff it is a string of length 6..50 |
| Validation.NicknameKey | backend/src/utils/validation.js:34-39 | the register nickname is accepted iff absent or a non-empty string of length at most 50 |
| Validation.RegisterSchemaAdmits | backend/src/utils/validation.js:4-40 | the register schema accepts exactly the bodies described key by key, with no other key |
| Validation.LoginSchemaAdmits | backend/src/utils/validation.js:43-54 | the login schema accepts exactly two non-empty strings and nothing else |
| Validation.ProfileNicknameKey | backend/src/utils/validation.js:58-64 | the profile nickname is accepted iff absent, null, or a string of length at most 50 ('' included) |
| Validation.AvatarKey | backend/src/utils/validation.js:65-71 | the avatar is accepted iff absent, null, '' or a URI |
| Validation.RoleKey | backend/src/utils/validation.js:72-77 | the role is accepted iff absent or one of "admin", "merchant", "user" |
| Validation.UpdateUserSchemaAdmits | backend/src/utils/validation.js:57-78 | the profile schema accepts exactly the bodies whose nickname, avatar and role are accepted, with no other key |
| Validation.UpdatePasswordSchemaAdmits | backend/src/utils/validation.js:81-96 | the password schema accepts exactly a non-empty old password and a new one of length 6..50, nothing else |
| Models.ParseRole | backend/src/models/User.js:45-48 | exactly the three enumerated names are roles, and each parses back to its name |
| Models.RoleNameRoundTrip | backend/src/models/User.js:45-48 | every role's column value parses back to that role |
| Models.ParseStatus | backend/src/models/User.js:49-52 | exactly "active" and "inactive" are statuses, and each parses back to its name |
| Models.StatusNameRoundTrip | backend/src/models/User.js:49-52 | every status's column value parses back to that status |
| Models.ToSafeJSON | backend/src/models/User.js:78-81 | the safe view keeps every column but the password: putting the password back gives the row |
| Models.SafeJSONIgnoresPassword | backend/src/models/User.js:78-81 | rows differing only in the password have the same safe view |
| Models.HashOnCreate | backend/src/models/User.js:59-63 | a non-empty password is stored hashed and no other column changes |
| Models.HashOnUpdate | backend/src/models/User.js:64-68 | a changed password is hashed, and no other column changes |
| Models.UpdateKeepsUnchangedHash | backend/src/models/User.js:64-68 | an update that leaves the password alone stores the row as given, so the hash is not hashed twice |
| Store.ApplyKeepsConsistent | backend/src/models/Product.js:34-42 | every admissible write keeps keys, unique logins, unique category names and the product-to-category foreign key |
| Store.ApplyTouchesOneRow | backend/src/models/User.js:58-69 | a user write changes no user row but the one it addresses |
| Store.CountProducts | backend/src/controllers/categoryController.js:126-128 | the count is zero exactly when no product references the category |
| Store.FindUser | backend/src/controllers/authController.js:19-23 | no row iff no row matches; otherwise a matching row of the table with the least key among the matches |
| Store.Db.Commit | backend/src/models/User.js:58-69 | an admissible write keeps the database consistent, and the new tables are the write applied with the hooks |
| Http.Offset | backend/src/controllers/productController.js:55 | `(page - 1) * limit`, never negative for page at least 1 |
| AuthController.Register | backend/src/controllers/authController.js:8-50 | invalid body 400 with every error; 201 iff valid and no row holds the username or email, inserting the new row and answering it without password; a collision names the username when the found row holds it, else the email; every other answer is 400 and writes nothing |
| AuthController.RegisterValidatesFirst | backend/src/controllers/authController.js:11-14 | a rejected body is answered the same whatever the users table holds |
| AuthController.RegisterConflictField | backend/src/controllers/authController.js:25-28 | with one colliding row the message names the username if that row holds it, else the email |
| AuthController.OnlyClash | backend/src/controllers/authController.js:19-23 | when exactly one row matches, `findOne` returns it |
| AuthController.NicknameDefault | backend/src/controllers/authController.js:35 | the stored nickname is `nickname \|\| username` |
| AuthController.RegisterAdmissible | backend/src/controllers/authController.js:30-36 | the row a 201 inserts meets the row validations and the unique indexes |
| AuthController.Login | backend/src/controllers/authController.js:53-100 | invalid 400; no matching row 401; inactive 403 before the password is checked; wrong password 401 with the same message; otherwise 200 with the safe row and its token; never writes |
| AuthController.LoginSucceedsIff | backend/src/controllers/authController.js:63-94 | 200 iff the body is admitted and the row named by username or email is active and its password checks |
| AuthController.InactiveLoginIgnoresPassword | backend/src/controllers/authController.js:77-86 | an inactive account gets 403 whatever the password check says |
| ProductController.GetProducts | backend/src/controllers/productController.js:8-94 | a bad sort field 400, then a bad order 400, listed otherwise with offset `(page-1)*limit`; a non-admin caller sees only their own products whatever `merchant_id` says; category and name filter only when truthy |
| ProductController.GetProductById | backend/src/controllers/productController.js:97-131 | missing 404; 403 iff a present caller is neither admin nor owner; 200 with the row otherwise |
| ProductController.AnonymousReadsAll | backend/src/controllers/productController.js:117-124 | an anonymous caller reads every existing product |
| ProductController.NewProductRow | backend/src/controllers/productController.js:178-185 | a row exists iff name, price and category are given and the status is enumerated; it carries the chosen owner and the given columns |
| ProductController.CreateProduct | backend/src/controllers/productController.js:134-192 | 401 without caller; 400 for a missing category; an admin naming `user_id` needs an existing merchant there; otherwise a truthy `user_id` is required; 201 iff a caller passes all of these and the row is one the table accepts, and then the insert is exactly the row built from the request's fields with the chosen owner and the next id; 500 when only the row is refused |
| ProductController.PatchProduct | backend/src/controllers/productController.js:225-231 | absent fields keep their columns, status included; a given status is the one parsed; the owner and key never change |
| ProductController.UpdateProduct | backend/src/controllers/productController.js:195-238 | 401 iff no caller; 404 iff missing; 403 iff neither admin nor owner; 400 iff a truthy `category_id` names no category; 200 iff an admin or the owner patches into a row the table accepts, saving it; 500 otherwise |
| ProductController.UpdateProductAdmissible | backend/src/controllers/productController.js:217-231 | an accepted update is admissible and keeps key and owner |
| ProductController.DeleteProduct | backend/src/controllers/productController.js:241-268 | 401, 404, 403 and 200 each iff its condition; a 200 destroys that product |
| UserController.GetUsers | backend/src/controllers/userController.js:7-34 | search and role filter iff non-empty; offset `(page-1)*limit`; newest first |
| UserController.GetUserById | backend/src/controllers/userController.js:53-71 | 404 iff missing, otherwise 200 with the row without password; never writes |
| UserController.PatchText | backend/src/controllers/userController.js:94 | an absent field keeps the column, null clears it, a string sets it |
| UserController.ApplyProfile | backend/src/controllers/userController.js:94 | the update sets nickname, avatar and role as given and keeps every other column, the password included |
| UserController.UpdateUser | backend/src/controllers/userController.js:74-104 | invalid 400; then 404 iff missing; 403 iff the caller is neither the account nor an admin; a 200 saves the profile patch |
| UserController.SelfPromotion | backend/src/controllers/userController.js:90-94 | a plain user sending `{role: "admin"}` for their own account becomes admin |
| UserController.UpdateUserGuarded | backend/src/controllers/userController.js:74-104 | as `updateUser`, except that a caller who is not an admin sending `role` gets 403; such a caller's successful update keeps the role |
| UserController.NoSelfPromotion | backend/src/controllers/userController.js:90-94 | with the guard, the self-promotion body is refused with 403 |
| UserController.UpdateUserAdmissible | backend/src/controllers/userController.js:94 | an accepted profile update is admissible and the stored password hash stays as it was |
| UserController.UpdatePassword | backend/src/controllers/userController.js:107-144 | invalid 400; 404 iff missing; 403 iff not the caller's own account (no admin override); a wrong old password 400; otherwise 200 saving the new password |
| UserController.PasswordChangeStoresHash | backend/src/controllers/userController.js:135-136 | a committed password change stores the hash of the new password and changes no other column |
| UserController.DeleteUser | backend/src/controllers/userController.js:147-169 | 404 iff missing; 400 iff the caller's own account; 200 destroying the row otherwise |
| UserController.Flip | backend/src/controllers/userController.js:186 | the new status differs from the old |
| UserController.ToggleUserStatus | backend/src/controllers/userController.js:172-197 | 404, 400 for self, otherwise 200 saving the row with the other status and reporting it |
| UserController.ToggleTwiceRestores | backend/src/controllers/userController.js:186-187 | toggling the same account twice restores the tables |
| CategoryController.GetCategories | backend/src/controllers/categoryController.js:4-57 | listed iff the sort field (default "sort") and order (default "asc") are known; both refusals are 400 with the same message |
| CategoryController.NewCategoryRow | backend/src/controllers/categoryController.js:64-68 | a row exists iff a name is given; `sort \|\| 0`; default status |
| CategoryController.CreateCategory | backend/src/controllers/categoryController.js:60-80 | a row the validation refuses (no name, bad length) is 500; then a taken name is 400; 201 iff neither, inserting an admissible row |
| CategoryController.CreatedSortDefaultsToZero | backend/src/controllers/categoryController.js:67 | an absent or zero `sort` is stored as 0 |
| CategoryController.PatchCategory | backend/src/controllers/categoryController.js:95-100 | absent fields keep their columns, status included; a given status is the one parsed; the key never changes |
| CategoryController.UpdateCategory | backend/src/controllers/categoryController.js:83-111 | a missing category is 400; a patched row the validation refuses is 500; a name another category holds is 400; 201 iff none of these, saving the patched row |
| CategoryController.UpdateCategoryAdmissible | backend/src/controllers/categoryController.js:95-109 | an accepted update is admissible |
| CategoryController.DeleteCategory | backend/src/controllers/categoryController.js:114-140 | 404 iff missing; 400 iff referenced, quoting the positive count; 200 destroying it iff unreferenced |
| CategoryController.DeleteCategoryKeepsReferences | backend/src/controllers/categoryController.js:124-135 | after a committed deletion the tables stay consistent, products are untouched and the category is gone |
| Routes.Admit | backend/src/routes/users.js:14-29 | admitted iff the token passes and, on admin routes, the user is an admin; the middleware's refusal is passed on |
| Routes.TokenAdmits | backend/src/routes/users.js:17-23 | a bearer token that verifies to an active account admits its holder |
| Routes.ListUsersRoute | backend/src/routes/users.js:14 | the listing runs iff an active admin is admitted, otherwise the middleware's answer |
| Routes.DeleteUserRoute | backend/src/routes/users.js:26 | a 200 destroys the addressed row |
| Routes.ToggleUserStatusRoute | backend/src/routes/users.js:29 | a 200 saves the addressed row with a different status |
| Routes.AdminOnlyAndNeverSelf | backend/src/routes/users.js:26-29 | a delete or toggle succeeds only for an admitted admin on another account; self is 400; a non-admin 403 |
| Routes.UpdateUserRoute | backend/src/routes/users.js:20 | a 200 saves a user row |
| Routes.UpdatePasswordRoute | backend/src/routes/users.js:23 | a 200 saves a user row and the admitted caller is that account |
| Routes.PasswordChangeOnlyBySelf | backend/src/routes/users.js:23 | only the account's own holder changes its password; an admin for another account gets 403 |
| Routes.InactiveAccountCodes | backend/src/middleware/auth.js:20-25 | a disabled account's token is refused with 401, while a login with its name gets 403 |
| Routes.InactiveTokenRefused | backend/src/middleware/auth.js:20-25 | a verified token of an inactive account is refused with 401 |
| Routes.DeleteCategoryRequest | backend/src/controllers/categoryController.js:114-140 | the handler decides on the current tables and the database commits its write: still consistent, products untouched, and on 200 the category is gone |
| Routes.MissingCategoryCodes | backend/src/controllers/categoryController.js:90-93 | a missing category: update answers 400, delete 404 |
| Routes.DisabledTokenRefused | backend/src/controllers/userController.js:186-187 | once an admin disables an account, its token no longer passes the middleware |
| Routes.ProductWritesAlwaysRefused | backend/src/routes/products.js:17-20 | as mounted, every product update and delete is 401 |
| Routes.CreateProductAsMounted | backend/src/routes/products.js:14 | as mounted, every product creation is 401 |
| Routes.ListProductsAsMounted | backend/src/routes/products.js:8 | as mounted, a listing filters by `merchant_id` alone |
| Routes.UpdateProductRoute | backend/src/routes/products.js:17 | with authentication mounted, a 200 saves a product |
| Routes.DeleteProductRoute | backend/src/routes/products.js:20 | with authentication mounted, a 200 destroys the addressed product |
| Routes.CreateProductRoute | backend/src/routes/products.js:14 | with authentication mounted, 201 iff the caller is admitted and the creation is accepted, and then the insert is exactly the row built from the request's fields with the admitted caller's chosen owner and the next id |
| Routes.OwnerOrAdminWrites | backend/src/controllers/productController.js:202-263 | with authentication mounted, a delete succeeds iff the token's active holder is admin or owner; an update succeeds iff that holds and the patched row is accepted |
| UserStore.Initial | frontend/src/store/user.js:6-10 | the start state is coherent, signed out, with the stored token |
| UserStore.AfterSignIn | frontend/src/store/user.js:17-58 | a response sets user and token, authenticates and stores the token; a failure clears |
| UserStore.AfterCheck | frontend/src/store/user.js:75-93 | true iff a truthy token is stored and the profile request answers, and then the user is the profile; otherwise cleared |
| UserStore.AfterUpdateInfo | frontend/src/store/user.js:96-101 | without a user nothing changes; otherwise the given keys override and the others are kept |
| UserStore.AdminIsAuthenticated | frontend/src/store/user.js:13 | in a coherent state an admin is authenticated |
| UserStore.ActionsKeepCoherent | frontend/src/store/user.js:17-101 | every action keeps token and storage equal and `isAuthenticated` iff a user |
| UserStore.ClearingSettles | frontend/src/store/user.js:67-80 | a check after clearing stays cleared |
| UserStore.AuthStore.constructor | frontend/src/store/user.js:6-10 | the store starts in the initial state |
| UserStore.AuthStore.ClearAuth | frontend/src/store/user.js:67-72 | the fields and the stored token are cleared |
| UserStore.AuthStore.Logout | frontend/src/store/user.js:61-64 | logging out leaves the cleared state |
| UserStore.AuthStore.SignIn | frontend/src/store/user.js:17-58 | the new state is the sign-in state; the answer is true iff the call succeeded |
| UserStore.AuthStore.Login | frontend/src/store/user.js:17-37 | as `SignIn` |
| UserStore.AuthStore.Register | frontend/src/store/user.js:38-58 | as `SignIn` |
| UserStore.AuthStore.CheckAuthStatus | frontend/src/store/user.js:75-93 | the new state and answer are those of the check |
| UserStore.AuthStore.UpdateUserInfo | frontend/src/store/user.js:96-101 | the new state is the merged state, still coherent |
| Router.Normalize | frontend/src/router/index.js:59-62 | the matched form of a path: letters in lower case and one trailing slash dropped |
| Router.Resolve | frontend/src/router/index.js:6-9 | a path matching `/` becomes `/dashboard`; every other path is kept |
| Router.MetaOf | frontend/src/router/index.js:5-62 | the admin pages, the signed-in pages, the guest pages and the rest, each with its flags, matched in either letter case and with an optional trailing slash |
| Router.CaseAndTrailingSlashMatch | frontend/src/router/index.js:35-39 | "/Users/" is the users page, and a signed-out visitor of it is sent to `/login` |
| Router.Guard | frontend/src/router/index.js:74-93 | sign-in first, then admin, then guest redirect; proceeds iff none applies |
| Router.SignInBeforeAdmin | frontend/src/router/index.js:74-85 | a signed-out visitor of an admin page goes to `/login` |
| Router.RedirectsSettle | frontend/src/router/index.js:66-93 | wherever the guard redirects, the next navigation with the same store proceeds |
| Router.BeforeEach | frontend/src/router/index.js:66-93 | the auth check runs first exactly when signed out with a stored token, then the guard decides on the resulting store |

## Left out

- Message wording: each message is a `Msg` constructor named after its meaning; the Chinese strings and the `success`/`error` response envelope are not modelled.
- JWT signing and verification, bcrypt hashing and comparison are parameters (`sign`, `verify`, `hash`, `checkPassword`), so token expiry and bcrypt salts are not modelled.
- The grammars of Joi's `email()` and `uri()` are the `Formats` parameter. The model-level `isEmail` validation of the users table is not modelled.
- Store.FindUser: SQL leaves the order of `findOne` open. The model takes the matching row with the least key, so with several colliding rows the register message follows that row.
- The `LIKE` matching, the `order` clause and `findAndCountAll` itself are not evaluated. A listing is modelled up to the query it issues (`FindSpec`). `totalPages` and the pagination envelope are left out.
- Query-string numbers: `page` and `limit` are taken as the integers they spell. `parseInt` of a non-numeric id or page (NaN) is not modelled, and ids are integers throughout.
- The product table definition in backend/src/models/Product.js has no `user_id` column, while the controllers read and write `user_id`. The model follows the controllers and gives each product an owner.
- `price` is DECIMAL(10, 2) and is modelled as an integer count of hundredths. Floating-point input is not modelled.
- JSON `null` for `image`, `description`, `sort` or `category_id` in product and category bodies is not modelled; those fields are either absent or present with a value.
- Database exceptions are not modelled: `findByPk` throwing inside the middleware (403), a handler's `catch` (500), and unique-index or foreign-key failures other than the ones the handlers meet. The constraint checks a handler relies on are folded into its decision as the 500 or 400 it then gives.
- Concurrency: the count-then-destroy of `deleteCategory` and the find-then-create of `register` are modelled as atomic.
- The Sequelize hooks assign `user.password` in place. The model returns the hooked row instead (`HashOnCreate`, `HashOnUpdate`).
- `getProfile` and the `logout` endpoint of authController.js are not part of this model, nor are the upload route and the app wiring in app.js.
- On the front end, toasts, the API wrappers and the `localStorage` calls are not modelled. Storage is the `storage` field, and API answers are the `response`/`profile` parameters.
- Routes.DeleteUserRoute, Routes.ToggleUserStatusRoute, Routes.UpdateUserRoute, Routes.UpdateProductRoute, Routes.DeleteProductRoute: each contract states only what a success writes. The access rules of these routes are stated by Routes.AdminOnlyAndNeverSelf, Routes.PasswordChangeOnlyBySelf and Routes.OwnerOrAdminWrites, and by the handlers' own contracts.
- ToSafeJSON: the `created_at` and `updated_at` columns that `timestamps: true` adds (backend/src/models/User.js:55-57) are not modelled, so neither the rows nor the safe view hold them; the safe view keeps every modelled column but the password.
- RuleErrors: `min` and `max` count characters, where Joi counts UTF-16 code units, so a string with characters outside the Basic Multilingual Plane is measured shorter than Joi measures it. This affects every length rule of the schemas (UsernameKey, EmailKey, PasswordKey, NicknameKey, ProfileNicknameKey, UpdatePasswordSchemaAdmits), and likewise the `len` validations of the tables.
- UnknownDetails: a body repeating an undeclared key reports it once per occurrence, where the parsed object holds it, and Joi reports it, once.
- Router.MetaOf: percent-encoded characters in a path are not decoded before matching.

## Findings

| source | as written | input that shows it | evidently intended | confidence | as-written member | corrected member |
|---|---|---|---|---|---|---|
| backend/src/routes/products.js:14-20 | the product routes mount no `authenticateToken`, so `req.user` is never set and `createProduct`, `updateProduct` and `deleteProduct` always answer 401 | any `PUT /products/1` carrying a valid admin token | the write routes authenticate first, as the user routes do, so an owner or an admin can write | not executed | Routes.ProductWritesAlwaysRefused | Routes.OwnerOrAdminWrites |
| backend/src/controllers/userController.js:90-94 | `updateUser` applies the validated `role` for any caller editing their own account | a user-role caller sending `PUT /users/<own id>` with `{"role": "admin"}` | only an admin changes a role | not executed | UserController.SelfPromotion | UserController.UpdateUserGuarded |
| backend/src/routes/products.js:14 | `POST /products` never reaches the creation logic | any `POST /products` with a valid merchant token and body | creation runs behind `authenticateToken` | not executed | Routes.CreateProductAsMounted | Routes.CreateProductRoute |
