/** The front end's route table and the guard that runs before every navigation. */
module Router {
  import opened Common
  import opened UserStore

  /** The flags a route record declares; a record without `meta` declares none. */
  datatype Meta = Meta(requiresAuth: bool, requiresAdmin: bool, requiresGuest: bool)

  const NoMeta: Meta := Meta(false, false, false)
  const GuestOnly: Meta := Meta(false, false, true)
  const SignedIn: Meta := Meta(true, false, false)
  const AdminOnly: Meta := Meta(true, true, false)

  /** ASCII lower case: route matching ignores the case of letters. */
  function LowerAscii(c: char): (d: char)
    ensures 'A' <= c <= 'Z' ==> d as int == c as int + 32
    ensures !('A' <= c <= 'Z') ==> d == c
  {
    if 'A' <= c <= 'Z' then (c as int + 32) as char else c
  }

  /** The form a path is matched in: the router is created neither `strict` nor `sensitive`,
      so letters match in either case and one trailing slash is optional. */
  function Normalize(path: string): (p: string)
    ensures |path| <= 1 || path[|path| - 1] != '/' ==> |p| == |path|
    ensures |path| > 1 && path[|path| - 1] == '/' ==> |p| == |path| - 1
    ensures forall i :: 0 <= i < |p| ==> p[i] == LowerAscii(path[i])
  {
    var lower := seq(|path|, i requires 0 <= i < |path| => LowerAscii(path[i]));
    if |lower| > 1 && lower[|lower| - 1] == '/' then lower[..|lower| - 1] else lower
  }

  /** The record `/` redirects to `/dashboard` before any guard runs. */
  function Resolve(path: string): (p: string)
    ensures Normalize(p) != "/"
    ensures Normalize(path) != "/" ==> p == path
  {
    if Normalize(path) == "/" then
      assert Normalize("/dashboard") == "/dashboard";
      "/dashboard"
    else path
  }

  /** The meta of the record a path matches; the catch-all record declares none. */
  function MetaOf(path: string): (m: Meta)
    ensures Normalize(path) in {"/users", "/categories", "/products"} ==> m == AdminOnly
    ensures Normalize(path) in {"/dashboard", "/profile"} ==> m == SignedIn
    ensures Normalize(path) in {"/login", "/register"} ==> m == GuestOnly
    ensures Normalize(path) !in {"/users", "/categories", "/products", "/dashboard", "/profile", "/login", "/register"} ==>
              m == NoMeta
  {
    var p := Normalize(path);
    if p == "/login" || p == "/register" then GuestOnly
    else if p == "/dashboard" || p == "/profile" then SignedIn
    else if p == "/users" || p == "/categories" || p == "/products" then AdminOnly
    else NoMeta
  }

  /** "/Users/" is the users page: a signed-out visitor is sent to sign in. */
  lemma CaseAndTrailingSlashMatch()
    ensures MetaOf("/Users/") == AdminOnly
    ensures Guard(MetaOf(Resolve("/Users/")), false, false) == Redirect("/login")
  {
    assert Normalize("/Users/") == "/users";
  }

  datatype Nav = Proceed | Redirect(to: string)

  /** The redirect decision: a route needing sign-in sends a signed-out user to `/login`; then a
      route needing an admin sends a non-admin to `/dashboard`; then a guest-only route sends a
      signed-in user to `/dashboard`; otherwise the navigation proceeds. */
  function Guard(m: Meta, authenticated: bool, admin: bool): (n: Nav)
    ensures m.requiresAuth && !authenticated ==> n == Redirect("/login")
    ensures !(m.requiresAuth && !authenticated) && m.requiresAdmin && !admin ==> n == Redirect("/dashboard")
    ensures !(m.requiresAuth && !authenticated) && !(m.requiresAdmin && !admin) && m.requiresGuest && authenticated ==>
              n == Redirect("/dashboard")
    ensures n == Proceed <==>
              !(m.requiresAuth && !authenticated) && !(m.requiresAdmin && !admin) && !(m.requiresGuest && authenticated)
  {
    if m.requiresAuth && !authenticated then Redirect("/login")
    else if m.requiresAdmin && !admin then Redirect("/dashboard")
    else if m.requiresGuest && authenticated then Redirect("/dashboard")
    else Proceed
  }

  /** The sign-in check comes first: a signed-out visitor of an admin page goes to `/login`,
      never to `/dashboard`, whatever the admin flag says. */
  lemma SignInBeforeAdmin(path: string, admin: bool)
    requires MetaOf(path).requiresAdmin
    ensures Guard(MetaOf(path), false, admin) == Redirect("/login")
  {
  }

  /** No redirect loops: wherever the guard sends a navigation, with the store unchanged the
      guard lets the next navigation through (an admin is always signed in). */
  lemma RedirectsSettle(path: string, authenticated: bool, admin: bool)
    requires admin ==> authenticated
    ensures var n := Guard(MetaOf(Resolve(path)), authenticated, admin);
            n.Redirect? ==> Guard(MetaOf(Resolve(n.to)), authenticated, admin) == Proceed
  {
  }

  /** `beforeEach`: when the store is not authenticated but a token is stored, `checkAuthStatus`
      runs first (with `profile` as the answer to its request); the decision is then taken on
      the resulting store. */
  method BeforeEach(store: AuthStore, to: string, profile: Option<UserObject>) returns (n: Nav)
    requires store.Valid()
    modifies store
    ensures store.Valid()
    ensures old(!store.isAuthenticated && IsTruthyString(store.storage)) ==>
              store.State() == AfterCheck(old(store.State()), profile).0
    ensures !old(!store.isAuthenticated && IsTruthyString(store.storage)) ==> store.State() == old(store.State())
    ensures n == Guard(MetaOf(Resolve(to)), store.isAuthenticated, store.IsAdmin())
  {
    if !store.isAuthenticated && IsTruthyString(store.storage) {
      var _ := store.CheckAuthStatus(profile);
    }
    n := Guard(MetaOf(Resolve(to)), store.isAuthenticated, store.IsAdmin());
  }
}
