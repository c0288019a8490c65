/** `authenticateToken`, `requireRole` and `requireAdmin`: the gates in front of the handlers. */
module AuthMiddleware {
  import opened Common
  import opened Models

  /** The token of an `Authorization` header: the second space-separated piece, when the header
      is present and that piece is there and non-empty. */
  function BearerToken(header: Option<string>): (token: Option<string>)
    ensures token.Some? ==> token.value != "" && ' ' !in token.value
    ensures token.Some? ==> header.Some? && ' ' in header.value
  {
    if header.None? || header.value == "" then None
    else
      var pieces := Split(header.value, ' ');
      if |pieces| >= 2 && pieces[1] != "" then
        SeveralPiecesHoldSeparator(header.value, ' ');
        Some(pieces[1])
      else None
  }

  /** A string that splits into more than one piece holds the separator. */
  lemma SeveralPiecesHoldSeparator(s: string, sep: char)
    requires |Split(s, sep)| >= 2
    ensures sep in s
  {
    if sep !in s {
      SplitNoSeparator(s, sep);
    }
  }

  /** `Bearer <token>`, with or without more pieces after it, yields the token. */
  lemma BearerTokenOf(scheme: string, token: string, rest: Option<string>)
    requires ' ' !in scheme && ' ' !in token && token != ""
    ensures var tail := if rest.Some? then [' '] + rest.value else "";
            BearerToken(Some(scheme + [' '] + token + tail)) == Some(token)
  {
    var tail := if rest.Some? then [' '] + rest.value else "";
    var h := scheme + [' '] + token + tail;
    assert h == scheme + [' '] + (token + tail);
    SplitAtSeparator(scheme, token + tail, ' ');
    if rest.Some? {
      assert token + tail == token + [' '] + rest.value;
      SplitAtSeparator(token, rest.value, ' ');
    } else {
      assert token + tail == token;
      SplitNoSeparator(token, ' ');
    }
    assert Split(h, ' ')[1] == token;
  }

  /** A header with no space, such as a bare token, yields no token. */
  lemma BearerTokenNeedsSpace(header: string)
    requires ' ' !in header
    ensures BearerToken(Some(header)).None?
  {
  }

  /** A header whose second piece is empty, such as "Bearer " or "Bearer  x", yields no token. */
  lemma BearerTokenNeedsPiece(scheme: string, rest: Option<string>)
    requires ' ' !in scheme
    ensures BearerToken(Some(scheme + [' '] + (if rest.Some? then [' '] + rest.value else ""))) == None
  {
    var tail := if rest.Some? then [' '] + rest.value else "";
    SplitAtSeparator(scheme, tail, ' ');
    if rest.Some? {
      assert tail == [' '] + rest.value;
      assert Split(tail, ' ')[0] == "";
    } else {
      assert Split(tail, ' ') == [""];
    }
    assert Split(scheme + [' '] + tail, ' ')[1] == "";
  }

  /** How `authenticateToken` ends: the request continues with the loaded user, or stops. */
  datatype AuthOutcome = Pass(user: UserRow) | Halt(status: int, msg: AuthMsg)

  datatype AuthMsg = TokenMissing | AccountUnavailable | TokenInvalid | NotAuthenticated | InsufficientRights

  /** `authenticateToken`: a missing token is 401; a token that does not verify is 403; a
      verified token whose user is missing or not active is 401; otherwise the user passes.
      `verify` stands for the signature check, yielding the `userId` the token carries. */
  function AuthenticateToken(header: Option<string>, verify: string -> Option<int>,
                             users: map<int, UserRow>): (r: AuthOutcome)
    ensures BearerToken(header).None? ==> r == Halt(401, TokenMissing)
    ensures BearerToken(header).Some? && verify(BearerToken(header).value).None? ==> r == Halt(403, TokenInvalid)
    ensures r.Pass? <==>
              && BearerToken(header).Some?
              && verify(BearerToken(header).value).Some?
              && var id := verify(BearerToken(header).value).value;
                 id in users && users[id].status == Active
    ensures r.Pass? ==> r.user == users[verify(BearerToken(header).value).value]
    ensures r.Halt? && r.status != 403 ==> r.status == 401
  {
    match BearerToken(header)
    case None => Halt(401, TokenMissing)
    case Some(token) =>
      match verify(token)
      case None => Halt(403, TokenInvalid)
      case Some(id) =>
        if id !in users || users[id].status != Active then Halt(401, AccountUnavailable)
        else Pass(users[id])
  }

  /** A user who is not active never gets past the middleware, whatever token they hold. */
  lemma InactiveNeverPasses(header: Option<string>, verify: string -> Option<int>, users: map<int, UserRow>)
    requires AuthenticateToken(header, verify, users).Pass?
    ensures AuthenticateToken(header, verify, users).user.status == Active
  {
  }

  /** How `requireRole` ends. */
  datatype Gate = Next | Stop(status: int, msg: AuthMsg)

  /** `requireRole(roles)`: no user is 401, a role outside the list is 403, otherwise next. */
  function RequireRole(user: Option<UserRow>, roles: seq<Role>): (g: Gate)
    ensures g.Next? <==> user.Some? && user.value.role in roles
    ensures user.None? ==> g == Stop(401, NotAuthenticated)
    ensures user.Some? && user.value.role !in roles ==> g == Stop(403, InsufficientRights)
  {
    if user.None? then Stop(401, NotAuthenticated)
    else if user.value.role !in roles then Stop(403, InsufficientRights)
    else Next
  }

  function RequireAdmin(user: Option<UserRow>): Gate
  {
    RequireRole(user, [Admin])
  }

  /** `requireAdmin` lets a user through exactly when the role is admin. */
  lemma RequireAdminIffAdmin(user: Option<UserRow>)
    ensures RequireAdmin(user).Next? <==> user.Some? && user.value.role == Admin
    ensures user.Some? && user.value.role != Admin ==> RequireAdmin(user) == Stop(403, InsufficientRights)
  {
    assert RequireAdmin(user) == RequireRole(user, [Admin]);
  }

  /** The parts of an Express request the middleware touches. */
  class Request {
    var user: Option<UserRow>
    var nextCalls: nat
    var response: Option<(int, AuthMsg)>

    constructor ()
      ensures user.None? && nextCalls == 0 && response.None?
    {
      user := None;
      nextCalls := 0;
      response := None;
    }

    /** Running `authenticateToken` on the request: on success `req.user` is the loaded user and
        `next` runs exactly once; otherwise the response is sent and `next` does not run. */
    method Authenticate(header: Option<string>, verify: string -> Option<int>, users: map<int, UserRow>)
      modifies this
      ensures var r := AuthenticateToken(header, verify, users);
              && (r.Pass? ==> user == Some(r.user) && nextCalls == old(nextCalls) + 1 && response == old(response))
              && (r.Halt? ==> user == old(user) && nextCalls == old(nextCalls) && response == Some((r.status, r.msg)))
    {
      var r := AuthenticateToken(header, verify, users);
      if r.Pass? {
        user := Some(r.user);
        nextCalls := nextCalls + 1;
      } else {
        response := Some((r.status, r.msg));
      }
    }

    /** Running `requireRole(roles)` on the request. */
    method RequireRoles(roles: seq<Role>)
      modifies this
      ensures user == old(user)
      ensures var g := RequireRole(old(user), roles);
              && (g.Next? ==> nextCalls == old(nextCalls) + 1 && response == old(response))
              && (g.Stop? ==> nextCalls == old(nextCalls) && response == Some((g.status, g.msg)))
    {
      var g := RequireRole(user, roles);
      if g.Next? {
        nextCalls := nextCalls + 1;
      } else {
        response := Some((g.status, g.msg));
      }
    }
  }
}
