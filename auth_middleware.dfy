/** The two middlewares in front of the protected routes: `authenticateToken`, which turns
    an `Authorization: Bearer <token>` header into the caller's identity, and `isAdmin`,
    which lets a request through only when the caller's profile has the role "admin". A
    `Halt` is the answer sent instead of calling the next handler. */
module AuthMiddleware {
  import opened Js
  import opened Http
  import opened Services
  import opened Database

  const BEARER: string := "Bearer "
  const ADMIN_ROLE: string := "admin"

  const MISSING_TOKEN: string := "Token manquant ou format invalide"
  const INVALID_SESSION: string := "Session invalide"
  const UNKNOWN_USER: string := "Utilisateur non trouvé"
  const INVALID_TOKEN: string := "Token invalide"
  const NOT_ALLOWED: string := "Accès non autorisé"
  const SERVER_FAULT: string := "Erreur serveur"

  /** A header that starts with "Bearer " splits on ' ' into "Bearer" and the pieces after */
  lemma BearerSplit(header: string)
    requires StartsWith(header, BEARER)
    ensures Split(header, ' ') == ["Bearer"] + Split(header[|BEARER|..], ' ')
  {
    assert header == "Bearer" + [' '] + header[|BEARER|..];
    SplitConcat("Bearer", ' ', header[|BEARER|..]);
    SplitWithoutSep("Bearer", ' ');
  }

  /** The token is the second ' '-separated piece of the header: what follows "Bearer "
      up to the next space, or to the end */
  function BearerToken(header: Option<string>): (r: Gate<string>)
    ensures r.Halt? <==> header.None? || !StartsWith(header.value, BEARER)
    ensures r.Halt? ==> r == Halt(UNAUTHORIZED, Text(MISSING_TOKEN))
    ensures r.Pass? ==>
              var rest := header.value[|BEARER|..];
              && StartsWith(rest, r.value) && ' ' !in r.value
              && (|r.value| == |rest| || rest[|r.value|] == ' ')
  {
    if header.None? || !StartsWith(header.value, BEARER) then Halt(UNAUTHORIZED, Text(MISSING_TOKEN))
    else
      BearerSplit(header.value);
      SplitHead(header.value[|BEARER|..], ' ');
      Pass(Split(header.value, ' ')[1])
  }

  /** A token without spaces is read back from the header it is written into */
  lemma BearerRoundTrip(token: string)
    requires ' ' !in token
    ensures BearerToken(Some(BEARER + token)) == Pass(token)
  {
    var header := BEARER + token;
    assert StartsWith(header, BEARER);
    assert header[|BEARER|..] == token;
    var t := BearerToken(Some(header)).value;
    assert t == token[..|t|];
    assert |t| == |token|;
    assert token[..|token|] == token;
  }

  /** `authenticateToken`: the identity the handlers see as `req.user`. The session it
      compares the token with is not looked up per request: `auth.getSession()` returns
      the one session the server's shared client holds, which the last sign-up, sign-in
      or sign-out through this server left behind. Every refusal is a 401: a missing or
      malformed header, a token that is not that session's, a token the identity provider
      rejects or does not know. */
  function Authenticate(db: Tables, header: Option<string>, getUser: string -> UserLookup): (r: Gate<AuthUser>)
    ensures r.Halt? ==> r.status == UNAUTHORIZED
    ensures r.Pass? <==>
              && BearerToken(header).Pass?
              && db.session == Some(BearerToken(header).value)
              && getUser(BearerToken(header).value).UserFound?
    ensures r.Pass? ==> r.value == getUser(BearerToken(header).value).user
    ensures BearerToken(header).Halt? ==> r == Halt(UNAUTHORIZED, Text(MISSING_TOKEN))
    ensures BearerToken(header).Pass? && db.session != Some(BearerToken(header).value) ==>
              r == Halt(UNAUTHORIZED, Text(INVALID_SESSION))
    ensures BearerToken(header).Pass? && db.session == Some(BearerToken(header).value) ==>
              && (getUser(BearerToken(header).value).UserLookupFailed? ==> r == Halt(UNAUTHORIZED, Text(INVALID_TOKEN)))
              && (getUser(BearerToken(header).value).NoUser? ==> r == Halt(UNAUTHORIZED, Text(UNKNOWN_USER)))
  {
    match BearerToken(header)
    case Halt(status, error) => Halt(status, error)
    case Pass(token) =>
      if db.session != Some(token) then Halt(UNAUTHORIZED, Text(INVALID_SESSION))
      else
        match getUser(token)
        case UserLookupFailed => Halt(UNAUTHORIZED, Text(INVALID_TOKEN))
        case NoUser => Halt(UNAUTHORIZED, Text(UNKNOWN_USER))
        case UserFound(user) => Pass(user)
  }

  /** The identity of a request that presents the client's current session token */
  lemma SessionHolderIsAuthenticated(db: Tables, token: string, getUser: string -> UserLookup)
    requires ' ' !in token && getUser(token).UserFound?
    requires db.session == Some(token)
    ensures Authenticate(db, Some(BEARER + token), getUser) == Pass(getUser(token).user)
  {
    BearerRoundTrip(token);
  }

  /** Without a session on the client every request is refused, whoever sends it */
  lemma NoSessionRefusesAll(db: Tables, header: Option<string>, getUser: string -> UserLookup)
    requires db.session.None?
    ensures Authenticate(db, header, getUser) ==
              if BearerToken(header).Halt? then Halt(UNAUTHORIZED, Text(MISSING_TOKEN))
              else Halt(UNAUTHORIZED, Text(INVALID_SESSION))
  {
  }

  /** `isAdmin`: the caller's profile row must exist exactly once (otherwise the lookup
      fails and the answer is a 500) and carry the role "admin" (otherwise a 403) */
  function IsAdmin(users: seq<Profile>, userId: string): (r: Gate<()>)
    ensures r.Pass? <==> UserRow(users, userId).Some? && UserRow(users, userId).value.role == ADMIN_ROLE
    ensures UserRow(users, userId).None? ==> r == Halt(SERVER_ERROR, Text(SERVER_FAULT))
    ensures UserRow(users, userId).Some? && r.Halt? ==> r == Halt(FORBIDDEN, Text(NOT_ALLOWED))
  {
    match UserRow(users, userId)
    case None => Halt(SERVER_ERROR, Text(SERVER_FAULT))
    case Some(profile) =>
      if profile.role != ADMIN_ROLE then Halt(FORBIDDEN, Text(NOT_ALLOWED)) else Pass(())
  }
}
