/** `/api/auth`: the two validating middlewares and the sign-up, sign-in and sign-out
    handlers. A new account is a student with three tokens; signing in returns the stored
    profile. All three go through the server's one identity client, so each replaces or
    clears the single session that `authenticateToken` then compares every token with. */
module AuthRoutes {
  import opened Js
  import opened Http
  import opened Services
  import opened Database
  import AuthMiddleware

  const STUDENT_ROLE: string := "student"
  const INITIAL_TOKENS: int := 3
  const MIN_PASSWORD_LENGTH: nat := 8

  const FIELDS_REQUIRED: string := "Tous les champs sont requis"
  const BAD_EMAIL: string := "Format d'email invalide"
  const SHORT_PASSWORD: string := "Le mot de passe doit contenir au moins 8 caractères"
  const CREDENTIALS_REQUIRED: string := "Email et mot de passe requis"
  const LOGGED_OUT: string := "Déconnexion réussie"

  datatype RegisterBody = RegisterBody(
    email: Option<string>, password: Option<string>, firstName: Option<string>,
    lastName: Option<string>, country: Option<string>, educationLevel: Option<string>)

  datatype LoginBody = LoginBody(email: Option<string>, password: Option<string>)

  /** The `user` object of a successful registration */
  datatype NewAccount = NewAccount(
    id: string, email: string, firstName: string, lastName: string, country: string,
    educationLevel: string, role: string, tokens: int)

  /** A successful sign-in: the profile row and the session */
  datatype LoggedIn = LoggedIn(user: Profile, session: string)

  predicate AllGiven(b: RegisterBody) {
    && Given(b.email) && Given(b.password) && Given(b.firstName)
    && Given(b.lastName) && Given(b.country) && Given(b.educationLevel)
  }

  /** `validateRegister`: every field present, an address of the form local@host.suffix, a
      password of at least eight UTF-16 code units; the first failing check answers */
  function ValidateRegister(b: RegisterBody): (r: Gate<()>)
    ensures r.Pass? <==>
              && AllGiven(b) && MatchesEmailPattern(b.email.value)
              && Utf16Length(b.password.value) >= MIN_PASSWORD_LENGTH
    ensures !AllGiven(b) ==> r == Halt(BAD_REQUEST, Text(FIELDS_REQUIRED))
    ensures AllGiven(b) && !MatchesEmailPattern(b.email.value) ==> r == Halt(BAD_REQUEST, Text(BAD_EMAIL))
    ensures AllGiven(b) && MatchesEmailPattern(b.email.value) && Utf16Length(b.password.value) < MIN_PASSWORD_LENGTH
            ==> r == Halt(BAD_REQUEST, Text(SHORT_PASSWORD))
  {
    if !AllGiven(b) then Halt(BAD_REQUEST, Text(FIELDS_REQUIRED))
    else
      ValidEmailIsPattern(b.email.value);
      if !ValidEmail(b.email.value) then Halt(BAD_REQUEST, Text(BAD_EMAIL))
      else if Utf16Length(b.password.value) < MIN_PASSWORD_LENGTH then Halt(BAD_REQUEST, Text(SHORT_PASSWORD))
      else Pass(())
  }

  /** `validateLogin` */
  function ValidateLogin(b: LoginBody): (r: Gate<()>)
    ensures r.Pass? <==> Given(b.email) && Given(b.password)
    ensures r.Halt? ==> r == Halt(BAD_REQUEST, Text(CREDENTIALS_REQUIRED))
  {
    if !Given(b.email) || !Given(b.password) then Halt(BAD_REQUEST, Text(CREDENTIALS_REQUIRED)) else Pass(())
  }

  /** The profile row inserted for a new identity */
  function NewProfile(user: AuthUser, b: RegisterBody, now: nat): Profile
    requires AllGiven(b)
  {
    Profile(user.id, user.email, b.firstName.value, b.lastName.value, b.country.value,
            b.educationLevel.value, STUDENT_ROLE, Some(INITIAL_TOKENS), now)
  }

  /** `POST /register` behind `validateRegister`. The identity provider creates the
      identity (or refuses, 400 with its message); a session it opens becomes the client's
      session at once, whatever happens next. The profile insert fails on an id that
      already has a row (400 with the store's message); otherwise the profile is appended. */
  function Register(db: Tables, b: RegisterBody, signUp: SignUp, now: nat): (out: Outcome<NewAccount>)
    ensures out.reply.Ok? <==>
              && ValidateRegister(b).Pass? && signUp.SignedUp?
              && Filter(db.users, UserWithId(signUp.user.id)) == []
    ensures out.after.session ==
              if ValidateRegister(b).Pass? && signUp.SignedUp? && signUp.session.Some? then signUp.session
              else db.session
    ensures out.reply.Fail? ==> out.after == db.(session := out.after.session)
    ensures ValidateRegister(b).Halt? ==>
              out == Outcome(Fail(ValidateRegister(b).status, ValidateRegister(b).error), db)
    ensures ValidateRegister(b).Pass? && !out.reply.Ok? ==> out.reply == Fail(BAD_REQUEST, Upstream)
    ensures out.reply.Ok? ==>
              && out.reply.status == CREATED
              && out.reply.body == NewAccount(signUp.user.id, signUp.user.email, b.firstName.value,
                                              b.lastName.value, b.country.value, b.educationLevel.value,
                                              STUDENT_ROLE, INITIAL_TOKENS)
              && out.after == db.(users := db.users + [NewProfile(signUp.user, b, now)], session := out.after.session)
  {
    match ValidateRegister(b)
    case Halt(status, error) => Outcome(Fail(status, error), db)
    case Pass(_) =>
      match signUp
      case SignUpFailed => Outcome(Fail(BAD_REQUEST, Upstream), db)
      case SignedUp(user, issued) =>
        var signedIn := db.(session := if issued.Some? then issued else db.session);
        if Filter(db.users, UserWithId(user.id)) != [] then Outcome(Fail(BAD_REQUEST, Upstream), signedIn)
        else
          var account := NewAccount(user.id, user.email, b.firstName.value, b.lastName.value,
                                    b.country.value, b.educationLevel.value, STUDENT_ROLE, INITIAL_TOKENS);
          Outcome(Ok(CREATED, account), signedIn.(users := db.users + [NewProfile(user, b, now)]))
  }

  /** After a registration the new identity has exactly one profile, a student's with
      three tokens, and every other user's rows are as they were */
  lemma RegisteredIsStudentWithThreeTokens(db: Tables, b: RegisterBody, signUp: SignUp, now: nat)
    requires Register(db, b, signUp, now).reply.Ok?
    ensures var after := Register(db, b, signUp, now).after;
            var row := UserRow(after.users, signUp.user.id);
            && row.Some? && row.value.role == STUDENT_ROLE && row.value.tokensRemaining == Some(INITIAL_TOKENS)
            && row.value.email == signUp.user.email
            && (forall other :: other != signUp.user.id ==>
                  Filter(after.users, UserWithId(other)) == Filter(db.users, UserWithId(other)))
  {
    var profile := NewProfile(signUp.user, b, now);
    var after := Register(db, b, signUp, now).after;
    FilterConcat(db.users, [profile], UserWithId(signUp.user.id));
    forall other | other != signUp.user.id
      ensures Filter(after.users, UserWithId(other)) == Filter(db.users, UserWithId(other))
    {
      FilterConcat(db.users, [profile], UserWithId(other));
    }
  }

  /** A second registration of the same identity is refused and changes nothing */
  lemma RegisterTwiceFails(db: Tables, b: RegisterBody, signUp: SignUp, now: nat, later: nat)
    requires Register(db, b, signUp, now).reply.Ok?
    ensures var after := Register(db, b, signUp, now).after;
            Register(after, b, signUp, later) == Outcome(Fail(BAD_REQUEST, Upstream), after)
  {
    RegisteredIsStudentWithThreeTokens(db, b, signUp, now);
  }

  /** `POST /login` behind `validateLogin`: the identity provider checks the credentials
      and the session it opens becomes the client's session; then the profile row is read
      with `.single()`. Every failure past validation is a 400 with the upstream message,
      and a failed profile read does not undo the new session. The returned user object is
      the profile row, whose fields override the identity's. */
  function Login(db: Tables, b: LoginBody, signIn: SignIn): (out: Outcome<LoggedIn>)
    ensures out.reply.Ok? <==> ValidateLogin(b).Pass? && signIn.SignedIn? && UserRow(db.users, signIn.user.id).Some?
    ensures ValidateLogin(b).Halt? ==> out == Outcome(Fail(BAD_REQUEST, Text(CREDENTIALS_REQUIRED)), db)
    ensures ValidateLogin(b).Pass? && out.reply.Fail? ==> out.reply == Fail(BAD_REQUEST, Upstream)
    ensures out.after == if ValidateLogin(b).Pass? && signIn.SignedIn? then db.(session := Some(signIn.session)) else db
    ensures out.reply.Ok? ==>
              && out.reply.status == OK && out.reply.body.session == signIn.session
              && out.reply.body.user in db.users && out.reply.body.user.id == signIn.user.id
  {
    match ValidateLogin(b)
    case Halt(status, error) => Outcome(Fail(status, error), db)
    case Pass(_) =>
      match signIn
      case SignInFailed => Outcome(Fail(BAD_REQUEST, Upstream), db)
      case SignedIn(user, session) =>
        var signedIn := db.(session := Some(session));
        match UserRow(db.users, user.id)
        case None => Outcome(Fail(BAD_REQUEST, Upstream), signedIn)
        case Some(profile) => Outcome(Ok(OK, LoggedIn(profile, session)), signedIn)
  }

  /** A person who has just registered can sign in and sees the student profile */
  lemma RegisterThenLogin(db: Tables, b: RegisterBody, signUp: SignUp, now: nat, session: string)
    requires Register(db, b, signUp, now).reply.Ok?
    ensures var after := Register(db, b, signUp, now).after;
            var r := Login(after, LoginBody(b.email, b.password), SignedIn(signUp.user, session)).reply;
            r.Ok? && r.body.user.role == STUDENT_ROLE && r.body.user.tokensRemaining == Some(INITIAL_TOKENS)
  {
    RegisteredIsStudentWithThreeTokens(db, b, signUp, now);
  }

  /** `POST /logout`, which no middleware guards: signing the client out clears the one
      session; a failure is a 400 with the upstream message and changes nothing */
  function Logout(db: Tables, signOut: SignOut): (out: Outcome<string>)
    ensures out.reply.Ok? <==> signOut.SignedOut?
    ensures out.reply.Ok? ==> out.reply == Ok(OK, LOGGED_OUT) && out.after == db.(session := None)
    ensures out.reply.Fail? ==> out == Outcome(Fail(BAD_REQUEST, Upstream), db)
  {
    match signOut
    case SignOutFailed => Outcome(Fail(BAD_REQUEST, Upstream), db)
    case SignedOut => Outcome(Ok(OK, LOGGED_OUT), db.(session := None))
  }

  /** A sign-in lets its own token through the middleware, even when the profile read
      then fails and the sign-in itself answers 400 */
  lemma SignInAuthenticates(db: Tables, b: LoginBody, user: AuthUser, token: string, getUser: string -> UserLookup)
    requires ValidateLogin(b).Pass?
    requires ' ' !in token && getUser(token).UserFound?
    ensures var after := Login(db, b, SignedIn(user, token)).after;
            AuthMiddleware.Authenticate(after, Some(AuthMiddleware.BEARER + token), getUser) == Pass(getUser(token).user)
  {
    AuthMiddleware.SessionHolderIsAuthenticated(Login(db, b, SignedIn(user, token)).after, token, getUser);
  }

  /** The server keeps one session for everybody: once a second person signs in, the first
      person's token is refused as "Session invalide" */
  lemma LaterSignInLocksOutEarlier(db: Tables, b1: LoginBody, u1: AuthUser, t1: string,
                                   b2: LoginBody, u2: AuthUser, t2: string, getUser: string -> UserLookup)
    requires ValidateLogin(b2).Pass? && ' ' !in t1 && t1 != t2
    ensures var first := Login(db, b1, SignedIn(u1, t1)).after;
            var second := Login(first, b2, SignedIn(u2, t2)).after;
            AuthMiddleware.Authenticate(second, Some(AuthMiddleware.BEARER + t1), getUser) ==
              Halt(UNAUTHORIZED, Text(AuthMiddleware.INVALID_SESSION))
  {
    AuthMiddleware.BearerRoundTrip(t1);
  }

  /** One sign-out, by anyone, locks every user out until the next sign-in */
  lemma LogoutLocksOutEveryone(db: Tables, header: Option<string>, getUser: string -> UserLookup)
    ensures var after := Logout(db, SignedOut).after;
            AuthMiddleware.Authenticate(after, header, getUser) ==
              if AuthMiddleware.BearerToken(header).Halt? then Halt(UNAUTHORIZED, Text(AuthMiddleware.MISSING_TOKEN))
              else Halt(UNAUTHORIZED, Text(AuthMiddleware.INVALID_SESSION))
  {
    AuthMiddleware.NoSessionRefusesAll(Logout(db, SignedOut).after, header, getUser);
  }

  /** The registration handler against the store */
  method RegisterAccount(store: Store, b: RegisterBody, signUp: SignUp, now: nat) returns (r: Reply<NewAccount>)
    modifies store
    ensures r == Register(old(store.Contents()), b, signUp, now).reply
    ensures store.Contents() == Register(old(store.Contents()), b, signUp, now).after
  {
    var check := ValidateRegister(b);
    if check.Halt? {
      return Fail(check.status, check.error);
    }
    if signUp.SignUpFailed? {
      return Fail(BAD_REQUEST, Upstream);
    }
    var user := signUp.user;
    if signUp.session.Some? {
      store.session := signUp.session;
    }
    if Filter(store.users, UserWithId(user.id)) != [] {
      return Fail(BAD_REQUEST, Upstream);
    }
    store.users := store.users + [NewProfile(user, b, now)];
    r := Ok(CREATED, NewAccount(user.id, user.email, b.firstName.value, b.lastName.value,
                                b.country.value, b.educationLevel.value, STUDENT_ROLE, INITIAL_TOKENS));
  }

  /** The sign-in handler against the store */
  method SignInAccount(store: Store, b: LoginBody, signIn: SignIn) returns (r: Reply<LoggedIn>)
    modifies store
    ensures r == Login(old(store.Contents()), b, signIn).reply
    ensures store.Contents() == Login(old(store.Contents()), b, signIn).after
  {
    if ValidateLogin(b).Halt? {
      return Fail(BAD_REQUEST, Text(CREDENTIALS_REQUIRED));
    }
    if signIn.SignInFailed? {
      return Fail(BAD_REQUEST, Upstream);
    }
    store.session := Some(signIn.session);
    var profile := UserRow(store.users, signIn.user.id);
    if profile.None? {
      return Fail(BAD_REQUEST, Upstream);
    }
    r := Ok(OK, LoggedIn(profile.value, signIn.session));
  }

  /** The sign-out handler against the store */
  method SignOutAccount(store: Store, signOut: SignOut) returns (r: Reply<string>)
    modifies store
    ensures r == Logout(old(store.Contents()), signOut).reply
    ensures store.Contents() == Logout(old(store.Contents()), signOut).after
  {
    if signOut.SignOutFailed? {
      return Fail(BAD_REQUEST, Upstream);
    }
    store.session := None;
    r := Ok(OK, LOGGED_OUT);
  }
}
