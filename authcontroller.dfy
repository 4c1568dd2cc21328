/** The authentication handlers. Each runs against a user collection, the
    primitives, the current instant and the request fields it reads, and
    ends in an `Outcome`: a response, an error handed to `next`, a plain
    `next()`, or nothing. */
module AuthController {
  import opened Wrappers
  import opened Strings
  import opened AppErrors
  import opened Crypto
  import opened UserModel
  import opened Http
  import opened ErrorController

  /** `{ status: 'success', token }` or `{ status: 'success', message }`. */
  datatype AuthBody = TokenBody(token: string) | MessageBody(message: string)

  /** A user as `protect` attaches it to the request. */
  datatype StoredUser = StoredUser(id: UserId, record: UserRecord)

  class Request {
    /** `req.headers.authorization`. */
    var authorization: Option<string>
    /** `req.user`. */
    var user: Option<StoredUser>

    constructor (authorization: Option<string>)
      ensures this.authorization == authorization && user.None?
    {
      this.authorization := authorization;
      user := None;
    }
  }

  // ---------------------------------------------------------------------------
  // bcrypt.compare

  function TypeName(o: Option<string>): string {
    if o.Some? then "string" else "undefined"
  }

  /** `bcrypt.compare(candidate, hash)`, which rejects anything but two
      strings. */
  function Compare(prims: Primitives, candidate: Option<string>, hash: Option<string>): (r: Result<bool, ErrorRecord>)
    ensures r.Success? <==> candidate.Some? && hash.Some?
    ensures r.Success? ==> r.value == prims.bcryptCompare(candidate.value, hash.value)
    ensures r.Failure? ==> r.error.name == "Error" && !r.error.isOperational
  {
    if candidate.Some? && hash.Some? then Success(prims.bcryptCompare(candidate.value, hash.value))
    else Failure(Thrown("Error", "Illegal arguments: " + TypeName(candidate) + ", " + TypeName(hash)))
  }

  /** The outcome of the password check against a found user. */
  function PasswordVerdict(prims: Primitives, now: int, id: UserId, r: UserRecord,
                           candidate: Option<string>, denial: string): Outcome<AuthBody>
  {
    match Compare(prims, candidate, r.password)
    case Failure(e) => NextError(e)
    case Success(correct) =>
      if correct then Respond(200, TokenBody(prims.signToken(id, now)))
      else NextError(AppError(denial, 401))
  }

  const MissingCredentials := "PLease provide email address and password!"
  const IncorrectCredentials := "Incorrect email or password"

  /** `user.correctPassword(...)` on the `null` that `findOne` yields for an
      unknown e-mail address. */
  function NullUserError(member: string): ErrorRecord {
    TypeError("Cannot read properties of null (reading '" + member + "')")
  }

  predicate HasEmail(users: map<UserId, UserRecord>, email: string) {
    exists id | id in users :: users[id].email == Some(email)
  }

  // ---------------------------------------------------------------------------
  // login

  /** `login` as written: an unknown e-mail address reaches
      `user.correctPassword` with `user === null`, which throws. */
  method LoginAsWritten(store: UserStore, prims: Primitives, now: int,
                        email: Option<string>, password: Option<string>) returns (o: Outcome<AuthBody>)
    ensures !Present(email) || !Present(password) ==> o == NextError(AppError(MissingCredentials, 400))
    ensures Present(email) && Present(password) && !HasEmail(store.users, email.value) ==>
      o == NextError(NullUserError("correctPassword"))
    ensures Present(email) && Present(password) && HasEmail(store.users, email.value) ==>
      exists id | id in store.users && store.users[id].email == email ::
        o == PasswordVerdict(prims, now, id, store.users[id], password, IncorrectCredentials)
  {
    if !Present(email) || !Present(password) {
      return NextError(AppError(MissingCredentials, 400));
    }
    var user := store.FindOneByEmail(email.value);
    if user == null {
      return NextError(NullUserError("correctPassword"));
    }
    o := CheckPassword(prims, now, user, password, IncorrectCredentials);
  }

  /** `login` as intended: an unknown e-mail address is refused like a wrong
      password. */
  method Login(store: UserStore, prims: Primitives, now: int,
               email: Option<string>, password: Option<string>) returns (o: Outcome<AuthBody>)
    ensures !Present(email) || !Present(password) ==> o == NextError(AppError(MissingCredentials, 400))
    ensures Present(email) && Present(password) && !HasEmail(store.users, email.value) ==>
      o == NextError(AppError(IncorrectCredentials, 401))
    ensures Present(email) && Present(password) && HasEmail(store.users, email.value) ==>
      exists id | id in store.users && store.users[id].email == email ::
        o == PasswordVerdict(prims, now, id, store.users[id], password, IncorrectCredentials)
  {
    if !Present(email) || !Present(password) {
      return NextError(AppError(MissingCredentials, 400));
    }
    var user := store.FindOneByEmail(email.value);
    if user == null {
      return NextError(AppError(IncorrectCredentials, 401));
    }
    o := CheckPassword(prims, now, user, password, IncorrectCredentials);
  }

  /** What a production client sees for an unknown e-mail address: the
      login as written answers with the generic 500; the intended login
      gets the 401 a wrong password gets, without its message from the
      error middleware as written and with it from the intended one. */
  lemma UnknownEmailResponse()
    ensures SendErrorProd(Spread(Defaulted(NullUserError("correctPassword"))))
            == Response(500, ProdBody("error", Some(GenericMessage)))
    ensures SendErrorProd(Spread(Defaulted(AppError(IncorrectCredentials, 401)))) == Response(401, ProdBody("fail", None))
    ensures SendErrorProd(Defaulted(AppError(IncorrectCredentials, 401)))
            == Response(401, ProdBody("fail", Some(IncorrectCredentials)))
  {
    StatusExamples(401);
  }

  method CheckPassword(prims: Primitives, now: int, user: UserDocument,
                       candidate: Option<string>, denial: string) returns (o: Outcome<AuthBody>)
    ensures o == PasswordVerdict(prims, now, user.id, user.Record(), candidate, denial)
  {
    var correct := Compare(prims, candidate, user.password);
    if correct.Failure? {
      return NextError(correct.error);
    }
    if !correct.value {
      return NextError(AppError(denial, 401));
    }
    o := Respond(200, TokenBody(prims.signToken(user.id, now)));
  }

  /** A login answers 200 only with a token signed for a user holding that
      e-mail address whose stored hash matches the password. */
  lemma PasswordVerdictGrants(prims: Primitives, now: int, id: UserId, r: UserRecord,
                              candidate: Option<string>, denial: string)
    ensures PasswordVerdict(prims, now, id, r, candidate, denial).Respond? <==>
      candidate.Some? && r.password.Some? && prims.bcryptCompare(candidate.value, r.password.value)
    ensures PasswordVerdict(prims, now, id, r, candidate, denial).Respond? ==>
      PasswordVerdict(prims, now, id, r, candidate, denial) == Respond(200, TokenBody(prims.signToken(id, now)))
    ensures candidate.Some? && r.password.Some? && !prims.bcryptCompare(candidate.value, r.password.value) ==>
      PasswordVerdict(prims, now, id, r, candidate, denial) == NextError(AppError(denial, 401))
  {
  }

  // ---------------------------------------------------------------------------
  // protect

  /** The second space-separated piece of an authorization header that
      starts with `Bearer`, when there is one and it is not empty. */
  function BearerToken(authorization: Option<string>): (token: Option<string>)
    ensures token.Some? ==> authorization.Some? && StartsWith(authorization.value, "Bearer")
    ensures token.Some? ==> token.value != "" && forall k | 0 <= k < |token.value| :: token.value[k] != ' '
  {
    if authorization.Some? && authorization.value != "" && StartsWith(authorization.value, "Bearer") then
      var parts := Split(authorization.value, ' ');
      if |parts| >= 2 && parts[1] != "" then Some(parts[1]) else None
    else None
  }

  /** `Bearer <token>` yields the token. */
  lemma BearerTokenOf(token: string)
    requires token != "" && forall k | 0 <= k < |token| :: token[k] != ' '
    ensures BearerToken(Some("Bearer " + token)) == Some(token)
  {
    var h := "Bearer " + token;
    assert h == "Bearer" + [' '] + token;
    assert h[..6] == "Bearer";
    SplitFirst("Bearer", ' ', token);
    SplitNone(token, ' ');
  }

  /** No header, a header of another scheme, or a bare `Bearer`, yields no
      token. */
  lemma NoBearerToken(scheme: string)
    requires !StartsWith(scheme, "Bearer")
    ensures BearerToken(None).None? && BearerToken(Some(scheme)).None?
    ensures BearerToken(Some("Bearer")).None?
  {
    SplitNone("Bearer", ' ');
  }

  const NotLoggedIn := "You are not logged in! Please log in to get access."
  const UserGone := "The user belonging to this token does no longer exist."
  const PasswordChanged := "User recently changed password. Please login again!"

  /** What `jwt.verify` rejects with. */
  function JwtError(r: JwtResult): ErrorRecord
    requires !r.Verified?
  {
    match r
    case Malformed(m) => LibraryError("JsonWebTokenError", m)
    case Expired(m) => LibraryError("TokenExpiredError", m)
  }

  /** The checks of `protect`, in their order: a bearer token, a token that
      verifies, a user that still exists, a password not changed since the
      token was issued. */
  function Authenticate(authorization: Option<string>, users: map<UserId, UserRecord>,
                        prims: Primitives, now: int): Result<StoredUser, ErrorRecord>
  {
    match BearerToken(authorization)
    case None => Failure(AppError(NotLoggedIn, 401))
    case Some(token) =>
      match prims.jwtVerify(token, now)
      case Verified(id, iat) =>
        if id !in users then Failure(AppError(UserGone, 401))
        else if ChangedPasswordAfter(users[id].passwordChangedAt, iat) then Failure(AppError(PasswordChanged, 401))
        else Success(StoredUser(id, users[id]))
      case r => Failure(JwtError(r))
  }

  /** `protect` lets a request through exactly when every check passes, and
      then with the user the token names, as currently stored. */
  lemma AuthenticateGrants(authorization: Option<string>, users: map<UserId, UserRecord>,
                           prims: Primitives, now: int)
    ensures Authenticate(authorization, users, prims, now).Success? <==>
      && BearerToken(authorization).Some?
      && prims.jwtVerify(BearerToken(authorization).value, now).Verified?
      && prims.jwtVerify(BearerToken(authorization).value, now).id in users
      && !ChangedPasswordAfter(users[prims.jwtVerify(BearerToken(authorization).value, now).id].passwordChangedAt,
                               prims.jwtVerify(BearerToken(authorization).value, now).iat)
    ensures Authenticate(authorization, users, prims, now).Success? ==>
      var u := Authenticate(authorization, users, prims, now).value;
      u.id == prims.jwtVerify(BearerToken(authorization).value, now).id && u.id in users && u.record == users[u.id]
  {
  }

  /** A missing token is refused before the token or the users are looked at;
      a token that does not verify is refused before the users are. */
  lemma AuthenticateOrder(authorization: Option<string>, users: map<UserId, UserRecord>,
                          others: map<UserId, UserRecord>, prims: Primitives, now: int)
    ensures BearerToken(authorization).None? ==>
      Authenticate(authorization, users, prims, now) == Failure(AppError(NotLoggedIn, 401))
    ensures BearerToken(authorization).Some? && !prims.jwtVerify(BearerToken(authorization).value, now).Verified? ==>
      Authenticate(authorization, users, prims, now) == Authenticate(authorization, others, prims, now)
    ensures Authenticate(authorization, users, prims, now).Failure? ==>
      !Authenticate(authorization, users, prims, now).error.isOperational ||
      Authenticate(authorization, users, prims, now).error.statusCode == Some(401)
  {
  }

  /** `protect`: sets `req.user` and calls `next()` when the checks pass,
      and otherwise hands their error on and leaves `req.user` alone. */
  method Protect(req: Request, store: UserStore, prims: Primitives, now: int) returns (o: Outcome<AuthBody>)
    modifies req
    ensures req.authorization == old(req.authorization)
    ensures match Authenticate(old(req.authorization), store.users, prims, now)
      case Success(u) => o == Next && req.user == Some(u)
      case Failure(e) => o == NextError(e) && req.user == old(req.user)
  {
    var token := BearerToken(req.authorization);
    if token.None? {
      return NextError(AppError(NotLoggedIn, 401));
    }
    var decoded := prims.jwtVerify(token.value, now);
    if !decoded.Verified? {
      return NextError(JwtError(decoded));
    }
    var currentUser := store.FindById(decoded.id);
    if currentUser == null {
      return NextError(AppError(UserGone, 401));
    }
    if ChangedPasswordAfter(currentUser.passwordChangedAt, decoded.iat) {
      return NextError(AppError(PasswordChanged, 401));
    }
    req.user := Some(StoredUser(currentUser.id, currentUser.Record()));
    o := Next;
  }

  // ---------------------------------------------------------------------------
  // restrictTo

  const NoPermission := "You do not have permission to perform this action."

  predicate Permitted(roles: seq<string>, user: StoredUser) {
    user.record.role.Some? && user.record.role.value in roles
  }

  /** `restrictTo(...roles)` as written: on a refusal the middleware returns
      an `AppError` instead of passing it to `next`, so nothing answers. */
  function RestrictToAsWritten(roles: seq<string>, user: Option<StoredUser>): (o: Outcome<AuthBody>)
    ensures o == Next <==> user.Some? && Permitted(roles, user.value)
    ensures user.Some? && !Permitted(roles, user.value) ==> o == NoResponse
  {
    if user.None? then NextError(TypeError("Cannot read properties of undefined (reading 'role')"))
    else if !Permitted(roles, user.value) then NoResponse
    else Next
  }

  /** `restrictTo(...roles)` as intended: a refusal is a 403. */
  function RestrictTo(roles: seq<string>, user: Option<StoredUser>): (o: Outcome<AuthBody>)
    ensures o == Next <==> user.Some? && Permitted(roles, user.value)
    ensures user.Some? && !Permitted(roles, user.value) ==> o == NextError(AppError(NoPermission, 403))
  {
    if user.None? then NextError(TypeError("Cannot read properties of undefined (reading 'role')"))
    else if !Permitted(roles, user.value) then NextError(AppError(NoPermission, 403))
    else Next
  }

  /** An authenticated `user` sent to an `admin`-only route by the code as
      written gets no answer at all. */
  lemma RestrictToHangs(id: UserId, r: UserRecord)
    requires r.role == Some("user")
    ensures RestrictToAsWritten(["admin"], Some(StoredUser(id, r))) == NoResponse
    ensures RestrictTo(["admin"], Some(StoredUser(id, r))).NextError?
    ensures RestrictTo(["admin"], Some(StoredUser(id, r))).error.statusCode == Some(403)
  {
    assert "user" != "admin";
  }

  // ---------------------------------------------------------------------------
  // forgotPassword

  const NoSuchEmail := "There is no user with email address"
  const TokenSent := "Token sent to email"
  const SendFailed := "There was an error sending the email. Please try again later!"

  /** Whether `sendEmail` succeeds is a parameter (`mailed`). The reset
      token is the hexadecimal rendering of `random`. */
  method ForgotPassword(store: UserStore, prims: Primitives, now: int, email: string,
                        random: seq<Byte>, mailed: bool) returns (o: Outcome<AuthBody>)
    requires |random| == 32
    modifies store
    ensures !HasEmail(old(store.users), email) ==>
      o == NextError(AppError(NoSuchEmail, 404)) && store.users == old(store.users)
    ensures HasEmail(old(store.users), email) ==>
      exists id | id in old(store.users) && old(store.users)[id].email == Some(email) ::
        store.users == old(store.users)[id := ResetRequested(old(store.users)[id], prims, now, random, mailed)]
    ensures HasEmail(old(store.users), email) ==>
      o == if mailed then Respond(200, MessageBody(TokenSent)) else NextError(AppError(SendFailed, 500))
  {
    var user := store.FindOneByEmail(email);
    if user == null {
      return NextError(AppError(NoSuchEmail, 404));
    }
    ghost var before := user.Record();
    var resetToken := user.CreatePasswordResetToken(random, prims, now);
    ghost var requested := user.Record();
    var thrown := store.Save(user, false, prims, now);
    AfterHooksUnmodified(requested, false, prims, now);
    assert store.users == old(store.users)[user.id := requested];
    if mailed {
      o := Respond(200, MessageBody(TokenSent));
    } else {
      user.passwordResetToken := None;
      user.passwordResetExpires := None;
      ghost var cleared := user.Record();
      thrown := store.Save(user, false, prims, now);
      AfterHooksUnmodified(cleared, false, prims, now);
      assert store.users == old(store.users)[user.id := cleared];
      o := NextError(AppError(SendFailed, 500));
    }
    assert store.users == old(store.users)[user.id := ResetRequested(before, prims, now, random, mailed)];
  }

  /** The stored user after a reset request: the digest of the token and an
      expiry ten minutes ahead when the mail went out, and no reset token at
      all when it did not. Nothing else changes. */
  function ResetRequested(r: UserRecord, prims: Primitives, now: int, random: seq<Byte>, mailed: bool): (s: UserRecord)
    ensures s.password == r.password && s.passwordConfirm == r.passwordConfirm && s.passwordChangedAt == r.passwordChangedAt
    ensures s.name == r.name && s.email == r.email && s.role == r.role
    ensures mailed ==> s.passwordResetToken == Some(prims.sha256Hex(HexEncode(random))) && s.passwordResetExpires == Some(now + 600000)
    ensures !mailed ==> s.passwordResetToken.None? && s.passwordResetExpires.None?
  {
    if mailed then r.(passwordResetToken := Some(prims.sha256Hex(HexEncode(random))), passwordResetExpires := Some(now + 600000))
    else r.(passwordResetToken := None, passwordResetExpires := None)
  }

  /** The mailed token is the one a later reset presents: its digest is
      what was stored, and it stays valid for ten minutes less a moment. */
  lemma MailedTokenResets(r: UserRecord, prims: Primitives, now: int, random: seq<Byte>, later: int)
    requires now <= later < now + 600000
    ensures ResetTokenMatches(ResetRequested(r, prims, now, random, true), prims.sha256Hex(HexEncode(random)), later)
    ensures !ResetTokenMatches(ResetRequested(r, prims, now, random, true), prims.sha256Hex(HexEncode(random)), now + 600000)
  {
  }

  // ---------------------------------------------------------------------------
  // resetPassword

  const BadResetToken := "Token is invalid or expired"

  function WithNewPassword(r: UserRecord, password: Option<string>, passwordConfirm: Option<string>): UserRecord {
    r.(password := password, passwordConfirm := passwordConfirm, passwordResetExpires := None, passwordResetToken := None)
  }

  predicate HasResetToken(users: map<UserId, UserRecord>, hashed: string, now: int) {
    exists id | id in users :: ResetTokenMatches(users[id], hashed, now)
  }

  /** `resetPassword`: a token whose digest is stored and has not expired
      sets the new password, drops the reset token and logs the user in. */
  method ResetPassword(store: UserStore, prims: Primitives, now: int, token: string,
                       password: Option<string>, passwordConfirm: Option<string>) returns (o: Outcome<AuthBody>)
    modifies store
    ensures !HasResetToken(old(store.users), prims.sha256Hex(token), now) ==>
      o == NextError(AppError(BadResetToken, 400)) && store.users == old(store.users)
    ensures HasResetToken(old(store.users), prims.sha256Hex(token), now) ==>
      exists id | id in old(store.users) && ResetTokenMatches(old(store.users)[id], prims.sha256Hex(token), now) ::
        var r := WithNewPassword(old(store.users)[id], password, passwordConfirm);
        if ValidUser(r, prims.isEmail) then
          && o == Respond(200, TokenBody(prims.signToken(id, now)))
          && store.users == old(store.users)[id := AfterHooks(r, password != old(store.users)[id].password, false, prims, now)]
        else
          && o == NextError(ValidationError("User validation failed", ValidateUser(r, prims.isEmail)))
          && store.users == old(store.users)
  {
    var hashedToken := prims.sha256Hex(token);
    var user := store.FindOneByResetToken(hashedToken, now);
    if user == null {
      return NextError(AppError(BadResetToken, 400));
    }
    ghost var before := user.Record();
    user.SetPassword(password);
    user.passwordConfirm := passwordConfirm;
    user.passwordResetExpires := None;
    user.passwordResetToken := None;
    assert user.Record() == WithNewPassword(before, password, passwordConfirm);
    var thrown := store.Save(user, true, prims, now);
    if thrown.Some? {
      return NextError(thrown.value);
    }
    o := Respond(200, TokenBody(prims.signToken(user.id, now)));
  }

  // ---------------------------------------------------------------------------
  // updatePassword

  const WrongPassword := "Your password is incorrect!"

  /** `updatePassword` as written: the current password is checked against
      `req.body.passwordConfirm`, which must also equal the new password, so
      only a "new" password that already matches the stored hash gets through. */
  method UpdatePasswordAsWritten(store: UserStore, prims: Primitives, now: int, userId: UserId,
                                 password: Option<string>, passwordConfirm: Option<string>) returns (o: Outcome<AuthBody>)
    modifies store
    ensures userId !in old(store.users) ==> o == NextError(NullUserError("correctPassword")) && store.users == old(store.users)
    ensures userId in old(store.users) ==>
      var r := old(store.users)[userId];
      match Compare(prims, passwordConfirm, r.password)
      case Failure(e) => o == NextError(e) && store.users == old(store.users)
      case Success(correct) =>
        if !correct then o == NextError(AppError(WrongPassword, 401)) && store.users == old(store.users)
        else
          var s := r.(password := password, passwordConfirm := passwordConfirm);
          if ValidUser(s, prims.isEmail) then
            && o == Respond(200, TokenBody(prims.signToken(userId, now)))
            && store.users == old(store.users)[userId := AfterHooks(s, password != r.password, false, prims, now)]
          else
            o == NextError(ValidationError("User validation failed", ValidateUser(s, prims.isEmail))) && store.users == old(store.users)
    ensures o.Respond? ==>
      && userId in old(store.users)
      && password.Some? && old(store.users)[userId].password.Some?
      && prims.bcryptCompare(password.value, old(store.users)[userId].password.value)
    ensures !o.Respond? ==> store.users == old(store.users)
  {
    var user := store.FindById(userId);
    if user == null {
      return NextError(NullUserError("correctPassword"));
    }
    o := ChangePassword(store, prims, now, user, passwordConfirm, password, passwordConfirm);
  }

  /** `updatePassword` as intended: the current password comes from its own
      field, `req.body.passwordCurrent`. */
  method UpdatePassword(store: UserStore, prims: Primitives, now: int, userId: UserId,
                        passwordCurrent: Option<string>, password: Option<string>,
                        passwordConfirm: Option<string>) returns (o: Outcome<AuthBody>)
    modifies store
    ensures userId !in old(store.users) ==> o == NextError(NullUserError("correctPassword")) && store.users == old(store.users)
    ensures userId in old(store.users) ==>
      var r := old(store.users)[userId];
      match Compare(prims, passwordCurrent, r.password)
      case Failure(e) => o == NextError(e) && store.users == old(store.users)
      case Success(correct) =>
        if !correct then o == NextError(AppError(WrongPassword, 401)) && store.users == old(store.users)
        else
          var s := r.(password := password, passwordConfirm := passwordConfirm);
          if ValidUser(s, prims.isEmail) then
            && o == Respond(200, TokenBody(prims.signToken(userId, now)))
            && store.users == old(store.users)[userId := AfterHooks(s, password != r.password, false, prims, now)]
          else
            o == NextError(ValidationError("User validation failed", ValidateUser(s, prims.isEmail))) && store.users == old(store.users)
  {
    var user := store.FindById(userId);
    if user == null {
      return NextError(NullUserError("correctPassword"));
    }
    o := ChangePassword(store, prims, now, user, passwordCurrent, password, passwordConfirm);
  }

  /** The part the two versions share: check `candidate` against the stored
      hash, set the new password and its confirmation, save with validation
      and log the user in. */
  method ChangePassword(store: UserStore, prims: Primitives, now: int, user: UserDocument,
                        candidate: Option<string>, password: Option<string>,
                        passwordConfirm: Option<string>) returns (o: Outcome<AuthBody>)
    requires user.id in store.users && user.Record() == store.users[user.id]
    requires !user.isNew && !user.passwordModified && user != store as object
    modifies store, user
    ensures var r := old(store.users)[user.id];
      match Compare(prims, candidate, r.password)
      case Failure(e) => o == NextError(e) && store.users == old(store.users)
      case Success(correct) =>
        if !correct then o == NextError(AppError(WrongPassword, 401)) && store.users == old(store.users)
        else
          var s := r.(password := password, passwordConfirm := passwordConfirm);
          if ValidUser(s, prims.isEmail) then
            && o == Respond(200, TokenBody(prims.signToken(user.id, now)))
            && store.users == old(store.users)[user.id := AfterHooks(s, password != r.password, false, prims, now)]
          else
            o == NextError(ValidationError("User validation failed", ValidateUser(s, prims.isEmail))) && store.users == old(store.users)
  {
    var correct := Compare(prims, candidate, user.password);
    if correct.Failure? {
      return NextError(correct.error);
    }
    if !correct.value {
      return NextError(AppError(WrongPassword, 401));
    }
    user.SetPassword(password);
    user.passwordConfirm := passwordConfirm;
    var thrown := store.Save(user, true, prims, now);
    if thrown.Some? {
      return NextError(thrown.value);
    }
    o := Respond(200, TokenBody(prims.signToken(user.id, now)));
  }
}
