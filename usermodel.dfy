/** The user document: its schema validators and defaults, the two
    `pre('save')` hooks, the instance methods, and a user collection the
    controllers read and write through Mongoose-style calls. A stored user
    is a `UserRecord`; a loaded or created document is a `UserDocument`
    whose fields change in place until it is saved. */
module UserModel {
  import opened Wrappers
  import opened Strings
  import opened AppErrors
  import opened Crypto

  type UserId = string

  datatype UserRecord = UserRecord(
    name: Option<string>,
    email: Option<string>,
    role: Option<string>,
    password: Option<string>,
    passwordConfirm: Option<string>,
    /** Milliseconds since the epoch. */
    passwordChangedAt: Option<int>,
    passwordResetToken: Option<string>,
    passwordResetExpires: Option<int>)

  const Roles: seq<string> := ["user", "guide", "lead-guide", "admin"]

  /** `User.create({ name, email, password, passwordConfirm })`: the `name`
      setter trims and `role` takes its default. */
  function NewUser(name: Option<string>, email: Option<string>, password: Option<string>,
                   passwordConfirm: Option<string>): (r: UserRecord)
    ensures r.role == Some("user") && r.role.value in Roles
    ensures r.email == email && r.password == password && r.passwordConfirm == passwordConfirm
    ensures r.name.Some? <==> name.Some?
    ensures r.name.Some? ==> r.name.value == Trim(name.value)
    ensures r.passwordChangedAt.None? && r.passwordResetToken.None? && r.passwordResetExpires.None?
  {
    UserRecord(if name.Some? then Some(Trim(name.value)) else None, email, Some("user"),
               password, passwordConfirm, None, None, None)
  }

  // ---------------------------------------------------------------------------
  // Validation

  /** The first failing validator of each path, in schema order. */
  function ValidateUser(r: UserRecord, isEmail: string -> bool): (errors: seq<FieldError>)
    ensures errors == [] <==> ValidUser(r, isEmail)
  {
    NameErrors(r) + EmailErrors(r, isEmail) + RoleErrors(r) + PasswordErrors(r) + ConfirmErrors(r)
  }

  const UserPaths: set<string> := {"name", "email", "role", "password", "passwordConfirm"}

  predicate PathsAmong(errors: seq<FieldError>, paths: set<string>) {
    forall k | 0 <= k < |errors| :: errors[k].path in paths
  }

  lemma PathsAmongAppend(a: seq<FieldError>, b: seq<FieldError>, paths: set<string>)
    requires PathsAmong(a, paths) && PathsAmong(b, paths)
    ensures PathsAmong(a + b, paths)
  {
    forall k | 0 <= k < |a + b| ensures (a + b)[k].path in paths {
      if k >= |a| {
        assert (a + b)[k] == b[k - |a|];
      }
    }
  }

  /** Every validation error names one of the schema's paths. */
  lemma ValidateUserPaths(r: UserRecord, isEmail: string -> bool)
    ensures PathsAmong(ValidateUser(r, isEmail), UserPaths)
  {
    var n, e, ro, pw, c := NameErrors(r), EmailErrors(r, isEmail), RoleErrors(r), PasswordErrors(r), ConfirmErrors(r);
    assert PathsAmong(n, UserPaths) && PathsAmong(e, UserPaths) && PathsAmong(ro, UserPaths);
    assert PathsAmong(pw, UserPaths) && PathsAmong(c, UserPaths);
    PathsAmongAppend(n, e, UserPaths);
    PathsAmongAppend(n + e, ro, UserPaths);
    PathsAmongAppend(n + e + ro, pw, UserPaths);
    PathsAmongAppend(n + e + ro + pw, c, UserPaths);
  }

  function NameErrors(r: UserRecord): seq<FieldError> {
    if !Present(r.name) then [FieldError("name", "Please tell us your name!")] else []
  }

  function EmailErrors(r: UserRecord, isEmail: string -> bool): seq<FieldError> {
    if !Present(r.email) then [FieldError("email", "Please provide your email!")]
    else if !isEmail(r.email.value) then [FieldError("email", "Please provide a valid email")]
    else []
  }

  /** The enum validator lets an absent role through; Mongoose's default
      message names the rejected value. */
  function RoleErrors(r: UserRecord): seq<FieldError> {
    if r.role.Some? && r.role.value !in Roles
    then [FieldError("role", "`" + r.role.value + "` is not a valid enum value for path `role`.")]
    else []
  }

  function PasswordErrors(r: UserRecord): seq<FieldError> {
    if !Present(r.password) then [FieldError("password", "Please enter your password")]
    else if |r.password.value| < 8 then [FieldError("password", "Password must contains atleast 8 characters")]
    else []
  }

  /** `this.password === el`. */
  function ConfirmErrors(r: UserRecord): seq<FieldError> {
    if !Present(r.passwordConfirm) then [FieldError("passwordConfirm", "Please confirm your password")]
    else if r.password != r.passwordConfirm then [FieldError("passwordConfirm", "Passwords are not same!")]
    else []
  }

  /** A user the schema accepts: a name, a well-formed e-mail address, a
      role from the list (or none), a password of at least 8 characters and
      a confirmation equal to it. */
  predicate ValidUser(r: UserRecord, isEmail: string -> bool) {
    && Present(r.name)
    && Present(r.email) && isEmail(r.email.value)
    && (r.role.None? || r.role.value in Roles)
    && Present(r.password) && |r.password.value| >= 8
    && r.passwordConfirm == r.password
  }

  // ---------------------------------------------------------------------------
  // changedPasswordAfter

  /** `parseInt(ms / 1000, 10)`: the quotient truncated toward zero (exact
      for every instant a JavaScript `Date` can hold). */
  function Seconds(ms: int): int {
    if ms >= 0 then ms / 1000 else -((-ms) / 1000)
  }

  /** A token issued at second `iat` predates the password change. */
  function ChangedPasswordAfter(passwordChangedAt: Option<int>, iat: int): bool {
    passwordChangedAt.Some? && iat < Seconds(passwordChangedAt.value)
  }

  /** A user who never changed the password has no stale tokens. */
  lemma NeverChangedIsFresh(iat: int)
    ensures !ChangedPasswordAfter(None, iat)
  {
  }

  /** For a change at `ms >= 0`, a token is stale exactly when a whole second
      lies between its issue second and the change. */
  lemma ChangedPasswordAfterIff(ms: int, iat: int)
    requires ms >= 0
    ensures ChangedPasswordAfter(Some(ms), iat) <==> (iat + 1) * 1000 <= ms
  {
    var q := ms / 1000;
    assert q * 1000 <= ms < (q + 1) * 1000;
    if iat < q {
      assert (iat + 1) * 1000 <= q * 1000;
    } else {
      assert (q + 1) * 1000 <= (iat + 1) * 1000;
    }
  }

  /** A token issued in the second of the change, or later, is accepted. */
  lemma SameSecondAccepted(ms: int, iat: int)
    requires ms >= 0 && iat * 1000 <= ms < (iat + 1) * 1000
    ensures !ChangedPasswordAfter(Some(ms), iat)
  {
    ChangedPasswordAfterIff(ms, iat);
  }

  /** Before the epoch the quotient is truncated toward zero, not floored:
      -1500 ms is second -1. */
  lemma SecondsTruncate()
    ensures Seconds(-1500) == -1 && Seconds(1500) == 1
    ensures ChangedPasswordAfter(Some(-1500), -2) && !ChangedPasswordAfter(Some(-1500), -1)
  {
  }

  // ---------------------------------------------------------------------------
  // The pre-save hooks, on values

  /** The record the two hooks leave, when the first does not throw: a
      modified password is hashed and its confirmation dropped; a modified
      password of a document already stored is stamped a second in the past. */
  function AfterHooks(r: UserRecord, passwordModified: bool, isNew: bool,
                      prims: Primitives, now: int): (s: UserRecord)
    requires passwordModified ==> r.password.Some?
    ensures s.name == r.name && s.email == r.email && s.role == r.role
    ensures s.passwordResetToken == r.passwordResetToken && s.passwordResetExpires == r.passwordResetExpires
  {
    var hashed := if passwordModified then r.(password := Some(prims.bcryptHash(r.password.value)), passwordConfirm := None) else r;
    if !passwordModified || isNew then hashed else hashed.(passwordChangedAt := Some(now - 1000))
  }

  /** Saving with the password untouched changes nothing. */
  lemma AfterHooksUnmodified(r: UserRecord, isNew: bool, prims: Primitives, now: int)
    ensures AfterHooks(r, false, isNew, prims, now) == r
  {
  }

  /** A changed password is stored only as its hash, the confirmation is
      dropped, and the change instant is recorded unless the user is new. */
  lemma AfterHooksModified(r: UserRecord, isNew: bool, prims: Primitives, now: int)
    requires r.password.Some?
    ensures var s := AfterHooks(r, true, isNew, prims, now);
      && s.password == Some(prims.bcryptHash(r.password.value))
      && s.passwordConfirm.None?
      && s.passwordChangedAt == (if isNew then r.passwordChangedAt else Some(now - 1000))
  {
  }

  /** A password saved by the hooks is accepted by a login that issues its
      token at the same instant. */
  lemma StampPrecedesNewTokens(now: int)
    requires now >= 1000
    ensures !ChangedPasswordAfter(Some(now - 1000), Seconds(now))
  {
    ChangedPasswordAfterIff(now - 1000, Seconds(now));
  }

  // ---------------------------------------------------------------------------
  // Documents

  class UserDocument {
    const id: UserId
    var name: Option<string>
    var email: Option<string>
    var role: Option<string>
    var password: Option<string>
    var passwordConfirm: Option<string>
    var passwordChangedAt: Option<int>
    var passwordResetToken: Option<string>
    var passwordResetExpires: Option<int>
    /** Not yet stored. */
    var isNew: bool
    /** `this.isModified('password')`. */
    var passwordModified: bool

    function Record(): UserRecord
      reads this
    {
      UserRecord(name, email, role, password, passwordConfirm,
                 passwordChangedAt, passwordResetToken, passwordResetExpires)
    }

    constructor (id: UserId, r: UserRecord, isNew: bool)
      ensures this.id == id && Record() == r && this.isNew == isNew && !passwordModified
    {
      this.id := id;
      name := r.name;
      email := r.email;
      role := r.role;
      password := r.password;
      passwordConfirm := r.passwordConfirm;
      passwordChangedAt := r.passwordChangedAt;
      passwordResetToken := r.passwordResetToken;
      passwordResetExpires := r.passwordResetExpires;
      this.isNew := isNew;
      passwordModified := false;
    }

    /** `doc.password = p`: Mongoose marks the path modified when the value
        differs from the current one. */
    method SetPassword(p: Option<string>)
      modifies this
      ensures Record() == old(Record()).(password := p) && isNew == old(isNew)
      ensures passwordModified == (old(passwordModified) || p != old(password))
    {
      passwordModified := passwordModified || p != password;
      password := p;
    }

    /** Stores the SHA-256 digest of a fresh hexadecimal token and an expiry
        ten minutes ahead, and returns the token itself. */
    method CreatePasswordResetToken(random: seq<Byte>, prims: Primitives, now: int) returns (resetToken: string)
      requires |random| == 32
      modifies this
      ensures resetToken == HexEncode(random)
      ensures |resetToken| == 64 && forall k | 0 <= k < 64 :: IsLowerHex(resetToken[k])
      ensures HexDecode(resetToken) == Some(random)
      ensures Record() == old(Record()).(passwordResetToken := Some(prims.sha256Hex(resetToken)),
                                        passwordResetExpires := Some(now + 600000))
      ensures isNew == old(isNew) && passwordModified == old(passwordModified)
    {
      resetToken := HexEncode(random);
      HexRoundTrip(random);
      passwordResetToken := Some(prims.sha256Hex(resetToken));
      passwordResetExpires := Some(now + 10 * 60 * 1000);
    }

    /** The first `pre('save')` hook: hashes a modified password and drops
        the confirmation. `bcrypt.hash` rejects a missing password. */
    method HashPasswordHook(prims: Primitives) returns (thrown: Option<ErrorRecord>)
      modifies this
      ensures isNew == old(isNew) && passwordModified == old(passwordModified)
      ensures !old(passwordModified) ==> thrown.None? && Record() == old(Record())
      ensures old(passwordModified) && old(password).None? ==>
        thrown == Some(Thrown("Error", "Illegal arguments: undefined, number")) && Record() == old(Record())
      ensures old(passwordModified) && old(password).Some? ==>
        && thrown.None?
        && Record() == old(Record()).(password := Some(prims.bcryptHash(old(password).value)), passwordConfirm := None)
    {
      thrown := None;
      if !passwordModified {
        return;
      }
      if password.None? {
        thrown := Some(Thrown("Error", "Illegal arguments: undefined, number"));
        return;
      }
      password := Some(prims.bcryptHash(password.value));
      passwordConfirm := None;
    }

    /** The second `pre('save')` hook as written: it tests the method
        `isModified` itself, which is always truthy, so only a new document
        escapes the stamp. */
    method StampHookAsWritten(now: int)
      modifies this
      ensures isNew == old(isNew) && passwordModified == old(passwordModified)
      ensures Record() == if old(isNew) then old(Record()) else old(Record()).(passwordChangedAt := Some(now - 1000))
    {
      if isNew {
        return;
      }
      passwordChangedAt := Some(now - 1000);
    }

    /** The second hook as intended: it stamps only a changed password of a
        stored document. */
    method StampHook(now: int)
      modifies this
      ensures isNew == old(isNew) && passwordModified == old(passwordModified)
      ensures Record() == if !old(passwordModified) || old(isNew) then old(Record())
                          else old(Record()).(passwordChangedAt := Some(now - 1000))
    {
      if !passwordModified || isNew {
        return;
      }
      passwordChangedAt := Some(now - 1000);
    }
  }

  /** Under the hook as written, saving a stored user whose password has not
      changed (as `forgotPassword` does) stamps the change instant, so every
      token issued more than a second before is refused afterwards. */
  lemma StampAsWrittenRevokesTokens(now: int, iat: int)
    requires now >= 1000 && (iat + 2) * 1000 <= now
    ensures ChangedPasswordAfter(Some(now - 1000), iat)
  {
    ChangedPasswordAfterIff(now - 1000, iat);
  }

  // ---------------------------------------------------------------------------
  // The collection

  /** `{ passwordResetToken: hashed, passwordResetExpires: { $gt: now } }`. */
  predicate ResetTokenMatches(r: UserRecord, hashed: string, now: int) {
    r.passwordResetToken == Some(hashed) && r.passwordResetExpires.Some? && r.passwordResetExpires.value > now
  }

  class UserStore {
    var users: map<UserId, UserRecord>

    constructor (users: map<UserId, UserRecord>)
      ensures this.users == users
    {
      this.users := users;
    }

    /** `User.findById(id)`. */
    method FindById(id: UserId) returns (doc: UserDocument?)
      ensures id !in users ==> doc == null
      ensures id in users ==> doc != null && fresh(doc) && doc.id == id && doc.Record() == users[id]
                              && !doc.isNew && !doc.passwordModified
    {
      doc := null;
      if id in users {
        doc := new UserDocument(id, users[id], false);
      }
    }

    /** `User.findOne({ email })`. */
    method FindOneByEmail(email: string) returns (doc: UserDocument?)
      ensures doc == null <==> forall id | id in users :: users[id].email != Some(email)
      ensures doc != null ==> fresh(doc) && doc.id in users && doc.Record() == users[doc.id]
                              && users[doc.id].email == Some(email) && !doc.isNew && !doc.passwordModified
    {
      doc := null;
      if id :| id in users && users[id].email == Some(email) {
        doc := new UserDocument(id, users[id], false);
      }
    }

    /** `User.findOne` by hashed reset token that has not expired. */
    method FindOneByResetToken(hashed: string, now: int) returns (doc: UserDocument?)
      ensures doc == null <==> forall id | id in users :: !ResetTokenMatches(users[id], hashed, now)
      ensures doc != null ==> fresh(doc) && doc.id in users && doc.Record() == users[doc.id]
                              && ResetTokenMatches(users[doc.id], hashed, now) && !doc.isNew && !doc.passwordModified
    {
      doc := null;
      if id :| id in users && ResetTokenMatches(users[id], hashed, now) {
        doc := new UserDocument(id, users[id], false);
      }
    }

    /** `doc.save({ validateBeforeSave })`: validation (unless switched off),
        then the two hooks, then the write. A failed validation or hook
        leaves the document and the collection as they were. */
    method Save(doc: UserDocument, validate: bool, prims: Primitives, now: int) returns (thrown: Option<ErrorRecord>)
      modifies this, doc
      ensures validate && !ValidUser(old(doc.Record()), prims.isEmail) ==>
        thrown == Some(ValidationError("User validation failed", ValidateUser(old(doc.Record()), prims.isEmail)))
      ensures thrown.Some? ==> users == old(users) && doc.Record() == old(doc.Record())
      ensures thrown.None? <==> (!validate || ValidUser(old(doc.Record()), prims.isEmail))
                                && (old(doc.passwordModified) ==> old(doc.password).Some?)
      ensures thrown.None? ==>
        && doc.Record() == AfterHooks(old(doc.Record()), old(doc.passwordModified), old(doc.isNew), prims, now)
        && users == old(users)[doc.id := doc.Record()]
        && !doc.isNew && !doc.passwordModified
    {
      if validate {
        var errors := ValidateUser(doc.Record(), prims.isEmail);
        if errors != [] {
          return Some(ValidationError("User validation failed", errors));
        }
      }
      thrown := doc.HashPasswordHook(prims);
      if thrown.Some? {
        return;
      }
      doc.StampHook(now);
      users := users[doc.id := doc.Record()];
      doc.isNew := false;
      doc.passwordModified := false;
    }
  }
}
