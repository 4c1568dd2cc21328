# Natours core, modelled in Dafny

Natours is an Express/Mongoose REST API for tours and their users. This
project models the parts of it that make decisions, and proves what they do:

- **The query builder** (`APIFeatures`). It turns a request's query-string
  object into calls on a Mongoose query:
  - `filter` drops the reserved keys and rewrites `gte|gt|lt|lte` into
    MongoDB operators inside the JSON text of the filter;
  - `sort` and `limitFields` turn comma lists into space lists, with defaults;
  - `paginate` computes `skip` and `limit`.

  The query is a class whose field `ops` logs every call made on it.
  `JSON.stringify` and `JSON.parse` are written out. The regular expression
  is defined position by position and proved equal to a word-run rewrite.
- **The user credential lifecycle.**
  - The user schema's validators and defaults.
  - The two `pre('save')` hooks.
  - `changedPasswordAfter` (second truncation), `createPasswordResetToken`,
    and a user collection (id → record).
  - The handlers `login`, `protect`, `restrictTo`, `forgotPassword`,
    `resetPassword` and `updatePassword`. Each one returns an `Outcome`: a
    response, an error handed to `next`, a bare `next()`, or nothing.

  bcrypt, SHA-256, JWT signing and verification, and `validator.isEmail` are
  uninterpreted functions gathered in a `Primitives` value. The current
  instant, the random bytes and whether the e-mail was sent are parameters.
- **Error classification.**
  - `AppError` and its status derived from the first digit of the code.
  - The `handle*` helpers and `sendErrorProd`.
  - The global error middleware, as a method from an error record to what
    the client is sent.
- **Tours.**
  - The tour schema's defaults and validators, and the update validators
    used by `findByIdAndUpdate`.
  - The find and aggregate hooks that hide secret tours.
  - The `aliasTopTours` rewrite of `req.query`, and `getAllTours` threading
    one builder through its four steps.
  - The handlers that create, read, update and delete a tour in a store of
    tours.

Modules follow the source files:
- `ApiFeatures` (with `Json`, `Operators`, `Strings`, `Queries`);
- `UserModel`, `AuthController`, `Crypto`;
- `AppErrors`, `ErrorController`;
- `TourModel`, `TourController`, `Http`.

Eight places where the code does not do what it evidently means to are listed
under "Findings". Each one is modelled twice, as written and as intended, and
the rest of the model uses the intended version.

Some behaviours of the code, stated outright:
- `changedPasswordAfter` truncates `ms / 1000` toward zero (`parseInt`); it
  does not floor it. `UserModel.SecondsTruncate` shows where the two differ.
- The duplicate-key handler extracts the quoted value from `keyValue.name`,
  not from the driver's message (Finding 7).
- `restrictTo` does not answer a refused request (Finding 2).
- The production branch of the error middleware works on `{ ...err }`, which
  leaves out the message of an `AppError` (Finding 8).

## Model

| member | source | states |
|---|---|---|
| ApiFeatures.APIFeatures.constructor | utils/apiFeatures.js:2-5 | The builder holds the given query and query-string object. |
| ApiFeatures.APIFeatures.Filter | utils/apiFeatures.js:8-28 | Adds exactly one `find` with the filter conditions to the query's log and returns the same builder. The stored query string is unchanged, so later steps still see the reserved keys. |
| ApiFeatures.RemoveKeys | utils/apiFeatures.js:10-14 | The copy's keys are the original's minus the reserved ones. |
| ApiFeatures.LookupRemoveKeys | utils/apiFeatures.js:10-14 | Every removed key is absent from the copy; every other key keeps its value. |
| ApiFeatures.FilterDropsReserved | utils/apiFeatures.js:10-14 | None of `page`, `sort`, `limit`, `fields` survives the copy. |
| ApiFeatures.FilterConditionsKeys | utils/apiFeatures.js:10-26 | The conditions are an object whose keys are exactly the remaining keys, each rewritten. |
| ApiFeatures.FilterConditions | utils/apiFeatures.js:10-26 | The condition `filter` hands to `find`: the query string without the reserved keys, operator words rewritten, as `JSON.parse` rebuilds it. `FilterConditionsKeys`, `FilterOperatorFree` and `Operators.ParseRewritten` state its properties. |
| ApiFeatures.FilterOperatorFree | utils/apiFeatures.js:18-26 | A query string without operator words reaches `find` unchanged, minus the reserved keys. |
| ApiFeatures.RemoveKeysSetField | utils/apiFeatures.js:10-14 | Removing the reserved keys forgets an earlier assignment to one of them and keeps any other. |
| Operators.RewriteIsRegexReplace | utils/apiFeatures.js:19-21 | The word-run rewrite equals the regular expression's global replacement, defined match position by match position. |
| Operators.Rewrite | utils/apiFeatures.js:19-21 | The replacement over maximal runs of word characters: a run that is an operator word gets a `$`. Proved equal to the regular-expression definition by `RewriteIsRegexReplace`. |
| Operators.RewriteAt | utils/apiFeatures.js:19-21 | The reference definition of the global replacement: the text from position `i` on, with `$` inserted at every position where `\b(gte\|gt\|lt\|lte)\b` matches. |
| Operators.OperatorAtRun | utils/apiFeatures.js:19 | At the start of a word run the expression matches exactly when the whole run is `gte`, `gt`, `lt` or `lte`. |
| Operators.RewriteLength | utils/apiFeatures.js:19-21 | The rewrite adds one `$` per operator word and nothing else. |
| Operators.RewriteOperatorFree | utils/apiFeatures.js:19-21 | Text with no operator word is left as it is. |
| Operators.RewriteUnchangedIff | utils/apiFeatures.js:19-21 | The text is unchanged if and only if it holds no operator word. |
| Operators.RewriteAppend | utils/apiFeatures.js:19-21 | Two pieces not joined by a word are rewritten separately. |
| Operators.RewriteExamplesUntouched | utils/apiFeatures.js:19-21 | `gtx` and `lte_a` are not rewritten. |
| Operators.RewriteSerialize | utils/apiFeatures.js:18-21 | Rewriting the serialized filter gives the serialization of the filter with its keys and strings rewritten word by word. |
| Operators.RewriteEscape | utils/apiFeatures.js:18-21 | Rewriting an escaped string gives the escape of the rewritten string. |
| Operators.ParseRewritten | utils/apiFeatures.js:18-26 | Parsing the rewritten JSON text always succeeds and gives the rewritten filter, as JavaScript builds it. |
| Operators.OperatorFreeFilterUnchanged | utils/apiFeatures.js:18-26 | A well-formed filter without operator words comes back from stringify, rewrite and parse unchanged. |
| Operators.FilterExample | utils/apiFeatures.js:18-26 | `{ price: { gte: '500' } }` becomes `{ price: { $gte: '500' } }`. |
| Operators.GluedExample | utils/apiFeatures.js:18-21 | A word glued to a control character, such as newline followed by `gt`, is not rewritten, because its escape `\n` makes one word with it. |
| Json.Delete | utils/apiFeatures.js:13 | `delete obj[key]` removes that key and no other. |
| Json.LookupDelete | utils/apiFeatures.js:13 | After the delete the key is absent and every other key keeps its value. |
| Json.SetField | controllers/tourController.js:7-9 | Assignment adds the key to the object's keys. |
| Json.LookupSetField | controllers/tourController.js:7-9 | After `obj[key] = v` the key holds `v` and every other key keeps its value. |
| Json.Serialize | utils/apiFeatures.js:18 | `JSON.stringify` of a string-and-object value, with its escapes; `ParseOfSerialize` is its inverse. |
| Json.Parse | utils/apiFeatures.js:26 | `JSON.parse` on the grammar `Serialize` emits; the whole text must be one value. `ParseOfSerialize` and `ParseOfSerializeWellFormed` state what it gives back. |
| Json.ParseOfSerialize | utils/apiFeatures.js:18-26 | `JSON.parse(JSON.stringify(v))` is the object JavaScript builds from `v` (a later repeated key wins). |
| Json.ParseOfSerializeWellFormed | utils/apiFeatures.js:18-26 | A value without repeated keys comes back from `JSON.parse(JSON.stringify(v))` unchanged. |
| ApiFeatures.APIFeatures.Sort | utils/apiFeatures.js:30-42 | Adds the sort list, or `-createdAt`, to the log and returns the same builder. A non-string `sort` throws and leaves the query unchanged. |
| ApiFeatures.APIFeatures.LimitFields | utils/apiFeatures.js:44-55 | Adds the field list, or `-__v`, as a projection and returns the same builder. A non-string `fields` throws and leaves the query unchanged. |
| ApiFeatures.CommaListCases | utils/apiFeatures.js:35-40 | A non-empty string is applied with every comma replaced by a space. An absent, empty or false value gives the default. Exactly an object or `true` throws. |
| ApiFeatures.CommaListHasNoComma | utils/apiFeatures.js:45-52 | Whatever list is applied holds no comma. |
| ApiFeatures.CommaList | utils/apiFeatures.js:35-40 | The shared shape of `sort` and `limitFields`: a truthy string is split at commas and joined with spaces, a falsy value gives the default, and anything else throws because it has no `split`. `CommaListCases` states the three cases. |
| ApiFeatures.SortSpec | utils/apiFeatures.js:35-40 | `CommaList` on `sort` with the default `-createdAt`. |
| ApiFeatures.FieldsSpec | utils/apiFeatures.js:45-52 | `CommaList` on `fields` with the default `-__v`. |
| Strings.Split | utils/apiFeatures.js:36 | `split` yields at least one piece, no piece holds the separator, and there is one piece more than separators. |
| Strings.JoinSplit | utils/apiFeatures.js:36 | `s.split(c).join(d)` replaces every `c` in `s` by `d`. |
| Strings.SplitJoin | utils/apiFeatures.js:36 | Splitting a join of separator-free pieces gives back the pieces. |
| ApiFeatures.APIFeatures.Paginate | utils/apiFeatures.js:57-64 | Adds `skip((page - 1) * limit)` and then `limit(limit)` to the log and returns the same builder. |
| ApiFeatures.OrDefaultOfInteger | utils/apiFeatures.js:58-59 | A page or limit written as a non-zero integer is used as it is, unclamped, negative values included; the database may then refuse the query (see `TourController.GetAllTours`). |
| ApiFeatures.OrDefaultFallback | utils/apiFeatures.js:58-59 | An absent, empty, non-numeric or zero page or limit gives the default. |
| ApiFeatures.OrDefaultIsNumberOrFallback | utils/apiFeatures.js:58-59 | The result is either the default or the non-zero number the property denotes. |
| ApiFeatures.PaginateDefaults | utils/apiFeatures.js:58-62 | Without `page` and `limit`: page 1, limit 100, skip 0. |
| ApiFeatures.PageAndLimitNonZero | utils/apiFeatures.js:58-59 | Page and limit are never 0. |
| ApiFeatures.NumberValue | utils/apiFeatures.js:58-59 | `prop * 1` for a query-string property: `Number` of a string, and NaN for an absent property or an object. |
| ApiFeatures.OrDefault | utils/apiFeatures.js:58-59 | `n || fallback`: NaN and 0 give the fallback. `OrDefaultFallback`, `OrDefaultOfInteger` and `OrDefaultIsNumberOrFallback` state it. |
| ApiFeatures.PageOf | utils/apiFeatures.js:58 | The page: `OrDefault` of `page` with 1. |
| ApiFeatures.LimitOf | utils/apiFeatures.js:59 | The limit: `OrDefault` of `limit` with 100. |
| Strings.NumberOfDecimalString | utils/apiFeatures.js:58-59 | `Number` of an integer's decimal rendering is that integer. |
| Strings.TrimMiddle | models/tourModel.js:16 | The trimmed string is the piece of the input between its longest white-space prefix and the longest white-space suffix after that, and neither of its ends is white space. |
| Strings.TrimUnchanged | models/tourModel.js:16 | A string with no white space at either end is its own trim. |
| Queries.Query.Find | utils/apiFeatures.js:26 | `query.find(c)` appends `c` to the conditions and returns the same query. |
| Queries.Query.Sort | utils/apiFeatures.js:37 | `query.sort(s)` is logged and returns the same query. |
| Queries.Query.Select | utils/apiFeatures.js:47 | `query.select(s)` is logged and returns the same query. |
| Queries.Query.Skip | utils/apiFeatures.js:62 | `query.skip(n)` is logged and returns the same query. |
| Queries.Query.Limit | utils/apiFeatures.js:62 | `query.limit(n)` is logged and returns the same query. |
| Queries.Aggregate.Unshift | models/tourModel.js:139 | `pipeline().unshift(stage)` puts the stage first, before the original stages. |
| AppErrors.AppError | utils/appError.js:2-7 | Keeps the message, as the non-enumerable property `super(message)` defines, and the status code. It is operational and takes its status from the code. No other property is set. |
| AppErrors.StatusForFail | utils/appError.js:5 | The status is `fail` if and only if the code is a natural number whose leading decimal digit is 4, and `error` otherwise. |
| AppErrors.StatusExamples | utils/appError.js:5 | Every 4xx code gives `fail`, every 5xx code `error`, and 204 gives `error`. |
| AppErrors.StatusFor | utils/appError.js:5 | `` `${statusCode}`.startsWith('4') `` on the decimal rendering of the code; `StatusForFail` characterizes it by the leading digit. |
| AppErrors.Thrown | controllers/errorController.js:39-51 | A runtime error or `new Error(message)` has its name and a non-enumerable message, but no status, no status code and no operational flag. |
| AppErrors.LibraryError | controllers/errorController.js:67-68 | A jsonwebtoken error has its name and a message of its own, which the spread copy keeps, and no status, status code or operational flag. |
| AppErrors.ValidationError | controllers/errorController.js:14-15 | Mongoose's validation error is non-operational and carries one message per failed path, in order. |
| AppErrors.Messages | controllers/errorController.js:15 | The list of field messages, one per error, in order. |
| AppErrors.DuplicateKeyError | controllers/errorController.js:8-9 | A duplicate-key error has code 11000, is not operational, and has `keyValue.name` exactly when the unique path is `name`. |
| ErrorController.HandleCastErrorDB | controllers/errorController.js:3-6 | An operational 404 `fail` with message `Invalid <path>:<value>.`. |
| ErrorController.FirstQuoted | controllers/errorController.js:9 | A match starts with a quote and ends with the same quote. |
| ErrorController.FirstQuotedOfNoQuotes | controllers/errorController.js:9 | A string without quotes has no match, so `[0]` of the result throws. |
| ErrorController.FirstQuotedAfter | controllers/errorController.js:9 | After a stretch without quotes, the match is the first double-quoted value on one line, quotes included. |
| ErrorController.HandleDuplicateFieldsDBAsWritten | controllers/errorController.js:8-12 | As written. A missing `keyValue.name` throws. A value with no quoted part throws. Otherwise the result is an operational 400 naming the quoted part. |
| ErrorController.HandleDuplicateFieldsDB | controllers/errorController.js:8-12 | As intended: an operational 400 naming the duplicated value in double quotes. |
| ErrorController.DuplicateDependsOnKeyValue | controllers/errorController.js:8-12 | Both helpers depend only on `keyValue.name`. |
| ErrorController.DuplicateNameAsWritten | controllers/errorController.js:9 | For a plain duplicated name, the helper as written throws and the intended one succeeds. |
| ErrorController.DuplicateNameIntended | controllers/errorController.js:9-10 | The intended value is what the expression finds in the driver's message: the name in double quotes. |
| ErrorController.HandleValidationErrorDB | controllers/errorController.js:14-18 | An operational 400 `fail` with `Invalid input data.` followed by the field messages joined by `. `. |
| ErrorController.HandleJWTError | controllers/errorController.js:20-22 | An operational 401 `fail` asking to log in again. |
| ErrorController.HandleJWTExpiredError | controllers/errorController.js:24-26 | An operational 401 `fail` saying the token has expired. |
| ErrorController.Defaulted | controllers/errorController.js:54-55 | A missing or empty status becomes `fail` and a missing or zero code 500. Given values are kept, and nothing else changes. |
| ErrorController.SendErrorProd | controllers/errorController.js:37-52 | An operational error is sent with its own code, status and message (left out of the body when the error has none); any other error as a 500 `error` with the generic message. |
| ErrorController.Spread | controllers/errorController.js:60 | `{ ...err }` keeps every property the model reads except a message that is not the error's own enumerable property, which it drops. |
| ErrorController.CopyIntended | controllers/errorController.js:60 | The intended copy keeps the message as well, so it is the error itself. |
| ErrorController.ProductionClassification | controllers/errorController.js:37-71 | An unrecognised operational error answers with its own code and status. The body carries its message as intended, and as written only when the copy kept it. An unrecognised non-operational error answers 500 and hides its message. |
| ErrorController.AppErrorMessageDropped | controllers/errorController.js:60-67 | An `AppError` no helper rewrites reaches the client without its message as written, and with it as intended. |
| ErrorController.GlobalErrorHandlerAsWritten | controllers/errorController.js:53-71 | The middleware as written, branch by branch. Outside development and production nothing is sent. Production works on the spread copy. CastError gives 404 and ValidationError 400. Code 11000 gives what the helper as written yields. JWT errors and every other error are sent as the copy stands, before the JWT rewrites. |
| ErrorController.GlobalErrorHandler | controllers/errorController.js:53-71 | The same, with a copy that keeps the message, the intended duplicate helper, and JWT errors rewritten into their 401s before the response is sent. |
| ErrorController.JwtErrorAsWritten | controllers/errorController.js:67-69 | As written, a token that fails to verify gets the generic 500. |
| UserModel.NewUser | models/userModel.js:8-25 | `User.create`: the name is trimmed, the role defaults to `user`, the other fields are as given, and there is no reset or change data. |
| UserModel.ValidateUser | models/userModel.js:8-43 | No validation error if and only if the user has a name, a valid e-mail address, a role from the list or none, a password of at least 8 characters, and a confirmation equal to it. |
| UserModel.ValidateUserPaths | models/userModel.js:8-43 | Every validation error names one of the schema's paths. |
| UserModel.NeverChangedIsFresh | models/userModel.js:77-85 | With no change instant, no token is stale. |
| UserModel.ChangedPasswordAfterIff | models/userModel.js:77-84 | For a change at `ms >= 0`, a token is stale if and only if its issue second ends no later than the change. |
| UserModel.SameSecondAccepted | models/userModel.js:78-82 | A token issued in the second of the change is accepted. |
| UserModel.SecondsTruncate | models/userModel.js:78-81 | Before the epoch the seconds are truncated toward zero, not floored. |
| UserModel.Seconds | models/userModel.js:78-81 | `parseInt(ms / 1000, 10)`: the quotient truncated toward zero. |
| UserModel.ChangedPasswordAfter | models/userModel.js:75-86 | Stale when there is a change instant and the token was issued before its second; `ChangedPasswordAfterIff` states it without `Seconds`. |
| UserModel.AfterHooks | models/userModel.js:49-65 | The two hooks change only `password`, `passwordConfirm` and `passwordChangedAt`. |
| UserModel.AfterHooksUnmodified | models/userModel.js:50 | Saving with the password unmodified changes nothing. |
| UserModel.AfterHooksModified | models/userModel.js:49-65 | A modified password is stored only as its bcrypt hash and the confirmation is cleared. The change is stamped one second back unless the document is new. |
| UserModel.StampPrecedesNewTokens | models/userModel.js:61-64 | A token issued at the instant of the save is not stale. |
| UserModel.UserDocument.SetPassword | controllers/authController.js:168 | Assigning the password marks it modified when it differs, and changes nothing else. |
| UserModel.UserDocument.CreatePasswordResetToken | models/userModel.js:88-98 | Returns 64 lower-case hex characters that decode to the random bytes. Stores only their SHA-256 digest and an expiry of now + 600000 ms. Changes nothing else. |
| Crypto.HexEncode | models/userModel.js:89 | Two lower-case hex digits per byte. |
| Crypto.HexRoundTrip | models/userModel.js:89 | The hex rendering decodes back to the same bytes. |
| UserModel.UserDocument.HashPasswordHook | models/userModel.js:49-58 | An unmodified password is left alone. A modified one is replaced by its hash, with the confirmation cleared; a missing one makes bcrypt throw. |
| UserModel.UserDocument.StampHookAsWritten | models/userModel.js:61-65 | As written, every save of a stored document stamps `passwordChangedAt = now - 1000`. |
| UserModel.UserDocument.StampHook | models/userModel.js:61-65 | As intended, only a modified password of a stored document is stamped. |
| UserModel.StampAsWrittenRevokesTokens | models/userModel.js:62-63 | Under the hook as written, a save without a password change stales every token issued two seconds or more before it. |
| UserModel.UserStore.FindById | controllers/authController.js:75 | The stored user with that id, or `null`. |
| UserModel.UserStore.FindOneByEmail | controllers/authController.js:42 | A stored user with that e-mail address, or `null` if and only if there is none. |
| UserModel.UserStore.FindOneByResetToken | controllers/authController.js:160-164 | A user whose stored digest equals the given one and whose expiry is strictly later than now, or `null` if and only if there is none. |
| UserModel.ResetTokenMatches | controllers/authController.js:160-164 | The stored digest equals the hash of the given token and the expiry is strictly later than now. |
| UserModel.UserStore.Save | models/userModel.js:49-65 | Validates unless told not to, runs both hooks and writes the record. A failure changes neither the document nor the collection. |
| AuthController.Compare | models/userModel.js:68-73 | `bcrypt.compare` answers for two strings and throws otherwise. |
| AuthController.LoginAsWritten | controllers/authController.js:34-54 | As written. A missing e-mail or password gives 400 before any lookup. An unknown e-mail throws on `null`. Otherwise the result is the password verdict for that user. |
| AuthController.Login | controllers/authController.js:34-54 | As intended: an unknown e-mail address gets the same 401 as a wrong password. |
| AuthController.UnknownEmailResponse | controllers/authController.js:42-46 | In production, an unknown e-mail gets a 500 with the login as written. With the intended login it gets a 401, whose message the error middleware as written drops and the intended one sends. |
| AuthController.CheckPassword | controllers/authController.js:44-53 | The outcome is the password verdict for the given user. |
| AuthController.PasswordVerdict | controllers/authController.js:44-53 | The end of `login`: bcrypt's verdict on the candidate gives 200 with a signed token, the 401, or bcrypt's error. `PasswordVerdictGrants` states it. |
| AuthController.PasswordVerdictGrants | controllers/authController.js:44-53 | 200 with `signToken(id)` if and only if the stored hash matches; 401 on a wrong password. |
| AuthController.BearerToken | controllers/authController.js:59-64 | A token is taken only from a header starting with `Bearer`, and it is a non-empty piece without spaces. |
| AuthController.BearerTokenOf | controllers/authController.js:59-64 | `Bearer <token>` yields the token. |
| AuthController.NoBearerToken | controllers/authController.js:59-69 | No header, another scheme, or a bare `Bearer` yields no token. |
| AuthController.Authenticate | controllers/authController.js:56-94 | The checks of `protect` in order, giving the user to grant access to or the first error. `AuthenticateGrants` and `AuthenticateOrder` state it. |
| AuthController.AuthenticateGrants | controllers/authController.js:56-94 | Access is granted if and only if there is a bearer token, it verifies, its user exists, and the password has not changed since it was issued. It is granted to that user as stored. |
| AuthController.AuthenticateOrder | controllers/authController.js:59-89 | No token gives 401 before anything else. A token that fails to verify is refused before the users are read. Every refusal is a 401 or a library error. |
| AuthController.Protect | controllers/authController.js:56-94 | Sets `req.user` and calls `next()` when the checks pass. Otherwise hands their error on and leaves `req.user` alone. |
| AuthController.RestrictToAsWritten | controllers/authController.js:96-107 | As written. `next()` is called if and only if the role is allowed; a refused request gets no answer at all. |
| AuthController.RestrictTo | controllers/authController.js:96-107 | As intended: `next()` is called if and only if the role is allowed, and a refusal is a 403. |
| AuthController.RestrictToHangs | controllers/authController.js:99-103 | A `user` on an `admin` route gets no answer as written and a 403 as intended. |
| AuthController.ForgotPassword | controllers/authController.js:109-151 | An unknown e-mail gives 404 and no change. Otherwise the user's reset fields are set and the result is 200 if the mail is sent. If it is not, both fields are cleared and the result is 500. |
| AuthController.ResetRequested | controllers/authController.js:116-143 | The reset request changes only the two reset fields: the digest and a ten-minute expiry, or nothing stored. |
| AuthController.MailedTokenResets | controllers/authController.js:155-164 | The mailed token matches the stored digest until, and not at, ten minutes after the request. |
| AuthController.ResetPassword | controllers/authController.js:153-184 | Without a matching, unexpired digest: 400 and no change. With one: the new password and confirmation are set and the reset fields cleared. A valid user is then saved and logged in; an invalid one is refused and left unsaved. |
| AuthController.UpdatePasswordAsWritten | controllers/authController.js:186-200 | As written: `passwordConfirm` is checked against the stored hash. A mismatch gives 401 and no change. Otherwise the password and confirmation are set; a valid user is saved through the hooks and logged in, and an invalid one is refused unsaved. So a change succeeds only when the new password already matches the stored hash. |
| AuthController.UpdatePassword | controllers/authController.js:186-200 | As intended: the current password is checked from its own field. A mismatch gives 401 and no change. Otherwise the user is saved through the hooks and logged in. |
| AuthController.ChangePassword | controllers/authController.js:188-199 | The shared part: check the candidate, set password and confirmation, save with validation, and sign a token. |
| TourModel.TrimOpt | models/tourModel.js:16 | A given string is trimmed; an absent one stays absent. |
| TourModel.WithDefaults | models/tourModel.js:12-92 | `name` and `summary` are trimmed. `ratingsAverage` defaults to 4.5, `ratingsQuantity` to 0 and `secretTour` to false, and `createdAt` to one instant. Every other field is as given. |
| TourModel.CreatedAtAsWritten | models/tourModel.js:86-90 | As written, every tour gets the instant the schema was loaded, whenever it was created. |
| TourModel.CreatedAtIntended | models/tourModel.js:86-90 | As intended, `createdAt` is the creation instant, so tours created at different instants differ. |
| TourModel.NewTourAsWritten | models/tourModel.js:86-90 | `Tour.create` as written: the defaults, with `createdAt` the instant the schema was loaded. `CreatedAtAsWritten` states it. |
| TourModel.NewTour | models/tourModel.js:86-90 | `Tour.create` as intended: the defaults, with `createdAt` the creation instant. `CreatedAtIntended` states it. |
| TourModel.ValidateTour | models/tourModel.js:12-84 | No validation error if and only if the tour is valid. A valid tour has a name of 10 to 40 characters, a difficulty from the list and a rating in [1, 5]. It has every required field, and any discount is below the price. |
| TourModel.ValidNewTour | models/tourModel.js:12-84 | A valid new tour came from input with a trimmed name of 10 to 40 characters, a listed difficulty, every required field, and a discount below its price. |
| TourModel.DefaultsAreValid | models/tourModel.js:48-53 | The default rating passes its bounds, and the default tour is not secret. |
| TourModel.ShortNameRefused | models/tourModel.js:16-24 | A name that trims to 9 characters is refused with the minimum-length message. |
| TourModel.ApplyPatch | controllers/tourController.js:63-66 | Every given field replaces the stored one, through the trimming setters, and `createdAt` is kept. |
| TourModel.ApplyEmptyPatch | controllers/tourController.js:63-66 | An empty body changes nothing. |
| TourModel.ValidateUpdate | models/tourModel.js:62-71 | Update validators accept exactly the bodies whose given fields pass their own validators and that set no discount. |
| TourModel.UpdateRefusesDiscount | models/tourModel.js:64-70 | Any update that sets a discount is refused, because the validator sees no price. |
| TourModel.ValidUpdatePreserves | models/tourModel.js:12-84 | An accepted update keeps a valid tour valid, unless a new price falls below the stored discount. |
| TourModel.PriceUpdateBreaksDiscount | models/tourModel.js:62-71 | Lowering the price below the stored discount is accepted and leaves a tour the schema refuses. |
| TourModel.PreFindHook | models/tourModel.js:122-127 | Every find-family query gets the extra condition `secretTour != true`. |
| TourModel.PreAggregateHook | models/tourModel.js:138-142 | The pipeline grows by exactly one stage at index 0, the secret-exclusion match, with the original stages following in order. |
| TourController.TopSortLiteral | controllers/tourController.js:8 | The alias's sort string reads `-ratingsAverage,price` and is applied as `-ratingsAverage price`. |
| TourController.AliasLookup | controllers/tourController.js:6-11 | After the alias, `limit` is `5`, `sort` and `fields` are the top-tour lists, and every other key is unchanged. |
| TourController.AliasQuery | controllers/tourController.js:6-11 | The query object after the alias's three assignments; `AliasLookup` and `AliasFilter` state it. |
| TourController.AliasTopTours | controllers/tourController.js:6-11 | Overwrites those three keys of `req.query` and calls `next()`. |
| TourController.AliasFilter | controllers/tourController.js:6-11 | The alias leaves the filter conditions unchanged. |
| TourController.BuilderOps | controllers/tourController.js:29-33 | The chain fails exactly when `sort` or `limitFields` throws, and the `sort` error comes first. |
| TourController.GetAllTours | controllers/tourController.js:13-42 | Applies filter, sort, projection and pagination in that order; the find hook's condition comes last. Responds 200 with the count and the tours the database returns, or hands on the error that stopped the chain or that the database rejected the query with. |
| TourController.TopToursQuery | controllers/tourController.js:6-33 | With no page, the alias lists the top tours. The request's filter is kept, the sort is `-ratingsAverage price`, five fields are selected, skip is 0 and limit is 5. |
| TourController.TopToursPage | controllers/tourController.js:6-33 | With page `n`, the alias pages through the top tours five at a time, skipping `(n - 1) * 5`. |
| TourController.TopSortSpec | controllers/tourController.js:8 | The alias's sort list is applied with its comma turned into a space. |
| TourController.TopFieldsSpec | controllers/tourController.js:9 | The alias's field list is applied with its commas turned into spaces. |
| TourController.CommaListOfWords | controllers/tourController.js:8-9 | A comma list of comma-free words is applied as the same words separated by spaces. |
| TourController.ListingHidesSecret | controllers/tourController.js:29-34 | The query that runs keeps the request's filter and ends with the secret-exclusion condition. |
| TourController.NotFound | controllers/tourController.js:48 | An operational 404 `fail` with `No tour found with that ID!`. |
| TourController.TourStore.FindById | controllers/tourController.js:44 | A lookup by id finds a tour if and only if it is stored and not secret. |
| TourController.TourStore.CreateTour | controllers/tourController.js:56-59 | The new tour with its defaults is refused with its validation errors, or refused as a duplicate name, or stored and returned with 201. Names stay unique. |
| TourController.TourStore.GetTour | controllers/tourController.js:43-54 | 200 with the tour, or the 404 when it is missing or secret. |
| TourController.TourStore.UpdateTour | controllers/tourController.js:61-76 | The update validators come first. A missing or secret tour gives 404 and no change. A patched name that another tour has gives the duplicate-key error and no change. Otherwise the patched tour is stored and returned with 200. Names stay unique. |
| TourController.TourStore.DeleteTour | controllers/tourController.js:77-86 | 204 with null data once the tour is removed, or 404 with nothing removed. |
| TourController.UpdateKeepsValid | controllers/tourController.js:61-69 | An accepted update keeps a valid tour valid and, unless it makes the tour secret, findable. |
| TourController.NotFoundResponse | controllers/tourController.js:47-49 | In production, a missing tour reaches the client as a 404 `fail`: with the body `{"status":"fail"}` from the error middleware as written, with the handler's message from the intended one. |
| TourController.DuplicateTourName | controllers/tourController.js:56-59 | A second tour with a plain name makes the error middleware throw as written, and answer 400 naming it as intended. |

## Left out

- Bootstrap, routing and the middleware wiring. Which routes use `protect` and `restrictTo` is not modelled.
- `signup`, the user controller, `getTourStats` and `getMonthlyPlan`. The last two are aggregation pipelines whose meaning lives in the database.
- Running queries. The database is a function parameter of `getAllTours` that returns the tours or the error it rejects the query with, and a query is the log of the calls made on it. When MongoDB rejects a query (a value that does not cast, a negative skip) is not modelled. How Mongoose merges several `find` conditions is not modelled.
- bcrypt, SHA-256, random bytes, JWT signing, verification and expiry, and `validator.isEmail`. These are uninterpreted functions, and the clock is a parameter.
- `sendEmail`. Whether it succeeds is a parameter, and the mail's text is not modelled.
- The `slugify` pre-save hook, the `durationWeeks` virtual, the post-find timing log and `select: false` projections.
- The `lowercase` casting of e-mail addresses.
- The asynchronous `catchAsync` plumbing. Handlers are sequential methods returning an outcome.
- The trailing `next()` that `resetPassword` calls after responding.
- The development error response's stack trace.
- Which properties `{ ...err }` copies from Mongoose's and the MongoDB driver's error classes (it differs between versions). The model lets the copy keep all of them; their messages are never sent in production.
- GlobalErrorHandlerAsWritten: the copy of an `AppError` or a runtime error also lacks the inherited `name`. The model keeps the name (`Error`, `TypeError`), which none of the middleware's tests match either way.
- How Mongoose produces a `CastError` from a malformed id. The helpers take the error record as given.
- Query strings with repeated keys (arrays), and JavaScript's reordering of integer-like keys.
- Aliasing of `req.query` between the alias and the listing beyond the shared object.
- Numbers in tours are `real` without floating-point rounding. A validator message renders a number through a `render` parameter.
- String lengths count code points, not UTF-16 units. Node's exact `TypeError` texts are written as they read in current versions.
- ApiFeatures.NumberValue: the model reads `Number(s)` for an optional sign and decimal digits, after trimming white space. Fractions, exponents, hexadecimal and `Infinity` all read as not a number here.
- ErrorController.FirstQuoted: the expression's backslash escapes (`\\?.`) are not modelled. A backslash before the closing quote can make the real match longer.
- TourModel.ValidateUpdate: it assumes `required` validators run on a given value only. Unsetting a path through an update is not modelled.
- AuthController.ForgotPassword: it takes the e-mail address as a string. A request with no `email` property, which `findOne({ email: undefined })` treats as any user, is not modelled.
- TourController.TopFieldsSpec: the field list is kept as its words, not as one literal.

## Findings

| source | as written | input that shows it | evidently intended | confidence | as-written member | corrected member |
|---|---|---|---|---|---|---|
| controllers/errorController.js:67-69 | The JWT errors are rewritten after `sendErrorProd` has sent the response. | In production, a `JsonWebTokenError` is sent as a 500 `Something went wrong!`. | A 401 asking the user to log in again. | not executed | ErrorController.GlobalErrorHandlerAsWritten, ErrorController.JwtErrorAsWritten | ErrorController.GlobalErrorHandler |
| controllers/authController.js:99-103 | On a refusal the middleware returns an `AppError` instead of passing it to `next`. | A user with role `user` on an `admin`-only route. The request is never answered. | `next(new AppError(..., 403))` | not executed | AuthController.RestrictToAsWritten, AuthController.RestrictToHangs | AuthController.RestrictTo |
| controllers/authController.js:42-46 | `user.correctPassword` is called before `!user` is tested. | A login with an unregistered e-mail throws a `TypeError`, answered as a 500. | A 401 `Incorrect email or password`. | not executed | AuthController.LoginAsWritten, AuthController.UnknownEmailResponse | AuthController.Login |
| controllers/authController.js:188 | The current password is checked against `req.body.passwordConfirm`, and that field must also equal the new password. | Current `oldpass123`, new `newpass123`. The request is refused, so only a "new" password equal to the current one gets through. | A separate `passwordCurrent` field holding the current password. | not executed | AuthController.UpdatePasswordAsWritten | AuthController.UpdatePassword |
| models/userModel.js:62 | `!this.isModified` negates the method itself, which is always truthy. | `forgotPassword` saves a stored user without a password change. `passwordChangedAt` is stamped, and every token older than 2 s is refused. | `!this.isModified('password')`. | not executed | UserModel.UserDocument.StampHookAsWritten, UserModel.StampAsWrittenRevokesTokens | UserModel.UserDocument.StampHook |
| models/tourModel.js:88 | `default: Date.now()` is evaluated once, when the schema is defined. | Two tours created an hour apart get the same `createdAt`. | `default: Date.now`, evaluated per document. | not executed | TourModel.NewTourAsWritten, TourModel.CreatedAtAsWritten | TourModel.NewTour, TourModel.CreatedAtIntended |
| controllers/errorController.js:9 | The quoted value is searched for in `keyValue.name`, which holds the raw duplicated value. | A second tour named `The Forest Hiker` gives a `null` match, and `[0]` throws. | The double-quoted value: `"The Forest Hiker"`. | not executed | ErrorController.HandleDuplicateFieldsDBAsWritten, ErrorController.DuplicateNameAsWritten | ErrorController.HandleDuplicateFieldsDB, ErrorController.DuplicateNameIntended |
| controllers/errorController.js:60 | `{ ...err }` copies only own enumerable properties, and `super(message)` makes an `AppError`'s message non-enumerable. | In production, `GET` of an unknown tour id is answered 404 with the body `{"status":"fail"}`. | The operational error's message sent to the client, e.g. with `error.message = err.message`. | not executed | ErrorController.GlobalErrorHandlerAsWritten, ErrorController.AppErrorMessageDropped | ErrorController.GlobalErrorHandler, ErrorController.CopyIntended |
