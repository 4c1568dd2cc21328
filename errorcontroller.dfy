/** The global error-handling middleware and the helpers that turn known
    database and token errors into `AppError`s. */
module ErrorController {
  import opened Wrappers
  import opened Strings
  import opened AppErrors

  /** `process.env.NODE_ENV`. */
  datatype Env = Development | Production | Other

  datatype ErrorBody =
    /** `{ status, message }`; an undefined message is left out of the
        JSON text. */
    | ProdBody(status: string, message: Option<string>)
    /** `{ status, error, message, stack }`; the stack trace is not modelled. */
    | DevBody(status: string, error: ErrorRecord, message: Option<string>)

  datatype Response = Response(statusCode: int, body: ErrorBody)

  /** What the middleware does: send a response, send nothing, or throw. */
  datatype HandlerResult = Sent(response: Response) | NotSent | Threw(error: ErrorRecord)

  /** A template literal's rendering of an optional string property. */
  function Render(o: Option<string>): string {
    if o.Some? then o.value else "undefined"
  }

  // ---------------------------------------------------------------------------
  // The handle* helpers

  function CastMessage(err: ErrorRecord): string {
    "Invalid " + Render(err.path) + ":" + Render(err.value) + "."
  }

  /** A value that does not cast to its path's type is a 404. */
  function HandleCastErrorDB(err: ErrorRecord): (e: ErrorRecord)
    ensures e.isOperational && e.statusCode == Some(404) && e.status == Some("fail")
    ensures e.message == Some(CastMessage(err)) && e.name == "Error" && e.code.None?
  {
    StatusExamples(404);
    AppError(CastMessage(err), 404)
  }

  predicate IsQuote(c: char) {
    c == '"' || c == '\''
  }

  /** What a regular-expression `.` does not match. */
  predicate IsLineTerminator(c: char) {
    c == '\n' || c == '\r' || c == '\U{2028}' || c == '\U{2029}'
  }

  /** The offset in `s` of the first `q`, provided no line terminator
      comes before it. */
  function ClosingQuote(s: string, q: char): (r: Option<nat>)
    ensures r.Some? ==> r.value < |s| && s[r.value] == q
    ensures r.Some? ==> forall k | 0 <= k < r.value :: s[k] != q && !IsLineTerminator(s[k])
  {
    if s == [] then None
    else if s[0] == q then Some(0)
    else if IsLineTerminator(s[0]) then None
    else var r := ClosingQuote(s[1..], q); if r.Some? then Some(r.value + 1) else None
  }

  /** `s.match(/(["'])(\\?.)*?\1/)`: the leftmost stretch of `s` that
      runs from a quote to the next same quote on the same line, or `None`
      for a `null` match. */
  function FirstQuoted(s: string): (r: Option<string>)
    ensures r.Some? ==> |r.value| >= 2 && IsQuote(r.value[0]) && r.value[|r.value| - 1] == r.value[0]
  {
    if s == [] then None
    else if IsQuote(s[0]) && ClosingQuote(s[1..], s[0]).Some? then Some(s[..ClosingQuote(s[1..], s[0]).value + 2])
    else FirstQuoted(s[1..])
  }

  predicate NoQuotes(s: string) {
    '"' !in s && '\'' !in s
  }

  predicate OnOneLine(s: string) {
    forall k | 0 <= k < |s| :: !IsLineTerminator(s[k])
  }

  /** A string without quotes has no match. */
  lemma {:induction false} FirstQuotedOfNoQuotes(s: string)
    requires NoQuotes(s)
    ensures FirstQuoted(s).None?
  {
    if s != [] {
      FirstQuotedOfNoQuotes(s[1..]);
    }
  }

  /** After a stretch without quotes, the match is the first double-quoted
      value, quotes included. */
  lemma {:induction false} FirstQuotedAfter(p: string, v: string, rest: string)
    requires NoQuotes(p) && NoQuotes(v) && OnOneLine(v)
    ensures FirstQuoted(p + ['"'] + v + ['"'] + rest) == Some(['"'] + v + ['"'])
  {
    var s := p + ['"'] + v + ['"'] + rest;
    if p == [] {
      assert s == ['"'] + (v + ['"'] + rest);
      assert s[1..] == v + ['"'] + rest;
      ClosingQuoteAfter(v, '"', rest);
      assert s[..|v| + 2] == ['"'] + v + ['"'];
    } else {
      assert s[1..] == p[1..] + ['"'] + v + ['"'] + rest;
      FirstQuotedAfter(p[1..], v, rest);
    }
  }

  lemma {:induction false} ClosingQuoteAfter(v: string, q: char, rest: string)
    requires forall k | 0 <= k < |v| :: v[k] != q && !IsLineTerminator(v[k])
    ensures ClosingQuote(v + [q] + rest, q) == Some(|v|)
  {
    if v != [] {
      assert (v + [q] + rest)[1..] == v[1..] + [q] + rest;
      ClosingQuoteAfter(v[1..], q, rest);
    }
  }

  /** The helpers treat every error with the same `keyValue.name` alike. */
  lemma DuplicateDependsOnKeyValue(a: ErrorRecord, b: ErrorRecord)
    requires a.keyValueName == b.keyValueName
    ensures HandleDuplicateFieldsDBAsWritten(a) == HandleDuplicateFieldsDBAsWritten(b)
    ensures HandleDuplicateFieldsDB(a) == HandleDuplicateFieldsDB(b)
  {
  }

  lemma DuplicateKeyPrefixNoQuotes(collection: string, path: string)
    requires NoQuotes(collection) && NoQuotes(path)
    ensures NoQuotes(DuplicateKeyPrefix(collection, path))
  {
    var a := "E11000 ";
    var a' := "duplicate key ";
    var a'' := "error collection: ";
    var b := " index: ";
    var c := "_1 dup key: { ";
    var d := ": ";
    DriverCodeNoQuotes();
    DriverCollectionNoQuotes();
    DriverKeyNoQuotes();
    NoQuotesAppend(a, a');
    NoQuotesAppend(a + a', a'');
    var h := a + a' + a'';
    NoQuotesAppend(h, collection);
    NoQuotesAppend(h + collection, b);
    NoQuotesAppend(h + collection + b, path);
    NoQuotesAppend(h + collection + b + path, c);
    NoQuotesAppend(h + collection + b + path + c, path);
    NoQuotesAppend(h + collection + b + path + c + path, d);
  }

  /** The fixed pieces of the driver's message hold no quote. */
  lemma DriverCodeNoQuotes()
    ensures NoQuotes("E11000 ") && NoQuotes("duplicate key ")
  {
  }

  lemma DriverCollectionNoQuotes()
    ensures NoQuotes("error collection: ") && NoQuotes(" index: ")
  {
  }

  lemma DriverKeyNoQuotes()
    ensures NoQuotes("_1 dup key: { ") && NoQuotes(": ")
  {
  }

  lemma NoQuotesAppend(a: string, b: string)
    requires NoQuotes(a) && NoQuotes(b)
    ensures NoQuotes(a + b)
  {
  }

  function DuplicateMessage(value: string): string {
    "Duplicate field value: " + value + ". Please use another field value!"
  }

  const UndefinedMatch := "Cannot read properties of undefined (reading 'match')"
  const NullIndex := "Cannot read properties of null (reading '0')"

  /** As written: the quoted value is searched for in `keyValue.name`,
      which holds the raw duplicated value; when nothing is found,
      `match(...)[0]` throws. */
  function HandleDuplicateFieldsDBAsWritten(err: ErrorRecord): (r: Result<ErrorRecord, ErrorRecord>)
    ensures err.keyValueName.None? ==> r == Failure(TypeError(UndefinedMatch))
    ensures err.keyValueName.Some? && FirstQuoted(err.keyValueName.value).None? ==> r == Failure(TypeError(NullIndex))
    ensures r.Success? <==> err.keyValueName.Some? && FirstQuoted(err.keyValueName.value).Some?
    ensures r.Success? ==> r.value.isOperational && r.value.statusCode == Some(400) && r.value.status == Some("fail")
                           && r.value.message == Some(DuplicateMessage(FirstQuoted(err.keyValueName.value).value))
                           && r.value.name == "Error"
  {
    StatusExamples(400);
    if err.keyValueName.None? then Failure(TypeError(UndefinedMatch))
    else
      var found := FirstQuoted(err.keyValueName.value);
      if found.None? then Failure(TypeError(NullIndex))
      else Success(AppError(DuplicateMessage(found.value), 400))
  }

  /** As intended: a 400 naming the duplicated value in double quotes,
      which is what the expression finds in the driver's message. */
  function HandleDuplicateFieldsDB(err: ErrorRecord): (r: Result<ErrorRecord, ErrorRecord>)
    ensures err.keyValueName.None? ==> r == Failure(TypeError(UndefinedMatch))
    ensures r.Success? <==> err.keyValueName.Some?
    ensures r.Success? ==> r.value.isOperational && r.value.statusCode == Some(400) && r.value.status == Some("fail")
                           && r.value.message == Some(DuplicateMessage(['"'] + err.keyValueName.value + ['"']))
                           && r.value.name == "Error"
  {
    StatusExamples(400);
    if err.keyValueName.None? then Failure(TypeError(UndefinedMatch))
    else Success(AppError(DuplicateMessage(['"'] + err.keyValueName.value + ['"']), 400))
  }

  /** A duplicated name without quotes, the usual case, makes the helper as
      written throw, while the intended one answers with the name. */
  lemma DuplicateNameAsWritten(collection: string, name: string)
    requires NoQuotes(name)
    ensures HandleDuplicateFieldsDBAsWritten(DuplicateKeyError(collection, "name", name)) == Failure(TypeError(NullIndex))
    ensures HandleDuplicateFieldsDB(DuplicateKeyError(collection, "name", name)).Success?
  {
    FirstQuotedOfNoQuotes(name);
  }

  /** The intended value is the one the expression finds in the driver's
      message text. */
  lemma DuplicateNameIntended(collection: string, name: string)
    requires NoQuotes(collection) && NoQuotes(name) && OnOneLine(name)
    ensures var err := DuplicateKeyError(collection, "name", name);
      err.message.Some? && FirstQuoted(err.message.value) == Some(['"'] + name + ['"'])
      && HandleDuplicateFieldsDB(err) == Success(AppError(DuplicateMessage(FirstQuoted(err.message.value).value), 400))
  {
    var p := DuplicateKeyPrefix(collection, "name");
    DuplicateKeyPrefixNoQuotes(collection, "name");
    FirstQuotedAfter(p, name, " }");
  }

  function ValidationMessage(fieldMessages: seq<string>): string {
    "Invalid input data." + Join(fieldMessages, ". ")
  }

  /** A failed validation is a 400 listing every field message. */
  function HandleValidationErrorDB(err: ErrorRecord): (e: ErrorRecord)
    ensures e.isOperational && e.statusCode == Some(400) && e.status == Some("fail")
    ensures e.message == Some(ValidationMessage(err.fieldMessages)) && e.name == "Error"
  {
    StatusExamples(400);
    AppError(ValidationMessage(err.fieldMessages), 400)
  }

  const InvalidToken := "Invalid token. Please login again!"
  const ExpiredToken := "Your token has expired.Please login again!"

  function HandleJWTError(): (e: ErrorRecord)
    ensures e.isOperational && e.statusCode == Some(401) && e.status == Some("fail") && e.message == Some(InvalidToken)
  {
    StatusExamples(401);
    AppError(InvalidToken, 401)
  }

  function HandleJWTExpiredError(): (e: ErrorRecord)
    ensures e.isOperational && e.statusCode == Some(401) && e.status == Some("fail") && e.message == Some(ExpiredToken)
  {
    StatusExamples(401);
    AppError(ExpiredToken, 401)
  }

  // ---------------------------------------------------------------------------
  // Sending

  /** `err.status = err.status || 'fail'; err.statusCode = err.statusCode || 500`. */
  function Defaulted(err: ErrorRecord): (e: ErrorRecord)
    ensures e.status.Some? && e.status.value != "" && e.statusCode.Some? && e.statusCode.value != 0
    ensures err.status.Some? && err.status.value != "" ==> e.status == err.status
    ensures err.status.None? || err.status == Some("") ==> e.status == Some("fail")
    ensures err.statusCode.Some? && err.statusCode.value != 0 ==> e.statusCode == err.statusCode
    ensures err.statusCode.None? || err.statusCode == Some(0) ==> e.statusCode == Some(500)
    ensures e == err.(status := e.status, statusCode := e.statusCode)
  {
    var withStatus := err.(status := if err.status.Some? && err.status.value != "" then err.status else Some("fail"));
    withStatus.(statusCode := if err.statusCode.Some? && err.statusCode.value != 0 then err.statusCode else Some(500))
  }

  function SendErrorDev(err: ErrorRecord): Response
    requires err.status.Some? && err.statusCode.Some?
  {
    Response(err.statusCode.value, DevBody(err.status.value, err, err.message))
  }

  const GenericMessage := "Something went wrong!"

  /** An operational error reports itself; any other error is a bare 500. */
  function SendErrorProd(err: ErrorRecord): (r: Response)
    requires err.status.Some? && err.statusCode.Some?
    ensures err.isOperational ==> r == Response(err.statusCode.value, ProdBody(err.status.value, err.message))
    ensures !err.isOperational ==> r == Response(500, ProdBody("error", Some(GenericMessage)))
    ensures r.body.ProdBody? && (r.body.message == err.message || r.body.message == Some(GenericMessage))
  {
    if err.isOperational then Response(err.statusCode.value, ProdBody(err.status.value, err.message))
    else Response(500, ProdBody("error", Some(GenericMessage)))
  }

  /** `{ ...err }`: a plain object holding the error's own enumerable
      properties. The status, the status code, the operational flag and the
      database details are assigned by the error's constructor or by the
      middleware itself, so they are copied; `message` is copied only when
      it is one too. */
  function Spread(err: ErrorRecord): (c: ErrorRecord)
    ensures c.message == if err.ownMessage then err.message else None
    ensures c.(message := err.message) == err
  {
    if err.ownMessage then err else err.(message := None)
  }

  /** A copy that keeps the message, as sending it to the client requires:
      `{ ...err }` followed by `error.message = err.message`. */
  function CopyIntended(err: ErrorRecord): (c: ErrorRecord)
    ensures c == err
  {
    Spread(err).(message := err.message)
  }

  /** The copy has the kind of the error it was made from. */
  lemma SpreadKeepsKind(err: ErrorRecord)
    ensures var c := Spread(Defaulted(err));
      && c.name == err.name && c.code == err.code && c.keyValueName == err.keyValueName
      && c.path == err.path && c.value == err.value && c.fieldMessages == err.fieldMessages
      && c.isOperational == err.isOperational
  {
  }

  /** The names the production branch tests are distinct. */
  lemma KindNamesDiffer()
    ensures "CastError" != "ValidationError" && "CastError" != "JsonWebTokenError" && "CastError" != "TokenExpiredError"
    ensures "ValidationError" != "JsonWebTokenError" && "ValidationError" != "TokenExpiredError"
    ensures "JsonWebTokenError" != "TokenExpiredError" && "Error" != "JsonWebTokenError" && "Error" != "TokenExpiredError"
    ensures "Error" != "CastError" && "Error" != "ValidationError"
  {
    assert "CastError"[0] != "ValidationError"[0] && "CastError"[0] != "JsonWebTokenError"[0];
    assert "CastError"[0] != "TokenExpiredError"[0] && "ValidationError"[0] != "JsonWebTokenError"[0];
    assert "ValidationError"[0] != "TokenExpiredError"[0] && "JsonWebTokenError"[0] != "TokenExpiredError"[0];
    assert "Error"[0] != "JsonWebTokenError"[0] && "Error"[0] != "TokenExpiredError"[0];
    assert "Error"[0] != "CastError"[0] && "Error"[0] != "ValidationError"[0];
  }

  /** None of the kinds the production branch rewrites. */
  predicate Unrecognised(err: ErrorRecord) {
    && err.name != "CastError" && err.code != Some(11000) && err.name != "ValidationError"
    && err.name != "JsonWebTokenError" && err.name != "TokenExpiredError"
  }

  // ---------------------------------------------------------------------------
  // The middleware

  /** What the client sees once a duplicate key has been handled: the
      400, or nothing from this middleware when the helper throws. */
  function DuplicateOutcome(handled: Result<ErrorRecord, ErrorRecord>): HandlerResult {
    if handled.Success? then Sent(Response(400, ProdBody("fail", handled.value.message)))
    else Threw(handled.error)
  }

  /** The exported middleware as written: the production branch works on a
      spread copy, and the token-error rewrites come after the response has
      been sent, so they change nothing the client sees. */
  method GlobalErrorHandlerAsWritten(err: ErrorRecord, env: Env) returns (r: HandlerResult)
    ensures env == Other ==> r == NotSent
    ensures env == Development ==> r == Sent(SendErrorDev(Defaulted(err)))
    ensures env == Production && err.name == "CastError" ==>
      r == Sent(Response(404, ProdBody("fail", Some(CastMessage(err)))))
    ensures env == Production && err.name != "CastError" && err.code == Some(11000) ==>
      r == DuplicateOutcome(HandleDuplicateFieldsDBAsWritten(err))
    ensures env == Production && err.name == "ValidationError" && err.code != Some(11000) ==>
      r == Sent(Response(400, ProdBody("fail", Some(ValidationMessage(err.fieldMessages)))))
    ensures env == Production && (err.name == "JsonWebTokenError" || err.name == "TokenExpiredError")
            && err.code != Some(11000) ==>
      r == Sent(SendErrorProd(Spread(Defaulted(err))))
    ensures env == Production && Unrecognised(err) ==> r == Sent(SendErrorProd(Spread(Defaulted(err))))
  {
    var e := Defaulted(err);
    if env == Development {
      return Sent(SendErrorDev(e));
    }
    if env != Production {
      return NotSent;
    }
    var error := Spread(e);
    SpreadKeepsKind(err);
    KindNamesDiffer();
    if error.name == "CastError" {
      error := HandleCastErrorDB(error);
    }
    if error.code == Some(11000) {
      var duplicate := HandleDuplicateFieldsDBAsWritten(error);
      DuplicateDependsOnKeyValue(error, err);
      if duplicate.Failure? {
        return Threw(duplicate.error);
      }
      error := duplicate.value;
      assert SendErrorProd(error) == Response(400, ProdBody("fail", duplicate.value.message));
    }
    if error.name == "ValidationError" {
      error := HandleValidationErrorDB(error);
    }
    r := Sent(SendErrorProd(error));
    if error.name == "JsonWebTokenError" {
      error := HandleJWTError();
    }
    if error.name == "TokenExpiredError" {
      error := HandleJWTExpiredError();
    }
  }

  /** The middleware as intended: the copy keeps the message, and token
      errors are rewritten before the response goes out. */
  method GlobalErrorHandler(err: ErrorRecord, env: Env) returns (r: HandlerResult)
    ensures env == Other ==> r == NotSent
    ensures env == Development ==> r == Sent(SendErrorDev(Defaulted(err)))
    ensures env == Production && err.name == "CastError" ==>
      r == Sent(Response(404, ProdBody("fail", Some(CastMessage(err)))))
    ensures env == Production && err.name != "CastError" && err.code == Some(11000) ==>
      r == DuplicateOutcome(HandleDuplicateFieldsDB(err))
    ensures env == Production && err.name == "ValidationError" && err.code != Some(11000) ==>
      r == Sent(Response(400, ProdBody("fail", Some(ValidationMessage(err.fieldMessages)))))
    ensures env == Production && err.name == "JsonWebTokenError" && err.code != Some(11000) ==>
      r == Sent(Response(401, ProdBody("fail", Some(InvalidToken))))
    ensures env == Production && err.name == "TokenExpiredError" && err.code != Some(11000) ==>
      r == Sent(Response(401, ProdBody("fail", Some(ExpiredToken))))
    ensures env == Production && Unrecognised(err) ==> r == Sent(SendErrorProd(Defaulted(err)))
  {
    var e := Defaulted(err);
    if env == Development {
      return Sent(SendErrorDev(e));
    }
    if env != Production {
      return NotSent;
    }
    var error := CopyIntended(e);
    KindNamesDiffer();
    if error.name == "CastError" {
      error := HandleCastErrorDB(error);
    }
    if error.code == Some(11000) {
      var duplicate := HandleDuplicateFieldsDB(error);
      DuplicateDependsOnKeyValue(error, err);
      if duplicate.Failure? {
        return Threw(duplicate.error);
      }
      error := duplicate.value;
    }
    if error.name == "ValidationError" {
      error := HandleValidationErrorDB(error);
    }
    if error.name == "JsonWebTokenError" {
      error := HandleJWTError();
    }
    if error.name == "TokenExpiredError" {
      error := HandleJWTExpiredError();
    }
    r := Sent(SendErrorProd(error));
  }

  /** In production an unrecognised operational error with a status code
      answers with that code; the code as written sends its message only
      when the copy took it, the intended code always. Every other
      unrecognised error gets a 500 that hides its message. */
  lemma ProductionClassification(err: ErrorRecord)
    requires Unrecognised(err)
    ensures err.isOperational && err.statusCode.Some? && err.statusCode.value != 0 && err.status.Some? && err.status.value != "" ==>
      && SendErrorProd(Spread(Defaulted(err)))
         == Response(err.statusCode.value, ProdBody(err.status.value, if err.ownMessage then err.message else None))
      && SendErrorProd(Defaulted(err)) == Response(err.statusCode.value, ProdBody(err.status.value, err.message))
    ensures !err.isOperational ==>
      && SendErrorProd(Spread(Defaulted(err))) == Response(500, ProdBody("error", Some(GenericMessage)))
      && SendErrorProd(Defaulted(err)) == Response(500, ProdBody("error", Some(GenericMessage)))
  {
  }

  /** An `AppError` that no helper rewrites reaches a production client
      without its message in the code as written, and with it as intended. */
  lemma AppErrorMessageDropped(message: string, statusCode: int)
    ensures var code := if statusCode != 0 then statusCode else 500;
      && SendErrorProd(Spread(Defaulted(AppError(message, statusCode))))
         == Response(code, ProdBody(StatusFor(statusCode), None))
      && SendErrorProd(Defaulted(AppError(message, statusCode)))
         == Response(code, ProdBody(StatusFor(statusCode), Some(message)))
  {
    StatusForFail(statusCode);
  }

  /** A token that fails to verify gets the generic 500 from the code as
      written, although a 401 asking to log in again was meant. */
  lemma JwtErrorAsWritten(message: string)
    ensures var err := LibraryError("JsonWebTokenError", message);
      SendErrorProd(Spread(Defaulted(err))) == Response(500, ProdBody("error", Some(GenericMessage)))
  {
  }
}
