/** Errors as the controllers see them. One record type covers the
    application's own `AppError`s and the errors thrown by the libraries
    (Mongoose, jsonwebtoken) and by the JavaScript runtime; each kind fills
    the properties it has and leaves the others `None`. */
module AppErrors {
  import opened Wrappers
  import opened Strings

  datatype ErrorRecord = ErrorRecord(
    name: string,
    /** `None` when the object has no `message` property, as in a
        `{ ...err }` copy of an error whose message is not its own
        enumerable property. */
    message: Option<string>,
    /** Whether `message` is an own enumerable property, so that the object
        spread `{ ...err }` copies it. `super(message)` in an `Error`
        subclass defines a non-enumerable one. */
    ownMessage: bool,
    statusCode: Option<int>,
    status: Option<string>,
    isOperational: bool,
    /** MongoDB's error code (11000 for a duplicate key). */
    code: Option<int>,
    /** A `CastError`'s path and value. */
    path: Option<string>,
    value: Option<string>,
    /** A `ValidationError`'s field messages, one per invalid path. */
    fieldMessages: seq<string>,
    /** A duplicate-key error's `keyValue.name`: the duplicated value when
        the unique index on a `name` path is violated, `None` when the
        index is on another path or the error is of another kind. */
    keyValueName: Option<string>)

  /** The MongoDB error for a second document with the same value on a
      unique path, as the driver reports it. */
  function DuplicateKeyError(collection: string, path: string, value: string): (e: ErrorRecord)
    ensures e.code == Some(11000) && !e.isOperational && e.statusCode.None?
    ensures e.keyValueName == if path == "name" then Some(value) else None
  {
    ErrorRecord("MongoError", Some(DuplicateKeyPrefix(collection, path) + ['"'] + value + ['"'] + " }"), true,
                None, None, false, Some(11000), None, None, [], if path == "name" then Some(value) else None)
  }

  /** The driver's message up to the quoted value (`E11000` is MongoDB's
      duplicate-key code; the text is written in pieces to keep proofs
      about it small). */
  function DuplicateKeyPrefix(collection: string, path: string): string {
    "E11000 " + "duplicate key " + "error collection: " + collection + " index: " + path + "_1 dup key: { " + path + ": "
  }

  /** One failed validator: the path it guards and its message. */
  datatype FieldError = FieldError(path: string, message: string)

  function Messages(errors: seq<FieldError>): (ms: seq<string>)
    ensures |ms| == |errors| && forall k | 0 <= k < |errors| :: ms[k] == errors[k].message
  {
    if errors == [] then [] else [errors[0].message] + Messages(errors[1..])
  }

  function Describe(errors: seq<FieldError>): seq<string> {
    if errors == [] then [] else [errors[0].path + ": " + errors[0].message] + Describe(errors[1..])
  }

  /** The `ValidationError` Mongoose rejects with when validators fail:
      `heading` is "<Model> validation failed" for a document and
      "Validation failed" for an update. */
  function ValidationError(heading: string, errors: seq<FieldError>): (e: ErrorRecord)
    ensures e.name == "ValidationError" && !e.isOperational && e.statusCode.None?
    ensures e.fieldMessages == Messages(errors)
  {
    ErrorRecord("ValidationError", Some(heading + ": " + Join(Describe(errors), ", ")), true,
                None, None, false, None, None, None, Messages(errors), None)
  }

  /** `` `${statusCode}`.startsWith('4') ? 'fail' : 'error' ``. */
  function StatusFor(statusCode: int): string {
    if StartsWith(DecimalString(statusCode), "4") then "fail" else "error"
  }

  /** `new AppError(message, statusCode)`. */
  function AppError(message: string, statusCode: int): (e: ErrorRecord)
    ensures e.message == Some(message) && !e.ownMessage && e.statusCode == Some(statusCode)
    ensures e.isOperational && e.status == Some(StatusFor(statusCode))
    ensures e.code.None? && e.path.None? && e.value.None? && e.fieldMessages == [] && e.keyValueName.None?
  {
    ErrorRecord("Error", Some(message), false, Some(statusCode), Some(StatusFor(statusCode)), true,
                None, None, None, [], None)
  }

  /** An error thrown by the JavaScript runtime or by `new Error(message)`:
      it carries a name and a non-enumerable message, and no status or
      status code. */
  function Thrown(name: string, message: string): (e: ErrorRecord)
    ensures e.name == name && e.message == Some(message) && !e.ownMessage
    ensures !e.isOperational && e.statusCode.None? && e.status.None? && e.code.None?
  {
    ErrorRecord(name, Some(message), false, None, None, false, None, None, None, [], None)
  }

  /** An error of a library class that assigns `this.message` itself, as
      jsonwebtoken's errors do. */
  function LibraryError(name: string, message: string): (e: ErrorRecord)
    ensures e.name == name && e.message == Some(message) && e.ownMessage
    ensures !e.isOperational && e.statusCode.None? && e.status.None? && e.code.None?
  {
    ErrorRecord(name, Some(message), true, None, None, false, None, None, None, [], None)
  }

  function TypeError(message: string): ErrorRecord {
    Thrown("TypeError", message)
  }

  /** The status is `'fail'` exactly when the status code is a natural number
      whose leading decimal digit is 4. */
  lemma StatusForFail(statusCode: int)
    ensures StatusFor(statusCode) == "fail" <==> statusCode >= 0 && LeadingDigit(statusCode) == 4
    ensures StatusFor(statusCode) == "fail" || StatusFor(statusCode) == "error"
  {
    if statusCode >= 0 {
      DigitsStartWithLeadingDigit(statusCode);
      var s := DecimalString(statusCode);
      assert StartsWith(s, "4") <==> s[0] == '4';
      assert DigitChar(LeadingDigit(statusCode)) == '4' <==> LeadingDigit(statusCode) == 4;
    } else {
      assert DecimalString(statusCode)[0] == '-';
    }
  }

  lemma {:induction false} LeadingDigitOfRange(n: nat, d: nat, p: nat)
    requires d < 10 && d > 0 && p >= 1 && IsPowerOfTen(p)
    requires d * p <= n < (d + 1) * p
    ensures LeadingDigit(n) == d
    decreases p
  {
    if p > 1 {
      PowerOfTenDiv(p);
      assert d * (p / 10) <= n / 10 < (d + 1) * (p / 10) by {
        DivBounds(n, d, p);
      }
      LeadingDigitOfRange(n / 10, d, p / 10);
    }
  }

  predicate IsPowerOfTen(p: nat)
    decreases p
  {
    p == 1 || (p >= 10 && p % 10 == 0 && IsPowerOfTen(p / 10))
  }

  lemma PowerOfTenDiv(p: nat)
    requires IsPowerOfTen(p) && p > 1
    ensures p % 10 == 0 && IsPowerOfTen(p / 10) && p / 10 >= 1
  {
  }

  lemma DivBounds(n: nat, d: nat, p: nat)
    requires p >= 10 && p % 10 == 0
    requires d * p <= n < (d + 1) * p
    ensures d * (p / 10) <= n / 10 < (d + 1) * (p / 10)
  {
    var q := p / 10;
    assert p == 10 * q;
    assert d * p == 10 * (d * q);
    assert (d + 1) * p == 10 * ((d + 1) * q);
  }

  /** Every 4xx code gives `'fail'`; 204 and 500 give `'error'`. */
  lemma StatusExamples(statusCode: int)
    ensures 400 <= statusCode < 500 ==> StatusFor(statusCode) == "fail"
    ensures 500 <= statusCode < 600 ==> StatusFor(statusCode) == "error"
    ensures StatusFor(204) == "error" && StatusFor(500) == "error" && StatusFor(404) == "fail"
  {
    assert IsPowerOfTen(100) by { assert IsPowerOfTen(10) by { assert IsPowerOfTen(1); } }
    StatusForFail(statusCode);
    if 400 <= statusCode < 500 { LeadingDigitOfRange(statusCode, 4, 100); }
    if 500 <= statusCode < 600 { LeadingDigitOfRange(statusCode, 5, 100); }
    StatusForFail(204);
    LeadingDigitOfRange(204, 2, 100);
    StatusForFail(500);
    LeadingDigitOfRange(500, 5, 100);
    StatusForFail(404);
    LeadingDigitOfRange(404, 4, 100);
  }
}
