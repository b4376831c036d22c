/**
 * The failures the blog's service layer raises, and the status codes they carry.
 *
 * A `ResponseStatusException` is a `StatusFailure` with its HTTP status and reason text;
 * a `DuplicateUsernameException` is a `DuplicateUsername`; any other runtime exception
 * is `Unexpected`. Every service operation returns a `Result` instead of throwing.
 */
module Errors {

  datatype Option<T> = None | Some(value: T)

  /** The HTTP statuses the core uses, with the codes and reason phrases of RFC 9110, section 15. */
  datatype HttpStatus = BadRequest | Forbidden | NotFound | Conflict | InternalServerError
  {
    function Code(): int
    {
      match this
      case BadRequest => 400
      case Forbidden => 403
      case NotFound => 404
      case Conflict => 409
      case InternalServerError => 500
    }

    function ReasonPhrase(): string
    {
      match this
      case BadRequest => "Bad Request"
      case Forbidden => "Forbidden"
      case NotFound => "Not Found"
      case Conflict => "Conflict"
      case InternalServerError => "Internal Server Error"
    }
  }

  datatype Failure =
    | StatusFailure(status: HttpStatus, reason: string)
    | DuplicateUsername(message: string)
    | Unexpected(message: string)

  datatype Result<T> = Ok(value: T) | Err(failure: Failure)

  /** `r` failed with a `ResponseStatusException` of status `st`. */
  predicate FailsWith<T>(r: Result<T>, st: HttpStatus)
  {
    r.Err? && r.failure.StatusFailure? && r.failure.status == st
  }

  /** The decimal text of a non-negative `Long`, as string concatenation renders it in messages. */
  function Decimal(n: nat): (r: string)
    ensures |r| >= 1
    ensures forall k :: 0 <= k < |r| ==> '0' <= r[k] <= '9'
    ensures n < 10 <==> |r| == 1
    decreases n
  {
    if n < 10 then ["0123456789"[n]] else Decimal(n / 10) + ["0123456789"[n % 10]]
  }

  /** The number a string of decimal digits denotes, most significant digit first. */
  function DigitsValue(s: string): nat
    requires forall k :: 0 <= k < |s| ==> '0' <= s[k] <= '9'
    decreases |s|
  {
    if |s| == 0 then 0
    else DigitsValue(s[..|s| - 1]) * 10 + (s[|s| - 1] as int - '0' as int)
  }

  /** The text of `n` denotes `n`: the message carries the id itself. */
  lemma {:induction false} DecimalValue(n: nat)
    ensures DigitsValue(Decimal(n)) == n
    decreases n
  {
    DigitValue(n % 10);
    if n >= 10 {
      DecimalValue(n / 10);
      var r := Decimal(n);
      assert r[..|r| - 1] == Decimal(n / 10);
      assert r[|r| - 1] == "0123456789"[n % 10];
      assert DigitsValue(r) == n / 10 * 10 + n % 10;
    }
  }

  /** The digit character written for `d` denotes `d`. */
  lemma DigitValue(d: nat)
    requires d < 10
    ensures "0123456789"[d] as int - '0' as int == d
  {
  }
}
