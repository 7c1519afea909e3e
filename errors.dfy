/** The `error` values that cross the layers of the vault server. Go compares the
    sentinel values by identity, so each is its own constructor here even where two
    share a text (the service's and the gateway's ErrNilArgument). */
module Errors {
  import opened Uuid

  /** A non-empty error text. */
  type Text = s: string | |s| > 0 witness "error"

  datatype Error =
    | NoUser                        // repository.ErrNoUser
    | InvalidCredentials            // service.ErrInvalidCredentials
    | UserNotExists                 // service.ErrUserNotExists
    | ServiceNilArgument            // service.ErrNilArgument
    | HandlerNilArgument            // handlers.ErrNilArgument
    | UserExists                    // only raised by the corrected sign-up, see Svc
    | BadUuid(cause: ParseError)  // from uuid.Parse
    | StoreFault(text: Text)        // any error of the store driver or the bson codec

  /** `err.Error()`: every error has a non-empty text. */
  function Message(e: Error): (m: string)
    ensures |m| > 0
    ensures e.StoreFault? ==> m == e.text
  {
    match e
    case NoUser => "there is no such user in the database"
    case InvalidCredentials => "login and/or password incorrect"
    case UserNotExists => "user doesn't exist"
    case ServiceNilArgument => "argument can't be empty"
    case HandlerNilArgument => "argument can't be empty"
    case UserExists => "user already exists"
    case BadUuid(InvalidLength(n)) => "invalid UUID length: " + Decimal(n)
    case BadUuid(InvalidFormat) => "invalid UUID format"
    case StoreFault(text) => text
  }

  predicate IsDigits(s: string) {
    forall i :: 0 <= i < |s| ==> '0' <= s[i] <= '9'
  }

  /** The number a string of decimal digits denotes, most significant digit first. */
  function DigitsValue(s: string): nat
    requires IsDigits(s)
  {
    if s == [] then 0 else 10 * DigitsValue(s[..|s| - 1]) + (s[|s| - 1] as int - 48)
  }

  /** The decimal digits of a natural number, as `%d` writes it: no leading zero, and
      read back they denote the number. */
  function Decimal(n: nat): (s: string)
    ensures |s| > 0 && IsDigits(s)
    ensures |s| > 1 ==> s[0] != '0'
    ensures DigitsValue(s) == n
  {
    if n < 10 then [(48 + n) as char]
    else
      var s := Decimal(n / 10) + [(48 + n % 10) as char];
      assert s[..|s| - 1] == Decimal(n / 10);
      s
  }
}
