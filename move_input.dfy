/** Validation of a guessed digit: the text field check in `makemove`
    (`Game.js`) and the request-body check in the back end's `makeMove`
    (`gameController.js`). Both parse with `parseInt(…, 10)` and refuse `NaN`
    and anything outside 0..9; they differ in what counts as "no number". */
module MoveInput {
  import opened Wrappers
  import opened Js

  datatype MoveError = MissingNumber | OutOfRange

  const EnterNumberMessage := "Please enter a number."
  const RequiredMessage := "A number is required to make a move"
  const RangeMessage := "Please enter a valid number between 0 and 9."

  /** The text the game screen shows for a refused entry. */
  function EntryMessage(e: MoveError): string
  {
    match e
    case MissingNumber => EnterNumberMessage
    case OutOfRange => RangeMessage
  }

  /** The `error` text of the back end's 400 reply for a refused body. */
  function BodyMessage(e: MoveError): string
  {
    match e
    case MissingNumber => RequiredMessage
    case OutOfRange => RangeMessage
  }

  /** The range check both layers apply after parsing. */
  function CheckDigit(parsed: Option<int>): (r: Result<int, MoveError>)
    ensures r.Ok? <==> parsed.Some? && 0 <= parsed.value <= 9
    ensures r.Ok? ==> r.value == parsed.value
    ensures r.Err? ==> r.error == OutOfRange
  {
    if parsed.None? || parsed.value < 0 || parsed.value > 9 then Err(OutOfRange)
    else Ok(parsed.value)
  }

  /** `makemove`'s checks on the text typed into the number field: empty text
      first, then the parsed value. */
  function ValidateEntry(number: string): (r: Result<int, MoveError>)
    ensures r == Err(MissingNumber) <==> number == ""
    ensures r.Ok? <==> number != "" && ParseInt(number).Some? && 0 <= ParseInt(number).value <= 9
    ensures r.Ok? ==> r.value == ParseInt(number).value
  {
    if number == "" then Err(MissingNumber) else CheckDigit(ParseInt(number))
  }

  /** `makeMove`'s checks on `req.body.number`: a falsy value first, then the
      value `parseInt` reads from its string form. */
  function ValidateBody(number: JsonValue): (r: Result<int, MoveError>)
    ensures r == Err(MissingNumber) <==> !Truthy(number)
    ensures r.Ok? <==>
      Truthy(number) && ParseInt(ToJsString(number)).Some? && 0 <= ParseInt(ToJsString(number)).value <= 9
    ensures r.Ok? ==> 0 <= r.value <= 9 && ParseInt(ToJsString(number)) == Some(r.value)
  {
    if !Truthy(number) then Err(MissingNumber) else CheckDigit(ParseInt(ToJsString(number)))
  }

  /** What the back end does with a move request: a 400 with an error text, or
      the digit it forwards to the puzzle provider as `num`. */
  datatype MoveReply = BadRequest(status: nat, error: string) | Forward(num: int)

  function MakeMove(number: JsonValue): (r: MoveReply)
    ensures r.Forward? <==> ValidateBody(number).Ok?
    ensures r.Forward? ==> 0 <= r.num <= 9 && r.num == ValidateBody(number).value
    ensures r.BadRequest? ==> r.status == 400 && r.error == BodyMessage(ValidateBody(number).error)
  {
    match ValidateBody(number)
    case Ok(d) => Forward(d)
    case Err(e) => BadRequest(400, BodyMessage(e))
  }

  /** A JSON number is accepted exactly when it is a digit 1..9 or at least
      `ExponentThreshold`: the number 0 is falsy and so is refused as missing,
      not as out of range, and a number printed in exponent form (`5e+21`) is
      read as its leading digit. */
  lemma NumericBody(n: int)
    ensures ValidateBody(Num(n)) ==
      if n == 0 then Err(MissingNumber)
      else if 1 <= n <= 9 then Ok(n)
      else if ExponentThreshold <= n then Ok(LeadingDigit(n))
      else Err(OutOfRange)
  {
    ParseNumberString(n);
  }

  /** A string that starts with a digit's numeral is accepted as that digit,
      whatever non-digit text follows; in particular `"0"` passes where the
      number 0 does not. */
  lemma StringBody(d: int, rest: string)
    requires 0 <= d <= 9
    requires rest == [] || !IsDigit(rest[0])
    ensures ValidateBody(Str(IntToDecimal(d) + rest)) == Ok(d)
    ensures ValidateEntry(IntToDecimal(d) + rest) == Ok(d)
  {
    ParseDecimalPrefix(d, rest);
  }

  /** The screen and the back end refuse and accept the same texts, for the
      same reasons; only the wording of a missing number differs. */
  lemma EntryAgreesWithBody(number: string)
    ensures ValidateEntry(number) == ValidateBody(Str(number))
  {
  }
}
