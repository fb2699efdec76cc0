/** What the worker can tell about an event's JSON payload (api/internal/worker/worker.go). */
module Payloads {
  import opened Wrappers

  /** The "amount" member of a payload object. A JSON null decodes to the zero amount without error. */
  datatype AmountField = Absent | NullAmount | NotANumber | Number(amount: real)

  /** A payload text: empty, the JSON null, any other non-object, or an object. */
  datatype Payload = Empty | NullPayload | NotAnObject | Object(field: AmountField)

  function PayloadAmount(payload: Payload): Result<Option<real>, string> {
    match payload
    case Empty => Failure("payload required")
    case NotAnObject => Failure("payload must be a json object")
    case NullPayload => Success(None)
    case Object(Absent) => Success(None)
    case Object(NullAmount) => Success(Some(0.0))
    case Object(NotANumber) => Failure("payload.amount must be a number")
    case Object(Number(amount)) => Success(Some(amount))
  }
}
