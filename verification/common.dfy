/**
 Shared vocabulary of the booking ledger: identifiers, calendar days, money,
 the optional and result wrappers, the error identities the endpoints report,
 and the HTTP outcome of a request.
 */
module Common {

  /** Primary key of a room or a booking, assigned by the store. */
  type Id = int

  /** A calendar date as a day ordinal: consecutive dates differ by one. */
  type Day = int

  /** A fixed-scale decimal amount with two fractional digits, in cents. */
  type Cents = int

  datatype Option<+T> = None | Some(value: T)

  datatype Result<+R, +E> = Success(value: R) | Failure(error: E)

  /** A form or query parameter as the request carries it: absent, or some text. */
  type Param = Option<string>

  /**
   The truthiness test `if not value` applied to `request.POST.get(name)`:
   a parameter counts as given only when it is present and not empty.
   */
  predicate Present(p: Param) {
    p.Some? && p.value != ""
  }

  /**
   The parsers the views rely on, as partial functions: `int(...)` for
   identifiers, the `YYYY-MM-DD` date reader, and `Decimal(...)`, which
   yields the exact amount written, before any rounding to the column's scale.
   */
  datatype Parsers = Parsers(
    integer: string -> Option<int>,
    date: string -> Option<Day>,
    decimal: string -> Option<real>)

  /** The two rules of `Booking.clean`, in the order they are checked. */
  datatype Violation = EndNotAfterStart | StartInPast

  /** The identity of each error message the endpoints can return. */
  datatype Error =
    | Required(field: string)            // parameter absent or empty
    | NotNull(field: string)             // serializer: related field given as empty
    | Malformed(field: string)           // not an integer / not a date / not a decimal
    | UnknownRoom                        // serializer: the referenced room does not exist
    | BadDateText(text: string)          // `parse_date` rejected this text
    | Invalid(rule: Violation)           // one message of `Booking.clean`
    | MissingRoomReference               // `full_clean`: the room foreign key is dangling
    | AlreadyBooked(start: string, end: string)
    | StartNotBeforeEnd                  // serializer ordering rule
    | PriceNotPositive
    | PriceFormat
    | BadSortField
    | BadOrder

  /** The response of one request; `Status` gives its HTTP code. */
  datatype Reply<+T> =
    | Ok(body: T)
    | Created(id: Id)
    | BadRequest(errors: seq<Error>)
    | NotFound
    | Conflict
    | ServerError
  {
    function Status(): int {
      match this
      case Ok(_) => 200
      case Created(_) => 201
      case BadRequest(_) => 400
      case NotFound => 404
      case Conflict => 409
      case ServerError => 500
    }
  }
}
