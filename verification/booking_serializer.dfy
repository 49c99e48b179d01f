/**
 The booking serializer of the REST interface: field validation of the
 incoming payload, the `validate` hook (date ordering) and the output
 rewrite `to_representation` (the `room` key becomes `room_id`).
 */
module BookingSerializer {
  import opened Common
  import opened Ledger
  import BookingModel

  /** The payload fields the serializer reads; `booking_id` and `created_at` are read-only. */
  datatype BookingPayload = BookingPayload(room: Param, dateStart: Param, dateEnd: Param)

  /** The data handed to `validate`, with each field possibly absent. */
  datatype BookingData = BookingData(room: Option<Id>, start: Option<Day>, end: Option<Day>)

  /** The data `is_valid` produces when every check passed. */
  datatype ValidatedBooking = ValidatedBooking(room: Id, start: Day, end: Day)

  /**
   `BookingSerializer.validate`: rejects a start that is not before the end
   when both dates are present; otherwise hands the data back unchanged.
   */
  function Validate(data: BookingData): (r: Result<BookingData, Error>)
    ensures r.Failure? <==> data.start.Some? && data.end.Some? && data.start.value >= data.end.value
    ensures r.Failure? ==> r.error == StartNotBeforeEnd
    ensures r.Success? ==> r.value == data
  {
    if data.start.Some? && data.end.Some? && data.start.value >= data.end.value then
      Failure(StartNotBeforeEnd)
    else
      Success(data)
  }

  /** The serializer's ordering rule is the first rule of `Booking.clean`, whatever day it is. */
  lemma ValidateAgreesWithClean(data: BookingData, today: Day)
    ensures Validate(data).Failure? <==> EndNotAfterStart in BookingModel.Clean(data.start, data.end, today)
  {
  }

  /** Errors of the related `room` field: required, not null, an integer key, an existing room. */
  function RoomFieldErrors(st: Store, p: Param, parse: Parsers): (errors: seq<Error>)
    ensures |errors| <= 1
    ensures errors == [] <==> Present(p) && parse.integer(p.value).Some? && parse.integer(p.value).value in st.rooms
    ensures errors == [Required("room")] <==> p.None?
    ensures errors == [NotNull("room")] <==> p == Some("")
    ensures errors == [Malformed("room")] <==> Present(p) && parse.integer(p.value).None?
    ensures errors == [UnknownRoom] <==>
      Present(p) && parse.integer(p.value).Some? && parse.integer(p.value).value !in st.rooms
  {
    if p.None? then [Required("room")]
    else if p.value == "" then [NotNull("room")]
    else match parse.integer(p.value)
      case None => [Malformed("room")]
      case Some(id) => if id in st.rooms then [] else [UnknownRoom]
  }

  /** Errors of a date field: required and in date form. */
  function DateFieldErrors(name: string, p: Param, parse: Parsers): (errors: seq<Error>)
    ensures |errors| <= 1
    ensures errors == [] <==> p.Some? && parse.date(p.value).Some?
    ensures errors == [Required(name)] <==> p.None?
    ensures errors == [Malformed(name)] <==> p.Some? && parse.date(p.value).None?
  {
    if p.None? then [Required(name)]
    else if parse.date(p.value).None? then [Malformed(name)]
    else []
  }

  /**
   `is_valid(raise_exception=True)`: every field is checked and all field
   errors are reported together; `validate` runs only when the fields are
   clean. Success yields an existing room and an ordered pair of dates.
   */
  function IsValid(st: Store, payload: BookingPayload, parse: Parsers): (r: Result<ValidatedBooking, seq<Error>>)
    ensures r.Failure? ==> r.error != []
    ensures r.Success? <==>
      && Present(payload.room)
      && parse.integer(payload.room.value).Some?
      && parse.integer(payload.room.value).value in st.rooms
      && payload.dateStart.Some? && parse.date(payload.dateStart.value).Some?
      && payload.dateEnd.Some? && parse.date(payload.dateEnd.value).Some?
      && parse.date(payload.dateStart.value).value < parse.date(payload.dateEnd.value).value
    ensures r.Success? ==>
      && r.value.room == parse.integer(payload.room.value).value
      && r.value.start == parse.date(payload.dateStart.value).value
      && r.value.end == parse.date(payload.dateEnd.value).value
    ensures (&& Present(payload.room)
             && parse.integer(payload.room.value).Some?
             && parse.integer(payload.room.value).value in st.rooms
             && payload.dateStart.Some? && parse.date(payload.dateStart.value).Some?
             && payload.dateEnd.Some? && parse.date(payload.dateEnd.value).Some?
             && parse.date(payload.dateEnd.value).value <= parse.date(payload.dateStart.value).value)
            ==> r == Failure([StartNotBeforeEnd])
    ensures var fieldErrors := RoomFieldErrors(st, payload.room, parse)
                               + DateFieldErrors("date_start", payload.dateStart, parse)
                               + DateFieldErrors("date_end", payload.dateEnd, parse);
            fieldErrors != [] ==> r == Failure(fieldErrors)
  {
    var errors := RoomFieldErrors(st, payload.room, parse)
      + DateFieldErrors("date_start", payload.dateStart, parse)
      + DateFieldErrors("date_end", payload.dateEnd, parse);
    if errors != [] then Failure(errors)
    else
      var room := parse.integer(payload.room.value).value;
      var start := parse.date(payload.dateStart.value).value;
      var end := parse.date(payload.dateEnd.value).value;
      match Validate(BookingData(Some(room), Some(start), Some(end)))
      case Failure(e) => Failure([e])
      case Success(_) => Success(ValidatedBooking(room, start, end))
  }

  /** A field value of the serialized output. */
  datatype Value = IntValue(i: int) | DateValue(d: Day) | StampValue(t: nat)

  type Representation = map<string, Value>

  /** The model serializer's default output for the declared fields. */
  function BaseRepresentation(id: Id, b: Booking): Representation {
    map[
      "booking_id" := IntValue(id),
      "room" := IntValue(b.room),
      "date_start" := DateValue(b.start),
      "date_end" := DateValue(b.end),
      "created_at" := StampValue(b.createdAt)]
  }

  /**
   `to_representation`: adds `room_id` with the room's key and drops the
   `room` key; every other field is left as it was. Deleting a key that is
   not there would fail, hence the precondition.
   */
  function ToRepresentation(data: Representation, roomId: Id): (r: Representation)
    requires "room" in data
    ensures "room" !in r
    ensures "room_id" in r && r["room_id"] == IntValue(roomId)
    ensures forall k :: k != "room" && k != "room_id" ==> (k in r <==> k in data)
    ensures forall k :: k in data && k != "room" && k != "room_id" ==> r[k] == data[k]
  {
    (data - {"room"})["room_id" := IntValue(roomId)]
  }

  /** Undoes the rewrite: puts the `room_id` value back under `room`. */
  function FromRepresentation(r: Representation): Representation
    requires "room_id" in r
  {
    (r - {"room_id"})["room" := r["room_id"]]
  }

  /**
   The rewrite loses nothing: on the serializer's own output (which carries
   `room` with the room's key and no `room_id`) it is undone exactly.
   */
  lemma RepresentationRoundTrip(data: Representation, roomId: Id)
    requires "room" in data && data["room"] == IntValue(roomId) && "room_id" !in data
    ensures FromRepresentation(ToRepresentation(data, roomId)) == data
  {
  }

  /** The full output for one booking. */
  function Serialize(id: Id, b: Booking): (r: Representation)
    ensures r.Keys == {"booking_id", "room_id", "date_start", "date_end", "created_at"}
    ensures r["booking_id"] == IntValue(id) && r["room_id"] == IntValue(b.room)
    ensures r["date_start"] == DateValue(b.start) && r["date_end"] == DateValue(b.end)
  {
    ToRepresentation(BaseRepresentation(id, b), b.room)
  }
}
