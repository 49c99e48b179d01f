/**
 The form endpoints for bookings: `create_booking`, `delete_booking` and
 `list_bookings`. Each request is one atomic step on the store.
 */
module BookingViews {
  import opened Common
  import opened Ledger
  import opened BookingModel
  import RoomModel

  /** The form fields `create_booking` reads. */
  datatype BookingForm = BookingForm(roomId: Param, dateStart: Param, dateEnd: Param)

  predicate FieldsPresent(form: BookingForm) {
    Present(form.roomId) && Present(form.dateStart) && Present(form.dateEnd)
  }

  /** The request got past the field, key-format and room-lookup checks. */
  ghost predicate RoomFound(st: Store, form: BookingForm, parse: Parsers) {
    && FieldsPresent(form)
    && parse.integer(form.roomId.value).Some?
    && parse.integer(form.roomId.value).value in st.rooms
  }

  /** The request also got past date parsing. */
  ghost predicate DatesParsed(st: Store, form: BookingForm, parse: Parsers) {
    && RoomFound(st, form, parse)
    && parse.date(form.dateStart.value).Some?
    && parse.date(form.dateEnd.value).Some?
  }

  /**
   `create_booking`: required fields (`room_id`, `date_start`, `date_end` in
   that order), the integer key, the room lookup (404), date parsing, `clean`
   (all messages together), the availability check (reported as 400), then
   `save`, which answers 201 with the new key. Only a 201 changes the store.
   */
  function CreateBooking(st: Store, form: BookingForm, today: Day, parse: Parsers): (out: Step<()>)
    ensures !Present(form.roomId) ==> out.reply == BadRequest([Required("room_id")])
    ensures Present(form.roomId) && !Present(form.dateStart) ==> out.reply == BadRequest([Required("date_start")])
    ensures Present(form.roomId) && Present(form.dateStart) && !Present(form.dateEnd) ==>
      out.reply == BadRequest([Required("date_end")])
    ensures FieldsPresent(form) && parse.integer(form.roomId.value).None? ==>
      out.reply == BadRequest([Malformed("room_id")])
    ensures out.reply.NotFound? <==>
      FieldsPresent(form) && parse.integer(form.roomId.value).Some? && parse.integer(form.roomId.value).value !in st.rooms
    ensures RoomFound(st, form, parse) && parse.date(form.dateStart.value).None? ==>
      out.reply == BadRequest([BadDateText(form.dateStart.value)])
    ensures RoomFound(st, form, parse) && parse.date(form.dateStart.value).Some? && parse.date(form.dateEnd.value).None? ==>
      out.reply == BadRequest([BadDateText(form.dateEnd.value)])
    ensures DatesParsed(st, form, parse) ==>
      var room := parse.integer(form.roomId.value).value;
      var start := parse.date(form.dateStart.value).value;
      var end := parse.date(form.dateEnd.value).value;
      var violations := Clean(Some(start), Some(end), today);
      && (violations != [] ==> out.reply == BadRequest(Messages(violations)))
      && (violations == [] && !RoomModel.IsAvailable(st.bookings, room, start, end) ==>
            out.reply == BadRequest([AlreadyBooked(form.dateStart.value, form.dateEnd.value)]))
      && (violations == [] && RoomModel.IsAvailable(st.bookings, room, start, end) ==>
            out.reply.Created? && (KeysBelowCounters(st) ==> AddsOneBooking(st, out.store, out.reply.id, room, start, end)))
    ensures out.reply.Created? ==> DatesParsed(st, form, parse)
    ensures !out.reply.Created? ==> out.store == st
    ensures out.reply.Status() in {201, 400, 404}
  {
    if !Present(form.roomId) then Step(BadRequest([Required("room_id")]), st)
    else if !Present(form.dateStart) then Step(BadRequest([Required("date_start")]), st)
    else if !Present(form.dateEnd) then Step(BadRequest([Required("date_end")]), st)
    else match parse.integer(form.roomId.value)
      case None => Step(BadRequest([Malformed("room_id")]), st)
      case Some(room) =>
        if room !in st.rooms then Step(NotFound, st)
        else match parse.date(form.dateStart.value)
          case None => Step(BadRequest([BadDateText(form.dateStart.value)]), st)
          case Some(start) => match parse.date(form.dateEnd.value)
            case None => Step(BadRequest([BadDateText(form.dateEnd.value)]), st)
            case Some(end) =>
              var violations := Clean(Some(start), Some(end), today);
              if violations != [] then Step(BadRequest(Messages(violations)), st)
              else if !CheckAvailability(st.bookings, Booking(room, start, end, st.clock), None) then
                Step(BadRequest([AlreadyBooked(form.dateStart.value, form.dateEnd.value)]), st)
              else match Save(st, room, start, end, today)
                case Failure(errors) => Step(BadRequest(errors), st)
                case Success((id, st')) => Step(Created(id), st')
  }

  /** What `delete_booking` reports on success. */
  datatype BookingDeleted = BookingDeleted(bookingId: Id)

  /**
   `delete_booking`: a missing or non-integer key is a 400, an unknown key a
   404; otherwise exactly that booking is removed and nothing else changes.
   */
  function DeleteBooking(st: Store, bookingId: Param, parse: Parsers): (out: Step<BookingDeleted>)
    ensures !Present(bookingId) ==> out.reply == BadRequest([Required("booking_id")])
    ensures Present(bookingId) && parse.integer(bookingId.value).None? ==>
      out.reply == BadRequest([Malformed("booking_id")])
    ensures out.reply.NotFound? <==>
      Present(bookingId) && parse.integer(bookingId.value).Some? && parse.integer(bookingId.value).value !in st.bookings
    ensures out.reply.Ok? <==>
      Present(bookingId) && parse.integer(bookingId.value).Some? && parse.integer(bookingId.value).value in st.bookings
    ensures out.reply.Ok? ==>
      var id := out.reply.body.bookingId;
      && id == parse.integer(bookingId.value).value
      && out.store.bookings.Keys == st.bookings.Keys - {id}
      && (forall k :: k in out.store.bookings ==> out.store.bookings[k] == st.bookings[k])
      && out.store.rooms == st.rooms
    ensures !out.reply.Ok? ==> out.store == st
  {
    if !Present(bookingId) then Step(BadRequest([Required("booking_id")]), st)
    else match parse.integer(bookingId.value)
      case None => Step(BadRequest([Malformed("booking_id")]), st)
      case Some(id) =>
        if id !in st.bookings then Step(NotFound, st)
        else Step(Ok(BookingDeleted(id)), st.(bookings := st.bookings - {id}))
  }

  /** One entry of the `list_bookings` output. */
  datatype BookingRow = BookingRow(bookingId: Id, start: Day, end: Day, durationDays: int)

  function RowOf(bookings: map<Id, Booking>, id: Id): BookingRow
    requires id in bookings
  {
    BookingRow(id, bookings[id].start, bookings[id].end, DurationDays(bookings[id]))
  }

  function RowsOf(bookings: map<Id, Booking>, ids: seq<Id>): (rows: seq<BookingRow>)
    requires forall i :: 0 <= i < |ids| ==> ids[i] in bookings
    ensures |rows| == |ids|
    ensures forall i :: 0 <= i < |ids| ==> rows[i] == RowOf(bookings, ids[i])
  {
    seq(|ids|, i requires 0 <= i < |ids| => RowOf(bookings, ids[i]))
  }

  /**
   `rows` lists the bookings of `room`: each exactly once, each with its own
   dates and its duration, ordered by check-in day.
   */
  ghost predicate ListsRoomBookings(bookings: map<Id, Booking>, room: Id, rows: seq<BookingRow>) {
    && |rows| == RoomModel.BookingsCount(bookings, room)
    && (forall i :: 0 <= i < |rows| ==>
          && rows[i].bookingId in bookings
          && bookings[rows[i].bookingId].room == room
          && rows[i].start == bookings[rows[i].bookingId].start
          && rows[i].end == bookings[rows[i].bookingId].end
          && rows[i].durationDays == rows[i].end - rows[i].start)
    && (forall id :: id in bookings && bookings[id].room == room ==>
          exists i :: 0 <= i < |rows| && rows[i].bookingId == id)
    && (forall i, j :: 0 <= i < j < |rows| ==> rows[i].bookingId != rows[j].bookingId)
    && (forall i, j :: 0 <= i < j < |rows| ==> rows[i].start <= rows[j].start)
  }

  lemma RowsListRoomBookings(bookings: map<Id, Booking>, room: Id)
    ensures ListsRoomBookings(bookings, room, RowsOf(bookings, ByStart(bookings, room)))
  {
    var ids := ByStart(bookings, room);
    var rows := RowsOf(bookings, ids);
    forall i | 0 <= i < |rows|
      ensures rows[i].bookingId == ids[i] && rows[i].start == bookings[ids[i]].start
      ensures rows[i].end == bookings[ids[i]].end
      ensures rows[i].durationDays == rows[i].end - rows[i].start
    {
      assert rows[i] == RowOf(bookings, ids[i]);
    }
    forall id | id in bookings && bookings[id].room == room
      ensures exists i :: 0 <= i < |rows| && rows[i].bookingId == id
    {
      var i :| 0 <= i < |ids| && ids[i] == id;
      assert rows[i].bookingId == id;
    }
  }

  /**
   `list_bookings`: a missing or non-integer `room_id` is a 400, an unknown
   room a 404; otherwise every booking of the room appears exactly once,
   ordered by check-in day, with its duration in nights.
   */
  function ListBookings(st: Store, roomId: Param, parse: Parsers): (r: Reply<seq<BookingRow>>)
    ensures !Present(roomId) ==> r == BadRequest([Required("room_id")])
    ensures Present(roomId) && parse.integer(roomId.value).None? ==> r == BadRequest([Malformed("room_id")])
    ensures r.NotFound? <==>
      Present(roomId) && parse.integer(roomId.value).Some? && parse.integer(roomId.value).value !in st.rooms
    ensures r.Ok? <==>
      Present(roomId) && parse.integer(roomId.value).Some? && parse.integer(roomId.value).value in st.rooms
    ensures r.Ok? ==> ListsRoomBookings(st.bookings, parse.integer(roomId.value).value, r.body)
  {
    if !Present(roomId) then BadRequest([Required("room_id")])
    else match parse.integer(roomId.value)
      case None => BadRequest([Malformed("room_id")])
      case Some(room) =>
        if room !in st.rooms then NotFound
        else
          RowsListRoomBookings(st.bookings, room);
          Ok(RowsOf(st.bookings, ByStart(st.bookings, room)))
  }

  /**
   In a consistent ledger the listing is strictly ordered by check-in day and
   every listed stay lasts at least one night.
   */
  lemma ListingIsStrictAndPositive(st: Store, roomId: Param, parse: Parsers)
    requires Valid(st)
    requires ListBookings(st, roomId, parse).Ok?
    ensures var rows := ListBookings(st, roomId, parse).body;
      && (forall i, j :: 0 <= i < j < |rows| ==> rows[i].start < rows[j].start)
      && (forall i :: 0 <= i < |rows| ==> rows[i].durationDays > 0)
  {
  }
}
