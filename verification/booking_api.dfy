/**
 The REST view set for bookings: `create_booking` and `list_by_room`.

 `create_booking` validates the payload through the serializer first and then
 enters the atomic block that locks the room row, checks for overlap and
 inserts. The two parts are separate steps: `CommitCreate` is the atomic
 block and may run against a store that changed after validation, which is
 the only way its 404 answer can arise.
 */
module BookingApi {
  import opened Common
  import opened Ledger
  import opened BookingSerializer
  import BookingModel
  import RoomModel

  /**
   The atomic block: a missing room row is a 404, any booking of the room
   that overlaps the stay is a 409, and otherwise the booking is created
   through `save`, whose validation failure (a check-in day in the past)
   escapes the view as a 500 and rolls the block back. Only a 201 changes
   the store.
   */
  function CommitCreate(st: Store, v: ValidatedBooking, today: Day): (out: Step<()>)
    ensures out.reply.NotFound? <==> v.room !in st.rooms
    ensures v.room in st.rooms && !RoomModel.IsAvailable(st.bookings, v.room, v.start, v.end) ==>
      out.reply == Conflict
    ensures (v.room in st.rooms && RoomModel.IsAvailable(st.bookings, v.room, v.start, v.end)
             && !(v.start < v.end && today <= v.start)) ==> out.reply == ServerError
    ensures out.reply.Created? <==>
      v.room in st.rooms && RoomModel.IsAvailable(st.bookings, v.room, v.start, v.end)
      && v.start < v.end && today <= v.start
    ensures out.reply.Created? && KeysBelowCounters(st) ==>
      AddsOneBooking(st, out.store, out.reply.id, v.room, v.start, v.end)
    ensures !out.reply.Created? ==> out.store == st
  {
    if v.room !in st.rooms then Step(NotFound, st)
    else if !RoomModel.IsAvailable(st.bookings, v.room, v.start, v.end) then Step(Conflict, st)
    else match BookingModel.Save(st, v.room, v.start, v.end, today)
      case Failure(_) => Step(ServerError, st)
      case Success((id, st')) => Step(Created(id), st')
  }

  /**
   `BookingViewSet.create_booking` as one uninterrupted request: serializer
   errors are a 400; otherwise the atomic block decides.
   */
  function CreateBooking(st: Store, payload: BookingPayload, today: Day, parse: Parsers): (out: Step<()>)
    ensures out.reply.BadRequest? <==> IsValid(st, payload, parse).Failure?
    ensures out.reply.BadRequest? ==> out.reply.errors == IsValid(st, payload, parse).error
    ensures !out.reply.Created? ==> out.store == st
    ensures IsValid(st, payload, parse).Success? ==> out == CommitCreate(st, IsValid(st, payload, parse).value, today)
  {
    match IsValid(st, payload, parse)
    case Failure(errors) => Step(BadRequest(errors), st)
    case Success(v) => CommitCreate(st, v, today)
  }

  /**
   Run without interruption, the create never answers 404: the serializer has
   already found the room, and a validated payload has its dates in order,
   so a past check-in day is the only way to the 500 answer.
   */
  lemma UninterruptedCreateFindsRoom(st: Store, payload: BookingPayload, today: Day, parse: Parsers)
    ensures !CreateBooking(st, payload, today, parse).reply.NotFound?
    ensures CreateBooking(st, payload, today, parse).reply.ServerError? ==>
      IsValid(st, payload, parse).value.start < today
  {
  }

  /**
   `list_by_room`: a missing `room_id` is a 400; a value the key lookup
   cannot read as an integer raises inside the query and becomes a 500;
   otherwise the room's bookings, serialized and ordered by check-in day.
   An unknown room is not an error: it simply has no bookings.
   */
  function ListByRoom(st: Store, roomId: Param, parse: Parsers): (r: Reply<seq<Representation>>)
    ensures !Present(roomId) ==> r == BadRequest([Required("room_id")])
    ensures Present(roomId) && parse.integer(roomId.value).None? ==> r == ServerError
    ensures r.Ok? <==> Present(roomId) && parse.integer(roomId.value).Some?
    ensures r.Ok? ==>
      var room := parse.integer(roomId.value).value;
      var ids := BookingModel.ByStart(st.bookings, room);
      && |r.body| == RoomModel.BookingsCount(st.bookings, room)
      && (forall i :: 0 <= i < |r.body| ==> r.body[i] == Serialize(ids[i], st.bookings[ids[i]]))
  {
    if !Present(roomId) then BadRequest([Required("room_id")])
    else match parse.integer(roomId.value)
      case None => ServerError
      case Some(room) =>
        Ok(SerializeAll(st.bookings, BookingModel.ByStart(st.bookings, room)))
  }

  /** `BookingSerializer(qs, many=True)`: one representation per listed key, in order. */
  function SerializeAll(bookings: map<Id, Booking>, ids: seq<Id>): (rows: seq<Representation>)
    requires forall i :: 0 <= i < |ids| ==> ids[i] in bookings
    ensures |rows| == |ids|
    ensures forall i :: 0 <= i < |ids| ==> rows[i] == Serialize(ids[i], bookings[ids[i]])
  {
    seq(|ids|, i requires 0 <= i < |ids| => Serialize(ids[i], bookings[ids[i]]))
  }

  /** Every entry carries `room_id` equal to `room`. */
  ghost predicate ScopedTo(rows: seq<Representation>, room: Id) {
    forall i :: 0 <= i < |rows| ==> "room_id" in rows[i] && rows[i]["room_id"] == IntValue(room)
  }

  /** Every entry carries a `date_start` day, and those days never decrease along the list. */
  ghost predicate OrderedByStart(rows: seq<Representation>) {
    && (forall i :: 0 <= i < |rows| ==> "date_start" in rows[i] && rows[i]["date_start"].DateValue?)
    && (forall i, j :: 0 <= i < j < |rows| ==> rows[i]["date_start"].d <= rows[j]["date_start"].d)
  }

  /**
   The REST listing is ordered by check-in day, carries each booking's room
   as `room_id`, and is empty for a room the ledger does not know.
   */
  lemma ListByRoomOrderedAndScoped(st: Store, roomId: Param, parse: Parsers)
    requires NoOrphans(st)
    requires ListByRoom(st, roomId, parse).Ok?
    ensures var rows := ListByRoom(st, roomId, parse).body;
      var room := parse.integer(roomId.value).value;
      && ScopedTo(rows, room)
      && OrderedByStart(rows)
      && (room !in st.rooms ==> rows == [])
  {
  }
}
