/**
 The ledger's invariants (fresh keys, no orphaned booking, proper date
 ranges, no double booking of a room, prices that fit the column, stamps in
 the past) hold in the empty store and are preserved by every request that changes
 the store, and therefore by any sequence of such requests.
 */
module Invariants {
  import opened Common
  import opened Ledger
  import RoomModel
  import BookingSerializer
  import BookingViews
  import BookingApi
  import RoomViews

  lemma EmptyIsValid()
    ensures Valid(Empty)
  {
  }

  /** Inserting a booking that passed the checks keeps the ledger consistent. */
  lemma AddCheckedBookingKeepsValid(st: Store, room: Id, start: Day, end: Day)
    requires Valid(st)
    requires room in st.rooms && start < end
    requires RoomModel.IsAvailable(st.bookings, room, start, end)
    ensures Valid(AddBooking(st, room, start, end))
  {
  }

  /** The form create keeps the ledger consistent, whatever it answers. */
  lemma FormCreatePreservesValid(st: Store, form: BookingViews.BookingForm, today: Day, parse: Parsers)
    requires Valid(st)
    ensures Valid(BookingViews.CreateBooking(st, form, today, parse).store)
  {
    var out := BookingViews.CreateBooking(st, form, today, parse);
    if out.reply.Created? {
      var room := parse.integer(form.roomId.value).value;
      var start := parse.date(form.dateStart.value).value;
      var end := parse.date(form.dateEnd.value).value;
      AddCheckedBookingKeepsValid(st, room, start, end);
    }
  }

  /**
   The atomic block of the REST create keeps the ledger consistent even when
   the store changed since the payload was validated: it re-reads the room
   and the room's bookings under the lock.
   */
  lemma CommitCreatePreservesValid(st: Store, v: BookingSerializer.ValidatedBooking, today: Day)
    requires Valid(st)
    ensures Valid(BookingApi.CommitCreate(st, v, today).store)
  {
    if BookingApi.CommitCreate(st, v, today).reply.Created? {
      AddCheckedBookingKeepsValid(st, v.room, v.start, v.end);
    }
  }

  lemma ApiCreatePreservesValid(st: Store, payload: BookingSerializer.BookingPayload, today: Day, parse: Parsers)
    requires Valid(st)
    ensures Valid(BookingApi.CreateBooking(st, payload, today, parse).store)
  {
    var r := BookingSerializer.IsValid(st, payload, parse);
    if r.Success? {
      CommitCreatePreservesValid(st, r.value, today);
    }
  }

  lemma DeleteBookingPreservesValid(st: Store, bookingId: Param, parse: Parsers)
    requires Valid(st)
    ensures Valid(BookingViews.DeleteBooking(st, bookingId, parse).store)
  {
  }

  lemma CreateRoomPreservesValid(st: Store, description: Param, price: Param, parse: Parsers)
    requires Valid(st)
    ensures Valid(RoomViews.CreateRoom(st, description, price, parse).store)
  {
  }

  /**
   The cascade keeps the ledger consistent: after deleting a room, no booking
   refers to it, and every booking still in the store has its room.
   */
  lemma DeleteRoomPreservesValid(st: Store, roomId: Param, parse: Parsers)
    requires Valid(st)
    ensures Valid(RoomViews.DeleteRoom(st, roomId, parse).store)
    ensures RoomViews.DeleteRoom(st, roomId, parse).reply.Ok? ==>
      var room := parse.integer(roomId.value).value;
      var st' := RoomViews.DeleteRoom(st, roomId, parse).store;
      room !in st'.rooms && RoomModel.BookingsCount(st'.bookings, room) == 0
  {
  }

  /** The requests that can change the store. */
  datatype Request =
    | FormCreateBooking(form: BookingViews.BookingForm, today: Day)
    | ApiCreateBooking(payload: BookingSerializer.BookingPayload, today: Day)
    | ApiCommitBooking(validated: BookingSerializer.ValidatedBooking, today: Day)
    | DeleteBooking(bookingId: Param)
    | CreateRoom(description: Param, price: Param)
    | DeleteRoom(roomId: Param)

  function Apply(st: Store, req: Request, parse: Parsers): Store {
    match req
    case FormCreateBooking(form, today) => BookingViews.CreateBooking(st, form, today, parse).store
    case ApiCreateBooking(payload, today) => BookingApi.CreateBooking(st, payload, today, parse).store
    case ApiCommitBooking(v, today) => BookingApi.CommitCreate(st, v, today).store
    case DeleteBooking(id) => BookingViews.DeleteBooking(st, id, parse).store
    case CreateRoom(description, price) => RoomViews.CreateRoom(st, description, price, parse).store
    case DeleteRoom(id) => RoomViews.DeleteRoom(st, id, parse).store
  }

  /** Requests applied one after another, each as one atomic step. */
  function Run(st: Store, reqs: seq<Request>, parse: Parsers): Store
    decreases |reqs|
  {
    if reqs == [] then st else Run(Apply(st, reqs[0], parse), reqs[1..], parse)
  }

  lemma ApplyPreservesValid(st: Store, req: Request, parse: Parsers)
    requires Valid(st)
    ensures Valid(Apply(st, req, parse))
  {
    match req
    case FormCreateBooking(form, today) => FormCreatePreservesValid(st, form, today, parse);
    case ApiCreateBooking(payload, today) => ApiCreatePreservesValid(st, payload, today, parse);
    case ApiCommitBooking(v, today) => CommitCreatePreservesValid(st, v, today);
    case DeleteBooking(id) => DeleteBookingPreservesValid(st, id, parse);
    case CreateRoom(description, price) => CreateRoomPreservesValid(st, description, price, parse);
    case DeleteRoom(id) => DeleteRoomPreservesValid(st, id, parse);
  }

  /**
   Every store reachable from the empty one by any sequence of requests has
   no two overlapping bookings of a room and no booking without its room.
   */
  lemma {:induction false} RunPreservesValid(st: Store, reqs: seq<Request>, parse: Parsers)
    requires Valid(st)
    ensures Valid(Run(st, reqs, parse))
    ensures NoDoubleBooking(Run(st, reqs, parse).bookings) && NoOrphans(Run(st, reqs, parse))
    decreases |reqs|
  {
    if reqs != [] {
      ApplyPreservesValid(st, reqs[0], parse);
      RunPreservesValid(Apply(st, reqs[0], parse), reqs[1..], parse);
    }
  }
}
