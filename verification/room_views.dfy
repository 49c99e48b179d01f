/**
 The form endpoints for rooms: `create_room`, `delete_room` (cascading to
 the room's bookings) and `list_rooms` (validated sort key and direction).
 */
module RoomViews {
  import opened Common
  import opened Ledger
  import opened Sorting
  import RoomModel

  /**
   `create_room`: `description` is required and checked first, then
   `price_per_night` is required, must read as a decimal and must be positive.
   The positivity test sees the amount as written; the column then stores it
   rounded to cents. An amount whose rounded value is too wide for the column
   is refused by the database, which the view's catch-all turns into a 500.
   Success adds one room and answers 201 with its key; nothing else changes
   the store.
   */
  function CreateRoom(st: Store, description: Param, pricePerNight: Param, parse: Parsers): (out: Step<()>)
    ensures !Present(description) ==> out.reply == BadRequest([Required("description")])
    ensures Present(description) && !Present(pricePerNight) ==>
      out.reply == BadRequest([Required("price_per_night")])
    ensures Present(description) && Present(pricePerNight) && parse.decimal(pricePerNight.value).None? ==>
      out.reply == BadRequest([PriceFormat])
    ensures (Present(description) && Present(pricePerNight) && parse.decimal(pricePerNight.value).Some?
             && parse.decimal(pricePerNight.value).value <= 0.0) ==> out.reply == BadRequest([PriceNotPositive])
    ensures out.reply.Created? <==>
      Present(description) && Present(pricePerNight) && parse.decimal(pricePerNight.value).Some?
      && 0.0 < parse.decimal(pricePerNight.value).value
      && FitsPriceColumn(ToCents(parse.decimal(pricePerNight.value).value))
    ensures (Present(description) && Present(pricePerNight) && parse.decimal(pricePerNight.value).Some?
             && 0.0 < parse.decimal(pricePerNight.value).value
             && !FitsPriceColumn(ToCents(parse.decimal(pricePerNight.value).value))) ==> out.reply == ServerError
    ensures out.reply.Created? && KeysBelowCounters(st) ==>
      AddsOneRoom(st, out.store, out.reply.id, description.value, ToCents(parse.decimal(pricePerNight.value).value))
    ensures !out.reply.Created? ==> out.store == st
  {
    if !Present(description) then Step(BadRequest([Required("description")]), st)
    else if !Present(pricePerNight) then Step(BadRequest([Required("price_per_night")]), st)
    else match parse.decimal(pricePerNight.value)
      case None => Step(BadRequest([PriceFormat]), st)
      case Some(amount) =>
        if amount <= 0.0 then Step(BadRequest([PriceNotPositive]), st)
        else
          var price := ToCents(amount);
          if !FitsPriceColumn(price) then Step(ServerError, st)
          else Step(Created(st.nextRoomId), AddRoom(st, description.value, price))
  }

  /**
   The positivity test runs before rounding: a positive amount of at most
   half a cent is accepted, and the room is stored with price 0.
   */
  lemma PositiveSubCentPriceStoredAsZero(st: Store, description: Param, pricePerNight: Param, parse: Parsers)
    requires Present(description) && Present(pricePerNight) && parse.decimal(pricePerNight.value).Some?
    requires 0.0 < parse.decimal(pricePerNight.value).value <= 0.005
    ensures var out := CreateRoom(st, description, pricePerNight, parse);
      && out.reply.Created?
      && out.reply.id in out.store.rooms
      && out.store.rooms[out.reply.id].price == 0
  {
    assert Pow10(PriceDecimalPlaces) == 100;
  }

  /** What `delete_room` reports on success. */
  datatype RoomDeleted = RoomDeleted(roomId: Id, bookingsRemoved: nat)

  /** The cascade: the room and every booking that references it removed together. */
  function RemoveRoom(st: Store, room: Id): (st': Store)
    ensures st'.rooms.Keys == st.rooms.Keys - {room}
    ensures st'.bookings.Keys == st.bookings.Keys - BookingsOf(st.bookings, room)
    ensures forall id :: id in st'.rooms ==> st'.rooms[id] == st.rooms[id]
    ensures forall id :: id in st'.bookings ==> st'.bookings[id] == st.bookings[id] && st'.bookings[id].room != room
  {
    st.(rooms := st.rooms - {room},
        bookings := map id | id in st.bookings && st.bookings[id].room != room :: st.bookings[id])
  }

  lemma CascadeRemovesCounted(st: Store, room: Id)
    ensures |RemoveRoom(st, room).bookings| == |st.bookings| - RoomModel.BookingsCount(st.bookings, room)
  {
  }

  /**
   `delete_room`: a missing or non-integer key is a 400, an unknown room a
   404. Otherwise the room and all of its bookings go in one atomic step, the
   reported count is the number of bookings the room had, and no remaining
   booking refers to the deleted room.
   */
  function DeleteRoom(st: Store, roomId: Param, parse: Parsers): (out: Step<RoomDeleted>)
    ensures !Present(roomId) ==> out.reply == BadRequest([Required("room_id")])
    ensures Present(roomId) && parse.integer(roomId.value).None? ==> out.reply == BadRequest([Malformed("room_id")])
    ensures out.reply.NotFound? <==>
      Present(roomId) && parse.integer(roomId.value).Some? && parse.integer(roomId.value).value !in st.rooms
    ensures out.reply.Ok? <==>
      Present(roomId) && parse.integer(roomId.value).Some? && parse.integer(roomId.value).value in st.rooms
    ensures out.reply.Ok? ==>
      var room := out.reply.body.roomId;
      && room == parse.integer(roomId.value).value
      && out.store.rooms.Keys == st.rooms.Keys - {room}
      && (forall k :: k in out.store.rooms ==> out.store.rooms[k] == st.rooms[k])
      && (forall b :: b in out.store.bookings ==> b in st.bookings && out.store.bookings[b] == st.bookings[b])
      && (forall b :: b in st.bookings ==> (b in out.store.bookings <==> st.bookings[b].room != room))
      && out.reply.body.bookingsRemoved == RoomModel.BookingsCount(st.bookings, room)
      && |out.store.bookings| == |st.bookings| - out.reply.body.bookingsRemoved
    ensures !out.reply.Ok? ==> out.store == st
  {
    if !Present(roomId) then Step(BadRequest([Required("room_id")]), st)
    else match parse.integer(roomId.value)
      case None => Step(BadRequest([Malformed("room_id")]), st)
      case Some(room) =>
        if room !in st.rooms then Step(NotFound, st)
        else
          var count := RoomModel.BookingsCount(st.bookings, room);
          CascadeRemovesCounted(st, room);
          Step(Ok(RoomDeleted(room, count)), RemoveRoom(st, room))
  }

  /** The two accepted `sort_by` values and the two accepted `order` values. */
  datatype SortField = ByPrice | ByCreatedAt
  datatype Direction = Asc | Desc

  function SortFieldName(f: SortField): string {
    match f
    case ByPrice => "price_per_night"
    case ByCreatedAt => "created_at"
  }

  function DirectionName(d: Direction): string {
    match d
    case Asc => "asc"
    case Desc => "desc"
  }

  /** `sort_by`, defaulting to `created_at` when absent; any other text is refused. */
  function ParseSortField(p: Param): Option<SortField> {
    if p.None? || p.value == "created_at" then Some(ByCreatedAt)
    else if p.value == "price_per_night" then Some(ByPrice)
    else None
  }

  /** `order`, defaulting to `asc` when absent; any other text is refused. */
  function ParseDirection(p: Param): Option<Direction> {
    if p.None? || p.value == "asc" then Some(Asc)
    else if p.value == "desc" then Some(Desc)
    else None
  }

  /**
   The accepted values are exactly the names of the sort fields and
   directions: each name reads back as itself, and every accepted text is a name.
   */
  lemma SortParametersRoundTrip(f: SortField, d: Direction, p: string)
    ensures ParseSortField(Some(SortFieldName(f))) == Some(f)
    ensures ParseDirection(Some(DirectionName(d))) == Some(d)
    ensures ParseSortField(Some(p)).Some? ==> p == SortFieldName(ParseSortField(Some(p)).value)
    ensures ParseDirection(Some(p)).Some? ==> p == DirectionName(ParseDirection(Some(p)).value)
    ensures ParseSortField(None) == Some(ByCreatedAt) && ParseDirection(None) == Some(Asc)
  {
  }

  /** One entry of the `list_rooms` output. */
  datatype RoomRow = RoomRow(roomId: Id, description: string, price: Cents, createdAt: nat, bookingsCount: nat)

  function FieldValue(f: SortField, r: Room): int {
    match f
    case ByPrice => r.price
    case ByCreatedAt => r.createdAt
  }

  function RowField(f: SortField, row: RoomRow): int {
    match f
    case ByPrice => row.price
    case ByCreatedAt => row.createdAt
  }

  predicate InOrder(d: Direction, a: int, b: int) {
    match d
    case Asc => a <= b
    case Desc => a >= b
  }

  /** The sort key for `order_by`: the field, negated for descending order. */
  function RoomKey(rooms: map<Id, Room>, f: SortField, d: Direction): int -> int {
    (id: Id) =>
      if id !in rooms then 0
      else if d == Asc then FieldValue(f, rooms[id])
      else -FieldValue(f, rooms[id])
  }

  function RoomRowOf(st: Store, id: Id): RoomRow
    requires id in st.rooms
  {
    var r := st.rooms[id];
    RoomRow(id, r.description, r.price, r.createdAt, RoomModel.BookingsCount(st.bookings, id))
  }

  /**
   `rows` is a listing of every room of the store: each room exactly once,
   with its own fields and its booking count, ordered by the field in the
   direction asked for.
   */
  ghost predicate ListsAllRooms(st: Store, f: SortField, d: Direction, rows: seq<RoomRow>) {
    && |rows| == |st.rooms|
    && (forall i :: 0 <= i < |rows| ==> rows[i].roomId in st.rooms && rows[i] == RoomRowOf(st, rows[i].roomId))
    && (forall id :: id in st.rooms ==> exists i :: 0 <= i < |rows| && rows[i].roomId == id)
    && (forall i, j :: 0 <= i < j < |rows| ==> rows[i].roomId != rows[j].roomId)
    && (forall i, j :: 0 <= i < j < |rows| ==> InOrder(d, RowField(f, rows[i]), RowField(f, rows[j])))
  }

  function RoomRows(st: Store, ids: seq<Id>): (rows: seq<RoomRow>)
    requires forall i :: 0 <= i < |ids| ==> ids[i] in st.rooms
    ensures |rows| == |ids|
    ensures forall i :: 0 <= i < |ids| ==> rows[i] == RoomRowOf(st, ids[i])
  {
    seq(|ids|, i requires 0 <= i < |ids| => RoomRowOf(st, ids[i]))
  }

  lemma KeyOrder(rooms: map<Id, Room>, f: SortField, d: Direction, a: Id, b: Id)
    requires a in rooms && b in rooms
    requires RoomKey(rooms, f, d)(a) <= RoomKey(rooms, f, d)(b)
    ensures InOrder(d, FieldValue(f, rooms[a]), FieldValue(f, rooms[b]))
  {
  }

  /** `Room.objects.all().order_by(...)`: every room key once, in the order asked for. */
  function RoomOrder(rooms: map<Id, Room>, f: SortField, d: Direction): (ids: seq<Id>)
    ensures |ids| == |rooms|
    ensures forall i :: 0 <= i < |ids| ==> ids[i] in rooms
    ensures forall id :: id in rooms ==> id in ids
    ensures Distinct(ids)
    ensures forall i, j :: 0 <= i < j < |ids| ==> InOrder(d, FieldValue(f, rooms[ids[i]]), FieldValue(f, rooms[ids[j]]))
  {
    var key := RoomKey(rooms, f, d);
    var ids := OrderBy(rooms.Keys, key);
    assert forall i :: 0 <= i < |ids| ==> ids[i] in rooms by {
      forall i | 0 <= i < |ids| ensures ids[i] in rooms {
        assert ids[i] in ids;
      }
    }
    forall i, j | 0 <= i < j < |ids|
      ensures InOrder(d, FieldValue(f, rooms[ids[i]]), FieldValue(f, rooms[ids[j]]))
    {
      assert Before(key, ids[i], ids[j]);
      KeyOrder(rooms, f, d, ids[i], ids[j]);
    }
    ids
  }

  lemma RoomRowsListAllRooms(st: Store, f: SortField, d: Direction)
    ensures ListsAllRooms(st, f, d, RoomRows(st, RoomOrder(st.rooms, f, d)))
  {
    var ids := RoomOrder(st.rooms, f, d);
    var rows := RoomRows(st, ids);
    forall i | 0 <= i < |rows|
      ensures rows[i].roomId == ids[i] && rows[i] == RoomRowOf(st, ids[i])
      ensures RowField(f, rows[i]) == FieldValue(f, st.rooms[ids[i]])
    {
    }
    forall id | id in st.rooms ensures exists i :: 0 <= i < |rows| && rows[i].roomId == id {
      var i :| 0 <= i < |ids| && ids[i] == id;
      assert rows[i].roomId == id;
    }
  }

  /**
   `list_rooms`: an unknown `sort_by` is a 400, then an unknown `order` is a
   400; otherwise every room with its booking count, ordered as asked.
   */
  function ListRooms(st: Store, sortBy: Param, order: Param): (r: Reply<seq<RoomRow>>)
    ensures ParseSortField(sortBy).None? ==> r == BadRequest([BadSortField])
    ensures ParseSortField(sortBy).Some? && ParseDirection(order).None? ==> r == BadRequest([BadOrder])
    ensures r.Ok? <==> ParseSortField(sortBy).Some? && ParseDirection(order).Some?
    ensures r.Ok? ==> ListsAllRooms(st, ParseSortField(sortBy).value, ParseDirection(order).value, r.body)
  {
    match ParseSortField(sortBy)
    case None => BadRequest([BadSortField])
    case Some(f) =>
      match ParseDirection(order)
      case None => BadRequest([BadOrder])
      case Some(d) =>
        RoomRowsListAllRooms(st, f, d);
        Ok(RoomRows(st, RoomOrder(st.rooms, f, d)))
  }
}
