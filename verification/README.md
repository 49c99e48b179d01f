# Hotel booking ledger

A Dafny model of the booking ledger of a small hotel-booking web service.
The ledger has two tables:

- rooms, each with a description, a nightly price and a creation stamp;
- bookings, each with its room, check-in day, check-out day and creation stamp.

A booking's room is a foreign key that cascades on delete. The model also
covers the rules the service applies when a room or booking is created,
deleted or listed. There are two interfaces:

- the form endpoints `create_booking`, `delete_booking`, `list_bookings`,
  `create_room`, `delete_room` and `list_rooms`;
- the REST view set for bookings, with `create_booking` and `list_by_room`.

The store is an immutable value: two maps from primary key to row, one key
counter per table starting at 1, and a logical clock that stamps each
inserted row in place of `created_at`. Each request is a pure function from
a store to a `Step`, which pairs the reply with the store the request leaves
behind. The reply is `Ok`, `Created`, `BadRequest`, `NotFound`, `Conflict`
or `ServerError`, with status 200, 201, 400, 404, 409 or 500.

Other representations:

- Calendar days are integer day ordinals, and "today" is a parameter.
- Prices are integer cents. The amount a request supplies is an exact
  decimal, represented as a `real`, and is rounded to cents when stored.
- The text parsers the views rely on are passed in as partial functions in
  `Common.Parsers`:
  - `int(...)` for keys;
  - `strptime("%Y-%m-%d")` and the REST date field for dates;
  - `Decimal(...)` for prices.

Modules:

- `Common`: option/result types, errors, replies and parsers.
- `Ledger`: the rows, the store, insertion and the ledger invariants:
  - fresh keys;
  - no orphaned booking;
  - every stay at least one night;
  - no two overlapping bookings of one room;
  - non-negative prices that fit the price column;
  - every creation stamp earlier than the clock.
- `BookingModel`: `clean`, `full_clean`/`save`, `check_availability`,
  `get_duration_days`, and the model ordering by check-in day.
- `RoomModel`: `get_bookings_count`, `is_available` and the fixed-scale
  price column.
- `BookingSerializer`: the REST payload validation, `validate` and
  `to_representation`.
- `BookingViews`, `BookingApi`, `RoomViews`: the endpoints.
- `Sorting`: `order_by` on a set of keys, as a sorted, duplicate-free sequence.
- `Invariants`: every request that changes the store keeps the ledger
  consistent, and so does any sequence of them.
- `Scenarios`: a concrete sequence of REST creates.

## Model

| member | source | states |
|---|---|---|
| Ledger.ToCents | rooms/models.py:6 | Storing an amount in the two-decimal price column gives the cent count nearest to it, within half a cent. A tie goes to the even cent count. A non-negative amount never becomes negative. |
| BookingModel.Clean | bookings/models.py:27-38 | The ordering error appears exactly when both dates are set and check-in is not before check-out. The past-date error appears exactly when both dates are set and check-in is before today. Rules are collected rather than fail-fast: with both violated, both are reported, ordering first. With a date absent there are no errors. |
| BookingModel.FullClean | bookings/models.py:40-42 | Full validation finds nothing exactly when the room exists, check-in is before check-out and check-in is not in the past. The missing-room error appears exactly when the room is absent. |
| BookingModel.Save | bookings/models.py:40-42 | A booking is persisted exactly when validation finds nothing. A failure carries the validation errors. A success adds exactly one booking under a fresh key with the given room and dates, and leaves every other row as it was. |
| BookingModel.SavePersistsOnlyValidated | bookings/models.py:40-42 | Every booking `save` persists has check-in before check-out, an existing room and a check-in day not in the past. |
| BookingModel.CheckAvailability | bookings/models.py:44-52 | True exactly when no booking of the same room overlaps the stay under the half-open test (`start < end'` and `end > start'`), leaving out the booking's own key when that key is set and non-zero. |
| BookingModel.PersistedBookingRechecksFree | bookings/models.py:49-50 | In a consistent ledger, re-checking a persisted, unchanged booking under its own key finds it available. |
| BookingModel.SelfExclusionIsNeeded | bookings/models.py:49-50 | Without its key, a persisted booking of at least one night is reported as colliding with its own row. |
| BookingModel.BackToBackIsNoOverlap | bookings/models.py:45-47 | A stay that starts on another's check-out day, or ends on its check-in day, does not overlap it. |
| BookingModel.OverlapsIffSharedNight | bookings/models.py:45-47 | For stays of at least one night, the overlap filter holds exactly when some night belongs to both stays. |
| BookingModel.DurationDays | bookings/models.py:54-55 | `get_duration_days`: the duration is the number of days from check-in to check-out, and is positive exactly when check-in is before check-out. |
| BookingModel.DurationCountsNights | bookings/models.py:54-55 | The duration `end - start` equals the number of nights the stay occupies. |
| BookingModel.CleanBookingHasPositiveDuration | bookings/models.py:54-55 | A booking that passed `clean` has a strictly positive duration. |
| BookingModel.ByStart | bookings/models.py:22 | The room's bookings in the default ordering: each booking of the room exactly once, no other booking, and non-decreasing check-in days. |
| BookingModel.ByStartIsStrict | bookings/models.py:22 | In a consistent ledger, no two bookings of one room share a check-in day, so the ordering is strict. |
| RoomModel.BookingsCount | rooms/models.py:18-19 | `get_bookings_count`: the count never exceeds the number of bookings, and is zero exactly when no booking references the room. |
| RoomModel.IsAvailable | rooms/models.py:21-27 | True exactly when no booking of this room overlaps the stay under the half-open test. There is no self-exclusion. |
| RoomModel.CheckAvailabilityAgreesWithIsAvailable | rooms/models.py:21-27 | For a booking without a key (absent or 0), `check_availability` and `is_available` give the same answer. |
| RoomModel.IsAvailableOnlySeesOwnRoom | rooms/models.py:24-26 | Two ledgers that agree on one room's bookings give the same availability for that room, whatever the other rooms hold. |
| RoomModel.AddingBookingCountsOnce | rooms/models.py:18-19 | Inserting a booking raises its room's booking count by one and leaves every other room's count unchanged. |
| RoomModel.PriceColumnHoldsTenDigits | rooms/models.py:6 | An amount in cents fits the price column exactly when its magnitude, counted in cents, has at most ten decimal digits. The default price 0 fits. |
| BookingSerializer.Validate | bookings/serializers.py:20-25 | Rejects the data exactly when both dates are present and check-in is not before check-out. Otherwise it returns the data unchanged. |
| BookingSerializer.ValidateAgreesWithClean | bookings/serializers.py:20-24 | The serializer's rule rejects exactly what the ordering rule of `clean` reports, on any day. |
| BookingSerializer.RoomFieldErrors | bookings/api.py:19 | The `room` field has no error exactly when it is present, reads as a key and names an existing room. Otherwise there is exactly one error, fixed by the case: an absent field is the required error, an empty value the not-null error, a non-integer value the incorrect-type error, and an unknown key the does-not-exist error. |
| BookingSerializer.DateFieldErrors | bookings/api.py:19 | A date field has no error exactly when it is present and parses as a date. Otherwise there is exactly one error: an absent field is the required error, and an unparseable value is the invalid-format error. |
| BookingSerializer.IsValid | bookings/api.py:18-22 | Payload validation succeeds exactly when the room reads as the key of an existing room, both dates parse, and check-in is before check-out. On success it hands back those values, and a failure always carries errors. When a field fails, the errors are those of the field checks, one per failing field, in the order `room`, `date_start`, `date_end`, and `validate` does not run. When every field is clean but check-in is not before check-out, the only error is the ordering rule of `validate`. |
| BookingSerializer.ToRepresentation | bookings/serializers.py:14-18 | The output has `room_id` equal to the room's key and no `room` key. Every other key and value is unchanged. |
| BookingSerializer.RepresentationRoundTrip | bookings/serializers.py:14-18 | Putting `room_id` back under `room` recovers the serializer's original output exactly. |
| BookingSerializer.Serialize | bookings/serializers.py:6-18 | A serialized booking has exactly the keys `booking_id`, `room_id`, `date_start`, `date_end` and `created_at`, carrying the booking's key, room and dates. |
| BookingViews.CreateBooking | bookings/views.py:28-77 | The form create runs its checks in this order, giving 400, 404 or 201: (1) `room_id`, `date_start`, `date_end` required, in that order; (2) a non-integer `room_id`; (3) an unknown room, which is a 404 before any date is parsed; (4) each date in turn; (5) all `clean` messages together; (6) an overlap, reported as 400. Success adds exactly one booking with the given room and dates under a fresh key. Any answer other than 201 leaves the store unchanged. |
| BookingViews.DeleteBooking | bookings/views.py:83-104 | A missing or non-integer key is a 400 and an unknown key is a 404. Otherwise exactly that booking is removed, and nothing else changes. |
| BookingViews.ListBookings | bookings/views.py:110-141 | A missing or non-integer `room_id` is a 400 and an unknown room is a 404. Otherwise the listing has each of the room's bookings exactly once, with its own dates and `duration_days = end - start`, ordered by check-in day. |
| BookingViews.ListingIsStrictAndPositive | bookings/views.py:128-139 | In a consistent ledger, the listing is strictly ordered by check-in day and every listed duration is positive. |
| BookingApi.CommitCreate | bookings/api.py:24-41 | The atomic block gives 404 exactly when the room row is gone and 409 when any booking of the room overlaps the stay. It gives 201 exactly when the room exists, the stay is free and validation passes, and then adds exactly one booking with the validated room and dates. A past check-in day fails inside `save` and is a 500. Any answer other than 201 leaves the store unchanged. |
| BookingApi.CreateBooking | bookings/api.py:16-41 | The REST create gives 400 exactly when serializer validation fails, and the 400 carries the serializer's errors. Otherwise the atomic block decides. Any answer other than 201 leaves the store unchanged. |
| BookingApi.UninterruptedCreateFindsRoom | bookings/api.py:18-29 | Without a change to the store between validation and the atomic block, the REST create never gives 404. Its only 500 is a check-in day in the past. |
| BookingApi.SerializeAll | bookings/api.py:51 | Serializing a queryset gives one entry per key, in the queryset's order, each the serialization of that booking. |
| BookingApi.ListByRoom | bookings/api.py:43-52 | A missing `room_id` is a 400 and a non-integer one is a 500. Otherwise the room's bookings are serialized in check-in order, one per booking. |
| BookingApi.ListByRoomOrderedAndScoped | bookings/api.py:50-52 | Every listed entry carries the asked room as `room_id`. Entries are ordered by `date_start`. A room the ledger does not know lists nothing. |
| RoomViews.CreateRoom | rooms/views.py:48-85 | `description` is required and checked first. `price_per_night` must then be present, read as a decimal and be positive, each failure being a 400. Positivity is tested on the exact amount. The amount is rounded half-even to cents. If the rounded price is too wide for the price column, the answer is 500. Success adds exactly one room with the given description and the rounded price under a fresh key. Every other answer leaves the store unchanged. |
| RoomViews.PositiveSubCentPriceStoredAsZero | rooms/views.py:71-81 | A positive amount of at most half a cent passes the positivity check, and the room is created with a stored price of 0.00. |
| RoomViews.RemoveRoom | bookings/models.py:8-13 | Deleting a room with the cascade removes that room and exactly the bookings that reference it. Every remaining room and booking is unchanged, and no remaining booking references the room. |
| RoomViews.CascadeRemovesCounted | rooms/views.py:121-123 | The cascade removes exactly as many bookings as the room's booking count. |
| RoomViews.DeleteRoom | rooms/views.py:93-127 | A missing or non-integer key is a 400 and an unknown room is a 404. Otherwise the room and exactly the bookings that reference it are removed, every other row stays as it was, and the reported count equals the room's booking count beforehand. |
| RoomViews.SortParametersRoundTrip | rooms/views.py:146-154 | `sort_by` defaults to `created_at` and `order` to `asc`. The accepted values are exactly `price_per_night`/`created_at` and `asc`/`desc`, and each reads back as itself. |
| RoomViews.RoomOrder | rooms/views.py:156-157 | Every room key appears exactly once, ordered by the chosen field in the chosen direction. |
| RoomViews.ListRooms | rooms/views.py:132-167 | An unknown `sort_by` is a 400, checked before an unknown `order`, which is also a 400. Otherwise the listing is a permutation of all rooms, each with its own fields and its booking count, ordered as asked. |
| Sorting.OrderBy | rooms/views.py:157 | `order_by` over a set of keys returns each key exactly once and no other value, sorted by the given sort key, with ties in ascending key order. |
| Invariants.AddCheckedBookingKeepsValid | bookings/api.py:30-40 | Inserting a booking whose room exists, whose stay is at least one night and which overlaps none of the room's bookings keeps the ledger consistent, including no double booking. |
| Invariants.FormCreatePreservesValid | bookings/views.py:59-77 | The form create, whatever it answers, keeps the ledger consistent. |
| Invariants.CommitCreatePreservesValid | bookings/api.py:24-40 | The atomic block keeps the ledger consistent even when it runs against a store that changed after validation. |
| Invariants.ApiCreatePreservesValid | bookings/api.py:16-41 | The REST create, whatever it answers, keeps the ledger consistent. |
| Invariants.DeleteBookingPreservesValid | bookings/views.py:97-102 | Deleting a booking keeps the ledger consistent. |
| Invariants.CreateRoomPreservesValid | rooms/views.py:71-81 | Creating a room keeps the ledger consistent. Stored prices stay non-negative and within the column. |
| Invariants.DeleteRoomPreservesValid | bookings/models.py:8-13 | Deleting a room keeps the ledger consistent. Afterwards no booking refers to the deleted room, and every remaining booking's room exists. |
| Invariants.RunPreservesValid | bookings/api.py:24-40 | Every store reachable by any sequence of requests from a consistent one (for example the empty store) has no double booking and no orphaned booking. |
| Scenarios.BackToBackThenOverlap | bookings/api.py:24-41 | Starting from one room, stays of days 10-12 and 12-14 are both created, with keys 1 and 2. A stay of days 11-13 is then refused with 409, and a check-in day before today with 500, each leaving the ledger unchanged. |

## Left out

- HTTP, JSON and form plumbing: decorators, method restrictions, CSRF handling and routing. Message texts are modelled by identity (one `Error` constructor per message), and the "; " joining of form validation messages is kept as the list of messages.
- Concurrency: each request is one atomic step. The form create has no row lock between its availability check and its insert, so two concurrent form creates could double-book a room. That race is a property of interleavings, which a sequential model cannot express. The REST create's atomic block is modelled by running its lookup, check and insert in one step, and its 404 case by applying that step to whatever store it finds.
- The clock: `date.today()` is a parameter, and `created_at` is a logical counter that rises by one per insert. That is enough for ordering by creation.
- Text parsing: `int(...)`, `strptime`, `Decimal` and the REST field parsers are arbitrary partial functions. Their exact accepted spellings are not modelled, and the form and REST interfaces share one date parser.
- Decimal arithmetic: a stored price is its value in whole cents, and a supplied amount is rounded half-even to cents, the default rounding of decimal quantisation. Backend-specific storage of an over-precise value is not modelled, and may differ with the database or the Django version. Non-finite decimals (`NaN`, `Infinity`) are left to the parser, which is arbitrary.
- Database failures other than an over-wide price: these reach the views' catch-all 500 answers but are not modelled, because the model's store cannot fail.
- RoomViews.CreateRoom: the view passes the price to the room constructor as `price_per_night` while the model field is `price`. As written, that call would raise and every otherwise valid create would answer 500. The model stores the price in the single `price` field instead.
- RoomViews.ListRooms: for the same field-name mismatch, sorting by `price_per_night` and reading `room.price_per_night` as written would raise. The model sorts and reports the single `price` field.
- RoomViews.ListRooms: the database leaves the order of rooms that tie on the sort field open. The model puts them in ascending key order, but the listing contract states only sortedness. The same holds for bookings sharing a check-in day in BookingModel.ByStart, which cannot occur in a consistent ledger.
- The admin pages, settings loading, the room REST view set and serializer, `__str__`, and the test files: none of them belongs to the ledger.

Where the code departs from the documented behaviour, the model follows the code:

- The REST create does not check for a past check-in day before its overlap check. That rule fires only inside `save`, as a validation error the REST layer does not handle, so it becomes a 500 and the atomic block rolls back (`BookingApi.CommitCreate`).
- The form create reports an overlap as a 400, not a 409.
- The room create requires a positive price, but it tests the amount before rounding. An amount of at most half a cent passes, and the room is stored with price 0.00 (`RoomViews.PositiveSubCentPriceStoredAsZero`).
- `list_by_room` answers 200 with an empty list for an unknown room, and a 500 for a non-integer `room_id`.
