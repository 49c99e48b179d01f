/**
 Concrete request sequences against the REST create, starting from the
 empty ledger with one room.
 */
module Scenarios {
  import opened Common
  import opened Ledger
  import BookingSerializer
  import BookingApi

  /**
   Stays of days 10-12 and 12-14 in the same room are both accepted and get
   keys 1 and 2; a stay of days 11-13 then collides with both and is refused
   with 409, leaving the ledger as it was; a check-in day before today fails
   in `save` and is a 500.
   */
  lemma BackToBackThenOverlap()
    ensures var st0 := AddRoom(Empty, "Sea view", 500000);
      var first := BookingApi.CommitCreate(st0, BookingSerializer.ValidatedBooking(1, 10, 12), 5);
      var second := BookingApi.CommitCreate(first.store, BookingSerializer.ValidatedBooking(1, 12, 14), 5);
      var third := BookingApi.CommitCreate(second.store, BookingSerializer.ValidatedBooking(1, 11, 13), 5);
      var past := BookingApi.CommitCreate(second.store, BookingSerializer.ValidatedBooking(1, 3, 4), 5);
      && first.reply == Created(1)
      && second.reply == Created(2)
      && third.reply == Conflict && third.store == second.store
      && past.reply == ServerError && past.store == second.store
  {
  }
}
