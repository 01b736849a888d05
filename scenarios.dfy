/** Worked examples of the listing, statistics and booking behaviour. */
module Scenarios {
  import opened Wrappers
  import opened Documents
  import opened Filters
  import opened Ordering
  import opened Paging
  import opened Stats
  import opened Bookings
  import opened Server

  /** `?category=SUV&rating=4&page=2&limit=2` over five SUVs rated at least 4:
      vehicles 3 and 4 of the store order, 5 in all, 3 pages. */
  lemma {:induction false} SuvListingPageTwo(vs: seq<Vehicle>)
    requires |vs| == 5
    requires forall v | v in vs :: v.category == "SUV" && v.rating >= 4.0
    ensures var req := ListingRequest(None, Some("SUV"), Some(4.0), None, Some(2), Some(2));
            var matched := Find(vs, QueryOf(req));
            && |matched| == 5
            && TotalPages(|matched|, LimitOf(req)) == 3
            && Window(Arrange(matched, req.sort), Skip(PageOf(req), LimitOf(req)), LimitOf(req)) == vs[2..4]
  {
    var req := ListingRequest(None, Some("SUV"), Some(4.0), None, Some(2), Some(2));
    FindAll(vs, QueryOf(req));
  }

  /** An owner's prices 50, 150, 100 and 9999 give the histogram 2, 1, 0, 0, 1. */
  lemma DistributionExample(a: Vehicle, b: Vehicle, c: Vehicle, d: Vehicle)
    requires a.pricePerDay == Some(50.0) && b.pricePerDay == Some(150.0)
    requires c.pricePerDay == Some(100.0) && d.pricePerDay == Some(9999.0)
    ensures var vs := [a, b, c, d];
            && BucketCount(vs, 0) == 2 && BucketCount(vs, 1) == 1 && BucketCount(vs, 2) == 0
            && BucketCount(vs, 3) == 0 && BucketCount(vs, 4) == 1
  {
    var vs := [a, b, c, d];
    RangeExamples();
    assert RangeOf(Some(50.0)) == Some(0) && RangeOf(Some(150.0)) == Some(1);
    assert RangeOf(Some(9999.0)) == Some(4);
    forall i: nat ensures BucketCount(vs, i) ==
      (if i == 0 then 2 else 0) + (if i == 1 then 1 else 0) + (if i == 4 then 1 else 0)
    {
      assert [a][..0] == [];
      assert BucketCount([a], i) == (if i == 0 then 1 else 0);
      assert [a, b][..1] == [a];
      assert BucketCount([a, b], i) == (if i == 0 then 1 else 0) + (if i == 1 then 1 else 0);
      assert [a, b, c][..2] == [a, b];
      assert BucketCount([a, b, c], i) == (if i == 0 then 2 else 0) + (if i == 1 then 1 else 0);
      assert vs[..3] == [a, b, c];
    }
  }

  /** A client of the store: booking (E, V) makes the check for (E, V) true,
      counts the booking on V when V is stored, and leaves the answer for
      another vehicle alone. */
  method BookThenCheck(store: Store, email: string, v: string, other: string)
      returns (booked: bool, otherBooked: bool, counted: UpdateResult)
    requires store.Valid() && v != other
    requires !IsBooked(store.bookings, email, other)
    modifies store
    ensures booked && !otherBooked
    ensures counted.matchedCount == (if IndexOfId(old(store.vehicles), v).Some? then 1 else 0)
  {
    var booking := Booking(email, v, 0);
    var _, c := store.BookVehicle(booking, v);
    counted := c;
    booked := store.CheckBooking(email, v);
    OtherBookingIrrelevant(old(store.bookings), booking, email, other);
    otherBooked := store.CheckBooking(email, other);
  }
}
