/** The booking side of the store: the duplicate-booking test of
    `GET /my-bookings/check` and the `$inc {booked: 1}` of `POST /my-bookings/:id`,
    each taken as one atomic step of the store. */
module Bookings {
  import opened Wrappers
  import opened Documents

  predicate IsMatch(b: Booking, email: string, vehicleId: string) {
    b.bookingBy == email && b.vehicleId == vehicleId
  }

  /** `findOne({bookingBy: email, vehicleId: vehicleId})`: the first matching
      booking in store order, if any. */
  function FindOneBooking(bs: seq<Booking>, email: string, vehicleId: string): (r: Option<Booking>)
    ensures r.Some? ==> r.value in bs && IsMatch(r.value, email, vehicleId)
    ensures r.None? <==> forall b | b in bs :: !IsMatch(b, email, vehicleId)
  {
    if bs == [] then None
    else if IsMatch(bs[0], email, vehicleId) then Some(bs[0])
    else
      assert bs == [bs[0]] + bs[1..];
      FindOneBooking(bs[1..], email, vehicleId)
  }

  /** `isBooked: !!booking`. */
  predicate IsBooked(bs: seq<Booking>, email: string, vehicleId: string) {
    FindOneBooking(bs, email, vehicleId).Some?
  }

  /** Right after a booking for (E, V) is stored, the check for (E, V) is true. */
  lemma BookedAfterInsert(bs: seq<Booking>, b: Booking)
    ensures IsBooked(bs + [b], b.bookingBy, b.vehicleId)
  {
    assert b in bs + [b];
  }

  /** Storing more bookings never turns a true answer false. */
  lemma BookedStaysBooked(bs: seq<Booking>, more: seq<Booking>, email: string, vehicleId: string)
    requires IsBooked(bs, email, vehicleId)
    ensures IsBooked(bs + more, email, vehicleId)
  {
  }

  /** A booking for another vehicle or another person leaves the answer as it was. */
  lemma OtherBookingIrrelevant(bs: seq<Booking>, b: Booking, email: string, vehicleId: string)
    requires !IsMatch(b, email, vehicleId)
    ensures IsBooked(bs + [b], email, vehicleId) == IsBooked(bs, email, vehicleId)
  {
  }

  // ---------------------------------------------------------------------------
  // The booking counter

  /** The position of the first vehicle with the given id, as `updateOne` finds it. */
  function IndexOfId(vs: seq<Vehicle>, id: string): (r: Option<nat>)
    ensures r.Some? ==> r.value < |vs| && vs[r.value].id == id
    ensures r.Some? ==> forall j | 0 <= j < r.value :: vs[j].id != id
    ensures r.None? ==> forall j | 0 <= j < |vs| :: vs[j].id != id
  {
    if vs == [] then None
    else if vs[0].id == id then Some(0)
    else match IndexOfId(vs[1..], id)
      case None => None
      case Some(k) => Some(k + 1)
  }

  /** The value of `booked`, a missing field reading as 0. */
  function BookedCount(v: Vehicle): nat {
    v.booked.GetOr(0)
  }

  /** `$inc {booked: 1}` on one vehicle: a missing counter becomes 1. */
  function Incremented(v: Vehicle): (w: Vehicle)
    ensures w.booked.Some? && BookedCount(w) == BookedCount(v) + 1
    ensures w.(booked := v.booked) == v
  {
    v.(booked := Some(BookedCount(v) + 1))
  }

  /** `updateOne({_id: id}, {$inc: {booked: 1}})` on the vehicle list. */
  function IncBooked(vs: seq<Vehicle>, id: string): (r: seq<Vehicle>)
    ensures |r| == |vs|
    ensures forall j | 0 <= j < |vs| :: r[j].id == vs[j].id
    ensures IndexOfId(vs, id).None? ==> r == vs
    ensures UniqueIds(vs) ==> forall j | 0 <= j < |vs| ::
              r[j] == if vs[j].id == id then Incremented(vs[j]) else vs[j]
  {
    match IndexOfId(vs, id)
    case None => vs
    case Some(k) => vs[k := Incremented(vs[k])]
  }

  lemma IncBookedKeepsIds(vs: seq<Vehicle>, id: string)
    requires UniqueIds(vs)
    ensures UniqueIds(IncBooked(vs, id))
  {
  }

  /** The number of bookings that reference vehicle `id`. */
  function CountRefs(bs: seq<Booking>, id: string): nat {
    if bs == [] then 0
    else CountRefs(bs[..|bs| - 1], id) + (if bs[|bs| - 1].vehicleId == id then 1 else 0)
  }

  /** The intended (not enforced) invariant: each vehicle's counter equals the
      number of bookings that reference it. */
  ghost predicate Consistent(vs: seq<Vehicle>, bs: seq<Booking>) {
    forall i | 0 <= i < |vs| :: BookedCount(vs[i]) == CountRefs(bs, vs[i].id)
  }

  /** A booking whose `vehicleId` is the path id keeps the invariant: the
      referenced vehicle's counter and its booking count both grow by one, and
      if no vehicle has that id nothing that is counted changes. */
  lemma BookingKeepsConsistent(vs: seq<Vehicle>, bs: seq<Booking>, b: Booking, id: string)
    requires UniqueIds(vs) && Consistent(vs, bs) && b.vehicleId == id
    ensures Consistent(IncBooked(vs, id), bs + [b])
  {
  }

  /** The path id and the body's `vehicleId` are independent inputs: when they
      differ, the invariant can break. */
  lemma MismatchedPathIdBreaksConsistency()
    ensures var v := Vehicle("a", "Car", "SUV", Some(50.0), 4.0, "o@x.com", 0, None);
            var b := Booking("e@x.com", "a", 0);
            Consistent([v], []) && !Consistent(IncBooked([v], "z"), [b])
  {
  }

  /** The counter after a series of booking requests with the given path ids,
      each increment one atomic step. */
  function IncAll(vs: seq<Vehicle>, ids: seq<string>): (r: seq<Vehicle>)
    ensures |r| == |vs|
    ensures forall j | 0 <= j < |vs| :: r[j].id == vs[j].id
  {
    if ids == [] then vs else IncBooked(IncAll(vs, ids[..|ids| - 1]), ids[|ids| - 1])
  }

  function Occurrences(ids: seq<string>, id: string): nat {
    if ids == [] then 0
    else Occurrences(ids[..|ids| - 1], id) + (if ids[|ids| - 1] == id then 1 else 0)
  }

  /** No increment is lost: after N booking requests for a vehicle its counter
      has grown by exactly N. */
  lemma {:induction false} NoLostIncrements(vs: seq<Vehicle>, ids: seq<string>, j: nat)
    requires UniqueIds(vs) && j < |vs|
    ensures BookedCount(IncAll(vs, ids)[j]) == BookedCount(vs[j]) + Occurrences(ids, vs[j].id)
  {
    if ids != [] {
      var prior := IncAll(vs, ids[..|ids| - 1]);
      NoLostIncrements(vs, ids[..|ids| - 1], j);
      assert UniqueIds(prior);
    }
  }
}
