/** The two document kinds of the store: vehicles and booking requests. */
module Documents {
  import opened Wrappers

  /** A vehicle document. `id` stands for the storage-assigned `_id`; a missing
      `pricePerDay` or `booked` field is `None`. */
  datatype Vehicle = Vehicle(
    id: string,
    vehicleName: string,
    category: string,
    pricePerDay: Option<real>,
    rating: real,
    userEmail: string,
    createdAt: int,
    booked: Option<nat>)

  /** A booking request document (stored in the `requestRides` collection). */
  datatype Booking = Booking(bookingBy: string, vehicleId: string, createdAt: int)

  /** Vehicle ids are unique, as storage guarantees for `_id`. */
  predicate UniqueIds(vs: seq<Vehicle>) {
    forall i, j | 0 <= i < j < |vs| :: vs[i].id != vs[j].id
  }
}
