/** The handlers of the server over an in-memory store holding the `vehicles`
    and `requestRides` collections. */
module Server {
  import opened Wrappers
  import opened Text
  import opened Documents
  import opened Filters
  import opened Ordering
  import opened Paging
  import opened Stats
  import opened Bookings

  /** The page number, default 1. */
  function PageOf(req: ListingRequest): int {
    req.page.GetOr(1)
  }

  /** The page size, default 8. */
  function LimitOf(req: ListingRequest): int {
    req.limit.GetOr(8)
  }

  /** Page and size are positive integers (or absent). */
  predicate WellFormedPaging(req: ListingRequest) {
    PageOf(req) >= 1 && LimitOf(req) >= 1
  }

  /** The response body of `GET /all-vehicles`. */
  datatype ListingPage = ListingPage(total: nat, totalPages: nat, page: int, vehicles: seq<Vehicle>)

  /** The `stats` object of `GET /dashboard-stats`. */
  datatype DashboardSummary = DashboardSummary(
    totalVehicles: nat,
    totalRevenue: real,
    categoryCounts: map<string, nat>,
    priceDistribution: seq<RangeCount>)

  /** Either the 400 rejection or the statistics. */
  datatype StatsResponse = BadRequest(message: string) | StatsOk(stats: DashboardSummary)

  /** `insertOne`'s result. */
  datatype InsertResult = InsertResult(acknowledged: bool)

  /** `updateOne`'s result. */
  datatype UpdateResult = UpdateResult(matchedCount: nat, modifiedCount: nat)

  /** Every vehicle on a listing page is stored and meets the request's filter. */
  lemma ListedVehiclesAdmitted(vs: seq<Vehicle>, req: ListingRequest, skip: nat, limit: nat)
    requires limit > 0
    ensures forall v | v in Window(Arrange(Find(vs, QueryOf(req)), req.sort), skip, limit) ::
              v in vs && Admits(req, v)
  {
    var matched := Find(vs, QueryOf(req));
    var arranged := Arrange(matched, req.sort);
    var w := Window(arranged, skip, limit);
    forall v | v in w ensures v in vs && Admits(req, v) {
      var i :| 0 <= i < |w| && w[i] == v;
      assert v in multiset(arranged);
      assert v in matched;
    }
  }

  class Store {
    var vehicles: seq<Vehicle>
    var bookings: seq<Booking>

    /** The store keeps vehicle ids unique. */
    ghost predicate Valid()
      reads this
    {
      UniqueIds(vehicles)
    }

    constructor (vs: seq<Vehicle>, bs: seq<Booking>)
      requires UniqueIds(vs)
      ensures Valid() && vehicles == vs && bookings == bs
    {
      vehicles := vs;
      bookings := bs;
    }

    /** `GET /all-vehicles`: filter, optional price sort, page window, and the
        count of all matches. */
    method AllVehicles(req: ListingRequest) returns (resp: ListingPage)
      requires WellFormedPaging(req)
      ensures var matched := Find(vehicles, QueryOf(req));
              && resp.total == |matched|
              && resp.totalPages == TotalPages(|matched|, LimitOf(req))
              && resp.page == PageOf(req)
              && resp.vehicles == Window(Arrange(matched, req.sort), Skip(PageOf(req), LimitOf(req)), LimitOf(req))
      ensures |resp.vehicles| <= LimitOf(req)
      ensures forall v | v in resp.vehicles :: v in vehicles && Admits(req, v)
    {
      var query := BuildQuery(req);
      var cursor := Find(vehicles, query);
      if req.sort == Some("asc") || req.sort == Some("desc") {
        cursor := Sort(cursor, PricePerDay, if req.sort == Some("asc") then Asc else Desc);
      }
      assert cursor == Arrange(Find(vehicles, query), req.sort);
      var page, limit := PageOf(req), LimitOf(req);
      var skip := Skip(page, limit);
      var vs := Window(cursor, skip, limit);
      var total := |Find(vehicles, query)|;
      var totalPages := TotalPages(total, limit);
      resp := ListingPage(total, totalPages, page, vs);
      ListedVehiclesAdmitted(vehicles, req, skip, limit);
    }

    /** `GET /search`: every vehicle for a missing or blank text, else those
        whose name contains the (untrimmed) text, ignoring case. */
    method Search(text: Option<string>) returns (result: seq<Vehicle>)
      ensures result == Find(vehicles, SearchQuery(text))
      ensures text.None? || IsBlank(text.value) ==> result == vehicles
      ensures text.Some? && !IsBlank(text.value) ==>
        (forall v | v in result :: v in vehicles && ContainsIgnoreCase(v.vehicleName, text.value)) &&
        (forall v | v in vehicles && ContainsIgnoreCase(v.vehicleName, text.value) :: v in result)
    {
      if text.None? || IsBlank(text.value) {
        result := vehicles;
        FindAll(vehicles, MatchAll);
      } else {
        result := Find(vehicles, MatchAll.(nameContains := text));
      }
    }

    /** `GET /latest-vehicles`: the six most recently created vehicles. */
    method LatestVehicles() returns (result: seq<Vehicle>)
      ensures result == Window(Sort(vehicles, CreatedAt, Desc), 0, 6)
      ensures |result| == Min(6, |vehicles|)
      ensures SortedBy(result, CreatedAt, Desc)
      ensures forall v, w | v in vehicles && v !in result && w in result :: w.createdAt >= v.createdAt
    {
      result := TakeTop(CreatedAt, 6);
      forall v, w | v in vehicles && v !in result && w in result ensures w.createdAt >= v.createdAt {
        assert Before(w, v, CreatedAt, Desc);
      }
    }

    /** `GET /top-vehicles`: the four best-rated vehicles. */
    method TopVehicles() returns (result: seq<Vehicle>)
      ensures result == Window(Sort(vehicles, Rating, Desc), 0, 4)
      ensures |result| == Min(4, |vehicles|)
      ensures SortedBy(result, Rating, Desc)
      ensures forall v, w | v in vehicles && v !in result && w in result :: w.rating >= v.rating
    {
      result := TakeTop(Rating, 4);
      forall v, w | v in vehicles && v !in result && w in result ensures w.rating >= v.rating {
        assert Before(w, v, Rating, Desc);
      }
    }

    /** `find().sort({f: "desc"}).limit(n)`. */
    method TakeTop(f: Field, n: nat) returns (result: seq<Vehicle>)
      requires n > 0
      ensures result == Window(Sort(vehicles, f, Desc), 0, n)
      ensures |result| == Min(n, |vehicles|)
      ensures SortedBy(result, f, Desc)
      ensures forall v, w | v in vehicles && v !in result && w in result :: Before(w, v, f, Desc)
    {
      var sorted := Sort(vehicles, f, Desc);
      result := Window(sorted, 0, n);
      var k := Min(n, |sorted|);
      assert result == sorted[..k];
      TopPrecedesRest(sorted, k, f, Desc);
      forall v | v in vehicles && v !in result ensures v in sorted[k..] {
        assert v in multiset(sorted);
        assert sorted == sorted[..k] + sorted[k..];
      }
    }

    /** `GET /dashboard-stats`: rejects a missing or empty email, else
        summarises the owner's vehicles. */
    method DashboardStats(email: Option<string>) returns (r: StatsResponse)
      ensures r.BadRequest? <==> !Supplied(email)
      ensures r.BadRequest? ==> r.message == "Email is required"
      ensures r.StatsOk? ==>
        var owned := Find(vehicles, OwnerQuery(email.value));
        var s := r.stats;
        && s.totalVehicles == |owned|
        && s.totalRevenue == Revenue(owned)
        && s.categoryCounts == CategoryCounts(owned)
        && MapSum(s.categoryCounts) == s.totalVehicles
        && |s.priceDistribution| == |PriceRanges|
        && (forall i | 0 <= i < |PriceRanges| ::
              s.priceDistribution[i] == RangeCount(PriceRanges[i].name, BucketCount(owned, i)))
        && BucketTotal(owned, |PriceRanges|) <= s.totalVehicles
      ensures r.StatsOk? ==> forall v | v in vehicles ::
        v in Find(vehicles, OwnerQuery(email.value)) <==> v.userEmail == email.value
    {
      if !Supplied(email) {
        return BadRequest("Email is required");
      }
      var owned := Find(vehicles, OwnerQuery(email.value));
      var totalVehicles := |owned|;
      var totalRevenue := Revenue(owned);
      var categoryCounts := CountCategories(owned);
      var priceDistribution := PriceDistribution(owned);
      CategoryCountsSum(owned);
      BucketsSumBound(owned);
      r := StatsOk(DashboardSummary(totalVehicles, totalRevenue, categoryCounts, priceDistribution));
    }

    /** `GET /my-bookings/check`. */
    method CheckBooking(email: string, vehicleId: string) returns (isBooked: bool)
      ensures isBooked <==> exists i | 0 <= i < |bookings| :: IsMatch(bookings[i], email, vehicleId)
    {
      var booking := FindOneBooking(bookings, email, vehicleId);
      isBooked := booking.Some?;
      if booking.Some? {
        var i :| 0 <= i < |bookings| && bookings[i] == booking.value;
      }
    }

    /** `insertOne` into the bookings collection. */
    method InsertBooking(data: Booking) returns (result: InsertResult)
      modifies this`bookings
      ensures bookings == old(bookings) + [data]
      ensures result.acknowledged
    {
      bookings := bookings + [data];
      result := InsertResult(true);
    }

    /** `updateOne({_id: id}, {$inc: {booked: 1}})`: finds the first vehicle
        with that id, then increments its counter in one write. */
    method IncrementBooked(id: string) returns (result: UpdateResult)
      requires Valid()
      modifies this`vehicles
      ensures Valid()
      ensures vehicles == IncBooked(old(vehicles), id)
      ensures var n := if IndexOfId(old(vehicles), id).Some? then 1 else 0;
              result.matchedCount == n && result.modifiedCount == n
    {
      var k := 0;
      while k < |vehicles| && vehicles[k].id != id
        invariant 0 <= k <= |vehicles|
        invariant forall j | 0 <= j < k :: vehicles[j].id != id
      {
        k := k + 1;
      }
      if k < |vehicles| {
        vehicles := vehicles[k := Incremented(vehicles[k])];
        result := UpdateResult(1, 1);
      } else {
        result := UpdateResult(0, 0);
      }
      IncBookedKeepsIds(old(vehicles), id);
    }

    /** `POST /my-bookings/:id`: stores the booking, then counts it on the
        vehicle named by the path id; the booking stays stored when no vehicle
        has that id. */
    method BookVehicle(data: Booking, id: string) returns (result: InsertResult, requestCounted: UpdateResult)
      requires Valid()
      modifies this
      ensures Valid()
      ensures bookings == old(bookings) + [data]
      ensures vehicles == IncBooked(old(vehicles), id)
      ensures result.acknowledged
      ensures var n := if IndexOfId(old(vehicles), id).Some? then 1 else 0;
              requestCounted.matchedCount == n && requestCounted.modifiedCount == n
      ensures IsBooked(bookings, data.bookingBy, data.vehicleId)
      ensures data.vehicleId == id && Consistent(old(vehicles), old(bookings)) ==> Consistent(vehicles, bookings)
    {
      result := InsertBooking(data);
      requestCounted := IncrementBooked(id);
      BookedAfterInsert(old(bookings), data);
      if data.vehicleId == id && Consistent(old(vehicles), old(bookings)) {
        BookingKeepsConsistent(old(vehicles), old(bookings), data, id);
      }
    }
  }
}
