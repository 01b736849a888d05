# Travel-ease server: listing, dashboard statistics and bookings

This project models the request logic of a vehicle-rental marketplace server.
Owners list vehicles and renters browse and book them. The handlers in
`index.js` run against an in-memory store: the `Store` class holds the
`vehicles` and `requestRides` (booking) collections as sequences. The model
covers three parts and proves their properties.

- **Listing** (`GET /all-vehicles`, `GET /search`, `GET /latest-vehicles`,
  `GET /top-vehicles`). The optional `category`, `rating` and `search`
  parameters become a conjunctive query. The filtered list can be sorted on
  `pricePerDay` when `sort` is `asc` or `desc`. It is then cut to the window
  `skip = (page-1)*limit`, `take = limit`, and `totalPages = ceil(total/limit)`
  is reported. Modules `Filters`, `Ordering` and `Paging`.
- **Dashboard statistics** (`GET /dashboard-stats`). A missing or empty email
  is rejected with "Email is required". Otherwise the handler reports, for
  the owner's vehicles: their number, revenue (the sum of `pricePerDay`, a
  missing price counting 0), per-category counts, and a five-bucket price
  histogram. Module `Stats`.
- **Bookings** (`GET /my-bookings/check`, `POST /my-bookings/:id`). The check
  is an existence test on (`bookingBy`, `vehicleId`). The POST inserts the
  booking, then applies `$inc {booked: 1}` to the vehicle whose id is the
  path id. Module `Bookings`.

`Server.Store` holds the handlers. `Scenarios` gives worked examples. The
separate module `ObjectAccumulator` models the `categoryCounts` accumulator
exactly as JavaScript evaluates it (see Findings).

Modelling choices:
- Prices and ratings are exact `real`s, so a price such as 100.5 can be shown
  to fall in no histogram bucket.
- Timestamps are `int`. Document ids are plain strings, and the `_id` field is
  called `id`.
- A query-string parameter is an `Option`. It counts as "supplied" when it is
  present and non-empty, as JavaScript truthiness does for a string. A
  `rating` that is missing or empty is `None`.
- `rating`, `page` and `limit` are already-parsed numbers. `page` defaults to 1
  and `limit` to 8.
- The store's `find` returns documents in store order.
- A sort on one field puts a missing value before every number (BSON order).
  Equal keys are left in store order; the store itself leaves their order
  unspecified.
- Every store operation is one sequential and atomic step.

Three behaviours of the code that the model keeps:
- A price is not checked to be non-negative. Negative prices are modelled and
  land in no bucket.
- A vehicle's counter is not initialised to 0. A missing `booked` field
  becomes 1 on the first `$inc`.
- `/search` trims the text only to test for blankness. The filter itself uses
  the untrimmed text, whereas `/all-vehicles` filters on any non-empty text,
  even whitespace.

## Model

| member | source | states |
|---|---|---|
| `Filters.Find` | index.js:80 | the result is the matching vehicles of the store: each one matches the query, each matching vehicle is included, and the result is a sub-multiset of the store |
| `Filters.FindAppend` | index.js:80 | filtering keeps store order: the matches of `a + b` are the matches of `a` followed by the matches of `b` |
| `Filters.FindMultiplicity` | index.js:80 | a matching vehicle occurs in the result exactly as often as in the store, a non-matching one not at all |
| `Filters.FindAll` | index.js:192 | a query every vehicle matches (the empty query of `find()`) returns the whole collection in store order |
| `Filters.QueryOf` | index.js:66-78 | the built query matches a vehicle exactly when it meets every supplied filter: category equality, rating at least the threshold, name containing the search text ignoring case; an absent or empty parameter adds no constraint |
| `Filters.BuildQuery` | index.js:66-78 | building the query by conditional field assignment yields exactly the query `QueryOf` describes |
| `Filters.NoFilterListsAll` | index.js:66-80 | with no category, rating or search parameter the listing's filter keeps every vehicle |
| `Filters.SearchQuery` | index.js:191-199 | a missing or whitespace-only text gives the empty query; otherwise the query matches exactly the vehicles whose name contains the untrimmed text, ignoring case |
| `Filters.OwnerQuery` | index.js:233-235 | the owner query matches exactly the vehicles whose `userEmail` is the given email |
| `Text.OccurrenceMatches` | index.js:77 | a case-insensitive occurrence of the search text in the name makes the name filter match |
| `Text.LowerConcat` | index.js:77 | case folding of the `i` option works per character: it distributes over concatenation |
| `Text.LowerIdempotent` | index.js:77 | folding twice equals folding once, and a folded text has no ASCII capital letter |
| `Ordering.Insert` | index.js:83 | inserting adds exactly the one vehicle and nothing else |
| `Ordering.InsertSorted` | index.js:83 | inserting into a sorted list keeps it sorted |
| `Ordering.Sort` | index.js:83 | the sorted list is ordered by the key in the requested direction and is a permutation of the input |
| `Ordering.SortKeepsSorted` | index.js:83 | a list already in order comes back unchanged |
| `Ordering.Arrange` | index.js:82-84 | `sort=asc` orders by ascending price, `sort=desc` by descending price, any other value keeps store order; the result is always a permutation of the filtered list |
| `Ordering.TopPrecedesRest` | index.js:171-187 | the first n elements of a sorted list precede every element left out |
| `Paging.Window` | index.js:88 | for a positive `limit`, the page holds at most `limit` elements, exactly the ones at positions `skip`, `skip+1`, ... of the full list, and is empty past its end |
| `Paging.TotalPages` | index.js:90 | `totalPages * limit >= total`, `(totalPages-1) * limit < total` when `total > 0`, and `totalPages == 0` when `total == 0` |
| `Paging.FullPagesBeforeLast` | index.js:86-90 | every page before the last one is full |
| `Paging.LastPageNotEmpty` | index.js:86-90 | the last page starts inside the list |
| `Paging.PagePastLastEmpty` | index.js:86-88 | a page number beyond `totalPages` returns no vehicles |
| `Paging.EveryItemOnOnePage` | index.js:86-90 | item i of the full list is on page `i/limit + 1` (which is at most `totalPages`) at position `i % limit`, and on no other page |
| `Stats.RevenueAppend` | index.js:240-243 | revenue adds up over concatenation of vehicle lists |
| `Stats.RevenuePermutation` | index.js:240-243 | revenue does not depend on the order of the vehicles |
| `Stats.RevenueBounds` | index.js:240-243 | with no negative price, revenue is non-negative and at least each vehicle's price |
| `Stats.CategoryCounts` | index.js:245-248 | the reference counts have one key per category present, and every count lies between 1 and the number of vehicles |
| `Stats.CategoryCountBound` | index.js:245-248 | no category is counted more often than there are vehicles |
| `Stats.CategoryCountsRange` | index.js:245-248 | every category present is counted at least once and at most once per vehicle |
| `Stats.CategoryCountPositive` | index.js:245-248 | a category has a positive count iff some vehicle has it |
| `Stats.CategoryCountsStep` | index.js:245-248 | one accumulator step, `acc[c] = (acc[c] or 0) + 1`, turns the counts of a list into the counts of the list extended by one vehicle |
| `Stats.CategoryCountsSum` | index.js:245-248 | the category counts sum to the number of vehicles |
| `Stats.CountCategories` | index.js:245-248 | the accumulator loop yields, for every category present, the number of vehicles of that category, each at least 1 |
| `Stats.FindRange` | index.js:259-261 | the bucket chosen is the first, in the listed order, whose inclusive range holds the price; when none is chosen, no bucket holds it |
| `Stats.RangesDisjoint` | index.js:251-257 | no price lies in two buckets |
| `Stats.RangeExamples` | index.js:251-263 | 0 and 100 go to "0-100", 101 to "101-200", 400 to "301-400", 401 and 10000 to "400+"; 100.5, 400.5, -1 and a missing price go nowhere |
| `Stats.IntegralPriceInRange` | index.js:251-263 | a non-negative integer price always lands in some bucket |
| `Stats.UnpricedInNoRange` | index.js:258-263 | a negative or missing price is counted in no bucket |
| `Stats.Counted` | index.js:258-263 | at most all vehicles are counted in the histogram |
| `Stats.BucketsSumToCounted` | index.js:258-263 | each counted vehicle is in exactly one bucket: the five counts sum to the number of counted vehicles |
| `Stats.BucketsSumBound` | index.js:258-263 | the bucket counts sum to at most the number of vehicles, and to exactly that number when every price is a non-negative integer |
| `Stats.PriceDistribution` | index.js:251-274 | the in-place counting loop yields the five buckets in order, each with its name and the number of vehicles whose first matching bucket it is |
| `Bookings.FindOneBooking` | index.js:138-141 | the booking found matches the email and vehicle id and is stored; none is found iff no stored booking matches |
| `Bookings.BookedAfterInsert` | index.js:152-155 | right after a booking for (E, V) is stored, the check for (E, V) is true |
| `Bookings.BookedStaysBooked` | index.js:138-143 | storing more bookings never turns a true answer false |
| `Bookings.OtherBookingIrrelevant` | index.js:138-143 | a booking for another vehicle or another person leaves the check's answer unchanged |
| `Bookings.IndexOfId` | index.js:158 | the position found is the first vehicle with the id; none is found iff no vehicle has it |
| `Bookings.Incremented` | index.js:159-162 | `$inc` makes the counter present and one larger, a missing counter reading as 0, and changes no other field |
| `Bookings.IncBooked` | index.js:158-167 | ids and length are unchanged; with no matching vehicle nothing changes; with unique ids the matching vehicle is incremented and every other vehicle is unchanged |
| `Bookings.BookingKeepsConsistent` | index.js:152-168 | when the body's `vehicleId` is the path id, "each counter equals the number of bookings referencing the vehicle" is preserved |
| `Bookings.MismatchedPathIdBreaksConsistency` | index.js:152-168 | when the path id and the body's `vehicleId` differ, that invariant can break |
| `Bookings.IncAll` | index.js:158-167 | a series of increments keeps the vehicles and their ids in place |
| `Bookings.NoLostIncrements` | index.js:158-167 | after a series of booking requests, a vehicle's counter has grown by exactly the number of requests naming it |
| `Server.Store.AllVehicles` | index.js:55-98 | total and totalPages count the whole filtered set; the page is the window at `(page-1)*limit` of the optionally price-sorted filtered list; at most `limit` vehicles are returned, each stored and satisfying every supplied filter |
| `Server.ListedVehiclesAdmitted` | index.js:66-88 | every vehicle in any window of the optionally sorted filtered list is stored and meets every supplied filter |
| `Server.Store.Search` | index.js:188-201 | a missing or blank text returns every vehicle; otherwise exactly the vehicles whose name contains the text ignoring case |
| `Server.Store.LatestVehicles` | index.js:171-178 | at most six vehicles in descending `createdAt`, none older than a vehicle left out |
| `Server.Store.TopVehicles` | index.js:180-187 | at most four vehicles in descending rating, none rated below a vehicle left out |
| `Server.Store.TakeTop` | index.js:171-187 | the first n of the store sorted descending on a field, each preceding every vehicle left out |
| `Server.Store.DashboardStats` | index.js:225-276 | a missing or empty email gives the 400 message; otherwise the count, revenue, category counts (summing to the count) and five-bucket histogram (summing to at most the count) of exactly the owner's vehicles |
| `Server.Store.CheckBooking` | index.js:135-144 | `isBooked` is true iff some stored booking has that `bookingBy` and `vehicleId` |
| `Server.Store.InsertBooking` | index.js:155 | the booking collection grows by exactly the request body |
| `Server.Store.IncrementBooked` | index.js:158-167 | the first vehicle with the id has its counter incremented, all else unchanged; matched and modified counts are 1 or 0; ids stay unique |
| `Server.Store.BookVehicle` | index.js:152-169 | the bookings grow by the body even when no vehicle has the path id; the vehicles change as `IncBooked` says; afterwards the check for the booking's (E, V) is true; with matching ids the counter invariant is preserved |
| `Scenarios.SuvListingPageTwo` | index.js:55-98 | `category=SUV&rating=4&page=2&limit=2` over five SUVs rated at least 4 returns vehicles 3 and 4, with total 5 and 3 pages |
| `Scenarios.DistributionExample` | index.js:251-263 | prices 50, 150, 100 and 9999 give bucket counts 2, 1, 0, 0, 1 |
| `Scenarios.BookThenCheck` | index.js:135-169 | a client that books (E, V) through the POST then sees the check for (E, V) answer true, the check for another vehicle still false, and the update count 1 exactly when V is stored |
| `ObjectAccumulator.AsWrittenAgreesOnPlainNames` | index.js:245-248 | for categories that are not inherited property names, the accumulator as JavaScript runs it gives exactly the category counts |
| `ObjectAccumulator.PlainVehicleStep` | index.js:245-248 | one step of the accumulator on a non-inherited category keeps it equal to the category counts |
| `ObjectAccumulator.InheritedNameGarbled` | index.js:245-248 | a vehicle of category "toString" gets a text value instead of the count 1 |
| `ObjectAccumulator.ProtoCategoryDropped` | index.js:245-248 | a vehicle of category "__proto__" is not counted at all |

## Left out

- HTTP routing, CORS, JSON body parsing, `app.listen`, environment loading and logging: transport and I/O.
- Token verification (`verifyToken`): a call into the identity provider. Every request is taken as authorised.
- Database client setup, cursors and `ObjectId` parsing. Ids are plain strings, and a malformed id does not raise an error.
- The 500 responses for storage failures. Every store step succeeds.
- `$regex` semantics. The search text is literal, and case is folded for ASCII letters only.
- `Number(...)` coercion of query strings, including NaN ratings and fractional or zero `limit`. Numbers arrive parsed.
- Server.Store.AllVehicles: requires `page >= 1` and `limit >= 1`. The code passes a smaller value on to the store unchanged; the store's behaviour for it is not part of this model.
- Floating-point arithmetic. Prices and ratings are exact reals, so revenue is an exact sum.
- A price stored as text or as `null`. A price is a number or missing.
- A category that is missing. Every vehicle has a text category.
- The key order of the `categoryCounts` object. It is a map.
- The time-of-check-to-time-of-use gap between the check and the POST, and the non-transactional insert plus increment. Each operation is one sequential step.
- A missing `email` or `vehicleId` in the booking check: the model takes both as text, while the store would compare the field with `null`.
- The `insertedId` that the store assigns to a new booking.
- Pass-through handlers: `POST /all-vehicles`, `PUT /all-vehicles/:id`, `DELETE /all-vehicles/:id`, `GET /all-vehicles/:id`, `GET /all-bookings/:id`, `GET /my-vehicles` and `GET /my-bookings`. They forward to the store and hold no logic of their own.

## Findings

| source | as written | input that shows it | evidently intended | confidence | as-written member | corrected member |
|---|---|---|---|---|---|---|
| index.js:245-248 | `acc[v.category] = (acc[v.category] \|\| 0) + 1` on `{}` reads inherited `Object.prototype` properties for a category the accumulator has not seen yet | one vehicle of category `toString` gives `"function toString() { [native code] }1"`; one of category `__proto__` is not counted at all | every category maps to its number of vehicles | medium (not executed) | `ObjectAccumulator.InheritedNameGarbled` | `Stats.CountCategories` |
