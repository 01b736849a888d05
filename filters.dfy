/** Queries over the vehicle collection: the conjunctive predicate a handler
    builds, and `find` as the store evaluates it (store order is kept). */
module Filters {
  import opened Wrappers
  import opened Text
  import opened Documents

  /** A query document: each present field is one conjunct. */
  datatype Query = Query(
    category: Option<string>,
    minRating: Option<real>,
    nameContains: Option<string>,
    userEmail: Option<string>)

  /** `{}`: the empty query. */
  const MatchAll: Query := Query(None, None, None, None)

  predicate Matches(v: Vehicle, q: Query) {
    && (q.category.Some? ==> v.category == q.category.value)
    && (q.minRating.Some? ==> v.rating >= q.minRating.value)
    && (q.nameContains.Some? ==> ContainsIgnoreCase(v.vehicleName, q.nameContains.value))
    && (q.userEmail.Some? ==> v.userEmail == q.userEmail.value)
  }

  /** `collection.find(q)`: the matching vehicles, in store order. */
  function Find(vs: seq<Vehicle>, q: Query): (r: seq<Vehicle>)
    ensures |r| <= |vs|
    ensures forall v | v in r :: v in vs && Matches(v, q)
    ensures forall v | v in vs && Matches(v, q) :: v in r
    ensures multiset(r) <= multiset(vs)
  {
    if vs == [] then []
    else
      var rest := Find(vs[1..], q);
      assert vs == [vs[0]] + vs[1..];
      if Matches(vs[0], q) then [vs[0]] + rest else rest
  }

  /** Filtering keeps store order: the matches of a concatenation are the matches
      of its first part followed by those of its second. */
  lemma {:induction false} FindAppend(a: seq<Vehicle>, b: seq<Vehicle>, q: Query)
    ensures Find(a + b, q) == Find(a, q) + Find(b, q)
  {
    if a == [] {
      assert a + b == b;
    } else {
      var ab := a + b;
      assert ab[0] == a[0] && ab[1..] == a[1..] + b;
      FindAppend(a[1..], b, q);
      if Matches(a[0], q) {
        assert Find(ab, q) == [a[0]] + (Find(a[1..], q) + Find(b, q));
        assert Find(a, q) == [a[0]] + Find(a[1..], q);
      } else {
        assert Find(ab, q) == Find(a[1..], q) + Find(b, q);
        assert Find(a, q) == Find(a[1..], q);
      }
    }
  }

  /** Filtering keeps multiplicity: a matching vehicle occurs in the result as
      often as in the store, any other not at all. */
  lemma {:induction false} FindMultiplicity(vs: seq<Vehicle>, q: Query, v: Vehicle)
    ensures multiset(Find(vs, q))[v] == if Matches(v, q) then multiset(vs)[v] else 0
  {
    if vs != [] {
      FindMultiplicity(vs[1..], q, v);
      assert vs == [vs[0]] + vs[1..];
      assert multiset(vs) == multiset{vs[0]} + multiset(vs[1..]);
    }
  }

  /** The empty query matches every vehicle: `find()` returns the whole collection. */
  lemma {:induction false} FindAll(vs: seq<Vehicle>, q: Query)
    requires forall v | v in vs :: Matches(v, q)
    ensures Find(vs, q) == vs
  {
    if vs != [] {
      FindAll(vs[1..], q);
    }
  }

  /** A query string parameter counts as given when present and non-empty
      (the truthiness of a string in JavaScript). */
  predicate Supplied(p: Option<string>) {
    p.Some? && p.value != ""
  }

  /** The query-string parameters of `GET /all-vehicles`; numbers are already parsed. */
  datatype ListingRequest = ListingRequest(
    sort: Option<string>,
    category: Option<string>,
    rating: Option<real>,
    search: Option<string>,
    page: Option<int>,
    limit: Option<int>)

  /** The filter a listing request asks for, one conjunct per supplied parameter. */
  ghost predicate Admits(req: ListingRequest, v: Vehicle) {
    && (Supplied(req.category) ==> v.category == req.category.value)
    && (req.rating.Some? ==> v.rating >= req.rating.value)
    && (Supplied(req.search) ==> ContainsIgnoreCase(v.vehicleName, req.search.value))
  }

  /** The query object `GET /all-vehicles` builds from its parameters. */
  function QueryOf(req: ListingRequest): (q: Query)
    ensures q.userEmail == None
    ensures forall v: Vehicle :: Matches(v, q) <==> Admits(req, v)
  {
    Query(
      if Supplied(req.category) then req.category else None,
      req.rating,
      if Supplied(req.search) then req.search else None,
      None)
  }

  /** Builds the query object by conditional field assignment, as the handler does. */
  method BuildQuery(req: ListingRequest) returns (q: Query)
    ensures q == QueryOf(req)
  {
    q := MatchAll;
    if Supplied(req.category) {
      q := q.(category := req.category);
    }
    if req.rating.Some? {
      q := q.(minRating := req.rating);
    }
    if Supplied(req.search) {
      q := q.(nameContains := req.search);
    }
  }

  /** A listing request without filters lists the whole collection. */
  lemma NoFilterListsAll(vs: seq<Vehicle>, req: ListingRequest)
    requires !Supplied(req.category) && req.rating.None? && !Supplied(req.search)
    ensures Find(vs, QueryOf(req)) == vs
  {
  }

  /** The query of `GET /search`: none for a missing or blank text, else a name
      match on the untrimmed text. */
  function SearchQuery(text: Option<string>): (q: Query)
    ensures text.None? || IsBlank(text.value) ==> q == MatchAll
    ensures text.Some? && !IsBlank(text.value) ==>
      forall v: Vehicle :: Matches(v, q) <==> ContainsIgnoreCase(v.vehicleName, text.value)
  {
    if text.None? || IsBlank(text.value) then MatchAll
    else MatchAll.(nameContains := text)
  }

  /** `{userEmail: email}`: the vehicles of one owner. */
  function OwnerQuery(email: string): (q: Query)
    ensures forall v: Vehicle :: Matches(v, q) <==> v.userEmail == email
  {
    MatchAll.(userEmail := Some(email))
  }
}
