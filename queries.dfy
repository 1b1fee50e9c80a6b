/** The query layer of `useQueries`: the cache key of every query, the keys each
    mutation invalidates once it succeeds, the order each fetched list is sorted into,
    the id guard of the delete mutations and the credential check of the login
    mutation.  The query cache is a map from keys to freshness; invalidating a key
    marks stale every cached entry whose key starts with it. */
module Queries {
  import opened Wrappers
  import opened Text
  import opened Records
  import opened Sorting

  // ---------------------------------------------------------------------------
  // Keys

  datatype KeyPart = Name(name: string) | PageNumber(page: int)

  type QueryKey = seq<KeyPart>

  /** `page ? [name, page] : [name]`, the key of a paged list query. */
  function ListKey(name: string, page: Option<int>): (k: QueryKey)
    ensures 1 <= |k| <= 2 && k[0] == Name(name)
    ensures |k| == 2 <==> page.Some? && page.value != 0
    ensures |k| == 2 ==> k[1] == PageNumber(page.value)
  {
    if page.Some? && page.value != 0 then [Name(name), PageNumber(page.value)]
    else [Name(name)]
  }

  function CustomersKey(page: Option<int>): QueryKey {
    ListKey("customers", page)
  }

  function EventsKey(page: Option<int>): QueryKey {
    ListKey("events", page)
  }

  const CinemasKey: QueryKey := [Name("cinemas")]
  const ReviewsKey: QueryKey := [Name("reviews")]
  const CustomersCountKey: QueryKey := [Name("customersCount")]
  const EventsCountKey: QueryKey := [Name("eventsCount")]

  /** The key of a customer's image query is the customer's name alone. */
  function CustomerImageKey(userName: string): QueryKey {
    [Name(userName)]
  }

  /** A customer named like a list shares that list's cache entry: the image query of
      a customer called `reviews` has the key of the reviews list. */
  lemma CustomerImageKeyCollides()
    ensures CustomerImageKey("reviews") == ReviewsKey
    ensures CustomerImageKey("customers") == CustomersKey(None)
  {
  }

  // ---------------------------------------------------------------------------
  // Invalidation

  datatype Mutation =
    | AddCinema | EditCinema | DeleteCinema
    | AddCustomer(totalPages: int) | DeleteCustomer
    | AddEvent(totalPages: int) | EditEvent | DeleteEvent
    | AddReview | DeleteReview

  /** `["<name>", p]` for `p` in `1..totalPages`, in loop order. */
  function PageKeys(name: string, totalPages: int): (keys: seq<QueryKey>)
    ensures |keys| == if totalPages < 1 then 0 else totalPages
    ensures forall i :: 0 <= i < |keys| ==> keys[i] == [Name(name), PageNumber(i + 1)]
  {
    if totalPages < 1 then [] else seq(totalPages, i => [Name(name), PageNumber(i + 1)])
  }

  /** The keys a successful mutation invalidates, in order. */
  function Invalidated(m: Mutation): seq<QueryKey> {
    match m
    case AddCinema => [CinemasKey]
    case EditCinema => [CinemasKey]
    case DeleteCinema => [CinemasKey]
    case AddCustomer(t) => PageKeys("customers", t) + [CustomersCountKey]
    case DeleteCustomer => [CustomersKey(None), CustomersCountKey]
    case AddEvent(t) => PageKeys("events", t) + [EventsCountKey]
    case EditEvent => [EventsKey(None)]
    case DeleteEvent => [EventsKey(None)]
    case AddReview => [ReviewsKey, CustomersKey(None)]
    case DeleteReview => [ReviewsKey]
  }

  datatype Freshness = Fresh | Stale

  predicate IsPrefix(p: QueryKey, k: QueryKey) {
    |p| <= |k| && k[..|p|] == p
  }

  /** The entries after one `invalidateQueries({ queryKey: prefix })`. */
  function MarkStale(entries: map<QueryKey, Freshness>, prefix: QueryKey): (r: map<QueryKey, Freshness>)
    ensures r.Keys == entries.Keys
    ensures forall k :: k in r ==> r[k] == if IsPrefix(prefix, k) then Stale else entries[k]
  {
    map k | k in entries :: if IsPrefix(prefix, k) then Stale else entries[k]
  }

  /** The entries after invalidating each prefix in turn. */
  function MarkAllStale(entries: map<QueryKey, Freshness>, prefixes: seq<QueryKey>): (r: map<QueryKey, Freshness>)
    ensures r.Keys == entries.Keys
    decreases |prefixes|
  {
    if prefixes == [] then entries
    else MarkAllStale(MarkStale(entries, prefixes[0]), prefixes[1..])
  }

  /** After invalidating a list of prefixes the cache holds the same keys, and an entry
      is stale iff it was stale or some prefix matches its key. */
  lemma {:induction false} MarkAllStaleMeaning(entries: map<QueryKey, Freshness>, prefixes: seq<QueryKey>)
    ensures MarkAllStale(entries, prefixes).Keys == entries.Keys
    ensures forall k :: k in entries ==>
              (MarkAllStale(entries, prefixes)[k] == Stale <==>
               entries[k] == Stale || exists i :: 0 <= i < |prefixes| && IsPrefix(prefixes[i], k))
    decreases |prefixes|
  {
    if prefixes != [] {
      var next := MarkStale(entries, prefixes[0]);
      MarkAllStaleMeaning(next, prefixes[1..]);
      forall k | k in entries
        ensures MarkAllStale(entries, prefixes)[k] == Stale <==>
                entries[k] == Stale || exists i :: 0 <= i < |prefixes| && IsPrefix(prefixes[i], k)
      {
        if exists i :: 0 <= i < |prefixes[1..]| && IsPrefix(prefixes[1..][i], k) {
          var i :| 0 <= i < |prefixes[1..]| && IsPrefix(prefixes[1..][i], k);
          assert IsPrefix(prefixes[i + 1], k);
        }
        if exists i :: 0 <= i < |prefixes| && IsPrefix(prefixes[i], k) {
          var i :| 0 <= i < |prefixes| && IsPrefix(prefixes[i], k);
          if i > 0 {
            assert IsPrefix(prefixes[1..][i - 1], k);
          }
        }
      }
    }
  }

  lemma MarkAllStaleTwo(entries: map<QueryKey, Freshness>, a: QueryKey, b: QueryKey)
    ensures MarkAllStale(entries, [a, b]) == MarkStale(MarkStale(entries, a), b)
  {
    var once := MarkStale(entries, a);
    assert [a, b][1..] == [b];
    calc {
      MarkAllStale(entries, [a, b]);
      MarkAllStale(once, [b]);
      { assert [b][1..] == []; }
      MarkAllStale(MarkStale(once, b), []);
    }
  }

  lemma MarkAllStaleConcat(entries: map<QueryKey, Freshness>, a: seq<QueryKey>, b: seq<QueryKey>)
    ensures MarkAllStale(entries, a + b) == MarkAllStale(MarkAllStale(entries, a), b)
    decreases |a|
  {
    if a == [] {
      assert a + b == b;
    } else {
      assert (a + b)[1..] == a[1..] + b;
      MarkAllStaleConcat(MarkStale(entries, a[0]), a[1..], b);
    }
  }

  /** The cache a page's views read from. */
  class QueryCache {
    var entries: map<QueryKey, Freshness>

    constructor()
      ensures entries == map[]
    {
      entries := map[];
    }

    /** A query's result was fetched and cached under its key. */
    method Store(key: QueryKey)
      modifies this
      ensures entries == old(entries)[key := Fresh]
    {
      entries := entries[key := Fresh];
    }

    /** `queryClient.invalidateQueries({ queryKey: prefix })`. */
    method Invalidate(prefix: QueryKey)
      modifies this
      ensures entries == MarkStale(old(entries), prefix)
    {
      entries := MarkStale(entries, prefix);
    }

    /** The loop `for (page = 1; page <= totalPages; page++)` over the page keys. */
    method InvalidatePages(name: string, totalPages: int)
      modifies this
      ensures entries == MarkAllStale(old(entries), PageKeys(name, totalPages))
    {
      var page := 1;
      while page <= totalPages
        invariant 1 <= page <= (if totalPages < 1 then 1 else totalPages + 1)
        invariant entries == MarkAllStale(old(entries), PageKeys(name, page - 1))
      {
        MarkAllStaleConcat(old(entries), PageKeys(name, page - 1), [[Name(name), PageNumber(page)]]);
        assert PageKeys(name, page) == PageKeys(name, page - 1) + [[Name(name), PageNumber(page)]];
        Invalidate([Name(name), PageNumber(page)]);
        page := page + 1;
      }
    }

    /** The `onSuccess` of a mutation. */
    method OnSuccess(m: Mutation)
      modifies this
      ensures entries == MarkAllStale(old(entries), Invalidated(m))
    {
      match m {
        case AddCustomer(t) =>
          InvalidatePages("customers", t);
          Invalidate(CustomersCountKey);
          MarkAllStaleConcat(old(entries), PageKeys("customers", t), [CustomersCountKey]);
        case AddEvent(t) =>
          InvalidatePages("events", t);
          Invalidate(EventsCountKey);
          MarkAllStaleConcat(old(entries), PageKeys("events", t), [EventsCountKey]);
        case DeleteCustomer =>
          Invalidate(CustomersKey(None));
          Invalidate(CustomersCountKey);
          MarkAllStaleTwo(old(entries), CustomersKey(None), CustomersCountKey);
        case AddReview =>
          Invalidate(ReviewsKey);
          Invalidate(CustomersKey(None));
          MarkAllStaleTwo(old(entries), ReviewsKey, CustomersKey(None));
        case _ =>
          Invalidate(Invalidated(m)[0]);
      }
    }
  }

  /** After a customer is added, an entry becomes stale iff its key is a customers page
      `1..totalPages` (or extends one) or starts with the count key: with no pages only
      the count is refreshed, and the unpaged customer list is never refreshed. */
  lemma AddCustomerStaleness(entries: map<QueryKey, Freshness>, t: int, k: QueryKey)
    requires k in entries && entries[k] == Fresh
    ensures MarkAllStale(entries, Invalidated(AddCustomer(t)))[k] == Stale <==>
              (|k| >= 2 && k[0] == Name("customers") && k[1].PageNumber? && 1 <= k[1].page <= t)
              || IsPrefix(CustomersCountKey, k)
    ensures k == CustomersKey(None) ==> MarkAllStale(entries, Invalidated(AddCustomer(t)))[k] == Fresh
  {
    var ps := Invalidated(AddCustomer(t));
    MarkAllStaleMeaning(entries, ps);
    var pages := PageKeys("customers", t);
    assert ps == pages + [CustomersCountKey];
    if |k| >= 2 && k[0] == Name("customers") && k[1].PageNumber? && 1 <= k[1].page <= t {
      var i := k[1].page - 1;
      assert ps[i] == [Name("customers"), PageNumber(k[1].page)];
      assert k[..2] == ps[i];
    }
    if IsPrefix(CustomersCountKey, k) {
      assert ps[|ps| - 1] == CustomersCountKey;
    }
    if exists i :: 0 <= i < |ps| && IsPrefix(ps[i], k) {
      var i :| 0 <= i < |ps| && IsPrefix(ps[i], k);
      if i < |pages| {
        assert ps[i] == [Name("customers"), PageNumber(i + 1)];
        assert k[0] == ps[i][0] && k[1] == ps[i][1];
      }
    }
  }

  /** After an event is added, an entry becomes stale iff its key is an events page
      `1..totalPages` (or extends one) or starts with the count key. */
  lemma AddEventStaleness(entries: map<QueryKey, Freshness>, t: int, k: QueryKey)
    requires k in entries && entries[k] == Fresh
    ensures MarkAllStale(entries, Invalidated(AddEvent(t)))[k] == Stale <==>
              (|k| >= 2 && k[0] == Name("events") && k[1].PageNumber? && 1 <= k[1].page <= t)
              || IsPrefix(EventsCountKey, k)
    ensures k == EventsKey(None) ==> MarkAllStale(entries, Invalidated(AddEvent(t)))[k] == Fresh
  {
    var ps := Invalidated(AddEvent(t));
    MarkAllStaleMeaning(entries, ps);
    var pages := PageKeys("events", t);
    assert ps == pages + [EventsCountKey];
    if |k| >= 2 && k[0] == Name("events") && k[1].PageNumber? && 1 <= k[1].page <= t {
      var i := k[1].page - 1;
      assert ps[i] == [Name("events"), PageNumber(k[1].page)];
      assert k[..2] == ps[i];
    }
    if IsPrefix(EventsCountKey, k) {
      assert ps[|ps| - 1] == EventsCountKey;
    }
    if exists i :: 0 <= i < |ps| && IsPrefix(ps[i], k) {
      var i :| 0 <= i < |ps| && IsPrefix(ps[i], k);
      if i < |pages| {
        assert ps[i] == [Name("events"), PageNumber(i + 1)];
        assert k[0] == ps[i][0] && k[1] == ps[i][1];
      }
    }
  }

  /** Deleting a customer refreshes every customer list, paged or not, and the count. */
  lemma DeleteCustomerRefreshesLists(entries: map<QueryKey, Freshness>, page: Option<int>)
    requires CustomersKey(page) in entries && CustomersCountKey in entries
    ensures MarkAllStale(entries, Invalidated(DeleteCustomer))[CustomersKey(page)] == Stale
    ensures MarkAllStale(entries, Invalidated(DeleteCustomer))[CustomersCountKey] == Stale
  {
    var ps := Invalidated(DeleteCustomer);
    MarkAllStaleMeaning(entries, ps);
    assert IsPrefix(ps[0], CustomersKey(page));
    assert IsPrefix(ps[1], CustomersCountKey);
  }

  /** Adding a review refreshes the reviews and every customer list, paged or not. */
  lemma AddReviewRefreshesLists(entries: map<QueryKey, Freshness>, page: Option<int>)
    requires CustomersKey(page) in entries && ReviewsKey in entries
    ensures MarkAllStale(entries, Invalidated(AddReview))[CustomersKey(page)] == Stale
    ensures MarkAllStale(entries, Invalidated(AddReview))[ReviewsKey] == Stale
  {
    var ps := Invalidated(AddReview);
    MarkAllStaleMeaning(entries, ps);
    assert IsPrefix(ps[0], ReviewsKey);
    assert IsPrefix(ps[1], CustomersKey(page));
  }

  /** The cinema mutations touch only keys that start with `["cinemas"]`. */
  lemma CinemaMutationsTouchOnlyCinemas(entries: map<QueryKey, Freshness>, m: Mutation, k: QueryKey)
    requires m == AddCinema || m == EditCinema || m == DeleteCinema
    requires k in entries
    ensures MarkAllStale(entries, Invalidated(m))[k] == if IsPrefix(CinemasKey, k) then Stale else entries[k]
  {
    MarkAllStaleMeaning(entries, Invalidated(m));
  }

  // ---------------------------------------------------------------------------
  // Delete guards and login

  datatype DocumentKind = CinemaDoc | CustomerDoc | ReviewDoc | EventDoc

  function KindLabel(kind: DocumentKind): string {
    match kind
    case CinemaDoc => "Cinema"
    case CustomerDoc => "Customer"
    case ReviewDoc => "Review"
    case EventDoc => "Event"
  }

  /** A delete mutation: `Ok(id)` is the id passed to the store's `delete`; an empty id
      is rejected before any store call. */
  function DeleteRequest(kind: DocumentKind, id: string): (r: Result<string>)
    ensures r.Ok? <==> id != ""
    ensures r.Ok? ==> r.value == id
    ensures r.Err? ==> r.error == KindLabel(kind) + " ID is required for deletion."
  {
    if id == "" then Err(KindLabel(kind) + " ID is required for deletion.") else Ok(id)
  }

  /** `useLogin`: no user is the error "Invalid credentials"; success carries the user. */
  function UseLogin(user: Option<Account>): (r: Result<Account>)
    ensures r.Ok? <==> user.Some?
    ensures r.Ok? ==> r.value == user.value
    ensures r.Err? ==> r.error == "Invalid credentials"
  {
    if user.None? then Err("Invalid credentials") else Ok(user.value)
  }

  // ---------------------------------------------------------------------------
  // Sorting the fetched lists (`Array.prototype.sort` with a comparator)

  /** The comparators of the three sorted queries, as "may come first" relations. */
  predicate ByName(x: Customer, y: Customer) { LexLe(x.name, y.name) }
  predicate ByRatingDesc(x: Review, y: Review) { x.rating >= y.rating }

  lemma ByNameTotalPreorder()
    ensures TotalPreorder(ByName)
  {
    forall x: Customer, y: Customer
      ensures ByName(x, y) || ByName(y, x)
    {
      LexLeTotal(x.name, y.name);
    }
    forall x: Customer, y: Customer, z: Customer | ByName(x, y) && ByName(y, z)
      ensures ByName(x, z)
    {
      LexLeTransitive(x.name, y.name, z.name);
    }
  }

  /** `useFetchCustomers`: the fetched customers sorted by name. */
  method SortCustomers(fetched: seq<Customer>) returns (r: seq<Customer>)
    ensures SortedBy(r, ByName)
    ensures multiset(r) == multiset(fetched)
  {
    ByNameTotalPreorder();
    r := SortedCopy(fetched, ByName);
  }

  /** `useFetchEvents`: the fetched events sorted by the instant of their `dateTime`;
      `instant` stands for `new Date(dateTime).getTime()`. */
  method SortEvents(fetched: seq<Event>, instant: string -> int) returns (r: seq<Event>)
    ensures forall i, j :: 0 <= i < j < |r| ==> instant(r[i].dateTime) <= instant(r[j].dateTime)
    ensures multiset(r) == multiset(fetched)
  {
    var le := (x: Event, y: Event) => instant(x.dateTime) <= instant(y.dateTime);
    r := SortedCopy(fetched, le);
    assert SortedBy(r, le);
  }

  /** `useGetReviews`: the fetched reviews, highest rating first. */
  method SortReviews(fetched: seq<Review>) returns (r: seq<Review>)
    ensures SortedBy(r, ByRatingDesc)
    ensures multiset(r) == multiset(fetched)
  {
    r := SortedCopy(fetched, ByRatingDesc);
  }
}
