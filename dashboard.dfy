/** `useDashboardData`: the three series of the dashboard, each a group-by count built
    by incrementing a record in a loop, and the combined loading and error flags.
    The order of the record's entries is not stated. */
module Dashboard {
  import opened Wrappers
  import opened Text
  import opened Records
  import opened Charts

  /** The number of times `k` occurs in `keys`. */
  function Occurrences(keys: seq<string>, k: string): nat
    decreases |keys|
  {
    if keys == [] then 0
    else Occurrences(keys[..|keys| - 1], k) + (if keys[|keys| - 1] == k then 1 else 0)
  }

  lemma {:induction false} OccurrencesPositive(keys: seq<string>, k: string)
    requires k in keys
    ensures Occurrences(keys, k) >= 1
    decreases |keys|
  {
    if keys[|keys| - 1] != k {
      assert k in keys[..|keys| - 1];
      OccurrencesPositive(keys[..|keys| - 1], k);
    }
  }

  lemma {:induction false} OccurrencesAbsent(keys: seq<string>, k: string)
    requires k !in keys
    ensures Occurrences(keys, k) == 0
    decreases |keys|
  {
    if keys != [] {
      assert k !in keys[..|keys| - 1];
      OccurrencesAbsent(keys[..|keys| - 1], k);
    }
  }

  lemma OccurrencesStep(keys: seq<string>, i: nat, k: string)
    requires i < |keys|
    ensures Occurrences(keys[..i + 1], k) == Occurrences(keys[..i], k) + (if keys[i] == k then 1 else 0)
  {
    assert keys[..i + 1][..i] == keys[..i];
  }

  /** `data` is the grouping of `keys`: one entry per distinct key, each with the number
      of times the key occurs, the counts adding up to the number of keys. */
  ghost predicate IsGrouping(data: seq<Entry>, keys: seq<string>) {
    (forall i, j :: 0 <= i < j < |data| ==> data[i].key != data[j].key) &&
    (forall j :: 0 <= j < |data| ==> data[j].key in keys) &&
    (forall j :: 0 <= j < |data| ==> data[j].count == Occurrences(keys, data[j].key) >= 1) &&
    (forall k :: k in keys ==> exists j :: 0 <= j < |data| && data[j].key == k) &&
    SumCounts(data) == |keys|
  }

  function EntriesOf(order: seq<string>, counts: map<string, nat>): (data: seq<Entry>)
    requires forall k :: k in order ==> k in counts
    ensures |data| == |order|
    ensures forall j :: 0 <= j < |data| ==> data[j] == Entry(order[j], counts[order[j]])
  {
    seq(|order|, j requires 0 <= j < |order| => Entry(order[j], counts[order[j]]))
  }

  lemma {:induction false} SumCountsAppend(data: seq<Entry>, e: Entry)
    ensures SumCounts(data + [e]) == SumCounts(data) + e.count
    decreases |data|
  {
    if data == [] {
      assert data + [e] == [e];
    } else {
      assert (data + [e])[1..] == data[1..] + [e];
      SumCountsAppend(data[1..], e);
    }
  }

  /** Incrementing the counter of a key that occurs once in `order` adds one to the sum. */
  lemma {:induction false} SumCountsIncrement(order: seq<string>, counts: map<string, nat>, k: string)
    requires forall x :: x in order ==> x in counts
    requires forall i, j :: 0 <= i < j < |order| ==> order[i] != order[j]
    requires k in order
    ensures SumCounts(EntriesOf(order, counts[k := counts[k] + 1])) == SumCounts(EntriesOf(order, counts)) + 1
    decreases |order|
  {
    var next := counts[k := counts[k] + 1];
    assert EntriesOf(order, next)[1..] == EntriesOf(order[1..], next);
    assert EntriesOf(order, counts)[1..] == EntriesOf(order[1..], counts);
    if order[0] == k {
      assert k !in order[1..];
      assert EntriesOf(order[1..], next) == EntriesOf(order[1..], counts);
    } else {
      SumCountsIncrement(order[1..], counts, k);
    }
  }

  /** The record's keys: `order` lists the keys of `counts` once each, every counter
      positive. */
  ghost predicate KeysMatch(order: seq<string>, counts: map<string, nat>) {
    (forall k :: k in order <==> k in counts) &&
    (forall k :: k in counts ==> counts[k] >= 1) &&
    (forall a, b :: 0 <= a < b < |order| ==> order[a] != order[b])
  }

  /** The record's counters after the first `i` keys. */
  ghost predicate CountsMatch(keys: seq<string>, i: nat, counts: map<string, nat>)
    requires i <= |keys|
  {
    (forall k :: k !in counts ==> Occurrences(keys[..i], k) == 0) &&
    (forall k :: k in counts ==> counts[k] == Occurrences(keys[..i], k))
  }

  /** What the record holds after the first `i` keys: `order` lists its keys in the
      order they were first met, and `counts` maps each to its number of occurrences. */
  ghost predicate RecordOf(keys: seq<string>, i: nat, order: seq<string>, counts: map<string, nat>) {
    i <= |keys| && KeysMatch(order, counts) && CountsMatch(keys, i, counts) &&
    SumCounts(EntriesOf(order, counts)) == i
  }

  /** `(map[key] || 0) + 1`. */
  function Bumped(counts: map<string, nat>, k: string): (r: map<string, nat>)
    ensures r.Keys == counts.Keys + {k}
    ensures r[k] == (if k in counts then counts[k] else 0) + 1
    ensures forall x :: x in counts && x != k ==> r[x] == counts[x]
  {
    counts[k := (if k in counts then counts[k] else 0) + 1]
  }

  lemma CountsStep(keys: seq<string>, i: nat, counts: map<string, nat>)
    requires i < |keys| && CountsMatch(keys, i, counts)
    ensures CountsMatch(keys, i + 1, Bumped(counts, keys[i]))
  {
    var next := Bumped(counts, keys[i]);
    forall x
      ensures x in next ==> next[x] == Occurrences(keys[..i + 1], x)
      ensures x !in next ==> Occurrences(keys[..i + 1], x) == 0
    {
      OccurrencesStep(keys, i, x);
    }
  }

  /** Counting a key already in the record increments its counter. */
  lemma RecordAfterIncrement(keys: seq<string>, i: nat, order: seq<string>, counts: map<string, nat>)
    requires i < |keys| && RecordOf(keys, i, order, counts) && keys[i] in counts
    ensures RecordOf(keys, i + 1, order, Bumped(counts, keys[i]))
  {
    CountsStep(keys, i, counts);
    SumCountsIncrement(order, counts, keys[i]);
    assert Bumped(counts, keys[i]) == counts[keys[i] := counts[keys[i]] + 1];
  }

  /** Counting a new key appends it to the record with counter 1. */
  lemma RecordAfterInsert(keys: seq<string>, i: nat, order: seq<string>, counts: map<string, nat>)
    requires i < |keys| && RecordOf(keys, i, order, counts) && keys[i] !in counts
    ensures RecordOf(keys, i + 1, order + [keys[i]], Bumped(counts, keys[i]))
  {
    var k := keys[i];
    CountsStep(keys, i, counts);
    var previous := EntriesOf(order, counts);
    var next := Bumped(counts, k);
    assert EntriesOf(order, next) == previous;
    assert EntriesOf(order + [k], next) == previous + [Entry(k, 1)];
    SumCountsAppend(previous, Entry(k, 1));
  }

  /** `map[key] = (map[key] || 0) + 1` for the key at `i`. */
  method CountKey(keys: seq<string>, i: nat, order: seq<string>, counts: map<string, nat>)
    returns (order': seq<string>, counts': map<string, nat>)
    requires i < |keys| && RecordOf(keys, i, order, counts)
    ensures RecordOf(keys, i + 1, order', counts')
  {
    var k := keys[i];
    if k in counts {
      RecordAfterIncrement(keys, i, order, counts);
      order' := order;
    } else {
      RecordAfterInsert(keys, i, order, counts);
      order' := order + [k];
    }
    counts' := Bumped(counts, k);
  }

  /** The `map` record of one series: each key counted in turn, then `Object.entries`. */
  method GroupCount(keys: seq<string>) returns (data: seq<Entry>)
    ensures IsGrouping(data, keys)
  {
    var counts: map<string, nat> := map[];
    var order: seq<string> := [];
    var i := 0;
    while i < |keys|
      invariant RecordOf(keys, i, order, counts)
    {
      order, counts := CountKey(keys, i, order, counts);
      i := i + 1;
    }
    assert keys[..|keys|] == keys;
    data := EntriesOf(order, counts);
    forall j | 0 <= j < |data|
      ensures data[j].key in keys
    {
      if data[j].key !in keys {
        OccurrencesAbsent(keys, data[j].key);
      }
    }
    forall k | k in keys
      ensures exists j :: 0 <= j < |data| && data[j].key == k
    {
      OccurrencesPositive(keys, k);
      var j :| 0 <= j < |order| && order[j] == k;
      assert data[j].key == k;
    }
  }

  /** The month key of each event; `monthName` stands for `format(parseISO(…), "MMM")`. */
  function EventMonthKeys(events: seq<Event>, monthName: string -> string): (keys: seq<string>)
    ensures |keys| == |events|
    ensures forall i :: 0 <= i < |events| ==> keys[i] == monthName(events[i].dateTime)
  {
    seq(|events|, i requires 0 <= i < |events| => monthName(events[i].dateTime))
  }

  /** The month key of each customer; `monthName` stands for `format(new Date(…), "MMM")`. */
  function CustomerMonthKeys(customers: seq<Customer>, monthName: string -> string): (keys: seq<string>)
    ensures |keys| == |customers|
    ensures forall i :: 0 <= i < |customers| ==> keys[i] == monthName(customers[i].dateJoin)
  {
    seq(|customers|, i requires 0 <= i < |customers| => monthName(customers[i].dateJoin))
  }

  /** The rating key of each review, `String(rating)`. */
  function RatingKeys(reviews: seq<Review>): (keys: seq<string>)
    ensures |keys| == |reviews|
    ensures forall i :: 0 <= i < |reviews| ==> keys[i] == IntToString(reviews[i].rating)
  {
    seq(|reviews|, i requires 0 <= i < |reviews| => IntToString(reviews[i].rating))
  }

  /** `eventsByMonth`: events grouped by the short month name of their `dateTime`.  No
      data gives no entries. */
  method EventsByMonth(events: Option<seq<Event>>, monthName: string -> string) returns (data: seq<Entry>)
    ensures events.None? ==> data == []
    ensures events.Some? ==> IsGrouping(data, EventMonthKeys(events.value, monthName))
  {
    if events.None? {
      return [];
    }
    data := GroupCount(EventMonthKeys(events.value, monthName));
  }

  /** `customersByMonth`: customers grouped by the short month name of `dateJoin`. */
  method CustomersByMonth(customers: Option<seq<Customer>>, monthName: string -> string) returns (data: seq<Entry>)
    ensures customers.None? ==> data == []
    ensures customers.Some? ==> IsGrouping(data, CustomerMonthKeys(customers.value, monthName))
  {
    if customers.None? {
      return [];
    }
    data := GroupCount(CustomerMonthKeys(customers.value, monthName));
  }

  /** `reviewsByRating`: reviews grouped by `String(rating)`. */
  method ReviewsByRating(reviews: Option<seq<Review>>) returns (data: seq<Entry>)
    ensures reviews.None? ==> data == []
    ensures reviews.Some? ==> IsGrouping(data, RatingKeys(reviews.value))
  {
    if reviews.None? {
      return [];
    }
    data := GroupCount(RatingKeys(reviews.value));
  }

  /** `a || b || c` over the three queries' errors: the first one present. */
  function FirstError<E>(a: Option<E>, b: Option<E>, c: Option<E>): (r: Option<E>)
    ensures r.None? <==> a.None? && b.None? && c.None?
    ensures a.Some? ==> r == a
    ensures a.None? && b.Some? ==> r == b
    ensures a.None? && b.None? ==> r == c
  {
    if a.Some? then a else if b.Some? then b else c
  }

  /** The status of one of the three queries: its data once loaded, whether it is
      loading, and its error if it failed. */
  datatype QueryState<T> = QueryState(data: Option<seq<T>>, isLoading: bool, error: Option<string>)

  datatype DashboardData = DashboardData(
    eventsData: seq<Entry>, customersData: seq<Entry>, reviewsData: seq<Entry>,
    isLoading: bool, error: Option<string>)

  /** `useDashboardData`: the three series, loading while any query loads, and the
      first error among events, customers and reviews. */
  method UseDashboardData(
    events: QueryState<Event>, customers: QueryState<Customer>, reviews: QueryState<Review>,
    eventMonth: string -> string, customerMonth: string -> string)
    returns (d: DashboardData)
    ensures d.isLoading <==> events.isLoading || customers.isLoading || reviews.isLoading
    ensures d.error == FirstError(events.error, customers.error, reviews.error)
    ensures events.data.None? ==> d.eventsData == []
    ensures customers.data.None? ==> d.customersData == []
    ensures reviews.data.None? ==> d.reviewsData == []
    ensures events.data.Some? ==> IsGrouping(d.eventsData, EventMonthKeys(events.data.value, eventMonth))
    ensures customers.data.Some? ==>
              IsGrouping(d.customersData, CustomerMonthKeys(customers.data.value, customerMonth))
    ensures reviews.data.Some? ==> IsGrouping(d.reviewsData, RatingKeys(reviews.data.value))
    ensures reviews.data.Some? ==> SumCounts(d.reviewsData) == |reviews.data.value|
  {
    var e := EventsByMonth(events.data, eventMonth);
    var c := CustomersByMonth(customers.data, customerMonth);
    var r := ReviewsByRating(reviews.data);
    d := DashboardData(e, c, r, events.isLoading || customers.isLoading || reviews.isLoading,
                       FirstError(events.error, customers.error, reviews.error));
  }

  /** The rating keys are distinct exactly when the ratings are: `String` is injective
      on integers, so one entry stands for one rating. */
  lemma RatingKeysDistinct(r1: int, r2: int)
    ensures IntToString(r1) == IntToString(r2) <==> r1 == r2
  {
    if IntToString(r1) == IntToString(r2) {
      ParseIntOfIntToString(r1);
      ParseIntOfIntToString(r2);
    }
  }
}
