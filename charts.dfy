/** The dashboard's chart cards: customers binned by age, this year's events binned by
    month, the number of events per cinema, and the latest reviews.  Each histogram
    is a loop that increments one counter per element, as the cards' `forEach` loops
    do; what each counter ends at is stated by the tallies below. */
module Charts {
  import opened Wrappers
  import opened Text
  import opened Records
  import opened Sorting
  import opened Lists

  /** One bar or slice of a chart: its key and its count. */
  datatype Entry = Entry(key: string, count: int)

  // ---------------------------------------------------------------------------
  // Tallies

  /** The number of elements of `s` that satisfy `p`. */
  function CountWhere<T>(s: seq<T>, p: T -> bool): (n: nat)
    ensures n <= |s|
    decreases |s|
  {
    if s == [] then 0
    else CountWhere(s[..|s| - 1], p) + (if p(s[|s| - 1]) then 1 else 0)
  }

  /** The number of elements of `s` whose bin is `b`. */
  function Tally<T>(s: seq<T>, binOf: T -> Option<nat>, b: nat): nat
    decreases |s|
  {
    if s == [] then 0
    else Tally(s[..|s| - 1], binOf, b) + (if binOf(s[|s| - 1]) == Some(b) then 1 else 0)
  }

  /** The tallies of bins `0..k` added up. */
  function SumTallies<T>(s: seq<T>, binOf: T -> Option<nat>, k: nat): nat {
    if k == 0 then 0 else SumTallies(s, binOf, k - 1) + Tally(s, binOf, k - 1)
  }

  predicate Binned<T>(binOf: T -> Option<nat>, n: nat, x: T) {
    binOf(x).Some? && binOf(x).value < n
  }

  lemma {:induction false} SumTalliesStep<T>(s: seq<T>, binOf: T -> Option<nat>, k: nat)
    requires s != []
    ensures SumTallies(s, binOf, k) ==
            SumTallies(s[..|s| - 1], binOf, k) + (if Binned(binOf, k, s[|s| - 1]) then 1 else 0)
  {
    if k > 0 {
      SumTalliesStep(s, binOf, k - 1);
    }
  }

  /** Each element lands in at most one bin, so the tallies of bins `0..k` add up to the
      number of elements whose bin is below `k`. */
  lemma {:induction false} TalliesSum<T>(s: seq<T>, binOf: T -> Option<nat>, k: nat)
    ensures SumTallies(s, binOf, k) == CountWhere(s, x => Binned(binOf, k, x))
    decreases |s|, k
  {
    if s == [] {
      if k > 0 {
        TalliesSum(s, binOf, k - 1);
      }
    } else {
      SumTalliesStep(s, binOf, k);
      TalliesSum(s[..|s| - 1], binOf, k);
    }
  }

  /** Counting the elements that satisfy `p` or `q` gives the same number when the two
      agree on every element. */
  lemma {:induction false} CountWhereSame<T>(s: seq<T>, p: T -> bool, q: T -> bool)
    requires forall i :: 0 <= i < |s| ==> p(s[i]) == q(s[i])
    ensures CountWhere(s, p) == CountWhere(s, q)
    decreases |s|
  {
    if s != [] {
      CountWhereSame(s[..|s| - 1], p, q);
    }
  }

  /** One pass over `s` incrementing the counter of each element's bin; elements with
      no bin, or a bin outside `0..n`, are skipped. */
  method Histogram<T>(s: seq<T>, binOf: T -> Option<nat>, n: nat) returns (counts: seq<nat>)
    ensures |counts| == n
    ensures forall b :: 0 <= b < n ==> counts[b] == Tally(s, binOf, b)
  {
    var a := new nat[n](_ => 0);
    var i := 0;
    while i < |s|
      invariant 0 <= i <= |s|
      invariant forall b :: 0 <= b < n ==> a[b] == Tally(s[..i], binOf, b)
    {
      assert s[..i + 1][..i] == s[..i];
      var bin := binOf(s[i]);
      if bin.Some? && bin.value < n {
        a[bin.value] := a[bin.value] + 1;
      }
      i := i + 1;
    }
    assert s[..|s|] == s;
    counts := a[..];
  }

  function Labelled(labels: seq<string>, counts: seq<nat>): (data: seq<Entry>)
    requires |labels| == |counts|
    ensures |data| == |labels|
    ensures forall i :: 0 <= i < |data| ==> data[i] == Entry(labels[i], counts[i])
  {
    seq(|labels|, i requires 0 <= i < |labels| => Entry(labels[i], counts[i]))
  }

  // ---------------------------------------------------------------------------
  // Customers by age

  const AgeLabels: seq<string> := ["Under 20", "20-29", "30-39", "40-49", "50+"]

  /** A numeric age, or a text age parsed base 10; `None` stands for `NaN`. */
  function AgeValue(a: Age): (r: Option<int>)
    ensures a.AgeNumber? ==> r == Some(a.years)
    ensures a.AgeText? ==> r == ParseInt(a.text)
  {
    match a
    case AgeNumber(y) => Some(y)
    case AgeText(t) => ParseInt(t)
  }

  /** The age bin: 0 is under 20, 1 to 3 are the decades 20-29 to 40-49, 4 is 50 and
      over. */
  function AgeBin(age: int): (b: nat)
    ensures b < 5
    ensures b == 0 <==> age < 20
    ensures b == 1 <==> 20 <= age < 30
    ensures b == 2 <==> 30 <= age < 40
    ensures b == 3 <==> 40 <= age < 50
    ensures b == 4 <==> 50 <= age
  {
    if age < 20 then 0 else if age < 30 then 1 else if age < 40 then 2 else if age < 50 then 3 else 4
  }

  function CustomerBin(c: Customer): Option<nat> {
    match AgeValue(c.age)
    case None => None
    case Some(a) => Some(AgeBin(a))
  }

  predicate HasAge(c: Customer) { AgeValue(c.age).Some? }

  /** `CustomersChartCard`: five bins in fixed order, each the number of customers whose
      age falls in it. */
  method AgeChart(customers: seq<Customer>) returns (data: seq<Entry>)
    ensures |data| == 5
    ensures forall b :: 0 <= b < 5 ==> data[b] == Entry(AgeLabels[b], Tally(customers, CustomerBin, b))
  {
    var counts := Histogram(customers, CustomerBin, 5);
    data := Labelled(AgeLabels, counts);
  }

  /** Every customer with a parseable age is counted in exactly one bin, so the bins add
      up to the number of such customers. */
  lemma AgeChartTotal(customers: seq<Customer>)
    ensures SumTallies(customers, CustomerBin, 5) == CountWhere(customers, HasAge)
  {
    TalliesSum(customers, CustomerBin, 5);
    CountWhereSame(customers, x => Binned(CustomerBin, 5, x), HasAge);
  }

  // ---------------------------------------------------------------------------
  // Events by month of the current year

  const MonthLabels: seq<string> :=
    ["Jan", "Feb", "Mar", "Apr", "May", "Jun", "Jul", "Aug", "Sep", "Oct", "Nov", "Dec"]

  type MonthIndex = m: int | 0 <= m < 12

  /** A calendar date's year and 0-based month, as `getFullYear` and `getMonth` give. */
  datatype CalendarDate = CalendarDate(year: int, month: MonthIndex)

  /** The month bin of an event in `currentYear`; `dateOf` stands for `new Date(…)` and
      is `None` for an invalid date, whose year never equals the current one. */
  function MonthBin(dateOf: string -> Option<CalendarDate>, currentYear: int): Event -> Option<nat> {
    (e: Event) => if dateOf(e.dateTime).Some? && dateOf(e.dateTime).value.year == currentYear
         then Some(dateOf(e.dateTime).value.month as nat) else None
  }

  function InYear(dateOf: string -> Option<CalendarDate>, currentYear: int): Event -> bool {
    (e: Event) => dateOf(e.dateTime).Some? && dateOf(e.dateTime).value.year == currentYear
  }

  /** `EventsChartCard`: twelve entries `Jan..Dec`, each the number of this year's events
      in that month. */
  method MonthChart(events: seq<Event>, dateOf: string -> Option<CalendarDate>, currentYear: int)
    returns (data: seq<Entry>)
    ensures |data| == 12
    ensures forall m :: 0 <= m < 12 ==>
              data[m] == Entry(MonthLabels[m], Tally(events, MonthBin(dateOf, currentYear), m))
  {
    var counts := Histogram(events, MonthBin(dateOf, currentYear), 12);
    data := Labelled(MonthLabels, counts);
  }

  /** The twelve counts add up to the number of events in the current year. */
  lemma MonthChartTotal(events: seq<Event>, dateOf: string -> Option<CalendarDate>, currentYear: int)
    ensures SumTallies(events, MonthBin(dateOf, currentYear), 12) ==
            CountWhere(events, InYear(dateOf, currentYear))
  {
    TalliesSum(events, MonthBin(dateOf, currentYear), 12);
    forall i | 0 <= i < |events|
      ensures Binned(MonthBin(dateOf, currentYear), 12, events[i]) == InYear(dateOf, currentYear)(events[i])
    {
      var d := dateOf(events[i].dateTime);
      if d.Some? && d.value.year == currentYear {
        assert MonthBin(dateOf, currentYear)(events[i]) == Some(d.value.month as nat);
      }
    }
    CountWhereSame(events, x => Binned(MonthBin(dateOf, currentYear), 12, x), InYear(dateOf, currentYear));
  }

  // ---------------------------------------------------------------------------
  // Events per cinema

  /** The number of events that reference cinema `id`. */
  function RefCount(events: seq<Event>, id: string): nat
    decreases |events|
  {
    if events == [] then 0
    else RefCount(events[..|events| - 1], id) + (if events[|events| - 1].cinema.ref == id then 1 else 0)
  }

  /** The `counts` record: one counter per referenced cinema id. */
  method CountByCinema(events: seq<Event>) returns (counts: map<string, nat>)
    ensures forall id :: id in counts <==> RefCount(events, id) > 0
    ensures forall id :: id in counts ==> counts[id] == RefCount(events, id)
  {
    counts := map[];
    var i := 0;
    while i < |events|
      invariant 0 <= i <= |events|
      invariant forall id :: id in counts <==> RefCount(events[..i], id) > 0
      invariant forall id :: id in counts ==> counts[id] == RefCount(events[..i], id)
    {
      assert events[..i + 1][..i] == events[..i];
      var id := events[i].cinema.ref;
      counts := counts[id := (if id in counts then counts[id] else 0) + 1];
      i := i + 1;
    }
    assert events[..|events|] == events;
  }

  /** A cinema's bar: its name and the number of events that reference it. */
  function CinemaEntry(c: Cinema, events: seq<Event>): Entry {
    Entry(c.name, RefCount(events, c.id))
  }

  /** `cinemas.map(...)`: one entry per cinema, in the cinemas' order. */
  function CinemaEntries(cinemas: seq<Cinema>, events: seq<Event>): (r: seq<Entry>)
    ensures |r| == |cinemas|
  {
    seq(|cinemas|, i requires 0 <= i < |cinemas| => CinemaEntry(cinemas[i], events))
  }

  predicate HasEvents(e: Entry) {
    e.count >= 1
  }

  /** The chart rows before sorting: each cinema with its event count, cinemas without
      events dropped, in the cinemas' order, one row per remaining cinema. */
  function CinemaRows(cinemas: seq<Cinema>, events: seq<Event>): (rows: seq<Entry>)
    ensures rows == Filter(CinemaEntries(cinemas, events), HasEvents)
    decreases |cinemas|
  {
    if cinemas == [] then []
    else
      var c := cinemas[0];
      var n := RefCount(events, c.id);
      var rest := CinemaRows(cinemas[1..], events);
      assert CinemaEntries(cinemas, events) == [CinemaEntry(c, events)] + CinemaEntries(cinemas[1..], events);
      FilterCons(CinemaEntry(c, events), CinemaEntries(cinemas[1..], events), HasEvents);
      (if n > 0 then [Entry(c.name, n)] else []) + rest
  }

  /** Every cinema with events has its row, no row has a zero count, and every row is
      a listed cinema's. */
  lemma CinemaRowsMembers(cinemas: seq<Cinema>, events: seq<Event>)
    ensures var rows := CinemaRows(cinemas, events);
            |rows| <= |cinemas| &&
            (forall e :: e in rows ==> e.count >= 1) &&
            (forall c :: c in cinemas && RefCount(events, c.id) > 0 ==>
               Entry(c.name, RefCount(events, c.id)) in rows) &&
            (forall e :: e in rows ==> exists c :: c in cinemas && e == Entry(c.name, RefCount(events, c.id)))
  {
    var entries := CinemaEntries(cinemas, events);
    forall c | c in cinemas
      ensures CinemaEntry(c, events) in entries
    {
      var i :| 0 <= i < |cinemas| && cinemas[i] == c;
      assert entries[i] == CinemaEntry(c, events);
    }
    forall e | e in entries
      ensures exists c :: c in cinemas && e == CinemaEntry(c, events)
    {
      var i :| 0 <= i < |entries| && entries[i] == e;
      assert cinemas[i] in cinemas;
    }
  }

  /** The rows as the card builds them, from the `counts` record (`counts[_id] || 0`). */
  function RowsFromCounts(cinemas: seq<Cinema>, counts: map<string, nat>): seq<Entry>
    decreases |cinemas|
  {
    if cinemas == [] then []
    else
      var c := cinemas[0];
      var n := if c.id in counts then counts[c.id] else 0;
      (if n > 0 then [Entry(c.name, n)] else []) + RowsFromCounts(cinemas[1..], counts)
  }

  lemma {:induction false} RowsFromCountsAgree(cinemas: seq<Cinema>, events: seq<Event>, counts: map<string, nat>)
    requires forall id :: id in counts <==> RefCount(events, id) > 0
    requires forall id :: id in counts ==> counts[id] == RefCount(events, id)
    ensures RowsFromCounts(cinemas, counts) == CinemaRows(cinemas, events)
    decreases |cinemas|
  {
    if cinemas != [] {
      RowsFromCountsAgree(cinemas[1..], events, counts);
    }
  }

  predicate ByCountDesc(x: Entry, y: Entry) { x.count >= y.count }

  /** `CinemasChartCard`: the rows sorted in place, largest count first. */
  method CinemaChart(events: seq<Event>, cinemas: seq<Cinema>) returns (data: seq<Entry>)
    ensures SortedBy(data, ByCountDesc)
    ensures multiset(data) == multiset(CinemaRows(cinemas, events))
    ensures forall i :: 0 <= i < |data| ==> data[i].count >= 1
  {
    var counts := CountByCinema(events);
    var rows := RowsFromCounts(cinemas, counts);
    RowsFromCountsAgree(cinemas, events, counts);
    data := SortedCopy(rows, ByCountDesc);
    CinemaRowsMembers(cinemas, events);
    forall i | 0 <= i < |data|
      ensures data[i].count >= 1
    {
      assert data[i] in multiset(data);
    }
  }

  function SumCounts(rows: seq<Entry>): int
    decreases |rows|
  {
    if rows == [] then 0 else rows[0].count + SumCounts(rows[1..])
  }

  /** The events of all cinemas added up, over the cinema list. */
  function TotalRefs(cinemas: seq<Cinema>, events: seq<Event>): nat
    decreases |cinemas|
  {
    if cinemas == [] then 0 else RefCount(events, cinemas[0].id) + TotalRefs(cinemas[1..], events)
  }

  /** The number of cinemas with id `id`. */
  function IdCount(cinemas: seq<Cinema>, id: string): nat
    decreases |cinemas|
  {
    if cinemas == [] then 0 else (if cinemas[0].id == id then 1 else 0) + IdCount(cinemas[1..], id)
  }

  predicate DistinctIds(cinemas: seq<Cinema>) {
    forall i, j :: 0 <= i < j < |cinemas| ==> cinemas[i].id != cinemas[j].id
  }

  lemma {:induction false} IdCountAtMostOne(cinemas: seq<Cinema>, id: string)
    requires DistinctIds(cinemas)
    ensures IdCount(cinemas, id) <= 1
    decreases |cinemas|
  {
    if cinemas != [] {
      IdCountAtMostOne(cinemas[1..], id);
      if cinemas[0].id == id && IdCount(cinemas[1..], id) > 0 {
        IdCountPositive(cinemas[1..], id);
      }
    }
  }

  lemma {:induction false} IdCountPositive(cinemas: seq<Cinema>, id: string)
    requires IdCount(cinemas, id) > 0
    ensures exists j :: 0 <= j < |cinemas| && cinemas[j].id == id
    decreases |cinemas|
  {
    if cinemas[0].id != id {
      IdCountPositive(cinemas[1..], id);
      var j :| 0 <= j < |cinemas[1..]| && cinemas[1..][j].id == id;
      assert cinemas[j + 1].id == id;
    }
  }

  lemma {:induction false} TotalRefsStep(cinemas: seq<Cinema>, events: seq<Event>)
    requires events != []
    ensures TotalRefs(cinemas, events) ==
            TotalRefs(cinemas, events[..|events| - 1]) + IdCount(cinemas, events[|events| - 1].cinema.ref)
    decreases |cinemas|
  {
    if cinemas != [] {
      TotalRefsStep(cinemas[1..], events);
    }
  }

  /** With distinct cinema ids each event is counted for at most one cinema, so the
      counts over all cinemas add up to at most the number of events. */
  lemma {:induction false} TotalRefsBound(cinemas: seq<Cinema>, events: seq<Event>)
    requires DistinctIds(cinemas)
    ensures TotalRefs(cinemas, events) <= |events|
    decreases |events|
  {
    if events == [] {
      TotalRefsEmpty(cinemas, events);
    } else {
      TotalRefsStep(cinemas, events);
      IdCountAtMostOne(cinemas, events[|events| - 1].cinema.ref);
      TotalRefsBound(cinemas, events[..|events| - 1]);
    }
  }

  lemma {:induction false} TotalRefsEmpty(cinemas: seq<Cinema>, events: seq<Event>)
    requires events == []
    ensures TotalRefs(cinemas, events) == 0
    decreases |cinemas|
  {
    if cinemas != [] {
      TotalRefsEmpty(cinemas[1..], events);
    }
  }

  /** Dropping the cinemas without events does not change the total. */
  lemma {:induction false} RowsTotal(cinemas: seq<Cinema>, events: seq<Event>)
    ensures SumCounts(CinemaRows(cinemas, events)) == TotalRefs(cinemas, events)
    decreases |cinemas|
  {
    if cinemas != [] {
      RowsTotal(cinemas[1..], events);
      var n := RefCount(events, cinemas[0].id);
      var rest := CinemaRows(cinemas[1..], events);
      if n > 0 {
        assert CinemaRows(cinemas, events) == [Entry(cinemas[0].name, n)] + rest;
        assert ([Entry(cinemas[0].name, n)] + rest)[1..] == rest;
      } else {
        assert CinemaRows(cinemas, events) == [] + rest;
        assert [] + rest == rest;
      }
    }
  }

  /** Events whose cinema is not in the list count for no row: the rows add up to at
      most the number of events. */
  lemma CinemaChartTotal(cinemas: seq<Cinema>, events: seq<Event>)
    requires DistinctIds(cinemas)
    ensures SumCounts(CinemaRows(cinemas, events)) <= |events|
  {
    RowsTotal(cinemas, events);
    TotalRefsBound(cinemas, events);
  }

  // ---------------------------------------------------------------------------
  // Latest reviews

  /** `LatestReviewsCard`: nothing before the reviews arrive, then the first five of the
      fetched list, which is ordered newest first. */
  function LatestReviews(fetched: Option<seq<Review>>): (shown: seq<Review>)
    ensures fetched.None? ==> shown == []
    ensures fetched.Some? ==> |shown| <= 5 && |shown| <= |fetched.value| && shown == fetched.value[..|shown|]
    ensures fetched.Some? && |fetched.value| <= 5 ==> shown == fetched.value
    ensures fetched.Some? && |fetched.value| >= 5 ==> |shown| == 5
  {
    if fetched.None? then []
    else if |fetched.value| <= 5 then fetched.value
    else fetched.value[..5]
  }
}
