/** The customers and events pages and their tables: the page read from the URL,
    the number of pages, when the pagination bar shows, which page the table fetches,
    and which rows a search leaves. */
module Pages {
  import opened Wrappers
  import opened Text
  import opened Records
  import opened Lists
  import Api
  import Queries

  /** `Math.ceil(count / 10)`: the pages a list of `count` documents fills. */
  function TotalPages(count: nat): (r: nat)
    ensures r * Api.PageSize >= count
    ensures r > 0 ==> (r - 1) * Api.PageSize < count
    ensures r == 0 <==> count == 0
  {
    (count + 9) / 10
  }

  /** A page in `1..TotalPages(count)` is never empty, and every document is on one of
      those pages. */
  lemma PagesCoverTheList(count: nat, p: int, i: int)
    ensures 1 <= p <= TotalPages(count) ==> (p - 1) * Api.PageSize < count
    ensures 0 <= i < count ==> 1 <= i / Api.PageSize + 1 <= TotalPages(count)
  {
  }

  /** Adding a customer from the customers page, which hands the add form its page
      count, marks stale every cached page that holds a customer. */
  lemma AddedCustomerRefreshesEveryPage(entries: map<Queries.QueryKey, Queries.Freshness>, count: nat, p: int)
    requires 1 <= p && (p - 1) * Api.PageSize < count
    requires Queries.CustomersKey(Some(p)) in entries
    requires entries[Queries.CustomersKey(Some(p))] == Queries.Fresh
    ensures Queries.MarkAllStale(entries, Queries.Invalidated(Queries.AddCustomer(TotalPages(count))))
              [Queries.CustomersKey(Some(p))] == Queries.Stale
  {
    Queries.AddCustomerStaleness(entries, TotalPages(count), Queries.CustomersKey(Some(p)));
  }

  /** The same for events added from the events page. */
  lemma AddedEventRefreshesEveryPage(entries: map<Queries.QueryKey, Queries.Freshness>, count: nat, p: int)
    requires 1 <= p && (p - 1) * Api.PageSize < count
    requires Queries.EventsKey(Some(p)) in entries
    requires entries[Queries.EventsKey(Some(p))] == Queries.Fresh
    ensures Queries.MarkAllStale(entries, Queries.Invalidated(Queries.AddEvent(TotalPages(count))))
              [Queries.EventsKey(Some(p))] == Queries.Stale
  {
    Queries.AddEventStaleness(entries, TotalPages(count), Queries.EventsKey(Some(p)));
  }

  /** The customers page: `Number(searchParams.get("page") || 1)`; `None` is `NaN`. */
  function CustomersPage(param: Option<string>): (r: Option<int>)
    ensures param.None? || param == Some("") ==> r == Some(1)
    ensures param.Some? && param.value != "" ==> r == ToNumber(param.value)
  {
    if param.None? || param.value == "" then Some(1) else ToNumber(param.value)
  }

  /** The events page: `Number(searchParams.get("page")) || 1`; no parameter is
      `Number(null)`, zero. */
  function EventsPage(param: Option<string>): (r: int)
    ensures r != 0
    ensures r == 1 <==> param.None? || ToNumber(param.value) in {None, Some(0), Some(1)}
    ensures r != 1 ==> param.Some? && ToNumber(param.value) == Some(r)
  {
    var n := if param.None? then Some(0) else ToNumber(param.value);
    if n.None? || n.value == 0 then 1 else n.value
  }

  /** Following a pagination link to page `p` and reading the parameter back gives `p`
      on either page; a hand-written negative page reads back too. */
  lemma PageParameterReadsBack(p: int)
    requires p != 0
    ensures CustomersPage(Some(IntToString(p))) == Some(p)
    ensures EventsPage(Some(IntToString(p))) == p
  {
    ToNumberOfIntToString(p);
    assert IntToString(p) != "" by {
      if p < 0 {
        assert IntToString(p)[0] == '-';
      }
    }
  }

  /** On the customers page `?page=0` reads as page 0, which is falsy, so the whole
      customer list is fetched, where the events page falls back to page 1. */
  lemma PageZero(ordered: seq<Customer>)
    ensures CustomersPage(Some("0")) == Some(0)
    ensures Api.Fetch(ordered, Api.CustomersQuery(CustomersPage(Some("0"))).range) == ordered
    ensures EventsPage(Some("0")) == 1
  {
    assert DigitsValue("0") == 0 by {
      assert "0"[..0] == [];
    }
  }

  /** What a list page shows around its table. */
  datatype PageView = PageView(totalPages: nat, showsPagination: bool, addFormTotalPages: nat)

  /** The pagination bar shows only when there is more than one page and no search;
      the add form is given the same page count. */
  function PageViewOf(count: nat, term: string): (v: PageView)
    ensures v.totalPages == TotalPages(count) && v.addFormTotalPages == v.totalPages
    ensures v.showsPagination <==> count > Api.PageSize && term == ""
  {
    var t := TotalPages(count);
    PageView(t, t > 1 && |term| == 0, t)
  }

  // ---------------------------------------------------------------------------
  // Tables

  /** A table body: nothing when the fetch gave no data, the single "not found" row
      when no row is left, or the rows. */
  datatype Body<T> = Blank | NoneFound(message: string) | Rows(items: seq<T>)

  /** `data?.filter(keep)`, rendered. */
  function TableBody<T(!new)>(fetched: Option<seq<T>>, keep: T -> bool, message: string): (r: Body<T>)
    ensures r.Blank? <==> fetched.None?
    ensures r.NoneFound? <==> fetched.Some? && forall i :: 0 <= i < |fetched.value| ==> !keep(fetched.value[i])
    ensures r.NoneFound? ==> r.message == message
    ensures r.Rows? ==>
              |r.items| > 0 && IsSubsequence(r.items, fetched.value) &&
              forall x :: x in r.items <==> x in fetched.value && keep(x)
  {
    if fetched.None? then Blank
    else
      var shown := Filter(fetched.value, keep);
      FilterIsSubsequence(fetched.value, keep);
      if |shown| == 0 then
        assert forall i :: 0 <= i < |fetched.value| ==> fetched.value[i] !in shown;
        NoneFound(message)
      else
        assert shown[0] in shown;
        Rows(shown)
  }

  /** The rows an empty search term leaves: all of them. */
  lemma EmptyTermKeepsAll<T(!new)>(fetched: seq<T>, text: T -> string, message: string)
    requires fetched != []
    ensures TableBody(Some(fetched), (x: T) => MatchesTerm(text(x), ""), message) == Rows(fetched)
  {
    var keep := (x: T) => MatchesTerm(text(x), "");
    forall i | 0 <= i < |fetched|
      ensures keep(fetched[i])
    {
      MatchesEmptyTerm(text(fetched[i]));
    }
    FilterKeepsAll(fetched, keep);
  }

  /** The page the events table asks for: all events while searching. */
  function EventsTablePage(term: string, currentPage: int): (r: Option<int>)
    ensures r.None? <==> term != ""
  {
    if term != "" then None else Some(currentPage)
  }

  function EventsBody(fetched: Option<seq<Event>>, term: string): Body<Event> {
    TableBody(fetched, (e: Event) => MatchesTerm(e.title, term), "Sorry no Events found!")
  }

  function CustomersBody(fetched: Option<seq<Customer>>, term: string): Body<Customer> {
    TableBody(fetched, (c: Customer) => MatchesTerm(c.name, term), "Sorry no Customers found!")
  }

  /** A search on the events page covers every event: each matching event is shown,
      whichever page is current. */
  lemma EventSearchCoversAll(ordered: seq<Event>, currentPage: int, term: string, e: Event)
    requires term != "" && e in ordered && MatchesTerm(e.title, term)
    ensures var body := EventsBody(Some(Api.Fetch(ordered, Api.EventsQuery(EventsTablePage(term, currentPage)).range)), term);
            body.Rows? && e in body.items
  {
    var fetched := Api.Fetch(ordered, Api.EventsQuery(EventsTablePage(term, currentPage)).range);
    assert fetched == ordered;
    var i :| 0 <= i < |ordered| && ordered[i] == e;
  }

  /** A search on the customers page covers only the current page: every shown
      customer is on it. */
  lemma CustomerSearchCoversPage(ordered: seq<Customer>, currentPage: int, term: string)
    ensures var page := Api.Fetch(ordered, Api.CustomersQuery(Some(currentPage)).range);
            var body := CustomersBody(Some(page), term);
            body.Rows? ==> forall c :: c in body.items ==> c in page
  {
  }
}
