/** The new-review form: a customer search and an event search that each suggest
    matching documents, a schema over the form values, the error shown when no
    customer matches, and the review built on submit from the first suggested
    customer. */
module ReviewForm {
  import opened Wrappers
  import opened Text
  import opened Records
  import opened Lists
  import opened Forms

  datatype ReviewValues = ReviewValues(
    name: string, eventName: string, cinemaRef: string, rating: int, message: string)

  predicate ReviewValid(v: ReviewValues) {
    CodeUnits(v.name) >= 2 && CodeUnits(v.eventName) >= 1 && CodeUnits(v.cinemaRef) >= 1 &&
    0 <= v.rating <= 5 && CodeUnits(v.message) >= 1
  }

  /** The review schema. */
  function ReviewIssues(v: ReviewValues): (r: seq<Issue>)
    ensures r == [] <==> ReviewValid(v)
    ensures Issue(Name, "Name must be at least 2 characters.") in r <==> CodeUnits(v.name) < 2
    ensures Issue(Rating, "Rating must be at least 0 stars.") in r <==> v.rating < 0
    ensures Issue(Rating, "Rating must be at most 5 stars.") in r <==> v.rating > 5
    ensures Issue(Message, "Review message must have at least 1 character!") in r <==> v.message == []
  {
    var choice, rating := ChoiceIssues(v), RatingIssues(v);
    IssuesOfTwo(choice, rating, Issue(Name, "Name must be at least 2 characters."));
    IssuesOfTwo(choice, rating, Issue(Rating, "Rating must be at least 0 stars."));
    IssuesOfTwo(choice, rating, Issue(Rating, "Rating must be at most 5 stars."));
    IssuesOfTwo(choice, rating, Issue(Message, "Review message must have at least 1 character!"));
    choice + rating
  }

  /** The rules on the reviewer's name and the chosen event and cinema. */
  function ChoiceIssues(v: ReviewValues): (r: seq<Issue>)
    ensures r == [] <==> CodeUnits(v.name) >= 2 && CodeUnits(v.eventName) >= 1 && CodeUnits(v.cinemaRef) >= 1
    ensures OnFields(r, {Name, EventName, CinemaRef})
    ensures Issue(Name, "Name must be at least 2 characters.") in r <==> CodeUnits(v.name) < 2
  {
    Rule(CodeUnits(v.name) >= 2, Name, "Name must be at least 2 characters.") +
    Rule(CodeUnits(v.eventName) >= 1, EventName, "Event selection is required!") +
    Rule(CodeUnits(v.cinemaRef) >= 1, CinemaRef, "Cinema selection is required!")
  }

  /** The rules on the rating and the message. */
  function RatingIssues(v: ReviewValues): (r: seq<Issue>)
    ensures r == [] <==> 0 <= v.rating <= 5 && CodeUnits(v.message) >= 1
    ensures OnFields(r, {Rating, Message})
    ensures Issue(Rating, "Rating must be at least 0 stars.") in r <==> v.rating < 0
    ensures Issue(Rating, "Rating must be at most 5 stars.") in r <==> v.rating > 5
    ensures Issue(Message, "Review message must have at least 1 character!") in r <==> v.message == []
  {
    Rule(v.rating >= 0, Rating, "Rating must be at least 0 stars.") +
    Rule(v.rating <= 5, Rating, "Rating must be at most 5 stars.") +
    Rule(CodeUnits(v.message) >= 1, Message, "Review message must have at least 1 character!")
  }

  function ReviewDefaults(): ReviewValues {
    ReviewValues("", "", "", 5, "")
  }

  /** The default rating of five stars is within the rating rules. */
  lemma DefaultRatingAccepted()
    ensures Issue(Rating, "Rating must be at least 0 stars.") !in ReviewIssues(ReviewDefaults())
    ensures Issue(Rating, "Rating must be at most 5 stars.") !in ReviewIssues(ReviewDefaults())
  {
  }

  // ---------------------------------------------------------------------------
  // Customer suggestions

  /** The customers suggested for a search term: none for an empty term or before the
      customers are loaded, otherwise those whose name contains the term, ignoring
      case, in the order of the list. */
  function CustomerSuggestions(term: string, customers: Option<seq<Customer>>): (r: seq<Customer>)
    ensures |term| == 0 || customers.None? ==> r == []
    ensures |term| >= 1 && customers.Some? ==>
              IsSubsequence(r, customers.value) &&
              forall c :: c in r <==> c in customers.value && MatchesTerm(c.name, term)
  {
    if |term| >= 1 && customers.Some? then
      var p := (c: Customer) => MatchesTerm(c.name, term);
      FilterIsSubsequence(customers.value, p);
      Filter(customers.value, p)
    else []
  }

  /** The error on the name field. */
  function NameError(suggestions: seq<Customer>, term: string): Option<string> {
    if |suggestions| == 0 && term != "" then Some("No customer with this name") else None
  }

  /** "No customer with this name" is shown exactly when the term is not empty and no
      loaded customer's name contains it. */
  lemma NameErrorMeaning(term: string, customers: seq<Customer>)
    ensures NameError(CustomerSuggestions(term, Some(customers)), term).Some? <==>
              term != "" && forall i :: 0 <= i < |customers| ==> !MatchesTerm(customers[i].name, term)
    ensures NameError(CustomerSuggestions(term, Some(customers)), term).Some? ==>
              NameError(CustomerSuggestions(term, Some(customers)), term) == Some("No customer with this name")
  {
    var r := CustomerSuggestions(term, Some(customers));
    if term != "" && |r| == 0 {
      forall i | 0 <= i < |customers|
        ensures !MatchesTerm(customers[i].name, term)
      {
        assert customers[i] !in r;
      }
    }
    if term != "" && |r| > 0 {
      assert r[0] in r;
    }
  }

  /** A loaded customer's own name always suggests that customer. */
  lemma OwnNameSuggested(c: Customer, customers: seq<Customer>)
    requires c in customers && c.name != ""
    ensures c in CustomerSuggestions(c.name, Some(customers))
    ensures NameError(CustomerSuggestions(c.name, Some(customers)), c.name).None?
  {
    assert StartsWith(Lower(c.name), Lower(c.name));
    assert MatchesTerm(c.name, c.name);
  }

  // ---------------------------------------------------------------------------
  // Event suggestions

  /** `findIndex` by exact title: the first offset with this title, or -1. */
  function FirstTitleIndex(s: seq<Event>, title: string): (r: int)
    ensures -1 <= r < |s|
    ensures r >= 0 ==> s[r].title == title && forall j :: 0 <= j < r ==> s[j].title != title
    ensures r == -1 ==> forall j :: 0 <= j < |s| ==> s[j].title != title
  {
    if s == [] then -1
    else if s[0].title == title then 0
    else
      var k := FirstTitleIndex(s[1..], title);
      if k == -1 then -1 else k + 1
  }

  /** The events among the first `k` that are the first with their title. */
  function KeepFirsts(s: seq<Event>, k: nat): (r: seq<Event>)
    requires k <= |s|
    ensures forall x :: x in r ==> 0 <= FirstTitleIndex(s, x.title) < k
  {
    if k == 0 then []
    else
      var init := KeepFirsts(s, k - 1);
      if FirstTitleIndex(s, s[k - 1].title) == k - 1 then init + [s[k - 1]] else init
  }

  /** `filter((e, i, self) => i === self.findIndex(x => x.title === e.title))`. */
  function UniqueByTitle(s: seq<Event>): seq<Event> {
    KeepFirsts(s, |s|)
  }

  /** No two events of `r` share a title. */
  predicate DistinctTitles(r: seq<Event>) {
    forall i, j :: 0 <= i < j < |r| ==> r[i].title != r[j].title
  }

  lemma {:induction false} KeepFirstsDistinct(s: seq<Event>, k: nat)
    requires k <= |s|
    ensures DistinctTitles(KeepFirsts(s, k))
  {
    if k > 0 {
      KeepFirstsDistinct(s, k - 1);
      var init := KeepFirsts(s, k - 1);
      if FirstTitleIndex(s, s[k - 1].title) == k - 1 {
        var r := init + [s[k - 1]];
        forall i, j | 0 <= i < j < |r|
          ensures r[i].title != r[j].title
        {
          if j == |r| - 1 {
            assert r[i] == init[i] && r[i] in init;
            assert FirstTitleIndex(s, r[i].title) < k - 1;
            assert r[j] == s[k - 1];
          } else {
            assert r[i] == init[i] && r[j] == init[j];
          }
        }
        assert KeepFirsts(s, k) == r;
      }
    }
  }

  lemma {:induction false} KeepFirstsSubsequence(s: seq<Event>, k: nat)
    requires k <= |s|
    ensures IsSubsequence(KeepFirsts(s, k), s[..k])
  {
    if k > 0 {
      KeepFirstsSubsequence(s, k - 1);
      assert s[..k] == s[..k - 1] + [s[k - 1]];
      SubsequenceStep(KeepFirsts(s, k), KeepFirsts(s, k - 1), s[..k - 1], s[k - 1]);
    }
  }

  lemma {:induction false} KeepFirstsCovers(s: seq<Event>, k: nat, i: nat)
    requires i < k <= |s| && FirstTitleIndex(s, s[i].title) == i
    ensures s[i] in KeepFirsts(s, k)
  {
    if i < k - 1 {
      KeepFirstsCovers(s, k - 1, i);
    }
  }

  /** De-duplication by title keeps the order, leaves no two events with one title,
      and keeps, for every event, the first event with its title. */
  lemma UniqueByTitleMeaning(s: seq<Event>)
    ensures var r := UniqueByTitle(s);
            IsSubsequence(r, s) && DistinctTitles(r) &&
            forall i :: 0 <= i < |s| ==> exists f :: 0 <= f <= i && s[f].title == s[i].title && s[f] in r
  {
    var r := UniqueByTitle(s);
    KeepFirstsDistinct(s, |s|);
    KeepFirstsSubsequence(s, |s|);
    assert s[..|s|] == s;
    forall i | 0 <= i < |s|
      ensures exists f :: 0 <= f <= i && s[f].title == s[i].title && s[f] in r
    {
      var f := FirstTitleIndex(s, s[i].title);
      KeepFirstsCovers(s, |s|, f);
      assert 0 <= f <= i && s[f].title == s[i].title && s[f] in r;
    }
  }

  /** The events suggested for a search term: title matches, de-duplicated by title. */
  function EventSuggestions(term: string, events: Option<seq<Event>>): (r: seq<Event>)
    ensures |term| == 0 || events.None? ==> r == []
  {
    if |term| >= 1 && events.Some? then
      UniqueByTitle(Filter(events.value, (e: Event) => MatchesTerm(e.title, term)))
    else []
  }

  /** Every suggested event matches the term and comes from the list, in order; no
      two share a title; and every matching title is suggested. */
  lemma EventSuggestionsMeaning(term: string, events: seq<Event>)
    requires |term| >= 1
    ensures var r := EventSuggestions(term, Some(events));
            (forall x :: x in r ==> x in events && MatchesTerm(x.title, term)) &&
            DistinctTitles(r) &&
            forall e :: e in events && MatchesTerm(e.title, term) ==>
                          exists x :: x in r && x.title == e.title
  {
    var p := (e: Event) => MatchesTerm(e.title, term);
    var m := Filter(events, p);
    var r := UniqueByTitle(m);
    UniqueByTitleMeaning(m);
    SubsequenceMembers(r, m);
    forall e | e in events && MatchesTerm(e.title, term)
      ensures exists x :: x in r && x.title == e.title
    {
      assert e in m;
      var i :| 0 <= i < |m| && m[i] == e;
      var f :| 0 <= f <= i && m[f].title == m[i].title && m[f] in r;
      assert m[f] in r && m[f].title == e.title;
    }
  }

  // ---------------------------------------------------------------------------
  // Submission

  /** `onSubmit`: the values with `_type "review"` and the id of the first suggested
      customer (an empty id, or no suggestion, gives the empty string). */
  function ReviewSubmission(v: ReviewValues, suggestions: seq<Customer>): (r: Review)
    ensures r.id.None? && r.kind == "review"
    ensures r.userId == if |suggestions| > 0 then suggestions[0].id else ""
    ensures r.name == v.name && r.rating == v.rating && r.message == v.message
    ensures r.eventName == v.eventName && r.cinemaRef == v.cinemaRef
  {
    var first := if |suggestions| > 0 then suggestions[0].id else "";
    Review(None, "review", if first != "" then first else "", v.name, v.rating, v.message,
           v.eventName, v.cinemaRef)
  }

  /** After a customer is picked from the suggestions while the term differed from
      the name, the submitted `userId` is the id of the first loaded customer whose
      name contains the picked name, which is not always the picked customer. */
  lemma PickedUserId(v: ReviewValues, c: Customer, customers: seq<Customer>)
    requires c in customers && c.name != ""
    ensures var r := ReviewSubmission(v, CustomerSuggestions(c.name, Some(customers)));
            exists i :: 0 <= i < |customers| && MatchesTerm(customers[i].name, c.name) &&
                        r.userId == customers[i].id &&
                        forall j :: 0 <= j < i ==> !MatchesTerm(customers[j].name, c.name)
  {
    var s := CustomerSuggestions(c.name, Some(customers));
    OwnNameSuggested(c, customers);
    FirstSuggestionIsFirstMatch(customers, c.name);
  }

  /** The first suggestion is the first customer in the list whose name matches. */
  lemma {:induction false} FirstSuggestionIsFirstMatch(customers: seq<Customer>, term: string)
    requires |term| >= 1 && |CustomerSuggestions(term, Some(customers))| > 0
    ensures exists i :: 0 <= i < |customers| && MatchesTerm(customers[i].name, term) &&
                        CustomerSuggestions(term, Some(customers))[0] == customers[i] &&
                        forall j :: 0 <= j < i ==> !MatchesTerm(customers[j].name, term)
    decreases |customers|
  {
    var p := (c: Customer) => MatchesTerm(c.name, term);
    FilterFirst(customers, p);
    assert CustomerSuggestions(term, Some(customers)) == Filter(customers, p);
  }

  // ---------------------------------------------------------------------------
  // The form's state

  /** The state of a mounted form over the customers and events it was given.  Each
      method is one user action together with the effects it triggers: an effect runs
      only when one of its dependencies changed. */
  class ReviewFormState {
    const customers: Option<seq<Customer>>
    const events: Option<seq<Event>>
    var customerTerm: string
    var customerSuggestions: seq<Customer>
    var eventTerm: string
    var eventSuggestions: seq<Event>
    var values: ReviewValues
    var nameError: Option<string>
    var open: bool

    constructor(customers: Option<seq<Customer>>, events: Option<seq<Event>>)
      ensures this.customers == customers && this.events == events
      ensures customerTerm == "" && customerSuggestions == []
      ensures eventTerm == "" && eventSuggestions == []
      ensures values == ReviewDefaults() && nameError.None? && open
    {
      this.customers := customers;
      this.events := events;
      customerTerm := "";
      customerSuggestions := [];
      eventTerm := "";
      eventSuggestions := [];
      values := ReviewDefaults();
      nameError := None;
      open := true;
    }

    /** Typing in the customer field changes the term only; a new term re-runs the
        search and then the error check. */
    method TypeCustomer(term: string)
      modifies this
      ensures customerTerm == term
      ensures term != old(customerTerm) ==>
                customerSuggestions == CustomerSuggestions(term, customers) &&
                nameError == NameError(customerSuggestions, term)
      ensures term == old(customerTerm) ==>
                customerSuggestions == old(customerSuggestions) && nameError == old(nameError)
      ensures values == old(values) && open == old(open)
      ensures eventTerm == old(eventTerm) && eventSuggestions == old(eventSuggestions)
    {
      if term != customerTerm {
        customerTerm := term;
        customerSuggestions := CustomerSuggestions(term, customers);
        nameError := NameError(customerSuggestions, term);
      }
    }

    /** Picking a suggested customer sets the name field and the term to the name and
        empties the suggestions; the search runs again only if the term changed. */
    method PickCustomer(c: Customer)
      modifies this
      ensures values == old(values).(name := c.name) && customerTerm == c.name
      ensures c.name != old(customerTerm) ==> customerSuggestions == CustomerSuggestions(c.name, customers)
      ensures c.name == old(customerTerm) ==> customerSuggestions == []
      ensures nameError == NameError(customerSuggestions, c.name)
      ensures open == old(open)
      ensures eventTerm == old(eventTerm) && eventSuggestions == old(eventSuggestions)
    {
      var changed := c.name != customerTerm;
      values := values.(name := c.name);
      customerTerm := c.name;
      customerSuggestions := [];
      if changed {
        customerSuggestions := CustomerSuggestions(c.name, customers);
      }
      nameError := NameError(customerSuggestions, c.name);
    }

    /** Typing in the event field changes the term and clears the chosen event. */
    method TypeEvent(term: string)
      modifies this
      ensures eventTerm == term && values == old(values).(eventName := "")
      ensures term != old(eventTerm) ==> eventSuggestions == EventSuggestions(term, events)
      ensures term == old(eventTerm) ==> eventSuggestions == old(eventSuggestions)
      ensures customerTerm == old(customerTerm) && customerSuggestions == old(customerSuggestions)
      ensures nameError == old(nameError) && open == old(open)
    {
      values := values.(eventName := "");
      if term != eventTerm {
        eventTerm := term;
        eventSuggestions := EventSuggestions(term, events);
      }
    }

    /** Picking a suggested event sets the event field and the term to its title. */
    method PickEvent(e: Event)
      modifies this
      ensures values == old(values).(eventName := e.title) && eventTerm == e.title
      ensures e.title != old(eventTerm) ==> eventSuggestions == EventSuggestions(e.title, events)
      ensures e.title == old(eventTerm) ==> eventSuggestions == []
      ensures customerTerm == old(customerTerm) && customerSuggestions == old(customerSuggestions)
      ensures nameError == old(nameError) && open == old(open)
    {
      var changed := e.title != eventTerm;
      values := values.(eventName := e.title);
      eventTerm := e.title;
      eventSuggestions := [];
      if changed {
        eventSuggestions := EventSuggestions(e.title, events);
      }
    }

    /** The cinema select, the rating input and the message area. */
    method EditDetails(cinemaRef: string, rating: int, message: string)
      modifies this
      ensures values == old(values).(cinemaRef := cinemaRef, rating := rating, message := message)
      ensures customerTerm == old(customerTerm) && customerSuggestions == old(customerSuggestions)
      ensures eventTerm == old(eventTerm) && eventSuggestions == old(eventSuggestions)
      ensures nameError == old(nameError) && open == old(open)
    {
      values := values.(cinemaRef := cinemaRef, rating := rating, message := message);
    }

    /** Submitting: values that pass the schema are sent as a review and the modal
        closes; otherwise nothing is sent. */
    method Submit() returns (review: Option<Review>)
      modifies this
      ensures ReviewIssues(values) == [] ==>
                review == Some(ReviewSubmission(values, customerSuggestions)) && !open
      ensures ReviewIssues(values) != [] ==> review.None? && open == old(open)
      ensures values == old(values) && customerSuggestions == old(customerSuggestions)
      ensures customerTerm == old(customerTerm) && eventTerm == old(eventTerm)
      ensures eventSuggestions == old(eventSuggestions) && nameError == old(nameError)
    {
      if ReviewIssues(values) == [] {
        review := Some(ReviewSubmission(values, customerSuggestions));
        open := false;
      } else {
        review := None;
      }
    }
  }

  /** The suggestion list under the customer field is shown while it is not empty
      and the term is not already the first suggestion's name. */
  predicate CustomerDropdownShown(term: string, suggestions: seq<Customer>) {
    |suggestions| > 0 && term != suggestions[0].name
  }

  /** Typing a customer's full name while another matching customer comes first lists
      that customer; picking it then leaves the term as it was, so the search does
      not run again: the suggestions stay empty, the error is shown, and the review
      would be submitted with an empty `userId`. */
  method PickingTheTypedName(customers: seq<Customer>, events: seq<Event>, c: Customer)
    returns (listed: bool, form: ReviewFormState)
    requires c in customers && c.name != ""
    requires |CustomerSuggestions(c.name, Some(customers))| > 0 &&
             CustomerSuggestions(c.name, Some(customers))[0].name != c.name
    ensures listed
    ensures form.customerSuggestions == []
    ensures form.nameError == Some("No customer with this name")
    ensures ReviewSubmission(form.values, form.customerSuggestions).userId == ""
  {
    form := new ReviewFormState(Some(customers), Some(events));
    form.TypeCustomer(c.name);
    OwnNameSuggested(c, customers);
    listed := CustomerDropdownShown(form.customerTerm, form.customerSuggestions) &&
              c in form.customerSuggestions;
    form.PickCustomer(c);
  }
}
