/** The data-access layer: the store queries of the list pages, the records the create
    and update calls send, and the login decision.  The store itself is abstract: a
    query is described by the document type, the ordering and the optional slice it
    asks for, and `Fetch` gives its answer on the list of matching documents already
    in that order.  Fresh ids (`uuid`), the image upload and the bcrypt comparison are
    parameters. */
module Api {
  import opened Wrappers
  import opened Text
  import opened Records

  function Min(a: int, b: int): int { if a < b then a else b }
  function Max(a: int, b: int): int { if a < b then b else a }

  // ---------------------------------------------------------------------------
  // Queries and page ranges

  datatype Direction = Asc | Desc

  /** The exclusive slice `[start...end]` of a store query. */
  datatype Range = Range(start: int, end: int)

  datatype Query = Query(docType: string, orderField: string, direction: Direction, range: Option<Range>)

  const PageSize := 10

  /** The slice of a page: none without a page (an absent or zero page is falsy),
      otherwise ten documents from `(page - 1) * 10`. */
  function PageRange(page: Option<int>): (r: Option<Range>)
    ensures r.None? <==> page.None? || page.value == 0
    ensures r.Some? ==> r.value.end - r.value.start == PageSize
  {
    if page.None? || page.value == 0 then None
    else
      var start := (page.value - 1) * PageSize;
      Some(Range(start, start + PageSize))
  }

  /** `getCustomers(page)`: customers, newest `dateJoin` first. */
  function CustomersQuery(page: Option<int>): Query {
    Query("customer", "dateJoin", Desc, PageRange(page))
  }

  /** `getEvents(page)`: events, earliest `dateTime` first. */
  function EventsQuery(page: Option<int>): Query {
    Query("event", "dateTime", Asc, PageRange(page))
  }

  /** `getCinemas()`: ordered by `dateJoin`, a field cinema documents do not have. */
  function CinemasQuery(): Query {
    Query("cinema", "dateJoin", Desc, None)
  }

  /** `getReviews()`: newest first. */
  function ReviewsQuery(): Query {
    Query("review", "_createdAt", Desc, None)
  }

  /** A bound of a GROQ slice over a list of `n` documents: a negative bound counts
      from the end of the list, and the result is clipped to the list. */
  function SliceBound(i: int, n: nat): (b: nat)
    ensures b <= n
    ensures 0 <= i ==> b == Min(i, n)
    ensures i < 0 ==> b == Max(0, n + i)
  {
    if i < 0 then Max(0, n + i) else Min(i, n)
  }

  /** The store's answer to a query whose matching documents, in the query's order, are
      `ordered`: the whole list, or the run of documents between the two slice bounds,
      empty when the end bound comes first. */
  function Fetch<T>(ordered: seq<T>, range: Option<Range>): (r: seq<T>)
    ensures range.None? ==> r == ordered
    ensures range.Some? ==>
              var k := SliceBound(range.value.start, |ordered|);
              k + |r| <= |ordered| && r == ordered[k..k + |r|]
    ensures range.Some? ==>
              |r| == Max(0, SliceBound(range.value.end, |ordered|) -
                            SliceBound(range.value.start, |ordered|))
    ensures range.Some? && (range.value.start < 0 <==> range.value.end < 0) ==>
              |r| <= Max(0, range.value.end - range.value.start)
  {
    if range.None? then ordered
    else
      var from := SliceBound(range.value.start, |ordered|);
      var to := SliceBound(range.value.end, |ordered|);
      if from <= to then ordered[from..to] else []
  }

  /** Page `p` (from 1) of a list holds at most ten documents: those at offsets
      `(p - 1) * 10 ..` of the ordered list, as many as remain. */
  lemma PageOfOrdered<T>(ordered: seq<T>, p: int)
    requires p >= 1
    ensures var r, start := Fetch(ordered, PageRange(Some(p))), (p - 1) * PageSize;
            |r| == Min(PageSize, Max(0, |ordered| - start)) &&
            forall i :: 0 <= i < |r| ==> r[i] == ordered[start + i]
  {
  }

  /** Every document of the ordered list is on page `i / 10 + 1`, at position `i % 10`. */
  lemma EveryDocumentOnItsPage<T>(ordered: seq<T>, i: int)
    requires 0 <= i < |ordered|
    ensures var r := Fetch(ordered, PageRange(Some(i / PageSize + 1)));
            i % PageSize < |r| && r[i % PageSize] == ordered[i]
  {
    var p := i / PageSize + 1;
    PageOfOrdered(ordered, p);
    assert (p - 1) * PageSize + i % PageSize == i;
  }

  /** A negative page, which only a hand-edited link asks for, counts from the end of
      the list: page `p` holds the documents from offset `|ordered| + (p - 1) * 10`,
      as many of the ten as exist (page -1 is the twenty-first to the eleventh from
      the end). */
  lemma NegativePageFromEnd<T>(ordered: seq<T>, p: int)
    requires p <= -1
    ensures var r, start := Fetch(ordered, PageRange(Some(p))), |ordered| + (p - 1) * PageSize;
            |r| == Min(PageSize, Max(0, start + PageSize)) &&
            forall i :: 0 <= i < |r| ==> r[i] == ordered[Max(0, start) + i]
  {
  }

  /** Without a page, or with page 0, nothing is sliced: the whole ordered list. */
  lemma NoPageFetchesAll<T>(ordered: seq<T>, page: Option<int>)
    requires page.None? || page.value == 0
    ensures Fetch(ordered, CustomersQuery(page).range) == ordered
    ensures Fetch(ordered, EventsQuery(page).range) == ordered
  {
  }

  // ---------------------------------------------------------------------------
  // Records sent to the store

  /** The message of a failed image upload. */
  function UploadError(message: string): string {
    "Error uploading image: " + message
  }

  /** The customer document of `addNewCustomer`: the form values, `_type "customer"`,
      a `customer_` id and the uploaded image's URL. */
  function NewCustomerDocument(c: NewCustomer, uuid: string, imageUrl: string): (r: Customer)
    ensures r.kind == "customer" && StartsWith(r.id, "customer_") && r.id[9..] == uuid
    ensures r.image == imageUrl
    ensures r.name == c.name && r.age == c.age && r.city == c.city
            && r.dateJoin == c.dateJoin && r.totalSpent == c.totalSpent
  {
    var id := "customer_" + uuid;
    assert id[..9] == "customer_" && id[9..] == uuid;
    Customer(id, "customer", c.name, c.age, imageUrl, c.city, c.dateJoin, c.totalSpent)
  }

  /** `addNewCustomer`: the upload result decides between the document and the error. */
  function AddNewCustomer(c: NewCustomer, uuid: string, upload: Result<string>): (r: Result<Customer>)
    ensures r.Ok? <==> upload.Ok?
    ensures r.Ok? ==> r.value == NewCustomerDocument(c, uuid, upload.value)
    ensures r.Err? ==> r.error == "Error adding new customer: " + UploadError(upload.error)
  {
    match upload
    case Ok(url) => Ok(NewCustomerDocument(c, uuid, url))
    case Err(e) => Err("Error adding new customer: " + UploadError(e))
  }

  /** Distinct fresh uuids give distinct ids, whatever the prefix. */
  lemma PrefixedIdsDistinct(prefix: string, u1: string, u2: string)
    requires u1 != u2
    ensures prefix + u1 != prefix + u2
  {
    assert (prefix + u1)[|prefix|..] == u1;
    assert (prefix + u2)[|prefix|..] == u2;
  }

  /** The cinema document of `addNewCinema`: the form values, `_type "cinema"`, a
      `cinema_` id over any id the input had, the uploaded URL and all prices zero. */
  function NewCinemaDocument(c: NewCinema, uuid: string, imageUrl: string): (r: Cinema)
    ensures r.kind == "cinema" && StartsWith(r.id, "cinema_") && r.id[7..] == uuid
    ensures r.image == Url(imageUrl)
    ensures r.executivePrice == 0 && r.premierPrice == 0 && r.classicPrice == 0
    ensures r.name == c.name && r.location == c.location && r.capacity == c.capacity
  {
    var id := "cinema_" + uuid;
    assert id[..7] == "cinema_" && id[7..] == uuid;
    Cinema(id, "cinema", c.name, c.location, c.capacity, Url(imageUrl), 0, 0, 0)
  }

  function AddNewCinema(c: NewCinema, uuid: string, upload: Result<string>): (r: Result<Cinema>)
    ensures r.Ok? <==> upload.Ok?
    ensures r.Ok? ==> r.value == NewCinemaDocument(c, uuid, upload.value)
    ensures r.Err? ==> r.error == "Error adding fake cinema: " + UploadError(upload.error)
  {
    match upload
    case Ok(url) => Ok(NewCinemaDocument(c, uuid, url))
    case Err(e) => Err("Error adding fake cinema: " + UploadError(e))
  }

  /** `addEvent`: the event with `event` and a fresh uuid as its id, replacing any id it
      came with; nothing else changes. */
  function AddEvent(e: Event, uuid: string): (r: Event)
    ensures StartsWith(r.id, "event") && r.id[5..] == uuid
    ensures r.(id := e.id) == e
  {
    var id := "event" + uuid;
    assert id[..5] == "event" && id[5..] == uuid;
    e.(id := id)
  }

  /** `addNewReview`: rejects a missing review; otherwise sets `_type "review"` and a
      `review` id and keeps the rest. */
  function AddNewReview(review: Option<Review>, uuid: string): (r: Result<Review>)
    ensures r.Ok? <==> review.Some?
    ensures r.Err? ==> r.error == "Error adding new review: No review provided"
    ensures r.Ok? ==> r.value.kind == "review" && r.value.id == Some("review" + uuid)
                      && r.value.(kind := review.value.kind, id := review.value.id) == review.value
  {
    if review.None? then Err("Error adding new review: No review provided")
    else Ok(review.value.(kind := "review", id := Some("review" + uuid)))
  }

  /** `EditCinema`: a newly picked image is uploaded first (its failure is reported
      before anything else), then a missing id is rejected; the stored document is the
      cinema with the image replaced by its URL. */
  function EditCinema(c: Cinema, upload: Result<string>): (r: Result<Cinema>)
    ensures r.Ok? <==> c.id != "" && (c.image.Picked? ==> upload.Ok?)
    ensures c.image.Picked? && upload.Err? ==>
              r == Err("Error updating cinema: " + UploadError(upload.error))
    ensures (c.image.Url? || upload.Ok?) && c.id == "" ==>
              r == Err("Error updating cinema: Cinema must have an _id to update.")
    ensures r.Ok? ==> r.value.image.Url? && r.value.(image := c.image) == c
    ensures r.Ok? && c.image.Url? ==> r.value == c
    ensures r.Ok? && c.image.Picked? ==> r.value.image == Url(upload.value)
  {
    if c.image.Picked? && upload.Err? then Err("Error updating cinema: " + UploadError(upload.error))
    else
      var image := if c.image.Picked? then Url(upload.value) else c.image;
      if c.id == "" then Err("Error updating cinema: Cinema must have an _id to update.")
      else Ok(c.(image := image))
  }

  /** `EditEvent`: an event without an id is rejected; any other is stored unchanged. */
  function EditEvent(e: Event): (r: Result<Event>)
    ensures r.Ok? <==> e.id != ""
    ensures r.Ok? ==> r.value == e
    ensures r.Err? ==> r.error == "Error updating event: Event must have an _id to update."
  {
    if e.id == "" then Err("Error updating event: Event must have an _id to update.")
    else Ok(e)
  }

  // ---------------------------------------------------------------------------
  // Lookups

  /** The index of the first account with this username (the query's `[0]`). */
  function FirstWithUsername(accounts: seq<Account>, username: string): (r: Option<nat>)
    ensures r.None? <==> forall i :: 0 <= i < |accounts| ==> accounts[i].username != username
    ensures r.Some? ==> r.value < |accounts| && accounts[r.value].username == username
                        && forall i :: 0 <= i < r.value ==> accounts[i].username != username
  {
    if |accounts| == 0 then None
    else if accounts[0].username == username then Some(0)
    else
      match FirstWithUsername(accounts[1..], username)
      case None => None
      case Some(k) => Some(k + 1)
  }

  /** `loginUser`: no matching account or a password that does not verify gives no
      user; otherwise the first matching account itself.  `verifies(password, hash)`
      stands for the bcrypt comparison. */
  function LoginUser(accounts: seq<Account>, email: string, password: string,
                     verifies: (string, string) -> bool): (r: Option<Account>)
    ensures FirstWithUsername(accounts, email).None? ==> r.None?
    ensures r.Some? <==> FirstWithUsername(accounts, email).Some?
                         && verifies(password, accounts[FirstWithUsername(accounts, email).value].password)
    ensures r.Some? ==> r.value == accounts[FirstWithUsername(accounts, email).value]
                        && r.value.username == email && verifies(password, r.value.password)
  {
    match FirstWithUsername(accounts, email)
    case None => None
    case Some(k) => if verifies(password, accounts[k].password) then Some(accounts[k]) else None
  }

  /** Only the first account with the username is tried: a later account with the same
      username and a password that would verify does not log in. */
  lemma OnlyFirstAccountTried(accounts: seq<Account>, email: string, password: string,
                              verifies: (string, string) -> bool)
    requires |accounts| >= 1 && accounts[0].username == email
    requires !verifies(password, accounts[0].password)
    ensures LoginUser(accounts, email, password, verifies).None?
  {
  }

  /** `getCustomerImageById`: the image of the first customer with this id; `None`
      stands for the error thrown when no customer has it. */
  function CustomerImageById(customers: seq<Customer>, id: string): (r: Option<string>)
    ensures r.None? <==> forall i :: 0 <= i < |customers| ==> customers[i].id != id
    ensures r.Some? ==> exists i :: 0 <= i < |customers| && customers[i].id == id && customers[i].image == r.value
  {
    if |customers| == 0 then None
    else if customers[0].id == id then Some(customers[0].image)
    else CustomerImageById(customers[1..], id)
  }
}
