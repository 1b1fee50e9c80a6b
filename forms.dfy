/** The add and edit forms of the back office: each form's validation rules, its
    default values, and the record its submit handler builds.  The validation
    library is modelled by its outcome: the list of issues, one per broken rule, in
    the order of the schema's fields.  Date parsing, ISO rendering and date
    formatting are parameters. */
module Forms {
  import opened Wrappers
  import opened Text
  import opened Records
  import opened Lists
  import Api

  /** The form fields an issue can be reported on (the schemas' keys). */
  datatype Field =
    | Name | Age | City | DateJoin | TotalSpent | Image
    | Title | DateTime | CinemaRef | Location | Capacity
    | EventName | Rating | Message

  /** A validation issue: the field it is reported on and its message. */
  datatype Issue = Issue(path: Field, message: string)

  /** One rule of a schema: no issue when it holds. */
  function Rule(ok: bool, path: Field, message: string): (r: seq<Issue>)
    ensures r == [] <==> ok
    ensures forall x :: x in r <==> !ok && x == Issue(path, message)
  {
    if ok then [] else [Issue(path, message)]
  }

  /** The MIME rule every image field shares. */
  predicate IsImageFile(f: File) {
    StartsWith(f.mimeType, "image/")
  }

  /** An image field: a value that is not a `File` fails `instanceof` and stops there;
      a file must have an image MIME type.  An optional field accepts no value. */
  function ImageIssues(image: Option<File>, required: bool): (r: seq<Issue>)
    ensures r == [] <==> (image.None? ==> !required) && (image.Some? ==> IsImageFile(image.value))
    ensures Issue(Image, "Invalid file type") in r <==> image.None? && required
    ensures Issue(Image, "Must be an image file") in r <==> image.Some? && !IsImageFile(image.value)
  {
    if image.None? then Rule(!required, Image, "Invalid file type")
    else Rule(IsImageFile(image.value), Image, "Must be an image file")
  }

  /** `new Date(val) <= new Date()`: a date that does not parse compares false. */
  predicate NotAfter(t: Option<int>, now: int) {
    t.Some? && t.value <= now
  }

  /** `new Date(val) >= tomorrow`, false as well for a date that does not parse. */
  predicate NotBefore(t: Option<int>, bound: int) {
    t.Some? && t.value >= bound
  }

  /** What a submitted add form leads to: the stored record or the error, and whether
      the modal is still open afterwards. */
  datatype Submitted<T> = Submitted(stored: Result<T>, modalOpen: bool)

  // ---------------------------------------------------------------------------
  // New customer

  datatype CustomerValues = CustomerValues(
    name: string, age: int, city: string, dateJoin: string, totalSpent: int,
    image: Option<File>)

  predicate CustomerValid(v: CustomerValues, instant: string -> Option<int>, now: int) {
    CodeUnits(v.name) >= 2 && v.age >= 15 && CodeUnits(v.city) >= 2 && v.dateJoin != [] &&
    NotAfter(instant(v.dateJoin), now) && v.totalSpent >= 0 &&
    v.image.Some? && IsImageFile(v.image.value)
  }

  /** Every issue of `r` is reported on one of `paths`. */
  predicate OnFields(r: seq<Issue>, paths: set<Field>) {
    forall x :: x in r ==> x.path in paths
  }

  /** The rules on the customer's name, age and city. */
  function ProfileIssues(v: CustomerValues): (r: seq<Issue>)
    ensures r == [] <==> CodeUnits(v.name) >= 2 && v.age >= 15 && CodeUnits(v.city) >= 2
    ensures OnFields(r, {Name, Age, City})
    ensures Issue(Name, "Name must be at least 2 characters.") in r <==> CodeUnits(v.name) < 2
    ensures Issue(Age, "Age must be at least 15.") in r <==> v.age < 15
    ensures Issue(City, "City must be at least 2 characters.") in r <==> CodeUnits(v.city) < 2
  {
    Rule(CodeUnits(v.name) >= 2, Name, "Name must be at least 2 characters.") +
    Rule(v.age >= 15, Age, "Age must be at least 15.") +
    Rule(CodeUnits(v.city) >= 2, City, "City must be at least 2 characters.")
  }

  /** The length rules count UTF-16 code units, as `.min(2)` does: a name of one
      character above U+FFFF (an emoji, say) is long enough. */
  lemma AstralNameAccepted(v: CustomerValues)
    requires |v.name| == 1 && v.name[0] as int > 0xFFFF
    ensures Issue(Name, "Name must be at least 2 characters.") !in ProfileIssues(v)
  {
    assert v.name == [v.name[0]];
    AstralCharIsTwoUnits(v.name[0]);
  }

  /** The rules on the join date: present, and not after `now`. */
  function DateJoinIssues(v: CustomerValues, instant: string -> Option<int>, now: int): (r: seq<Issue>)
    ensures r == [] <==> v.dateJoin != [] && NotAfter(instant(v.dateJoin), now)
    ensures OnFields(r, {DateJoin})
    ensures Issue(DateJoin, "Date and Time is required") in r <==> v.dateJoin == []
    ensures Issue(DateJoin, "Date cannot be in the future.") in r <==> !NotAfter(instant(v.dateJoin), now)
  {
    Rule(v.dateJoin != [], DateJoin, "Date and Time is required") +
    Rule(NotAfter(instant(v.dateJoin), now), DateJoin, "Date cannot be in the future.")
  }

  /** The rules on the amount spent and the picture. */
  function SpendIssues(v: CustomerValues): (r: seq<Issue>)
    ensures r == [] <==> v.totalSpent >= 0 && v.image.Some? && IsImageFile(v.image.value)
    ensures OnFields(r, {TotalSpent, Image})
    ensures Issue(TotalSpent, "Total spent must be at least 0.") in r <==> v.totalSpent < 0
    ensures Issue(Image, "Invalid file type") in r <==> v.image.None?
  {
    Rule(v.totalSpent >= 0, TotalSpent, "Total spent must be at least 0.") +
    ImageIssues(v.image, true)
  }

  /** The new-customer schema, judged at the instant `now`. */
  function CustomerIssues(v: CustomerValues, instant: string -> Option<int>, now: int): (r: seq<Issue>)
    ensures r == [] <==> CustomerValid(v, instant, now)
    ensures Issue(DateJoin, "Date cannot be in the future.") in r <==> !NotAfter(instant(v.dateJoin), now)
    ensures Issue(Age, "Age must be at least 15.") in r <==> v.age < 15
    ensures Issue(TotalSpent, "Total spent must be at least 0.") in r <==> v.totalSpent < 0
  {
    var profile, date, spend := ProfileIssues(v), DateJoinIssues(v, instant, now), SpendIssues(v);
    IssuesOfThree(profile, date, spend, Issue(DateJoin, "Date cannot be in the future."));
    IssuesOfThree(profile, date, spend, Issue(Age, "Age must be at least 15."));
    IssuesOfThree(profile, date, spend, Issue(TotalSpent, "Total spent must be at least 0."));
    profile + date + spend
  }

  /** The issues of two rule groups together: none iff none in each, and an issue is
      among them iff it is in one of the groups. */
  lemma IssuesOfTwo(a: seq<Issue>, b: seq<Issue>, x: Issue)
    ensures a + b == [] <==> a == [] && b == []
    ensures x in a + b <==> x in a || x in b
  {
  }

  /** The issues of three rule groups together: none iff none in each, and an issue is
      among them iff it is in one of the groups. */
  lemma IssuesOfThree(a: seq<Issue>, b: seq<Issue>, c: seq<Issue>, x: Issue)
    ensures a + b + c == [] <==> a == [] && b == [] && c == []
    ensures x in a + b + c <==> x in a || x in b || x in c
  {
  }

  /** The defaults: age 15, nothing spent, and `dateJoin` the text `tomorrowInput`,
      which is `toISOString().slice(0, 16)` of the local midnight starting tomorrow:
      that midnight written in UTC, which the date input then reads as local time. */
  function CustomerDefaults(tomorrowInput: string): CustomerValues {
    CustomerValues("", 15, "", tomorrowInput, 0, None)
  }

  /** The default age and amount satisfy their rules.  Whether the default join date
      passes the no-future rule depends on the time zone: read back as local time it
      lies after the current instant at UTC and west of it, so it is rejected; east of
      UTC it lies that many hours before midnight, and in those last hours of the day it
      is already past and accepted (CustomerDefaultsAcceptedLate). */
  lemma CustomerDefaultsJudged(tomorrowInput: string, instant: string -> Option<int>, now: int)
    requires instant(tomorrowInput).Some? && instant(tomorrowInput).value > now
    ensures var r := CustomerIssues(CustomerDefaults(tomorrowInput), instant, now);
            Issue(Age, "Age must be at least 15.") !in r &&
            Issue(TotalSpent, "Total spent must be at least 0.") !in r &&
            Issue(DateJoin, "Date cannot be in the future.") in r
  {
  }

  /** When the default join date reads back as an instant at or before now, the
      defaults raise no issue with the age, the amount or the join date. */
  lemma CustomerDefaultsAcceptedLate(tomorrowInput: string, instant: string -> Option<int>, now: int)
    requires tomorrowInput != [] && instant(tomorrowInput).Some? && instant(tomorrowInput).value <= now
    ensures var r := CustomerIssues(CustomerDefaults(tomorrowInput), instant, now);
            Issue(Age, "Age must be at least 15.") !in r &&
            Issue(TotalSpent, "Total spent must be at least 0.") !in r &&
            DateJoinIssues(CustomerDefaults(tomorrowInput), instant, now) == []
  {
  }

  /** `onSubmit`: the values with `_type "customer"` and the join date in ISO form. */
  function CustomerSubmission(v: CustomerValues, toIso: string -> string): (r: NewCustomer)
    requires v.image.Some?
    ensures r.kind == "customer" && r.dateJoin == toIso(v.dateJoin)
    ensures r.name == v.name && r.age == AgeNumber(v.age) && r.city == v.city
    ensures r.totalSpent == v.totalSpent && r.image == v.image.value
  {
    NewCustomer("customer", v.name, AgeNumber(v.age), v.image.value, v.city, toIso(v.dateJoin), v.totalSpent)
  }

  /** Submitting valid values: the modal closes only when the add succeeds, and then
      the stored customer carries the submitted values and the uploaded image. */
  function SubmitCustomer(v: CustomerValues, toIso: string -> string, uuid: string,
                          upload: Result<string>): (r: Submitted<Customer>)
    requires v.image.Some?
    ensures r.modalOpen <==> r.stored.Err?
    ensures r.stored.Ok? <==> upload.Ok?
    ensures r.stored.Ok? ==>
              var c := r.stored.value;
              c.kind == "customer" && c.id == "customer_" + uuid && c.image == upload.value &&
              c.name == v.name && c.age == AgeNumber(v.age) && c.city == v.city &&
              c.dateJoin == toIso(v.dateJoin) && c.totalSpent == v.totalSpent
  {
    var stored := Api.AddNewCustomer(CustomerSubmission(v, toIso), uuid, upload);
    assert stored.Ok? ==> stored.value.id == stored.value.id[..9] + stored.value.id[9..];
    Submitted(stored, stored.Err?)
  }

  // ---------------------------------------------------------------------------
  // New event

  datatype EventValues = EventValues(title: string, dateTime: string, cinemaRef: string)

  predicate EventValid(v: EventValues, instant: string -> Option<int>, tomorrow: int) {
    CodeUnits(v.title) >= 2 && v.dateTime != [] && NotBefore(instant(v.dateTime), tomorrow) &&
    CodeUnits(v.cinemaRef) >= 1
  }

  /** The new-event schema; `tomorrow` is the local midnight after the module was
      loaded. */
  function EventIssues(v: EventValues, instant: string -> Option<int>, tomorrow: int): (r: seq<Issue>)
    ensures r == [] <==> EventValid(v, instant, tomorrow)
    ensures Issue(Title, "Title must be at least 2 characters.") in r <==> CodeUnits(v.title) < 2
    ensures Issue(DateTime, "Date and Time is required") in r <==> v.dateTime == []
    ensures Issue(DateTime, "Date must be tomorrow or later.") in r <==>
              !NotBefore(instant(v.dateTime), tomorrow)
    ensures Issue(CinemaRef, "Cinema selection is required.") in r <==> v.cinemaRef == []
  {
    Rule(CodeUnits(v.title) >= 2, Title, "Title must be at least 2 characters.") +
    Rule(v.dateTime != [], DateTime, "Date and Time is required") +
    Rule(NotBefore(instant(v.dateTime), tomorrow), DateTime, "Date must be tomorrow or later.") +
    Rule(CodeUnits(v.cinemaRef) >= 1, CinemaRef, "Cinema selection is required.")
  }

  /** The name of the first cinema with this id, or the empty string when none has it. */
  function SelectedCinemaName(cinemas: seq<Cinema>, id: string): (name: string)
    ensures (forall i :: 0 <= i < |cinemas| ==> cinemas[i].id != id) ==> name == ""
    ensures (exists i :: 0 <= i < |cinemas| && cinemas[i].id == id) ==>
              exists i :: 0 <= i < |cinemas| && cinemas[i].id == id && name == cinemas[i].name &&
                          forall j :: 0 <= j < i ==> cinemas[j].id != id
  {
    match Find(cinemas, (c: Cinema) => c.id == id)
    case None => ""
    case Some(c) => c.name
  }

  /** The description an event is given: `Showing of <title> at <place> on <when>`. */
  function Showing(title: string, place: string, when: string): string {
    "Showing of " + title + " at " + place + " on " + when
  }

  /** `onSubmit`: an event with an empty id, the date in ISO form, a reference to the
      chosen cinema and a description naming it. */
  function EventSubmission(v: EventValues, cinemas: seq<Cinema>, toIso: string -> string,
                           format: string -> string): (r: Event)
    ensures r.id == "" && r.kind == "event" && r.title == v.title
    ensures r.dateTime == toIso(v.dateTime)
    ensures r.cinema == Reference("reference", v.cinemaRef)
    ensures r.description == Showing(v.title, SelectedCinemaName(cinemas, v.cinemaRef), format(r.dateTime))
  {
    var iso := toIso(v.dateTime);
    Event("", "event", v.title, iso, Reference("reference", v.cinemaRef),
          Showing(v.title, SelectedCinemaName(cinemas, v.cinemaRef), format(iso)))
  }

  /** The stored event is the submitted one under a fresh `event` id. */
  lemma SubmittedEventStored(v: EventValues, cinemas: seq<Cinema>, toIso: string -> string,
                             format: string -> string, uuid: string)
    ensures var e := EventSubmission(v, cinemas, toIso, format);
            Api.AddEvent(e, uuid) == e.(id := "event" + uuid)
  {
    var e := EventSubmission(v, cinemas, toIso, format);
    var stored := Api.AddEvent(e, uuid);
    assert stored.id[..5] == "event";
  }

  // ---------------------------------------------------------------------------
  // New and edited cinema

  datatype CinemaValues = CinemaValues(name: string, location: string, capacity: int, image: Option<File>)

  predicate CinemaValid(v: CinemaValues, imageRequired: bool) {
    CodeUnits(v.name) >= 2 && CodeUnits(v.location) >= 2 && v.capacity >= 10 &&
    (v.image.None? ==> !imageRequired) && (v.image.Some? ==> IsImageFile(v.image.value))
  }

  /** The cinema schema: the image is required when adding and optional when editing. */
  function CinemaIssues(v: CinemaValues, imageRequired: bool): (r: seq<Issue>)
    ensures r == [] <==> CinemaValid(v, imageRequired)
    ensures Issue(Name, "name must be at least 2 characters.") in r <==> CodeUnits(v.name) < 2
    ensures Issue(Location, "location must be at least 2 characters.") in r <==> CodeUnits(v.location) < 2
    ensures Issue(Capacity, "Cinema must have at least 10 seats!") in r <==> v.capacity < 10
    ensures Issue(Image, "Invalid file type") in r <==> v.image.None? && imageRequired
  {
    Rule(CodeUnits(v.name) >= 2, Name, "name must be at least 2 characters.") +
    Rule(CodeUnits(v.location) >= 2, Location, "location must be at least 2 characters.") +
    Rule(v.capacity >= 10, Capacity, "Cinema must have at least 10 seats!") +
    ImageIssues(v.image, imageRequired)
  }

  function NewCinemaDefaults(): CinemaValues {
    CinemaValues("", "", 10, None)
  }

  /** The default capacity satisfies the capacity rule. */
  lemma NewCinemaDefaultCapacity()
    ensures Issue(Capacity, "Cinema must have at least 10 seats!") !in CinemaIssues(NewCinemaDefaults(), true)
  {
  }

  /** `onSubmit` of the new-cinema form: the values plus `_type "cinema"`. */
  function CinemaSubmission(v: CinemaValues): (r: NewCinema)
    requires v.image.Some?
    ensures r.kind == "cinema" && r.id.None?
    ensures r.name == v.name && r.location == v.location && r.capacity == v.capacity
    ensures r.image == v.image.value
  {
    NewCinema(None, "cinema", v.name, v.location, v.capacity, v.image.value)
  }

  /** A submitted cinema is stored with the form's name, location and capacity, a fresh
      `cinema_` id, the uploaded image and no prices yet. */
  lemma SubmittedCinemaStored(v: CinemaValues, uuid: string, url: string)
    requires v.image.Some?
    ensures var r := Api.AddNewCinema(CinemaSubmission(v), uuid, Ok(url));
            r.Ok? && r.value == Cinema("cinema_" + uuid, "cinema", v.name, v.location, v.capacity,
                                       Url(url), 0, 0, 0)
  {
  }

  /** The edit form starts from the cinema's own name, location and capacity, with no
      new image picked. */
  function EditCinemaDefaults(data: Cinema): CinemaValues {
    CinemaValues(data.name, data.location, data.capacity, None)
  }

  /** `onSubmit` of the edit form: the original cinema under the edited values, with a
      newly picked image or else the original one. */
  function EditCinemaMerge(data: Cinema, v: CinemaValues): (r: Cinema)
    ensures r.id == data.id && r.kind == data.kind
    ensures r.executivePrice == data.executivePrice && r.premierPrice == data.premierPrice
            && r.classicPrice == data.classicPrice
    ensures r.name == v.name && r.location == v.location && r.capacity == v.capacity
    ensures r.image == if v.image.Some? then Picked(v.image.value) else data.image
  {
    data.(name := v.name, location := v.location, capacity := v.capacity,
          image := if v.image.Some? then Picked(v.image.value) else data.image)
  }

  /** Submitting the defaults untouched gives the original cinema back. */
  lemma EditCinemaDefaultsChangeNothing(data: Cinema)
    ensures EditCinemaMerge(data, EditCinemaDefaults(data)) == data
  {
  }

  /** The defaults pass the edit schema exactly when the stored cinema already meets
      the name, location and capacity rules. */
  lemma EditCinemaDefaultsValid(data: Cinema)
    ensures CinemaIssues(EditCinemaDefaults(data), false) == [] <==>
              CodeUnits(data.name) >= 2 && CodeUnits(data.location) >= 2 && data.capacity >= 10
  {
  }

  /** What the store keeps of an edit of a stored cinema (whose image is a URL): the
      edit fails without an id or when the new image does not upload; otherwise the
      edited values with the new image's URL, or the old image, and all else as it
      was. */
  lemma EditedCinemaStored(data: Cinema, v: CinemaValues, upload: Result<string>)
    requires data.image.Url?
    ensures var r := Api.EditCinema(EditCinemaMerge(data, v), upload);
            (r.Ok? <==> data.id != "" && (v.image.Some? ==> upload.Ok?)) &&
            (r.Ok? ==> r.value == data.(name := v.name, location := v.location, capacity := v.capacity,
                                        image := if v.image.Some? then Url(upload.value) else data.image))
  {
  }

  // ---------------------------------------------------------------------------
  // Edited event

  datatype EventEditValues = EventEditValues(dateTime: string, cinemaRef: string)

  /** The edit schema only asks for a date and a cinema: it has no date bound. */
  function EventEditIssues(v: EventEditValues): (r: seq<Issue>)
    ensures r == [] <==> v.dateTime != [] && v.cinemaRef != []
    ensures Issue(DateTime, "Date and Time is required") in r <==> v.dateTime == []
    ensures Issue(CinemaRef, "Cinema selection is required") in r <==> v.cinemaRef == []
  {
    Rule(v.dateTime != [], DateTime, "Date and Time is required") +
    Rule(v.cinemaRef != [], CinemaRef, "Cinema selection is required")
  }

  /** The defaults: the event's date, rendered for the date input by `toInput`, and its
      cinema reference. */
  function EventEditDefaults(data: Event, toInput: string -> string): EventEditValues {
    EventEditValues(toInput(data.dateTime), data.cinema.ref)
  }

  /** `onSubmit` of the edit form: the event with the new date in ISO form, a reference
      to the chosen cinema, and a description that spells the reference with spaces for
      hyphens and breaks the line before ` on `. */
  function EventEditMerge(data: Event, v: EventEditValues, toIso: string -> string,
                          format: string -> string): (r: Event)
    ensures r.id == data.id && r.kind == data.kind && r.title == data.title
    ensures r.dateTime == toIso(v.dateTime)
    ensures r.cinema == Reference("reference", v.cinemaRef)
    ensures r.description == "Showing of " + data.title + " at " + ReplaceChar(v.cinemaRef, '-', ' ') +
                             "\n on " + format(toIso(v.dateTime))
  {
    var iso := toIso(v.dateTime);
    data.(dateTime := iso,
          description := "Showing of " + data.title + " at " + HyphensToSpaces(v.cinemaRef) +
                         "\n on " + format(iso),
          cinema := Reference("reference", v.cinemaRef))
  }

  /** Submitting the default cinema keeps the event's reference. */
  lemma EventEditKeepsCinema(data: Event, toInput: string -> string, toIso: string -> string,
                             format: string -> string)
    requires data.cinema.kind == "reference"
    ensures EventEditMerge(data, EventEditDefaults(data, toInput), toIso, format).cinema == data.cinema
  {
  }

  /** The store accepts the edited event exactly when the original had an id, and then
      keeps it as submitted. */
  lemma EditedEventStored(data: Event, v: EventEditValues, toIso: string -> string,
                          format: string -> string)
    ensures var e := EventEditMerge(data, v, toIso, format);
            (Api.EditEvent(e).Ok? <==> data.id != "") && (Api.EditEvent(e).Ok? ==> Api.EditEvent(e).value == e)
  {
  }
}
