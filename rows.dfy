/** The rows of the reviews and events tables: a review's photo cell and star rating,
    an event's struck-through state and cinema label, and the ids the remove buttons
    send. */
module Rows {
  import opened Wrappers
  import opened Text
  import opened Records
  import Api
  import Queries

  const StarCount := 5

  /** The first `n` stars of a rating: star `i` is filled exactly when `i < rating`. */
  function StarsUpTo(n: nat, rating: int): (r: seq<bool>)
    ensures |r| == n
    ensures forall i :: 0 <= i < n ==> (r[i] <==> i < rating)
    decreases n
  {
    if n == 0 then [] else StarsUpTo(n - 1, rating) + [n - 1 < rating]
  }

  /** The five stars of a review row. */
  function Stars(rating: int): (r: seq<bool>)
    ensures |r| == StarCount
    ensures forall i :: 0 <= i < StarCount ==> (r[i] <==> i < rating)
  {
    StarsUpTo(StarCount, rating)
  }

  function Filled(s: seq<bool>): nat
    decreases |s|
  {
    if s == [] then 0 else Filled(s[..|s| - 1]) + (if s[|s| - 1] then 1 else 0)
  }

  lemma {:induction false} FilledUpTo(n: nat, rating: int)
    ensures Filled(StarsUpTo(n, rating)) == if rating < 0 then 0 else if rating > n then n else rating
    decreases n
  {
    if n > 0 {
      var s := StarsUpTo(n, rating);
      assert s[..n - 1] == StarsUpTo(n - 1, rating);
      FilledUpTo(n - 1, rating);
    }
  }

  /** A rating shows as that many filled stars, clamped to zero and five. */
  lemma FilledStars(rating: int)
    ensures Filled(Stars(rating)) == if rating < 0 then 0 else if rating > StarCount then StarCount else rating
  {
    FilledUpTo(StarCount, rating);
  }

  /** `String(_id)`: a review without an id sends the text "undefined". */
  function ReviewDeleteId(id: Option<string>): (r: string)
    ensures id.Some? ==> r == id.value
    ensures id.None? ==> r == "undefined"
  {
    if id.None? then "undefined" else id.value
  }

  /** The remove button of a review row reaches the store unless the id is empty; a
      review without an id asks to delete the document "undefined". */
  lemma ReviewDeleteReachesStore(review: Review)
    ensures Queries.DeleteRequest(Queries.ReviewDoc, ReviewDeleteId(review.id)).Ok? <==> review.id != Some("")
    ensures review.id.None? ==> Queries.DeleteRequest(Queries.ReviewDoc, ReviewDeleteId(review.id)) == Ok("undefined")
  {
    if review.id.None? {
      assert ReviewDeleteId(review.id) == "undefined";
    }
  }

  /** The name cell of a review row: a spinner while the image loads, then the image
      (absent when the lookup failed), its alt text and the reviewer's name. */
  datatype NameCell = Spinner | Photo(src: Option<string>, alt: string, name: string)

  function ReviewNameCell(review: Review, loading: bool, customers: seq<Customer>): (r: NameCell)
    ensures r.Spinner? <==> loading
    ensures r.Photo? ==> r.alt == review.name + " photo" && r.name == review.name
    ensures r.Photo? ==> (r.src.None? <==> forall i :: 0 <= i < |customers| ==> customers[i].id != review.userId)
  {
    if loading then Spinner
    else Photo(Api.CustomerImageById(customers, review.userId), review.name + " photo", review.name)
  }

  /** With unique customer ids, a loaded row shows the photo of the customer the
      review names by id. */
  lemma ReviewShowsItsCustomer(review: Review, customers: seq<Customer>, c: Customer)
    requires c in customers && c.id == review.userId
    requires forall i :: 0 <= i < |customers| && customers[i].id == c.id ==> customers[i] == c
    ensures ReviewNameCell(review, false, customers) == Photo(Some(c.image), review.name + " photo", review.name)
  {
    var k :| 0 <= k < |customers| && customers[k] == c;
  }

  // ---------------------------------------------------------------------------
  // Events rows

  datatype EventRow = EventRow(
    title: string, cinemaLabel: string, description: string, struck: bool, deleteId: string)

  /** An event row at the moment whose ISO text is `nowIso`: struck through once that
      text is at or after the event's date text. */
  function EventRowOf(e: Event, nowIso: string): (r: EventRow)
    ensures r.title == e.title && r.description == e.description && r.deleteId == e.id
    ensures r.struck <==> LexLe(e.dateTime, nowIso)
    ensures r.cinemaLabel == ReplaceChar(e.cinema.ref, '-', ' ') && '-' !in r.cinemaLabel
  {
    EventRow(e.title, HyphensToSpaces(e.cinema.ref), e.description, LexLe(e.dateTime, nowIso), e.id)
  }

  /** An event that is over stays over as time goes on. */
  lemma DoneStaysDone(e: Event, earlier: string, later: string)
    requires LexLe(earlier, later) && EventRowOf(e, earlier).struck
    ensures EventRowOf(e, later).struck
  {
    LexLeTransitive(e.dateTime, earlier, later);
  }

  /** An event row is struck at the event's own time, and only past or present ones
      are: a moment before the date leaves the row plain. */
  lemma StruckFromItsTime(e: Event, nowIso: string)
    ensures EventRowOf(e, e.dateTime).struck
    ensures LexLe(nowIso, e.dateTime) && nowIso != e.dateTime ==> !EventRowOf(e, nowIso).struck
  {
    LexLeReflexive(e.dateTime);
    if LexLe(nowIso, e.dateTime) && LexLe(e.dateTime, nowIso) {
      LexLeAntisymmetric(nowIso, e.dateTime);
    }
  }

  /** The remove button of an event row deletes it by its id, refused for an empty
      id. */
  lemma EventDeleteReachesStore(e: Event, nowIso: string)
    ensures Queries.DeleteRequest(Queries.EventDoc, EventRowOf(e, nowIso).deleteId).Ok? <==> e.id != ""
  {
  }

  /** The row's edit modal: closed at first, opened by the edit button and closed by
      the form. */
  class EventRowModal {
    var open: bool

    constructor()
      ensures !open
    {
      open := false;
    }

    method Edit()
      modifies this
      ensures open
    {
      open := true;
    }

    /** The edit form's `setOpenModal(false)`, called right after it submits. */
    method Close()
      modifies this
      ensures !open
    {
      open := false;
    }
  }
}
