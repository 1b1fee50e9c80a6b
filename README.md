# Ticketers admin — a Dafny model

Ticketers admin is the back office of a cinema-ticketing service. Administrators log in,
browse paged lists of customers and events, search them, add and edit customers,
cinemas, events and reviews, set a cinema's ticket prices, and read dashboard charts.
The documents live in a hosted content store. The views read them through a query cache
that mutations invalidate.

This project models the logic of those screens and proves properties about it:

- `api.dfy`: the data-access layer. It covers the paged queries (ten documents a page and
  the falsy-page rule), the documents the create and edit calls build, the error paths,
  and the login lookup.
- `queries.dfy`: the query hooks. It covers cache keys, which keys each mutation
  invalidates (with the page loop as a method on a cache class), the delete guards, and
  the sorted queries.
- `sorting.dfy`: an in-place insertion sort on an array, used for every `Array.prototype.sort`.
- `pagination.dfy`: the pagination bar. It models the window of page buttons with the
  exact `slice` semantics, the shortcuts and ellipses, and the navigation targets.
- `auth.dfy`, `base64.dfy`, `sanity.dfy`: the session. It covers the provider's user
  state, session storage, the `btoa`/`atob` token encoding, and the store client's token
  decision.
- `routes.dfy`: the route table and its two guards.
- `charts.dfy`, `dashboard.dfy`: the chart cards and the dashboard's group-by series.
- `forms.dfy`, `review_form.dfy`, `price_settings.dfy`: the forms' validation rules,
  default values and submitted records. They include the review form's search-and-pick
  state and the price settings state.
- `pages.dfy`, `rows.dfy`: the customers and events pages and tables, and the review and
  event rows.
- `text.dfy`, `lists.dfy`, `records.dfy`, `wrappers.dfy`: the JavaScript string and array
  operations the views rely on, the document types, and `Option`/`Result`.

## Modelling conventions

- The store, uuids, bcrypt, the clock, date parsing and formatting, and image uploads are
  not modelled as such. They are parameters:
  - the ordered documents a query matches;
  - a uuid string;
  - a password-verification predicate;
  - `now`, `tomorrow` and `currentYear` integers;
  - `instant`, `toIso`, `format`, `toInput`, `dateOf` and `monthName` functions;
  - an upload `Result`.
- A thrown error is the `Err` case of a `Result`. A value that can be absent is an `Option`.
- `toLowerCase` lowers ASCII letters only. `localeCompare` is code-point lexicographic
  order. `Number(text)` ignores surrounding white space and reads an optionally signed
  run of decimal digits. Blank text gives 0, and any other text gives `NaN` (as `None`).
  `parseInt` and `Number` skip the white space ECMAScript defines, Unicode space
  separators included.
- A Dafny `char` is a Unicode code point, while a JavaScript string is a sequence of
  UTF-16 code units. A string's `length`, which the forms' `.min(n)` rules check, is
  therefore `Text.CodeUnits`: a character above U+FFFF counts two.
- A store query's slice `[start...end]` follows GROQ: a negative bound counts from the
  end of the list, bounds are clipped to the list, and an end before the start gives
  nothing.
- React state is modelled two ways. Where a component updates it step by step, it is a
  class whose methods change its fields. An effect runs as part of the action that
  changes its dependencies.

## Model

| member | source | states |
|---|---|---|
| Api.PageRange | src/lib/api.ts:41-46 | A page gives the slice of exactly ten documents; no page, or page 0, gives no slice. |
| Api.SliceBound | src/lib/api.ts:44-46 | A slice bound is clipped to the list, and a negative one counts from the end of the list. |
| Api.Fetch | src/lib/api.ts:44-50 | With no slice the whole ordered list comes back. With one, the answer is the run of documents starting at the start bound, exactly as long as the end bound is past the start bound (none when it is not), and so no longer than the slice when both bounds have the same sign. |
| Api.PageOfOrdered | src/lib/api.ts:41-46 | Page `p` holds the documents at offsets `(p-1)*10` up to ten further, in the query's order. |
| Api.NegativePageFromEnd | src/lib/api.ts:195-199 | A negative page counts from the end of the list: page `p` holds up to ten documents from offset `n + (p-1)*10`. |
| Api.EveryDocumentOnItsPage | src/lib/api.ts:41-46 | The document at offset `i` is on page `i/10+1`, at position `i%10`. |
| Api.NoPageFetchesAll | src/lib/api.ts:195-202 | For customers and events alike, a missing or zero page fetches the whole ordered list. |
| Api.NewCustomerDocument | src/lib/api.ts:74-79 | The stored customer has type `customer`, the id `customer_` followed by the uuid, and the uploaded image URL; the form values are kept. |
| Api.AddNewCustomer | src/lib/api.ts:71-86 | The customer is stored exactly when the image upload succeeds; a failed upload gives the wrapped error message. |
| Api.PrefixedIdsDistinct | src/lib/api.ts:77 | Distinct uuids give distinct prefixed ids. |
| Api.NewCinemaDocument | src/lib/api.ts:120-128 | The stored cinema has type `cinema`, the id `cinema_` followed by the uuid, the image URL, and all three prices at zero. |
| Api.AddNewCinema | src/lib/api.ts:117-136 | The cinema is stored exactly when the upload succeeds; otherwise the "Error adding fake cinema" message. |
| Api.AddEvent | src/lib/api.ts:225-231 | The id becomes `event` followed by the uuid, replacing any id; nothing else changes. |
| Api.AddNewReview | src/lib/api.ts:270-278 | A missing review is rejected with "No review provided"; otherwise the review gets type `review` and the id `review` followed by the uuid. |
| Api.EditCinema | src/lib/api.ts:152-173 | A picked image is uploaded first. The update succeeds iff the cinema has an id and any upload succeeded. On success only the image field changes, and it becomes a URL. |
| Api.EditEvent | src/lib/api.ts:240-253 | An event without an id is rejected with the documented message; any other is stored unchanged. |
| Api.FirstWithUsername | src/lib/api.ts:303-304 | The first account with the username, or none exists. |
| Api.LoginUser | src/lib/api.ts:297-317 | A user is returned iff an account has the username and its password verifies; that user is the first such account. |
| Api.OnlyFirstAccountTried | src/lib/api.ts:303-308 | When the first account with the username rejects the password, login fails even if a later account would accept it. |
| Api.CustomerImageById | src/lib/api.ts:88-100 | The image of a customer with the id; the lookup fails exactly when no customer has it. |
| Queries.ListKey | src/hooks/useQueries.ts:280 | A list's key is `[name, page]` for a truthy page and `[name]` otherwise; the customers and events lists use it. |
| Queries.CustomerImageKeyCollides | src/hooks/useQueries.ts:363-368 | The image query of a customer named "reviews" or "customers" shares the reviews list's or the unpaged customer list's cache key. |
| Queries.PageKeys | src/hooks/useQueries.ts:228-233 | The loop invalidates `[name, p]` for `p` from 1 to the page count, in order, and nothing when the count is below 1. |
| Queries.MarkStale | src/hooks/useQueries.ts:63-66 | Invalidating a prefix keeps the cached keys and marks stale exactly the entries whose key starts with it. |
| Queries.MarkAllStaleMeaning | src/hooks/useQueries.ts:228-237 | After a run of invalidations an entry is stale iff it was stale before or one of the prefixes starts its key. |
| Queries.MarkAllStaleConcat | src/hooks/useQueries.ts:228-237 | Invalidating two runs of prefixes one after the other is invalidating their concatenation. |
| Queries.QueryCache.InvalidatePages | src/hooks/useQueries.ts:228-233 | The page loop leaves the cache as invalidating every page key in turn. |
| Queries.QueryCache.OnSuccess | src/hooks/useQueries.ts:59-361 | A mutation's success handler leaves the cache as invalidating that mutation's keys. |
| Queries.AddCustomerStaleness | src/hooks/useQueries.ts:224-237 | After adding a customer, a fresh entry goes stale iff it is a customers page from 1 to the page count, or the count. The unpaged list and later pages stay fresh. |
| Queries.AddEventStaleness | src/hooks/useQueries.ts:250-263 | The same for events: pages 1 to the page count and the count go stale, and the unpaged list stays fresh. |
| Queries.DeleteCustomerRefreshesLists | src/hooks/useQueries.ts:109-117 | Deleting a customer makes every customer list, paged or not, and the count stale. |
| Queries.AddReviewRefreshesLists | src/hooks/useQueries.ts:342-350 | Adding a review makes the reviews and every customer list stale. |
| Queries.CinemaMutationsTouchOnlyCinemas | src/hooks/useQueries.ts:59-221 | Adding, editing or deleting a cinema changes only entries under `["cinemas"]`. |
| Queries.DeleteRequest | src/hooks/useQueries.ts:78-80 | A delete reaches the store iff the id is non-empty; an empty id gives "<Kind> ID is required for deletion." |
| Queries.UseLogin | src/hooks/useQueries.ts:38-44 | Login fails with "Invalid credentials" exactly when no user comes back. |
| Queries.ByNameTotalPreorder | src/hooks/useQueries.ts:283 | Comparing names is a total preorder. |
| Queries.SortCustomers | src/hooks/useQueries.ts:281-284 | The fetched customers come back sorted by name and as a permutation of the fetched list. |
| Queries.SortEvents | src/hooks/useQueries.ts:300-305 | The fetched events come back in ascending order of their date's instant, as a permutation. |
| Queries.SortReviews | src/hooks/useQueries.ts:329-333 | The fetched reviews come back with the highest rating first, as a permutation. |
| Sorting.SortInPlace | src/hooks/useQueries.ts:283 | Sorting an array in place by a total preorder yields an ordered permutation of its contents. |
| Sorting.InsertNext | src/hooks/useQueries.ts:283 | Moving the next element into the sorted prefix extends it by one and keeps the contents. |
| Sorting.SortedCopy | src/hooks/useQueries.ts:283 | A sorted permutation of the input sequence. |
| Pagination.Pages | src/components/PaginationButtons.tsx:24 | The numbers 1 to the page count, or none for a non-positive count. |
| Pagination.SliceIndex | src/components/PaginationButtons.tsx:61-65 | `slice` clamps an index to the list and counts a negative one from the end. |
| Pagination.Slice | src/components/PaginationButtons.tsx:61-65 | `slice(start, end)` is the part between the two resolved indices, or empty. |
| Pagination.WindowRange | src/components/PaginationButtons.tsx:61-65 | The window is the run of consecutive pages from `max(1, c-2)` to its last page. |
| Pagination.WindowBounds | src/components/PaginationButtons.tsx:61-65 | For `c >= -2` the window holds at most five ascending pages within `1..t`, including `c` when it is a page. |
| Pagination.WindowOfNegativePage | src/components/PaginationButtons.tsx:63-64 | A very negative current page breaks the five-page bound: with twenty pages and `c = -5` seventeen pages show. |
| Pagination.Target | src/components/PaginationButtons.tsx:25-28 | Every navigation target starts with `/<pageName>?page=`. |
| Pagination.TargetCarriesPage | src/components/PaginationButtons.tsx:27 | The target's query parameter parses back to its page, so two pages' targets are equal iff the pages are. |
| Pagination.WindowButtons | src/components/PaginationButtons.tsx:66-81 | One button per window page; each targets its page; the current one is marked and disabled. |
| Pagination.ShownPagesAscending | src/components/PaginationButtons.tsx:41-101 | The page numbers on the bar strictly ascend, so no page shows twice, not even as a shortcut. |
| Pagination.GapsAndShortcuts | src/components/PaginationButtons.tsx:41-101 | For a page in range, each ellipsis shows iff pages between the shortcut and the window are hidden. Each shortcut shows iff its page is outside the window. |
| Pagination.EveryPageAccounted | src/components/PaginationButtons.tsx:41-101 | Every page from 1 to `t` has a button or lies in a gap an ellipsis marks. |
| Pagination.RenderControls | src/components/PaginationButtons.tsx:33-107 | Previous and Next target the neighbouring pages and are disabled on the first and last. Every page button targets its page, and only the current page's button is disabled. |
| Pagination.CurrentMarkedOnce | src/components/PaginationButtons.tsx:70 | Exactly one window button is marked current when `c` is a page, and none otherwise. |
| Base64.Btoa | src/context/AuthContext.tsx:71 | `btoa` fails exactly when a character is above 255. |
| Base64.BytesOf | src/context/AuthContext.tsx:72 | Sextets decode to three bytes per group of four, and a final group of two or three gives one or two bytes. |
| Base64.Cleaned | src/context/AuthContext.tsx:72 | The input without ASCII whitespace, and without one or two final `=` when the length is a multiple of four. |
| Base64.Atob | src/context/AuthContext.tsx:72 | Fails with `InvalidCharacterError` exactly when the cleaned input leaves one character in its last group or holds a character outside the alphabet. Otherwise it gives the bytes of the cleaned input's sextets, three per four characters. |
| Base64.BtoaLength | src/context/AuthContext.tsx:71 | The encoding comes in whole groups of four characters. |
| Base64.DecodeEncode | src/context/AuthContext.tsx:71-72 | Decoding the encoding of any Latin-1 text gives the text back. |
| Auth.DecodeEncodeToken | src/context/AuthContext.tsx:71-72 | A stored token decodes back to the token. |
| Auth.ToStore | src/context/AuthContext.tsx:44-48 | The stored copy differs from the user only in a truthy token, which is encoded. Storing fails exactly when that token is not Latin-1. |
| Auth.Load | src/context/AuthContext.tsx:24-38 | An absent or malformed entry gives no user. A user stored with an absent or empty token is restored as stored. One with a truthy token is restored with the decoded token, and gives no user when the token does not decode. |
| Auth.PersistThenLoad | src/context/AuthContext.tsx:24-52 | Persisting a user and loading the entry back restores the same user. |
| Auth.AuthProvider.constructor | src/context/AuthContext.tsx:24-38 | Mounting reads the stored entry once into the user state. |
| Auth.AuthProvider.SetUserAndPersist | src/context/AuthContext.tsx:41-52 | The state is set first. A user is written with the encoded token; no user removes the entry; a failed encoding leaves the state set and the storage unchanged. |
| Auth.AuthProvider.Logout | src/context/AuthContext.tsx:54-56 | Logging out clears the user and removes the stored entry. |
| Auth.PersistAndRemount | src/context/AuthContext.tsx:41-56 | A user persisted by one provider is the user of a provider mounted later; after logout a new provider has none. |
| Auth.UseAuth | src/context/AuthContext.tsx:74-80 | Outside a provider the hook fails with its message; inside, it gives the context. |
| Sanity.DecideIsAdmin | src/lib/sanity.ts:3-12 | The module flag is true exactly when a well-formed stored user has the role `admin`. |
| Sanity.ClientToken | src/lib/sanity.ts:18 | The client gets the API token for an admin and the empty token otherwise. |
| Sanity.TokenChoice | src/lib/sanity.ts:3-18 | No entry, a malformed entry, or a role other than `admin` gives the empty token. |
| Sanity.Client.constructor | src/lib/sanity.ts:13-19 | The client's token is fixed from the storage at creation. |
| Routes.RequireAuth | src/routes/RequireAuth.tsx:5-13 | Without a user, a replacing redirect to `/login` that carries the location; with one, the page. |
| Routes.PublicRoute | src/routes/PublicRoute.tsx:5-13 | With a user, a replacing redirect to `/dashboard`; without one, the page. |
| Routes.ProtectedPage | src/AppRoutes.tsx:39-86 | Exactly the six guarded paths name pages, never the login or not-found page. |
| Routes.Resolve | src/AppRoutes.tsx:28-89 | The not-found page shows exactly for the paths the table does not name. The index and the guarded paths render in the layout. The login page is reached only through the public guard, and each guarded page only through the auth guard. |
| Routes.EachPageOnePath | src/AppRoutes.tsx:28-89 | The table names eight paths, and for a signed-in user each page other than the not-found page is shown at exactly one of them. |
| Routes.GuardsHold | src/AppRoutes.tsx:28-89 | Without a session no path shows a protected page; with one, the login page is never shown and every protected path shows its page. |
| Routes.OnlyPresenceMatters | src/AppRoutes.tsx:28-89 | What a path shows depends on whether a user is present, never on the user's fields. |
| Routes.RedirectsLand | src/AppRoutes.tsx:28-89 | Following one redirect lands a logged-in user on the dashboard and a visitor on the login page. |
| Charts.Histogram | src/components/CustomersChartCard.tsx:33-51 | One pass counts, for each bin, exactly the elements falling in it. |
| Charts.TalliesSum | src/components/CustomersChartCard.tsx:33-51 | The bin tallies add up to the number of elements with a bin. |
| Charts.AgeValue | src/components/CustomersChartCard.tsx:35-38 | A numeric age is used as is; a text age is parsed base 10, and unparseable text is `NaN`. |
| Charts.AgeBin | src/components/CustomersChartCard.tsx:40-50 | Each age lands in exactly one of the five bins, by the documented bounds. |
| Charts.AgeChart | src/components/CustomersChartCard.tsx:25-58 | Five entries in the fixed label order, each the number of customers whose age is in that bin. |
| Charts.AgeChartTotal | src/components/CustomersChartCard.tsx:39-51 | The five counts add up to the number of customers with a parseable age. |
| Charts.MonthChart | src/components/EventsChartCard.tsx:45-64 | Twelve entries `Jan` to `Dec`, each the number of this year's events in that month. |
| Charts.MonthChartTotal | src/components/EventsChartCard.tsx:50-58 | The twelve counts add up to the number of events in the current year. |
| Charts.CountByCinema | src/components/CinemasChartCard.tsx:30-34 | The counts record has a counter exactly for each referenced cinema id, equal to its number of events. |
| Charts.CinemaRows | src/components/CinemasChartCard.tsx:36-41 | The rows are the cinemas mapped to their name and event count, in the cinemas' order, with the zero counts filtered out: one row per cinema with events. |
| Charts.CinemaRowsMembers | src/components/CinemasChartCard.tsx:36-41 | Every cinema with events appears with its count; no row has a zero count; every row is a listed cinema's. |
| Charts.RowsFromCountsAgree | src/components/CinemasChartCard.tsx:36-41 | Building the rows from the counts record gives the rows defined by event counts. |
| Charts.CinemaChart | src/components/CinemasChartCard.tsx:36-47 | The chart is the rows sorted by descending count, as a permutation. |
| Charts.CinemaChartTotal | src/components/CinemasChartCard.tsx:30-41 | With distinct cinema ids the bars add up to at most the number of events. |
| Charts.LatestReviews | src/components/ReviewsChartCard.tsx:17-23 | Nothing before the reviews arrive; then the first five of the fetched list, or all of it when shorter. |
| Dashboard.Bumped | src/hooks/useDashboardData.ts:28 | `(map[key] || 0) + 1` raises that counter by one, adds the key if new, and keeps the others. |
| Dashboard.CountKey | src/hooks/useDashboardData.ts:26-29 | Counting one more key keeps the record equal to the grouping of the keys so far. |
| Dashboard.GroupCount | src/hooks/useDashboardData.ts:25-30 | The entries are the grouping of the keys: each distinct key once, with its number of occurrences, the counts adding up to the number of keys. |
| Dashboard.EventsByMonth | src/hooks/useDashboardData.ts:23-31 | No events give no entries; otherwise the grouping of the events' month names. |
| Dashboard.CustomersByMonth | src/hooks/useDashboardData.ts:33-41 | No customers give no entries; otherwise the grouping of the join months. |
| Dashboard.ReviewsByRating | src/hooks/useDashboardData.ts:43-51 | No reviews give no entries; otherwise the grouping by `String(rating)`. |
| Dashboard.RatingKeysDistinct | src/hooks/useDashboardData.ts:47 | Two ratings share a key exactly when they are equal. |
| Dashboard.FirstError | src/hooks/useDashboardData.ts:58 | `a \|\| b \|\| c` is the first present error, and none iff none is present. |
| Dashboard.UseDashboardData | src/hooks/useDashboardData.ts:6-60 | Loading while any query loads, and the first error. A missing list gives an empty series. A loaded one gives the grouping of its month keys (events, customers) or rating keys (reviews). |
| Forms.Rule | src/components/NewCustomerForm.tsx:31-56 | A rule reports its one issue exactly when its condition fails. |
| Forms.ImageIssues | src/components/NewCustomerForm.tsx:51-55 | A required image that is missing is "Invalid file type"; a picked non-image is "Must be an image file". |
| Forms.ProfileIssues | src/components/NewCustomerForm.tsx:31-40 | The name, age and city rules, each message iff its condition fails; name and city lengths are counted in UTF-16 code units. |
| Forms.AstralNameAccepted | src/components/NewCustomerForm.tsx:32-34 | A name of one character above U+FFFF is two code units long and raises no name issue. |
| Forms.DateJoinIssues | src/components/NewCustomerForm.tsx:41-46 | The date is required and may not be in the future, each message iff its condition fails. |
| Forms.SpendIssues | src/components/NewCustomerForm.tsx:48-55 | Total spent is at least 0 and the image is present and an image file. |
| Forms.CustomerIssues | src/components/NewCustomerForm.tsx:31-56 | No issue iff the values are valid, with name and city lengths in UTF-16 code units; the future-date, age and total-spent messages each iff their rule fails. |
| Forms.CustomerDefaultsJudged | src/components/NewCustomerForm.tsx:70-81 | The defaults pass the age and spend rules. When their join date reads back as after now, it is rejected as in the future. |
| Forms.CustomerDefaultsAcceptedLate | src/components/NewCustomerForm.tsx:70-81 | When the default join date reads back as at or before now, as east of UTC late in the day, the defaults raise no issue with the age, the amount or the date. |
| Forms.CustomerSubmission | src/components/NewCustomerForm.tsx:84-91 | The submitted customer carries the form values, type `customer` and the ISO join date. |
| Forms.SubmitCustomer | src/components/NewCustomerForm.tsx:84-95 | The customer is stored iff the upload succeeds, with the form's fields and a `customer_` id. The modal stays open exactly on failure. |
| Forms.EventIssues | src/components/NewEventForm.tsx:34-47 | No issue iff valid, with the title and cinema lengths in UTF-16 code units; the title, required-date, tomorrow-or-later and cinema messages each iff their rule fails. |
| Forms.SelectedCinemaName | src/components/NewEventForm.tsx:71-73 | The name of the first cinema with the selected id, or empty when none has it. |
| Forms.EventSubmission | src/components/NewEventForm.tsx:75-87 | The event has type `event`, the ISO date, a reference to the cinema, and the description "Showing of … at … on …" with the cinema's name and formatted date. |
| Forms.SubmittedEventStored | src/components/NewEventForm.tsx:68-91 | Storing the submitted event keeps it and gives it the fresh `event` id. |
| Forms.CinemaIssues | src/components/NewCinemaForm.tsx:27-42 | No issue iff valid, with name and location lengths in UTF-16 code units; the name, location, ten-seat and required-image messages each iff their rule fails. |
| Forms.NewCinemaDefaultCapacity | src/components/NewCinemaForm.tsx:58 | The default capacity passes the ten-seat rule. |
| Forms.CinemaSubmission | src/components/NewCinemaForm.tsx:62-69 | The submitted cinema carries the form values, type `cinema`, no id, and the picked file. |
| Forms.SubmittedCinemaStored | src/components/NewCinemaForm.tsx:62-69 | A successful upload stores the cinema with a `cinema_` id, the URL and zero prices. |
| Forms.EditCinemaMerge | src/components/EditCinemaForm.tsx:62-67 | The edit keeps the id, type and prices. It takes the name, location and capacity from the form, and a newly picked image or else the stored one. |
| Forms.EditCinemaDefaultsChangeNothing | src/components/EditCinemaForm.tsx:53-67 | Submitting the defaults unchanged gives back the stored cinema. |
| Forms.EditCinemaDefaultsValid | src/components/EditCinemaForm.tsx:21-60 | The defaults pass validation exactly when the stored cinema meets the rules. |
| Forms.EditedCinemaStored | src/components/EditCinemaForm.tsx:62-70 | An edit of a stored cinema fails iff it has no id or a newly picked image does not upload. Otherwise the store keeps the edited values with the new image's URL, or the old image. |
| Forms.EventEditIssues | src/components/EditEventForm.tsx:19-22 | No issue iff the date and the cinema are given; each message iff missing. |
| Forms.EventEditMerge | src/components/EditEventForm.tsx:43-58 | The edit keeps id, type and title. It takes the ISO date and the cinema reference, and writes the description with the ref's hyphens as spaces and a line break before " on ". |
| Forms.EventEditKeepsCinema | src/components/EditEventForm.tsx:35-53 | Submitting the defaults keeps the event's cinema reference. |
| Forms.EditedEventStored | src/components/EditEventForm.tsx:43-58 | The edited event is stored iff the original has an id, and then exactly as submitted. |
| ReviewForm.ReviewIssues | src/components/NewReviewForm.tsx:38-55 | No issue iff valid, with every text length in UTF-16 code units; the name, rating-bounds and message messages each iff their rule fails. |
| ReviewForm.DefaultRatingAccepted | src/components/NewReviewForm.tsx:104-113 | The default rating of five passes both rating bounds. |
| ReviewForm.CustomerSuggestions | src/components/NewReviewForm.tsx:76-86 | Nothing for an empty term or unloaded customers; otherwise, in order, exactly the customers whose name contains the term, ignoring case. |
| ReviewForm.NameErrorMeaning | src/components/NewReviewForm.tsx:116-125 | The "No customer with this name" error shows iff the term is non-empty and no customer's name matches it. |
| ReviewForm.OwnNameSuggested | src/components/NewReviewForm.tsx:76-125 | Typing a customer's full name suggests that customer and shows no error. |
| ReviewForm.FirstTitleIndex | src/components/NewReviewForm.tsx:96 | `findIndex` by title: the first event with the title, or -1. |
| ReviewForm.UniqueByTitleMeaning | src/components/NewReviewForm.tsx:94-97 | The deduplicated list keeps the input's order and has distinct titles. Every title is kept through its first event. |
| ReviewForm.EventSuggestionsMeaning | src/components/NewReviewForm.tsx:89-102 | The event suggestions are matching events with distinct titles, and every matching title is among them. |
| ReviewForm.ReviewSubmission | src/components/NewReviewForm.tsx:127-135 | The review carries the form values, type `review`, and the id of the first suggestion, or empty. |
| ReviewForm.PickedUserId | src/components/NewReviewForm.tsx:131 | The submitted user id is that of the first customer whose name contains the picked name, not necessarily the picked customer. |
| ReviewForm.FirstSuggestionIsFirstMatch | src/components/NewReviewForm.tsx:79-131 | The first suggestion is the first customer in the list whose name matches. |
| ReviewForm.ReviewFormState.constructor | src/components/NewReviewForm.tsx:68-113 | Empty terms and suggestions, the default values, no error, open. |
| ReviewForm.ReviewFormState.TypeCustomer | src/components/NewReviewForm.tsx:163-168 | A changed term recomputes the suggestions and the error; nothing else changes. |
| ReviewForm.ReviewFormState.PickCustomer | src/components/NewReviewForm.tsx:177-181 | Picking sets the name and term and clears the suggestions; the effect refills them only when the term changed; the error follows. |
| ReviewForm.ReviewFormState.TypeEvent | src/components/NewReviewForm.tsx:204-207 | Typing clears the chosen event name; a changed term recomputes the event suggestions. |
| ReviewForm.ReviewFormState.PickEvent | src/components/NewReviewForm.tsx:217-221 | Picking sets the event name and term; the suggestions are refilled only when the term changed. |
| ReviewForm.ReviewFormState.EditDetails | src/components/NewReviewForm.tsx:104-113 | Editing the cinema, rating and message changes only those values. |
| ReviewForm.ReviewFormState.Submit | src/components/NewReviewForm.tsx:127-135 | Valid values send the review and close the form; invalid values send nothing and leave the form as it is. |
| ReviewForm.PickingTheTypedName | src/components/NewReviewForm.tsx:170-181 | A suggested customer picked after typing a name that differs from the first suggestion's is listed. The pick empties the suggestions, shows "No customer with this name", and sends an empty user id. |
| Settings.WithPrices | src/components/PriceSettings.tsx:33-40 | The three prices are replaced and every other field kept. |
| Settings.FindCinema | src/components/PriceSettings.tsx:18-19 | The first cinema with the selected id, or none exists. |
| Settings.PriceUpdateStored | src/components/PriceSettings.tsx:29-44 | A price update of a stored cinema is stored as sent. |
| Settings.PriceSettings.constructor | src/components/PriceSettings.tsx:11-14 | Nothing selected and every price zero. |
| Settings.PriceSettings.LoadPrices | src/components/PriceSettings.tsx:16-27 | With a loaded list and a selection, a matching cinema's prices are loaded; otherwise the prices stay. |
| Settings.PriceSettings.Select | src/components/PriceSettings.tsx:56-60 | Choosing sets the selection; a new choice loads that cinema's prices. |
| Settings.PriceSettings.SetPrice | src/components/PriceSettings.tsx:83-107 | A disabled input changes nothing; otherwise only the typed tier's price changes. |
| Settings.PriceSettings.Submit | src/components/PriceSettings.tsx:29-44 | Nothing is sent when no cinema has the selected id; otherwise the first such cinema with the three input prices. |
| Settings.SelectThenSubmit | src/components/PriceSettings.tsx:16-44 | With unique ids, a cinema selected and submitted untouched is sent back unchanged. |
| Pages.TotalPages | src/pages/Customers.tsx:18 | `ceil(count/10)`: enough pages for every document, none of them empty, and zero only for no documents. |
| Pages.PagesCoverTheList | src/pages/Customers.tsx:18 | Every page from 1 to the page count holds a document, and every document is on one of those pages. |
| Pages.AddedCustomerRefreshesEveryPage | src/pages/Customers.tsx:60-63 | Adding a customer from the page marks stale every cached page that holds a customer. |
| Pages.AddedEventRefreshesEveryPage | src/pages/Events.tsx:55 | Adding an event from the page marks stale every cached page that holds an event. |
| Pages.CustomersPage | src/pages/Customers.tsx:16 | No or an empty parameter is page 1; any other is read as `Number`, and non-numeric text is `NaN`. |
| Pages.EventsPage | src/pages/Events.tsx:16 | Never 0. It is 1 iff the parameter is absent, zero, one or non-numeric; otherwise it is the number. |
| Pages.PageParameterReadsBack | src/components/PaginationButtons.tsx:27 | The page a pagination link carries, or any non-zero page written by hand, is the page either list page reads back. |
| Pages.PageZero | src/pages/Customers.tsx:16-48 | `?page=0` makes the customers table fetch the whole list, while the events page falls back to page 1. |
| Pages.PageViewOf | src/pages/Customers.tsx:50-63 | The pagination bar shows iff there are more than ten documents and no search. The add form gets the same page count. |
| Pages.TableBody | src/components/EventsTable.tsx:26-67 | Nothing without data, and the not-found row iff no row is left. Otherwise, in order, exactly the rows the filter keeps. |
| Pages.EmptyTermKeepsAll | src/components/CustomersTable.tsx:21-23 | An empty search keeps every fetched row. |
| Pages.EventsTablePage | src/components/EventsTable.tsx:22-24 | While searching, the events table fetches without a page. |
| Pages.EventSearchCoversAll | src/components/EventsTable.tsx:22-28 | A search on the events page shows every matching event, whatever the current page. |
| Pages.CustomerSearchCoversPage | src/components/CustomersTable.tsx:20-23 | A customer search shows only customers of the fetched current page. |
| Rows.Stars | src/components/ReviewTableRow.tsx:35-44 | Five stars; the star at index `i` is filled iff `i` is below the rating. |
| Rows.FilledStars | src/components/ReviewTableRow.tsx:35-44 | The filled stars number the rating clamped to 0..5. |
| Rows.ReviewDeleteId | src/components/ReviewTableRow.tsx:50 | `String(_id)`: the id, or the text "undefined" for a review without one. |
| Rows.ReviewDeleteReachesStore | src/components/ReviewTableRow.tsx:50 | The remove button reaches the store unless the id is empty; a review without an id asks to delete "undefined". |
| Rows.ReviewNameCell | src/components/ReviewTableRow.tsx:11-30 | A spinner iff loading; then the image (missing iff no customer has the review's user id), the alt text "<name> photo", and the name. |
| Rows.ReviewShowsItsCustomer | src/components/ReviewTableRow.tsx:11-30 | With unique ids, a loaded row shows the photo of the customer the review names. |
| Rows.EventRowOf | src/components/EventsTableRow.tsx:12-37 | The row is struck iff the current ISO time is at or after the date text. The cinema label is the ref with hyphens as spaces. Remove sends the event's id. |
| Rows.DoneStaysDone | src/components/EventsTableRow.tsx:12 | An event that is over stays over as time moves on. |
| Rows.StruckFromItsTime | src/components/EventsTableRow.tsx:12 | A row is struck at its own time and not at any earlier time. |
| Rows.EventDeleteReachesStore | src/components/EventsTableRow.tsx:37 | Removing an event reaches the store iff its id is non-empty. |
| Rows.EventRowModal.Edit | src/components/EventsTableRow.tsx:29 | The edit button opens the modal. |
| Rows.EventRowModal.Close | src/components/EditEventForm.tsx:57 | The edit form's close callback closes the modal. |
| Text.CodeUnits | src/components/NewCustomerForm.tsx:32 | A string's `length` is at least its number of characters and at most twice it, and is 0 exactly for the empty string. |
| Text.CodeUnitsConcat | src/components/NewCustomerForm.tsx:32 | The length of a concatenation is the sum of the lengths. |
| Text.CodeUnitsOfBasic | src/components/NewCustomerForm.tsx:32 | The length equals the number of characters iff no character is above U+FFFF. |
| Text.AstralCharIsTwoUnits | src/components/NewCustomerForm.tsx:32 | One character above U+FFFF has length 2. |
| Text.Lower | src/components/NewReviewForm.tsx:80 | Lower-casing keeps the length and maps every character through the ASCII lowering. |
| Text.IncludesIsOccurrence | src/components/NewReviewForm.tsx:80 | `includes` holds iff the term occurs at some position. |
| Text.MatchesEmptyTerm | src/components/EventsTable.tsx:26-28 | Every text matches the empty search term. |
| Text.HyphensToSpaces | src/components/EventsTableRow.tsx:18 | `split("-").join(" ")` replaces each hyphen by a space and leaves none. |
| Text.SplitJoinReplaces | src/components/EditEventForm.tsx:49-51 | Splitting at a character and joining with another is replacing it. |
| Text.ParseInt | src/components/CustomersChartCard.tsx:37 | `parseInt(s, 10)` skips leading white space and takes an optional sign. It is `NaN` iff no digit follows, and otherwise the signed value of the longest run of digits. |
| Text.TrimStartSkips | src/components/CustomersChartCard.tsx:37 | White space in front of a text makes no difference once leading white space is trimmed. |
| Text.ParseIntReadsRendering | src/components/CustomersChartCard.tsx:37 | After any white space, `parseInt` reads an integer's decimal text back, up to the first character that is not a digit. |
| Text.ParseIntOfIntToString | src/components/PaginationButtons.tsx:27 | Parsing a number's decimal text gives the number back. |
| Text.ToNumber | src/pages/Events.tsx:16 | Text that is blank once trimmed is 0, and a digit string is its value. Otherwise the trimmed text is `NaN` unless it is a signed or unsigned run of digits, which gives its signed value. |
| Text.ToNumberSkipsSpace | src/pages/Events.tsx:16 | White space around the text makes no difference to `Number`. |
| Text.ToNumberOfIntToString | src/pages/Customers.tsx:46 | `Number` of an integer's decimal text, a page number included, is the integer. |
| Text.LexLeReflexive | src/components/EventsTableRow.tsx:12 | Every string is at most itself, so `>=` holds between equal texts. |
| Text.LexLeTotal | src/hooks/useQueries.ts:283 | Any two strings compare one way or the other. |
| Text.LexLeTransitive | src/hooks/useQueries.ts:283 | String comparison is transitive. |
| Text.LexLeAntisymmetric | src/hooks/useQueries.ts:283 | Two strings each at most the other are equal. |
| Lists.Filter | src/components/NewReviewForm.tsx:79-81 | The filter keeps exactly the elements satisfying the predicate. |
| Lists.FilterCounts | src/components/NewReviewForm.tsx:79-81 | Every occurrence of a kept element stays, and no occurrence of another. |
| Lists.FilterCons | src/components/CinemasChartCard.tsx:41 | Filtering a list that starts with `x` keeps `x` first when it satisfies the predicate, then the filtered rest. |
| Lists.FilterIsSubsequence | src/components/NewReviewForm.tsx:79-81 | The filter keeps the input's order. |
| Lists.FilterFirst | src/components/NewReviewForm.tsx:131 | The first kept element is the first element satisfying the predicate. |
| Lists.Find | src/components/NewEventForm.tsx:71-73 | `find` gives the first element satisfying the predicate, or none exists. |

## Left out

- Network and store I/O, promises, loading spinners' timing, toasts and console logging.
  A query's data is a parameter; an error thrown by the store is not modelled beyond the
  error messages above.
- The query cache's timing (`staleTime`, `refetchType: "active"`, refetching). What
  invalidation marks stale is modelled; when a refetch happens is not.
- The uuid generator, bcrypt hashing and comparison, and image uploads. They are
  parameters: a uuid string, a verification predicate, and an upload `Result`.
- Dates: `new Date`, `parseISO`, `toISOString().slice(0, 16)`, `toLocaleString`, `format`
  with date-fns and time zones. They are parameter functions, and "now"/"tomorrow" are
  integers.
- `getSanityClient` and the client memo in the auth provider. The module it imports
  does not export that function, so the memo is not part of this model.
- Floating point and the general `Number` coercion. Page numbers like "2.5", "1e1",
  "0x10" or "Infinity", and a missing count (`Number(undefined)`), are outside the model:
  - Text.ToNumber: reads fractions, exponents, other radixes and `Infinity` as `NaN`.
    The app's own links only write integers, and a fractional page needs floating
    point.
  - Pages.CustomersPage: reads a parameter through Text.ToNumber, so a hand-edited
    page such as "1e1" or "2.0" is `NaN` in the model. Signed pages are read.
  - Pages.TotalPages: takes the count as a natural number, so a count still being
    fetched, which gives `NaN` pages, is not covered.
- Text.Lower: lowers ASCII letters only, because Unicode case mapping is not available.
- Rows.EventRowOf: compares the timestamps by code point, where JavaScript's `>=`
  compares UTF-16 code units. The two orders agree unless one string has a character
  above U+FFFF where the other has one from U+E000 to U+FFFF, which ISO timestamps,
  being ASCII, never have.
- The sorts' comparators:
  - Queries.SortCustomers: orders by code points, not by the user's locale as
    `localeCompare` does.
  - Queries.SortEvents: takes the instant of a date as a parameter.
  - `Array.prototype.sort` is stable, and the model's insertion sort is too, but
    stability is not stated.
- Dashboard.GroupCount: the order of the entries is not stated. `Object.entries` lists
  integer-like keys (the ratings) in ascending order, and other keys in the order they
  were first added.
- Rows.ReviewNameCell: looks the image up by the review's own user id. The image query
  is cached under the reviewer's name alone (Queries.CustomerImageKeyCollides), so two
  reviewers sharing a name may be shown one cached image.
- zod and react-hook-form: only the rules and messages each schema declares are
  modelled, as lists of issues, not their order or how fields render them. The review
  form's manual name error is a separate field of the form state.
- Image previews and the file input: a picked file is reduced to its name and MIME type.
- Settings.PriceSettings.Submit: takes the loaded cinema list. Before the list loads the
  source dereferences `cinemas!` and throws, which is not modelled.
- Rendering: markup, CSS classes, the chart libraries' drawing, colours and hover state,
  and the layout, sidebar, login and remaining pages.
- Routes: path matching is exact string equality. Trailing slashes, case and react-router's
  ranking are not modelled.
- The error boundary and lazy loading of the route table.
- Concurrency between mutations: success handlers run one at a time in the model.

## Observations

The model makes these behaviours of the source explicit:

- Whether the join date the new-customer form proposes passes its own no-future rule
  depends on the time zone. The default is local midnight tomorrow written as UTC text,
  and the date input reads it back as local time. At UTC and west of it, that reading
  is after now and rejected (Forms.CustomerDefaultsJudged). East of UTC it falls that
  many hours before midnight, so in the last hours of the day it is accepted
  (Forms.CustomerDefaultsAcceptedLate).
- A hand-written negative page, such as `?page=-1`, is read as that page. The store
  then slices from the end of the list (Api.NegativePageFromEnd). A page below -2 also
  breaks the pagination window's five-button bound (Pagination.WindowOfNegativePage).
- Adding a customer or event never marks the unpaged list stale. The review form and the
  dashboard read that list (Queries.AddCustomerStaleness).
- The submitted review's user id is that of the first suggestion, not of the picked
  customer. Picking leaves the suggestions empty when the term already equals the name,
  and then the user id is empty (ReviewForm.PickingTheTypedName).
- The customers page with `?page=0` fetches the entire list (Pages.PageZero).
- A customer search covers only the current page, while an events search covers every
  event (Pages.EventSearchCoversAll).
- The edited event's description contains a line break before " on ", which the new
  event's description does not.
- The edit-event form has no "tomorrow or later" rule, unlike the new-event form.
- A review without an id sends the id "undefined" to the store
  (Rows.ReviewDeleteReachesStore).
