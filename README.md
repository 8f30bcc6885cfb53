# Dream Shoots booking core in Dafny

Dream Shoots is a photography-booking site. This project models its booking lifecycle and the admin tools around it:

- **The booking API server** (`backend/server.py`):
  - start-up configuration: the admin secret and the CORS origin list;
  - the shared-token gate (`verify_admin`);
  - request validation;
  - the handlers over the bookings and reels collections.
- **The admin dashboard** (`AdminPage.js`):
  - the status and date filter and the status counts;
  - the CSV export and the per-row status actions;
  - fetch, update, delete and logout.
- **The reels section** (`ReelsSection.js`):
  - the backend address normalisation;
  - the post-link-to-embed-page extraction;
  - what is rendered after the fetch.
- **The login page** (`LoginPage.js`) and the route guard in `App.js`: the client-side session, two browser storage keys.
- **The public booking form** (`BookingSection.js`).

The modules follow that structure:

| file | module | models |
|---|---|---|
| `text.dfy` | `Text` | Python and JavaScript string helpers: whitespace `strip`, `split` and `join` on one character, `replace(c, '')`, `filter`, and code-point order |
| `records.dfy` | `Records` | booking and reel records, the three statuses, the HTTP errors, first-match lookup |
| `listing.dfy` | `Listing` | MongoDB's `sort(key, -1).to_list(n)` |
| `server.dfy` | `Server` | `server.py`; `class Api` holds the two collections as sequences |
| `session.dfy` | `Session` | browser storage (`class LocalStorage`), the route guard, `class LoginPage` |
| `csv.dfy` | `Csv` | the CSV export as written, the RFC 4180 export and a reader for it |
| `admin.dfy` | `Admin` | the dashboard's derived values and `class AdminDashboard` |
| `reels.dfy` | `Reels` | the reels section |
| `booking_form.dfy` | `BookingForm` | the form record and `class BookingSection` |

Effects are modelled as inputs:

- The server's identifier and timestamp generators become parameters of the handlers.
- Network outcomes become parameters: whether the booking post succeeded, and what the reels fetch returned.
- The browser's confirmation dialog becomes a `bool` parameter.
- The locale date formatting becomes a function parameter.

Where the repository's prose description and the code disagree, the model follows the code:

- Creating a booking answers 200 with the record, not 201.
- A missing required field, or one that is not a string, is rejected with 422 by the payload model, not 400.
- An empty string is accepted for every required booking field and for a reel's `url`.
- The reels listing is capped at 100, and the bookings listing at 1000.
- The dashboard's CSV export does not escape quotes inside cells. The model exports as written and proves the read-back only for quote-free cells; a corrected, escaped export is proved beside it (see Findings).

## Model

| member | source | states |
|---|---|---|
| Text.StripSpec | backend/server.py:27 | Python `strip()`: the result is the slice of the input that starts after its leading whitespace (the `str.isspace` set), only whitespace follows it, and neither end of the result is whitespace |
| Text.Strip | backend/server.py:39 | `strip()` of each CORS entry (and of the secret): the result is never longer than the input and neither starts nor ends with whitespace |
| Text.RemoveCharSpec | backend/server.py:27 | `replace(c, '')`: the result holds exactly the characters of the input other than `c`, in order, each as often as before |
| Text.Split | backend/server.py:38 | `split(',')` yields at least one piece and no piece contains the separator |
| Text.JoinSplit | backend/server.py:38 | joining the pieces of a split with the separator gives the text back |
| Text.SplitJoin | frontend/src/components/AdminPage.js:65 | splitting a join of separator-free pieces gives the pieces back |
| Text.KeepSpec | frontend/src/components/AdminPage.js:76-77 | `filter`: an order-preserving subsequence, holding exactly the elements that satisfy the predicate, each as often as in the input |
| Text.KeepTwice | frontend/src/components/AdminPage.js:76-77 | filtering by one predicate and then another equals filtering once by their conjunction |
| Text.KeepAgree | frontend/src/components/AdminPage.js:76-77 | filtering by two predicates that agree on the elements gives the same result |
| Text.KeepEverything | frontend/src/components/AdminPage.js:75 | filtering by a predicate every element satisfies returns the input |
| Text.SubsequenceTransitive | backend/server.py:27 | removing elements from a subsequence again yields a subsequence of the original |
| Text.LexLeTotal | backend/server.py:138 | the string key order is total |
| Text.LexLeTransitive | backend/server.py:138 | the string key order is transitive |
| Records.FirstIndexOf | backend/server.py:144 | the position found holds the id and no earlier position does; none is found only when no record has the id |
| Records.RemoveAt | backend/server.py:167 | removing one record shortens the collection by one and keeps every other record |
| Listing.Insert | backend/server.py:138 | inserting into a descending list keeps it descending and adds exactly the new record |
| Listing.SortDesc | backend/server.py:138 | the sorted collection is a permutation of the collection, in descending key order |
| Listing.TopByKeySpec | backend/server.py:138 | a listing has min(cap, size) records, drawn from the collection, newest first, and every record left out is no newer than any record returned |
| Server.NormalizeAdminToken | backend/server.py:27 | the secret contains no quote of either kind |
| Server.NormalizeAdminTokenSpec | backend/server.py:27 | the secret is the stripped setting (or default) with exactly its quotes removed, the other characters kept in order |
| Server.AdminTokenUnchanged | backend/server.py:27 | a setting already stripped and free of quotes is used as it is |
| Server.AdminTokenDefault | backend/server.py:27 | unset, the secret is `ds-secret-token` |
| Server.AddOriginSpec | backend/server.py:38-41 | one loop step keeps the list as a prefix, adds no duplicate, and adds exactly the trimmed entry when it is non-empty and not yet listed |
| Server.AddOrigins | backend/server.py:37-41 | the loop only appends: the list never shrinks and grows by at most one origin per entry |
| Server.AddOriginsSpec | backend/server.py:37-41 | the loop keeps the starting origins as a prefix, never repeats an origin, and the result holds exactly the starting origins and the non-empty trimmed entries |
| Server.BuildCorsPolicy | backend/server.py:30-50 | the loop computes the origin fold; unset or empty and not in production gives `["*"]` without credentials; production without a setting gives the four defaults with credentials |
| Server.CorsOriginsSpec | backend/server.py:30-41 | with origins configured, the four defaults come first in order, no origin appears twice, and the list holds exactly the defaults and the non-empty trimmed entries |
| Server.VerifyAdmin | backend/server.py:121-134 | outside production every request passes; in production exactly a present, non-empty header equal to the secret passes; every refusal is 401, and "missing token" exactly when the header is absent or empty |
| Server.EmptySecretLocksOut | backend/server.py:121-134 | in production an empty secret refuses every request |
| Server.RequiredString | backend/server.py:53-57 | a `str` field is accepted exactly when it is a string (the empty one included) and is copied; otherwise 422 naming the field |
| Server.OptionalString | backend/server.py:58-60 | an `Optional[str] = ""` field: absent gives "", null gives none, a string is copied, anything else is 422 |
| Server.ParseBookingCreate | backend/server.py:52-60 | a booking request is accepted exactly when the five required fields are strings and the optional ones are well typed; the required fields are copied, and each optional one is what its own rule gives (absent "", null none, a string copied); every rejection is 422 |
| Server.EmptyRequiredFieldsAccepted | backend/server.py:52-57 | empty required strings pass validation |
| Server.NewBooking | backend/server.py:62-74 | a new booking is `pending`, carries the given id and timestamp, and copies the request's eight fields |
| Server.ParseReelCreate | backend/server.py:79-81 | a reel request is accepted exactly when `url` is a string and `title` is not a non-string; `url` is copied and `title` is what the optional rule gives; every rejection is 422 |
| Server.WithStatus | backend/server.py:154-158 | the status update changes the status of one booking and nothing else |
| Server.DeleteRemovesIdentifier | backend/server.py:165-170 | with unique ids, a delete leaves no record with the id and keeps every other record |
| Server.Api.constructor | backend/server.py:24-27 | the environment defaults to `development` only when unset; the secret is normalised; both collections start empty |
| Server.Api.CreateBooking | backend/server.py:93-98 | a valid request appends one `pending` booking built from it and returns it; an invalid one returns its 422 and changes nothing; every stored status stays valid |
| Server.Api.ListBookings | backend/server.py:136-139 | gated; returns the newest 1000 bookings, newest first |
| Server.Api.GetBooking | backend/server.py:142-147 | gated; returns the first booking with the id, and 404 exactly when none has it |
| Server.Api.UpdateBookingStatus | backend/server.py:150-162 | gate first, then 422 for a missing or non-string `status` (the body model `BookingStatusUpdate` at lines 76-77), then 400 for a status outside the three (even for an unknown id; lines 152-153), then 404 for an unknown id; otherwise only the first match's status is overwritten, with no check of the old status; any error leaves the store unchanged |
| Server.Api.DeleteBooking | backend/server.py:165-170 | gated; removes the first booking with the id and answers "Booking deleted", or 404 with the store unchanged |
| Server.Api.ListReels | backend/server.py:100-103 | public; returns the newest 100 reels, newest first |
| Server.Api.CreateReel | backend/server.py:105-110 | gated; a valid request appends the reel and returns it; any error leaves the reels unchanged |
| Server.Api.DeleteReel | backend/server.py:112-117 | gated; removes the first reel with the id and answers "Reel deleted", or 404 with the reels unchanged |
| Session.JsOr | frontend/src/components/LoginPage.js:15-17 | `value \|\| default`: the value when set and non-empty, otherwise the default |
| Session.TokenHeader | frontend/src/components/AdminPage.js:8-10 | the header is sent exactly when the token key is stored, and carries the stored value |
| Session.StoredKeys | frontend/src/App.js:39 | the guard passes exactly when the flag was last written as `true`; the header carries the token last written; removing a key clears what it controls; writing one key never changes what the other controls |
| Session.LocalStorage.SetItem | frontend/src/components/LoginPage.js:20-21 | the key maps to the value and every other key is unchanged |
| Session.LocalStorage.RemoveItem | frontend/src/components/AdminPage.js:53-54 | the key is gone and every other key is unchanged |
| Session.LocalStorage.GetItem | frontend/src/components/AdminPage.js:9 | the stored value, or none exactly when the key is missing |
| Session.LoginPage.constructor | frontend/src/components/LoginPage.js:6-8 | username, password and error start empty |
| Session.LoginPage.SetUsername | frontend/src/components/LoginPage.js:57 | the username input's handler stores the typed value |
| Session.LoginPage.SetPassword | frontend/src/components/LoginPage.js:72 | the password input's handler stores the typed value |
| Session.LoginPage.HandleLogin | frontend/src/components/LoginPage.js:11-26 | matching credentials set the auth flag to `true` and store the configured token (default `ds-secret-token`), navigate to `/admin` and satisfy the route guard of frontend/src/App.js:39; otherwise storage is untouched, there is no navigation and the error is the fixed message |
| Csv.OrDash | frontend/src/components/AdminPage.js:61-62 | a missing, null or empty optional field becomes `-`; any other value is kept |
| Csv.CsvRecords | frontend/src/components/AdminPage.js:59-64 | the export's records are the fixed ten-column header, then one record per booking in input order |
| Csv.ExportCsv | frontend/src/components/AdminPage.js:58-65 | (as written) the file starts with the quoted header record |
| Csv.DoubleQuotes | frontend/src/components/AdminPage.js:65 | (corrected) quote doubling leaves a quote-free cell unchanged |
| Csv.EscapedRoundTrip | frontend/src/components/AdminPage.js:65 | (corrected) a file written with RFC 4180 escaping reads back as the records it was written from |
| Csv.ExportCsvEscapedRoundTrip | frontend/src/components/AdminPage.js:59-65 | (corrected) the escaped export reads back as the header and one record per booking, cell for cell |
| Csv.ExportCsvRoundTripWithoutQuotes | frontend/src/components/AdminPage.js:65 | without a quote in any cell, the export as written equals the escaped one and reads back faithfully |
| Csv.ExportCsvCollision | frontend/src/components/AdminPage.js:65 | (as written) two different bookings produce the same file |
| Csv.QuoteCollision | frontend/src/components/AdminPage.js:65 | (as written) for any texts p, q, t, a record with cells `p","q` and `t` is written exactly as one with cells `p` and `q","t` |
| Csv.ExportCsvLines | frontend/src/components/AdminPage.js:59-65 | without newlines in cells, the file has exactly one line per booking after the header line, in input order, with no trailing newline |
| Admin.FilterIsConjunctive | frontend/src/components/AdminPage.js:75-77 | the two guarded filter steps keep exactly the bookings matching both filters, in order; `all` with no date keeps everything |
| Admin.FilterBookings | frontend/src/components/AdminPage.js:75-77 | the table never has more rows than the list, and every row shown is a fetched booking matching both filters |
| Admin.CountsOf | frontend/src/components/AdminPage.js:79-84 | `all` is the length of the unfiltered list, and no status count exceeds it |
| Admin.CountsSum | frontend/src/components/AdminPage.js:79-84 | when every status is one of the three, the three counts add up to the total |
| Admin.ListedCountsAddUp | frontend/src/components/AdminPage.js:79-84 | over a listing of a store whose statuses are all valid the three counts add up to the total |
| Admin.CountAfterStatusChange | frontend/src/components/AdminPage.js:79-84 | a status update moves one booking from its old status count to its new one and changes no other count |
| Admin.RowActions | frontend/src/components/AdminPage.js:200-217 | delete is the last button and appears once; confirm appears exactly for pending, complete exactly for confirmed, reset exactly for any other status |
| Admin.RowActionsSpec | frontend/src/components/AdminPage.js:200-217 | for the three statuses a row offers exactly one step forward, or a return to pending from elsewhere; delete is always offered |
| Admin.SkipToCompletedOnlyViaService | frontend/src/components/AdminPage.js:200-209 | no row offers pending to completed, yet the service accepts it |
| Admin.OfferedIsAccepted | frontend/src/components/AdminPage.js:200-214 | every status a row button requests is one the service accepts |
| Admin.StoredTokenPasses | frontend/src/components/AdminPage.js:8-10 | after login the header sent passes the production gate whenever the service's secret normalises to the stored token |
| Admin.DefaultTokensAgree | frontend/src/components/AdminPage.js:8-10 | with neither side configured, a logged-in dashboard passes the production gate |
| Admin.QuotedTokenRejected | frontend/src/components/AdminPage.js:8-10 | a client token containing a quote never passes the production gate, because the service strips quotes from its secret |
| Admin.AdminDashboard.constructor | frontend/src/components/AdminPage.js:19-22 | no bookings, loading, status filter `all`, empty date filter |
| Admin.AdminDashboard.FetchBookings | frontend/src/components/AdminPage.js:24-33 | the list becomes the service's listing when the stored token passes the gate and is otherwise kept; loading ends; after a successful fetch from a service whose statuses are valid the counts add up |
| Admin.AdminDashboard.UpdateStatus | frontend/src/components/AdminPage.js:37-42 | sends the update with the stored token; on success the service's record is updated, the list refetched and loading ended; otherwise the service, the list and the loading flag are unchanged |
| Admin.AdminDashboard.DeleteBooking | frontend/src/components/AdminPage.js:44-50 | nothing without confirmation; otherwise the service's delete, then on success a refetch that ends loading; on failure the service, the list and the loading flag are unchanged |
| Admin.AdminDashboard.HandleLogout | frontend/src/components/AdminPage.js:52-56 | removes both session keys and no other key, the route guard then fails, no token header is sent, and the browser goes to `/login` |
| Admin.AdminDashboard.ExportCsv | frontend/src/components/AdminPage.js:58-65 | exports the whole fetched list, not the filtered view, exactly as written (cells quoted, inner quotes kept); when no cell holds a quote the file reads back as its records |
| Reels.DropTrailingSlash | frontend/src/components/ReelsSection.js:5 | one trailing slash is removed and nothing else changes |
| Reels.UpgradeScheme | frontend/src/components/ReelsSection.js:5 | a leading `http:` becomes `https:`; the result never starts with `http:` |
| Reels.BackendUrl | frontend/src/components/ReelsSection.js:5 | the backend address never starts with `http:`, and an unset setting gives "" |
| Reels.BackendUrlSpec | frontend/src/components/ReelsSection.js:5 | the backend address never starts with `http:`; unset or empty gives ""; a clean address is kept |
| Reels.BackendUrlDropsOneSlash | frontend/src/components/ReelsSection.js:5 | only one trailing slash is removed, so normalising twice can differ from normalising once |
| Reels.KeywordAt | frontend/src/components/ReelsSection.js:36 | the alternative chosen at a position matches there, and none is chosen only when none of `reels`, `reel`, `p`, `tv` matches |
| Reels.RunLength | frontend/src/components/ReelsSection.js:36 | the captured run is the longest run of characters outside `/?#&` |
| Reels.Group | frontend/src/components/ReelsSection.js:36-37 | a captured identifier is non-empty and contains none of `/?#&` |
| Reels.ScanFrom | frontend/src/components/ReelsSection.js:36 | the search succeeds exactly when some position matches, and returns the group of the leftmost matching position |
| Reels.EmbedUrl | frontend/src/components/ReelsSection.js:33-41 | a missing or empty link gives nothing; a result is always the `/p/` embed page of a non-empty identifier |
| Reels.EmbedUrlSpec | frontend/src/components/ReelsSection.js:33-41 | the embed page exists exactly when some position matches, and it uses the leftmost match's identifier |
| Reels.EmbedReelExample | frontend/src/components/ReelsSection.js:36-38 | `reel/A` gives the `/p/A/embed` page |
| Reels.EmbedInsideWordExample | frontend/src/components/ReelsSection.js:36-38 | `shop/x` matches through its `p/`, because the keyword need not be a whole path segment |
| Reels.NoEmbedExample | frontend/src/components/ReelsSection.js:36-40 | a link with no keyword followed by a slash has no embed |
| Reels.AfterFetch | frontend/src/components/ReelsSection.js:13-29 | loading always ends; an array body replaces the list; any other body keeps it; a failure sets the message naming the address and keeps the list |
| Reels.RenderedEmbeds | frontend/src/components/ReelsSection.js:64-78 | each rendered embed comes from a reel whose link gives an embed page, with that page plus the tracking query as source and the title or `Instagram Reel`; none is skipped when every link matches |
| Reels.RenderedEmbedsSpec | frontend/src/components/ReelsSection.js:64-78 | the embeds are exactly one per reel whose link yields an embed page, in list order, each keyed by that reel's id with the page plus the tracking query and the title or `Instagram Reel` |
| Reels.EmptyStateExcludesEmbeds | frontend/src/components/ReelsSection.js:116 | the empty state and embeds never show together, and a non-empty list whose links all fail shows neither |
| BookingForm.With | frontend/src/components/BookingSection.js:21-23 | the named field takes the new value and every other field is unchanged |
| BookingForm.FormsAgree | frontend/src/components/BookingSection.js:9-16 | a form is determined by its six field values |
| BookingForm.WithLaws | frontend/src/components/BookingSection.js:21-23 | writing the same field twice keeps the last value; writes to different fields commute |
| BookingForm.RequiredFieldsGuard | frontend/src/components/BookingSection.js:77-100 | the cleared form cannot be submitted; important info never blocks submission; a submitted form has its five required fields non-empty |
| BookingForm.ServiceAcceptsEveryForm | frontend/src/components/BookingSection.js:31 | the service accepts every body the form posts, copies the six fields, and defaults location and package to "" |
| BookingForm.BookingSection.constructor | frontend/src/components/BookingSection.js:9-19 | six empty fields, not loading, no success, no error |
| BookingForm.BookingSection.HandleChange | frontend/src/components/BookingSection.js:21-23 | exactly the named field changes |
| BookingForm.BookingSection.BeginSubmit | frontend/src/components/BookingSection.js:27-29 | loading on, error cleared, success off; the current form is posted |
| BookingForm.BookingSection.FinishSubmit | frontend/src/components/BookingSection.js:30-37 | success clears all six fields; failure sets the fixed message and keeps the fields; loading ends either way |
| BookingForm.BookingSection.HandleSubmit | frontend/src/components/BookingSection.js:25-38 | the whole submit: the old form is posted; success gives cleared fields and no error; failure gives the message, no success and the fields kept |
| BookingForm.BookingSection.BookAnother | frontend/src/components/BookingSection.js:66 | the success panel is dismissed |

## Left out

- MongoDB, FastAPI routing, CORS middleware wiring, logging, start-up and shutdown hooks, axios, React rendering and effect scheduling. Each handler is one atomic step on the model's state.
- `uuid4`, the creation timestamp, `toLocaleString` and the export file name are parameters. Unique ids are required only by the lemmas that state it.
- The blob download of the CSV file and `window.location` are left out. Navigation is returned as a value.
- Listing.SortDesc: MongoDB leaves the order of equal keys open. The model fixes one (an insertion sort), and every stated property holds for any order of equal keys.
- Server.Api.CreateReel: as written, `Depends(verify_admin)` at backend/server.py:106 and :113 refers to a function defined later, at :121, so the module fails at import. The reel handlers are modelled as gated, which is the evident intent.
- Server.ParseBookingCreate: a JSON value is abstracted to absent, null, string or another type. Pydantic's error body is reduced to the offending field's name. Only the first offending field is reported.
- Records.ApiError.Detail: the 422 detail is the field name, not Pydantic's error list.
- Admin.AdminDashboard.ExportCsv: exports as written, so its read-back is stated only for files without quotes in cells; the escaped export of the finding below is a separate, corrected definition.
- Admin.AdminDashboard.FetchBookings: the dashboard calls the modelled service directly, so a network failure is not an input; a refusal by the gate (401) keeps the list. The console message is not modelled.
- Reels: the fetch effect is an input (`FetchOutcome`). The message is built from the normalised address.
- Reels.EmbedReelExample: the concrete example links are kept short so that evaluating them stays cheap.
- Session: `localStorage` is a string map without quota or exceptions.
- Presentational parts are not modelled: status colours, icons and the stats layout.

## Findings

| source | as written | input that shows it | evidently intended | confidence | as-written member | corrected member |
|---|---|---|---|---|---|---|
| frontend/src/components/AdminPage.js:65 | each cell is wrapped in double quotes, but quotes inside a cell are not doubled | a booking named `a","b` with phone `c`, and one named `a` with phone `b","c`, export to the same file | a CSV file that reads back as its records, with inner quotes doubled as section 2 (rule 7) of RFC 4180 requires | not executed; the collision is proved | Csv.ExportCsvCollision | Csv.ExportCsvEscapedRoundTrip |
