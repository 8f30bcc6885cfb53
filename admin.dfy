/** The admin dashboard: everything it derives from the fetched booking
    list (the filtered table, the status counts, the actions offered on
    each row) and its handlers, which act on the service and refetch. */
module Admin {
  import opened Text
  import opened Records
  import Listing
  import Server
  import Session
  import Csv

  /** The status filter's "no restriction" choice. */
  const AllStatuses: string := "all"

  function HasStatus(status: string): Booking -> bool {
    (b: Booking) => b.status == status
  }

  function HasDate(date: string): Booking -> bool {
    (b: Booking) => b.preferredDate == date
  }

  /** The table's rows: the bookings narrowed by status unless the filter
      is "all", then by preferred date unless the date filter is empty. */
  function FilterBookings(bookings: seq<Booking>, statusFilter: string, dateFilter: string): (r: seq<Booking>)
    ensures |r| <= |bookings|
    ensures forall b :: b in r ==> b in bookings && Matches(b, statusFilter, dateFilter)
  {
    var byStatus := if statusFilter != AllStatuses then Keep(bookings, HasStatus(statusFilter)) else bookings;
    KeepSpec(bookings, HasStatus(statusFilter));
    KeepSpec(byStatus, HasDate(dateFilter));
    if dateFilter != "" then Keep(byStatus, HasDate(dateFilter)) else byStatus
  }

  /** A booking passes both filters. */
  predicate Matches(b: Booking, statusFilter: string, dateFilter: string) {
    (statusFilter == AllStatuses || b.status == statusFilter)
    && (dateFilter == "" || b.preferredDate == dateFilter)
  }

  function Matcher(statusFilter: string, dateFilter: string): Booking -> bool {
    (b: Booking) => Matches(b, statusFilter, dateFilter)
  }

  /** The two guarded filter steps select exactly the bookings that pass
      both filters, in their original order; with "all" and no date they
      select everything. */
  lemma {:induction false} FilterIsConjunctive(bookings: seq<Booking>, statusFilter: string, dateFilter: string)
    ensures var r := FilterBookings(bookings, statusFilter, dateFilter);
      && r == Keep(bookings, Matcher(statusFilter, dateFilter))
      && IsSubsequence(r, bookings)
      && (forall b :: b in r <==> b in bookings && Matches(b, statusFilter, dateFilter))
      && (statusFilter == AllStatuses && dateFilter == "" ==> r == bookings)
  {
    var m := Matcher(statusFilter, dateFilter);
    if statusFilter != AllStatuses && dateFilter != "" {
      KeepTwice(bookings, HasStatus(statusFilter), HasDate(dateFilter), m);
    } else if statusFilter != AllStatuses {
      KeepAgree(bookings, HasStatus(statusFilter), m);
    } else if dateFilter != "" {
      KeepAgree(bookings, HasDate(dateFilter), m);
    } else {
      KeepEverything(bookings, m);
    }
    KeepSpec(bookings, m);
  }

  // ---------------------------------------------------------------------
  // Counts

  /** The four figures above the table. */
  datatype Counts = Counts(all: nat, pending: nat, confirmed: nat, completed: nat)

  /** The number of bookings whose status is exactly `status`. */
  function CountStatus(bookings: seq<Booking>, status: string): nat {
    |Keep(bookings, HasStatus(status))|
  }

  /** Counting the first booking and then the rest. */
  lemma {:induction false} CountCons(bookings: seq<Booking>, status: string)
    requires bookings != []
    ensures CountStatus(bookings, status)
      == (if bookings[0].status == status then 1 else 0) + CountStatus(bookings[1..], status)
  {
  }

  /** The counts, always over the unfiltered list. */
  function CountsOf(bookings: seq<Booking>): (c: Counts)
    ensures c.all == |bookings|
    ensures c.pending <= c.all && c.confirmed <= c.all && c.completed <= c.all
  {
    Counts(|bookings|, CountStatus(bookings, Pending), CountStatus(bookings, Confirmed),
           CountStatus(bookings, Completed))
  }

  /** When every status is one of the three, the three counts add up to
      the total. */
  lemma {:induction false} CountsSum(bookings: seq<Booking>)
    requires forall i :: 0 <= i < |bookings| ==> ValidStatus(bookings[i].status)
    ensures var c := CountsOf(bookings);
      c.pending + c.confirmed + c.completed == c.all
  {
    if bookings != [] {
      CountsSum(bookings[1..]);
      CountCons(bookings, Pending);
      CountCons(bookings, Confirmed);
      CountCons(bookings, Completed);
      assert ValidStatus(bookings[0].status);
    }
  }

  /** The counts over a listing of a store whose statuses are all valid
      add up, because a listing only holds stored records. */
  lemma {:induction false} ListedCountsAddUp(stored: seq<Booking>)
    requires forall i :: 0 <= i < |stored| ==> ValidStatus(stored[i].status)
    ensures var c := CountsOf(Listing.TopByKey(stored, BookingCreatedAt, Server.BookingListLimit));
      c.pending + c.confirmed + c.completed == c.all
  {
    var listed := Listing.TopByKey(stored, BookingCreatedAt, Server.BookingListLimit);
    Listing.TopByKeySpec(stored, BookingCreatedAt, Server.BookingListLimit);
    forall i | 0 <= i < |listed| ensures ValidStatus(listed[i].status) {
      assert listed[i] in multiset(listed);
      assert listed[i] in stored;
    }
    CountsSum(listed);
  }

  /** Replacing one booking's status moves it from the count of its old
      status to the count of its new one, and changes no other count. */
  lemma {:induction false} CountAfterStatusChange(bookings: seq<Booking>, i: nat, newStatus: string, status: string)
    requires i < |bookings|
    ensures CountStatus(Server.WithStatus(bookings, i, newStatus), status)
      + (if bookings[i].status == status then 1 else 0)
      == CountStatus(bookings, status) + (if newStatus == status then 1 else 0)
    decreases i
  {
    var after := Server.WithStatus(bookings, i, newStatus);
    CountCons(after, status);
    CountCons(bookings, status);
    if i == 0 {
      assert after[1..] == bookings[1..];
    } else {
      CountAfterStatusChange(bookings[1..], i - 1, newStatus, status);
      assert after[1..] == Server.WithStatus(bookings[1..], i - 1, newStatus);
      assert after[0] == bookings[0];
    }
  }

  // ---------------------------------------------------------------------
  // Row actions

  /** The buttons a row can show. */
  datatype RowAction = Confirm | Complete | Reset | Delete

  /** The status a button asks the service for; delete asks for none. */
  function Target(a: RowAction): Option<string> {
    match a
    case Confirm => Some(Confirmed)
    case Complete => Some(Completed)
    case Reset => Some(Pending)
    case Delete => None
  }

  /** The buttons a row with `status` shows, in display order. */
  function RowActions(status: string): (r: seq<RowAction>)
    ensures r != [] && r[|r| - 1] == Delete && Delete !in r[..|r| - 1]
    ensures Confirm in r <==> status == Pending
    ensures Complete in r <==> status == Confirmed
    ensures Reset in r <==> status != Pending
  {
    (if status == Pending then [Confirm] else [])
    + (if status == Confirmed then [Complete] else [])
    + (if status != Pending then [Reset] else [])
    + [Delete]
  }

  /** The dashboard offers a move from `from` to `to`. */
  predicate Offered(from: string, to: string) {
    exists a :: a in RowActions(from) && Target(a) == Some(to)
  }

  /** Position of a status along the booking's life. */
  function Rank(status: string): int {
    if status == Pending then 0 else if status == Confirmed then 1 else 2
  }

  /** For the three statuses the dashboard offers exactly one step forward
      or a return to pending from anywhere else; delete is on every row. */
  lemma {:induction false} RowActionsSpec(from: string, to: string)
    requires ValidStatus(from) && ValidStatus(to)
    ensures Offered(from, to) <==>
      Rank(to) == Rank(from) + 1 || (to == Pending && from != Pending)
    ensures Delete in RowActions(from)
  {
    var acts := RowActions(from);
    if Rank(to) == Rank(from) + 1 || (to == Pending && from != Pending) {
      if to == Pending {
        assert Reset in acts && Target(Reset) == Some(to);
      } else if to == Confirmed {
        assert Confirm in acts && Target(Confirm) == Some(to);
      } else {
        assert Complete in acts && Target(Complete) == Some(to);
      }
    } else {
      forall a | a in acts ensures Target(a) != Some(to) {
      }
    }
  }

  /** The service accepts a move from pending straight to completed, which
      no row ever offers. */
  lemma {:induction false} SkipToCompletedOnlyViaService(bookings: seq<Booking>, i: nat)
    requires i < |bookings| && bookings[i].status == Pending
    ensures !Offered(Pending, Completed)
    ensures ValidStatus(Completed)
    ensures Server.WithStatus(bookings, i, Completed)[i].status == Completed
  {
    RowActionsSpec(Pending, Completed);
  }

  /** Every status change a row offers is one the service accepts. */
  lemma {:induction false} OfferedIsAccepted(from: string, a: RowAction)
    requires a in RowActions(from) && Target(a).Some?
    ensures ValidStatus(Target(a).value)
  {
  }

  // ---------------------------------------------------------------------
  // Session tokens and the gate

  /** The token the login page stores passes the gate in production when
      the service's secret normalises to the same text. */
  lemma {:induction false} StoredTokenPasses(items: map<string, string>, clientToken: Option<string>, serverToken: Option<string>)
    requires Server.NormalizeAdminToken(serverToken) == Session.JsOr(clientToken, Session.DefaultClientToken)
    ensures var stored := items[Session.AuthKey := "true"][Session.TokenKey := Session.JsOr(clientToken, Session.DefaultClientToken)];
      Server.VerifyAdmin(Server.Production, Server.NormalizeAdminToken(serverToken), Session.TokenHeader(stored)).Ok?
  {
    var t := Session.JsOr(clientToken, Session.DefaultClientToken);
    assert t != "" by {
      if clientToken.None? || clientToken.value == "" {
        assert t == Session.DefaultClientToken;
      }
    }
  }

  /** With neither side configured, a logged-in dashboard passes the gate
      in production. */
  // Both settings are parameters pinned to `None` by the precondition
  // rather than literals, which keeps the proof cheap.
  lemma {:induction false} DefaultTokensAgree(items: map<string, string>, clientToken: Option<string>, serverToken: Option<string>)
    requires clientToken.None? && serverToken.None?
    ensures var stored := items[Session.AuthKey := "true"][Session.TokenKey := Session.JsOr(clientToken, Session.DefaultClientToken)];
      Server.VerifyAdmin(Server.Production, Server.NormalizeAdminToken(serverToken), Session.TokenHeader(stored)).Ok?
  {
    Server.AdminTokenDefault(serverToken);
    assert Session.JsOr(clientToken, Session.DefaultClientToken) == Server.DefaultAdminToken;
    StoredTokenPasses(items, clientToken, serverToken);
  }

  /** The service strips quotes from its secret but the dashboard sends its
      token as configured, so a token with a quote never passes in
      production. */
  lemma {:induction false} QuotedTokenRejected(clientToken: string, serverToken: Option<string>)
    requires '"' in clientToken || '\'' in clientToken
    ensures Server.VerifyAdmin(Server.Production, Server.NormalizeAdminToken(serverToken), Some(clientToken)).Err?
  {
  }

  // ---------------------------------------------------------------------
  // The dashboard

  class AdminDashboard {
    var bookings: seq<Booking>
    var loading: bool
    var statusFilter: string
    var dateFilter: string

    constructor ()
      ensures bookings == [] && loading
      ensures statusFilter == AllStatuses && dateFilter == ""
    {
      bookings := [];
      loading := true;
      statusFilter := AllStatuses;
      dateFilter := "";
    }

    /** The rows on screen. */
    function Filtered(): seq<Booking>
      reads this
    {
      FilterBookings(bookings, statusFilter, dateFilter)
    }

    /** `fetchBookings`: the listing replaces the shown bookings when the
        gate lets the stored token through; otherwise they stay. */
    method FetchBookings(api: Server.Api, storage: Session.LocalStorage)
      modifies this`bookings, this`loading
      ensures !loading
      ensures var gate := api.Gate(Session.TokenHeader(storage.items));
        bookings == (if gate.Ok? then Listing.TopByKey(api.bookings, BookingCreatedAt, Server.BookingListLimit)
                     else old(bookings))
    ensures api.Valid() && api.Gate(Session.TokenHeader(storage.items)).Ok? ==>
      var c := CountsOf(bookings);
      c.pending + c.confirmed + c.completed == c.all
    {
      loading := true;
      var res := api.ListBookings(Session.TokenHeader(storage.items));
      if res.Ok? {
        bookings := res.value;
        if api.Valid() {
          ListedCountsAddUp(api.bookings);
        }
      }
      loading := false;
    }

    /** `updateStatus`: the service's update with the stored token, and a
        refetch when it succeeds. */
    method UpdateStatus(api: Server.Api, storage: Session.LocalStorage, id: string, status: string)
      requires api.Valid()
      modifies this`bookings, this`loading, api`bookings
      ensures api.Valid()
      ensures var header := Session.TokenHeader(storage.items);
        var found := FirstIndexOf(old(api.bookings), id, BookingId);
        if api.Gate(header).Ok? && ValidStatus(status) && found.Some? then
          && api.bookings == Server.WithStatus(old(api.bookings), found.value, status)
          && bookings == Listing.TopByKey(api.bookings, BookingCreatedAt, Server.BookingListLimit)
          && !loading
        else
          api.bookings == old(api.bookings) && bookings == old(bookings) && loading == old(loading)
    {
      var r := api.UpdateBookingStatus(Session.TokenHeader(storage.items), id, Server.Str(status));
      if r.Ok? {
        FetchBookings(api, storage);
      }
    }

    /** `deleteBooking`: nothing unless the browser's confirmation is
        accepted; then the service's delete and a refetch when it
        succeeds. */
    method DeleteBooking(api: Server.Api, storage: Session.LocalStorage, id: string, confirmed: bool)
      requires api.Valid()
      modifies this`bookings, this`loading, api`bookings
      ensures api.Valid()
      ensures var header := Session.TokenHeader(storage.items);
        var found := FirstIndexOf(old(api.bookings), id, BookingId);
        if confirmed && api.Gate(header).Ok? && found.Some? then
          && api.bookings == RemoveAt(old(api.bookings), found.value)
          && bookings == Listing.TopByKey(api.bookings, BookingCreatedAt, Server.BookingListLimit)
          && !loading
        else
          api.bookings == old(api.bookings) && bookings == old(bookings) && loading == old(loading)
    {
      if !confirmed {
        return;
      }
      var r := api.DeleteBooking(Session.TokenHeader(storage.items), id);
      if r.Ok? {
        FetchBookings(api, storage);
      }
    }

    /** `handleLogout`: both session keys removed, every other key kept,
        and the browser sent to the login page. */
    method HandleLogout(storage: Session.LocalStorage) returns (navigateTo: string)
      modifies storage
      ensures storage.items == old(storage.items) - {Session.AuthKey, Session.TokenKey}
      ensures !Session.IsAuthenticated(storage.items)
      ensures Session.TokenHeader(storage.items) == None
      ensures navigateTo == "/login"
    {
      storage.RemoveItem(Session.AuthKey);
      storage.RemoveItem(Session.TokenKey);
      navigateTo := "/login";
    }

    /** `exportCSV`: the whole fetched list, whatever the filters show,
        every cell quoted but embedded quotes left as they are; the file
        reads back to the table when no cell holds a quote. */
    method ExportCsv(localeDate: string -> string) returns (csv: string)
      ensures csv == Csv.ExportCsv(bookings, localeDate)
      ensures (forall i, j :: 0 <= i < |bookings| && 0 <= j < |Csv.Header| ==>
                 '"' !in Csv.BookingCells(bookings[i], localeDate)[j])
        ==> Csv.ParseCsv(csv) == Some(Csv.CsvRecords(bookings, localeDate))
    {
      csv := Csv.ExportCsv(bookings, localeDate);
      if forall i, j :: 0 <= i < |bookings| && 0 <= j < |Csv.Header| ==>
           '"' !in Csv.BookingCells(bookings[i], localeDate)[j] {
        Csv.ExportCsvRoundTripWithoutQuotes(bookings, localeDate);
      }
    }
  }
}
