/** The booking API server: its configuration read at start-up, the
    shared-token gate, the request payload models and the handlers over the
    two collections. */
module Server {
  import opened Text
  import opened Records
  import Listing

  const DefaultEnvironment: string := "development"
  const Production: string := "production"
  const DefaultAdminToken: string := "ds-secret-token"
  const BookingListLimit: nat := 1000
  const ReelListLimit: nat := 100

  /** `os.environ.get(name, default)`: the default applies only when the
      variable is unset; an empty value is kept. */
  function EnvOr(v: Option<string>, default: string): string {
    if v.Some? then v.value else default
  }

  /** Python truthiness of an optional string: set and non-empty. */
  predicate Truthy(v: Option<string>) {
    v.Some? && v.value != ""
  }

  // ---------------------------------------------------------------------
  // Start-up configuration

  /** The configured admin secret: the environment value (or the default)
      stripped of surrounding whitespace, then with every double and single
      quote removed. */
  function NormalizeAdminToken(env: Option<string>): (t: string)
    ensures '"' !in t && '\'' !in t
  {
    var once := RemoveChar(Strip(EnvOr(env, DefaultAdminToken)), '"');
    RemoveCharSpec(Strip(EnvOr(env, DefaultAdminToken)), '"');
    RemoveCharSpec(once, '\'');
    RemoveChar(once, '\'')
  }

  /** The secret is the stripped setting (or default) with exactly its
      quotes removed, the other characters kept in order. */
  lemma {:induction false} NormalizeAdminTokenSpec(env: Option<string>)
    ensures var stripped := Strip(EnvOr(env, DefaultAdminToken));
      var t := NormalizeAdminToken(env);
      && IsSubsequence(t, stripped)
      && multiset(t) == multiset(stripped)['"' := 0]['\'' := 0]
  {
    var stripped := Strip(EnvOr(env, DefaultAdminToken));
    var once := RemoveChar(stripped, '"');
    var t := RemoveChar(once, '\'');
    RemoveCharSpec(stripped, '"');
    RemoveCharSpec(once, '\'');
    SubsequenceTransitive(t, once, stripped);
  }

  /** Removing a character that does not occur changes nothing. */
  lemma {:induction false} RemoveAbsentChar(s: string, c: char)
    requires c !in s
    ensures RemoveChar(s, c) == s
  {
    if s != [] {
      RemoveAbsentChar(s[1..], c);
      assert s == [s[0]] + s[1..];
    }
  }

  /** A value that is already stripped and free of quotes is taken as is. */
  lemma {:induction false} AdminTokenUnchanged(t: string)
    requires '"' !in t && '\'' !in t
    requires t == [] || (!IsSpace(t[0]) && !IsSpace(t[|t| - 1]))
    ensures NormalizeAdminToken(Some(t)) == t
  {
    assert StripLeft(t) == t;
    assert StripRight(t) == t;
    RemoveAbsentChar(t, '"');
    RemoveAbsentChar(t, '\'');
  }

  /** Unset, the secret is the built-in default. (The unset setting is a
      parameter pinned by the precondition rather than the literal `None`,
      which keeps the solver from unfolding the normalisation on the
      literal default and keeps the proof cheap.) */
  lemma {:induction false} AdminTokenDefault(env: Option<string>)
    requires env.None?
    ensures NormalizeAdminToken(env) == DefaultAdminToken
  {
    AdminTokenUnchanged(DefaultAdminToken);
  }

  /** The CORS origins that are always allowed, in this order. */
  const DefaultCorsOrigins: seq<string> := [
    "https://www.dreamshoots.in",
    "https://dreamshootsapp-production.up.railway.app",
    "http://localhost:3000",
    "http://localhost:8000"
  ]

  predicate NoDuplicates<T(==)>(s: seq<T>) {
    forall i, j :: 0 <= i < j < |s| ==> s[i] != s[j]
  }

  /** The comma-separated entries with surrounding whitespace cut. */
  function Trimmed(entries: seq<string>): (r: seq<string>)
    ensures |r| == |entries|
  {
    seq(|entries|, k requires 0 <= k < |entries| => Strip(entries[k]))
  }

  /** One step of the origin loop, given the trimmed entry: it is appended
      unless it is empty or already listed. */
  function AddOrigin(origins: seq<string>, o: string): seq<string> {
    if o != "" && o !in origins then origins + [o] else origins
  }

  lemma {:induction false} AddOriginSpec(origins: seq<string>, o: string)
    requires NoDuplicates(origins)
    ensures var r := AddOrigin(origins, o);
      && |origins| <= |r| && r[..|origins|] == origins
      && NoDuplicates(r)
      && forall x :: x in r <==> x in origins || (x != "" && x == o)
  {
    if o != "" && o !in origins {
      var r := origins + [o];
      assert r[..|origins|] == origins;
      assert forall x :: x in r <==> x in origins || x == o;
    }
  }

  /** The whole origin loop over the trimmed entries. */
  function AddOrigins(origins: seq<string>, trimmed: seq<string>): (r: seq<string>)
    ensures |origins| <= |r| <= |origins| + |trimmed|
    decreases |trimmed|
  {
    if trimmed == [] then origins else AddOrigins(AddOrigin(origins, trimmed[0]), trimmed[1..])
  }

  /** The origin list keeps the starting origins as its prefix, never
      holds an origin twice, and holds exactly the starting origins and the
      non-empty trimmed entries. */
  lemma {:induction false} AddOriginsSpec(origins: seq<string>, trimmed: seq<string>)
    requires NoDuplicates(origins)
    ensures var r := AddOrigins(origins, trimmed);
      && |origins| <= |r| && r[..|origins|] == origins
      && NoDuplicates(r)
      && forall o :: o in r <==> o in origins || (o != "" && o in trimmed)
    decreases |trimmed|
  {
    if trimmed != [] {
      var next := AddOrigin(origins, trimmed[0]);
      AddOriginSpec(origins, trimmed[0]);
      AddOriginsSpec(next, trimmed[1..]);
      var r := AddOrigins(origins, trimmed);
      assert r == AddOrigins(next, trimmed[1..]);
      assert r[..|origins|] == r[..|next|][..|origins|];
      assert trimmed == [trimmed[0]] + trimmed[1..];
    }
  }

  /** The CORS policy built at start-up: the origin list and whether
      credentials are allowed. */
  method BuildCorsPolicy(corsEnv: Option<string>, environment: string)
    returns (origins: seq<string>, allowCredentials: bool)
    ensures !Truthy(corsEnv) && environment != Production ==> origins == ["*"] && !allowCredentials
    ensures !Truthy(corsEnv) && environment == Production ==> origins == DefaultCorsOrigins && allowCredentials
    ensures Truthy(corsEnv) ==>
      && origins == AddOrigins(DefaultCorsOrigins, Trimmed(Split(corsEnv.value, ',')))
      && allowCredentials
  {
    origins := DefaultCorsOrigins;
    if Truthy(corsEnv) {
      var entries := Split(corsEnv.value, ',');
      ghost var trimmed := Trimmed(entries);
      var i := 0;
      while i < |entries|
        invariant 0 <= i <= |entries|
        invariant AddOrigins(origins, trimmed[i..]) == AddOrigins(DefaultCorsOrigins, trimmed)
      {
        assert trimmed[i..][1..] == trimmed[i + 1..];
        var o := Strip(entries[i]);
        assert o == trimmed[i];
        if o != "" && o !in origins {
          origins := origins + [o];
        }
        i := i + 1;
      }
    }
    if !Truthy(corsEnv) && environment != Production {
      origins := ["*"];
      allowCredentials := false;
    } else {
      allowCredentials := true;
    }
  }

  /** With explicit origins configured, the policy lists the four default
      origins first, then each distinct non-empty trimmed entry, no origin
      twice. */
  lemma {:induction false} CorsOriginsSpec(corsValue: string)
    ensures var r := AddOrigins(DefaultCorsOrigins, Trimmed(Split(corsValue, ',')));
      && |r| >= 4 && r[..4] == DefaultCorsOrigins
      && NoDuplicates(r)
      && forall o :: o in r <==> o in DefaultCorsOrigins || (o != "" && o in Trimmed(Split(corsValue, ',')))
  {
    DefaultsDistinct();
    AddOriginsSpec(DefaultCorsOrigins, Trimmed(Split(corsValue, ',')));
  }

  lemma {:induction false} DefaultsDistinct()
    ensures NoDuplicates(DefaultCorsOrigins)
  {
    var d := DefaultCorsOrigins;
    assert d[0][8] == 'w' && d[1][8] == 'd' && d[2][7] == 'l' && d[3][7] == 'l';
    assert d[2][17] == '3' && d[3][17] == '8';
    assert d[0][4] == 's' && d[1][4] == 's' && d[2][4] == ':';
  }

  // ---------------------------------------------------------------------
  // Admin access gate

  /** `verify_admin`: outside production every request passes; in
      production a missing or empty token, or one unequal to the configured
      secret, is rejected with 401. */
  function VerifyAdmin(environment: string, adminToken: string, header: Option<string>): (r: Result<bool, ApiError>)
    ensures environment != Production ==> r == Ok(true)
    ensures environment == Production ==>
      (r.Ok? <==> header.Some? && header.value != "" && header.value == adminToken)
    ensures r.Ok? ==> r.value
    ensures r.Err? ==> r.error.Code() == 401
    ensures r.Err? ==> (r.error == MissingToken <==> !Truthy(header))
  {
    if environment == Production then
      if !Truthy(header) then Err(MissingToken)
      else if header.value != adminToken then Err(TokenMismatch)
      else Ok(true)
    else Ok(true)
  }

  /** In production, when the secret normalises to the empty string no
      request can pass the gate. */
  lemma {:induction false} EmptySecretLocksOut(header: Option<string>)
    ensures VerifyAdmin(Production, "", header).Err?
  {
  }

  // ---------------------------------------------------------------------
  // Request payloads

  /** A JSON member of a request body as the payload model sees it. */
  datatype JsonValue = Absent | Null | Str(s: string) | NonString

  /** The body of a booking request. `status` is not a field of the
      payload model; it is listed to show that it is ignored. */
  datatype BookingPayload = BookingPayload(
    name: JsonValue,
    phone: JsonValue,
    preferredDate: JsonValue,
    preferredTime: JsonValue,
    eventType: JsonValue,
    importantInfo: JsonValue,
    selectedPackage: JsonValue,
    location: JsonValue,
    status: JsonValue)

  /** `BookingCreate` after validation. */
  datatype BookingCreate = BookingCreate(
    name: string,
    phone: string,
    preferredDate: string,
    preferredTime: string,
    eventType: string,
    importantInfo: Option<string>,
    selectedPackage: Option<string>,
    location: Option<string>)

  /** A `str` field: present and a string (possibly empty). */
  function RequiredString(v: JsonValue, field: string): (r: Result<string, ApiError>)
    ensures r.Ok? <==> v.Str?
    ensures r.Ok? ==> r.value == v.s
    ensures r.Err? ==> r.error == ValidationFailed(field)
  {
    if v.Str? then Ok(v.s) else Err(ValidationFailed(field))
  }

  /** An `Optional[str] = ""` field: absent gives "", null gives None. */
  function OptionalString(v: JsonValue, field: string): (r: Result<Option<string>, ApiError>)
    ensures r.Ok? <==> !v.NonString?
    ensures v.Absent? ==> r == Ok(Some(""))
    ensures v.Null? ==> r == Ok(None)
    ensures v.Str? ==> r == Ok(Some(v.s))
    ensures r.Err? ==> r.error == ValidationFailed(field)
  {
    match v
    case Absent => Ok(Some(""))
    case Null => Ok(None)
    case Str(s) => Ok(Some(s))
    case NonString => Err(ValidationFailed(field))
  }

  predicate RequiredPresent(p: BookingPayload) {
    p.name.Str? && p.phone.Str? && p.preferredDate.Str? && p.preferredTime.Str? && p.eventType.Str?
  }

  predicate OptionalWellTyped(p: BookingPayload) {
    !p.importantInfo.NonString? && !p.selectedPackage.NonString? && !p.location.NonString?
  }

  /** Validation of a booking request: accepted exactly when the five
      required fields are strings (empty ones included) and no optional
      field holds a non-string; the first offending field is reported. */
  function ParseBookingCreate(p: BookingPayload): (r: Result<BookingCreate, ApiError>)
    ensures r.Ok? <==> RequiredPresent(p) && OptionalWellTyped(p)
    ensures r.Ok? ==>
      && r.value.name == p.name.s && r.value.phone == p.phone.s
      && r.value.preferredDate == p.preferredDate.s && r.value.preferredTime == p.preferredTime.s
      && r.value.eventType == p.eventType.s
    ensures r.Ok? ==>
      && OptionalString(p.importantInfo, "important_info") == Ok(r.value.importantInfo)
      && OptionalString(p.selectedPackage, "selected_package") == Ok(r.value.selectedPackage)
      && OptionalString(p.location, "location") == Ok(r.value.location)
    ensures r.Err? ==> r.error.Code() == 422
    ensures !p.name.Str? ==> r == Err(ValidationFailed("name"))
  {
    var name :- RequiredString(p.name, "name");
    var phone :- RequiredString(p.phone, "phone");
    var date :- RequiredString(p.preferredDate, "preferred_date");
    var time :- RequiredString(p.preferredTime, "preferred_time");
    var eventType :- RequiredString(p.eventType, "event_type");
    var info :- OptionalString(p.importantInfo, "important_info");
    var package :- OptionalString(p.selectedPackage, "selected_package");
    var location :- OptionalString(p.location, "location");
    Ok(BookingCreate(name, phone, date, time, eventType, info, package, location))
  }

  /** The stored record for an accepted request: the request's fields,
      a fresh identifier and time stamp, and status `pending`. */
  function NewBooking(c: BookingCreate, id: string, createdAt: string): (b: Booking)
    ensures b.status == Pending
    ensures b.id == id && b.createdAt == createdAt
    ensures b.name == c.name && b.phone == c.phone
    ensures b.preferredDate == c.preferredDate && b.preferredTime == c.preferredTime
    ensures b.eventType == c.eventType && b.location == c.location
    ensures b.importantInfo == c.importantInfo && b.selectedPackage == c.selectedPackage
  {
    Booking(id, c.name, c.phone, c.preferredDate, c.preferredTime, c.eventType,
            c.location, c.importantInfo, c.selectedPackage, Pending, createdAt)
  }

  /** Empty required strings pass validation: the payload model only
      demands that the fields be strings. */
  lemma {:induction false} EmptyRequiredFieldsAccepted(p: BookingPayload)
    requires p.name == p.phone == p.preferredDate == p.preferredTime == p.eventType == Str("")
    requires OptionalWellTyped(p)
    ensures ParseBookingCreate(p).Ok?
    ensures ParseBookingCreate(p).value.name == ""
  {
  }

  datatype ReelPayload = ReelPayload(url: JsonValue, title: JsonValue)

  datatype ReelCreate = ReelCreate(url: string, title: Option<string>)

  /** Validation of a reel request: `url` must be a string (the empty one
      included), `title` is optional. */
  function ParseReelCreate(p: ReelPayload): (r: Result<ReelCreate, ApiError>)
    ensures r.Ok? <==> p.url.Str? && !p.title.NonString?
    ensures r.Ok? ==> r.value.url == p.url.s
    ensures r.Ok? ==> OptionalString(p.title, "title") == Ok(r.value.title)
    ensures r.Err? ==> r.error.Code() == 422
  {
    var url :- RequiredString(p.url, "url");
    var title :- OptionalString(p.title, "title");
    Ok(ReelCreate(url, title))
  }

  // ---------------------------------------------------------------------
  // Handlers

  /** Booking `i` with its status replaced and nothing else changed. */
  function WithStatus(bookings: seq<Booking>, i: nat, status: string): (r: seq<Booking>)
    requires i < |bookings|
    ensures |r| == |bookings| && r[i] == bookings[i].(status := status)
    ensures forall j :: 0 <= j < |r| && j != i ==> r[j] == bookings[j]
  {
    bookings[i := bookings[i].(status := status)]
  }

  /** With unique identifiers, deleting the first record with `id` leaves
      no record with that identifier and keeps every other one. */
  lemma {:induction false} DeleteRemovesIdentifier(bookings: seq<Booking>, id: string)
    requires forall i, j :: 0 <= i < j < |bookings| ==> bookings[i].id != bookings[j].id
    requires FirstIndexOf(bookings, id, BookingId).Some?
    ensures var r := RemoveAt(bookings, FirstIndexOf(bookings, id, BookingId).value);
      && (forall b :: b in r ==> b.id != id)
      && (forall b :: b in bookings && b.id != id ==> b in r)
  {
    var i := FirstIndexOf(bookings, id, BookingId).value;
    var r := RemoveAt(bookings, i);
    assert bookings[i].id == id;
    forall b | b in r ensures b.id != id {
      var k :| 0 <= k < |r| && r[k] == b;
      if k >= i {
        assert r[k] == bookings[k + 1] && i < k + 1;
      } else {
        assert r[k] == bookings[k] && k < i;
      }
    }
    forall b | b in bookings && b.id != id ensures b in r {
      var k :| 0 <= k < |bookings| && bookings[k] == b;
      if k < i {
        assert r[k] == b;
      } else {
        assert r[k - 1] == b;
      }
    }
  }

  /** The running API: the configuration read at start-up and the two
      collections, each in insertion order. */
  class Api {
    const environment: string
    const adminToken: string
    var bookings: seq<Booking>
    var reels: seq<Reel>

    /** Every stored booking has one of the three statuses. */
    ghost predicate Valid()
      reads this
    {
      forall i :: 0 <= i < |bookings| ==> ValidStatus(bookings[i].status)
    }

    constructor (environmentEnv: Option<string>, adminTokenEnv: Option<string>)
      ensures environment == EnvOr(environmentEnv, DefaultEnvironment)
      ensures adminToken == NormalizeAdminToken(adminTokenEnv)
      ensures bookings == [] && reels == []
      ensures Valid()
    {
      environment := EnvOr(environmentEnv, DefaultEnvironment);
      var t := NormalizeAdminToken(adminTokenEnv);
      adminToken := t;
      bookings := [];
      reels := [];
      new;
      assert Valid();
    }

    /** The gate's verdict on a request carrying `header`. */
    function Gate(header: Option<string>): Result<bool, ApiError>
      reads this
    {
      VerifyAdmin(environment, adminToken, header)
    }

    /** POST /bookings (public): a valid request is stored as `pending`
        and returned; an invalid one changes nothing. */
    method CreateBooking(payload: BookingPayload, id: string, createdAt: string)
      returns (r: Result<Booking, ApiError>)
      requires Valid()
      modifies this`bookings
      ensures Valid()
      ensures r.Ok? <==> ParseBookingCreate(payload).Ok?
      ensures r.Ok? ==>
        && r.value == NewBooking(ParseBookingCreate(payload).value, id, createdAt)
        && r.value.status == Pending
        && bookings == old(bookings) + [r.value]
      ensures r.Err? ==> r.error == ParseBookingCreate(payload).error && bookings == old(bookings)
    {
      var input := ParseBookingCreate(payload);
      if input.Err? {
        return Err(input.error);
      }
      var booking := NewBooking(input.value, id, createdAt);
      bookings := bookings + [booking];
      r := Ok(booking);
    }

    /** GET /bookings (gated): the newest 1000 bookings, newest first. */
    method ListBookings(header: Option<string>) returns (r: Result<seq<Booking>, ApiError>)
      ensures r.Ok? <==> Gate(header).Ok?
      ensures r.Err? ==> r.error == Gate(header).error
      ensures r.Ok? ==> r.value == Listing.TopByKey(bookings, BookingCreatedAt, BookingListLimit)
    {
      var gate := Gate(header);
      if gate.Err? {
        return Err(gate.error);
      }
      r := Ok(Listing.TopByKey(bookings, BookingCreatedAt, BookingListLimit));
    }

    /** GET /bookings/{id} (gated): the first booking with that id, or 404. */
    method GetBooking(header: Option<string>, id: string) returns (r: Result<Booking, ApiError>)
      ensures Gate(header).Err? ==> r == Err(Gate(header).error)
      ensures Gate(header).Ok? ==>
        (r.Ok? <==> exists i :: 0 <= i < |bookings| && bookings[i].id == id)
      ensures r.Ok? ==> r.value in bookings && r.value.id == id
      ensures r.Ok? ==> exists i :: FirstIndexOf(bookings, id, BookingId) == Some(i) && r.value == bookings[i]
      ensures r.Err? && Gate(header).Ok? ==> r.error == BookingNotFound
    {
      var gate := Gate(header);
      if gate.Err? {
        return Err(gate.error);
      }
      var found := FirstIndexOf(bookings, id, BookingId);
      if found.None? {
        return Err(BookingNotFound);
      }
      r := Ok(bookings[found.value]);
    }

    /** PATCH /bookings/{id}/status (gated): a body whose `status` is
        missing or not a string is refused with 422 and an unknown status
        with 400, both before the store is consulted; otherwise the status
        of the first booking with that id is overwritten, whatever it was,
        and the updated record returned; an unknown id gives 404. */
    method UpdateBookingStatus(header: Option<string>, id: string, status: JsonValue)
      returns (r: Result<Booking, ApiError>)
      requires Valid()
      modifies this`bookings
      ensures Valid()
      ensures r.Err? ==> bookings == old(bookings)
      ensures Gate(header).Err? ==> r == Err(Gate(header).error)
      ensures Gate(header).Ok? && !status.Str? ==> r == Err(ValidationFailed("status"))
      ensures Gate(header).Ok? && status.Str? && !ValidStatus(status.s) ==> r == Err(InvalidStatus)
      ensures Gate(header).Ok? && status.Str? && ValidStatus(status.s) ==>
        match FirstIndexOf(old(bookings), id, BookingId)
        case None => r == Err(BookingNotFound)
        case Some(i) =>
          && bookings == WithStatus(old(bookings), i, status.s)
          && r == Ok(old(bookings)[i].(status := status.s))
    {
      var gate := Gate(header);
      if gate.Err? {
        return Err(gate.error);
      }
      var s := RequiredString(status, "status");
      if s.Err? {
        return Err(s.error);
      }
      if !ValidStatus(s.value) {
        return Err(InvalidStatus);
      }
      var found := FirstIndexOf(bookings, id, BookingId);
      if found.None? {
        return Err(BookingNotFound);
      }
      var i := found.value;
      bookings := WithStatus(bookings, i, s.value);
      r := Ok(bookings[i]);
    }

    /** DELETE /bookings/{id} (gated): the first booking with that id is
        removed, or 404 and nothing changes. */
    method DeleteBooking(header: Option<string>, id: string) returns (r: Result<string, ApiError>)
      requires Valid()
      modifies this`bookings
      ensures Valid()
      ensures r.Err? ==> bookings == old(bookings)
      ensures Gate(header).Err? ==> r == Err(Gate(header).error)
      ensures Gate(header).Ok? ==>
        match FirstIndexOf(old(bookings), id, BookingId)
        case None => r == Err(BookingNotFound)
        case Some(i) => bookings == RemoveAt(old(bookings), i) && r == Ok("Booking deleted")
    {
      var gate := Gate(header);
      if gate.Err? {
        return Err(gate.error);
      }
      var found := FirstIndexOf(bookings, id, BookingId);
      if found.None? {
        return Err(BookingNotFound);
      }
      bookings := RemoveAt(bookings, found.value);
      r := Ok("Booking deleted");
    }

    /** GET /reels (public): the newest 100 reels, newest first. */
    method ListReels() returns (r: seq<Reel>)
      ensures r == Listing.TopByKey(reels, ReelCreatedAt, ReelListLimit)
    {
      r := Listing.TopByKey(reels, ReelCreatedAt, ReelListLimit);
    }

    /** POST /reels (gated): a valid request is stored and returned. */
    method CreateReel(header: Option<string>, payload: ReelPayload, id: string, createdAt: string)
      returns (r: Result<Reel, ApiError>)
      modifies this`reels
      ensures r.Err? ==> reels == old(reels)
      ensures Gate(header).Err? ==> r == Err(Gate(header).error)
      ensures Gate(header).Ok? ==>
        match ParseReelCreate(payload)
        case Err(e) => r == Err(e)
        case Ok(c) =>
          && r == Ok(Reel(id, c.url, c.title, createdAt))
          && reels == old(reels) + [r.value]
    {
      var gate := Gate(header);
      if gate.Err? {
        return Err(gate.error);
      }
      var input := ParseReelCreate(payload);
      if input.Err? {
        return Err(input.error);
      }
      var reel := Reel(id, input.value.url, input.value.title, createdAt);
      reels := reels + [reel];
      r := Ok(reel);
    }

    /** DELETE /reels/{id} (gated): the first reel with that id is removed,
        or 404 and nothing changes. */
    method DeleteReel(header: Option<string>, id: string) returns (r: Result<string, ApiError>)
      modifies this`reels
      ensures r.Err? ==> reels == old(reels)
      ensures Gate(header).Err? ==> r == Err(Gate(header).error)
      ensures Gate(header).Ok? ==>
        match FirstIndexOf(old(reels), id, ReelId)
        case None => r == Err(ReelNotFound)
        case Some(i) => reels == RemoveAt(old(reels), i) && r == Ok("Reel deleted")
    {
      var gate := Gate(header);
      if gate.Err? {
        return Err(gate.error);
      }
      var found := FirstIndexOf(reels, id, ReelId);
      if found.None? {
        return Err(ReelNotFound);
      }
      reels := RemoveAt(reels, found.value);
      r := Ok("Reel deleted");
    }
  }
}
