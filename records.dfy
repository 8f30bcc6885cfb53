/** The records the booking service stores and exchanges, and the error
    responses its handlers raise. */
module Records {

  datatype Option<T> = None | Some(value: T)

  datatype Result<T, E> = Ok(value: T) | Err(error: E) {
    predicate IsFailure() { Err? }

    function PropagateFailure<U>(): Result<U, E>
      requires Err?
    {
      Err(error)
    }

    function Extract(): T
      requires Ok?
    {
      value
    }
  }

  /** The three booking statuses the service accepts. */
  const Pending: string := "pending"
  const Confirmed: string := "confirmed"
  const Completed: string := "completed"

  predicate ValidStatus(s: string) {
    s == Pending || s == Confirmed || s == Completed
  }

  /** A stored booking. The three optional fields are `Optional[str]`
      with default "": `None` stands for an explicit JSON null. */
  datatype Booking = Booking(
    id: string,
    name: string,
    phone: string,
    preferredDate: string,
    preferredTime: string,
    eventType: string,
    location: Option<string>,
    importantInfo: Option<string>,
    selectedPackage: Option<string>,
    status: string,
    createdAt: string)

  /** A stored link to a promotional media post. */
  datatype Reel = Reel(id: string, url: string, title: Option<string>, createdAt: string)

  function BookingId(b: Booking): string { b.id }
  function BookingCreatedAt(b: Booking): string { b.createdAt }
  function ReelId(r: Reel): string { r.id }
  function ReelCreatedAt(r: Reel): string { r.createdAt }

  /** The HTTP errors the handlers raise. */
  datatype ApiError =
    | ValidationFailed(field: string)  // request body rejected by the payload model
    | InvalidStatus
    | MissingToken
    | TokenMismatch
    | BookingNotFound
    | ReelNotFound
  {
    function Code(): int {
      match this
      case ValidationFailed(_) => 422
      case InvalidStatus => 400
      case MissingToken => 401
      case TokenMismatch => 401
      case BookingNotFound => 404
      case ReelNotFound => 404
    }

    function Detail(): string {
      match this
      case ValidationFailed(f) => f  // the 422 body names the offending field
      case InvalidStatus => "Invalid status. Must be pending, confirmed, or completed"
      case MissingToken => "Unauthorized: Missing token"
      case TokenMismatch => "Unauthorized: Token mismatch"
      case BookingNotFound => "Booking not found"
      case ReelNotFound => "Reel not found"
    }
  }

  /** Position of the first element whose identifier is `id`, as
      MongoDB's `find_one`/`delete_one` pick the first matching document. */
  function FirstIndexOf<T>(s: seq<T>, id: string, idOf: T -> string): (r: Option<nat>)
    ensures r.Some? ==> r.value < |s| && idOf(s[r.value]) == id
    ensures r.Some? ==> forall j :: 0 <= j < r.value ==> idOf(s[j]) != id
    ensures r.None? ==> forall j :: 0 <= j < |s| ==> idOf(s[j]) != id
  {
    if s == [] then None
    else if idOf(s[0]) == id then Some(0)
    else match FirstIndexOf(s[1..], id, idOf)
      case None => None
      case Some(k) => Some(k + 1)
  }

  /** `s` without its element at position `i`. */
  function RemoveAt<T>(s: seq<T>, i: nat): (r: seq<T>)
    requires i < |s|
    ensures |r| == |s| - 1
    ensures multiset(r) + multiset{s[i]} == multiset(s)
    ensures forall k :: 0 <= k < i ==> r[k] == s[k]
    ensures forall k :: i <= k < |r| ==> r[k] == s[k + 1]
  {
    assert s == s[..i] + [s[i]] + s[i + 1..];
    s[..i] + s[i + 1..]
  }
}
