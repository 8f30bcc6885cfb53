/** The public booking form: six text fields, a submit that posts them to
    the service, and the success and failure states that follow. */
module BookingForm {
  import opened Records
  import Server

  /** The six inputs of the form. */
  datatype Field = Name | Phone | PreferredDate | PreferredTime | EventType | ImportantInfo

  datatype Form = Form(
    name: string,
    phone: string,
    preferredDate: string,
    preferredTime: string,
    eventType: string,
    importantInfo: string)

  const EmptyForm: Form := Form("", "", "", "", "", "")

  const SubmitError: string := "Something went wrong. Please try again."

  /** The value of one field. */
  function Get(f: Form, field: Field): string {
    match field
    case Name => f.name
    case Phone => f.phone
    case PreferredDate => f.preferredDate
    case PreferredTime => f.preferredTime
    case EventType => f.eventType
    case ImportantInfo => f.importantInfo
  }

  /** The form with one field replaced. */
  function With(f: Form, field: Field, value: string): (g: Form)
    ensures Get(g, field) == value
    ensures forall other :: other != field ==> Get(g, other) == Get(f, other)
  {
    match field
    case Name => f.(name := value)
    case Phone => f.(phone := value)
    case PreferredDate => f.(preferredDate := value)
    case PreferredTime => f.(preferredTime := value)
    case EventType => f.(eventType := value)
    case ImportantInfo => f.(importantInfo := value)
  }

  /** A form is determined by its six field values, so `With` is the only
      form with the new value in `field` and the old ones elsewhere. */
  lemma {:induction false} FormsAgree(f: Form, g: Form)
    requires forall field :: Get(f, field) == Get(g, field)
    ensures f == g
  {
    assert Get(f, Name) == Get(g, Name) && Get(f, Phone) == Get(g, Phone);
    assert Get(f, PreferredDate) == Get(g, PreferredDate) && Get(f, PreferredTime) == Get(g, PreferredTime);
    assert Get(f, EventType) == Get(g, EventType) && Get(f, ImportantInfo) == Get(g, ImportantInfo);
  }

  /** Writing a field and then writing the same field again keeps only the
      second value; writing two different fields commutes. */
  lemma {:induction false} WithLaws(f: Form, a: Field, b: Field, x: string, y: string)
    ensures With(With(f, a, x), a, y) == With(f, a, y)
    ensures a != b ==> With(With(f, a, x), b, y) == With(With(f, b, y), a, x)
  {
    forall field ensures Get(With(With(f, a, x), a, y), field) == Get(With(f, a, y), field) {
    }
    FormsAgree(With(With(f, a, x), a, y), With(f, a, y));
    if a != b {
      forall field ensures Get(With(With(f, a, x), b, y), field) == Get(With(With(f, b, y), a, x), field) {
      }
      FormsAgree(With(With(f, a, x), b, y), With(With(f, b, y), a, x));
    }
  }

  /** The fields marked `required`, which the browser insists on before it
      submits. */
  predicate Required(field: Field) {
    field != ImportantInfo
  }

  /** The browser's constraint check: every required field is non-empty. */
  predicate BrowserSubmits(f: Form) {
    forall field :: Required(field) ==> Get(f, field) != ""
  }

  /** The cleared form cannot be submitted, while a blank important-info
      field never stops a submission. */
  lemma {:induction false} RequiredFieldsGuard(f: Form, info: string)
    ensures !BrowserSubmits(EmptyForm)
    ensures BrowserSubmits(f) <==> BrowserSubmits(With(f, ImportantInfo, info))
    ensures BrowserSubmits(f) ==>
      && f.name != "" && f.phone != "" && f.preferredDate != ""
      && f.preferredTime != "" && f.eventType != ""
  {
    assert Required(Name) && Get(EmptyForm, Name) == "";
    if BrowserSubmits(f) {
      assert Required(Name) && Required(Phone) && Required(PreferredDate);
      assert Required(PreferredTime) && Required(EventType);
    }
  }

  /** The request body posted: the six fields as strings; location and
      package are never sent. */
  function Payload(f: Form): Server.BookingPayload {
    Server.BookingPayload(
      Server.Str(f.name), Server.Str(f.phone), Server.Str(f.preferredDate),
      Server.Str(f.preferredTime), Server.Str(f.eventType), Server.Str(f.importantInfo),
      Server.Absent, Server.Absent, Server.Absent)
  }

  /** The service accepts every body the form posts, whatever the field
      values, copies the six fields and fills location and package with
      the empty default. */
  lemma {:induction false} ServiceAcceptsEveryForm(f: Form)
    ensures var r := Server.ParseBookingCreate(Payload(f));
      && r.Ok?
      && r.value.name == f.name && r.value.phone == f.phone
      && r.value.preferredDate == f.preferredDate && r.value.preferredTime == f.preferredTime
      && r.value.eventType == f.eventType
      && r.value.importantInfo == Some(f.importantInfo)
      && r.value.location == Some("") && r.value.selectedPackage == Some("")
  {
  }

  class BookingSection {
    var form: Form
    var loading: bool
    var success: bool
    var error: string

    constructor ()
      ensures form == EmptyForm && !loading && !success && error == ""
    {
      form := EmptyForm;
      loading := false;
      success := false;
      error := "";
    }

    /** `handleChange`: exactly the named field takes the new value. */
    method HandleChange(field: Field, value: string)
      modifies this`form
      ensures form == With(old(form), field, value)
      ensures Get(form, field) == value
      ensures forall other :: other != field ==> Get(form, other) == Get(old(form), other)
    {
      form := With(form, field, value);
    }

    /** The start of `handleSubmit`: loading on, message and success
        cleared, and the current form is what gets posted. */
    method BeginSubmit() returns (payload: Server.BookingPayload)
      modifies this`loading, this`error, this`success
      ensures loading && error == "" && !success
      ensures payload == Payload(form)
    {
      loading := true;
      error := "";
      success := false;
      payload := Payload(form);
    }

    /** The end of `handleSubmit`, given whether the post succeeded: success
        clears the form, failure sets the fixed message and keeps it;
        loading ends either way. */
    method FinishSubmit(postOk: bool)
      modifies this`form, this`success, this`error, this`loading
      ensures !loading
      ensures postOk ==> success && form == EmptyForm && error == old(error)
      ensures !postOk ==> success == old(success) && error == SubmitError && form == old(form)
    {
      if postOk {
        success := true;
        form := EmptyForm;
      } else {
        error := SubmitError;
      }
      loading := false;
    }

    /** `handleSubmit` as one step. */
    method HandleSubmit(postOk: bool) returns (payload: Server.BookingPayload)
      modifies this`form, this`success, this`error, this`loading
      ensures payload == Payload(old(form))
      ensures !loading
      ensures postOk ==> success && error == "" && form == EmptyForm
      ensures !postOk ==> !success && error == SubmitError && form == old(form)
    {
      payload := BeginSubmit();
      FinishSubmit(postOk);
    }

    /** "Book Another Shoot": the success panel gives way to the form. */
    method BookAnother()
      modifies this`success
      ensures !success
    {
      success := false;
    }
  }
}
