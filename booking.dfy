/** The booking form (src/pages/Booking.jsx): a guest name and two dates,
    checked in two stages before the booking is sent to the store. */
module BookingForm {
  import opened Wrappers
  import opened Json

  /** A date input: empty, or a chosen day (dates are day numbers). */
  datatype DateInput = Blank | Date(day: int)

  datatype Form = Form(guestName: string, checkIn: DateInput, checkOut: DateInput)

  /** One input event of the form (handleChange). */
  datatype Change = GuestName(text: string) | CheckIn(date: DateInput) | CheckOut(date: DateInput)

  const EmptyForm := Form("", Blank, Blank)

  const MissingFields := "Please fill in all fields."
  const DatesOutOfOrder := "Check-out date must be after check-in date."
  const CreateFailed := "Failed to create booking. Please try again."
  const RoomLoadFailed := "Failed to load room details."

  /** The first validation error of a submitted form, if any: a missing
      field is reported before the order of the dates is looked at. */
  function Validate(f: Form): Option<string>
  {
    if f.guestName == "" || f.checkIn.Blank? || f.checkOut.Blank? then Some(MissingFields)
    else if f.checkIn.day >= f.checkOut.day then Some(DatesOutOfOrder)
    else None
  }

  /** A form passes validation exactly when every field is filled in and
      check-in comes strictly before check-out. */
  lemma ValidateAccepts(f: Form)
    ensures Validate(f) == None <==>
              f.guestName != "" && f.checkIn.Date? && f.checkOut.Date? && f.checkIn.day < f.checkOut.day
  {
  }

  /** Any missing field gives the missing-fields error, whatever the dates. */
  lemma MissingFieldsFirst(f: Form)
    requires f.guestName == "" || f.checkIn.Blank? || f.checkOut.Blank?
    ensures Validate(f) == Some(MissingFields)
  {
  }

  /** A complete form whose check-in is on or after its check-out gives the
      date-order error. */
  lemma DatesOutOfOrderRejected(f: Form)
    requires f.guestName != "" && f.checkIn.Date? && f.checkOut.Date?
    requires f.checkIn.day >= f.checkOut.day
    ensures Validate(f) == Some(DatesOutOfOrder)
  {
  }

  /** How a date input is stored in a record. */
  function DateValue(d: DateInput): Value
  {
    match d
    case Blank => Str("")
    case Date(n) => Day(n)
  }

  /** `bookingData`: the route's room id, the signed-in user's id (the
      field is absent when nobody is signed in, since `undefined` is not
      serialised) and the three form fields as entered. */
  function BookingRecord(roomId: int, user: Option<Record>, f: Form): (r: Record)
    ensures r.Keys == {"roomId", "guestName", "checkIn", "checkOut"} +
                      (if user.Some? && "id" in user.value then {"userId"} else {})
    ensures Get(r, "userId") == (if user.Some? then Get(user.value, "id") else None)
    ensures r["roomId"] == Num(roomId) && r["guestName"] == Str(f.guestName)
    ensures r["checkIn"] == DateValue(f.checkIn) && r["checkOut"] == DateValue(f.checkOut)
  {
    var fields := map["roomId" := Num(roomId), "guestName" := Str(f.guestName),
                      "checkIn" := DateValue(f.checkIn), "checkOut" := DateValue(f.checkOut)];
    if user.Some? && "id" in user.value then fields["userId" := user.value["id"]] else fields
  }

  /** A booking built from a form that passed validation has a non-empty
      guest name and a check-in day strictly before its check-out day. */
  lemma ValidatedBookingIsSound(roomId: int, user: Option<Record>, f: Form)
    requires Validate(f) == None
    ensures BookingRecord(roomId, user, f)["guestName"] != Str("")
    ensures exists a, b :: BookingRecord(roomId, user, f)["checkIn"] == Day(a) &&
                           BookingRecord(roomId, user, f)["checkOut"] == Day(b) && a < b
  {
    var r := BookingRecord(roomId, user, f);
    assert r["checkIn"] == Day(f.checkIn.day) && r["checkOut"] == Day(f.checkOut.day);
  }

  class Page {
    var formData: Form
    var room: Option<Value>
    var loading: bool
    var submitting: bool
    var error: Option<string>
    var success: bool

    constructor ()
      ensures formData == EmptyForm && room == None && loading
      ensures !submitting && error == None && !success
    {
      formData, room, loading := EmptyForm, None, true;
      submitting, error, success := false, None, false;
    }

    /** The mount effect (fetchRoom): `reply` is the store's answer for the
        route's room. */
    method LoadRoom(reply: Reply<Value>)
      modifies this`room, this`error, this`loading
      ensures reply.Ok? ==> room == Some(reply.value) && error == old(error)
      ensures reply.Err? ==> room == old(room) && error == Some(RoomLoadFailed)
      ensures !loading
    {
      if reply.Ok? {
        room := Some(reply.value);
      } else {
        error := Some(RoomLoadFailed);
      }
      loading := false;
    }

    /** handleChange: the changed input takes its new value. */
    method HandleChange(c: Change)
      modifies this`formData
      ensures formData == match c
                          case GuestName(t) => old(formData).(guestName := t)
                          case CheckIn(d) => old(formData).(checkIn := d)
                          case CheckOut(d) => old(formData).(checkOut := d)
    {
      match c
      case GuestName(t) => formData := formData.(guestName := t);
      case CheckIn(d) => formData := formData.(checkIn := d);
      case CheckOut(d) => formData := formData.(checkOut := d);
    }

    /** handleSubmit: clears the error, validates, and only then sends the
        booking (`sent`) to the store, whose answer is `reply`. `submitting`
        is false again on every way out; `success` is set only when the
        store accepted the booking. */
    method HandleSubmit(roomId: int, user: Option<Record>, reply: Reply<Value>) returns (sent: Option<Record>)
      modifies this`submitting, this`error, this`success
      ensures sent == if Validate(formData) == None then Some(BookingRecord(roomId, user, formData)) else None
      ensures !submitting
      ensures Validate(formData).Some? ==> error == Validate(formData) && success == old(success)
      ensures Validate(formData) == None && reply.Ok? ==> error == None && success
      ensures Validate(formData) == None && reply.Err? ==> error == Some(CreateFailed) && success == old(success)
    {
      error := None;
      submitting := true;

      if formData.guestName == "" || formData.checkIn.Blank? || formData.checkOut.Blank? {
        error := Some(MissingFields);
        submitting := false;
        return None;
      }

      if formData.checkIn.day >= formData.checkOut.day {
        error := Some(DatesOutOfOrder);
        submitting := false;
        return None;
      }

      var bookingData := BookingRecord(roomId, user, formData);
      sent := Some(bookingData);
      if reply.Ok? {
        success := true;
      } else {
        error := Some(CreateFailed);
      }
      submitting := false;
    }
  }
}
