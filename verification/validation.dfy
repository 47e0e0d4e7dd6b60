/**
 * The request payloads of the API and the constraints declared on their fields.
 * A JSON key that is absent takes the constructor default ("" or 0) and is then
 * validated like any other value; the request is refused with 422 when the list
 * of violations is not empty.
 */
module Validation {
  import opened Wrappers
  import opened DateTimes
  import opened Emails

  /** The payload fields that carry constraints. */
  datatype Field = Name | Email | StartDate | EndDate | Location | Capacity

  /** One failed constraint on one field. */
  datatype Violation =
    | NotBlank(field: Field)
    | DateTimeFormat(field: Field)
    | EmailFormat(field: Field)
    | GreaterThanZero(field: Field)

  // ---------------------------------------------------------------- events

  /** Body of POST /api/events, as sent: a key may be absent. */
  datatype EventPayload = EventPayload(
    name: Option<string>, description: Option<string>,
    startDate: Option<string>, endDate: Option<string>,
    location: Option<string>, capacity: Option<int>)

  /** The event request object: absent keys take their defaults. */
  datatype EventDto = EventDto(
    name: string, description: string, startDate: string, endDate: string,
    location: string, capacity: int)

  function EventDtoOf(p: EventPayload): (d: EventDto) {
    EventDto(p.name.GetOr(""), p.description.GetOr(""), p.startDate.GetOr(""),
             p.endDate.GetOr(""), p.location.GetOr(""), p.capacity.GetOr(0))
  }

  /** NotBlank on a string field: the empty string is blank, whitespace is not. */
  function NotBlankViolations(f: Field, s: string): (v: seq<Violation>)
    ensures forall x :: x in v ==> x.field == f
    ensures v == [] <==> s != ""
  {
    if s == "" then [NotBlank(f)] else []
  }

  /** NotBlank and DateTime on a date field; the format check skips the empty string. */
  function DateViolations(f: Field, s: string): (v: seq<Violation>)
    ensures forall x :: x in v ==> x.field == f
    ensures v == [] <==> IsDateTime(s)
    ensures NotBlank(f) in v <==> s == ""
    ensures DateTimeFormat(f) in v <==> s != "" && !IsDateTime(s)
  {
    if s == "" then [NotBlank(f)]
    else if !IsDateTime(s) then [DateTimeFormat(f)]
    else []
  }

  /** Every violated constraint of an event request, in field order. */
  function EventViolations(d: EventDto): (v: seq<Violation>)
    ensures v == [] <==>
      d.name != "" && IsDateTime(d.startDate) && IsDateTime(d.endDate)
      && d.location != "" && d.capacity > 0
    ensures NotBlank(Name) in v <==> d.name == ""
    ensures NotBlank(StartDate) in v <==> d.startDate == ""
    ensures DateTimeFormat(StartDate) in v <==> d.startDate != "" && !IsDateTime(d.startDate)
    ensures NotBlank(EndDate) in v <==> d.endDate == ""
    ensures DateTimeFormat(EndDate) in v <==> d.endDate != "" && !IsDateTime(d.endDate)
    ensures NotBlank(Location) in v <==> d.location == ""
    ensures GreaterThanZero(Capacity) in v <==> d.capacity <= 0
  {
    NotBlankViolations(Name, d.name)
      + DateViolations(StartDate, d.startDate)
      + DateViolations(EndDate, d.endDate)
      + NotBlankViolations(Location, d.location)
      + (if d.capacity > 0 then [] else [GreaterThanZero(Capacity)])
  }

  predicate IsValidEvent(d: EventDto) {
    EventViolations(d) == []
  }

  /** A request missing any constrained key is refused (the defaults fail their constraints). */
  lemma MissingEventKeyRejected(p: EventPayload)
    requires p.name.None? || p.startDate.None? || p.endDate.None?
          || p.location.None? || p.capacity.None?
    ensures !IsValidEvent(EventDtoOf(p))
  {
    assert !IsDateTime("");
  }

  /** The description is unconstrained: any description, blank included, leaves the verdict alone. */
  lemma DescriptionUnconstrained(d: EventDto, description: string)
    ensures EventViolations(d.(description := description)) == EventViolations(d)
  {
  }

  /** There is no check across fields: exchanging the two dates never changes the verdict. */
  lemma NoDateOrderCheck(d: EventDto)
    ensures IsValidEvent(d.(startDate := d.endDate, endDate := d.startDate)) == IsValidEvent(d)
  {
  }

  // ------------------------------------------------------------- attendees

  /** Body of POST /api/events/{eventId}/attendees, as sent. */
  datatype AttendeePayload = AttendeePayload(name: Option<string>, email: Option<string>)

  datatype AttendeeDto = AttendeeDto(name: string, email: string)

  function AttendeeDtoOf(p: AttendeePayload): (d: AttendeeDto) {
    AttendeeDto(p.name.GetOr(""), p.email.GetOr(""))
  }

  /** Every violated constraint of a registration request; the Email check skips the empty string. */
  function AttendeeViolations(d: AttendeeDto): (v: seq<Violation>)
    ensures v == [] <==> d.name != "" && IsEmail(d.email)
    ensures NotBlank(Name) in v <==> d.name == ""
    ensures NotBlank(Email) in v <==> d.email == ""
    ensures EmailFormat(Email) in v <==> d.email != "" && !IsEmail(d.email)
  {
    NotBlankViolations(Name, d.name)
      + (if d.email == "" then [NotBlank(Email)]
         else if !IsEmail(d.email) then [EmailFormat(Email)]
         else [])
  }

  predicate IsValidAttendee(d: AttendeeDto) {
    AttendeeViolations(d) == []
  }

  /** A registration missing its name or its email is refused. */
  lemma MissingAttendeeKeyRejected(p: AttendeePayload)
    requires p.name.None? || p.email.None?
    ensures !IsValidAttendee(AttendeeDtoOf(p))
  {
  }

  /** The registration payloads of the tests: one accepted, four refused. */
  lemma AttendeeExamples()
    ensures IsValidAttendee(AttendeeDto("John Doe", TestAddress('1')))
    ensures !IsValidAttendee(AttendeeDtoOf(AttendeePayload(None, Some(TestAddress('1')))))
    ensures !IsValidAttendee(AttendeeDtoOf(AttendeePayload(Some("John Doe"), None)))
    ensures AttendeeViolations(AttendeeDto("John Doe", AddressWithoutAt)) == [EmailFormat(Email)]
    ensures AttendeeViolations(AttendeeDto("John Doe", AddressWithoutDomainDot)) == [EmailFormat(Email)]
  {
    TestAddressAccepted('1');
    AddressWithoutAtRejected();
    AddressWithoutDomainDotRejected();
  }
}
