/**
 * The registration flow exercised by the API's controller tests, replayed
 * against the store: one event of capacity 2, a registration, a duplicate,
 * a malformed payload, a second registration that fills the event, a third
 * that is turned away, a deletion through the right event, and a deletion
 * through the wrong one.
 */
module Scenarios {
  import opened Wrappers
  import opened DateTimes
  import opened Emails
  import opened Validation
  import opened Repository
  import opened Api

  const StartDate: string := "2025-01-18 09:00:00"
  const EndDate: string := "2025-01-18 17:00:00"

  /** The event the attendee tests create: capacity 2. */
  function TestEvent(name: string): (event: EventDto) {
    EventDto(name, "test description", StartDate, EndDate, "London, UK", 2)
  }

  function TestAttendee(n: char): (r: AttendeeDto) {
    AttendeeDto("John Doe", TestAddress(n))
  }

  /** The test event passes validation. */
  lemma TestEventValid(name: string)
    requires name != ""
    ensures IsValidEvent(TestEvent(name))
  {
    TestDatesValid();
  }

  lemma TestDatesValid()
    ensures IsDateTime(StartDate) && IsDateTime(EndDate)
  {
    assert ParseDateTime(StartDate).Some?;
    assert ParseDateTime(EndDate).Some?;
  }

  /** Each test registration passes validation. */
  lemma TestAttendeeValid(n: char)
    requires '0' <= n <= '9'
    ensures IsValidAttendee(TestAttendee(n))
  {
    TestAddressAccepted(n);
    assert TestAttendee(n).name != "";
  }

  /** The event request of the tests, as a value whose literal contents stay out of the callers' proofs. */
  method EventRequest(name: string) returns (event: EventDto)
    requires name != ""
    ensures IsValidEvent(event) && event.capacity == 2
  {
    TestEventValid(name);
    event := TestEvent(name);
  }

  /** The registration request for `john.doe<n>@example.com`; the digit tells the emails apart. */
  method AttendeeRequest(n: char) returns (r: AttendeeDto)
    requires '0' <= n <= '9'
    ensures IsValidAttendee(r) && |r.email| > 8 && r.email[8] == n
  {
    TestAttendeeValid(n);
    r := TestAttendee(n);
  }

  /** The attendee tests' event: capacity 2, created in an empty store. */
  method CreatePhase() returns (store: Store, eventId: int, status: int, total: nat)
    ensures fresh(store) && store.Valid() && status == 201 && total == 0
    ensures eventId in store.events && store.events[eventId].capacity == 2
    ensures store.attendees == map[] && store.outbox == []
  {
    var event := EventRequest("Attendee test event name");
    store := new Store();
    var created := store.CreateEvent(event);
    eventId := created.id;
    status, total := created.Status(), TotalAttendees(store.attendees, eventId);
  }

  /** The first registration is admitted and queues one confirmation. */
  method FirstPhase(store: Store, eventId: int) returns (r1: AttendeeDto, firstId: int, status: int, total: nat)
    requires store.Valid() && eventId in store.events && store.events[eventId].capacity == 2
    requires store.attendees == map[] && store.outbox == []
    modifies store
    ensures store.Valid() && status == 201 && total == 1 && IsValidAttendee(r1)
    ensures store.events == old(store.events) && TotalAttendees(store.attendees, eventId) == 1
    ensures store.attendees == map[firstId := AttendeeRow(r1.name, r1.email, eventId, true, false)]
    ensures |r1.email| > 8 && r1.email[8] == '1'
    ensures store.outbox == [firstId]
  {
    r1 := AttendeeRequest('1');
    assert CountByEventAndEmail(store.attendees, eventId, r1.email) == 0;
    var first := store.Register(eventId, r1);
    assert first.Created?;
    firstId, status, total := first.id, first.Status(), TotalAttendees(store.attendees, eventId);
  }

  /** The same email again is a conflict, and changes nothing. */
  method ConflictPhase(store: Store, eventId: int, r1: AttendeeDto, firstId: int) returns (status: int, total: nat)
    requires store.Valid() && eventId in store.events && store.events[eventId].capacity == 2
    requires IsValidAttendee(r1)
    requires store.attendees == map[firstId := AttendeeRow(r1.name, r1.email, eventId, true, false)]
    modifies store
    ensures store.Valid() && status == 409 && total == 1
    ensures store.events == old(store.events) && store.attendees == old(store.attendees)
    ensures store.outbox == old(store.outbox)
  {
    assert AttendeesOf(map[], eventId) == {};
    CountAfterInsert(map[], firstId, store.attendees[firstId], eventId, r1.email);
    TotalAfterInsert(map[], firstId, store.attendees[firstId], eventId);
    var again := store.Register(eventId, r1);
    assert again == Conflict;
    status, total := again.Status(), TotalAttendees(store.attendees, eventId);
  }

  /** A payload without a name is refused by validation, and changes nothing. */
  method NamelessPhase(store: Store, eventId: int, email: string) returns (status: int, total: nat)
    requires store.Valid() && eventId in store.events && TotalAttendees(store.attendees, eventId) == 1
    modifies store
    ensures store.Valid() && status == 422 && total == 1
    ensures store.events == old(store.events) && store.attendees == old(store.attendees)
    ensures store.outbox == old(store.outbox)
  {
    var nameless := store.Register(eventId, AttendeeDtoOf(AttendeePayload(None, Some(email))));
    assert nameless.Invalid?;
    status, total := nameless.Status(), TotalAttendees(store.attendees, eventId);
  }

  /** The capacity test, first half: a second email fills the event. */
  method FillPhase(store: Store, eventId: int, r1: AttendeeDto, firstId: int) returns (secondId: int, status: int, total: nat)
    requires store.Valid() && eventId in store.events && store.events[eventId].capacity == 2
    requires store.attendees == map[firstId := AttendeeRow(r1.name, r1.email, eventId, true, false)]
    requires |r1.email| > 8 && r1.email[8] == '1'
    requires store.outbox == [firstId]
    modifies store
    ensures store.Valid() && status == 201 && total == 2
    ensures store.events == old(store.events) && firstId != secondId
    ensures store.attendees.Keys == {firstId, secondId}
    ensures store.attendees[firstId].eventId == eventId && store.attendees[secondId].eventId == eventId
    ensures store.outbox == [firstId, secondId] && firstId < secondId
    ensures TotalAttendees(store.attendees, eventId) == 2
  {
    var r2 := AttendeeRequest('2');
    assert AttendeesOf(map[], eventId) == {};
    CountAfterInsert(map[], firstId, store.attendees[firstId], eventId, r2.email);
    TotalAfterInsert(map[], firstId, store.attendees[firstId], eventId);
    var second := store.Register(eventId, r2);
    assert second.Created?;
    secondId, status, total := second.id, second.Status(), TotalAttendees(store.attendees, eventId);
  }

  /** The capacity test, second half: a third email finds the event full and changes nothing. */
  method FullPhase(store: Store, eventId: int) returns (status: int, total: nat)
    requires store.Valid()
    requires eventId in store.events && store.events[eventId].capacity == 2
    requires TotalAttendees(store.attendees, eventId) == 2
    modifies store
    ensures store.Valid() && status == 422 && total == 2
    ensures store.events == old(store.events) && store.attendees == old(store.attendees)
    ensures store.outbox == old(store.outbox)
  {
    var r3 := AttendeeRequest('3');
    var third := store.Register(eventId, r3);
    assert third == CapacityFull;
    status, total := third.Status(), TotalAttendees(store.attendees, eventId);
  }

  /** The deletion test: the second attendee is deleted through its own event, freeing a place. */
  method DeletePhase(store: Store, eventId: int, firstId: int, secondId: int) returns (status: int, total: nat)
    requires store.Valid() && eventId in store.events && firstId != secondId
    requires store.attendees.Keys == {firstId, secondId}
    requires store.attendees[firstId].eventId == eventId && store.attendees[secondId].eventId == eventId
    requires TotalAttendees(store.attendees, eventId) == 2
    modifies store
    ensures store.Valid() && status == 204 && total == 1
    ensures store.events == old(store.events) && store.outbox == old(store.outbox)
    ensures store.attendees.Keys == {firstId} && store.attendees[firstId].eventId == eventId
    ensures TotalAttendees(store.attendees, eventId) == 1
  {
    var deleted := store.Delete(eventId, secondId);
    assert deleted == NoContent;
    status, total := deleted.Status(), TotalAttendees(store.attendees, eventId);
  }

  /** The forbidden-deletion test: a second event is created, and the first attendee cannot be deleted through it. */
  method ForbiddenPhase(store: Store, eventId: int, firstId: int) returns (created: int, status: int, total: nat)
    requires store.Valid() && eventId in store.events
    requires firstId in store.attendees && store.attendees[firstId].eventId == eventId
    requires TotalAttendees(store.attendees, eventId) == 1
    modifies store
    ensures store.Valid() && created == 201 && status == 403 && total == 1
    ensures store.outbox == old(store.outbox)
  {
    var otherEvent := EventRequest("Attendee test event name the second");
    var other := store.CreateEvent(otherEvent);
    assert other.id != eventId;
    var forbidden := store.Delete(other.id, firstId);
    assert forbidden == Forbidden;
    created, status, total := other.Status(), forbidden.Status(), TotalAttendees(store.attendees, eventId);
  }

  /** The whole sequence of the attendee controller tests, and the confirmations it queues. */
  method RegistrationScenario() returns (statuses: seq<int>, totals: seq<nat>, queued: seq<int>)
    ensures statuses == [201, 201, 409, 422, 201, 422, 204, 201, 403]
    ensures totals == [0, 1, 1, 1, 2, 2, 1, 1]
    ensures |queued| == 2 && queued[0] < queued[1]
  {
    var store, eventId, created, total0 := CreatePhase();
    var r1, firstId, registered, total1 := FirstPhase(store, eventId);
    var conflict, total2 := ConflictPhase(store, eventId, r1, firstId);
    var nameless, total3 := NamelessPhase(store, eventId, r1.email);
    var secondId, filled, total4 := FillPhase(store, eventId, r1, firstId);
    var queue := store.outbox;
    var full, total5 := FullPhase(store, eventId);
    var deleted, total6 := DeletePhase(store, eventId, firstId, secondId);
    var other, forbidden, total7 := ForbiddenPhase(store, eventId, firstId);
    statuses := [created, registered, conflict, nameless, filled, full, deleted, other, forbidden];
    totals := [total0, total1, total2, total3, total4, total5, total6, total7];
    assert store.outbox == queue;
    queued := queue;
  }
}
