/**
 * The two controllers over one sequential in-memory store.
 *
 * Every request runs to completion before the next begins. An id in a path
 * that names no row yields 404 before anything else; the payload is validated
 * next (422); only then does the controller's own logic run.
 */
module Api {
  import opened Wrappers
  import opened DateTimes
  import opened Validation
  import opened Repository
  import Entities

  /** The response of a request. */
  datatype Outcome =
    | Created(id: int)
    | NoContent
    | Invalid(violations: seq<Violation>)
    | CapacityFull
    | Conflict
    | Forbidden
    | NotFound
  {
    function Status(): (code: int) {
      match this
      case Created(_) => 201
      case NoContent => 204
      case Invalid(_) => 422
      case CapacityFull => 422
      case Conflict => 409
      case Forbidden => 403
      case NotFound => 404
    }
  }

  /** An attendee in the details view: no back-reference, no timestamps. */
  datatype AttendeeView = AttendeeView(name: string, email: string)

  /** The details view of an event carries its attendee collection. */
  datatype EventDetails = EventDetails(
    name: string, description: Option<string>, startDate: DateTime, endDate: DateTime,
    location: string, capacity: int, attendees: map<int, AttendeeView>)

  /** The list view of an event carries the derived count instead of the collection. */
  datatype EventListItem = EventListItem(
    name: string, description: Option<string>, startDate: DateTime, endDate: DateTime,
    location: string, capacity: int, totalAttendees: nat)

  /** The row the creation request persists: the fields that `create` copies, and no description. */
  function NewEventRow(dto: EventDto): (row: EventRow)
    requires IsValidEvent(dto)
  {
    EventRow(dto.name, None, ParseDateTime(dto.startDate).value, ParseDateTime(dto.endDate).value,
             dto.location, dto.capacity, true, false)
  }

  /**
   * The created event carries the request's name, location and capacity, no
   * description whatever the request held, and dates that format back to the
   * request's strings.
   */
  lemma NewEventRowFromRequest(dto: EventDto)
    requires IsValidEvent(dto)
    ensures NewEventRow(dto).name == dto.name && NewEventRow(dto).location == dto.location
    ensures NewEventRow(dto).capacity == dto.capacity && NewEventRow(dto).description == None
    ensures FormatDateTime(NewEventRow(dto).startDate) == dto.startDate
    ensures FormatDateTime(NewEventRow(dto).endDate) == dto.endDate
  {
    FormatOfParse(dto.startDate);
    FormatOfParse(dto.endDate);
  }

  /** Every check of a registration passes: the event exists, the payload is valid, there is room, the email is new. */
  predicate Admits(events: map<int, EventRow>, attendees: map<int, AttendeeRow>, eventId: int, dto: AttendeeDto) {
    && eventId in events
    && IsValidAttendee(dto)
    && TotalAttendees(attendees, eventId) < events[eventId].capacity
    && CountByEventAndEmail(attendees, eventId, dto.email) == 0
  }

  /** What holds of the store between requests. */
  ghost predicate StoreInvariant(events: map<int, EventRow>, attendees: map<int, AttendeeRow>,
                                 outbox: seq<int>, nextEventId: int, nextAttendeeId: int)
  {
    && 1 <= nextEventId && 1 <= nextAttendeeId
    && (forall id :: id in events ==> 1 <= id < nextEventId)
    && (forall id :: id in attendees ==> 1 <= id < nextAttendeeId)
    // every stored event passed validation, was stamped on persist and has no description
    && (forall id :: id in events ==>
          events[id].capacity > 0 && events[id].createdAt && !events[id].updatedAt
          && events[id].description == None)
    // the join column is non-null and names a stored event
    && (forall id :: id in attendees ==>
          attendees[id].eventId in events && attendees[id].createdAt && !attendees[id].updatedAt)
    && UniqueEmailPerEvent(attendees)
    // the capacity invariant
    && (forall e :: e in events ==> TotalAttendees(attendees, e) <= events[e].capacity)
    // queued ids were issued to attendees, in registration order, each once
    && (forall i :: 0 <= i < |outbox| ==> 1 <= outbox[i] < nextAttendeeId)
    && (forall i, j :: 0 <= i < j < |outbox| ==> outbox[i] < outbox[j])
  }

  /** Persisting a new event under the next id keeps the invariant; the event starts with no attendees. */
  lemma CreateKeepsInvariant(events: map<int, EventRow>, attendees: map<int, AttendeeRow>,
                             outbox: seq<int>, nextEventId: int, nextAttendeeId: int, row: EventRow)
    requires StoreInvariant(events, attendees, outbox, nextEventId, nextAttendeeId)
    requires row.capacity > 0 && row.createdAt && !row.updatedAt && row.description == None
    ensures nextEventId !in events && TotalAttendees(attendees, nextEventId) == 0
    ensures StoreInvariant(events[nextEventId := row], attendees, outbox, nextEventId + 1, nextAttendeeId)
  {
    assert AttendeesOf(attendees, nextEventId) == {} by {
      forall x | x in attendees ensures attendees[x].eventId != nextEventId {
      }
    }
    var events' := events[nextEventId := row];
    forall e | e in events' ensures TotalAttendees(attendees, e) <= events'[e].capacity {
    }
  }

  /**
   * Admitting a registration keeps the invariant: the capacity bound, because the
   * event had room; uniqueness, because the pair was not taken; the queue order,
   * because the new id is the largest issued.
   */
  lemma RegisterKeepsInvariant(events: map<int, EventRow>, attendees: map<int, AttendeeRow>,
                               outbox: seq<int>, nextEventId: int, nextAttendeeId: int,
                               eventId: int, name: string, email: string)
    requires StoreInvariant(events, attendees, outbox, nextEventId, nextAttendeeId)
    requires eventId in events
    requires TotalAttendees(attendees, eventId) < events[eventId].capacity
    requires CountByEventAndEmail(attendees, eventId, email) == 0
    ensures nextAttendeeId !in attendees
    ensures StoreInvariant(events, attendees[nextAttendeeId := AttendeeRow(name, email, eventId, true, false)],
                           outbox + [nextAttendeeId], nextEventId, nextAttendeeId + 1)
    ensures TotalAttendees(attendees[nextAttendeeId := AttendeeRow(name, email, eventId, true, false)], eventId)
         == TotalAttendees(attendees, eventId) + 1
  {
    var id := nextAttendeeId;
    var row := AttendeeRow(name, email, eventId, true, false);
    forall e | e in events
      ensures TotalAttendees(attendees[id := row], e) <= events[e].capacity
    {
      TotalAfterInsert(attendees, id, row, e);
    }
    TotalAfterInsert(attendees, id, row, eventId);
    UniqueAfterInsert(attendees, id, row);
  }

  /** Removing an attendee keeps the invariant and takes one from its event's count. */
  lemma DeleteKeepsInvariant(events: map<int, EventRow>, attendees: map<int, AttendeeRow>,
                             outbox: seq<int>, nextEventId: int, nextAttendeeId: int, attendeeId: int)
    requires StoreInvariant(events, attendees, outbox, nextEventId, nextAttendeeId)
    requires attendeeId in attendees
    ensures StoreInvariant(events, attendees - {attendeeId}, outbox, nextEventId, nextAttendeeId)
    ensures TotalAttendees(attendees - {attendeeId}, attendees[attendeeId].eventId)
         == TotalAttendees(attendees, attendees[attendeeId].eventId) - 1
  {
    forall e | e in events
      ensures TotalAttendees(attendees - {attendeeId}, e) <= events[e].capacity
    {
      TotalAfterRemove(attendees, attendeeId, e);
    }
    TotalAfterRemove(attendees, attendeeId, attendees[attendeeId].eventId);
  }

  /**
   * The event `create` builds: a new entity given the name, location, dates and
   * capacity of the request (the description is never set), then stamped by the
   * pre-persist callback; the result is the row that is persisted.
   */
  method BuildEvent(dto: EventDto) returns (row: EventRow)
    requires IsValidEvent(dto)
    ensures row == NewEventRow(dto)
    ensures row.description == None && row.capacity > 0 && row.createdAt && !row.updatedAt
  {
    var start := ParseDateTime(dto.startDate).value;
    var end := ParseDateTime(dto.endDate).value;
    var e := new Entities.Event();
    var _ := e.SetName(dto.name);
    var _ := e.SetLocation(dto.location);
    var _ := e.SetStartDate(start);
    var _ := e.SetEndDate(end);
    var _ := e.SetCapacity(dto.capacity);
    e.SetCreatedAt();
    row := EventRow(e.name.value, e.description, e.startDate.value, e.endDate.value,
                    e.location.value, e.capacity.value, e.createdAt, e.updatedAt);
  }

  /**
   * The attendee `register` builds: a new entity bound to the event, given the
   * request's name and email, then stamped by the pre-persist callback.
   */
  method BuildAttendee(eventId: int, dto: AttendeeDto) returns (row: AttendeeRow)
    ensures row == AttendeeRow(dto.name, dto.email, eventId, true, false)
  {
    var a := new Entities.Attendee();
    var _ := a.SetName(dto.name);
    var _ := a.SetEmail(dto.email);
    a.SetCreatedAt();
    row := AttendeeRow(a.name.value, a.email.value, eventId, a.createdAt, a.updatedAt);
  }

  class Store {
    var events: map<int, EventRow>
    var attendees: map<int, AttendeeRow>
    /** The confirmation-email queue: one attendee id per dispatched message. */
    var outbox: seq<int>
    var nextEventId: int
    var nextAttendeeId: int

    ghost predicate Valid()
      reads this
    {
      StoreInvariant(events, attendees, outbox, nextEventId, nextAttendeeId)
    }

    constructor ()
      ensures Valid()
      ensures events == map[] && attendees == map[] && outbox == []
    {
      events, attendees, outbox := map[], map[], [];
      nextEventId, nextAttendeeId := 1, 1;
    }

    /** POST /api/events */
    method CreateEvent(dto: EventDto) returns (outcome: Outcome)
      requires Valid()
      modifies this
      ensures Valid()
      ensures attendees == old(attendees) && outbox == old(outbox)
      ensures nextAttendeeId == old(nextAttendeeId)
      ensures !IsValidEvent(dto) ==>
        outcome == Invalid(EventViolations(dto)) && events == old(events) && nextEventId == old(nextEventId)
      ensures IsValidEvent(dto) ==>
        && outcome == Created(old(nextEventId))
        && old(nextEventId) !in old(events)
        && events == old(events)[old(nextEventId) := NewEventRow(dto)]
        && nextEventId == old(nextEventId) + 1
        && TotalAttendees(attendees, outcome.id) == 0
    {
      var violations := EventViolations(dto);
      if violations != [] {
        return Invalid(violations);
      }
      var row := BuildEvent(dto);
      var id := PersistEvent(row);
      outcome := Created(id);
    }

    /** Persists a new event under the next id; it starts with no attendees. */
    method PersistEvent(row: EventRow) returns (id: int)
      requires Valid()
      requires row.capacity > 0 && row.createdAt && !row.updatedAt && row.description == None
      modifies this
      ensures Valid()
      ensures id == old(nextEventId) && id !in old(events)
      ensures events == old(events)[id := row] && nextEventId == old(nextEventId) + 1
      ensures attendees == old(attendees) && outbox == old(outbox) && nextAttendeeId == old(nextAttendeeId)
      ensures TotalAttendees(attendees, id) == 0
    {
      id := nextEventId;
      CreateKeepsInvariant(events, attendees, outbox, nextEventId, nextAttendeeId, row);
      events := events[id := row];
      nextEventId := nextEventId + 1;
    }

    /** POST /api/events/{eventId}/attendees */
    method Register(eventId: int, dto: AttendeeDto) returns (outcome: Outcome)
      requires Valid()
      modifies this
      ensures Valid()
      ensures events == old(events) && nextEventId == old(nextEventId)
      ensures eventId !in events ==> outcome == NotFound
      ensures eventId in events && !IsValidAttendee(dto) ==> outcome == Invalid(AttendeeViolations(dto))
      // the capacity check comes before the duplicate check
      ensures (eventId in events && IsValidAttendee(dto)
               && TotalAttendees(old(attendees), eventId) >= events[eventId].capacity)
              ==> outcome == CapacityFull
      ensures (eventId in events && IsValidAttendee(dto)
               && TotalAttendees(old(attendees), eventId) < events[eventId].capacity
               && CountByEventAndEmail(old(attendees), eventId, dto.email) > 0)
              ==> outcome == Conflict
      ensures outcome.Created? <==> Admits(events, old(attendees), eventId, dto)
      ensures !outcome.Created? ==>
        attendees == old(attendees) && outbox == old(outbox) && nextAttendeeId == old(nextAttendeeId)
      ensures outcome.Created? ==>
        && outcome.id == old(nextAttendeeId)
        && outcome.id !in old(attendees)
        && attendees == old(attendees)[outcome.id := AttendeeRow(dto.name, dto.email, eventId, true, false)]
        && outbox == old(outbox) + [outcome.id]
        && nextAttendeeId == old(nextAttendeeId) + 1
        && TotalAttendees(attendees, eventId) == TotalAttendees(old(attendees), eventId) + 1
    {
      if eventId !in events {
        return NotFound;
      }
      var violations := AttendeeViolations(dto);
      if violations != [] {
        return Invalid(violations);
      }
      if TotalAttendees(attendees, eventId) >= events[eventId].capacity {
        return CapacityFull;
      }
      var emailExists := CountByEventAndEmail(attendees, eventId, dto.email);
      if emailExists > 0 {
        return Conflict;
      }
      var row := BuildAttendee(eventId, dto);
      var id := PersistAttendee(row);
      outcome := Created(id);
    }

    /**
     * Persists an admitted attendee under the next id, then queues its
     * confirmation message: the message is dispatched after the row is flushed.
     */
    method PersistAttendee(row: AttendeeRow) returns (id: int)
      requires Valid() && row.eventId in events && row.createdAt && !row.updatedAt
      requires TotalAttendees(attendees, row.eventId) < events[row.eventId].capacity
      requires CountByEventAndEmail(attendees, row.eventId, row.email) == 0
      modifies this
      ensures Valid()
      ensures id == old(nextAttendeeId) && id !in old(attendees)
      ensures events == old(events) && nextEventId == old(nextEventId)
      ensures attendees == old(attendees)[id := row]
      ensures outbox == old(outbox) + [id]
      ensures nextAttendeeId == old(nextAttendeeId) + 1
      ensures TotalAttendees(attendees, row.eventId) == TotalAttendees(old(attendees), row.eventId) + 1
    {
      id := nextAttendeeId;
      RegisterKeepsInvariant(events, attendees, outbox, nextEventId, nextAttendeeId, row.eventId, row.name, row.email);
      attendees := attendees[id := row];
      nextAttendeeId := nextAttendeeId + 1;
      outbox := outbox + [id];
    }

    /** DELETE /api/events/{eventId}/attendees/{attendeeId} */
    method Delete(eventId: int, attendeeId: int) returns (outcome: Outcome)
      requires Valid()
      modifies this
      ensures Valid()
      ensures events == old(events) && outbox == old(outbox)
      ensures nextEventId == old(nextEventId) && nextAttendeeId == old(nextAttendeeId)
      ensures eventId !in events || attendeeId !in old(attendees) ==> outcome == NotFound
      ensures (eventId in events && attendeeId in old(attendees)
               && old(attendees)[attendeeId].eventId != eventId)
              ==> outcome == Forbidden
      ensures outcome == NoContent <==>
        eventId in events && attendeeId in old(attendees) && old(attendees)[attendeeId].eventId == eventId
      ensures outcome != NoContent ==> attendees == old(attendees)
      ensures outcome == NoContent ==>
        && attendees == old(attendees) - {attendeeId}
        && TotalAttendees(attendees, eventId) == TotalAttendees(old(attendees), eventId) - 1
    {
      if eventId !in events || attendeeId !in attendees {
        return NotFound;
      }
      if eventId == attendees[attendeeId].eventId {
        DeleteKeepsInvariant(events, attendees, outbox, nextEventId, nextAttendeeId, attendeeId);
        attendees := attendees - {attendeeId};
        return NoContent;
      }
      return Forbidden;
    }

    /** GET /api/events/{eventId}: the event with its whole attendee collection; None is 404. */
    function Details(eventId: int): (r: Option<EventDetails>)
      reads this
      ensures r.None? <==> eventId !in events
      ensures r.Some? ==>
        && r.value.name == events[eventId].name
        && r.value.description == events[eventId].description
        && r.value.startDate == events[eventId].startDate
        && r.value.endDate == events[eventId].endDate
        && r.value.location == events[eventId].location
        && r.value.capacity == events[eventId].capacity
        && r.value.attendees.Keys == AttendeesOf(attendees, eventId)
        && |r.value.attendees| == TotalAttendees(attendees, eventId)
        && (forall id :: id in r.value.attendees ==>
              r.value.attendees[id] == AttendeeView(attendees[id].name, attendees[id].email))
    {
      if eventId !in events then None
      else
        var e := events[eventId];
        var views := map id | id in AttendeesOf(attendees, eventId) :: AttendeeView(attendees[id].name, attendees[id].email);
        assert views.Keys == AttendeesOf(attendees, eventId);
        Some(EventDetails(e.name, e.description, e.startDate, e.endDate, e.location, e.capacity, views))
    }

    /** GET /api/events: every stored event, each with its derived attendee count. */
    function List(): (r: map<int, EventListItem>)
      reads this
      ensures r.Keys == events.Keys
      ensures forall id :: id in r ==>
        && r[id].totalAttendees == TotalAttendees(attendees, id)
        && r[id].name == events[id].name && r[id].description == events[id].description
        && r[id].startDate == events[id].startDate && r[id].endDate == events[id].endDate
        && r[id].location == events[id].location && r[id].capacity == events[id].capacity
    {
      map id | id in events ::
        var e := events[id];
        EventListItem(e.name, e.description, e.startDate, e.endDate, e.location, e.capacity,
                      TotalAttendees(attendees, id))
    }
  }
}
