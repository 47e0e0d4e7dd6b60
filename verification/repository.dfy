/**
 * The persisted rows of both tables, keyed by their generated ids, and the
 * queries over them. An attendee row holds the id of its event (the
 * non-nullable join column); an event's attendee collection is the set of
 * attendee rows that name it.
 */
module Repository {
  import opened Wrappers
  import opened DateTimes

  datatype EventRow = EventRow(
    name: string, description: Option<string>,
    startDate: DateTime, endDate: DateTime,
    location: string, capacity: int,
    createdAt: bool, updatedAt: bool)

  datatype AttendeeRow = AttendeeRow(
    name: string, email: string, eventId: int,
    createdAt: bool, updatedAt: bool)

  /** The ids of the attendees of one event. */
  function AttendeesOf(m: map<int, AttendeeRow>, eventId: int): (ids: set<int>) {
    set id | id in m && m[id].eventId == eventId
  }

  /** The derived attendee count of an event: the size of its collection. */
  function TotalAttendees(m: map<int, AttendeeRow>, eventId: int): (n: nat) {
    |AttendeesOf(m, eventId)|
  }

  /** The ids of the attendees of one event registered under one email. */
  function Matching(m: map<int, AttendeeRow>, eventId: int, email: string): (ids: set<int>) {
    set id | id in m && m[id].eventId == eventId && m[id].email == email
  }

  /**
   * The duplicate check: how many attendees of `eventId` have `email`.
   * Zero exactly when no row matches both, and never more than the event's attendees.
   */
  function CountByEventAndEmail(m: map<int, AttendeeRow>, eventId: int, email: string): (n: nat)
    ensures n == 0 <==> forall id :: id in m ==> !(m[id].eventId == eventId && m[id].email == email)
    ensures n <= TotalAttendees(m, eventId)
  {
    MatchingSubset(m, eventId, email);
    MatchingEmpty(m, eventId, email);
    |Matching(m, eventId, email)|
  }

  lemma MatchingEmpty(m: map<int, AttendeeRow>, eventId: int, email: string)
    ensures Matching(m, eventId, email) == {}
        <==> forall id :: id in m ==> !(m[id].eventId == eventId && m[id].email == email)
  {
    if exists id :: id in m && m[id].eventId == eventId && m[id].email == email {
      var id :| id in m && m[id].eventId == eventId && m[id].email == email;
      assert id in Matching(m, eventId, email);
    }
  }

  lemma MatchingSubset(m: map<int, AttendeeRow>, eventId: int, email: string)
    ensures |Matching(m, eventId, email)| <= TotalAttendees(m, eventId)
  {
    SubsetCardinality(Matching(m, eventId, email), AttendeesOf(m, eventId));
  }

  lemma {:induction false} SubsetCardinality<T>(a: set<T>, b: set<T>)
    requires a <= b
    ensures |a| <= |b|
    decreases |a|
  {
    if a != {} {
      var x :| x in a;
      SubsetCardinality(a - {x}, b - {x});
    }
  }

  /** The unique (email, event) constraint of the attendee table. */
  predicate UniqueEmailPerEvent(m: map<int, AttendeeRow>) {
    forall i, j :: i in m && j in m && i != j ==>
      !(m[i].eventId == m[j].eventId && m[i].email == m[j].email)
  }

  /** Under the uniqueness constraint the duplicate count is 0 or 1. */
  lemma CountAtMostOne(m: map<int, AttendeeRow>, eventId: int, email: string)
    requires UniqueEmailPerEvent(m)
    ensures CountByEventAndEmail(m, eventId, email) <= 1
  {
    var s := Matching(m, eventId, email);
    MatchingEmpty(m, eventId, email);
    if s != {} {
      var x :| x in m && m[x].eventId == eventId && m[x].email == email;
      forall y | y in s ensures y == x {
        assert y in m && m[y].eventId == eventId && m[y].email == email;
      }
      assert x in s;
      assert s == {x};
    }
  }

  /** Inserting a row adds one to the count exactly when the row matches both arguments. */
  lemma CountAfterInsert(m: map<int, AttendeeRow>, id: int, row: AttendeeRow, eventId: int, email: string)
    requires id !in m
    ensures CountByEventAndEmail(m[id := row], eventId, email)
         == CountByEventAndEmail(m, eventId, email)
            + (if row.eventId == eventId && row.email == email then 1 else 0)
  {
    MatchingAfterInsert(m, id, row, eventId, email);
  }

  lemma MatchingAfterInsert(m: map<int, AttendeeRow>, id: int, row: AttendeeRow, eventId: int, email: string)
    requires id !in m
    ensures |Matching(m[id := row], eventId, email)|
         == |Matching(m, eventId, email)| + (if row.eventId == eventId && row.email == email then 1 else 0)
  {
    var before := Matching(m, eventId, email);
    var after := Matching(m[id := row], eventId, email);
    assert id !in before;
    if row.eventId == eventId && row.email == email {
      assert after == before + {id};
    } else {
      assert after == before;
    }
  }

  /** Inserting a row adds one attendee to its own event and none to any other. */
  lemma TotalAfterInsert(m: map<int, AttendeeRow>, id: int, row: AttendeeRow, eventId: int)
    requires id !in m
    ensures TotalAttendees(m[id := row], eventId)
         == TotalAttendees(m, eventId) + (if row.eventId == eventId then 1 else 0)
  {
    var m' := m[id := row];
    if row.eventId == eventId {
      assert AttendeesOf(m', eventId) == AttendeesOf(m, eventId) + {id};
    } else {
      assert AttendeesOf(m', eventId) == AttendeesOf(m, eventId);
    }
  }

  /** Removing a row takes one attendee from its own event and none from any other. */
  lemma TotalAfterRemove(m: map<int, AttendeeRow>, id: int, eventId: int)
    requires id in m
    ensures TotalAttendees(m - {id}, eventId)
         == TotalAttendees(m, eventId) - (if m[id].eventId == eventId then 1 else 0)
  {
    var m' := m - {id};
    if m[id].eventId == eventId {
      assert AttendeesOf(m', eventId) == AttendeesOf(m, eventId) - {id};
    } else {
      assert AttendeesOf(m', eventId) == AttendeesOf(m, eventId);
    }
  }

  /** A row whose (event, email) pair is not yet taken keeps the table unique. */
  lemma UniqueAfterInsert(m: map<int, AttendeeRow>, id: int, row: AttendeeRow)
    requires UniqueEmailPerEvent(m) && id !in m
    requires CountByEventAndEmail(m, row.eventId, row.email) == 0
    ensures UniqueEmailPerEvent(m[id := row])
  {
  }
}
