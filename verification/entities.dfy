/**
 * The two entities as in-memory objects: an Event owns an ordered collection
 * of Attendee references, and each Attendee points back at its Event. Every
 * field starts out null (None) until its setter runs; the lifecycle callbacks
 * that stamp creation and update times are modelled as flags.
 */
module Entities {
  import opened Wrappers
  import opened DateTimes

  /** The collection's removeElement: drops the first occurrence of `x`, if any. */
  function RemoveFirst<T(==)>(s: seq<T>, x: T): (r: seq<T>) {
    if |s| == 0 then []
    else if s[0] == x then s[1..]
    else [s[0]] + RemoveFirst(s[1..], x)
  }

  /** No element occurs twice. */
  predicate Distinct<T(==)>(s: seq<T>) {
    forall i, j :: 0 <= i < j < |s| ==> s[i] != s[j]
  }

  /** Removing an element that is present removes exactly one copy of it. */
  lemma {:induction false} RemoveFirstPresent<T>(s: seq<T>, x: T)
    requires x in s
    ensures |RemoveFirst(s, x)| == |s| - 1
    ensures multiset(RemoveFirst(s, x)) == multiset(s) - multiset{x}
  {
    if s[0] == x {
      assert s == [s[0]] + s[1..];
    } else {
      RemoveFirstPresent(s[1..], x);
      assert s == [s[0]] + s[1..];
    }
  }

  /** Removing an element that is absent changes nothing. */
  lemma {:induction false} RemoveFirstAbsent<T>(s: seq<T>, x: T)
    requires x !in s
    ensures RemoveFirst(s, x) == s
  {
    if |s| > 0 {
      RemoveFirstAbsent(s[1..], x);
    }
  }

  /** In a collection without repeats, removal leaves every other element and only those. */
  lemma {:induction false} RemoveFirstDistinct<T>(s: seq<T>, x: T)
    requires Distinct(s)
    ensures Distinct(RemoveFirst(s, x))
    ensures forall y :: y in RemoveFirst(s, x) <==> y in s && y != x
  {
    if |s| > 0 {
      assert Distinct(s[1..]);
      RemoveFirstDistinct(s[1..], x);
      if s[0] == x {
        assert s == [s[0]] + s[1..];
      } else {
        var r := RemoveFirst(s[1..], x);
        assert s[0] !in s[1..] by {
          forall k | 0 <= k < |s[1..]| ensures s[1..][k] != s[0] {
            assert s[1..][k] == s[k + 1];
          }
        }
        assert forall y :: y in [s[0]] + r <==> y == s[0] || y in r;
      }
    }
  }

  class Attendee {
    var name: Option<string>
    var email: Option<string>
    var event: Event?
    var createdAt: bool
    var updatedAt: bool

    constructor ()
      ensures name == None && email == None && event == null
      ensures !createdAt && !updatedAt
    {
      name, email, event := None, None, null;
      createdAt, updatedAt := false, false;
    }

    method SetName(name': string) returns (self: Attendee)
      modifies this`name
      ensures name == Some(name') && self == this
    {
      name := Some(name');
      self := this;
    }

    method SetEmail(email': string) returns (self: Attendee)
      modifies this`email
      ensures email == Some(email') && self == this
    {
      email := Some(email');
      self := this;
    }

    method SetEvent(event': Event?) returns (self: Attendee)
      modifies this`event
      ensures event == event' && self == this
    {
      event := event';
      self := this;
    }

    /** The pre-persist callback. */
    method SetCreatedAt()
      modifies this`createdAt
      ensures createdAt
    {
      createdAt := true;
    }

    /** The pre-update callback. */
    method SetUpdatedAt()
      modifies this`updatedAt
      ensures updatedAt
    {
      updatedAt := true;
    }
  }

  class Event {
    var name: Option<string>
    var description: Option<string>
    var startDate: Option<DateTime>
    var endDate: Option<DateTime>
    var location: Option<string>
    var capacity: Option<int>
    var createdAt: bool
    var updatedAt: bool
    var attendees: seq<Attendee>

    /** The collection and the back-references agree, and no attendee is listed twice. */
    ghost predicate Consistent()
      reads this, attendees
    {
      Distinct(attendees) && forall a :: a in attendees ==> a.event == this
    }

    constructor ()
      ensures name == None && description == None && startDate == None && endDate == None
      ensures location == None && capacity == None && !createdAt && !updatedAt
      ensures attendees == [] && TotalAttendees() == 0 && Consistent()
    {
      name, description, startDate, endDate := None, None, None, None;
      location, capacity := None, None;
      createdAt, updatedAt := false, false;
      attendees := [];
    }

    /** The number of attendees, derived from the collection. */
    function TotalAttendees(): (n: nat)
      reads this`attendees
    {
      |attendees|
    }

    method SetName(name': string) returns (self: Event)
      modifies this`name
      ensures name == Some(name') && self == this
    {
      name := Some(name');
      self := this;
    }

    method SetDescription(description': Option<string>) returns (self: Event)
      modifies this`description
      ensures description == description' && self == this
    {
      description := description';
      self := this;
    }

    method SetStartDate(startDate': DateTime) returns (self: Event)
      modifies this`startDate
      ensures startDate == Some(startDate') && self == this
    {
      startDate := Some(startDate');
      self := this;
    }

    method SetEndDate(endDate': DateTime) returns (self: Event)
      modifies this`endDate
      ensures endDate == Some(endDate') && self == this
    {
      endDate := Some(endDate');
      self := this;
    }

    method SetLocation(location': string) returns (self: Event)
      modifies this`location
      ensures location == Some(location') && self == this
    {
      location := Some(location');
      self := this;
    }

    method SetCapacity(capacity': int) returns (self: Event)
      modifies this`capacity
      ensures capacity == Some(capacity') && self == this
    {
      capacity := Some(capacity');
      self := this;
    }

    /** The pre-persist callback. */
    method SetCreatedAt()
      modifies this`createdAt
      ensures createdAt
    {
      createdAt := true;
    }

    /** The pre-update callback. */
    method SetUpdatedAt()
      modifies this`updatedAt
      ensures updatedAt
    {
      updatedAt := true;
    }

    /**
     * Adds an attendee that is not yet a member and points it at this event;
     * a member is left alone, so adding twice is adding once.
     */
    method AddAttendee(a: Attendee) returns (self: Event)
      modifies this`attendees, a`event
      ensures self == this && a in attendees
      ensures old(a in attendees) ==> attendees == old(attendees) && a.event == old(a.event)
      ensures old(a !in attendees) ==> attendees == old(attendees) + [a] && a.event == this
      ensures TotalAttendees() == old(TotalAttendees()) + (if old(a in attendees) then 0 else 1)
      ensures old(Consistent()) ==> Consistent()
    {
      if a !in attendees {
        attendees := attendees + [a];
        a.event := this;
      }
      self := this;
    }

    /**
     * Removes the first occurrence of a member; its back-reference is cleared
     * only if it still points at this event.
     */
    method RemoveAttendee(a: Attendee) returns (self: Event)
      modifies this`attendees, a`event
      ensures self == this
      ensures old(a !in attendees) ==> attendees == old(attendees) && a.event == old(a.event)
      ensures old(a in attendees) ==> attendees == RemoveFirst(old(attendees), a)
      ensures old(a in attendees) && old(a.event) == this ==> a.event == null
      ensures old(a in attendees) && old(a.event) != this ==> a.event == old(a.event)
      ensures TotalAttendees() == old(TotalAttendees()) - (if old(a in attendees) then 1 else 0)
      ensures old(Consistent()) ==> Consistent() && a !in attendees
    {
      if a in attendees {
        RemoveFirstPresent(attendees, a);
        if Distinct(attendees) {
          RemoveFirstDistinct(attendees, a);
        }
        attendees := RemoveFirst(attendees, a);
        if a.event == this {
          a.event := null;
        }
      }
      self := this;
    }
  }
}
