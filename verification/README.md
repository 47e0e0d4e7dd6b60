# Event registration API, modelled in Dafny

The system is a small JSON API for events and their attendees:

- `POST /api/events` creates an event from a validated request.
- `GET /api/events` lists the events, each with its attendee count.
- `GET /api/events/{eventId}` shows one event with its attendee collection.
- `POST /api/events/{eventId}/attendees` registers an attendee. It refuses a full event (422) and an email already registered for that event (409). On success it persists the attendee and queues one confirmation message carrying the attendee's id.
- `DELETE /api/events/{eventId}/attendees/{attendeeId}` removes an attendee, but only through the attendee's own event. Through any other event the answer is 403.

The model is sequential. Requests run one after another against one in-memory store (`Api.Store`):

- Each table is a map from generated ids to rows.
- The message queue is an outbox: a sequence of attendee ids.
- The store's invariant (`Api.StoreInvariant`) holds between requests. It covers the capacity bound, the unique (email, event) pair, the non-null join column and the queue order. Every request method preserves it, so it holds after any sequence of requests.

The modules follow the repository's files:

| module | file | models |
|---|---|---|
| `Validation` | `validation.dfy` | the two request objects, their defaults and their field constraints |
| `DateTimes` | `datetime.dfy` | the `Y-m-d H:i:s` request format and the date it denotes |
| `Emails` | `email.dfy` | the email shape accepted by the attendee request |
| `Entities` | `entities.dfy` | the `Event` and `Attendee` entity objects: setters, lifecycle callbacks, the attendee collection |
| `Repository` | `repository.dfy` | the persisted rows and the duplicate-count query |
| `Api` | `api.dfy` | the two controllers over the store |
| `Scenarios` | `scenario.dfy` | the request sequence of the attendee controller tests, replayed on the store |

## Model

| member | source | states |
|---|---|---|
| DateTimes.ParseDateTime | src/Model/EventDto.php:20-22 | a string that parses has the fixed `YYYY-MM-DD HH:MM:SS` layout and denotes a real calendar date and time of day |
| DateTimes.FormatOfParse | src/Controller/Api/EventController.php:37-38 | formatting the date parsed from an accepted string gives the same string back |
| DateTimes.ParseOfFormat | src/Controller/Api/EventController.php:37-38 | parsing the formatted string of any valid date gives that date back |
| Emails.NoAtRejected | src/Model/AttendeeDto.php:18-20 | an address without '@' is not an email |
| Emails.DotlessDomainRejected | src/Model/AttendeeDto.php:18-20 | an address whose domain has no dot is not an email |
| Emails.TwoLabelAddressAccepted | src/Model/AttendeeDto.php:18-20 | a non-empty atext local part, '@' and two valid labels joined by a dot form an email |
| Emails.TestAddressAccepted | tests/Controller/Api/AttendeeControllerTest.php:49-52 | every `john.doe<digit>@example.com` address of the tests is an email |
| Emails.AddressWithoutAtRejected | tests/Controller/Api/AttendeeControllerTest.php:117 | `john.doe1example.com` is not an email |
| Emails.AddressWithoutDomainDotRejected | tests/Controller/Api/AttendeeControllerTest.php:121 | `john.doe1@example` is not an email |
| Validation.EventViolations | src/Model/EventDto.php:9-44 | the event request has no violation exactly when the name is non-blank, both dates parse, the location is non-blank and the capacity is positive; name, location and either date get NotBlank exactly when blank; a date gets the DateTime violation exactly when it is non-blank and malformed; the capacity gets GreaterThan exactly when it is not positive |
| Validation.DateViolations | src/Model/EventDto.php:17-23 | a date field has no violation exactly when it parses; it gets NotBlank exactly when blank and the DateTime violation exactly when non-blank and malformed, and every violation it reports names that field |
| Validation.MissingEventKeyRejected | src/Model/EventDto.php:13-42 | a request missing the name, either date, the location or the capacity is refused, because the defaults "" and 0 fail their constraints |
| Validation.DescriptionUnconstrained | src/Model/EventDto.php:15 | any description, blank included, leaves the violations unchanged |
| Validation.NoDateOrderCheck | src/Model/EventDto.php:17-31 | swapping the start and end dates never changes the verdict: an end before the start passes |
| Validation.AttendeeViolations | src/Model/AttendeeDto.php:10-21 | the registration request has no violation exactly when the name is non-blank and the email is an email; a blank email gets NotBlank only, a malformed one gets Email only |
| Validation.MissingAttendeeKeyRejected | src/Model/AttendeeDto.php:13-21 | a registration missing its name or its email is refused |
| Validation.AttendeeExamples | tests/Controller/Api/AttendeeControllerTest.php:106-136 | the test's valid registration passes, and its four invalid payloads are refused (the two malformed emails with an Email violation only) |
| Entities.RemoveFirstPresent | src/Entity/Event.php:189 | removing a member from the collection removes exactly one copy of it |
| Entities.RemoveFirstAbsent | src/Entity/Event.php:189 | removing a non-member leaves the collection unchanged |
| Entities.RemoveFirstDistinct | src/Entity/Event.php:189 | in a collection without repeats, removal keeps it without repeats and keeps every other member |
| Entities.Attendee.constructor | src/Entity/Attendee.php:22-42 | a new attendee has no name, email or event, and neither timestamp |
| Entities.Attendee.SetName | src/Entity/Attendee.php:54-59 | sets the name, changes no other field, returns the same object |
| Entities.Attendee.SetEmail | src/Entity/Attendee.php:66-71 | sets the email, changes no other field, returns the same object |
| Entities.Attendee.SetEvent | src/Entity/Attendee.php:78-83 | sets the event reference (null allowed), changes no other field, returns the same object |
| Entities.Attendee.SetCreatedAt | src/Entity/Attendee.php:90-94 | the pre-persist callback stamps the creation time and nothing else |
| Entities.Attendee.SetUpdatedAt | src/Entity/Attendee.php:101-105 | the pre-update callback stamps the update time and nothing else |
| Entities.Event.constructor | src/Entity/Event.php:65-68 | a new event has every field unset, an empty collection, total 0, and a consistent collection |
| Entities.Event.SetName | src/Entity/Event.php:80-85 | sets the name only and returns the same object |
| Entities.Event.SetDescription | src/Entity/Event.php:92-97 | sets the description (null allowed) only and returns the same object |
| Entities.Event.SetStartDate | src/Entity/Event.php:104-109 | sets the start date only and returns the same object |
| Entities.Event.SetEndDate | src/Entity/Event.php:116-121 | sets the end date only and returns the same object |
| Entities.Event.SetLocation | src/Entity/Event.php:128-133 | sets the location only and returns the same object |
| Entities.Event.SetCapacity | src/Entity/Event.php:140-145 | sets the capacity only and returns the same object |
| Entities.Event.SetCreatedAt | src/Entity/Event.php:152-156 | the pre-persist callback stamps the creation time and nothing else |
| Entities.Event.SetUpdatedAt | src/Entity/Event.php:163-167 | the pre-update callback stamps the update time and nothing else |
| Entities.Event.AddAttendee | src/Entity/Event.php:177-185 | adding a member changes nothing (idempotent); adding a non-member appends it, points it at this event and raises the total by one; either way it is a member afterwards and a consistent collection stays consistent |
| Entities.Event.RemoveAttendee | src/Entity/Event.php:187-197 | removing a non-member changes nothing; removing a member drops its first occurrence and lowers the total by one, and its back-reference is cleared only if it still pointed here; a consistent collection stays consistent and no longer holds it |
| Repository.CountByEventAndEmail | src/Repository/AttendeeRepository.php:21-34 | the count is 0 exactly when no stored attendee has both the event id and the email, and never exceeds the event's attendees |
| Repository.CountAtMostOne | src/Entity/Attendee.php:12-15 | under the unique (email, event) constraint the count is 0 or 1 |
| Repository.CountAfterInsert | src/Repository/AttendeeRepository.php:25-26 | a new row adds one to the count when it matches both the event id and the email, and nothing otherwise |
| Repository.TotalAfterInsert | src/Entity/Event.php:199-202 | a new row adds one attendee to its own event and none to any other |
| Repository.TotalAfterRemove | src/Entity/Event.php:199-202 | removing a row takes one attendee from its own event and none from any other |
| Repository.UniqueAfterInsert | src/Entity/Attendee.php:12-15 | a row whose (email, event) pair is not yet taken keeps the table unique |
| Api.NewEventRowFromRequest | src/Controller/Api/EventController.php:34-39 | the created event has the request's name, location and capacity, no description whatever the request held, and dates that format back to the request's strings |
| Api.CreateKeepsInvariant | src/Controller/Api/EventController.php:34-42 | persisting a new event under a fresh id keeps the store invariant, and the new event has no attendees |
| Api.RegisterKeepsInvariant | src/Controller/Api/AttendeeController.php:51-72 | an admitted registration keeps the capacity bound, the uniqueness constraint and the queue order, and raises the event's count by one |
| Api.DeleteKeepsInvariant | src/Controller/Api/AttendeeController.php:97-100 | removing an attendee keeps the store invariant and lowers its event's count by one |
| Api.BuildEvent | src/Controller/Api/EventController.php:34-39 | the entity built through the setters and stamped on persist is the row the request describes: no description, positive capacity, created and never updated |
| Api.BuildAttendee | src/Controller/Api/AttendeeController.php:64-67 | the entity built for a registration carries the request's name and email and the event id, created and never updated |
| Api.Store.CreateEvent | src/Controller/Api/EventController.php:30-47 | an invalid request gets 422 with its violations and changes nothing; a valid one gets 201 with a fresh id, adds exactly that event and touches no attendee and no queued message |
| Api.Store.PersistEvent | src/Controller/Api/EventController.php:41-42 | the new event is stored under the next id, nothing else changes, and it has no attendees |
| Api.Store.Register | src/Controller/Api/AttendeeController.php:44-77 | an unknown event gets 404; an invalid payload 422; a full event 422 even for a duplicate email; a taken email 409; success exactly when all checks pass; a refusal changes nothing; success stores one attendee bound to the event with the request's name and email, raises the count by one and queues exactly one message with the new id |
| Api.Store.PersistAttendee | src/Controller/Api/AttendeeController.php:69-72 | the admitted attendee is stored under the next id, and its id is appended to the queue after it is stored |
| Api.Store.Delete | src/Controller/Api/AttendeeController.php:92-104 | an unknown event or attendee gets 404; an attendee of another event gets 403 and nothing changes; otherwise exactly that attendee is removed (204) and its event's count drops by one |
| Api.Store.Details | src/Controller/Api/EventController.php:84-90 | an unknown id gets nothing; a known one gets the event's fields and exactly its attendees, keyed by id, as many as its count |
| Api.Store.List | src/Controller/Api/EventController.php:62-70 | every stored event, and only those, with its name, description, dates, location and capacity and its attendee count |
| Scenarios.CreatePhase | tests/Controller/Api/AttendeeControllerTest.php:24-39 | the test event of capacity 2 is created (201) with no attendees |
| Scenarios.FirstPhase | tests/Controller/Api/AttendeeControllerTest.php:45-79 | the first registration is admitted (201), the count is 1 and the queue holds its id alone |
| Scenarios.ConflictPhase | tests/Controller/Api/AttendeeControllerTest.php:82-104 | the same email again gets 409 and the count stays 1 |
| Scenarios.NamelessPhase | tests/Controller/Api/AttendeeControllerTest.php:109-111 | a payload without a name gets 422 and changes nothing |
| Scenarios.FillPhase | tests/Controller/Api/AttendeeControllerTest.php:148-166 | a second email is admitted (201) and the count reaches the capacity, 2 |
| Scenarios.FullPhase | tests/Controller/Api/AttendeeControllerTest.php:168-179 | a third email gets 422 and changes nothing |
| Scenarios.DeletePhase | tests/Controller/Api/AttendeeControllerTest.php:182-210 | deleting the second attendee through its event gets 204 and the count drops to 1 |
| Scenarios.ForbiddenPhase | tests/Controller/Api/AttendeeControllerTest.php:212-250 | a second event is created (201), and deleting the first attendee through it gets 403 |
| Scenarios.RegistrationScenario | tests/Controller/Api/AttendeeControllerTest.php:19-250 | the whole test sequence answers 201, 201, 409, 422, 201, 422, 204, 201, 403, with counts 0, 1, 1, 1, 2, 2, 1, 1, and queues two confirmations in registration order |

## Left out

- HTTP routing, the argument resolvers, JSON (de)serialisation, serialisation groups and OpenAPI attributes are not modelled. An unknown id in a path is modelled as the 404 outcome. A JSON value of the wrong type is not modelled.
- The order of checks is lookup (404), then payload validation (422), then the controller body. This is how the framework runs argument resolvers. It is not written in the repository.
- Doctrine persistence is modelled by maps keyed by generated ids. Flush, the unit of work and identity maps are not modelled. The attendee collection in a stored event is the set of rows that name it.
- Api.Store.Register: the attendee row holds its event's id, not an `Entities.Event` reference. So the `setEvent` call at src/Controller/Api/AttendeeController.php:65 is modelled by that id, not by `Entities.Attendee.SetEvent`.
- A unique-constraint violation raised by the database is not modelled, because the controller does not catch it. Only the count pre-check produces 409. Under the sequential model, the pre-check makes that violation impossible.
- Concurrency is not modelled. Two concurrent registrations can both pass the capacity and duplicate checks before either is stored. The capacity and uniqueness invariants are proved for sequential requests only.
- The confirmation-email handler is not modelled: its mailer I/O and its long-form date formatting. src/MessageHandler/AttendeeConfirmationEmailMessageHandler.php is not part of this model. The message is modelled as the attendee id in the outbox.
- Timestamps from the system clock are modelled as set/unset flags.
- `DateTimes.ParseDateTime`: only the zero-padded fixed-width form of `Y-m-d H:i:s` is accepted. The library parser also accepts some unpadded fields, which is not modelled. The year is limited to four digits. A string naming an impossible date (February 30) is rejected, as the request validator rejects it. So the parser's rollover of such dates into the next month is never reached and is not modelled.
- `Emails`: the library's email grammar is approximated. The local part is atext characters and dots. The domain is at least two labels of letters, digits and inner hyphens, each at most 63 characters. Quoted local parts, IP-literal domains and length limits on the whole address are not modelled.
- Api.Store.Details and Api.Store.List return maps keyed by id. The order in which the JSON arrays list events and attendees is not modelled. The dates in responses are `DateTime` values, not the serialiser's output strings.
- Getters are modelled as reads of the entity fields and row fields. `getId` is the map key. `getTotalAttendees` (src/Entity/Event.php:199-202) is the function `Entities.Event.TotalAttendees`, the size of the collection. It has no contract of its own: the contracts of `Entities.Event.constructor`, `AddAttendee` and `RemoveAttendee` state its value after each of them.
- Api.Store.CreateEvent: the capacity column (src/Entity/Event.php:43-45) is a plain integer column, and the database engine is not part of this model. Capacities are unbounded integers. A positive capacity beyond the column's range is accepted and stored, where a real engine would fail the flush or clamp the value.
- Api.Store.CreateEvent: name and location are `length: 255` columns (src/Entity/Event.php:23-25, 39-41) with no Length constraint on the request. The model stores strings of any length, where a strict engine would reject the flush.
- Api.Store.Register: name and email are `length: 255` columns (src/Entity/Attendee.php:24-30). The model stores strings of any length, where a strict engine would reject the flush.
- Repository.CountByEventAndEmail: emails are compared as exact character sequences. The query (src/Repository/AttendeeRepository.php:26) and the unique index (src/Entity/Attendee.php:12-15) compare under the column's collation, which may ignore case. Under such a collation, "JOHN@x.com" would count as a duplicate of "john@x.com", and the model does not count it.
- Api.Store.PersistAttendee: the message bus never fails. If the dispatch at src/Controller/Api/AttendeeController.php:72 threw after the flush at line 70, the attendee would stay stored, nothing would be queued and the client would get a 500. The model always appends the id to the outbox.
- Scenarios: of the invalid registration payloads at tests/Controller/Api/AttendeeControllerTest.php:106-136, only the nameless one is replayed against the store. All four are covered at the validation level by `Validation.AttendeeExamples`.
