# Sport reservation app: verified model of the booking rule

This project models the core of a facility-booking application, in Dafny. Users
reserve a time slot on a *plateau* (a bookable court) together with some
*items* (equipment). The server rejects a reservation in three cases: the
plateau is unknown, an item is not allowed on that plateau, or the slot
overlaps an existing reservation of the same plateau.

The model covers three parts of the application:

- **The reservation service** (`server/services/reservation.service.js`).
  The class `ReservationService.ReservationService` holds the items, plateaus
  and reservations collections. It has the lookups, the availability check,
  `CreateReservation` and `DeleteReservation`.
  - `CreateReservation` runs the three checks in the source's order. It then
    appends the record the way the source does: it reads the list, pushes the
    record, drops the collection and populates it again.
  - The booking rule is also written as a function on values,
    `Reservations.CreateOutcome`. The method is proved equal to it.
  - The store invariant says that no two reservations of one plateau overlap
    and that no two share an `_id`. It is proved to hold after every create
    and delete.
- **The database service's guarded bulk insert** (`populateDb` in
  `server/services/database.service.js`). A MongoDB collection is modelled as
  an object whose documents, in natural order, are a sequence.
  `DatabaseService.PopulateDb` inserts only into an empty collection, and only
  when the data is an array. It is proved against the function `Populated`.
- **The client's reservation-form reducer**
  (`site-web/src/reducers/reservation-reducer.jsx`). `ReservationReducer.Reduce`
  has three cases: UPDATE, RESET and anything else. The header's "reservation
  started" indicator is also modelled.

Timestamps are integers of milliseconds. Two values come from outside the
code:

- The id generator's output is a parameter of `CreateReservation`. Its
  requires clause says the id is not already in the store. A v4 uuid is fresh
  with overwhelming probability, not by construction; a collision is not
  modelled.
- The clock's value (`createdAt`) is a parameter too.

The server never checks that `startTime < endTime`; only the client form does,
at `site-web/src/pages/reservation.jsx:119-122`. The model accepts inverted
slots as the server does (`Reservations.InvertedSlotAccepted`). The no-overlap
invariant still holds for them, because the overlap test is symmetric.

The errors are the three messages the code throws. `BookingError.Message`
gives their exact text.

Files:

- `queries.dfy`: lookups over sequences, with the `find`, `filter` and
  `deleteOne` semantics.
- `database_service.dfy`: collections and `populateDb`.
- `reservations.dfy`: the data model, the booking rule and the invariant
  lemmas.
- `reservation_service.dfy`: the service class.
- `reservation_reducer.dfy`: the client reducer.

## Model

| member | source | states |
|---|---|---|
| `Queries.FirstIndex` | server/services/reservation.service.js:85-89 | the index found holds the key and no earlier element does; none is found exactly when no element holds the key |
| `Queries.Find` | server/services/reservation.service.js:69-71 | `find` by id: the result is in the list and has the key, and it is at the first position that does; the result is `undefined` exactly when no element has the key |
| `Queries.FindUnique` | server/services/reservation.service.js:127-131 | when ids are unique, looking up an element's id returns that element |
| `Queries.Filter` | server/services/reservation.service.js:133-135 | an equality filter returns exactly the elements with the key, and never more elements than it was given |
| `Queries.RemoveFirst` | server/services/reservation.service.js:208-210 | `deleteOne` removes one element exactly when some element has the key, and it is the first element with the key; the others keep their order; if none has it, the list is unchanged; every element with another key keeps its count |
| `DatabaseService.Collection.FindOne` | server/services/database.service.js:11 | `findOne()` returns `null` exactly when the collection is empty, and otherwise returns one of its documents |
| `DatabaseService.Collection.InsertMany` | server/services/database.service.js:14 | the documents are added after the existing ones |
| `DatabaseService.Collection.Drop` | server/services/reservation.service.js:194 | the collection is left empty |
| `DatabaseService.Collection.DeleteOne` | server/services/reservation.service.js:209 | the documents become `RemoveFirst` of the old ones; the count deleted is 1 when a document had the id and 0 otherwise |
| `DatabaseService.Populated` | server/services/database.service.js:9-16 | definition: the documents after `populateDb`, the data exactly when the collection was empty and the data an array, the old documents otherwise; its cases are `DatabaseService.PopulateKeepsNonEmpty`, `DatabaseService.PopulateIgnoresNonArray` and `DatabaseService.PopulateFillsEmpty` |
| `DatabaseService.PopulateDb` | server/services/database.service.js:9-16 | the collection becomes `Populated(old documents, data)`: the data is inserted only when the collection was empty and the data is an array |
| `DatabaseService.PopulateKeepsNonEmpty` | server/services/database.service.js:11-15 | a collection that holds at least one document is left unchanged |
| `DatabaseService.PopulateIgnoresNonArray` | server/services/database.service.js:12-13 | data that is not an array leaves the collection unchanged |
| `DatabaseService.PopulateFillsEmpty` | server/services/database.service.js:13-15 | an empty collection ends up holding exactly the array's documents, so drop followed by populate yields exactly the list |
| `DatabaseService.PopulateIdempotent` | server/services/database.service.js:11-15 | after populating with a non-empty array, a second call with any data changes nothing |
| `Reservations.Overlapping` | server/services/reservation.service.js:100-112 | the overlap query returns exactly the stored reservations that are on the plateau and neither end by the start nor begin at or after the end |
| `Reservations.RequestedItems` | server/services/reservation.service.js:146-152 | definition: the requested items, with an omitted `itemIds` read as the empty list (the destructuring default at line 148); its effect on the item check is `Reservations.NoItemsAlwaysAllowed` |
| `Reservations.AllItemsAllowed` | server/services/reservation.service.js:160-164 | definition: every requested item is among the plateau's `allowedItems` (`every` with `includes`); how it decides the request is `Reservations.DisallowedItemsRejected` |
| `Reservations.Conflicts` | server/services/reservation.service.js:100-111 | definition: a stored reservation matches the availability query when it is on the plateau and neither `endTime <= start` nor `startTime >= end`; its properties are `Reservations.OverlapSymmetric` and `Reservations.TouchingSlotsDoNotConflict` |
| `Reservations.IsAvailable` | server/services/reservation.service.js:98-115 | definition: no stored reservation conflicts with the slot; the service's query is proved equal to it by `ReservationService.ReservationService.CheckPlateauAvailability`, and `Reservations.OtherPlateausIrrelevant` and `Reservations.ConflictingSlotRejected` state its role |
| `Reservations.BookingError.Message` | server/services/reservation.service.js:158-177 | definition: the text of each of the three errors, in the order they are checked |
| `Reservations.CreateOutcome` | server/services/reservation.service.js:145-200 | on success, the record carries the new id, the request's plateau id, client name, times and items (none given reads as none), and the creation time; a plateau with the id exists, and the record takes the name of the first such plateau, whose allowed items cover the request; the slot is free |
| `Reservations.OverlapSymmetric` | server/services/reservation.service.js:102-109 | the overlap test is symmetric between an existing and a requested reservation |
| `Reservations.TouchingSlotsDoNotConflict` | server/services/reservation.service.js:105-108 | a slot that starts where an existing one ends, or ends where it starts, does not conflict with it |
| `Reservations.OtherPlateausIrrelevant` | server/services/reservation.service.js:101-111 | availability on the whole store equals availability on the plateau's own reservations |
| `Reservations.OtherPlateauReservationIrrelevant` | server/services/reservation.service.js:103 | adding a reservation of another plateau never changes availability |
| `Reservations.UnknownPlateauRejected` | server/services/reservation.service.js:155-159 | the request fails with "Invalid plateau" exactly when no plateau has the id |
| `Reservations.DisallowedItemsRejected` | server/services/reservation.service.js:160-168 | with the first plateau that has the id, the request fails with "Some items are not allowed" exactly when a requested item is not among its allowed items |
| `Reservations.NoItemsAlwaysAllowed` | server/services/reservation.service.js:146-168 | an omitted or empty item list never fails the item check |
| `Reservations.ConflictingSlotRejected` | server/services/reservation.service.js:170-178 | once plateau and items pass, the request fails with "Requested time slot not available" exactly when a stored reservation conflicts with the slot |
| `Reservations.CreatePreservesNoOverlap` | server/services/reservation.service.js:170-198 | if no two same-plateau reservations overlap, they still do not after a successful create, whatever the ids and whether or not the slot is well ordered |
| `Reservations.CreatePreservesStoreInvariant` | server/services/reservation.service.js:170-198 | if no two same-plateau reservations overlap and the new id is fresh, the store still has no overlap and unique ids after a successful create, whether or not the slot is well ordered |
| `Reservations.RemoveAtPreservesStoreInvariant` | server/services/reservation.service.js:208-210 | removing any one reservation keeps no-overlap and unique ids |
| `Reservations.DeletePreservesStoreInvariant` | server/services/reservation.service.js:208-210 | deleting by id keeps no-overlap and unique ids |
| `Reservations.DeleteRemovesOnlyTheReservation` | server/services/reservation.service.js:208-210 | after deleting by id, no reservation has that id, and every reservation with another id is still there |
| `Reservations.BookingExample` | server/services/reservation.service.js:145-200 | with a 10:00-11:00 booking on plateau P, a 10:30-11:30 request is refused as unavailable and an 11:00-12:00 request succeeds |
| `Reservations.InvertedSlotAccepted` | server/services/reservation.service.js:170-178 | a slot whose start is not before its end is accepted on a free plateau: the server never checks the order |
| `ReservationService.ReservationService.constructor` | server/services/reservation.service.js:17-22 | the service holds the given collections, and the store invariant holds |
| `ReservationService.ReservationService.GetItemById` | server/services/reservation.service.js:69-71 | the item found is stored, has the id and is the first with it; none is found exactly when no stored item has the id |
| `ReservationService.ReservationService.GetPlateauById` | server/services/reservation.service.js:85-89 | the plateau found is stored, has the id and is the first with it; none is found exactly when no stored plateau has the id |
| `ReservationService.ReservationService.GetReservationById` | server/services/reservation.service.js:127-131 | given unique ids: the reservation found is stored and has the id; none is found exactly when none has it; a stored reservation with the id is the one found |
| `ReservationService.ReservationService.GetReservationsForPlateau` | server/services/reservation.service.js:133-135 | returns exactly the stored reservations of the plateau |
| `ReservationService.ReservationService.CheckPlateauAvailability` | server/services/reservation.service.js:98-115 | true exactly when no stored reservation of the plateau has `endTime > start` and `startTime < end` |
| `ReservationService.ReservationService.CreateReservation` | server/services/reservation.service.js:145-201 | the result is `CreateOutcome` of the old store; on an error the store is unchanged; on success the store is the old one plus exactly the returned record; the store invariant holds afterwards |
| `ReservationService.ReservationService.DeleteReservation` | server/services/reservation.service.js:208-210 | the store loses at most the reservation with the id, and the count reports it; no reservation with the id remains; the store invariant holds afterwards |
| `ReservationReducer.InitialState` | site-web/src/reducers/reservation-reducer.jsx:2-11 | definition: the initial form state, with every text field empty and no equipment; `ReservationReducer.ResetYieldsInitialState` states it field by field |
| `ReservationReducer.Reduce` | site-web/src/reducers/reservation-reducer.jsx:16-25 | definition: the reducer's three cases; its cases are the lemmas `ReservationReducer.UpdateSetsPayload`, `ReservationReducer.ResetYieldsInitialState` and `ReservationReducer.OtherActionsIgnored` |
| `ReservationReducer.IsReservationStarted` | site-web/src/components/header.jsx:17 | definition: the header's indicator, on when the state differs from the initial state; its behaviour is `ReservationReducer.ResetClearsStarted` and `ReservationReducer.UpdateStartsUnlessEmpty` |
| `ReservationReducer.UpdateSetsPayload` | site-web/src/reducers/reservation-reducer.jsx:18-19 | UPDATE makes the payload the reservation in progress, and the result does not depend on the previous state |
| `ReservationReducer.ResetYieldsInitialState` | site-web/src/reducers/reservation-reducer.jsx:20-21 | RESET returns the initial state from any state, with every field empty and no equipment |
| `ReservationReducer.OtherActionsIgnored` | site-web/src/reducers/reservation-reducer.jsx:22-23 | any other action type returns the state unchanged |
| `ReservationReducer.ResetAndUpdateIdempotent` | site-web/src/reducers/reservation-reducer.jsx:18-21 | applying RESET twice equals applying it once, and so does UPDATE with a fixed payload |
| `ReservationReducer.ResetClearsStarted` | site-web/src/components/header.jsx:17 | after RESET the "reservation started" indicator is off |
| `ReservationReducer.UpdateStartsUnlessEmpty` | site-web/src/components/header.jsx:17 | after UPDATE the indicator is on exactly when some field of the payload is filled in |

## Left out

- Fixture loading is not modelled: the service's own `populateDb`, `resetDatabase` and the file-system manager read JSON files.
- The database connection is not modelled: `connectToServer` and the collection getters. A collection is passed as an object instead of being looked up by name.
- `getAllItems`, `getAllPlateaus` and `getAllReservations` are modelled as reading a collection's `docs`.
- The MongoDB query syntax (`$and`, `$nor`, `$lte`, `$gte`) is modelled by its meaning, as filters over sequences.
- The HTTP routes, the React pages and components, and the client's fetch hook are not modelled: they are presentation and I/O.
- The server reads the id generator (uuid v4) and the clock. The model takes both as parameters; the id is required to be fresh.
- The lost-update race of the non-atomic drop-and-reinsert is a concurrency issue. Create is modelled as one sequential step.
- Times are unbounded integers of milliseconds. Invalid or non-numeric times, and the `Date` range limit, are not modelled.
- An `itemIds` of `null` or another non-array value, which would make `every` throw, is not modelled. Only an omitted list (read as empty) or a list is.
- Some driver errors are not modelled: `insertMany` rejecting an empty batch or a duplicate `_id`. The fresh-id requirement rules out the second for reservations; a uuid collision, possible though improbable, is therefore not modelled. In the first case the collection stays empty, as modelled.
- `deleteReservation` resolves to MongoDB's `DeleteResult`. Only its deleted count is modelled.
- Ids are strings, so the `toString()` calls in `getReservationById` compare the same values that `deleteOne` compares.
- Queries.Filter: states which elements the result holds, not their order or multiplicity.
- Reservations.Overlapping: states which elements the result holds, not their order or multiplicity.
- ReservationService.ReservationService.GetReservationsForPlateau: states which reservations the result holds, not their order or multiplicity.
- ReservationReducer.Reduce: an UPDATE without a payload, or with a payload holding extra or missing fields, is not modelled. The payload is a record with exactly the form's six fields.
- ReservationReducer.IsReservationStarted: the header compares `JSON.stringify` texts. The model compares values, which agree whenever the fields are in the same order, as every dispatch in the form writes them.
