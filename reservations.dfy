/** The reservation domain as values: plateaus (bookable venues), items
    (equipment), reservations, the slot-overlap test the service runs against
    the store, and the booking rule of `createReservation` as a function of the
    store's contents. The store invariant is that no two reservations of one
    plateau overlap and no two share an `_id`. Times are milliseconds. */
module Reservations {
  import opened Queries

  datatype Item = Item(id: string, name: string)

  datatype Plateau = Plateau(
    id: string,
    name: string,
    description: string,
    maxCapacity: int,
    allowedItems: seq<string>)

  /** A stored reservation; `id` is the document's `_id`. */
  datatype Reservation = Reservation(
    id: string,
    plateauId: string,
    plateauName: string,
    clientName: string,
    startTime: int,
    endTime: int,
    itemIds: seq<string>,
    createdAt: int)

  /** The request body of `createReservation`; `itemIds` may be omitted. */
  datatype ReservationData = ReservationData(
    plateauId: string,
    itemIds: Option<seq<string>>,
    startTime: int,
    endTime: int,
    clientName: string)

  /** The three errors `createReservation` throws, in the order it checks. */
  datatype BookingError = InvalidPlateau | ItemsNotAllowed | SlotUnavailable {
    function Message(): string {
      match this
      case InvalidPlateau => "Invalid plateau"
      case ItemsNotAllowed => "Some items are not allowed for this plateau"
      case SlotUnavailable => "Requested time slot not available"
    }
  }

  function ItemKey(i: Item): string { i.id }
  function PlateauKey(p: Plateau): string { p.id }
  function ReservationKey(r: Reservation): string { r.id }
  function ReservationPlateau(r: Reservation): string { r.plateauId }

  /** The availability query's test for one stored reservation `e`: it is on the
      plateau and it is not the case that it ends by `startTime` or starts at or
      after `endTime`. */
  predicate Conflicts(e: Reservation, plateauId: string, startTime: int, endTime: int) {
    e.plateauId == plateauId && !(e.endTime <= startTime || e.startTime >= endTime)
  }

  /** Two reservations overlap when one conflicts with the other's slot. */
  predicate Overlap(a: Reservation, b: Reservation) {
    Conflicts(a, b.plateauId, b.startTime, b.endTime)
  }

  /** The slot `[startTime, endTime)` of the plateau is free in `rs`. */
  predicate IsAvailable(rs: seq<Reservation>, plateauId: string, startTime: int, endTime: int) {
    forall e :: e in rs ==> !Conflicts(e, plateauId, startTime, endTime)
  }

  /** The documents the availability query returns: those of `rs` that conflict
      with the slot, in store order. This is the shape of `Queries.Filter`, kept
      as its own first-order definition because the query's test is a compound
      condition on three parameters, not equality on one key; a predicate-valued
      `Filter` would put lambda values into the contracts of its callers. */
  function Overlapping(rs: seq<Reservation>, plateauId: string, startTime: int, endTime: int): (r: seq<Reservation>)
    ensures |r| <= |rs|
    ensures forall e :: e in r ==> e in rs && Conflicts(e, plateauId, startTime, endTime)
    ensures forall e :: e in rs && Conflicts(e, plateauId, startTime, endTime) ==> e in r
  {
    if |rs| == 0 then []
    else if Conflicts(rs[0], plateauId, startTime, endTime)
    then [rs[0]] + Overlapping(rs[1..], plateauId, startTime, endTime)
    else Overlapping(rs[1..], plateauId, startTime, endTime)
  }

  /** No two reservations at different positions of the store overlap. */
  ghost predicate NoOverlap(rs: seq<Reservation>) {
    forall i, j :: 0 <= i < |rs| && 0 <= j < |rs| && i != j ==> !Overlap(rs[i], rs[j])
  }

  ghost predicate StoreInvariant(rs: seq<Reservation>) {
    NoOverlap(rs) && UniqueKeys(rs, ReservationKey)
  }

  /** The requested items, with an omitted list read as empty. */
  function RequestedItems(data: ReservationData): seq<string> {
    match data.itemIds
    case None => []
    case Some(ids) => ids
  }

  /** Every requested item is among the plateau's allowed items. */
  predicate AllItemsAllowed(itemIds: seq<string>, allowedItems: seq<string>) {
    forall k :: 0 <= k < |itemIds| ==> itemIds[k] in allowedItems
  }

  /** What `createReservation(data)` returns or throws on a store holding
      `plateaus` and reservations `rs`, with `newId` from the id generator and
      `createdAt` from the clock. */
  function CreateOutcome(
    plateaus: seq<Plateau>, rs: seq<Reservation>, data: ReservationData,
    newId: string, createdAt: int): (r: Result<Reservation, BookingError>)
    ensures r.Success? ==>
      && r.value.id == newId
      && r.value.plateauId == data.plateauId
      && r.value.clientName == data.clientName
      && r.value.startTime == data.startTime
      && r.value.endTime == data.endTime
      && r.value.itemIds == RequestedItems(data)
      && r.value.createdAt == createdAt
    ensures r.Success? ==>
      && Find(plateaus, PlateauKey, data.plateauId).Some?
      && r.value.plateauName == Find(plateaus, PlateauKey, data.plateauId).value.name
      && AllItemsAllowed(r.value.itemIds, Find(plateaus, PlateauKey, data.plateauId).value.allowedItems)
    ensures r.Success? ==> IsAvailable(rs, data.plateauId, data.startTime, data.endTime)
  {
    match Find(plateaus, PlateauKey, data.plateauId)
    case None => Failure(InvalidPlateau)
    case Some(plateau) =>
      var itemIds := RequestedItems(data);
      if !AllItemsAllowed(itemIds, plateau.allowedItems) then Failure(ItemsNotAllowed)
      else if !IsAvailable(rs, data.plateauId, data.startTime, data.endTime) then Failure(SlotUnavailable)
      else Success(Reservation(newId, data.plateauId, plateau.name, data.clientName,
                               data.startTime, data.endTime, itemIds, createdAt))
  }

  /** Overlap is symmetric, so the invariant does not depend on which of two
      reservations came first, nor on whether a slot is inverted. */
  lemma OverlapSymmetric(a: Reservation, b: Reservation)
    ensures Overlap(a, b) <==> Overlap(b, a)
  {
  }

  /** A slot that touches an existing one at an endpoint does not conflict. */
  lemma TouchingSlotsDoNotConflict(e: Reservation, startTime: int, endTime: int)
    requires e.endTime == startTime || e.startTime == endTime
    ensures !Conflicts(e, e.plateauId, startTime, endTime)
  {
  }

  /** Availability only looks at the plateau's own reservations: it is the same
      on the whole store and on the reservations the plateau filter returns. */
  lemma OtherPlateausIrrelevant(rs: seq<Reservation>, plateauId: string, startTime: int, endTime: int)
    ensures IsAvailable(rs, plateauId, startTime, endTime)
        <==> IsAvailable(Filter(rs, ReservationPlateau, plateauId), plateauId, startTime, endTime)
  {
    var mine := Filter(rs, ReservationPlateau, plateauId);
    if !IsAvailable(rs, plateauId, startTime, endTime) {
      var e :| e in rs && Conflicts(e, plateauId, startTime, endTime);
      assert ReservationPlateau(e) == plateauId;
      assert e in mine;
    }
  }

  /** Adding a reservation of another plateau never changes availability. */
  lemma OtherPlateauReservationIrrelevant(rs: seq<Reservation>, other: Reservation, plateauId: string, startTime: int, endTime: int)
    requires other.plateauId != plateauId
    ensures IsAvailable(rs + [other], plateauId, startTime, endTime) <==> IsAvailable(rs, plateauId, startTime, endTime)
  {
  }

  /** The first check: the request fails with "Invalid plateau" exactly when no
      plateau carries the requested id. */
  lemma UnknownPlateauRejected(plateaus: seq<Plateau>, rs: seq<Reservation>, data: ReservationData, newId: string, createdAt: int)
    ensures CreateOutcome(plateaus, rs, data, newId, createdAt) == Failure(InvalidPlateau)
        <==> forall p :: p in plateaus ==> p.id != data.plateauId
  {
  }

  /** The second check, on the first plateau with the requested id: the request
      fails with "Some items are not allowed" exactly when a requested item is
      not among its allowed items. */
  lemma DisallowedItemsRejected(plateaus: seq<Plateau>, rs: seq<Reservation>, data: ReservationData, newId: string, createdAt: int, plateau: Plateau)
    requires Find(plateaus, PlateauKey, data.plateauId) == Some(plateau)
    ensures CreateOutcome(plateaus, rs, data, newId, createdAt) == Failure(ItemsNotAllowed)
        <==> exists k :: 0 <= k < |RequestedItems(data)| && RequestedItems(data)[k] !in plateau.allowedItems
  {
  }

  /** An omitted or empty item list always passes the item check. */
  lemma NoItemsAlwaysAllowed(plateaus: seq<Plateau>, rs: seq<Reservation>, data: ReservationData, newId: string, createdAt: int)
    requires data.itemIds == None || data.itemIds == Some([])
    ensures CreateOutcome(plateaus, rs, data, newId, createdAt) != Failure(ItemsNotAllowed)
  {
  }

  /** The third check: once plateau and items pass, the request fails with
      "Requested time slot not available" exactly when a stored reservation
      conflicts with the slot. */
  lemma ConflictingSlotRejected(plateaus: seq<Plateau>, rs: seq<Reservation>, data: ReservationData, newId: string, createdAt: int, plateau: Plateau)
    requires Find(plateaus, PlateauKey, data.plateauId) == Some(plateau)
    requires AllItemsAllowed(RequestedItems(data), plateau.allowedItems)
    ensures CreateOutcome(plateaus, rs, data, newId, createdAt) == Failure(SlotUnavailable)
        <==> exists e :: e in rs && Conflicts(e, data.plateauId, data.startTime, data.endTime)
  {
  }

  /** A successful creation keeps same-plateau reservations apart, whether or
      not the slot is well ordered; the ids play no part in this. */
  lemma CreatePreservesNoOverlap(
    plateaus: seq<Plateau>, rs: seq<Reservation>, data: ReservationData, newId: string, createdAt: int)
    requires NoOverlap(rs)
    requires CreateOutcome(plateaus, rs, data, newId, createdAt).Success?
    ensures NoOverlap(rs + [CreateOutcome(plateaus, rs, data, newId, createdAt).value])
  {
    var n := CreateOutcome(plateaus, rs, data, newId, createdAt).value;
    var after := rs + [n];
    forall i, j | 0 <= i < |after| && 0 <= j < |after| && i != j
      ensures !Overlap(after[i], after[j])
    {
      if i == |rs| {
        assert after[j] in rs;
        OverlapSymmetric(n, after[j]);
      } else if j == |rs| {
        assert after[i] in rs;
      } else {
        assert after[i] == rs[i] && after[j] == rs[j];
      }
    }
  }

  /** A successful creation with a fresh id appends a reservation that keeps
      the store invariant: no overlap, by `CreatePreservesNoOverlap`, and
      unique ids, by the freshness of the new one. */
  lemma CreatePreservesStoreInvariant(
    plateaus: seq<Plateau>, rs: seq<Reservation>, data: ReservationData, newId: string, createdAt: int)
    requires StoreInvariant(rs)
    requires forall e :: e in rs ==> e.id != newId
    requires CreateOutcome(plateaus, rs, data, newId, createdAt).Success?
    ensures StoreInvariant(rs + [CreateOutcome(plateaus, rs, data, newId, createdAt).value])
  {
    CreatePreservesNoOverlap(plateaus, rs, data, newId, createdAt);
    var n := CreateOutcome(plateaus, rs, data, newId, createdAt).value;
    var after := rs + [n];
    forall i, j | 0 <= i < |after| && 0 <= j < |after| && i != j
      ensures ReservationKey(after[i]) != ReservationKey(after[j])
    {
      if i == |rs| {
        assert after[j] in rs;
      } else if j == |rs| {
        assert after[i] in rs;
      } else {
        assert after[i] == rs[i] && after[j] == rs[j];
      }
    }
  }

  /** Taking one reservation out of the store keeps the store invariant. */
  lemma RemoveAtPreservesStoreInvariant(rs: seq<Reservation>, d: nat)
    requires StoreInvariant(rs) && d < |rs|
    ensures StoreInvariant(rs[..d] + rs[d+1..])
  {
    var after := rs[..d] + rs[d+1..];
    forall i, j | 0 <= i < |after| && 0 <= j < |after| && i != j
      ensures !Overlap(after[i], after[j]) && ReservationKey(after[i]) != ReservationKey(after[j])
    {
      var i' := if i < d then i else i + 1;
      var j' := if j < d then j else j + 1;
      assert after[i] == rs[i'] && after[j] == rs[j'];
    }
  }

  /** Deleting by id keeps the store invariant. */
  lemma DeletePreservesStoreInvariant(rs: seq<Reservation>, id: string)
    requires StoreInvariant(rs)
    ensures StoreInvariant(RemoveFirst(rs, ReservationKey, id))
  {
    match FirstIndex(rs, ReservationKey, id)
    case None =>
    case Some(d) =>
      RemoveAtPreservesStoreInvariant(rs, d);
  }

  /** With unique ids, deleting by id leaves no reservation with that id and
      keeps every other reservation. */
  lemma DeleteRemovesOnlyTheReservation(rs: seq<Reservation>, id: string)
    requires StoreInvariant(rs)
    ensures forall e :: e in RemoveFirst(rs, ReservationKey, id) ==> e.id != id
    ensures forall e :: e in rs && e.id != id ==> e in RemoveFirst(rs, ReservationKey, id)
  {
  }

  /** The example of the booking rule: plateau P allows items A and B and holds
      a reservation from 10:00 to 11:00; a request from 10:30 to 11:30 is
      refused, one from 11:00 to 12:00 is accepted. */
  lemma BookingExample()
    ensures
      var p := Plateau("P", "Court P", "", 4, ["A", "B"]);
      var hour := 3600000;
      var existing := Reservation("r1", "P", "Court P", "Ann", 10 * hour, 11 * hour, ["A"], 0);
      && CreateOutcome([p], [existing], ReservationData("P", Some(["B"]), 10 * hour + hour / 2, 11 * hour + hour / 2, "Bob"), "r2", 1)
         == Failure(SlotUnavailable)
      && CreateOutcome([p], [existing], ReservationData("P", Some(["B"]), 11 * hour, 12 * hour, "Bob"), "r2", 1).Success?
  {
    var p := Plateau("P", "Court P", "", 4, ["A", "B"]);
    var hour := 3600000;
    var existing := Reservation("r1", "P", "Court P", "Ann", 10 * hour, 11 * hour, ["A"], 0);
    assert FirstIndex([p], PlateauKey, "P") == Some(0);
    assert AllItemsAllowed(["B"], p.allowedItems) by {
      assert p.allowedItems[1] == "B";
    }
    assert Conflicts(existing, "P", 10 * hour + hour / 2, 11 * hour + hour / 2);
    assert IsAvailable([existing], "P", 11 * hour, 12 * hour);
  }

  /** The service never checks that a slot ends after it starts: an inverted
      slot on a free plateau is accepted. */
  lemma InvertedSlotAccepted(p: Plateau, data: ReservationData, newId: string, createdAt: int)
    requires p.id == data.plateauId && data.itemIds == None
    requires data.startTime >= data.endTime
    ensures CreateOutcome([p], [], data, newId, createdAt).Success?
  {
  }
}
