/** The reservation service over its three collections. Lookups are queries on
    the collections' documents; `CreateReservation` runs the three checks and then
    appends by reading the list, adding the record, dropping the collection and
    populating it again; `DeleteReservation` removes by `_id`. Every mutating
    method keeps the store invariant of `Reservations`. */
module ReservationService {
  import opened Queries
  import opened Reservations
  import DatabaseService

  class ReservationService {
    const items: DatabaseService.Collection<Item>
    const plateaus: DatabaseService.Collection<Plateau>
    const reservations: DatabaseService.Collection<Reservation>

    ghost predicate Valid()
      reads this, reservations
    {
      StoreInvariant(reservations.docs)
    }

    constructor (
      items: DatabaseService.Collection<Item>,
      plateaus: DatabaseService.Collection<Plateau>,
      reservations: DatabaseService.Collection<Reservation>)
      requires StoreInvariant(reservations.docs)
      ensures this.items == items && this.plateaus == plateaus && this.reservations == reservations
      ensures Valid()
    {
      this.items := items;
      this.plateaus := plateaus;
      this.reservations := reservations;
    }

    /** `getItemById`: the first item with the id, or `None` when there is none. */
    function GetItemById(itemId: string): (r: Option<Item>)
      reads this, items
      ensures r.Some? ==> r.value in items.docs && r.value.id == itemId
      ensures r.Some? ==> exists i :: 0 <= i < |items.docs| && items.docs[i] == r.value
                                     && forall j :: 0 <= j < i ==> items.docs[j].id != itemId
      ensures r.None? <==> forall i :: i in items.docs ==> i.id != itemId
    {
      Find(items.docs, ItemKey, itemId)
    }

    /** `getPlateauById`: the first plateau with the id, or `None` when there is none. */
    function GetPlateauById(plateauId: string): (r: Option<Plateau>)
      reads this, plateaus
      ensures r.Some? ==> r.value in plateaus.docs && r.value.id == plateauId
      ensures r.Some? ==> exists i :: 0 <= i < |plateaus.docs| && plateaus.docs[i] == r.value
                                     && forall j :: 0 <= j < i ==> plateaus.docs[j].id != plateauId
      ensures r.None? <==> forall p :: p in plateaus.docs ==> p.id != plateauId
    {
      Find(plateaus.docs, PlateauKey, plateauId)
    }

    /** `getReservationById`: the reservation with the id; ids are unique, so
        the one stored under that id is the one found. */
    function GetReservationById(id: string): (r: Option<Reservation>)
      requires UniqueKeys(reservations.docs, ReservationKey)
      reads this, reservations
      ensures r.Some? ==> r.value in reservations.docs && r.value.id == id
      ensures r.None? <==> forall e :: e in reservations.docs ==> e.id != id
      ensures forall e :: e in reservations.docs && e.id == id ==> r == Some(e)
    {
      var r := Find(reservations.docs, ReservationKey, id);
      assert forall e :: e in reservations.docs && e.id == id ==> r == Some(e) by {
        forall e | e in reservations.docs && e.id == id
          ensures r == Some(e)
        {
          FindUnique(reservations.docs, ReservationKey, e);
        }
      }
      r
    }

    /** `getReservationsForPlateau`: the reservations of one plateau. */
    function GetReservationsForPlateau(plateauId: string): (r: seq<Reservation>)
      reads this, reservations
      ensures forall e :: e in r ==> e in reservations.docs && e.plateauId == plateauId
      ensures forall e :: e in reservations.docs && e.plateauId == plateauId ==> e in r
    {
      Filter(reservations.docs, ReservationPlateau, plateauId)
    }

    /** `checkPlateauAvailability`: true exactly when the overlap query finds
        no reservation, that is when the slot is free. */
    function CheckPlateauAvailability(plateauId: string, startTime: int, endTime: int): (ok: bool)
      reads this, reservations
      ensures ok <==> IsAvailable(reservations.docs, plateauId, startTime, endTime)
    {
      var overlappingReservations := Overlapping(reservations.docs, plateauId, startTime, endTime);
      assert |overlappingReservations| > 0 ==> overlappingReservations[0] in overlappingReservations;
      |overlappingReservations| == 0
    }

    /** `createReservation(data)`, with the generated `_id` and the creation
        time passed in. On an error nothing is written; on success exactly the
        returned record is appended. */
    method CreateReservation(data: ReservationData, newId: string, createdAt: int)
      returns (result: Result<Reservation, BookingError>)
      requires Valid()
      requires forall e :: e in reservations.docs ==> e.id != newId
      modifies reservations
      ensures Valid()
      ensures result == CreateOutcome(plateaus.docs, old(reservations.docs), data, newId, createdAt)
      ensures result.Failure? ==> reservations.docs == old(reservations.docs)
      ensures result.Success? ==> reservations.docs == old(reservations.docs) + [result.value]
    {
      var plateau := GetPlateauById(data.plateauId);
      if plateau == None {
        return Failure(InvalidPlateau);
      }
      var itemIds := RequestedItems(data);
      var allowedItems := plateau.value.allowedItems;
      var allItemsAllowed := AllItemsAllowed(itemIds, allowedItems);
      if !allItemsAllowed {
        return Failure(ItemsNotAllowed);
      }
      var isPlateauAvailable := CheckPlateauAvailability(data.plateauId, data.startTime, data.endTime);
      if !isPlateauAvailable {
        return Failure(SlotUnavailable);
      }
      var reservation := Reservation(newId, data.plateauId, plateau.value.name, data.clientName,
                                     data.startTime, data.endTime, itemIds, createdAt);
      var reservationsList := reservations.docs;
      reservationsList := reservationsList + [reservation];
      reservations.Drop();
      DatabaseService.PopulateDb(reservations, DatabaseService.ArrayData(reservationsList));
      CreatePreservesStoreInvariant(plateaus.docs, old(reservations.docs), data, newId, createdAt);
      result := Success(reservation);
    }

    /** `deleteReservation(id)`: removes the reservation with that `_id`, if
        any, and reports how many went. */
    method DeleteReservation(id: string) returns (deletedCount: nat)
      requires Valid()
      modifies reservations
      ensures Valid()
      ensures reservations.docs == RemoveFirst(old(reservations.docs), ReservationKey, id)
      ensures deletedCount == (if exists e :: e in old(reservations.docs) && e.id == id then 1 else 0)
      ensures forall e :: e in reservations.docs ==> e.id != id
    {
      DeletePreservesStoreInvariant(reservations.docs, id);
      DeleteRemovesOnlyTheReservation(reservations.docs, id);
      deletedCount := reservations.DeleteOne(ReservationKey, id);
    }
  }
}
