/** The relational store: one map per table, from primary key to row, held
    together as one `Tables` value, and the counter primary keys are drawn
    from. The models' `save` methods and the viewsets write through the
    methods here; each is proved against a function of the tables. */
module Store {

  import opened Common
  import opened Schema
  import opened Cascade

  /** The schema's constraints hold, the participation invariant the views
      keep holds, and `next` is above every key in use. */
  ghost predicate Inv(t: Tables, next: nat) {
    Consistent(t) && CreatorsDrive(t.participants, t.trips) && Allocated(t, next)
  }

  class Database {
    var tables: Tables
    /** The next primary key the database hands out. */
    var nextId: nat

    ghost predicate Valid()
      reads this
    {
      Inv(tables, nextId)
    }

    constructor ()
      ensures Valid()
      ensures tables == Tables(map[], map[], map[], map[], map[], map[], map[], map[])
    {
      tables := Tables(map[], map[], map[], map[], map[], map[], map[], map[]);
      nextId := 0;
    }

    /** Writes a user row under the instance's key, or a fresh one; the
        e-mail must not be another row's. */
    method PutUser(pk: Option<Id>, row: UserRow) returns (id: Id)
      requires Valid()
      requires forall j :: j in tables.users && pk != Some(j) ==> tables.users[j].email != row.email
      modifies this
      ensures Valid()
      ensures pk.Some? ==> id == pk.value
      ensures pk.None? ==> id !in old(tables.users)
      ensures tables == old(tables).(users := old(tables.users)[id := row])
    {
      id := KeyFor(pk, nextId);
      var next := NextAfter(pk, nextId);
      AllocatedGrow(tables, nextId, next);
      KeysBelowPut(tables.users, id, row, next);
      PutUserKeepsConsistent(tables, id, row);
      tables := tables.(users := tables.users[id := row]);
      nextId := next;
    }

    /** Writes a state row that equals no other. */
    method PutState(pk: Option<Id>, row: StateRow) returns (id: Id)
      requires Valid()
      requires forall j :: j in tables.states && pk != Some(j) ==> tables.states[j] != row
      modifies this
      ensures Valid()
      ensures pk.Some? ==> id == pk.value
      ensures pk.None? ==> id !in old(tables.states)
      ensures tables == old(tables).(states := old(tables.states)[id := row])
    {
      id := KeyFor(pk, nextId);
      var next := NextAfter(pk, nextId);
      AllocatedGrow(tables, nextId, next);
      KeysBelowPut(tables.states, id, row, next);
      PutStateKeepsConsistent(tables, id, row);
      tables := tables.(states := tables.states[id := row]);
      nextId := next;
    }

    /** Writes a city row whose state exists. */
    method PutCity(pk: Option<Id>, row: CityRow) returns (id: Id)
      requires Valid()
      requires row.state in tables.states
      modifies this
      ensures Valid()
      ensures pk.Some? ==> id == pk.value
      ensures pk.None? ==> id !in old(tables.cities)
      ensures tables == old(tables).(cities := old(tables.cities)[id := row])
    {
      id := KeyFor(pk, nextId);
      var next := NextAfter(pk, nextId);
      AllocatedGrow(tables, nextId, next);
      KeysBelowPut(tables.cities, id, row, next);
      PutCityKeepsConsistent(tables, id, row);
      tables := tables.(cities := tables.cities[id := row]);
      nextId := next;
    }

    /** Writes a vehicle row whose owner exists and whose plate no other row
        holds. */
    method PutVehicle(pk: Option<Id>, row: VehicleRow) returns (id: Id)
      requires Valid()
      requires row.owner in tables.users
      requires forall j :: j in tables.vehicles && pk != Some(j) ==> tables.vehicles[j].licensePlate != row.licensePlate
      modifies this
      ensures Valid()
      ensures pk.Some? ==> id == pk.value
      ensures pk.None? ==> id !in old(tables.vehicles)
      ensures tables == old(tables).(vehicles := old(tables.vehicles)[id := row])
    {
      id := KeyFor(pk, nextId);
      var next := NextAfter(pk, nextId);
      AllocatedGrow(tables, nextId, next);
      KeysBelowPut(tables.vehicles, id, row, next);
      PutVehicleKeepsConsistent(tables, id, row);
      tables := tables.(vehicles := tables.vehicles[id := row]);
      nextId := next;
    }

    /** Rewrites a stored trip; the creator stays and every reference names
        a stored row. */
    method PutTrip(k: Id, row: TripRow)
      requires Valid()
      requires k in tables.trips && row.creator == tables.trips[k].creator
      requires TripRefers(row, tables.users, tables.cities, tables.vehicles)
      modifies this
      ensures Valid()
      ensures tables == old(tables).(trips := old(tables.trips)[k := row]) && nextId == old(nextId)
    {
      PutTripSound(tables, k, row);
      PutTripKeepsCreatorsDrive(tables, k, row);
      KeysBelowPut(tables.trips, k, row, nextId);
      tables := tables.(trips := tables.trips[k := row]);
    }

    /** Inserts a trip under a fresh key and its creator's driver row under
        the next one. */
    method InsertTripWithDriver(row: TripRow) returns (k: Id, p: Id)
      requires Valid()
      requires TripRefers(row, tables.users, tables.cities, tables.vehicles)
      modifies this
      ensures Valid()
      ensures k !in old(tables.trips) && p !in old(tables.participants) && k != p
      ensures tables == AddTrip(old(tables), k, p, row)
    {
      k, p := nextId, nextId + 1;
      var next := nextId + 2;
      AllocatedGrow(tables, nextId, next);
      KeysBelowPut(tables.trips, k, row, next);
      KeysBelowPut(tables.participants, p, ParticipantRow(row.creator, k, Driver), next);
      AddTripSound(tables, k, p, row);
      AddTripKeepsCreatorsDrive(tables, k, p, row);
      tables := AddTrip(tables, k, p, row);
      nextId := next;
    }

    /** Writes a join request under the instance's key, or a fresh one. */
    method PutJoinRequest(pk: Option<Id>, row: JoinRequestRow) returns (id: Id)
      requires Valid()
      requires row.user in tables.users && row.trip in tables.trips
      requires forall i :: i in tables.joinRequests && pk != Some(i) ==>
        !(tables.joinRequests[i].user == row.user && tables.joinRequests[i].trip == row.trip)
      modifies this
      ensures Valid()
      ensures pk.Some? ==> id == pk.value
      ensures pk.None? ==> id !in old(tables.joinRequests)
      ensures tables == old(tables).(joinRequests := old(tables.joinRequests)[id := row])
    {
      id := KeyFor(pk, nextId);
      var next := NextAfter(pk, nextId);
      AllocatedGrow(tables, nextId, next);
      KeysBelowPut(tables.joinRequests, id, row, next);
      PutJoinRequestSound(tables, id, row);
      tables := tables.(joinRequests := tables.joinRequests[id := row]);
      nextId := next;
    }

    /** Writes a review under the instance's key, or a fresh one. */
    method PutReview(pk: Option<Id>, row: ReviewRow) returns (id: Id)
      requires Valid()
      requires row.user in tables.users && row.reviewer in tables.users && row.trip in tables.trips
      requires forall i :: i in tables.reviews && pk != Some(i) ==>
        !(tables.reviews[i].user == row.user && tables.reviews[i].trip == row.trip && tables.reviews[i].reviewer == row.reviewer)
      modifies this
      ensures Valid()
      ensures pk.Some? ==> id == pk.value
      ensures pk.None? ==> id !in old(tables.reviews)
      ensures tables == old(tables).(reviews := old(tables.reviews)[id := row])
    {
      id := KeyFor(pk, nextId);
      var next := NextAfter(pk, nextId);
      AllocatedGrow(tables, nextId, next);
      KeysBelowPut(tables.reviews, id, row, next);
      PutReviewSound(tables, id, row);
      tables := tables.(reviews := tables.reviews[id := row]);
      nextId := next;
    }

    /** Deletes a vehicle; trips that used it keep going without one. */
    method RemoveVehicle(v: Id)
      requires Valid()
      modifies this
      ensures Valid()
      ensures tables == DeleteVehicle(old(tables), v)
    {
      DeleteVehicleSound(tables, v);
      DeleteVehicleKeepsCreatorsDrive(tables, v);
      DeleteVehicleShrinks(tables, v);
      AllocatedWithin(DeleteVehicle(tables, v), tables, nextId);
      tables := DeleteVehicle(tables, v);
    }

    /** Deletes a trip with its participants, join requests and reviews. */
    method RemoveTrip(k: Id)
      requires Valid()
      modifies this
      ensures Valid()
      ensures tables == DeleteTrip(old(tables), k)
    {
      DeleteTripSound(tables, k);
      DeleteTripKeepsCreatorsDrive(tables, k);
      DeleteTripShrinks(tables, k);
      AllocatedWithin(DeleteTrip(tables, k), tables, nextId);
      tables := DeleteTrip(tables, k);
    }

    /** Deletes a user with every row that goes with them. */
    method RemoveUser(u: Id)
      requires Valid()
      modifies this
      ensures Valid()
      ensures tables == DeleteUser(old(tables), u)
    {
      DeleteUserSound(tables, u);
      DeleteUserKeepsCreatorsDrive(tables, u);
      DeleteUserShrinks(tables, u);
      AllocatedWithin(DeleteUser(tables, u), tables, nextId);
      tables := DeleteUser(tables, u);
    }

    /** Deletes one participant row; nothing refers to it. */
    method RemoveParticipant(k: Id)
      requires Valid()
      modifies this
      ensures Valid()
      ensures tables == old(tables).(participants := old(tables.participants) - {k})
    {
      RemoveParticipantSound(tables, k);
      RemoveParticipantKeepsCreatorsDrive(tables, k);
      RemoveParticipantShrinks(tables, k);
      AllocatedWithin(tables.(participants := tables.participants - {k}), tables, nextId);
      tables := tables.(participants := tables.participants - {k});
    }

    /** Deletes one join request; nothing refers to it. */
    method RemoveJoinRequest(k: Id)
      requires Valid()
      modifies this
      ensures Valid()
      ensures tables == old(tables).(joinRequests := old(tables.joinRequests) - {k})
    {
      RemoveJoinRequestSound(tables, k);
      RemoveJoinRequestShrinks(tables, k);
      AllocatedWithin(tables.(joinRequests := tables.joinRequests - {k}), tables, nextId);
      tables := tables.(joinRequests := tables.joinRequests - {k});
    }

    /** Deletes one review; nothing refers to it. */
    method RemoveReview(k: Id)
      requires Valid()
      modifies this
      ensures Valid()
      ensures tables == old(tables).(reviews := old(tables.reviews) - {k})
    {
      RemoveReviewSound(tables, k);
      RemoveReviewShrinks(tables, k);
      AllocatedWithin(tables.(reviews := tables.reviews - {k}), tables, nextId);
      tables := tables.(reviews := tables.reviews - {k});
    }
  }
}
