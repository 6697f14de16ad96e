/** How the tables change when the views insert or delete rows. A delete
    follows the foreign keys' `on_delete`: CASCADE removes the rows that refer
    to the deleted one, SET_NULL (a trip's vehicle) clears the reference. Each
    change is a function of the tables, proved to keep every constraint and
    the participation invariant. */
module Cascade {

  import opened Common
  import opened Schema

  /** `a` keeps some of `b`'s rows, unchanged. */
  ghost predicate SubMap<T>(a: map<Id, T>, b: map<Id, T>) {
    forall k :: k in a ==> k in b && a[k] == b[k]
  }

  // ---------------------------------------------------------------------
  // Table-level facts: dropping rows keeps uniqueness, and references only
  // need the referenced keys to stay.

  lemma EmailsUniqueSub(a: map<Id, UserRow>, b: map<Id, UserRow>)
    requires SubMap(a, b) && EmailsUnique(b)
    ensures EmailsUnique(a)
  {
  }

  lemma VehiclesSub(a: map<Id, VehicleRow>, b: map<Id, VehicleRow>, users: map<Id, UserRow>, users': map<Id, UserRow>)
    requires SubMap(a, b) && PlatesUnique(b) && PlateOwnerUnique(b) && VehiclesRefer(b, users)
    requires forall k :: k in a ==> a[k].owner in users'
    ensures PlatesUnique(a) && PlateOwnerUnique(a) && VehiclesRefer(a, users')
  {
  }

  lemma ParticipantsSub(a: map<Id, ParticipantRow>, b: map<Id, ParticipantRow>, users: map<Id, UserRow>, trips: map<Id, TripRow>)
    requires SubMap(a, b) && ParticipantsUnique(b)
    requires forall p :: p in a ==> a[p].user in users && a[p].trip in trips
    ensures ParticipantsUnique(a) && ParticipantsRefer(a, users, trips)
  {
  }

  lemma JoinRequestsSub(a: map<Id, JoinRequestRow>, b: map<Id, JoinRequestRow>, users: map<Id, UserRow>, trips: map<Id, TripRow>)
    requires SubMap(a, b) && JoinRequestsUnique(b)
    requires forall j :: j in a ==> a[j].user in users && a[j].trip in trips
    ensures JoinRequestsUnique(a) && JoinRequestsRefer(a, users, trips)
  {
  }

  lemma ReviewsSub(a: map<Id, ReviewRow>, b: map<Id, ReviewRow>, users: map<Id, UserRow>, trips: map<Id, TripRow>)
    requires SubMap(a, b) && ReviewsUnique(b)
    requires forall j :: j in a ==> a[j].user in users && a[j].reviewer in users && a[j].trip in trips
    ensures ReviewsUnique(a) && ReviewsRefer(a, users, trips)
  {
  }

  /** Rows that refer to trips still refer once more trips exist. */
  lemma TripKeysGrow(t: Tables, trips: map<Id, TripRow>)
    requires ParticipantsRefer(t.participants, t.users, t.trips)
    requires JoinRequestsRefer(t.joinRequests, t.users, t.trips)
    requires ReviewsRefer(t.reviews, t.users, t.trips)
    requires t.trips.Keys <= trips.Keys
    ensures ParticipantsRefer(t.participants, t.users, trips)
    ensures JoinRequestsRefer(t.joinRequests, t.users, trips)
    ensures ReviewsRefer(t.reviews, t.users, trips)
  {
  }

  /** Writing one trip row that refers to existing rows. */
  lemma PutTripRefers(trips: map<Id, TripRow>, k: Id, row: TripRow, users: map<Id, UserRow>, cities: map<Id, CityRow>, vehicles: map<Id, VehicleRow>)
    requires TripsRefer(trips, users, cities, vehicles) && TripRefers(row, users, cities, vehicles)
    ensures TripsRefer(trips[k := row], users, cities, vehicles)
  {
  }

  // ---------------------------------------------------------------------
  // Deleting a vehicle: `Trip.vehicle` is SET_NULL.

  /** The trips table once vehicle `v` is gone. */
  function Unassigned(trips: map<Id, TripRow>, v: Id): map<Id, TripRow> {
    map k | k in trips :: if trips[k].vehicle == Some(v) then trips[k].(vehicle := None) else trips[k]
  }

  function DeleteVehicle(t: Tables, v: Id): Tables {
    t.(vehicles := t.vehicles - {v}, trips := Unassigned(t.trips, v))
  }

  /** The vehicle's row is gone, every trip stays, no trip refers to the
      vehicle any more, and a trip changes only by losing it. */
  lemma DeleteVehicleClears(t: Tables, v: Id)
    ensures var r := DeleteVehicle(t, v);
      && v !in r.vehicles && r.vehicles == t.vehicles - {v}
      && r.trips.Keys == t.trips.Keys
      && (forall k :: k in r.trips ==> r.trips[k].vehicle != Some(v) && r.trips[k].(vehicle := t.trips[k].vehicle) == t.trips[k])
      && (forall k :: k in r.trips && t.trips[k].vehicle != Some(v) ==> r.trips[k] == t.trips[k])
      && r.users == t.users && r.participants == t.participants && r.joinRequests == t.joinRequests && r.reviews == t.reviews
  {
  }

  lemma UnassignedRefers(trips: map<Id, TripRow>, v: Id, users: map<Id, UserRow>, cities: map<Id, CityRow>, vehicles: map<Id, VehicleRow>)
    requires TripsRefer(trips, users, cities, vehicles)
    ensures TripsRefer(Unassigned(trips, v), users, cities, vehicles - {v})
    ensures Unassigned(trips, v).Keys == trips.Keys
  {
    var r := Unassigned(trips, v);
    forall k | k in r ensures TripRefers(r[k], users, cities, vehicles - {v}) {
      assert TripRefers(trips[k], users, cities, vehicles);
    }
  }

  lemma DeleteVehicleSound(t: Tables, v: Id)
    requires Consistent(t)
    ensures Consistent(DeleteVehicle(t, v))
  {
    var r := DeleteVehicle(t, v);
    VehiclesSub(r.vehicles, t.vehicles, t.users, t.users);
    UnassignedRefers(t.trips, v, t.users, t.cities, t.vehicles);
    TripKeysGrow(t, r.trips);
  }

  lemma DeleteVehicleKeepsCreatorsDrive(t: Tables, v: Id)
    requires CreatorsDrive(t.participants, t.trips)
    ensures CreatorsDrive(DeleteVehicle(t, v).participants, DeleteVehicle(t, v).trips)
  {
    var trips := Unassigned(t.trips, v);
    forall p | p in t.participants
      ensures t.participants[p].trip in trips && t.participants[p].user == trips[t.participants[p].trip].creator
    {
      assert t.participants[p].trip in t.trips;
    }
  }

  // ---------------------------------------------------------------------
  // Deleting a trip: participants, join requests and reviews CASCADE.

  function ParticipantsOff(ps: map<Id, ParticipantRow>, k: Id): map<Id, ParticipantRow> {
    map p | p in ps && ps[p].trip != k :: ps[p]
  }

  function JoinRequestsOff(js: map<Id, JoinRequestRow>, k: Id): map<Id, JoinRequestRow> {
    map j | j in js && js[j].trip != k :: js[j]
  }

  function ReviewsOff(vs: map<Id, ReviewRow>, k: Id): map<Id, ReviewRow> {
    map j | j in vs && vs[j].trip != k :: vs[j]
  }

  function DeleteTrip(t: Tables, k: Id): Tables {
    t.(trips := t.trips - {k},
       participants := ParticipantsOff(t.participants, k),
       joinRequests := JoinRequestsOff(t.joinRequests, k),
       reviews := ReviewsOff(t.reviews, k))
  }

  /** After a trip is deleted nothing refers to it, and every row that did
      not refer to it is still there, unchanged. */
  lemma DeleteTripLeavesNoReference(t: Tables, k: Id)
    ensures var r := DeleteTrip(t, k);
      && k !in r.trips && r.trips == t.trips - {k}
      && (forall p :: p in r.participants <==> p in t.participants && t.participants[p].trip != k)
      && (forall j :: j in r.joinRequests <==> j in t.joinRequests && t.joinRequests[j].trip != k)
      && (forall j :: j in r.reviews <==> j in t.reviews && t.reviews[j].trip != k)
      && SubMap(r.participants, t.participants) && SubMap(r.joinRequests, t.joinRequests) && SubMap(r.reviews, t.reviews)
      && r.users == t.users && r.vehicles == t.vehicles && r.cities == t.cities
  {
  }

  lemma TripsWithout(trips: map<Id, TripRow>, k: Id, users: map<Id, UserRow>, cities: map<Id, CityRow>, vehicles: map<Id, VehicleRow>)
    requires TripsRefer(trips, users, cities, vehicles)
    ensures TripsRefer(trips - {k}, users, cities, vehicles)
  {
  }

  lemma ParticipantsOffRefer(ps: map<Id, ParticipantRow>, users: map<Id, UserRow>, trips: map<Id, TripRow>, k: Id)
    requires ParticipantsUnique(ps) && ParticipantsRefer(ps, users, trips)
    ensures ParticipantsUnique(ParticipantsOff(ps, k)) && ParticipantsRefer(ParticipantsOff(ps, k), users, trips - {k})
  {
    ParticipantsSub(ParticipantsOff(ps, k), ps, users, trips - {k});
  }

  lemma JoinRequestsOffRefer(js: map<Id, JoinRequestRow>, users: map<Id, UserRow>, trips: map<Id, TripRow>, k: Id)
    requires JoinRequestsUnique(js) && JoinRequestsRefer(js, users, trips)
    ensures JoinRequestsUnique(JoinRequestsOff(js, k)) && JoinRequestsRefer(JoinRequestsOff(js, k), users, trips - {k})
  {
    JoinRequestsSub(JoinRequestsOff(js, k), js, users, trips - {k});
  }

  lemma ReviewsOffRefer(vs: map<Id, ReviewRow>, users: map<Id, UserRow>, trips: map<Id, TripRow>, k: Id)
    requires ReviewsUnique(vs) && ReviewsRefer(vs, users, trips)
    ensures ReviewsUnique(ReviewsOff(vs, k)) && ReviewsRefer(ReviewsOff(vs, k), users, trips - {k})
  {
    ReviewsSub(ReviewsOff(vs, k), vs, users, trips - {k});
  }

  lemma DeleteTripSound(t: Tables, k: Id)
    requires Consistent(t)
    ensures Consistent(DeleteTrip(t, k))
  {
    TripsWithout(t.trips, k, t.users, t.cities, t.vehicles);
    ParticipantsOffRefer(t.participants, t.users, t.trips, k);
    JoinRequestsOffRefer(t.joinRequests, t.users, t.trips, k);
    ReviewsOffRefer(t.reviews, t.users, t.trips, k);
  }

  lemma DeleteTripKeepsCreatorsDrive(t: Tables, k: Id)
    requires CreatorsDrive(t.participants, t.trips)
    ensures CreatorsDrive(DeleteTrip(t, k).participants, DeleteTrip(t, k).trips)
  {
  }

  // ---------------------------------------------------------------------
  // Deleting a user: vehicles, created trips, participant rows, join
  // requests and reviews (written or received) CASCADE; trips that used a
  // deleted vehicle lose it.

  /** The trips user `u` created: they go with the user. */
  function CreatedBy(trips: map<Id, TripRow>, u: Id): set<Id> {
    set k | k in trips && trips[k].creator == u
  }

  /** A trip row after its vehicle's owner `u` is deleted. */
  function Detached(row: TripRow, vehicles: map<Id, VehicleRow>, u: Id): TripRow {
    if row.vehicle.Some? && row.vehicle.value in vehicles && vehicles[row.vehicle.value].owner == u
    then row.(vehicle := None)
    else row
  }

  function VehiclesKept(vs: map<Id, VehicleRow>, u: Id): map<Id, VehicleRow> {
    map v | v in vs && vs[v].owner != u :: vs[v]
  }

  function TripsKept(trips: map<Id, TripRow>, vehicles: map<Id, VehicleRow>, u: Id): map<Id, TripRow> {
    map k | k in trips && trips[k].creator != u :: Detached(trips[k], vehicles, u)
  }

  function ParticipantsKept(ps: map<Id, ParticipantRow>, u: Id, gone: set<Id>): map<Id, ParticipantRow> {
    map p | p in ps && ps[p].user != u && ps[p].trip !in gone :: ps[p]
  }

  function JoinRequestsKept(js: map<Id, JoinRequestRow>, u: Id, gone: set<Id>): map<Id, JoinRequestRow> {
    map j | j in js && js[j].user != u && js[j].trip !in gone :: js[j]
  }

  function ReviewsKept(vs: map<Id, ReviewRow>, u: Id, gone: set<Id>): map<Id, ReviewRow> {
    map j | j in vs && vs[j].user != u && vs[j].reviewer != u && vs[j].trip !in gone :: vs[j]
  }

  function DeleteUser(t: Tables, u: Id): Tables {
    var gone := CreatedBy(t.trips, u);
    Tables(
      t.users - {u},
      t.states,
      t.cities,
      VehiclesKept(t.vehicles, u),
      TripsKept(t.trips, t.vehicles, u),
      ParticipantsKept(t.participants, u, gone),
      JoinRequestsKept(t.joinRequests, u, gone),
      ReviewsKept(t.reviews, u, gone))
  }

  lemma TripsKeptRefer(t: Tables, u: Id)
    requires TripsRefer(t.trips, t.users, t.cities, t.vehicles)
    ensures TripsRefer(TripsKept(t.trips, t.vehicles, u), t.users - {u}, t.cities, VehiclesKept(t.vehicles, u))
  {
    var r := TripsKept(t.trips, t.vehicles, u);
    forall k | k in r ensures TripRefers(r[k], t.users - {u}, t.cities, VehiclesKept(t.vehicles, u)) {
      assert TripRefers(t.trips[k], t.users, t.cities, t.vehicles);
    }
  }

  /** A row whose trip was not created by `u` refers to a kept trip. */
  lemma KeptTrip(trips: map<Id, TripRow>, vehicles: map<Id, VehicleRow>, u: Id, k: Id)
    requires k in trips && k !in CreatedBy(trips, u)
    ensures k in TripsKept(trips, vehicles, u)
  {
  }

  lemma ParticipantsKeptRefer(t: Tables, u: Id)
    requires ParticipantsUnique(t.participants) && ParticipantsRefer(t.participants, t.users, t.trips)
    ensures var a := ParticipantsKept(t.participants, u, CreatedBy(t.trips, u));
      ParticipantsUnique(a) && ParticipantsRefer(a, t.users - {u}, TripsKept(t.trips, t.vehicles, u))
  {
    var a := ParticipantsKept(t.participants, u, CreatedBy(t.trips, u));
    forall p | p in a ensures a[p].trip in TripsKept(t.trips, t.vehicles, u) {
      KeptTrip(t.trips, t.vehicles, u, a[p].trip);
    }
    ParticipantsSub(a, t.participants, t.users - {u}, TripsKept(t.trips, t.vehicles, u));
  }

  lemma JoinRequestsKeptRefer(t: Tables, u: Id)
    requires JoinRequestsUnique(t.joinRequests) && JoinRequestsRefer(t.joinRequests, t.users, t.trips)
    ensures var a := JoinRequestsKept(t.joinRequests, u, CreatedBy(t.trips, u));
      JoinRequestsUnique(a) && JoinRequestsRefer(a, t.users - {u}, TripsKept(t.trips, t.vehicles, u))
  {
    var a := JoinRequestsKept(t.joinRequests, u, CreatedBy(t.trips, u));
    forall j | j in a ensures a[j].trip in TripsKept(t.trips, t.vehicles, u) {
      KeptTrip(t.trips, t.vehicles, u, a[j].trip);
    }
    JoinRequestsSub(a, t.joinRequests, t.users - {u}, TripsKept(t.trips, t.vehicles, u));
  }

  lemma ReviewsKeptRefer(t: Tables, u: Id)
    requires ReviewsUnique(t.reviews) && ReviewsRefer(t.reviews, t.users, t.trips)
    ensures var a := ReviewsKept(t.reviews, u, CreatedBy(t.trips, u));
      ReviewsUnique(a) && ReviewsRefer(a, t.users - {u}, TripsKept(t.trips, t.vehicles, u))
  {
    var a := ReviewsKept(t.reviews, u, CreatedBy(t.trips, u));
    forall j | j in a ensures a[j].trip in TripsKept(t.trips, t.vehicles, u) {
      KeptTrip(t.trips, t.vehicles, u, a[j].trip);
    }
    ReviewsSub(a, t.reviews, t.users - {u}, TripsKept(t.trips, t.vehicles, u));
  }

  lemma DeleteUserSound(t: Tables, u: Id)
    requires Consistent(t)
    ensures Consistent(DeleteUser(t, u))
  {
    EmailsUniqueSub(t.users - {u}, t.users);
    VehiclesSub(VehiclesKept(t.vehicles, u), t.vehicles, t.users, t.users - {u});
    TripsKeptRefer(t, u);
    ParticipantsKeptRefer(t, u);
    JoinRequestsKeptRefer(t, u);
    ReviewsKeptRefer(t, u);
  }

  /** After a user is deleted no row refers to them, and no trip refers to
      a vehicle that went with them. */
  lemma DeleteUserLeavesNoReference(t: Tables, u: Id)
    requires Consistent(t)
    ensures var r := DeleteUser(t, u);
      && u !in r.users
      && (forall v :: v in r.vehicles ==> r.vehicles[v].owner != u)
      && (forall k :: k in r.trips ==> r.trips[k].creator != u)
      && (forall k :: k in r.trips && r.trips[k].vehicle.Some? ==> r.trips[k].vehicle.value in r.vehicles)
      && (forall p :: p in r.participants ==> r.participants[p].user != u)
      && (forall j :: j in r.joinRequests ==> r.joinRequests[j].user != u)
      && (forall j :: j in r.reviews ==> r.reviews[j].user != u && r.reviews[j].reviewer != u)
  {
    TripsKeptRefer(t, u);
    var r := DeleteUser(t, u);
    forall k | k in r.trips && r.trips[k].vehicle.Some? ensures r.trips[k].vehicle.value in r.vehicles {
      assert TripRefers(r.trips[k], r.users, r.cities, r.vehicles);
    }
  }

  lemma DeleteUserKeepsCreatorsDrive(t: Tables, u: Id)
    requires CreatorsDrive(t.participants, t.trips)
    ensures CreatorsDrive(DeleteUser(t, u).participants, DeleteUser(t, u).trips)
  {
    var ps := ParticipantsKept(t.participants, u, CreatedBy(t.trips, u));
    var trips := TripsKept(t.trips, t.vehicles, u);
    forall p | p in ps
      ensures ps[p].trip in trips && ps[p].user == trips[ps[p].trip].creator
    {
      assert t.participants[p].trip in t.trips;
      KeptTrip(t.trips, t.vehicles, u, ps[p].trip);
    }
  }

  // ---------------------------------------------------------------------
  // Inserts and updates.

  /** Adding a trip together with its creator's driver row. */
  function AddTrip(t: Tables, k: Id, p: Id, row: TripRow): Tables {
    t.(trips := t.trips[k := row], participants := t.participants[p := ParticipantRow(row.creator, k, Driver)])
  }

  lemma AddDriverRow(ps: map<Id, ParticipantRow>, users: map<Id, UserRow>, trips: map<Id, TripRow>, p: Id, k: Id, row: TripRow)
    requires ParticipantsUnique(ps) && ParticipantsRefer(ps, users, trips)
    requires k !in trips && row.creator in users
    ensures ParticipantsUnique(ps[p := ParticipantRow(row.creator, k, Driver)])
    ensures ParticipantsRefer(ps[p := ParticipantRow(row.creator, k, Driver)], users, trips[k := row])
  {
    var a := ps[p := ParticipantRow(row.creator, k, Driver)];
    forall i, j | i in a && j in a && a[i].user == a[j].user && a[i].trip == a[j].trip ensures i == j {
      if i != p && j != p {
        assert a[i] == ps[i] && a[j] == ps[j];
      }
    }
  }

  lemma AddTripSound(t: Tables, k: Id, p: Id, row: TripRow)
    requires Consistent(t)
    requires k !in t.trips
    requires TripRefers(row, t.users, t.cities, t.vehicles)
    ensures Consistent(AddTrip(t, k, p, row))
  {
    PutTripRefers(t.trips, k, row, t.users, t.cities, t.vehicles);
    AddDriverRow(t.participants, t.users, t.trips, p, k, row);
    TripKeysGrow(t, t.trips[k := row]);
  }

  lemma AddTripKeepsCreatorsDrive(t: Tables, k: Id, p: Id, row: TripRow)
    requires CreatorsDrive(t.participants, t.trips)
    requires k !in t.trips
    ensures CreatorsDrive(AddTrip(t, k, p, row).participants, AddTrip(t, k, p, row).trips)
  {
  }

  /** Creating a trip adds exactly one participant row for it, its creator as
      the driver, and leaves every other participant row as it was. */
  lemma {:induction false} AddTripAddsOneDriver(t: Tables, k: Id, p: Id, row: TripRow)
    requires ParticipantsRefer(t.participants, t.users, t.trips)
    requires k !in t.trips && p !in t.participants
    ensures var ps := AddTrip(t, k, p, row).participants;
      && (set q | q in ps && ps[q].trip == k) == {p}
      && ps[p] == ParticipantRow(row.creator, k, Driver)
      && ps - {p} == t.participants
  {
    var ps := AddTrip(t, k, p, row).participants;
    assert ps - {p} == t.participants;
  }

  /** Rewriting a stored trip with the same creator. */
  lemma PutTripSound(t: Tables, k: Id, row: TripRow)
    requires Consistent(t)
    requires k in t.trips
    requires TripRefers(row, t.users, t.cities, t.vehicles)
    ensures Consistent(t.(trips := t.trips[k := row]))
  {
    PutTripRefers(t.trips, k, row, t.users, t.cities, t.vehicles);
    TripKeysGrow(t, t.trips[k := row]);
  }

  lemma PutTripKeepsCreatorsDrive(t: Tables, k: Id, row: TripRow)
    requires CreatorsDrive(t.participants, t.trips)
    requires k in t.trips && row.creator == t.trips[k].creator
    ensures CreatorsDrive(t.participants, t.trips[k := row])
  {
  }

  /** Writing a join request whose user and trip exist and which no other
      row holds for that pair. */
  lemma PutJoinRequestSound(t: Tables, j: Id, row: JoinRequestRow)
    requires Consistent(t)
    requires row.user in t.users && row.trip in t.trips
    requires forall i :: i in t.joinRequests && i != j ==> !(t.joinRequests[i].user == row.user && t.joinRequests[i].trip == row.trip)
    ensures Consistent(t.(joinRequests := t.joinRequests[j := row]))
  {
    PutJoinRequestRow(t.joinRequests, t.users, t.trips, j, row);
  }

  lemma PutJoinRequestRow(js: map<Id, JoinRequestRow>, users: map<Id, UserRow>, trips: map<Id, TripRow>, j: Id, row: JoinRequestRow)
    requires JoinRequestsUnique(js) && JoinRequestsRefer(js, users, trips)
    requires row.user in users && row.trip in trips
    requires forall i :: i in js && i != j ==> !(js[i].user == row.user && js[i].trip == row.trip)
    ensures JoinRequestsUnique(js[j := row]) && JoinRequestsRefer(js[j := row], users, trips)
  {
  }

  /** Writing a review whose users and trip exist and whose triple no other
      row holds. */
  lemma PutReviewSound(t: Tables, j: Id, row: ReviewRow)
    requires Consistent(t)
    requires row.user in t.users && row.reviewer in t.users && row.trip in t.trips
    requires forall i :: i in t.reviews && i != j ==>
      !(t.reviews[i].user == row.user && t.reviews[i].trip == row.trip && t.reviews[i].reviewer == row.reviewer)
    ensures Consistent(t.(reviews := t.reviews[j := row]))
  {
    PutReviewRow(t.reviews, t.users, t.trips, j, row);
  }

  lemma PutReviewRow(vs: map<Id, ReviewRow>, users: map<Id, UserRow>, trips: map<Id, TripRow>, j: Id, row: ReviewRow)
    requires ReviewsUnique(vs) && ReviewsRefer(vs, users, trips)
    requires row.user in users && row.reviewer in users && row.trip in trips
    requires forall i :: i in vs && i != j ==>
      !(vs[i].user == row.user && vs[i].trip == row.trip && vs[i].reviewer == row.reviewer)
    ensures ReviewsUnique(vs[j := row]) && ReviewsRefer(vs[j := row], users, trips)
  {
  }

  /** Removing a participant, join request or review touches nothing else. */
  lemma RemoveParticipantSound(t: Tables, k: Id)
    requires Consistent(t)
    ensures Consistent(t.(participants := t.participants - {k}))
  {
    ParticipantsSub(t.participants - {k}, t.participants, t.users, t.trips);
  }

  lemma RemoveJoinRequestSound(t: Tables, k: Id)
    requires Consistent(t)
    ensures Consistent(t.(joinRequests := t.joinRequests - {k}))
  {
    JoinRequestsSub(t.joinRequests - {k}, t.joinRequests, t.users, t.trips);
  }

  lemma RemoveReviewSound(t: Tables, k: Id)
    requires Consistent(t)
    ensures Consistent(t.(reviews := t.reviews - {k}))
  {
    ReviewsSub(t.reviews - {k}, t.reviews, t.users, t.trips);
  }

  lemma RemoveParticipantKeepsCreatorsDrive(t: Tables, k: Id)
    requires CreatorsDrive(t.participants, t.trips)
    ensures CreatorsDrive(t.participants - {k}, t.trips)
  {
  }

  // ---------------------------------------------------------------------
  // Keys: deletes only shrink tables, so `nextId` stays free.

  /** Every key of `r` is a key of `t`, table by table. */
  predicate KeysWithin(r: Tables, t: Tables) {
    && r.users.Keys <= t.users.Keys && r.states.Keys <= t.states.Keys && r.cities.Keys <= t.cities.Keys
    && r.vehicles.Keys <= t.vehicles.Keys && r.trips.Keys <= t.trips.Keys
    && r.participants.Keys <= t.participants.Keys && r.joinRequests.Keys <= t.joinRequests.Keys
    && r.reviews.Keys <= t.reviews.Keys
  }

  lemma AllocatedWithin(r: Tables, t: Tables, next: nat)
    requires Allocated(t, next) && KeysWithin(r, t)
    ensures Allocated(r, next)
  {
  }

  lemma DeleteVehicleShrinks(t: Tables, id: Id)
    ensures KeysWithin(DeleteVehicle(t, id), t)
  {
  }

  lemma DeleteTripShrinks(t: Tables, id: Id)
    ensures KeysWithin(DeleteTrip(t, id), t)
  {
  }

  lemma DeleteUserShrinks(t: Tables, id: Id)
    ensures KeysWithin(DeleteUser(t, id), t)
  {
  }

  lemma RemoveParticipantShrinks(t: Tables, k: Id)
    ensures KeysWithin(t.(participants := t.participants - {k}), t)
  {
  }

  lemma RemoveJoinRequestShrinks(t: Tables, k: Id)
    ensures KeysWithin(t.(joinRequests := t.joinRequests - {k}), t)
  {
  }

  lemma RemoveReviewShrinks(t: Tables, k: Id)
    ensures KeysWithin(t.(reviews := t.reviews - {k}), t)
  {
  }
}
