/** The trip app's viewsets (trip/views.py). For vehicles, participants,
    trips and join requests: which permission class, queryset and serializer
    each action gets, and what the writing actions store. A request first
    passes authentication and the permission class, then an action on one
    row looks it up in the action's queryset (404 outside it), then the
    serializer runs, then the row is written. Reading actions and actions that
    never write are functions of the tables; the writing ones are methods on
    the database whose new state is a function of the old. */
module TripViews {

  import opened Common
  import opened Text
  import opened Schema
  import opened Cascade
  import opened Store
  import opened TripModels
  import opened TripSerializers

  // ---------------------------------------------------------------- vehicles

  /** `VehicleViewSet.get_queryset`: an action on one vehicle reaches only the
      caller's own vehicles; list and create see them all. */
  function VehicleScope(a: Action, caller: Id, vehicles: map<Id, VehicleRow>): (r: set<Id>)
    ensures forall v :: v in r <==> v in vehicles && (OnObject(a) ==> vehicles[v].owner == caller)
  {
    if OnObject(a) then set v | v in vehicles && vehicles[v].owner == caller else vehicles.Keys
  }

  /** `VehicleViewSet.get_serializer_class` */
  function VehicleSerializerFor(a: Action): (r: SerializerKind)
    ensures r == DetailSerializer <==> a in {Create, Update, PartialUpdate, Retrieve}
  {
    if a in {Create, Update, PartialUpdate, Retrieve} then DetailSerializer else ListSerializer
  }

  /** The two vehicle serializers' output: the list one leaves the plate out. */
  function RenderVehicle(kind: SerializerKind, id: Id, v: VehicleRow): (r: map<string, Value>)
    ensures r.Keys == if kind == DetailSerializer then {"id", "license_plate", "brand", "model"} else {"id", "brand", "model"}
    ensures r["id"] == Number(id) && r["brand"] == Text(v.brand) && r["model"] == Text(v.model)
    ensures kind == DetailSerializer ==> r["license_plate"] == Text(v.licensePlate)
  {
    var shown := map["id" := Number(id), "brand" := Text(v.brand), "model" := Text(v.model)];
    if kind == DetailSerializer then shown["license_plate" := Text(v.licensePlate)] else shown
  }

  /** What listing or retrieving shows of vehicle `v` to an authenticated
      caller: None when `v` is outside the action's queryset. */
  function ShowVehicle(a: Action, caller: Id, v: Id, vehicles: map<Id, VehicleRow>): (r: Option<map<string, Value>>)
    requires a == List || a == Retrieve
    ensures r.Some? <==> v in vehicles && (a == Retrieve ==> vehicles[v].owner == caller)
  {
    if v in VehicleScope(a, caller, vehicles) then Some(RenderVehicle(VehicleSerializerFor(a), v, vehicles[v])) else None
  }

  /** A plate is shown only to its vehicle's owner: the list shows every
      vehicle without its plate, retrieval shows the plate and reaches only
      the caller's own vehicles. */
  lemma PlateShownOnlyToOwner(a: Action, caller: Id, v: Id, vehicles: map<Id, VehicleRow>)
    requires a == List || a == Retrieve
    requires ShowVehicle(a, caller, v, vehicles).Some?
    ensures "license_plate" in ShowVehicle(a, caller, v, vehicles).value <==> a == Retrieve
    ensures "license_plate" in ShowVehicle(a, caller, v, vehicles).value ==> vehicles[v].owner == caller
  {
  }

  /** The row a vehicle create stores: the caller as owner, the cleaned plate,
      and brand and model title-cased by `Vehicle.save`. */
  function NewVehicle(owner: Id, cleaned: VehicleInput): VehicleRow
    requires cleaned.licensePlate.Some? && cleaned.brand.Some? && cleaned.model.Some?
  {
    VehicleRow(owner, cleaned.licensePlate.value, Title(cleaned.brand.value), Title(cleaned.model.value))
  }

  /** The row a vehicle update stores: the given fields replace the stored
      ones, then `Vehicle.save` title-cases brand and model. */
  function UpdatedVehicle(row: VehicleRow, cleaned: VehicleInput): VehicleRow {
    VehicleRow(
      row.owner,
      if cleaned.licensePlate.Some? then cleaned.licensePlate.value else row.licensePlate,
      Title(if cleaned.brand.Some? then cleaned.brand.value else row.brand),
      Title(if cleaned.model.Some? then cleaned.model.value else row.model))
  }

  /** `create`: the serializer, then `perform_create` saves the vehicle with
      the caller as owner. The serializer has already refused a taken plate,
      so the model's own check never fires. */
  method CreateVehicle(db: Database, caller: Caller, data: VehicleInput) returns (r: Result<Id>)
    requires db.Valid()
    modifies db
    ensures db.Valid()
    ensures !HasPermission(IsAuthenticated, caller, old(db.tables.users).Keys) ==> r == Err(NotAuthenticated)
    ensures r.Ok? <==>
      && HasPermission(IsAuthenticated, caller, old(db.tables.users).Keys)
      && VehicleSerializer(data, false, None, caller.value, old(db.tables.vehicles)).Ok?
    ensures r.Ok? ==>
      && r.value !in old(db.tables.vehicles)
      && db.tables == old(db.tables).(vehicles := old(db.tables.vehicles)[r.value :=
           NewVehicle(caller.value, VehicleSerializer(data, false, None, caller.value, old(db.tables.vehicles)).value)])
      && db.tables.vehicles[r.value].owner == caller.value
    ensures r.Err? ==> db.tables == old(db.tables)
  {
    if !HasPermission(IsAuthenticated, caller, db.tables.users.Keys) {
      return Err(NotAuthenticated);
    }
    var checked := VehicleSerializer(data, false, None, caller.value, db.tables.vehicles);
    if checked.Err? {
      return Err(checked.error);
    }
    var cleaned := checked.value;
    var v := new VehicleObj(caller.value, cleaned.licensePlate.value, cleaned.brand.value, cleaned.model.value);
    r := v.Save(db);
  }

  /** `ModelSerializer.update`'s assignments on a loaded vehicle: every
      validated field is set on the instance, and nothing else changes. */
  method AssignVehicle(v: VehicleObj, cleaned: VehicleInput)
    modifies v
    ensures v.pk == old(v.pk) && v.owner == old(v.owner)
    ensures v.licensePlate == if cleaned.licensePlate.Some? then cleaned.licensePlate.value else old(v.licensePlate)
    ensures v.brand == if cleaned.brand.Some? then cleaned.brand.value else old(v.brand)
    ensures v.model == if cleaned.model.Some? then cleaned.model.value else old(v.model)
  {
    if cleaned.licensePlate.Some? {
      v.licensePlate := cleaned.licensePlate.value;
    }
    if cleaned.brand.Some? {
      v.brand := cleaned.brand.value;
    }
    if cleaned.model.Some? {
      v.model := cleaned.model.value;
    }
  }

  /** With plates unique, no vehicle other than the stored one holds its
      plate, so keeping it passes the model's uniqueness check. */
  lemma StoredPlateFree(vehicles: map<Id, VehicleRow>, pk: Id)
    requires PlatesUnique(vehicles) && pk in vehicles
    ensures !PlateTaken(vehicles, vehicles[pk].licensePlate, Some(pk))
  {
    forall j | j in vehicles && j != pk ensures vehicles[j].licensePlate != vehicles[pk].licensePlate {
      assert PlatesUnique(vehicles);
    }
  }

  /** `update` and `partial_update`: the vehicle must be the caller's, then
      the serializer runs against it and the given fields are saved. The
      serializer has checked the given fields' lengths; `full_clean` checks
      the whole row again, stored fields included. */
  method UpdateVehicle(db: Database, caller: Caller, pk: Id, data: VehicleInput, partial: bool) returns (r: Result<Id>)
    requires db.Valid()
    modifies db
    ensures db.Valid()
    ensures r.Ok? <==>
      && HasPermission(IsAuthenticated, caller, old(db.tables.users).Keys)
      && pk in old(db.tables.vehicles) && old(db.tables.vehicles)[pk].owner == caller.value
      && VehicleSerializer(data, partial, Some(pk), caller.value, old(db.tables.vehicles)).Ok?
      && VehicleFieldsValid(UpdatedVehicle(old(db.tables.vehicles)[pk],
           VehicleSerializer(data, partial, Some(pk), caller.value, old(db.tables.vehicles)).value))
    ensures r.Ok? ==>
      && r.value == pk
      && db.tables == old(db.tables).(vehicles := old(db.tables.vehicles)[pk :=
           UpdatedVehicle(old(db.tables.vehicles)[pk], VehicleSerializer(data, partial, Some(pk), caller.value, old(db.tables.vehicles)).value)])
    ensures r.Err? ==> db.tables == old(db.tables)
    ensures (HasPermission(IsAuthenticated, caller, old(db.tables.users).Keys)
      && !(pk in old(db.tables.vehicles) && old(db.tables.vehicles)[pk].owner == caller.value))
      ==> r == Err(NotFound)
  {
    if !HasPermission(IsAuthenticated, caller, db.tables.users.Keys) {
      return Err(NotAuthenticated);
    }
    var found := GetObject(VehicleScope(if partial then PartialUpdate else Update, caller.value, db.tables.vehicles), pk);
    if found.Err? {
      return Err(found.error);
    }
    var checked := VehicleSerializer(data, partial, Some(pk), caller.value, db.tables.vehicles);
    if checked.Err? {
      return Err(checked.error);
    }
    var cleaned := checked.value;
    var v := new VehicleObj.Load(pk, db.tables.vehicles[pk]);
    AssignVehicle(v, cleaned);
    if cleaned.licensePlate.None? {
      StoredPlateFree(db.tables.vehicles, pk);
    }
    r := v.Save(db);
  }

  /** `destroy`: the vehicle must be the caller's; trips that used it keep
      going without one. */
  method DestroyVehicle(db: Database, caller: Caller, pk: Id) returns (r: Result<()>)
    requires db.Valid()
    modifies db
    ensures db.Valid()
    ensures r.Ok? <==>
      HasPermission(IsAuthenticated, caller, old(db.tables.users).Keys)
      && pk in old(db.tables.vehicles) && old(db.tables.vehicles)[pk].owner == caller.value
    ensures r.Ok? ==> db.tables == DeleteVehicle(old(db.tables), pk)
    ensures r.Err? ==> db.tables == old(db.tables)
  {
    if !HasPermission(IsAuthenticated, caller, db.tables.users.Keys) {
      return Err(NotAuthenticated);
    }
    var found := GetObject(VehicleScope(Destroy, caller.value, db.tables.vehicles), pk);
    if found.Err? {
      return Err(found.error);
    }
    db.RemoveVehicle(pk);
    r := Ok(());
  }

  // ------------------------------------------------------------ participants

  /** `TripParticipantViewSet.get_queryset`: an action on one participant row
      reaches only the caller's own rows; the list shows them all. */
  function ParticipantScope(a: Action, caller: Id, participants: map<Id, ParticipantRow>): (r: set<Id>)
    ensures forall p :: p in r <==> p in participants && (OnObject(a) ==> participants[p].user == caller)
  {
    if OnObject(a) then set p | p in participants && participants[p].user == caller else participants.Keys
  }

  /** `TripParticipantViewSet.get_serializer_class` */
  function ParticipantSerializerFor(a: Action): (r: SerializerKind)
    ensures r == DetailSerializer <==> a in {Create, Update, PartialUpdate, Retrieve}
  {
    if a in {Create, Update, PartialUpdate, Retrieve} then DetailSerializer else ListSerializer
  }

  /** `create` on participants as written: after the serializer,
      `perform_create` raises PermissionDenied; but the serializer's
      `validate_trip` fails with a TypeError on every stored trip first. It
      never writes. */
  function CreateParticipantAsWritten(caller: Caller, data: ParticipantInput, t: Tables): (r: Result<()>)
    ensures r.Err? && r.error != PermissionDenied
  {
    if !HasPermission(IsAuthenticated, caller, t.users.Keys) then Err(NotAuthenticated)
    else match ParticipantSerializerAsWritten(data, t.trips.Keys)
      case Err(e) => Err(e)
      case Ok(_) => Err(PermissionDenied)
  }

  /** `create` on participants with the intended `validate_trip`: a valid
      submission reaches `perform_create`, which refuses it. It never writes. */
  function CreateParticipant(caller: Caller, data: ParticipantInput, t: Tables): (r: Result<()>)
    ensures r.Err?
    ensures r == Err(PermissionDenied) <==>
      HasPermission(IsAuthenticated, caller, t.users.Keys) && ParticipantSerializer(data, t.trips.Keys).Ok?
  {
    if !HasPermission(IsAuthenticated, caller, t.users.Keys) then Err(NotAuthenticated)
    else match ParticipantSerializer(data, t.trips.Keys)
      case Err(e) => Err(e)
      case Ok(_) => Err(PermissionDenied)
  }

  /** The submission the viewset means to answer with PermissionDenied (an
      authenticated caller, a stored trip, the role "driver") ends as written
      in a server error. */
  lemma ParticipantCreateCrashesBeforeRefusal(caller: Caller, data: ParticipantInput, t: Tables)
    requires HasPermission(IsAuthenticated, caller, t.users.Keys)
    requires data.trip.Some? && data.trip.value in t.trips && data.role == Some("driver")
    ensures CreateParticipant(caller, data, t) == Err(PermissionDenied)
    ensures CreateParticipantAsWritten(caller, data, t) == Err(ServerError(TypeError))
  {
  }

  /** `update` and `partial_update` on participants: refused outright once
      the permission check has passed. They never write. */
  function UpdateParticipant(caller: Caller, t: Tables): (r: Result<()>)
    ensures r.Err?
    ensures r.error == if HasPermission(IsAuthenticated, caller, t.users.Keys) then PermissionDenied else NotAuthenticated
  {
    if HasPermission(IsAuthenticated, caller, t.users.Keys) then Err(PermissionDenied) else Err(NotAuthenticated)
  }

  /** `destroy` on a participant row: only the caller's own. */
  method DestroyParticipant(db: Database, caller: Caller, pk: Id) returns (r: Result<()>)
    requires db.Valid()
    modifies db
    ensures db.Valid()
    ensures r.Ok? <==>
      HasPermission(IsAuthenticated, caller, old(db.tables.users).Keys)
      && pk in old(db.tables.participants) && old(db.tables.participants)[pk].user == caller.value
    ensures r.Ok? ==> db.tables == old(db.tables).(participants := old(db.tables.participants) - {pk})
    ensures r.Err? ==> db.tables == old(db.tables)
  {
    if !HasPermission(IsAuthenticated, caller, db.tables.users.Keys) {
      return Err(NotAuthenticated);
    }
    var found := GetObject(ParticipantScope(Destroy, caller.value, db.tables.participants), pk);
    if found.Err? {
      return Err(found.error);
    }
    db.RemoveParticipant(pk);
    r := Ok(());
  }

  // ------------------------------------------------------------------- trips

  /** `TripViewSet.get_permissions`: listing is open, all else needs a user. */
  function TripPermission(a: Action): (r: PermissionClass)
    ensures r == AllowAny <==> a == List
  {
    if a == List then AllowAny else IsAuthenticated
  }

  /** An anonymous request gets through to the trip list and to nothing
      else; an authenticated one gets through to every action. */
  lemma OnlyTripListIsOpen(a: Action, caller: Caller, users: set<Id>)
    ensures caller.None? ==> (HasPermission(TripPermission(a), caller, users) <==> a == List)
    ensures caller.Some? && caller.value in users ==> HasPermission(TripPermission(a), caller, users)
  {
  }

  /** `TripViewSet.get_queryset`: update and destroy reach only trips the
      caller created; list and retrieve see them all. */
  function TripScope(a: Action, caller: Id, trips: map<Id, TripRow>): (r: set<Id>)
    ensures forall k :: k in r <==> k in trips && (a in {Update, PartialUpdate, Destroy} ==> trips[k].creator == caller)
  {
    if a in {Update, PartialUpdate, Destroy} then set k | k in trips && trips[k].creator == caller else trips.Keys
  }

  /** `TripViewSet.get_serializer_class` */
  function TripSerializerFor(a: Action): (r: SerializerKind)
    ensures r == DetailSerializer <==> a in {Create, Update, PartialUpdate}
  {
    if a in {Create, Update, PartialUpdate} then DetailSerializer else ListSerializer
  }

  /** The row a trip create stores: the submitted fields, False for a flag
      left out, and the caller as creator. */
  function NewTrip(data: TripInput, creator: Id): TripRow
    requires data.origin.Some? && data.destination.Some? && data.departureDate.Some? && data.departureTime.Some?
  {
    TripRow(data.origin.value, data.destination.value, data.departureDate.value, data.departureTime.value,
            data.petAllowed == Some(true), data.smokingAllowed == Some(true), data.kidsAllowed == Some(true),
            data.vehicle, creator)
  }

  /** The row a trip update stores: the given fields replace the stored ones. */
  function UpdatedTrip(row: TripRow, data: TripInput): TripRow {
    TripRow(
      if data.origin.Some? then data.origin.value else row.origin,
      if data.destination.Some? then data.destination.value else row.destination,
      if data.departureDate.Some? then data.departureDate.value else row.departureDate,
      if data.departureTime.Some? then data.departureTime.value else row.departureTime,
      if data.petAllowed.Some? then data.petAllowed.value else row.petAllowed,
      if data.smokingAllowed.Some? then data.smokingAllowed.value else row.smokingAllowed,
      if data.kidsAllowed.Some? then data.kidsAllowed.value else row.kidsAllowed,
      if data.vehicle.Some? then data.vehicle else row.vehicle,
      row.creator)
  }

  /** The participant rows of trip `k`. */
  function ParticipantsOf(participants: map<Id, ParticipantRow>, k: Id): set<Id> {
    set p | p in participants && participants[p].trip == k
  }

  /** `create`: the serializer (with `departure_date` among its fields), then
      `perform_create` saves the trip with the caller as creator and enrols
      the caller as its driver, the trip's one participant. */
  method CreateTrip(db: Database, caller: Caller, data: TripInput, now: Instant) returns (r: Result<Id>)
    requires db.Valid()
    modifies db
    ensures db.Valid()
    ensures r.Ok? <==>
      && HasPermission(TripPermission(Create), caller, old(db.tables.users).Keys)
      && TripSerializer(data, false, old(db.tables.cities).Keys, old(db.tables.vehicles).Keys, now).Ok?
    ensures r.Ok? ==>
      && r.value !in old(db.tables.trips)
      && db.tables.trips == old(db.tables.trips)[r.value := NewTrip(data, caller.value)]
      && exists p :: p !in old(db.tables.participants) && db.tables == AddTrip(old(db.tables), r.value, p, NewTrip(data, caller.value))
    ensures r.Ok? ==> exists p ::
      && ParticipantsOf(db.tables.participants, r.value) == {p}
      && db.tables.participants[p] == ParticipantRow(caller.value, r.value, Driver)
      && db.tables.participants - {p} == old(db.tables.participants)
    ensures r.Err? ==> db.tables == old(db.tables)
  {
    if !HasPermission(TripPermission(Create), caller, db.tables.users.Keys) {
      return Err(NotAuthenticated);
    }
    var checked := TripSerializer(data, false, db.tables.cities.Keys, db.tables.vehicles.Keys, now);
    if checked.Err? {
      return Err(checked.error);
    }
    TripSerializerAcceptsIff(data, db.tables.cities.Keys, db.tables.vehicles.Keys, now);
    var row := NewTrip(data, caller.value);
    ghost var before := db.tables;
    var k, p := db.InsertTripWithDriver(row);
    AddTripAddsOneDriver(before, k, p, row);
    assert ParticipantsOf(db.tables.participants, k) == {p};
    r := Ok(k);
  }

  /** `update` and `partial_update`: the trip must be one the caller created,
      then the serializer runs and the given fields are saved. */
  method UpdateTrip(db: Database, caller: Caller, pk: Id, data: TripInput, partial: bool, now: Instant) returns (r: Result<Id>)
    requires db.Valid()
    modifies db
    ensures db.Valid()
    ensures r.Ok? <==>
      && HasPermission(IsAuthenticated, caller, old(db.tables.users).Keys)
      && pk in old(db.tables.trips) && old(db.tables.trips)[pk].creator == caller.value
      && TripSerializer(data, partial, old(db.tables.cities).Keys, old(db.tables.vehicles).Keys, now).Ok?
    ensures r.Ok? ==> r.value == pk && db.tables == old(db.tables).(trips := old(db.tables.trips)[pk := UpdatedTrip(old(db.tables.trips)[pk], data)])
    ensures r.Err? ==> db.tables == old(db.tables)
  {
    if !HasPermission(IsAuthenticated, caller, db.tables.users.Keys) {
      return Err(NotAuthenticated);
    }
    var found := GetObject(TripScope(if partial then PartialUpdate else Update, caller.value, db.tables.trips), pk);
    if found.Err? {
      return Err(found.error);
    }
    var checked := TripSerializer(data, partial, db.tables.cities.Keys, db.tables.vehicles.Keys, now);
    if checked.Err? {
      return Err(checked.error);
    }
    var row := UpdatedTrip(db.tables.trips[pk], data);
    assert TripRefers(db.tables.trips[pk], db.tables.users, db.tables.cities, db.tables.vehicles);
    db.PutTrip(pk, row);
    r := Ok(pk);
  }

  /** `destroy`: only a trip the caller created; its participants, join
      requests and reviews go with it. */
  method DestroyTrip(db: Database, caller: Caller, pk: Id) returns (r: Result<()>)
    requires db.Valid()
    modifies db
    ensures db.Valid()
    ensures r.Ok? <==>
      HasPermission(IsAuthenticated, caller, old(db.tables.users).Keys)
      && pk in old(db.tables.trips) && old(db.tables.trips)[pk].creator == caller.value
    ensures r.Ok? ==> db.tables == DeleteTrip(old(db.tables), pk)
    ensures r.Err? ==> db.tables == old(db.tables)
  {
    if !HasPermission(IsAuthenticated, caller, db.tables.users.Keys) {
      return Err(NotAuthenticated);
    }
    var found := GetObject(TripScope(Destroy, caller.value, db.tables.trips), pk);
    if found.Err? {
      return Err(found.error);
    }
    db.RemoveTrip(pk);
    r := Ok(());
  }

  // ----------------------------------------------------------- join requests

  /** `TripJoinRequestViewSet.get_queryset`, for every action: the requests
      on trips the caller created, and with a trip key from the URL only that
      trip's. A key of 0 is falsy and filters nothing. */
  function JoinRequestScope(caller: Id, tripKey: Option<Id>, requests: map<Id, JoinRequestRow>, trips: map<Id, TripRow>): (r: set<Id>)
    ensures forall j :: j in r <==>
      && j in requests && requests[j].trip in trips && trips[requests[j].trip].creator == caller
      && (tripKey.Some? && tripKey.value != 0 ==> requests[j].trip == tripKey.value)
  {
    set j | j in requests && requests[j].trip in trips && trips[requests[j].trip].creator == caller
              && (tripKey.Some? && tripKey.value != 0 ==> requests[j].trip == tripKey.value)
  }

  /** The trip key only narrows the caller's requests to one trip's, and a
      key of 0 is the same as none. */
  lemma JoinRequestFilterNarrows(caller: Id, k: Id, requests: map<Id, JoinRequestRow>, trips: map<Id, TripRow>)
    ensures JoinRequestScope(caller, Some(0), requests, trips) == JoinRequestScope(caller, None, requests, trips)
    ensures k != 0 ==>
      JoinRequestScope(caller, Some(k), requests, trips) == set j | j in JoinRequestScope(caller, None, requests, trips) && requests[j].trip == k
  {
  }

  /** Whoever sent a join request cannot reach it through the viewset unless
      they created the trip. */
  lemma RequesterCannotReachOwnRequest(caller: Id, tripKey: Option<Id>, requests: map<Id, JoinRequestRow>, trips: map<Id, TripRow>, j: Id)
    requires j in requests && requests[j].user == caller && requests[j].trip in trips
    requires trips[requests[j].trip].creator != caller
    ensures j !in JoinRequestScope(caller, tripKey, requests, trips)
  {
  }

  /** `create`: the serializer, then the row is saved as the serializer left
      it; the requesting user is the one in the data, not the caller. */
  method CreateJoinRequest(db: Database, caller: Caller, data: JoinRequestInput) returns (r: Result<Id>)
    requires db.Valid()
    modifies db
    ensures db.Valid()
    ensures r.Ok? <==>
      && HasPermission(IsAuthenticated, caller, old(db.tables.users).Keys)
      && JoinRequestSerializer(data, false, None, old(db.tables.users).Keys, old(db.tables.joinRequests), old(db.tables.trips)).Ok?
    ensures r.Ok? ==>
      && r.value !in old(db.tables.joinRequests)
      && db.tables == old(db.tables).(joinRequests := old(db.tables.joinRequests)[r.value :=
           JoinRequestSerializer(data, false, None, old(db.tables.users).Keys, old(db.tables.joinRequests), old(db.tables.trips)).value])
    ensures r.Err? ==> db.tables == old(db.tables)
  {
    if !HasPermission(IsAuthenticated, caller, db.tables.users.Keys) {
      return Err(NotAuthenticated);
    }
    var checked := JoinRequestSerializer(data, false, None, db.tables.users.Keys, db.tables.joinRequests, db.tables.trips);
    if checked.Err? {
      return Err(checked.error);
    }
    var id := db.PutJoinRequest(None, checked.value);
    r := Ok(id);
  }

  /** `update` and `partial_update`: only a request on a trip the caller
      created, then the serializer runs against it and the row is saved. */
  method UpdateJoinRequest(db: Database, caller: Caller, pk: Id, data: JoinRequestInput, partial: bool) returns (r: Result<Id>)
    requires db.Valid()
    modifies db
    ensures db.Valid()
    ensures r.Ok? <==>
      && HasPermission(IsAuthenticated, caller, old(db.tables.users).Keys)
      && pk in JoinRequestScope(caller.value, None, old(db.tables.joinRequests), old(db.tables.trips))
      && JoinRequestSerializer(data, partial, Some(pk), old(db.tables.users).Keys, old(db.tables.joinRequests), old(db.tables.trips)).Ok?
    ensures r.Ok? ==>
      && r.value == pk
      && db.tables == old(db.tables).(joinRequests := old(db.tables.joinRequests)[pk :=
           JoinRequestSerializer(data, partial, Some(pk), old(db.tables.users).Keys, old(db.tables.joinRequests), old(db.tables.trips)).value])
    ensures r.Err? ==> db.tables == old(db.tables)
    ensures (HasPermission(IsAuthenticated, caller, old(db.tables.users).Keys)
      && pk !in JoinRequestScope(caller.value, None, old(db.tables.joinRequests), old(db.tables.trips)))
      ==> r == Err(NotFound)
  {
    if !HasPermission(IsAuthenticated, caller, db.tables.users.Keys) {
      return Err(NotAuthenticated);
    }
    var found := GetObject(JoinRequestScope(caller.value, None, db.tables.joinRequests, db.tables.trips), pk);
    if found.Err? {
      return Err(found.error);
    }
    var checked := JoinRequestSerializer(data, partial, Some(pk), db.tables.users.Keys, db.tables.joinRequests, db.tables.trips);
    if checked.Err? {
      return Err(checked.error);
    }
    assert db.tables.joinRequests[pk].user in db.tables.users;
    var id := db.PutJoinRequest(Some(pk), checked.value);
    r := Ok(id);
  }

  /** `destroy`: only a request on a trip the caller created. */
  method DestroyJoinRequest(db: Database, caller: Caller, pk: Id) returns (r: Result<()>)
    requires db.Valid()
    modifies db
    ensures db.Valid()
    ensures r.Ok? <==>
      HasPermission(IsAuthenticated, caller, old(db.tables.users).Keys)
      && pk in JoinRequestScope(caller.value, None, old(db.tables.joinRequests), old(db.tables.trips))
    ensures r.Ok? ==> db.tables == old(db.tables).(joinRequests := old(db.tables.joinRequests) - {pk})
    ensures r.Err? ==> db.tables == old(db.tables)
  {
    if !HasPermission(IsAuthenticated, caller, db.tables.users.Keys) {
      return Err(NotAuthenticated);
    }
    var found := GetObject(JoinRequestScope(caller.value, None, db.tables.joinRequests, db.tables.trips), pk);
    if found.Err? {
      return Err(found.error);
    }
    db.RemoveJoinRequest(pk);
    r := Ok(());
  }
}
