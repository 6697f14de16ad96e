/** The validators of the trip app's serializers (trip/serializers.py). Each is
    a pure function of the submitted data and of the tables it looks rows up
    in. The framework's own field stage (required fields, primary keys that
    must exist, choice fields) is written out where it decides the outcome. */
module TripSerializers {

  import opened Common
  import opened Text
  import opened Schema
  import opened Fields

  // ---------------------------------------------------------------- vehicles

  predicate IsPlateLetter(c: char) {
    'A' <= c <= 'Z'
  }

  /** `[A-Z]{3}\d{3}` */
  predicate ClassicPlate(s: string) {
    |s| == 6 && IsPlateLetter(s[0]) && IsPlateLetter(s[1]) && IsPlateLetter(s[2])
    && IsDigit(s[3]) && IsDigit(s[4]) && IsDigit(s[5])
  }

  /** `[A-Z]{2}\d{3}[A-Z]{2}` */
  predicate MercosurPlate(s: string) {
    |s| == 7 && IsPlateLetter(s[0]) && IsPlateLetter(s[1])
    && IsDigit(s[2]) && IsDigit(s[3]) && IsDigit(s[4])
    && IsPlateLetter(s[5]) && IsPlateLetter(s[6])
  }

  /** `re.match(r"^(?:[A-Z]{3}\d{3}|[A-Z]{2}\d{3}[A-Z]{2})$", s)`: Python's `$`
      also matches just before a final newline. */
  predicate PlatePatternMatches(s: string) {
    || ClassicPlate(s) || MercosurPlate(s)
    || (|s| > 0 && s[|s| - 1] == '\n' && (ClassicPlate(s[..|s| - 1]) || MercosurPlate(s[..|s| - 1])))
  }

  /** `VehicleDetailSerializer.validate_license_plate` */
  function ValidateLicensePlate(value: string): (r: Result<string>)
    ensures r.Ok? ==> r.value == value
    ensures r.Err? ==> r.error == Invalid(InvalidPlate)
  {
    if PlatePatternMatches(value) then Ok(value) else Err(Invalid(InvalidPlate))
  }

  /** The class of one plate character: 'A' for a capital letter, '9' for a
      digit, the character itself otherwise. */
  function ShapeOf(c: char): char {
    if IsPlateLetter(c) then 'A' else if IsDigit(c) then '9' else c
  }

  lemma ShapeOfClasses(c: char)
    ensures ShapeOf(c) == 'A' <==> IsPlateLetter(c)
    ensures ShapeOf(c) == '9' <==> IsDigit(c)
    ensures ShapeOf(c) == '\n' <==> c == '\n'
  {
  }

  /** The plate's character classes, character by character. */
  function PlateShape(s: string): (r: string)
    ensures |r| == |s|
    ensures forall i :: 0 <= i < |s| ==> r[i] == ShapeOf(s[i])
  {
    if s == [] then [] else [ShapeOf(s[0])] + PlateShape(s[1..])
  }

  lemma ClassicByShape(s: string)
    ensures ClassicPlate(s) <==> PlateShape(s) == "AAA999"
  {
    if |s| == 6 {
      var sh := PlateShape(s);
      ShapeOfClasses(s[0]); ShapeOfClasses(s[1]); ShapeOfClasses(s[2]);
      ShapeOfClasses(s[3]); ShapeOfClasses(s[4]); ShapeOfClasses(s[5]);
      if ClassicPlate(s) {
        assert sh[0] == 'A' && sh[1] == 'A' && sh[2] == 'A' && sh[3] == '9' && sh[4] == '9' && sh[5] == '9';
        assert sh == "AAA999";
      }
    }
  }

  lemma MercosurByShape(s: string)
    ensures MercosurPlate(s) <==> PlateShape(s) == "AA999AA"
  {
    if |s| == 7 {
      var sh := PlateShape(s);
      ShapeOfClasses(s[0]); ShapeOfClasses(s[1]); ShapeOfClasses(s[2]); ShapeOfClasses(s[3]);
      ShapeOfClasses(s[4]); ShapeOfClasses(s[5]); ShapeOfClasses(s[6]);
      if MercosurPlate(s) {
        assert sh[0] == 'A' && sh[1] == 'A' && sh[2] == '9' && sh[3] == '9' && sh[4] == '9' && sh[5] == 'A' && sh[6] == 'A';
        assert sh == "AA999AA";
      }
    }
  }

  /** Dropping the last character drops the last shape. */
  lemma ShapeOfInit(s: string)
    requires |s| > 0
    ensures PlateShape(s[..|s| - 1]) == PlateShape(s)[..|s| - 1]
    ensures PlateShape(s)[|s| - 1] == '\n' <==> s[|s| - 1] == '\n'
  {
    ShapeOfClasses(s[|s| - 1]);
  }

  lemma EndsWithNewline(sh: string, body: string)
    requires |sh| > 0
    ensures sh == body + "\n" <==> sh[..|sh| - 1] == body && sh[|sh| - 1] == '\n'
  {
    if sh[..|sh| - 1] == body && sh[|sh| - 1] == '\n' {
      assert sh == sh[..|sh| - 1] + [sh[|sh| - 1]];
    }
  }

  /** A reference description of the accepted plates, by shape alone. */
  lemma PlateAcceptedByShape(s: string)
    ensures ValidateLicensePlate(s).Ok? <==> PlateShape(s) in {"AAA999", "AA999AA", "AAA999\n", "AA999AA\n"}
  {
    ClassicByShape(s);
    MercosurByShape(s);
    if |s| > 0 {
      var sh := PlateShape(s);
      ClassicByShape(s[..|s| - 1]);
      MercosurByShape(s[..|s| - 1]);
      ShapeOfInit(s);
      EndsWithNewline(sh, "AAA999");
      EndsWithNewline(sh, "AA999AA");
      assert "AAA999" + "\n" == "AAA999\n" && "AA999AA" + "\n" == "AA999AA\n";
    }
  }

  /** The cases the format comment names, plus Python's trailing newline. */
  lemma PlateExamples()
    ensures ValidateLicensePlate("ABC123").Ok? && ValidateLicensePlate("AB123CD").Ok?
    ensures ValidateLicensePlate("abc123").Err? && ValidateLicensePlate("AB12CD").Err?
    ensures ValidateLicensePlate("ABC123\n").Ok?
  {
    assert !IsPlateLetter('a');
    assert !IsDigit('C');
  }

  /** An accepted plate holds no space, so it can be read back off the end of
      a vehicle's rendering. */
  lemma AcceptedPlateHasNoSpace(s: string)
    requires ValidateLicensePlate(s).Ok?
    ensures ' ' !in s
  {
    PlateAcceptedByShape(s);
    var sh := PlateShape(s);
    assert ' ' !in sh;
    forall i | 0 <= i < |s| ensures s[i] != ' ' {
      assert sh[i] == ShapeOf(s[i]);
    }
  }

  /** `VehicleDetailSerializer.validate`: the caller must not already own a
      vehicle with the submitted plate. An absent plate (a partial update)
      matches no row. The instance being updated is not left out. */
  function ValidateVehicle(plate: Option<string>, caller: Id, vehicles: map<Id, VehicleRow>): (r: Result<()>)
    ensures r.Err? <==> plate.Some? && exists v :: v in vehicles && vehicles[v].owner == caller && vehicles[v].licensePlate == plate.value
    ensures r.Err? ==> r.error == Invalid(PlateAlreadyRegistered)
  {
    if plate.Some? && exists v :: v in vehicles && vehicles[v].owner == caller && vehicles[v].licensePlate == plate.value
    then Err(Invalid(PlateAlreadyRegistered))
    else Ok(())
  }

  /** Because the check counts the vehicle being updated, a full update that
      keeps the plate of one's own vehicle is refused. */
  lemma KeepingOwnPlateRefused(vehicles: map<Id, VehicleRow>, v: Id)
    requires v in vehicles
    ensures ValidateVehicle(Some(vehicles[v].licensePlate), vehicles[v].owner, vehicles) == Err(Invalid(PlateAlreadyRegistered))
  {
  }

  /** The plate field's stage: the framework's text stage (stripped, not
      blank, the column's length, no U+0000), then uniqueness among the
      other vehicles, then `validate_license_plate`. */
  function CheckPlateField(value: string, instance: Option<Id>, vehicles: map<Id, VehicleRow>): (r: Result<string>)
    ensures r.Ok? ==> r.value == Strip(value)
    ensures r.Ok? <==>
      && (ClassicPlate(Strip(value)) || MercosurPlate(Strip(value)))
      && !exists j :: j in vehicles && instance != Some(j) && vehicles[j].licensePlate == Strip(value)
  {
    var v := Strip(value);
    if CheckCharField("license_plate", value, false, Some(PlateLength)).Err? then CheckCharField("license_plate", value, false, Some(PlateLength))
    else if exists j :: j in vehicles && instance != Some(j) && vehicles[j].licensePlate == v then Err(Invalid(NotUnique))
    else
      ValidateLicensePlate(v)
  }

  /** Surrounding whitespace and the final newline `$` tolerates are gone
      before the pattern runs: "ABC123\n" is stored as "ABC123". */
  lemma PlateFieldExamples(vehicles: map<Id, VehicleRow>)
    requires forall j :: j in vehicles ==> vehicles[j].licensePlate != "ABC123" && vehicles[j].licensePlate != "AB123CD"
    ensures CheckPlateField("ABC123\n", None, vehicles) == Ok("ABC123")
    ensures CheckPlateField(" AB123CD ", None, vehicles).Ok?
  {
    assert StripStart("ABC123\n") == "ABC123\n";
    assert StripEnd("ABC123\n") == "ABC123";
    assert StripStart(" AB123CD ") == "AB123CD ";
    assert StripEnd("AB123CD ") == "AB123CD";
  }

  /** What a client submits for a vehicle; None for a field left out. */
  datatype VehicleInput = VehicleInput(licensePlate: Option<string>, brand: Option<string>, model: Option<string>)

  /** The whole `VehicleDetailSerializer` run for the caller: plate, brand and
      model (all three required unless partial), then `validate`. The result
      is the cleaned data. */
  function VehicleSerializer(data: VehicleInput, partial: bool, instance: Option<Id>, caller: Id, vehicles: map<Id, VehicleRow>): (r: Result<VehicleInput>)
    ensures r.Ok? ==> (!partial ==> r.value.licensePlate.Some? && r.value.brand.Some? && r.value.model.Some?)
    ensures r.Ok? ==> (r.value.licensePlate.Some? <==> data.licensePlate.Some?)
    ensures r.Ok? && data.licensePlate.Some? ==>
      && r.value.licensePlate.value == Strip(data.licensePlate.value)
      && 0 < |r.value.licensePlate.value| <= PlateLength
      && ValidateLicensePlate(r.value.licensePlate.value).Ok?
      && (!exists j :: j in vehicles && instance != Some(j) && vehicles[j].licensePlate == r.value.licensePlate.value)
      && (!exists v :: v in vehicles && vehicles[v].owner == caller && vehicles[v].licensePlate == r.value.licensePlate.value)
    ensures r.Ok? ==> (r.value.brand.Some? <==> data.brand.Some?) && (r.value.model.Some? <==> data.model.Some?)
    ensures r.Ok? && data.brand.Some? ==> r.value.brand.value == Strip(data.brand.value) && 0 < |r.value.brand.value| <= BrandLength && '\0' !in r.value.brand.value
    ensures r.Ok? && data.model.Some? ==> r.value.model.value == Strip(data.model.value) && 0 < |r.value.model.value| <= ModelLength && '\0' !in r.value.model.value
  {
    if !partial && data.licensePlate.None? then Err(Invalid(Required("license_plate")))
    else if !partial && data.brand.None? then Err(Invalid(Required("brand")))
    else if !partial && data.model.None? then Err(Invalid(Required("model")))
    else
      var plate := if data.licensePlate.Some? then CheckPlateField(data.licensePlate.value, instance, vehicles) else Ok([]);
      var brand := if data.brand.Some? then CheckCharField("brand", data.brand.value, false, Some(BrandLength)) else Ok([]);
      var model := if data.model.Some? then CheckCharField("model", data.model.value, false, Some(ModelLength)) else Ok([]);
      if plate.Err? then Err(plate.error)
      else if brand.Err? then Err(brand.error)
      else if model.Err? then Err(model.error)
      else
        var cleaned := VehicleInput(
          if data.licensePlate.Some? then Some(plate.value) else None,
          if data.brand.Some? then Some(brand.value) else None,
          if data.model.Some? then Some(model.value) else None);
        match ValidateVehicle(cleaned.licensePlate, caller, vehicles)
        case Err(e) => Err(e)
        case Ok(_) => Ok(cleaned)
  }

  /** Once the framework's uniqueness check has passed, `validate` can only
      refuse a plate held by the vehicle being updated itself: the owner
      check never fires on a create. */
  lemma OwnerPlateCheckOnlyCatchesTheInstance(plate: string, instance: Option<Id>, caller: Id, vehicles: map<Id, VehicleRow>)
    requires CheckPlateField(plate, instance, vehicles).Ok?
    requires ValidateVehicle(Some(Strip(plate)), caller, vehicles).Err?
    ensures instance.Some? && instance.value in vehicles
    ensures vehicles[instance.value].licensePlate == Strip(plate) && vehicles[instance.value].owner == caller
  {
  }

  // ------------------------------------------------------------ participants

  /** `TripParticipantDetailSerializer.validate_role` as written: it admits
      "passanger", not the field's "passenger". */
  function ValidateRole(value: string): (r: Result<string>)
    ensures r.Ok? <==> value == "passanger" || value == "driver"
    ensures r.Ok? ==> r.value == value
  {
    if value == "passanger" || value == "driver" then Ok(value) else Err(Invalid(InvalidRole))
  }

  /** The role field's stage: the model's choices first, then `validate_role`. */
  function CheckRole(value: string): (r: Result<Role>)
    ensures r.Ok? ==> RoleValue(r.value) == value
  {
    match ParseRole(value)
    case None => Err(Invalid(InvalidChoice("role")))
    case Some(role) => if ValidateRole(value).Ok? then Ok(role) else Err(Invalid(InvalidRole))
  }

  /** Between the field's choices and the misspelt validator, "driver" is the
      only role a participant submission can carry. */
  lemma OnlyDriverRolePasses(value: string)
    ensures CheckRole(value).Ok? <==> value == "driver"
    ensures value == "passenger" ==> CheckRole(value) == Err(Invalid(InvalidRole))
    ensures value == "passanger" ==> CheckRole(value) == Err(Invalid(InvalidChoice("role")))
  {
  }

  /** What a client submits for a participant; the serializer has no user
      field. */
  datatype ParticipantInput = ParticipantInput(trip: Option<Id>, role: Option<string>)

  /** `TripParticipantDetailSerializer` as written. The trip field must be
      present and name a stored trip; `validate_trip` then receives the Trip
      instance and filters `id` by it, which raises TypeError (an integer
      field cannot take a model instance), so a valid trip always ends the
      request in a server error before the role is looked at. */
  function ParticipantSerializerAsWritten(data: ParticipantInput, trips: set<Id>): (r: Result<Role>)
    ensures r.Err?
    ensures data.trip.Some? && data.trip.value in trips ==> r == Err(ServerError(TypeError))
  {
    if data.trip.None? then Err(Invalid(Required("trip")))
    else if data.trip.value !in trips then Err(Invalid(UnknownReference("trip")))
    else Err(ServerError(TypeError))
  }

  /** The serializer with `validate_trip` filtering by the trip's key: a
      stored trip passes, and the role then goes through its choices and
      `validate_role`. */
  function ParticipantSerializer(data: ParticipantInput, trips: set<Id>): (r: Result<Role>)
    ensures r.Ok? <==> data.trip.Some? && data.trip.value in trips && data.role == Some("driver")
    ensures r.Ok? ==> r.value == Driver
  {
    if data.trip.None? then Err(Invalid(Required("trip")))
    else if data.trip.value !in trips then Err(Invalid(UnknownReference("trip")))
    else if data.role.None? then Err(Invalid(Required("role")))
    else
      OnlyDriverRolePasses(data.role.value);
      CheckRole(data.role.value)
  }

  // ------------------------------------------------------------------- trips

  /** What a client submits to create or update a trip; None for a field the
      request leaves out. */
  datatype TripInput = TripInput(
    origin: Option<Id>,
    destination: Option<Id>,
    departureDate: Option<Date>,
    departureTime: Option<TimeOfDay>,
    petAllowed: Option<bool>,
    smokingAllowed: Option<bool>,
    kidsAllowed: Option<bool>,
    vehicle: Option<Id>)

  /** `validate_departure_date`: at most 365 days after today. */
  function ValidateDepartureDate(value: Date, today: Date): (r: Result<Date>)
    ensures r.Ok? <==> value <= today + 365
    ensures r.Ok? ==> r.value == value
    ensures r.Err? ==> r.error == Invalid(DepartureTooFar)
  {
    if value > today + 365 then Err(Invalid(DepartureTooFar)) else Ok(value)
  }

  /** `TripDetailSerializer.validate`: the same city at both ends is refused,
      then the combined departure must not be before now. A missing date or
      time makes `datetime.combine` raise TypeError. On a partial update
      without either city both read as None, and so as equal. */
  function ValidateTrip(data: TripInput, now: Instant): (r: Result<TripInput>)
    ensures r.Ok? ==> r.value == data
    ensures r.Ok? <==>
      && data.origin != data.destination
      && data.departureDate.Some? && data.departureTime.Some?
      && now <= Combine(data.departureDate.value, data.departureTime.value)
    ensures data.origin == data.destination ==> r == Err(Invalid(SameCity))
  {
    if data.origin == data.destination then Err(Invalid(SameCity))
    else if data.departureDate.None? || data.departureTime.None? then Err(ServerError(TypeError))
    else if Combine(data.departureDate.value, data.departureTime.value) < now then Err(Invalid(DepartureInPast))
    else Ok(data)
  }

  /** The field stage for the references and the required fields. A full
      submission (create, update) must carry both cities, the time and the
      vehicle, and, when `withDate`, the date; every key given must exist. */
  function CheckTripFields(data: TripInput, withDate: bool, partial: bool, cities: set<Id>, vehicles: set<Id>): (r: Result<()>)
    ensures r.Ok? <==>
      && (!partial ==> data.origin.Some? && data.destination.Some? && data.departureTime.Some? && data.vehicle.Some?)
      && (!partial && withDate ==> data.departureDate.Some?)
      && (data.origin.Some? ==> data.origin.value in cities)
      && (data.destination.Some? ==> data.destination.value in cities)
      && (data.vehicle.Some? ==> data.vehicle.value in vehicles)
  {
    if !partial && data.origin.None? then Err(Invalid(Required("origin_city")))
    else if data.origin.Some? && data.origin.value !in cities then Err(Invalid(UnknownReference("origin_city")))
    else if !partial && data.destination.None? then Err(Invalid(Required("destination_city")))
    else if data.destination.Some? && data.destination.value !in cities then Err(Invalid(UnknownReference("destination_city")))
    else if !partial && withDate && data.departureDate.None? then Err(Invalid(Required("departure_date")))
    else if !partial && data.departureTime.None? then Err(Invalid(Required("departure_time")))
    else if !partial && data.vehicle.None? then Err(Invalid(Required("vehicle")))
    else if data.vehicle.Some? && data.vehicle.value !in vehicles then Err(Invalid(UnknownReference("vehicle")))
    else Ok(())
  }

  /** `TripDetailSerializer` as written: `departure_date` is not among its
      fields, so the submitted date is dropped, `validate_departure_date`
      never runs, and `validate` reads None for the date. */
  function TripSerializerAsWritten(data: TripInput, partial: bool, cities: set<Id>, vehicles: set<Id>, now: Instant): Result<TripInput> {
    var kept := data.(departureDate := None);
    match CheckTripFields(kept, false, partial, cities, vehicles)
    case Err(e) => Err(e)
    case Ok(_) => ValidateTrip(kept, now)
  }

  /** As written, no trip submission validates: with distinct cities every one
      ends in the TypeError of `datetime.combine(None, ...)`. */
  lemma TripSerializerAsWrittenNeverAccepts(data: TripInput, partial: bool, cities: set<Id>, vehicles: set<Id>, now: Instant)
    ensures TripSerializerAsWritten(data, partial, cities, vehicles, now).Err?
    ensures CheckTripFields(data.(departureDate := None), false, partial, cities, vehicles).Ok? && data.origin != data.destination
      ==> TripSerializerAsWritten(data, partial, cities, vehicles, now) == Err(ServerError(TypeError))
  {
  }

  /** The serializer with `departure_date` among its fields: the date is
      required on a full submission and, when given, checked against today
      before `validate` runs. The view layer uses this one. */
  function TripSerializer(data: TripInput, partial: bool, cities: set<Id>, vehicles: set<Id>, now: Instant): (r: Result<TripInput>)
    ensures r.Ok? ==> r.value == data
  {
    match CheckTripFields(data, true, partial, cities, vehicles)
    case Err(e) => Err(e)
    case Ok(_) =>
      if data.departureDate.Some? && ValidateDepartureDate(data.departureDate.value, DateOf(now)).Err?
      then Err(Invalid(DepartureTooFar))
      else ValidateTrip(data, now)
  }

  /** The trip rules: a trip is accepted exactly when its
      references exist, its cities differ, and it leaves no earlier than now
      and no later than 365 days after today. */
  lemma TripSerializerAcceptsIff(data: TripInput, cities: set<Id>, vehicles: set<Id>, now: Instant)
    ensures TripSerializer(data, false, cities, vehicles, now).Ok? <==>
      && data.origin.Some? && data.origin.value in cities
      && data.destination.Some? && data.destination.value in cities
      && data.vehicle.Some? && data.vehicle.value in vehicles
      && data.departureDate.Some? && data.departureTime.Some?
      && data.origin != data.destination
      && now <= Combine(data.departureDate.value, data.departureTime.value)
      && data.departureDate.value <= DateOf(now) + 365
  {
  }

  /** An accepted departure lies in the window [now, end of today + 365 days]. */
  lemma {:induction false} AcceptedDepartureWithinAYear(data: TripInput, partial: bool, cities: set<Id>, vehicles: set<Id>, now: Instant)
    requires TripSerializer(data, partial, cities, vehicles, now).Ok?
    ensures data.departureDate.Some? && data.departureTime.Some?
    ensures now <= Combine(data.departureDate.value, data.departureTime.value) < Combine(DateOf(now) + 366, 0)
  {
    var d, t := data.departureDate.value, data.departureTime.value;
    assert d <= DateOf(now) + 365;
    assert Combine(d, t) < (d + 1) * TicksPerDay;
  }

  /** The last accepted date is today + 365, at any time not before now. */
  lemma LastDayAccepted(data: TripInput, cities: set<Id>, vehicles: set<Id>, now: Instant)
    requires data.origin.Some? && data.origin.value in cities
    requires data.destination.Some? && data.destination.value in cities && data.origin != data.destination
    requires data.vehicle.Some? && data.vehicle.value in vehicles && data.departureTime.Some?
    ensures data.departureDate == Some(DateOf(now) + 365) ==> TripSerializer(data, false, cities, vehicles, now).Ok?
    ensures data.departureDate == Some(DateOf(now) + 366) ==> TripSerializer(data, false, cities, vehicles, now) == Err(Invalid(DepartureTooFar))
  {
    if data.departureDate == Some(DateOf(now) + 365) {
      var d, t := data.departureDate.value, data.departureTime.value;
      assert now < (DateOf(now) + 1) * TicksPerDay;
      assert now <= Combine(d, t);
    }
  }

  // ----------------------------------------------------------- join requests

  /** `TripJoinRequestSerializer.validate_status` */
  function ValidateStatus(value: string): (r: Result<JoinStatus>)
    ensures r.Ok? <==> value in {"pending", "accepted", "rejected"}
    ensures r.Ok? ==> StatusValue(r.value) == value
  {
    match ParseStatus(value)
    case Some(s) => Ok(s)
    case None => Err(Invalid(InvalidStatus))
  }

  /** The status field's stage: the model's choices, then `validate_status`,
      which therefore never refuses anything the choices let through. */
  function CheckStatus(value: string): (r: Result<JoinStatus>)
    ensures r.Err? <==> ParseStatus(value).None?
    ensures r.Err? ==> r.error == Invalid(InvalidChoice("status"))
    ensures r.Ok? ==> StatusValue(r.value) == value
  {
    if ParseStatus(value).None? then Err(Invalid(InvalidChoice("status"))) else ValidateStatus(value)
  }

  /** What a client submits for a join request. */
  datatype JoinRequestInput = JoinRequestInput(user: Option<Id>, trip: Option<Id>, status: Option<string>)

  /** Whether a join request for (user, trip) is stored; a None reads as SQL
      NULL and matches no row. */
  predicate JoinRequestStored(requests: map<Id, JoinRequestRow>, user: Option<Id>, trip: Option<Id>) {
    user.Some? && trip.Some? && exists j :: j in requests && requests[j].user == user.value && requests[j].trip == trip.value
  }

  /** `TripJoinRequestSerializer.validate`: a stored request for the same
      (user, trip) is refused first; then the trip's creator may not ask to
      join. With no trip in the data, `trip.creator` raises AttributeError. */
  function ValidateJoinRequest(user: Option<Id>, trip: Option<Id>, requests: map<Id, JoinRequestRow>, trips: map<Id, TripRow>): (r: Result<()>)
    requires trip.Some? ==> trip.value in trips
    ensures JoinRequestStored(requests, user, trip) ==> r == Err(Invalid(JoinRequestExists))
    ensures r.Ok? <==> !JoinRequestStored(requests, user, trip) && trip.Some? && Some(trips[trip.value].creator) != user
  {
    if JoinRequestStored(requests, user, trip) then Err(Invalid(JoinRequestExists))
    else if trip.None? then Err(ServerError(AttributeError))
    else if Some(trips[trip.value].creator) == user then Err(Invalid(CreatorCannotJoin))
    else Ok(())
  }

  /** The full serializer run for a join request, for a create (`instance`
      None), a full update or a partial one. The user and trip fields must
      name stored rows (and be present unless partial) and the status must be
      one of the choices. The framework's unique-together validator fills
      the fields an update leaves out from the instance into a copy of the
      data and refuses a pair another row holds; `validate` then sees only
      the fields actually submitted. The result is the row `save` writes:
      the filled pair, and a status left out is the stored one on an update
      and the default on a create. */
  function JoinRequestSerializer(data: JoinRequestInput, partial: bool, instance: Option<Id>, users: set<Id>,
                                 requests: map<Id, JoinRequestRow>, trips: map<Id, TripRow>): (r: Result<JoinRequestRow>)
    requires instance.Some? ==> instance.value in requests && requests[instance.value].trip in trips
    requires partial ==> instance.Some?
    ensures data.trip.None? ==> r.Err?
    ensures r.Ok? ==> r.value.trip == data.trip.value && r.value.trip in trips
    ensures r.Ok? ==> !JoinRequestStored(requests, data.user, data.trip) && Some(trips[r.value.trip].creator) != data.user
    ensures r.Ok? && !partial ==> trips[r.value.trip].creator != r.value.user && !JoinRequestStored(requests, Some(r.value.user), Some(r.value.trip))
    ensures r.Ok? ==> forall j :: j in requests && instance != Some(j) ==> !(requests[j].user == r.value.user && requests[j].trip == r.value.trip)
    ensures r.Ok? && data.user.Some? ==> r.value.user == data.user.value && data.user.value in users
    ensures r.Ok? && data.user.None? ==> instance.Some? && r.value.user == requests[instance.value].user
    ensures r.Ok? && data.trip.Some? ==> r.value.trip == data.trip.value
    ensures r.Ok? && data.status.Some? ==> StatusValue(r.value.status) == data.status.value
    ensures r.Ok? && data.status.None? && instance.None? ==> r.value.status == DefaultStatus
  {
    if !partial && data.user.None? then Err(Invalid(Required("user")))
    else if data.user.Some? && data.user.value !in users then Err(Invalid(UnknownReference("user")))
    else if !partial && data.trip.None? then Err(Invalid(Required("trip")))
    else if data.trip.Some? && data.trip.value !in trips then Err(Invalid(UnknownReference("trip")))
    else
      var status := if data.status.Some? then CheckStatus(data.status.value) else Ok(DefaultStatus);
      if status.Err? then Err(status.error)
      else
        var stored := if instance.Some? then requests[instance.value] else JoinRequestRow(0, 0, DefaultStatus);
        var user := if data.user.Some? then data.user.value else stored.user;
        var trip := if data.trip.Some? then data.trip.value else stored.trip;
        if exists j :: j in requests && instance != Some(j) && requests[j].user == user && requests[j].trip == trip
        then Err(Invalid(NotUnique))
        else match ValidateJoinRequest(data.user, data.trip, requests, trips)
          case Err(e) => Err(e)
          case Ok(_) => Ok(JoinRequestRow(user, trip, if data.status.Some? || instance.None? then status.value else stored.status))
  }

  /** `validate`'s duplicate check counts the request being updated: a
      full update that keeps the request's user and trip is refused. */
  lemma ResolvingAJoinRequestIsRefused(data: JoinRequestInput, j: Id, users: set<Id>,
                                       requests: map<Id, JoinRequestRow>, trips: map<Id, TripRow>)
    requires j in requests && requests[j].trip in trips
    requires data.user == Some(requests[j].user) && data.trip == Some(requests[j].trip)
    ensures JoinRequestSerializer(data, false, Some(j), users, requests, trips).Err?
  {
    assert JoinRequestStored(requests, data.user, data.trip) by {
      assert requests[j].user == data.user.value && requests[j].trip == data.trip.value;
    }
  }

  /** A partial update that names the trip but not the user passes
      `validate`, which looks the user up as NULL: a request can be resolved
      this way, and the trip can also be moved to one its user created. */
  lemma PartialJoinRequestUpdateWithTrip(status: JoinStatus, trip: Id, j: Id, users: set<Id>,
                                         requests: map<Id, JoinRequestRow>, trips: map<Id, TripRow>)
    requires j in requests && requests[j].trip in trips && trip in trips
    requires forall k :: k in requests && k != j ==> requests[k].user != requests[j].user || requests[k].trip != trip
    ensures var r := JoinRequestSerializer(JoinRequestInput(None, Some(trip), Some(StatusValue(status))), true, Some(j), users, requests, trips);
      r == Ok(JoinRequestRow(requests[j].user, trip, status))
  {
  }

  /** A partial update without the trip crashes in `validate`, which reads
      the missing trip's creator. */
  lemma PartialJoinRequestUpdateWithoutTripCrashes(data: JoinRequestInput, j: Id, users: set<Id>,
                                                   requests: map<Id, JoinRequestRow>, trips: map<Id, TripRow>)
    requires j in requests && requests[j].trip in trips
    requires data.trip.None? && data.user.None?
    requires data.status.Some? ==> ParseStatus(data.status.value).Some?
    requires forall k :: k in requests && k != j ==> requests[k].user != requests[j].user || requests[k].trip != requests[j].trip
    ensures JoinRequestSerializer(data, true, Some(j), users, requests, trips) == Err(ServerError(AttributeError))
  {
  }

  /** On a create the unique-together validator refuses a duplicate before
      `validate` can: `validate`'s own duplicate message is only reachable on
      an update. */
  lemma DuplicateJoinRequestRefusedByFramework(data: JoinRequestInput, users: set<Id>,
                                               requests: map<Id, JoinRequestRow>, trips: map<Id, TripRow>)
    requires data.user.Some? && data.user.value in users && data.trip.Some? && data.trip.value in trips
    requires data.status.None?
    requires JoinRequestStored(requests, data.user, data.trip)
    ensures JoinRequestSerializer(data, false, None, users, requests, trips) == Err(Invalid(NotUnique))
  {
  }
}
