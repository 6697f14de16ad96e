/** The trip app's models with behaviour of their own (trip/models.py): State,
    City and Vehicle normalise their text fields in place when saved, then run
    `full_clean` (blank values, column lengths, foreign keys and uniqueness)
    and write the row. Their `__str__` renderings are pure functions of the
    rows. */
module TripModels {

  import opened Common
  import opened Text
  import opened Schema
  import opened Store

  /** `full_clean`'s check of one text column: the model does not strip, so
      only the empty string is blank, and a value may not exceed the
      column's length. */
  function ColumnError(field: string, value: string, maxLength: nat): (r: Option<Reason>)
    ensures r.None? <==> 0 < |value| <= maxLength
    ensures r.Some? ==> r.value == Blank(field) || r.value == TooLong(field)
  {
    if value == [] then Some(Blank(field))
    else if |value| > maxLength then Some(TooLong(field))
    else None
  }

  /** The first of two field errors, in field order. */
  function FirstError(first: Option<Reason>, next: Option<Reason>): Option<Reason> {
    if first.Some? then first else next
  }

  /** The column limits of a state: no column blank, name and country within
      100 characters, the abbreviation within 2. */
  predicate StateFieldsValid(s: StateRow) {
    && 0 < |s.name| <= StateNameLength
    && 0 < |s.abbreviation| <= StateAbbreviationLength
    && 0 < |s.country| <= StateCountryLength
  }

  /** `full_clean`'s field stage on a state: the first column it refuses. */
  function StateFieldError(s: StateRow): (r: Option<Reason>)
    ensures r.None? <==> StateFieldsValid(s)
  {
    FirstError(ColumnError("name", s.name, StateNameLength),
      FirstError(ColumnError("abbreviation", s.abbreviation, StateAbbreviationLength),
        ColumnError("country", s.country, StateCountryLength)))
  }

  /** The column limits of a city: a name of 1 to 100 characters. */
  predicate CityFieldsValid(c: CityRow) {
    0 < |c.name| <= CityNameLength
  }

  /** The column limits of a vehicle: no column blank, the plate within 7
      characters, brand and model within 50. */
  predicate VehicleFieldsValid(v: VehicleRow) {
    && 0 < |v.licensePlate| <= PlateLength
    && 0 < |v.brand| <= BrandLength
    && 0 < |v.model| <= ModelLength
  }

  /** `full_clean`'s field stage on a vehicle's text columns: the first one
      it refuses. */
  function VehicleFieldError(v: VehicleRow): (r: Option<Reason>)
    ensures r.None? <==> VehicleFieldsValid(v)
  {
    FirstError(ColumnError("license_plate", v.licensePlate, PlateLength),
      FirstError(ColumnError("brand", v.brand, BrandLength),
        ColumnError("model", v.model, ModelLength)))
  }

  /** `full_clean`'s uniqueness check: another stored state, other than the
      instance's own row, already has these three values. */
  predicate StateTaken(states: map<Id, StateRow>, row: StateRow, own: Option<Id>) {
    exists j :: j in states && own != Some(j) && states[j] == row
  }

  /** `full_clean`'s check of `license_plate` (unique) and of the
      (license_plate, owner) pair: another vehicle holds the plate. */
  predicate PlateTaken(vehicles: map<Id, VehicleRow>, plate: string, own: Option<Id>) {
    exists j :: j in vehicles && own != Some(j) && vehicles[j].licensePlate == plate
  }

  /** An in-memory State instance. */
  class StateObj {
    var pk: Option<Id>
    var name: string
    var abbreviation: string
    var country: string

    constructor (name: string, abbreviation: string, country: string)
      ensures this.name == name && this.abbreviation == abbreviation && this.country == country
      ensures pk == None
    {
      this.name, this.abbreviation, this.country := name, abbreviation, country;
      pk := None;
    }

    function Row(): StateRow
      reads this
    {
      StateRow(name, abbreviation, country)
    }

    /** `State.save`: title-case name and country, upper-case the
        abbreviation, then `full_clean`: refuse a blank or over-long column,
        then a second row with the same three values; write. */
    method Save(db: Database) returns (r: Result<Id>)
      requires db.Valid()
      modifies this, db
      ensures db.Valid()
      ensures name == Title(old(name)) && country == Title(old(country))
      ensures abbreviation == Upper(old(abbreviation))
      ensures r.Ok? <==> StateFieldsValid(Row()) && !StateTaken(old(db.tables.states), Row(), old(pk))
      ensures r.Ok? ==>
        && pk == Some(r.value)
        && (old(pk).Some? ==> r.value == old(pk).value)
        && (old(pk).None? ==> r.value !in old(db.tables.states))
        && db.tables == old(db.tables).(states := old(db.tables.states)[r.value := Row()])
      ensures r.Err? ==> pk == old(pk) && db.tables == old(db.tables)
      ensures r.Err? ==> r.error == Invalid(if StateFieldError(Row()).Some? then StateFieldError(Row()).value else NotUnique)
    {
      name := Title(name);
      country := Title(country);
      abbreviation := Upper(abbreviation);
      var row := Row();
      var fieldError := StateFieldError(row);
      if fieldError.Some? {
        return Err(Invalid(fieldError.value));
      }
      if StateTaken(db.tables.states, row, pk) {
        return Err(Invalid(NotUnique));
      }
      var id := db.PutState(pk, row);
      pk := Some(id);
      r := Ok(id);
    }
  }

  /** An in-memory City instance; its state is a key into the states table. */
  class CityObj {
    var pk: Option<Id>
    var name: string
    var state: Id

    constructor (name: string, state: Id)
      ensures this.name == name && this.state == state && pk == None
    {
      this.name, this.state := name, state;
      pk := None;
    }

    function Row(): CityRow
      reads this
    {
      CityRow(name, state)
    }

    /** `City.save`: title-case the name (and nothing else), then
        `full_clean`: refuse a blank or over-long name, then a state that
        does not exist; write. */
    method Save(db: Database) returns (r: Result<Id>)
      requires db.Valid()
      modifies this, db
      ensures db.Valid()
      ensures name == Title(old(name)) && state == old(state)
      ensures r.Ok? <==> CityFieldsValid(Row()) && state in old(db.tables.states)
      ensures r.Ok? ==>
        && pk == Some(r.value)
        && (old(pk).Some? ==> r.value == old(pk).value)
        && (old(pk).None? ==> r.value !in old(db.tables.cities))
        && db.tables == old(db.tables).(cities := old(db.tables.cities)[r.value := Row()])
      ensures r.Err? ==> pk == old(pk) && db.tables == old(db.tables)
      ensures r.Err? ==> r.error == Invalid(
        if !CityFieldsValid(Row()) then ColumnError("name", name, CityNameLength).value else UnknownReference("state"))
    {
      name := Title(name);
      var nameError := ColumnError("name", name, CityNameLength);
      if nameError.Some? {
        return Err(Invalid(nameError.value));
      }
      if state !in db.tables.states {
        return Err(Invalid(UnknownReference("state")));
      }
      var row := Row();
      var id := db.PutCity(pk, row);
      pk := Some(id);
      r := Ok(id);
    }
  }

  /** An in-memory Vehicle instance. */
  class VehicleObj {
    var pk: Option<Id>
    var owner: Id
    var licensePlate: string
    var brand: string
    var model: string

    constructor (owner: Id, licensePlate: string, brand: string, model: string)
      ensures this.owner == owner && this.licensePlate == licensePlate
      ensures this.brand == brand && this.model == model && pk == None
    {
      this.owner, this.licensePlate, this.brand, this.model := owner, licensePlate, brand, model;
      pk := None;
    }

    /** The instance a query returns for a stored row. */
    constructor Load(id: Id, row: VehicleRow)
      ensures pk == Some(id) && Row() == row
    {
      owner, licensePlate, brand, model := row.owner, row.licensePlate, row.brand, row.model;
      pk := Some(id);
    }

    function Row(): VehicleRow
      reads this
    {
      VehicleRow(owner, licensePlate, brand, model)
    }

    /** `Vehicle.save`: title-case brand and model (plate and owner stay as
        they are), then `full_clean` in field order: the owner must exist,
        no text column may be blank or over-long, and no other vehicle may
        hold the plate; write. */
    method Save(db: Database) returns (r: Result<Id>)
      requires db.Valid()
      modifies this, db
      ensures db.Valid()
      ensures brand == Title(old(brand)) && model == Title(old(model))
      ensures licensePlate == old(licensePlate) && owner == old(owner)
      ensures r.Ok? <==>
        && owner in old(db.tables.users)
        && VehicleFieldsValid(Row())
        && !PlateTaken(old(db.tables.vehicles), licensePlate, old(pk))
      ensures r.Ok? ==>
        && pk == Some(r.value)
        && (old(pk).Some? ==> r.value == old(pk).value)
        && (old(pk).None? ==> r.value !in old(db.tables.vehicles))
        && db.tables == old(db.tables).(vehicles := old(db.tables.vehicles)[r.value := Row()])
      ensures r.Err? ==> pk == old(pk) && db.tables == old(db.tables)
      ensures r.Err? ==> r.error == Invalid(
        if owner !in old(db.tables.users) then UnknownReference("owner")
        else if VehicleFieldError(Row()).Some? then VehicleFieldError(Row()).value
        else NotUnique)
    {
      brand := Title(brand);
      model := Title(model);
      if owner !in db.tables.users {
        return Err(Invalid(UnknownReference("owner")));
      }
      var fieldError := VehicleFieldError(Row());
      if fieldError.Some? {
        return Err(Invalid(fieldError.value));
      }
      if PlateTaken(db.tables.vehicles, licensePlate, pk) {
        return Err(Invalid(NotUnique));
      }
      var row := Row();
      var id := db.PutVehicle(pk, row);
      pk := Some(id);
      r := Ok(id);
    }
  }

  /** `State.__str__` */
  function StateLabel(s: StateRow): string {
    s.name + ", " + s.country
  }

  /** `City.__str__`: the city's name, then its state's rendering. */
  function CityLabel(c: CityRow, state: StateRow): string {
    c.name + ", " + StateLabel(state)
  }

  /** `Vehicle.__str__` */
  function VehicleLabel(v: VehicleRow): string {
    v.brand + " " + v.model + " " + v.licensePlate
  }

  /** A state's rendering gives its name back, up to the first comma, and its
      country after the separator. */
  lemma StateLabelParts(s: StateRow)
    requires ',' !in s.name
    ensures BeforeFirst(StateLabel(s), ',') == s.name
    ensures StateLabel(s)[|s.name| + 2..] == s.country
  {
    assert StateLabel(s) == s.name + [','] + (" " + s.country);
    BeforeFirstOfJoin(s.name, ',', " " + s.country);
  }

  /** A city's rendering gives its name back, up to the first comma, and its
      state's rendering after the separator. */
  lemma CityLabelParts(c: CityRow, state: StateRow)
    requires ',' !in c.name
    ensures BeforeFirst(CityLabel(c, state), ',') == c.name
    ensures CityLabel(c, state)[|c.name| + 2..] == StateLabel(state)
  {
    assert CityLabel(c, state) == c.name + [','] + (" " + StateLabel(state));
    BeforeFirstOfJoin(c.name, ',', " " + StateLabel(state));
  }

  /** A vehicle's rendering ends with its plate, after the last space. */
  lemma VehicleLabelPlate(v: VehicleRow)
    requires ' ' !in v.licensePlate
    ensures AfterLast(VehicleLabel(v), ' ') == v.licensePlate
  {
    assert VehicleLabel(v) == (v.brand + " " + v.model) + [' '] + v.licensePlate;
    AfterLastOfJoin(v.brand + " " + v.model, ' ', v.licensePlate);
  }

  /** The saves' casing keeps every length, so `full_clean` judges each
      column by the length the caller gave it: an abbreviation of three
      letters or an empty name is refused however it is cased. */
  lemma CasingKeepsColumnLimits(s: StateRow, c: CityRow, v: VehicleRow)
    ensures StateFieldsValid(StateRow(Title(s.name), Upper(s.abbreviation), Title(s.country))) <==> StateFieldsValid(s)
    ensures CityFieldsValid(CityRow(Title(c.name), c.state)) <==> CityFieldsValid(c)
    ensures VehicleFieldsValid(VehicleRow(v.owner, v.licensePlate, Title(v.brand), Title(v.model))) <==> VehicleFieldsValid(v)
  {
  }

  /** Saving a state twice stores the same values: the normalisation is
      idempotent. */
  lemma StateNormalisationIdempotent(name: string, abbreviation: string, country: string)
    ensures Title(Title(name)) == Title(name) && Title(Title(country)) == Title(country)
    ensures Upper(Upper(abbreviation)) == Upper(abbreviation)
  {
    TitleIdempotent(name);
    TitleIdempotent(country);
    UpperIdempotent(abbreviation);
  }
}
