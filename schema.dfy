/** The stored rows of every model (trip, review and authentication apps), the
    choices of the CharFields that have them, and the constraints the database
    enforces: `unique`, `unique_together` and the foreign keys. */
module Schema {

  import opened Common

  /** Dates are day numbers; instants and times of day count microseconds, the
      resolution of Python's `datetime`. */
  const TicksPerDay: int := 86_400_000_000

  type Date = int
  type Instant = int
  type TimeOfDay = t: int | 0 <= t < TicksPerDay

  /** `datetime.combine(date, time)` */
  function Combine(d: Date, t: TimeOfDay): Instant {
    d * TicksPerDay + t
  }

  /** `instant.date()` */
  function DateOf(i: Instant): Date {
    i / TicksPerDay
  }

  /** Combining a date with a time and taking its date gives the date back. */
  lemma DateOfCombine(d: Date, t: TimeOfDay)
    ensures DateOf(Combine(d, t)) == d
  {
    assert Combine(d, t) == d * TicksPerDay + t;
  }

  /** CustomUser (authentication/models.py). `profilePicture` is the stored
      file name; "" stands for no picture. Birth date is not modelled. */
  datatype UserRow = UserRow(
    email: string,
    passwordHash: string,
    firstName: string,
    lastName: string,
    username: string,
    aboutMe: string,
    documentNumber: string,
    phoneNumber: string,
    profilePicture: string)

  datatype StateRow = StateRow(name: string, abbreviation: string, country: string)

  /** City; latitude and longitude are not modelled. */
  datatype CityRow = CityRow(name: string, state: Id)

  datatype VehicleRow = VehicleRow(owner: Id, licensePlate: string, brand: string, model: string)

  /** The `max_length` of the text columns of states, cities and vehicles. */
  const StateNameLength := 100
  const StateAbbreviationLength := 2
  const StateCountryLength := 100
  const CityNameLength := 100
  const PlateLength := 7
  const BrandLength := 50
  const ModelLength := 50

  /** The `max_length` of the user's text columns: the e-mail's is the
      default of Django's EmailField; the password, the names and the
      username come from Django's AbstractUser. `about_me` is a TEXT column
      whose limit only the serializer applies. */
  const EmailLength := 254
  const PasswordLength := 128
  const NameLength := 150
  const UsernameLength := 150
  const AboutMeLength := 500
  const DocumentNumberLength := 8
  /** The `max_length` of ImageField, Django's default for file columns; the
      serializer's image field bounds the uploaded file's name by it. */
  const PictureNameLength := 100

  datatype TripRow = TripRow(
    origin: Id,
    destination: Id,
    departureDate: Date,
    departureTime: TimeOfDay,
    petAllowed: bool,
    smokingAllowed: bool,
    kidsAllowed: bool,
    vehicle: Option<Id>,
    creator: Id)

  datatype Role = Driver | Passenger

  datatype ParticipantRow = ParticipantRow(user: Id, trip: Id, role: Role)

  datatype JoinStatus = Pending | Accepted | Rejected

  /** TripJoinRequest; the two timestamps are not modelled. */
  datatype JoinRequestRow = JoinRequestRow(user: Id, trip: Id, status: JoinStatus)

  /** Review: `user` is the reviewed user. Rating and comment may be null. */
  datatype ReviewRow = ReviewRow(user: Id, reviewer: Id, trip: Id, rating: Option<nat>, comment: Option<string>)

  /** The stored value of each role choice. */
  function RoleValue(r: Role): string {
    match r
    case Driver => "driver"
    case Passenger => "passenger"
  }

  /** The role a stored value denotes, if it is one of the field's choices. */
  function ParseRole(s: string): (r: Option<Role>)
    ensures r.Some? <==> s in {"driver", "passenger"}
    ensures r.Some? ==> RoleValue(r.value) == s
  {
    if s == "driver" then Some(Driver) else if s == "passenger" then Some(Passenger) else None
  }

  lemma RoleRoundTrip(r: Role)
    ensures ParseRole(RoleValue(r)) == Some(r)
  {
  }

  function StatusValue(s: JoinStatus): string {
    match s
    case Pending => "pending"
    case Accepted => "accepted"
    case Rejected => "rejected"
  }

  function ParseStatus(s: string): (r: Option<JoinStatus>)
    ensures r.Some? <==> s in {"pending", "accepted", "rejected"}
    ensures r.Some? ==> StatusValue(r.value) == s
  {
    if s == "pending" then Some(Pending)
    else if s == "accepted" then Some(Accepted)
    else if s == "rejected" then Some(Rejected)
    else None
  }

  lemma StatusRoundTrip(s: JoinStatus)
    ensures ParseStatus(StatusValue(s)) == Some(s)
  {
  }

  /** The status a join request gets when none is given. */
  const DefaultStatus: JoinStatus := Pending

  /** Every table, as the database holds it at one moment. */
  datatype Tables = Tables(
    users: map<Id, UserRow>,
    states: map<Id, StateRow>,
    cities: map<Id, CityRow>,
    vehicles: map<Id, VehicleRow>,
    trips: map<Id, TripRow>,
    participants: map<Id, ParticipantRow>,
    joinRequests: map<Id, JoinRequestRow>,
    reviews: map<Id, ReviewRow>)

  /** `email = EmailField(unique=True)` */
  predicate EmailsUnique(users: map<Id, UserRow>) {
    forall i, j {:trigger users[i].email, users[j].email} :: i in users && j in users && users[i].email == users[j].email ==> i == j
  }

  /** `unique_together = ("name", "abbreviation", "country")`: the whole row. */
  predicate StatesUnique(states: map<Id, StateRow>) {
    forall i, j {:trigger states[i], states[j]} :: i in states && j in states && states[i] == states[j] ==> i == j
  }

  /** `license_plate = CharField(..., unique=True)` */
  predicate PlatesUnique(vehicles: map<Id, VehicleRow>) {
    forall i, j {:trigger vehicles[i].licensePlate, vehicles[j].licensePlate} :: i in vehicles && j in vehicles && vehicles[i].licensePlate == vehicles[j].licensePlate ==> i == j
  }

  /** `unique_together = ("license_plate", "owner")` */
  predicate PlateOwnerUnique(vehicles: map<Id, VehicleRow>) {
    forall i, j {:trigger vehicles[i].licensePlate, vehicles[j].licensePlate} ::
      (i in vehicles && j in vehicles
       && vehicles[i].licensePlate == vehicles[j].licensePlate && vehicles[i].owner == vehicles[j].owner) ==> i == j
  }

  /** TripParticipant `unique_together = ("user", "trip")` */
  predicate ParticipantsUnique(participants: map<Id, ParticipantRow>) {
    forall i, j {:trigger participants[i].trip, participants[j].trip} ::
      (i in participants && j in participants
       && participants[i].user == participants[j].user && participants[i].trip == participants[j].trip) ==> i == j
  }

  /** TripJoinRequest `unique_together = ("user", "trip")` */
  predicate JoinRequestsUnique(requests: map<Id, JoinRequestRow>) {
    forall i, j {:trigger requests[i].trip, requests[j].trip} ::
      (i in requests && j in requests
       && requests[i].user == requests[j].user && requests[i].trip == requests[j].trip) ==> i == j
  }

  /** Review `unique_together = ("user", "trip", "reviewer")` */
  predicate ReviewsUnique(reviews: map<Id, ReviewRow>) {
    forall i, j {:trigger reviews[i].trip, reviews[j].trip} ::
      (i in reviews && j in reviews
       && reviews[i].user == reviews[j].user && reviews[i].trip == reviews[j].trip
       && reviews[i].reviewer == reviews[j].reviewer) ==> i == j
  }

  predicate CitiesRefer(cities: map<Id, CityRow>, states: map<Id, StateRow>) {
    forall c :: c in cities ==> cities[c].state in states
  }

  predicate VehiclesRefer(vehicles: map<Id, VehicleRow>, users: map<Id, UserRow>) {
    forall v :: v in vehicles ==> vehicles[v].owner in users
  }

  predicate TripRefers(t: TripRow, users: map<Id, UserRow>, cities: map<Id, CityRow>, vehicles: map<Id, VehicleRow>) {
    && t.origin in cities && t.destination in cities && t.creator in users
    && (t.vehicle.Some? ==> t.vehicle.value in vehicles)
  }

  predicate TripsRefer(trips: map<Id, TripRow>, users: map<Id, UserRow>, cities: map<Id, CityRow>, vehicles: map<Id, VehicleRow>) {
    forall t :: t in trips ==> TripRefers(trips[t], users, cities, vehicles)
  }

  predicate ParticipantsRefer(participants: map<Id, ParticipantRow>, users: map<Id, UserRow>, trips: map<Id, TripRow>) {
    forall p :: p in participants ==> participants[p].user in users && participants[p].trip in trips
  }

  predicate JoinRequestsRefer(requests: map<Id, JoinRequestRow>, users: map<Id, UserRow>, trips: map<Id, TripRow>) {
    forall r :: r in requests ==> requests[r].user in users && requests[r].trip in trips
  }

  predicate ReviewsRefer(reviews: map<Id, ReviewRow>, users: map<Id, UserRow>, trips: map<Id, TripRow>) {
    forall r :: r in reviews ==> reviews[r].user in users && reviews[r].reviewer in users && reviews[r].trip in trips
  }

  /** Every constraint the schema declares. */
  predicate Consistent(t: Tables) {
    && EmailsUnique(t.users)
    && StatesUnique(t.states)
    && CitiesRefer(t.cities, t.states)
    && PlatesUnique(t.vehicles)
    && PlateOwnerUnique(t.vehicles)
    && VehiclesRefer(t.vehicles, t.users)
    && TripsRefer(t.trips, t.users, t.cities, t.vehicles)
    && ParticipantsUnique(t.participants)
    && ParticipantsRefer(t.participants, t.users, t.trips)
    && JoinRequestsUnique(t.joinRequests)
    && JoinRequestsRefer(t.joinRequests, t.users, t.trips)
    && ReviewsUnique(t.reviews)
    && ReviewsRefer(t.reviews, t.users, t.trips)
  }

  /** The one way the API creates a participant is trip creation, which enrols
      the creator as driver; so every participant row is the driver row of its
      trip's creator. */
  predicate CreatorsDrive(participants: map<Id, ParticipantRow>, trips: map<Id, TripRow>) {
    forall p :: p in participants ==>
      participants[p].trip in trips
      && participants[p].role == Driver
      && participants[p].user == trips[participants[p].trip].creator
  }

  /** A unique plate is in particular unique per owner. */
  lemma PlatesUniquePerOwner(vehicles: map<Id, VehicleRow>)
    requires PlatesUnique(vehicles)
    ensures PlateOwnerUnique(vehicles)
  {
  }

  /** Under the participation invariant a trip has at most one participant,
      and so at most one driver. */
  lemma AtMostOneParticipantPerTrip(participants: map<Id, ParticipantRow>, trips: map<Id, TripRow>, p: Id, q: Id)
    requires ParticipantsUnique(participants) && CreatorsDrive(participants, trips)
    requires p in participants && q in participants && participants[p].trip == participants[q].trip
    ensures p == q
  {
  }

  /** Every key of every table is below `next`, so `next` is free everywhere. */
  predicate KeysBelow<T>(m: map<Id, T>, next: nat) {
    forall k :: k in m ==> k < next
  }

  predicate Allocated(t: Tables, next: nat) {
    && KeysBelow(t.users, next) && KeysBelow(t.states, next) && KeysBelow(t.cities, next)
    && KeysBelow(t.vehicles, next) && KeysBelow(t.trips, next) && KeysBelow(t.participants, next)
    && KeysBelow(t.joinRequests, next) && KeysBelow(t.reviews, next)
  }

  /** Raising the counter keeps every key below it. */
  lemma AllocatedGrow(t: Tables, next: nat, next': nat)
    requires Allocated(t, next) && next <= next'
    ensures Allocated(t, next')
  {
  }

  lemma KeysBelowPut<T>(m: map<Id, T>, id: Id, v: T, next: nat)
    requires KeysBelow(m, next) && id < next
    ensures KeysBelow(m[id := v], next)
  {
  }

  /** The key a save writes to: the instance's own key when it has one
      (Django inserts under it if the row is gone), else the counter's. */
  function KeyFor(pk: Option<Id>, next: nat): Id {
    if pk.Some? then pk.value else next
  }

  /** The counter once `KeyFor(pk, next)` is taken. */
  function NextAfter(pk: Option<Id>, next: nat): (r: nat)
    ensures KeyFor(pk, next) < r && next <= r
  {
    if pk.Some? && next <= pk.value then pk.value + 1 else if pk.Some? then next else next + 1
  }

  /** Writing a vehicle row whose owner exists and whose plate no other row
      holds keeps every constraint. */
  lemma PutVehicleKeepsConsistent(t: Tables, id: Id, row: VehicleRow)
    requires Consistent(t)
    requires row.owner in t.users
    requires forall j :: j in t.vehicles && j != id ==> t.vehicles[j].licensePlate != row.licensePlate
    ensures Consistent(t.(vehicles := t.vehicles[id := row]))
  {
    var vs := t.vehicles[id := row];
    forall u | u in t.trips ensures TripRefers(t.trips[u], t.users, t.cities, vs) {
      assert TripRefers(t.trips[u], t.users, t.cities, t.vehicles);
    }
  }

  /** Writing a user row whose email no other row holds keeps every
      constraint: the other tables refer to users by key only. */
  lemma PutUserKeepsConsistent(t: Tables, id: Id, row: UserRow)
    requires Consistent(t)
    requires forall j :: j in t.users && j != id ==> t.users[j].email != row.email
    ensures Consistent(t.(users := t.users[id := row]))
  {
    var us := t.users[id := row];
    forall u | u in t.trips ensures TripRefers(t.trips[u], us, t.cities, t.vehicles) {
      assert TripRefers(t.trips[u], t.users, t.cities, t.vehicles);
    }
  }

  /** Writing a state row that equals no other row keeps every constraint. */
  lemma PutStateKeepsConsistent(t: Tables, id: Id, row: StateRow)
    requires Consistent(t)
    requires forall j :: j in t.states && j != id ==> t.states[j] != row
    ensures Consistent(t.(states := t.states[id := row]))
  {
  }

  /** Writing a city row whose state exists keeps every constraint. */
  lemma PutCityKeepsConsistent(t: Tables, id: Id, row: CityRow)
    requires Consistent(t)
    requires row.state in t.states
    ensures Consistent(t.(cities := t.cities[id := row]))
  {
    var cs := t.cities[id := row];
    forall u | u in t.trips ensures TripRefers(t.trips[u], t.users, cs, t.vehicles) {
      assert TripRefers(t.trips[u], t.users, t.cities, t.vehicles);
    }
  }
}
