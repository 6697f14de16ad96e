/** The review viewset (review/views.py): every action needs a user, update
    and destroy reach only reviews the caller wrote, and a created review gets
    the caller as reviewer whatever the submission named. */
module ReviewViews {

  import opened Common
  import opened Schema
  import opened Store
  import opened ReviewModels
  import opened ReviewSerializers

  /** `ReviewViewSet.get_queryset`: update, partial update and destroy reach
      only the caller's own reviews; list and retrieve see them all. */
  function ReviewScope(a: Action, caller: Id, reviews: map<Id, ReviewRow>): (r: set<Id>)
    ensures forall j :: j in r <==> j in reviews && (a in {Update, PartialUpdate, Destroy} ==> reviews[j].reviewer == caller)
  {
    if a in {Update, PartialUpdate, Destroy} then set j | j in reviews && reviews[j].reviewer == caller else reviews.Keys
  }

  /** `ReviewViewSet.get_serializer_class` */
  function ReviewSerializerFor(a: Action): (r: SerializerKind)
    ensures r == DetailSerializer <==> a in {Create, Update, PartialUpdate, Destroy}
  {
    if a in {Create, Update, PartialUpdate, Destroy} then DetailSerializer else ListSerializer
  }

  /** The detail serializer run of a create against the tables. */
  function CreateData(data: ReviewInput, t: Tables): Result<ReviewInput> {
    ReviewSerializer(data, false, None, t.users.Keys, t.trips.Keys, t.reviews, t.participants)
  }

  /** The row `perform_create` saves: the validated data with the caller as
      reviewer. */
  function NewReview(v: ReviewInput, reviewer: Id): ReviewRow
    requires v.user.Some? && v.trip.Some?
    requires v.rating.Given? ==> v.rating.value >= 0
  {
    ReviewRow(v.user.value, reviewer, v.trip.value, if v.rating.Given? then Some(v.rating.value as nat) else None, v.comment)
  }

  /** `create`: the serializer checks the submitted reviewer, then
      `perform_create` replaces it by the caller; the database refuses the
      row when the caller already reviewed that user on that trip. */
  method CreateReview(db: Database, caller: Caller, data: ReviewInput) returns (r: Result<Id>)
    requires db.Valid()
    modifies db
    ensures db.Valid()
    ensures r.Ok? <==>
      && HasPermission(IsAuthenticated, caller, old(db.tables.users).Keys)
      && CreateData(data, old(db.tables)).Ok?
      && !ReviewTaken(old(db.tables.reviews), CreateData(data, old(db.tables)).value.user.value,
                      CreateData(data, old(db.tables)).value.trip.value, caller.value, None)
    ensures r.Ok? ==>
      && r.value !in old(db.tables.reviews)
      && db.tables == old(db.tables).(reviews := old(db.tables.reviews)[r.value := NewReview(CreateData(data, old(db.tables)).value, caller.value)])
      && db.tables.reviews[r.value].reviewer == caller.value
    ensures r.Err? ==> db.tables == old(db.tables)
  {
    if !HasPermission(IsAuthenticated, caller, db.tables.users.Keys) {
      return Err(NotAuthenticated);
    }
    var checked := CreateData(data, db.tables);
    if checked.Err? {
      return Err(checked.error);
    }
    var v := checked.value;
    if ReviewTaken(db.tables.reviews, v.user.value, v.trip.value, caller.value, None) {
      return Err(IntegrityError);
    }
    var id := db.PutReview(None, NewReview(v, caller.value));
    r := Ok(id);
  }

  /** The submitted reviewer is the one checked for participation, while
      the caller is the one stored: a user who never took part in a trip can
      store a review of it. */
  lemma StoredReviewerNeedNotParticipate()
    ensures var participants := map[3 := ParticipantRow(1, 7, Driver)];
      var v := ReviewSerializer(ReviewInput(Some(1), Some(1), Some(7), Given(5), None), false, None, {1, 2}, {7}, map[], participants);
      && v.Ok? && NewReview(v.value, 2).reviewer == 2 && !Participates(participants, 2, 7)
  {
    var participants := map[3 := ParticipantRow(1, 7, Driver)];
    assert Participates(participants, 1, 7) by {
      assert participants[3].user == 1 && participants[3].trip == 7;
    }
  }

  /** The row an update saves: the validated references (an accepted
      update names all three) and, for rating and comment, the given value
      or else the stored one. */
  function UpdatedReview(row: ReviewRow, data: ReviewInput, v: ReviewInput): ReviewRow
    requires v.user.Some? && v.trip.Some? && v.reviewer.Some?
    requires v.rating.Given? ==> v.rating.value >= 0
  {
    ReviewRow(v.user.value, v.reviewer.value, v.trip.value,
              if v.rating.Given? then Some(v.rating.value as nat) else row.rating,
              if data.comment.Some? then v.comment else row.comment)
  }

  /** `update` and `partial_update`: only a review the caller wrote; the
      serializer runs against it and the result, reviewer included, is saved. */
  method UpdateReview(db: Database, caller: Caller, pk: Id, data: ReviewInput, partial: bool) returns (r: Result<Id>)
    requires db.Valid()
    modifies db
    ensures db.Valid()
    ensures r.Ok? <==>
      && HasPermission(IsAuthenticated, caller, old(db.tables.users).Keys)
      && pk in old(db.tables.reviews) && old(db.tables.reviews)[pk].reviewer == caller.value
      && ReviewSerializer(data, partial, Some(pk), old(db.tables.users).Keys, old(db.tables.trips).Keys, old(db.tables.reviews), old(db.tables.participants)).Ok?
    ensures r.Ok? ==>
      && r.value == pk
      && db.tables == old(db.tables).(reviews := old(db.tables.reviews)[pk := UpdatedReview(old(db.tables.reviews)[pk], data,
           ReviewSerializer(data, partial, Some(pk), old(db.tables.users).Keys, old(db.tables.trips).Keys, old(db.tables.reviews), old(db.tables.participants)).value)])
    ensures r.Err? ==> db.tables == old(db.tables)
  {
    if !HasPermission(IsAuthenticated, caller, db.tables.users.Keys) {
      return Err(NotAuthenticated);
    }
    var found := GetObject(ReviewScope(if partial then PartialUpdate else Update, caller.value, db.tables.reviews), pk);
    if found.Err? {
      return Err(found.error);
    }
    var checked := ReviewSerializer(data, partial, Some(pk), db.tables.users.Keys, db.tables.trips.Keys, db.tables.reviews, db.tables.participants);
    if checked.Err? {
      return Err(checked.error);
    }
    var row := UpdatedReview(db.tables.reviews[pk], data, checked.value);
    assert db.tables.reviews[pk].user in db.tables.users && db.tables.reviews[pk].reviewer in db.tables.users;
    var id := db.PutReview(Some(pk), row);
    r := Ok(id);
  }

  /** `destroy`: only a review the caller wrote. */
  method DestroyReview(db: Database, caller: Caller, pk: Id) returns (r: Result<()>)
    requires db.Valid()
    modifies db
    ensures db.Valid()
    ensures r.Ok? <==>
      HasPermission(IsAuthenticated, caller, old(db.tables.users).Keys)
      && pk in old(db.tables.reviews) && old(db.tables.reviews)[pk].reviewer == caller.value
    ensures r.Ok? ==> db.tables == old(db.tables).(reviews := old(db.tables.reviews) - {pk})
    ensures r.Err? ==> db.tables == old(db.tables)
  {
    if !HasPermission(IsAuthenticated, caller, db.tables.users.Keys) {
      return Err(NotAuthenticated);
    }
    var found := GetObject(ReviewScope(Destroy, caller.value, db.tables.reviews), pk);
    if found.Err? {
      return Err(found.error);
    }
    db.RemoveReview(pk);
    r := Ok(());
  }
}
