/** The review model (review/models.py). Its row, its nullable rating and
    comment, and its (user, trip, reviewer) uniqueness live in the schema; what
    remains is `clean`, a read-only check against the trip's participants. */
module ReviewModels {

  import opened Common
  import opened Schema

  /** Whether `user` has a participant row for `trip`. */
  predicate Participates(participants: map<Id, ParticipantRow>, user: Id, trip: Id) {
    exists p :: p in participants && participants[p].user == user && participants[p].trip == trip
  }

  /** `Review.clean` as written: it filters `trip.participants`, a set of
      users, by a `user` field users do not have, so the lookup raises
      FieldError before any row is looked at. */
  function CleanAsWritten(review: ReviewRow, participants: map<Id, ParticipantRow>): Result<()> {
    Err(ServerError(FieldError))
  }

  /** `Review.clean` as its documentation states it: the reviewer must have
      taken part in the trip. */
  function Clean(review: ReviewRow, participants: map<Id, ParticipantRow>): (r: Result<()>)
    ensures r.Ok? <==> Participates(participants, review.reviewer, review.trip)
    ensures r.Err? ==> r.error == Invalid(ReviewerNotParticipant)
  {
    if Participates(participants, review.reviewer, review.trip) then Ok(()) else Err(Invalid(ReviewerNotParticipant))
  }

  /** The two differ on every review the check is meant to let through. */
  lemma CleanAsWrittenRefusesParticipants(review: ReviewRow, participants: map<Id, ParticipantRow>)
    requires Participates(participants, review.reviewer, review.trip)
    ensures Clean(review, participants).Ok?
    ensures CleanAsWritten(review, participants) == Err(ServerError(FieldError))
  {
  }

  /** Since trip creation is the only way a participant row comes to be, a
      review passes `clean` only when its reviewer created the trip. */
  lemma CleanPassesOnlyTheCreator(review: ReviewRow, participants: map<Id, ParticipantRow>, trips: map<Id, TripRow>)
    requires CreatorsDrive(participants, trips)
    requires Clean(review, participants).Ok?
    ensures review.trip in trips && trips[review.trip].creator == review.reviewer
  {
    var p :| p in participants && participants[p].user == review.reviewer && participants[p].trip == review.trip;
  }
}
