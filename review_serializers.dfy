/** The review app's serializers (review/serializers.py): the rating range,
    the participation checks of `validate`, the (user, trip, reviewer)
    uniqueness the framework derives from the model, and the list
    rendering's reviewer name. */
module ReviewSerializers {

  import opened Common
  import opened Text
  import opened Schema
  import opened Fields
  import opened ReviewModels

  /** What a client submits for a review; None for a field left out. The
      rating column is nullable, so the rating may also be an explicit null. */
  datatype ReviewInput = ReviewInput(
    user: Option<Id>,
    reviewer: Option<Id>,
    trip: Option<Id>,
    rating: Field<int>,
    comment: Option<string>)

  /** `validate_rating`: from 1 to 5. The field's own lower bound of 0 (a
      positive-integer column) is subsumed. */
  function ValidateRating(value: int): (r: Result<nat>)
    ensures r.Ok? <==> 1 <= value <= 5
    ensures r.Ok? ==> r.value == value
    ensures r.Err? ==> r.error == Invalid(RatingOutOfRange)
  {
    if value < 1 || value > 5 then Err(Invalid(RatingOutOfRange)) else Ok(value)
  }

  /** A participant row exists for the given user and trip; None matches no
      row, as SQL NULL does. */
  predicate ParticipantGiven(participants: map<Id, ParticipantRow>, user: Option<Id>, trip: Option<Id>) {
    user.Some? && trip.Some? && Participates(participants, user.value, trip.value)
  }

  /** `ReviewDetailSerializer.validate` as written: the reviewed user must
      have taken part, then the reviewer; on success it falls off the end and
      returns None instead of the data. */
  function ValidateReviewAsWritten(data: ReviewInput, participants: map<Id, ParticipantRow>): (r: Result<Option<ReviewInput>>)
    ensures r.Ok? ==> r.value == None
  {
    if !ParticipantGiven(participants, data.user, data.trip) then Err(Invalid(UserNotParticipant))
    else if !ParticipantGiven(participants, data.reviewer, data.trip) then Err(Invalid(ReviewerNotParticipant))
    else Ok(None)
  }

  /** The framework asserts that `validate` returned the data; None fails the
      assertion. */
  function RunValidateAsWritten(data: ReviewInput, participants: map<Id, ParticipantRow>): Result<ReviewInput> {
    match ValidateReviewAsWritten(data, participants)
    case Err(e) => Err(e)
    case Ok(None) => Err(ServerError(AssertionError))
    case Ok(Some(d)) => Ok(d)
  }

  /** `validate` returning the data it checked. The view layer uses this one. */
  function ValidateReview(data: ReviewInput, participants: map<Id, ParticipantRow>): (r: Result<ReviewInput>)
    ensures r.Ok? <==> ParticipantGiven(participants, data.user, data.trip) && ParticipantGiven(participants, data.reviewer, data.trip)
    ensures r.Ok? ==> r.value == data
    ensures !ParticipantGiven(participants, data.user, data.trip) ==> r == Err(Invalid(UserNotParticipant))
  {
    match ValidateReviewAsWritten(data, participants)
    case Err(e) => Err(e)
    case Ok(_) => Ok(data)
  }

  /** As written, a review that passes both participation checks ends in a
      server error, and one that fails them in the same refusal as the
      corrected check: no review can be stored through the API. */
  lemma ReviewValidationAsWrittenNeverSucceeds(data: ReviewInput, participants: map<Id, ParticipantRow>)
    ensures RunValidateAsWritten(data, participants).Err?
    ensures ValidateReview(data, participants).Ok? ==> RunValidateAsWritten(data, participants) == Err(ServerError(AssertionError))
    ensures ValidateReview(data, participants).Err? ==> RunValidateAsWritten(data, participants) == ValidateReview(data, participants)
  {
  }

  /** Whether a stored review other than `instance` has this (user, trip,
      reviewer); the framework's unique-together validator. */
  predicate ReviewTaken(reviews: map<Id, ReviewRow>, user: Id, trip: Id, reviewer: Id, instance: Option<Id>) {
    exists j :: j in reviews && instance != Some(j)
      && reviews[j].user == user && reviews[j].trip == trip && reviews[j].reviewer == reviewer
  }

  /** The whole detail serializer run for a create (`instance` None), a full
      update or a partial one. An explicit null rating passes the nullable
      field and reaches `validate_rating`, whose `None < 1` raises TypeError;
      that escapes whatever the other fields hold. Otherwise the three
      references must name stored rows (and be present unless partial) and
      the rating must pass, and a comment must hold no U+0000. The
      framework's unique-together validator fills the references an update
      leaves out from the instance into a copy of the data and refuses a
      triple another row holds; `validate` then sees only the references
      actually submitted, so a partial update has to name all three again. */
  function ReviewSerializer(data: ReviewInput, partial: bool, instance: Option<Id>, users: set<Id>,
                            trips: set<Id>, reviews: map<Id, ReviewRow>, participants: map<Id, ParticipantRow>): (r: Result<ReviewInput>)
    requires instance.Some? ==> instance.value in reviews
    requires partial ==> instance.Some?
    ensures r == Err(ServerError(TypeError)) <==> data.rating.Null?
    ensures r.Ok? ==> r.value.user.Some? && r.value.trip.Some? && r.value.reviewer.Some?
    ensures r.Ok? ==> ParticipantGiven(participants, r.value.user, r.value.trip) && ParticipantGiven(participants, r.value.reviewer, r.value.trip)
    ensures r.Ok? ==> !ReviewTaken(reviews, r.value.user.value, r.value.trip.value, r.value.reviewer.value, instance)
    ensures r.Ok? ==> r.value == data.(comment := StrippedComment(data.comment))
    ensures r.Ok? && data.rating.Given? ==> 1 <= data.rating.value <= 5
    ensures r.Ok? && data.comment.Some? ==> '\0' !in r.value.comment.value
    ensures r.Ok? ==> data.user.value in users && data.reviewer.value in users && data.trip.value in trips
  {
    if data.rating.Null? then Err(ServerError(TypeError))
    else if !partial && data.user.None? then Err(Invalid(Required("user")))
    else if data.user.Some? && data.user.value !in users then Err(Invalid(UnknownReference("user")))
    else if !partial && data.reviewer.None? then Err(Invalid(Required("reviewer")))
    else if data.reviewer.Some? && data.reviewer.value !in users then Err(Invalid(UnknownReference("reviewer")))
    else if !partial && data.trip.None? then Err(Invalid(Required("trip")))
    else if data.trip.Some? && data.trip.value !in trips then Err(Invalid(UnknownReference("trip")))
    else if data.rating.Given? && ValidateRating(data.rating.value).Err? then Err(Invalid(RatingOutOfRange))
    else if data.comment.Some? && CheckCharField("comment", data.comment.value, true, None).Err? then
      Err(CheckCharField("comment", data.comment.value, true, None).error)
    else
      var stored := if instance.Some? then reviews[instance.value] else ReviewRow(0, 0, 0, None, None);
      var user := if data.user.Some? then data.user.value else stored.user;
      var trip := if data.trip.Some? then data.trip.value else stored.trip;
      var reviewer := if data.reviewer.Some? then data.reviewer.value else stored.reviewer;
      if ReviewTaken(reviews, user, trip, reviewer, instance) then Err(Invalid(NotUnique))
      else ValidateReview(data.(comment := StrippedComment(data.comment)), participants)
  }

  /** The framework strips surrounding whitespace from the comment. */
  function StrippedComment(comment: Option<string>): (r: Option<string>)
    ensures r.Some? <==> comment.Some?
    ensures r.Some? ==> r.value == Strip(comment.value)
  {
    if comment.Some? then Some(Strip(comment.value)) else None
  }

  /** A partial update that leaves out the user, the trip or the reviewer
      is refused: `validate` looks the missing reference up as NULL, which
      takes part in no trip. A rating alone (as in `{"rating": 4}`) is
      refused as a user who did not take part, unless another review holds
      the stored triple. */
  lemma PartialReviewUpdateNeedsTheTriple(data: ReviewInput, instance: Id, users: set<Id>, trips: set<Id>,
                                          reviews: map<Id, ReviewRow>, participants: map<Id, ParticipantRow>)
    requires instance in reviews
    requires data.user.None? || data.trip.None? || data.reviewer.None?
    ensures ReviewSerializer(data, true, Some(instance), users, trips, reviews, participants).Err?
    ensures data.user.None? && data.trip.None? && data.reviewer.None? && (data.rating.Absent? || (data.rating.Given? && 1 <= data.rating.value <= 5))
            && (data.comment.Some? ==> '\0' !in Strip(data.comment.value)) ==>
      var r := ReviewSerializer(data, true, Some(instance), users, trips, reviews, participants);
      r == Err(Invalid(UserNotParticipant)) || r == Err(Invalid(NotUnique))
  {
    if data.user.None? {
      assert !ParticipantGiven(participants, data.(comment := StrippedComment(data.comment)).user, data.trip);
    }
  }

  /** `ReviewListSerializer.get_reviewer` as written: the full name of the
      review's `user`, the reviewed user. */
  function ReviewerDisplay(review: ReviewRow, users: map<Id, UserRow>): string
    requires review.user in users
  {
    users[review.user].firstName + " " + users[review.user].lastName
  }

  /** The displayed "reviewer" does not depend on who wrote the review: a
      review by anyone else shows the same name, which is the reviewer's own
      only when the two users share a full name. */
  lemma ReviewerDisplayShowsReviewedUser(review: ReviewRow, users: map<Id, UserRow>, other: Id)
    requires review.user in users && review.reviewer in users
    ensures ReviewerDisplay(review.(reviewer := other), users) == ReviewerDisplay(review, users)
    ensures ReviewerDisplay(review, users) == ReviewerDisplay(review.(user := review.reviewer), users)
      <==> users[review.user].firstName + " " + users[review.user].lastName
           == users[review.reviewer].firstName + " " + users[review.reviewer].lastName
  {
  }
}
