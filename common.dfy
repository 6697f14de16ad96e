/** Types shared by every part of the model: optional values, the outcomes a
    request can end in, the actions of a REST viewset and the permission
    classes the viewsets pick from. */
module Common {

  datatype Option<+T> = None | Some(value: T)

  /** A field of submitted or validated data that may be left out, present
      but None (an explicit JSON null, or what a validator that returns
      nothing leaves), or present with a value. */
  datatype Field<+T> = Absent | Null | Given(value: T)

  /** Primary keys. Every table draws its keys from one counter. */
  type Id = nat

  /** The identity a request carries: None for an anonymous request. */
  type Caller = Option<Id>

  /** Why a serializer or a model's `full_clean` refused the data (HTTP 400). */
  datatype Reason =
    | Required(field: string)
    | Blank(field: string)
    | TooLong(field: string)
    | NullCharacter(field: string)
    | UnknownReference(field: string)
    | InvalidChoice(field: string)
    | InvalidPlate
    | PlateAlreadyRegistered
    | NotUnique
    | InvalidRole
    | SameCity
    | DepartureInPast
    | DepartureTooFar
    | InvalidStatus
    | JoinRequestExists
    | CreatorCannotJoin
    | RatingOutOfRange
    | UserNotParticipant
    | ReviewerNotParticipant
    | InvalidDocumentNumber
    | InvalidEmail
    | PictureTooLarge
    | NoFileName
    | EmptyFile
    | InvalidImage

  /** An exception no handler catches: the request ends with HTTP 500. */
  datatype Crash = TypeError | AttributeError | ValueError | AssertionError | FieldError | DataError

  datatype Error =
    | NotAuthenticated
    | PermissionDenied
    | NotFound
    | Invalid(reason: Reason)
    | IntegrityError
    | ServerError(crash: Crash)

  datatype Result<+T> = Ok(value: T) | Err(error: Error)

  /** The actions of a DRF ModelViewSet. */
  datatype Action = List | Retrieve | Create | Update | PartialUpdate | Destroy

  /** The two DRF permission classes the viewsets use. */
  datatype PermissionClass = AllowAny | IsAuthenticated

  /** Whether a request gets past authentication and the permission class. A
      token names a user id, and authentication fails, whatever the permission
      class, unless that user still exists; IsAuthenticated also refuses the
      anonymous request. */
  predicate HasPermission(p: PermissionClass, caller: Caller, users: set<Id>) {
    (caller.None? || caller.value in users) && (p == AllowAny || caller.Some?)
  }

  /** The serializer class a viewset's `get_serializer_class` picks: the
      detail (or create) serializer, or the list one. */
  datatype SerializerKind = DetailSerializer | ListSerializer

  /** The actions that act on one stored row and so go through `get_object`. */
  predicate OnObject(a: Action) {
    a in {Retrieve, Update, PartialUpdate, Destroy}
  }

  /** `get_object`: the key must be in the action's queryset, else 404. */
  function GetObject(scope: set<Id>, pk: Id): (r: Result<Id>)
    ensures r.Ok? <==> pk in scope
    ensures r.Ok? ==> r.value == pk
    ensures r.Err? ==> r.error == NotFound
  {
    if pk in scope then Ok(pk) else Err(NotFound)
  }

  /** A rendered field value. */
  datatype Value = Number(n: int) | Text(s: string)
}
