/** The user serializers (authentication/serializers.py): the document-number
    and picture validators, the field stage of the create/update serializer,
    and what the list serializer exposes. */
module AccountSerializers {

  import opened Common
  import opened Text
  import opened Schema
  import opened Fields

  /** An uploaded picture: its file name, its size in bytes, and whether its
      content is an image the imaging library can open. */
  datatype Picture = Picture(name: string, size: nat, isImage: bool)

  /** The largest picture accepted, in bytes: five mebibytes (the message
      shown when it is exceeded speaks of 2MB). */
  const MaxPictureSize: nat := 5 * 1024 * 1024

  /** `validate_profile_picture` as written: it refuses a larger file and
      otherwise returns nothing, so the framework stores None for the field. */
  function ValidateProfilePictureAsWritten(value: Picture): (r: Result<Option<Picture>>)
    ensures r.Ok? <==> value.size <= MaxPictureSize
    ensures r.Ok? ==> r.value == None
    ensures r.Err? ==> r.error == Invalid(PictureTooLarge)
  {
    if value.size > MaxPictureSize then Err(Invalid(PictureTooLarge)) else Ok(None)
  }

  /** `validate_profile_picture` returning the picture it checked. */
  function ValidateProfilePicture(value: Picture): (r: Result<Picture>)
    ensures r.Ok? <==> value.size <= MaxPictureSize
    ensures r.Ok? ==> r.value == value
    ensures r.Err? ==> r.error == Invalid(PictureTooLarge)
  {
    match ValidateProfilePictureAsWritten(value)
    case Err(e) => Err(e)
    case Ok(_) => Ok(value)
  }

  /** The two picture checks refuse the same files; as written every accepted
      picture is lost. */
  lemma PictureChecksAgree(value: Picture)
    ensures ValidateProfilePictureAsWritten(value).Ok? <==> ValidateProfilePicture(value).Ok?
    ensures ValidateProfilePictureAsWritten(value).Ok? ==> ValidateProfilePictureAsWritten(value).value != Some(value)
    ensures ValidateProfilePicture(value.(size := MaxPictureSize)).Ok?
    ensures ValidateProfilePicture(value.(size := MaxPictureSize + 1)).Err?
  {
  }

  /** `validate_document_number` as written: `len(value) != 8 or int(value)
      <= 0 or not value.isdigit()`. `int()` runs before `isdigit()`, so an
      eight-character value that is not an integer raises ValueError; a value
      that passes is not returned, so the field becomes None. */
  function ValidateDocumentNumberAsWritten(value: string): (r: Result<Option<string>>)
    ensures r.Ok? ==> r.value == None
    ensures r == Err(ServerError(ValueError)) <==> |value| == 8 && PyInt(value).None?
  {
    if |value| != 8 then Err(Invalid(InvalidDocumentNumber))
    else match PyInt(value)
      case None => Err(ServerError(ValueError))
      case Some(n) =>
        if n <= 0 || !IsDigitString(value) then Err(Invalid(InvalidDocumentNumber))
        else Ok(None)
  }

  /** The rule the check means: eight digits, not all of them zero. The
      serializer run uses this one, and returns the value. */
  function ValidateDocumentNumber(value: string): (r: Result<string>)
    ensures r.Ok? <==> |value| == 8 && IsDigitString(value) && exists i :: 0 <= i < |value| && value[i] != '0'
    ensures r.Ok? ==> r.value == value
    ensures r.Err? ==> r.error == Invalid(InvalidDocumentNumber)
  {
    if |value| == 8 && IsDigitString(value) && exists i :: 0 <= i < |value| && value[i] != '0'
    then Ok(value)
    else Err(Invalid(InvalidDocumentNumber))
  }

  /** Wherever the written check does not crash, it accepts exactly the
      values the intended rule accepts. */
  lemma DocumentChecksAgree(value: string)
    requires ValidateDocumentNumberAsWritten(value) != Err(ServerError(ValueError))
    ensures ValidateDocumentNumberAsWritten(value).Ok? <==> ValidateDocumentNumber(value).Ok?
  {
    if |value| == 8 && IsDigitString(value) {
      PyIntOfDigits(value);
      DecimalValueZero(value);
    }
  }

  /** An input that shows the difference: eight letters crash the written
      check and are refused by the intended one. */
  lemma LettersCrashDocumentCheck()
    ensures ValidateDocumentNumberAsWritten("abcdefgh") == Err(ServerError(ValueError))
    ensures ValidateDocumentNumber("abcdefgh") == Err(Invalid(InvalidDocumentNumber))
  {
    assert !IsDigit("abcdefgh"[0]);
    assert StripStart("abcdefgh") == "abcdefgh";
    assert StripEnd("abcdefgh") == "abcdefgh";
  }

  /** An ordinary number passes both checks; the written one then loses it. */
  lemma DocumentAccepted()
    ensures ValidateDocumentNumber("12345678") == Ok("12345678")
    ensures ValidateDocumentNumberAsWritten("12345678") == Ok(None)
  {
    var s := "12345678";
    assert IsDigitString(s);
    assert s[0] != '0';
    PyIntOfDigits(s);
    DecimalValueZero(s);
  }

  /** The framework's image-field stage for `profile_picture`, run before
      `validate_profile_picture`: the file needs a name, may not be empty,
      its name is bounded by the column's `max_length`, and its content must
      be an image. The first failing check is reported. */
  function CheckPictureField(value: Picture): (r: Result<Picture>)
    ensures r.Ok? <==> value.name != [] && 0 < value.size && |value.name| <= PictureNameLength && value.isImage
    ensures r.Ok? ==> r.value == value
    ensures value.name == [] ==> r == Err(Invalid(NoFileName))
    ensures value.name != [] && value.size == 0 ==> r == Err(Invalid(EmptyFile))
    ensures value.name != [] && 0 < value.size && PictureNameLength < |value.name| ==> r == Err(Invalid(TooLong("profile_picture")))
    ensures r.Err? ==> r.error.Invalid?
  {
    if value.name == [] then Err(Invalid(NoFileName))
    else if value.size == 0 then Err(Invalid(EmptyFile))
    else if |value.name| > PictureNameLength then Err(Invalid(TooLong("profile_picture")))
    else if !value.isImage then Err(Invalid(InvalidImage))
    else Ok(value)
  }

  /** The whole check a given picture goes through: the image-field stage,
      then the size limit of `validate_profile_picture`. */
  predicate PictureAccepted(value: Picture) {
    CheckPictureField(value).Ok? && ValidateProfilePicture(value).Ok?
  }

  /** A picture is accepted exactly when it is a named, non-empty image of at
      most 5 MiB whose name has at most 100 characters: an empty file or one
      that is not an image is refused whatever its size. */
  lemma PictureAcceptedIff(value: Picture)
    ensures PictureAccepted(value) <==>
      value.name != [] && 0 < value.size && value.size <= MaxPictureSize
      && |value.name| <= PictureNameLength && value.isImage
    ensures !PictureAccepted(value.(size := 0)) && !PictureAccepted(value.(isImage := false))
  {
  }

  /** All zeros and seven digits are refused. */
  lemma DocumentRefused()
    ensures ValidateDocumentNumber("00000000").Err? && ValidateDocumentNumber("1234567").Err?
  {
  }

  /** What a client submits to the create/update serializer; None for a field
      left out. The picture may also be an explicit null. Birth date is not
      modelled. */
  datatype UserInput = UserInput(
    email: Option<string>,
    password: Option<string>,
    firstName: Option<string>,
    lastName: Option<string>,
    aboutMe: Option<string>,
    documentNumber: Option<string>,
    phoneNumber: Option<string>,
    profilePicture: Field<Picture>)

  /** The validated data the serializer hands to `create` or `update`. */
  datatype UserData = UserData(
    email: Option<string>,
    password: Option<string>,
    firstName: Option<string>,
    lastName: Option<string>,
    aboutMe: Option<string>,
    documentNumber: Field<string>,
    phoneNumber: Option<string>,
    profilePicture: Field<Picture>)

  /** Whether a stored user other than `instance` has the e-mail: the
      framework's unique validator for the field. */
  predicate EmailInUse(users: map<Id, UserRow>, email: string, instance: Option<Id>) {
    exists j :: j in users && instance != Some(j) && users[j].email == email
  }

  /** The framework strips surrounding whitespace from every text field. */
  function Cleaned(value: Option<string>): (r: Option<string>)
    ensures r.Some? <==> value.Some?
    ensures r.Some? ==> r.value == Strip(value.value)
  {
    if value.Some? then Some(Strip(value.value)) else None
  }

  /** The e-mail field's stage: the framework's text stage (stripped, not
      blank, the column's length, no U+0000), then the address format
      (`validEmail`, the framework's EmailValidator) and uniqueness among the
      other users; the first refusal is reported. */
  function CheckEmailField(value: string, instance: Option<Id>, users: map<Id, UserRow>, validEmail: string -> bool): (r: Result<()>)
    ensures r.Ok? <==>
      var e := Strip(value); 0 < |e| <= EmailLength && '\0' !in e && validEmail(e) && !EmailInUse(users, e, instance)
    ensures r.Err? ==> r.error.Invalid?
  {
    var e := Strip(value);
    if CheckCharField("email", value, false, Some(EmailLength)).Err? then Err(CheckCharField("email", value, false, Some(EmailLength)).error)
    else if !validEmail(e) then Err(Invalid(InvalidEmail))
    else if EmailInUse(users, e, instance) then Err(Invalid(NotUnique))
    else Ok(())
  }

  /** The text stage of an optional field, when the field is given. */
  function CheckGiven(name: string, value: Option<string>, allowBlank: bool, maxLength: nat): (r: Result<()>)
    ensures r.Ok? <==> value.Some? ==> CheckCharField(name, value.value, allowBlank, Some(maxLength)).Ok?
    ensures r.Err? ==> r.error.Invalid?
  {
    if value.Some? && CheckCharField(name, value.value, allowBlank, Some(maxLength)).Err? then
      Err(CheckCharField(name, value.value, allowBlank, Some(maxLength)).error)
    else Ok(())
  }

  /** The fields every version checks alike, in the serializer's field
      order: those a full submission must carry, a well-formed e-mail that no
      other user has, a non-blank password, and names and a description that
      may be blank; each text within its column's length and free of U+0000.
      Phone numbers are not parsed here. */
  function CheckUserFields(data: UserInput, partial: bool, instance: Option<Id>, users: map<Id, UserRow>, validEmail: string -> bool): (r: Result<()>)
    ensures r.Ok? <==>
      && (!partial ==> data.email.Some? && data.password.Some? && data.documentNumber.Some? && data.phoneNumber.Some?)
      && (data.email.Some? ==> CheckEmailField(data.email.value, instance, users, validEmail).Ok?)
      && (data.password.Some? ==> var p := Strip(data.password.value); 0 < |p| <= PasswordLength && '\0' !in p)
      && (data.firstName.Some? ==> var f := Strip(data.firstName.value); |f| <= NameLength && '\0' !in f)
      && (data.lastName.Some? ==> var l := Strip(data.lastName.value); |l| <= NameLength && '\0' !in l)
      && (data.aboutMe.Some? ==> var a := Strip(data.aboutMe.value); |a| <= AboutMeLength && '\0' !in a)
    ensures r.Err? ==> r.error.Invalid?
  {
    if !partial && data.email.None? then Err(Invalid(Required("email")))
    else if data.email.Some? && CheckEmailField(data.email.value, instance, users, validEmail).Err? then
      CheckEmailField(data.email.value, instance, users, validEmail)
    else if !partial && data.password.None? then Err(Invalid(Required("password")))
    else if CheckGiven("password", data.password, false, PasswordLength).Err? then CheckGiven("password", data.password, false, PasswordLength)
    else if CheckGiven("first_name", data.firstName, true, NameLength).Err? then CheckGiven("first_name", data.firstName, true, NameLength)
    else if CheckGiven("last_name", data.lastName, true, NameLength).Err? then CheckGiven("last_name", data.lastName, true, NameLength)
    else if CheckGiven("about_me", data.aboutMe, true, AboutMeLength).Err? then CheckGiven("about_me", data.aboutMe, true, AboutMeLength)
    else if !partial && data.documentNumber.None? then Err(Invalid(Required("document_number")))
    else if !partial && data.phoneNumber.None? then Err(Invalid(Required("phone_number")))
    else Ok(())
  }

  /** The document field's stage as written: the framework's text stage,
      then `validate_document_number` as written. */
  function CheckDocumentFieldAsWritten(value: string): (r: Result<Option<string>>)
    ensures r.Ok? ==> r.value == None
  {
    var v := Strip(value);
    if CheckCharField("document_number", value, false, Some(DocumentNumberLength)).Err? then
      Err(CheckCharField("document_number", value, false, Some(DocumentNumberLength)).error)
    else ValidateDocumentNumberAsWritten(v)
  }

  /** The document field's stage with the intended check. */
  function CheckDocumentField(value: string): (r: Result<string>)
    ensures r.Ok? <==> ValidateDocumentNumber(Strip(value)).Ok?
    ensures r.Ok? ==> r.value == Strip(value)
  {
    var v := Strip(value);
    if CheckCharField("document_number", value, false, Some(DocumentNumberLength)).Err? then
      Err(CheckCharField("document_number", value, false, Some(DocumentNumberLength)).error)
    else ValidateDocumentNumber(v)
  }

  /** The document number given makes the written validator raise
      ValueError. */
  predicate DocumentCrashes(data: UserInput) {
    data.documentNumber.Some? && CheckDocumentFieldAsWritten(data.documentNumber.value) == Err(ServerError(ValueError))
  }

  /** `CustomUserCreateSerializer` as written. The framework runs every
      field in declaration order and collects the refusals, but an exception
      that is no refusal escapes whatever the other fields hold: the
      ValueError of the document validator, and then, for an explicit null
      picture, the AttributeError `validate_profile_picture` raises when it
      asks None for its size. A document number or picture that passes its
      validator is replaced by None in the validated data. */
  function UserSerializerAsWritten(data: UserInput, partial: bool, instance: Option<Id>, users: map<Id, UserRow>, validEmail: string -> bool): (r: Result<UserData>)
    ensures r == Err(ServerError(ValueError)) <==> DocumentCrashes(data)
    ensures r == Err(ServerError(AttributeError)) <==> !DocumentCrashes(data) && data.profilePicture.Null?
    ensures r.Ok? ==> data.profilePicture.Given? ==> PictureAccepted(data.profilePicture.value)
    ensures r.Ok? ==> (data.documentNumber.Some? ==> r.value.documentNumber == Null)
    ensures r.Ok? ==> (data.profilePicture.Given? ==> r.value.profilePicture == Null)
  {
    if DocumentCrashes(data) then Err(ServerError(ValueError))
    else if data.profilePicture.Null? then Err(ServerError(AttributeError))
    else if CheckUserFields(data, partial, instance, users, validEmail).Err? then Err(CheckUserFields(data, partial, instance, users, validEmail).error)
    else
      var document :=
        if data.documentNumber.None? then Ok(Absent)
        else match CheckDocumentFieldAsWritten(data.documentNumber.value)
          case Err(e) => Err(e)
          case Ok(_) => Ok(Null);
      var picture :=
        if data.profilePicture.Absent? then Ok(Absent)
        else if CheckPictureField(data.profilePicture.value).Err? then Err(CheckPictureField(data.profilePicture.value).error)
        else match ValidateProfilePictureAsWritten(data.profilePicture.value)
          case Err(e) => Err(e)
          case Ok(_) => Ok(Null);
      if document.Err? then Err(document.error)
      else if picture.Err? then Err(picture.error)
      else Ok(UserData(Cleaned(data.email), Cleaned(data.password), Cleaned(data.firstName), Cleaned(data.lastName),
                       Cleaned(data.aboutMe), document.value, data.phoneNumber, picture.value))
  }

  /** The serializer with validators that return their value. The view layer
      uses this one. `validate_profile_picture` still asks an explicit null
      for its size. */
  function UserSerializer(data: UserInput, partial: bool, instance: Option<Id>, users: map<Id, UserRow>, validEmail: string -> bool): (r: Result<UserData>)
    ensures r == Err(ServerError(AttributeError)) <==> data.profilePicture.Null?
    ensures r.Ok? <==>
      && CheckUserFields(data, partial, instance, users, validEmail).Ok?
      && (data.documentNumber.Some? ==> ValidateDocumentNumber(Strip(data.documentNumber.value)).Ok?)
      && !data.profilePicture.Null?
      && (data.profilePicture.Given? ==> PictureAccepted(data.profilePicture.value))
    ensures r.Ok? ==> r.value.documentNumber == (if data.documentNumber.Some? then Given(Strip(data.documentNumber.value)) else Absent)
    ensures r.Ok? ==> r.value.profilePicture == data.profilePicture
    ensures r.Ok? ==> r.value.email == Cleaned(data.email) && r.value.password == Cleaned(data.password)
    ensures r.Ok? ==> r.value.firstName == Cleaned(data.firstName) && r.value.lastName == Cleaned(data.lastName)
    ensures r.Ok? ==> r.value.aboutMe == Cleaned(data.aboutMe) && r.value.phoneNumber == data.phoneNumber
    ensures r.Ok? && r.value.email.Some? ==> validEmail(r.value.email.value) && !EmailInUse(users, r.value.email.value, instance)
  {
    if data.profilePicture.Null? then Err(ServerError(AttributeError))
    else if CheckUserFields(data, partial, instance, users, validEmail).Err? then Err(CheckUserFields(data, partial, instance, users, validEmail).error)
    else if data.documentNumber.Some? && CheckDocumentField(data.documentNumber.value).Err? then Err(CheckDocumentField(data.documentNumber.value).error)
    else if data.profilePicture.Given? && CheckPictureField(data.profilePicture.value).Err? then Err(CheckPictureField(data.profilePicture.value).error)
    else if data.profilePicture.Given? && ValidateProfilePicture(data.profilePicture.value).Err? then Err(Invalid(PictureTooLarge))
    else Ok(UserData(Cleaned(data.email), Cleaned(data.password), Cleaned(data.firstName), Cleaned(data.lastName),
                     Cleaned(data.aboutMe),
                     if data.documentNumber.Some? then Given(Strip(data.documentNumber.value)) else Absent,
                     data.phoneNumber, data.profilePicture))
  }

  /** As written, every registration that gets through validation hands a
      None document number to the model, whose column is NOT NULL, where the
      intended serializer passes the number on. */
  lemma RegistrationLosesDocumentNumber(data: UserInput, users: map<Id, UserRow>, validEmail: string -> bool)
    requires UserSerializerAsWritten(data, false, None, users, validEmail).Ok?
    ensures UserSerializerAsWritten(data, false, None, users, validEmail).value.documentNumber == Null
    ensures UserSerializer(data, false, None, users, validEmail).Ok?
    ensures UserSerializer(data, false, None, users, validEmail).value.documentNumber == Given(Strip(data.documentNumber.value))
  {
    var doc := Strip(data.documentNumber.value);
    assert ValidateDocumentNumberAsWritten(doc).Ok?;
    DocumentChecksAgree(doc);
  }

  /** A registration whose document number is eight letters ends in the
      server error, even when its e-mail is blank and its phone number
      missing: the framework collects those refusals and is then cut short
      by the ValueError. */
  lemma LetterDocumentCrashesRegistration(data: UserInput, partial: bool, instance: Option<Id>, users: map<Id, UserRow>, validEmail: string -> bool)
    requires data.documentNumber == Some("abcdefgh")
    ensures UserSerializerAsWritten(data, partial, instance, users, validEmail) == Err(ServerError(ValueError))
  {
    LettersCrashDocumentCheck();
    assert CheckDocumentFieldAsWritten("abcdefgh") == ValidateDocumentNumberAsWritten("abcdefgh");
  }

  /** `CustomUserListSerializer`: only the key and the two names. */
  function RenderUserList(id: Id, u: UserRow): (r: map<string, Value>)
    ensures r.Keys == {"id", "first_name", "last_name"}
    ensures r["id"] == Number(id) && r["first_name"] == Text(u.firstName) && r["last_name"] == Text(u.lastName)
  {
    map["id" := Number(id), "first_name" := Text(u.firstName), "last_name" := Text(u.lastName)]
  }

  /** `CustomUserCreateSerializer`'s rendering of a saved user: its declared
      fields, with the password field holding the stored hash. */
  function RenderUserDetail(id: Id, u: UserRow): (r: map<string, Value>)
    ensures r.Keys == {"id", "email", "password", "first_name", "last_name", "about_me",
                       "document_number", "phone_number", "profile_picture"}
    ensures r["password"] == Text(u.passwordHash) && r["document_number"] == Text(u.documentNumber)
  {
    map["id" := Number(id), "email" := Text(u.email), "password" := Text(u.passwordHash),
        "first_name" := Text(u.firstName), "last_name" := Text(u.lastName), "about_me" := Text(u.aboutMe),
        "document_number" := Text(u.documentNumber), "phone_number" := Text(u.phoneNumber),
        "profile_picture" := Text(u.profilePicture)]
  }
}
