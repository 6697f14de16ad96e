/** The user model (authentication/models.py). Saving a user rewrites its
    names, its username and its picture's file name in place, then writes the
    row; the e-mail is unique and the document number may not be null. */
module AccountModels {

  import opened Common
  import opened Text
  import opened Schema
  import opened Store

  /** The file name a picture is stored under: "<email>_profile_picture."
      followed by the text after the last '.' of the uploaded name (the whole
      name when it has no '.'). An empty name means no picture and is kept. */
  function PictureName(email: string, name: string): string {
    if name == [] then [] else email + "_profile_picture." + AfterLast(name, '.')
  }

  /** The stored name keeps the uploaded file's extension. */
  lemma PictureNameKeepsExtension(email: string, name: string)
    requires name != []
    ensures AfterLast(PictureName(email, name), '.') == AfterLast(name, '.')
    ensures PictureName(email, name)[..|email| + 17] == email + "_profile_picture."
  {
    var ext := AfterLast(name, '.');
    assert PictureName(email, name) == (email + "_profile_picture") + ['.'] + ext;
    AfterLastOfJoin(email + "_profile_picture", '.', ext);
  }

  /** Renaming an already renamed picture gives the same name. */
  lemma PictureNameIdempotent(email: string, name: string)
    ensures PictureName(email, PictureName(email, name)) == PictureName(email, name)
  {
    if name != [] {
      PictureNameKeepsExtension(email, name);
    }
  }

  /** `full_clean` is not called on users; the database refuses a second row
      with the same e-mail. */
  predicate EmailTaken(users: map<Id, UserRow>, email: string, own: Option<Id>) {
    exists j :: j in users && own != Some(j) && users[j].email == email
  }

  /** What `CustomUser.save` makes of a row before writing it: both names
      capitalised, the username rebuilt from them, a present picture renamed
      after the e-mail. */
  function Saved(row: UserRow): UserRow {
    var first := Capitalize(row.firstName);
    var last := Capitalize(row.lastName);
    row.(firstName := first, lastName := last, username := first + " " + last,
         profilePicture := PictureName(row.email, row.profilePicture))
  }

  /** The varchar limits of the user's columns that the write checks: a
      longer value makes the database raise DataError. `documentNumber` is
      None when the attribute holds Python's None, which has no length. */
  predicate FitsColumns(email: string, passwordHash: string, firstName: string, lastName: string,
                        username: string, documentNumber: Option<string>) {
    && |email| <= EmailLength && |passwordHash| <= PasswordLength
    && |firstName| <= NameLength && |lastName| <= NameLength && |username| <= UsernameLength
    && (documentNumber.Some? ==> |documentNumber.value| <= DocumentNumberLength)
  }

  /** A stored row's columns fit their limits. */
  predicate RowFitsColumns(row: UserRow) {
    FitsColumns(row.email, row.passwordHash, row.firstName, row.lastName, row.username, Some(row.documentNumber))
  }

  /** The username `save` builds fits its column only when the two names
      together hold at most 149 characters, whatever limit each name has on
      its own. */
  lemma SavedUsernameFits(row: UserRow)
    ensures |Saved(row).username| <= UsernameLength <==> |row.firstName| + |row.lastName| < UsernameLength
  {
  }

  /** With unique e-mails, a stored user's own e-mail is not taken by
      another row. */
  lemma OwnEmailFree(users: map<Id, UserRow>, pk: Id)
    requires EmailsUnique(users) && pk in users
    ensures !EmailTaken(users, users[pk].email, Some(pk))
  {
  }

  /** An in-memory CustomUser instance. `documentNumber` is None when the
      attribute holds Python's None; `profilePicture` is the file name, "" when
      there is none. */
  class UserObj {
    var pk: Option<Id>
    var email: string
    var passwordHash: string
    var firstName: string
    var lastName: string
    var username: string
    var aboutMe: string
    var documentNumber: Option<string>
    var phoneNumber: string
    var profilePicture: string

    constructor (email: string, firstName: string, lastName: string, aboutMe: string,
                 documentNumber: Option<string>, phoneNumber: string, profilePicture: string)
      ensures this.email == email && this.firstName == firstName && this.lastName == lastName
      ensures this.aboutMe == aboutMe && this.documentNumber == documentNumber
      ensures this.phoneNumber == phoneNumber && this.profilePicture == profilePicture
      ensures pk == None && passwordHash == [] && username == []
    {
      this.email, this.firstName, this.lastName, this.aboutMe := email, firstName, lastName, aboutMe;
      this.documentNumber, this.phoneNumber, this.profilePicture := documentNumber, phoneNumber, profilePicture;
      pk, passwordHash, username := None, [], [];
    }

    /** The instance a query returns for a stored row. */
    constructor Load(id: Id, row: UserRow)
      ensures pk == Some(id) && documentNumber.Some? && Row() == row
    {
      email, passwordHash, firstName, lastName := row.email, row.passwordHash, row.firstName, row.lastName;
      username, aboutMe, documentNumber := row.username, row.aboutMe, Some(row.documentNumber);
      phoneNumber, profilePicture := row.phoneNumber, row.profilePicture;
      pk := Some(id);
    }

    function Row(): UserRow
      reads this
      requires documentNumber.Some?
    {
      UserRow(email, passwordHash, firstName, lastName, username, aboutMe, documentNumber.value, phoneNumber, profilePicture)
    }

    /** `set_password`: the stored value is the hash of the raw password. */
    method SetPassword(raw: string, hash: string -> string)
      modifies this`passwordHash
      ensures passwordHash == hash(raw)
    {
      passwordHash := hash(raw);
    }

    /** The first half of `CustomUser.save`: capitalise both names, set the
        username to "first last" and rename a present picture. */
    method Normalize()
      modifies this`firstName, this`lastName, this`username, this`profilePicture
      ensures firstName == Capitalize(old(firstName)) && lastName == Capitalize(old(lastName))
      ensures username == firstName + " " + lastName
      ensures profilePicture == PictureName(email, old(profilePicture))
    {
      firstName := Capitalize(firstName);
      lastName := Capitalize(lastName);
      username := firstName + " " + lastName;
      if profilePicture != [] {
        profilePicture := email + "_profile_picture." + AfterLast(profilePicture, '.');
      }
    }

    /** `CustomUser.save`: normalise, then write the row. A value longer
        than its column raises DataError; otherwise a null document number
        violates NOT NULL and a taken e-mail violates UNIQUE, both raising
        IntegrityError. A failed write writes nothing. */
    method Save(db: Database) returns (r: Result<Id>)
      requires db.Valid()
      modifies this, db
      ensures db.Valid()
      ensures firstName == Capitalize(old(firstName)) && lastName == Capitalize(old(lastName))
      ensures username == firstName + " " + lastName
      ensures profilePicture == PictureName(email, old(profilePicture))
      ensures email == old(email) && passwordHash == old(passwordHash) && aboutMe == old(aboutMe)
      ensures documentNumber == old(documentNumber) && phoneNumber == old(phoneNumber)
      ensures r.Ok? <==>
        && FitsColumns(email, passwordHash, firstName, lastName, username, documentNumber)
        && documentNumber.Some? && !EmailTaken(old(db.tables.users), email, old(pk))
      ensures r.Ok? ==>
        && pk == Some(r.value)
        && (old(pk).Some? ==> r.value == old(pk).value)
        && (old(pk).None? ==> r.value !in old(db.tables.users))
        && db.tables == old(db.tables).(users := old(db.tables.users)[r.value := Row()])
      ensures r.Err? ==> pk == old(pk) && db.tables == old(db.tables)
      ensures r.Err? ==> r.error == if FitsColumns(email, passwordHash, firstName, lastName, username, documentNumber)
                                   then IntegrityError else ServerError(DataError)
    {
      Normalize();
      if !FitsColumns(email, passwordHash, firstName, lastName, username, documentNumber) {
        return Err(ServerError(DataError));
      }
      if documentNumber.None? || EmailTaken(db.tables.users, email, pk) {
        return Err(IntegrityError);
      }
      var id := db.PutUser(pk, Row());
      pk := Some(id);
      r := Ok(id);
    }
  }

  /** `CustomUser.__str__` */
  function UserLabel(u: UserRow): string {
    u.email
  }

  /** Since e-mails are unique, a user's rendering names one stored user. */
  lemma UserLabelIdentifies(users: map<Id, UserRow>, i: Id, j: Id)
    requires EmailsUnique(users) && i in users && j in users
    ensures UserLabel(users[i]) == UserLabel(users[j]) <==> i == j
  {
  }

  /** Saving a saved user again stores the same names, username and picture
      name: the normalisation is idempotent. */
  lemma UserNormalisationIdempotent(email: string, first: string, last: string, picture: string)
    ensures Capitalize(Capitalize(first)) == Capitalize(first)
    ensures Capitalize(Capitalize(last)) == Capitalize(last)
    ensures PictureName(email, PictureName(email, picture)) == PictureName(email, picture)
  {
    CapitalizeIdempotent(first);
    CapitalizeIdempotent(last);
    PictureNameIdempotent(email, picture);
  }
}
