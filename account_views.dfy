/** The user viewset (authentication/views.py): registration is open to
    anyone, every other action needs a user and reaches only the caller's own
    row, and reading never shows more than a user's key and names. */
module AccountViews {

  import opened Common
  import opened Text
  import opened Schema
  import opened Cascade
  import opened Store
  import opened AccountModels
  import opened AccountSerializers

  /** `CustomUserViewSet.get_permissions`: creating a user is open to anyone. */
  function UserPermission(a: Action): (r: PermissionClass)
    ensures r == AllowAny <==> a == Create
  {
    if a == Create then AllowAny else IsAuthenticated
  }

  /** An anonymous request can register and do nothing else. */
  lemma OnlyRegistrationIsOpen(a: Action, users: set<Id>)
    ensures HasPermission(UserPermission(a), None, users) <==> a == Create
  {
  }

  /** `CustomUserViewSet.get_queryset`: retrieve, update, partial update and
      destroy reach only the caller's own row; list sees every user. */
  function UserScope(a: Action, caller: Id, users: map<Id, UserRow>): (r: set<Id>)
    ensures forall u :: u in r <==> u in users && (OnObject(a) ==> u == caller)
  {
    if OnObject(a) then (if caller in users then {caller} else {}) else users.Keys
  }

  /** `CustomUserViewSet.get_serializer_class`: the create serializer for
      create, update and partial update, the list serializer otherwise. */
  function UserSerializerFor(a: Action): (r: SerializerKind)
    ensures r == DetailSerializer <==> a in {Create, Update, PartialUpdate}
  {
    if a in {Create, Update, PartialUpdate} then DetailSerializer else ListSerializer
  }

  /** What listing or retrieving shows of user `u` to the caller: None when
      `u` is outside the action's queryset. */
  function ShowUser(a: Action, caller: Id, u: Id, users: map<Id, UserRow>): (r: Option<map<string, Value>>)
    requires a == List || a == Retrieve
    ensures r.Some? <==> u in users && (a == Retrieve ==> u == caller)
  {
    if u in UserScope(a, caller, users) then
      Some(if UserSerializerFor(a) == DetailSerializer then RenderUserDetail(u, users[u]) else RenderUserList(u, users[u]))
    else None
  }

  /** Reading users shows only keys and names, even of the caller's own row:
      never an e-mail, a password hash or a document number. */
  lemma ReadingShowsOnlyNames(a: Action, caller: Id, u: Id, users: map<Id, UserRow>)
    requires a == List || a == Retrieve
    requires ShowUser(a, caller, u, users).Some?
    ensures ShowUser(a, caller, u, users).value.Keys == {"id", "first_name", "last_name"}
    ensures ShowUser(a, caller, u, users).value["first_name"] == Text(users[u].firstName)
  {
  }

  function OrEmpty(s: Option<string>): string {
    if s.Some? then s.value else []
  }

  /** The row registration stores: the validated fields, the hash of the
      password in place of the password, the names capitalised and joined
      into the username, and the picture renamed after the e-mail. */
  function NewUser(d: UserData, hash: string -> string): UserRow
    requires d.email.Some? && d.password.Some? && d.documentNumber.Given? && d.phoneNumber.Some?
  {
    var first := Capitalize(OrEmpty(d.firstName));
    var last := Capitalize(OrEmpty(d.lastName));
    UserRow(d.email.value, hash(d.password.value), first, last, first + " " + last, OrEmpty(d.aboutMe),
            d.documentNumber.value, d.phoneNumber.value,
            PictureName(d.email.value, if d.profilePicture.Given? then d.profilePicture.value.name else []))
  }

  /** The instance an update hands to `save`: the given fields replace the
      stored ones, and the password is re-hashed only when one is given. */
  function Assigned(row: UserRow, d: UserData, hash: string -> string): UserRow {
    UserRow(if d.email.Some? then d.email.value else row.email,
            if d.password.Some? then hash(d.password.value) else row.passwordHash,
            if d.firstName.Some? then d.firstName.value else row.firstName,
            if d.lastName.Some? then d.lastName.value else row.lastName,
            row.username,
            if d.aboutMe.Some? then d.aboutMe.value else row.aboutMe,
            if d.documentNumber.Given? then d.documentNumber.value else row.documentNumber,
            if d.phoneNumber.Some? then d.phoneNumber.value else row.phoneNumber,
            if d.profilePicture.Given? then d.profilePicture.value.name else row.profilePicture)
  }

  /** The row an update stores: `save` capitalises the names, rebuilds the
      username and renames the picture, the stored one included, again. */
  function UpdatedUser(row: UserRow, d: UserData, hash: string -> string): UserRow {
    Saved(Assigned(row, d, hash))
  }

  /** An update changes the stored hash exactly when it carries a password,
      and then to that password's hash. */
  lemma PasswordRehashedOnlyWhenGiven(row: UserRow, d: UserData, hash: string -> string)
    ensures d.password.None? ==> UpdatedUser(row, d, hash).passwordHash == row.passwordHash
    ensures d.password.Some? ==> UpdatedUser(row, d, hash).passwordHash == hash(d.password.value)
    ensures UpdatedUser(row, d, hash).username == UpdatedUser(row, d, hash).firstName + " " + UpdatedUser(row, d, hash).lastName
  {
  }

  /** `create`: the serializer, then the serializer's `create` takes the
      password out of the data, builds the user from the rest, sets the
      password's hash and saves. The serializer has already refused a taken
      e-mail, so the save fails only when the row does not fit its columns:
      the username joins two names the serializer bounds one by one. */
  method CreateUser(db: Database, caller: Caller, data: UserInput, hash: string -> string, validEmail: string -> bool) returns (r: Result<Id>)
    requires db.Valid()
    modifies db
    ensures db.Valid()
    ensures r.Ok? <==>
      && HasPermission(UserPermission(Create), caller, old(db.tables.users).Keys)
      && UserSerializer(data, false, None, old(db.tables.users), validEmail).Ok?
      && RowFitsColumns(NewUser(UserSerializer(data, false, None, old(db.tables.users), validEmail).value, hash))
    ensures HasPermission(UserPermission(Create), caller, old(db.tables.users).Keys)
      && UserSerializer(data, false, None, old(db.tables.users), validEmail).Ok?
      && !RowFitsColumns(NewUser(UserSerializer(data, false, None, old(db.tables.users), validEmail).value, hash))
      ==> r == Err(ServerError(DataError))
    ensures r.Ok? ==>
      && r.value !in old(db.tables.users)
      && db.tables == old(db.tables).(users := old(db.tables.users)[r.value := NewUser(UserSerializer(data, false, None, old(db.tables.users), validEmail).value, hash)])
      && db.tables.users[r.value].passwordHash == hash(Strip(data.password.value))
    ensures r.Err? ==> db.tables == old(db.tables)
  {
    if !HasPermission(UserPermission(Create), caller, db.tables.users.Keys) {
      return Err(NotAuthenticated);
    }
    var checked := UserSerializer(data, false, None, db.tables.users, validEmail);
    if checked.Err? {
      return Err(checked.error);
    }
    r := SerializerCreate(db, checked.value, hash);
  }

  /** After the serializer has accepted a registration, its row can miss
      its columns only through the password's hash or the username: every
      other limit is one the serializer already applied, while the username
      joins two names that may each hold 150 characters. */
  lemma RegistrationFitsIff(data: UserInput, users: map<Id, UserRow>, validEmail: string -> bool, hash: string -> string)
    requires UserSerializer(data, false, None, users, validEmail).Ok?
    ensures var d := UserSerializer(data, false, None, users, validEmail).value;
      RowFitsColumns(NewUser(d, hash)) <==>
        |hash(d.password.value)| <= PasswordLength && |OrEmpty(d.firstName)| + |OrEmpty(d.lastName)| < UsernameLength
  {
  }

  /** The serializer's `create` on validated data whose e-mail no row holds:
      build the user, set the password's hash and save, which fails only
      when the row does not fit its columns. */
  method SerializerCreate(db: Database, d: UserData, hash: string -> string) returns (r: Result<Id>)
    requires db.Valid()
    requires d.email.Some? && d.password.Some? && d.documentNumber.Given? && d.phoneNumber.Some?
    requires !EmailInUse(db.tables.users, d.email.value, None)
    modifies db
    ensures db.Valid()
    ensures r.Ok? <==> RowFitsColumns(NewUser(d, hash))
    ensures r.Ok? ==> r.value !in old(db.tables.users) && db.tables == old(db.tables).(users := old(db.tables.users)[r.value := NewUser(d, hash)])
    ensures r.Err? ==> r.error == ServerError(DataError) && db.tables == old(db.tables)
  {
    var u := new UserObj(d.email.value, OrEmpty(d.firstName), OrEmpty(d.lastName), OrEmpty(d.aboutMe),
                         Some(d.documentNumber.value), d.phoneNumber.value,
                         if d.profilePicture.Given? then d.profilePicture.value.name else []);
    u.SetPassword(d.password.value, hash);
    r := u.Save(db);
  }

  /** `ModelSerializer.update`'s assignments: every validated field but the
      password is set on the instance. */
  method AssignValidated(u: UserObj, d: UserData)
    modifies u`email, u`firstName, u`lastName, u`aboutMe, u`documentNumber, u`phoneNumber, u`profilePicture
    ensures u.email == if d.email.Some? then d.email.value else old(u.email)
    ensures u.firstName == if d.firstName.Some? then d.firstName.value else old(u.firstName)
    ensures u.lastName == if d.lastName.Some? then d.lastName.value else old(u.lastName)
    ensures u.aboutMe == if d.aboutMe.Some? then d.aboutMe.value else old(u.aboutMe)
    ensures u.documentNumber == if d.documentNumber.Given? then Some(d.documentNumber.value) else old(u.documentNumber)
    ensures u.phoneNumber == if d.phoneNumber.Some? then d.phoneNumber.value else old(u.phoneNumber)
    ensures u.profilePicture == if d.profilePicture.Given? then d.profilePicture.value.name else old(u.profilePicture)
  {
    u.email, u.firstName, u.lastName, u.aboutMe :=
      if d.email.Some? then d.email.value else u.email,
      if d.firstName.Some? then d.firstName.value else u.firstName,
      if d.lastName.Some? then d.lastName.value else u.lastName,
      if d.aboutMe.Some? then d.aboutMe.value else u.aboutMe;
    u.documentNumber, u.phoneNumber, u.profilePicture :=
      if d.documentNumber.Given? then Some(d.documentNumber.value) else u.documentNumber,
      if d.phoneNumber.Some? then d.phoneNumber.value else u.phoneNumber,
      if d.profilePicture.Given? then d.profilePicture.value.name else u.profilePicture;
  }

  /** The serializer's `update` up to the save: re-hash a given password,
      then assign the other validated fields. */
  method ApplyUpdate(u: UserObj, d: UserData, hash: string -> string)
    requires u.documentNumber.Some?
    modifies u
    ensures u.pk == old(u.pk) && u.documentNumber.Some?
    ensures u.Row() == Assigned(old(u.Row()), d, hash)
  {
    if d.password.Some? {
      u.SetPassword(d.password.value, hash);
    }
    AssignValidated(u, d);
  }

  /** The serializer's `update` on a stored user whose validated e-mail no
      other row holds: re-hash a given password, assign the other fields and
      save, which fails only when the updated row does not fit its columns. */
  method SerializerUpdate(db: Database, pk: Id, d: UserData, hash: string -> string) returns (r: Result<Id>)
    requires db.Valid() && pk in db.tables.users
    requires d.email.Some? ==> !EmailInUse(db.tables.users, d.email.value, Some(pk))
    modifies db
    ensures db.Valid()
    ensures r.Ok? <==> RowFitsColumns(UpdatedUser(old(db.tables.users)[pk], d, hash))
    ensures r.Ok? ==> r.value == pk && db.tables == old(db.tables).(users := old(db.tables.users)[pk := UpdatedUser(old(db.tables.users)[pk], d, hash)])
    ensures r.Err? ==> r.error == ServerError(DataError) && db.tables == old(db.tables)
  {
    var u := new UserObj.Load(pk, db.tables.users[pk]);
    ApplyUpdate(u, d, hash);
    if d.email.None? {
      OwnEmailFree(db.tables.users, pk);
    }
    r := u.Save(db);
  }

  /** `update` and `partial_update`: only the caller's own row; the password
      is re-hashed when given and every other validated field assigned, then
      the user is saved. */
  method UpdateUser(db: Database, caller: Caller, pk: Id, data: UserInput, partial: bool, hash: string -> string, validEmail: string -> bool) returns (r: Result<Id>)
    requires db.Valid()
    modifies db
    ensures db.Valid()
    ensures r.Ok? <==>
      && HasPermission(IsAuthenticated, caller, old(db.tables.users).Keys)
      && pk == caller.value
      && UserSerializer(data, partial, Some(pk), old(db.tables.users), validEmail).Ok?
      && RowFitsColumns(UpdatedUser(old(db.tables.users)[pk], UserSerializer(data, partial, Some(pk), old(db.tables.users), validEmail).value, hash))
    ensures r.Ok? ==>
      && r.value == pk
      && db.tables == old(db.tables).(users := old(db.tables.users)[pk :=
           UpdatedUser(old(db.tables.users)[pk], UserSerializer(data, partial, Some(pk), old(db.tables.users), validEmail).value, hash)])
    ensures r.Err? ==> db.tables == old(db.tables)
  {
    if !HasPermission(IsAuthenticated, caller, db.tables.users.Keys) {
      return Err(NotAuthenticated);
    }
    var found := GetObject(UserScope(if partial then PartialUpdate else Update, caller.value, db.tables.users), pk);
    if found.Err? {
      return Err(found.error);
    }
    var checked := UserSerializer(data, partial, Some(pk), db.tables.users, validEmail);
    if checked.Err? {
      return Err(checked.error);
    }
    var d := checked.value;
    if d.email.Some? {
      assert !EmailInUse(db.tables.users, d.email.value, Some(pk));
    }
    r := SerializerUpdate(db, pk, d, hash);
  }

  /** `destroy`: only the caller's own row; every row that goes with the user
      goes too. */
  method DestroyUser(db: Database, caller: Caller, pk: Id) returns (r: Result<()>)
    requires db.Valid()
    modifies db
    ensures db.Valid()
    ensures r.Ok? <==> HasPermission(IsAuthenticated, caller, old(db.tables.users).Keys) && pk == caller.value
    ensures r.Ok? ==> db.tables == DeleteUser(old(db.tables), pk)
    ensures r.Err? ==> db.tables == old(db.tables)
  {
    if !HasPermission(IsAuthenticated, caller, db.tables.users.Keys) {
      return Err(NotAuthenticated);
    }
    var found := GetObject(UserScope(Destroy, caller.value, db.tables.users), pk);
    if found.Err? {
      return Err(found.error);
    }
    db.RemoveUser(pk);
    r := Ok(());
  }
}
