# Carpool backend: business rules in Dafny

A Dafny model of the business-rule layer of a Django REST carpool backend.
Users register and manage their own account. They own vehicles and create
trips between cities. Other users ask to join a trip, and participants
review each other.

The model has three layers, mirroring the three kinds of source file.

- **Models.** These are `State`, `City`, `Vehicle`, `CustomUser`,
  `TripParticipant`, `TripJoinRequest` and `Review`.
  - Each stored row is a datatype (`Schema`).
  - Each model whose `save` rewrites its own fields in place is a class
    (`TripModels.StateObj`, `CityObj`, `VehicleObj`,
    `AccountModels.UserObj`). Its `Save` normalises the fields, checks the
    database constraints (for users also the varchar limits, whose excess
    raises DataError) and writes through the store.
- **Store.** The database is `Store.Database`: one `Tables` value holding
  one map per table, plus the key counter.
  - Its class invariant covers every `unique`, `unique_together` and
    foreign-key constraint.
  - It also keeps the participation invariant: every participant row is
    the driver row of its trip's creator, because creating a trip is the
    only way a participant row comes to be.
  - Deletes follow each foreign key's `on_delete` (`Cascade`).
- **Serializers and viewsets.** The serializers' validators are pure
  functions. Every text field first goes through the framework's
  CharField stage (`Fields.CheckCharField`): stripped, blank refused unless
  allowed, the column's `max_length`, and no U+0000. On an update the
  framework's unique-together check fills the fields left out from the
  stored row, but only in its own copy: `validate` sees only the fields
  actually submitted. A viewset action runs in this order:
  1. authentication and the permission class (`HasPermission`);
  2. `get_object` within the action's queryset (404 outside it);
  3. the serializer;
  4. the save.

  Actions that never write are functions of the tables. Actions that
  write are methods on the database, and each one's new state is stated as
  a function of the old.

Defects in the source appear under "## Findings". Each defect has two
members: one models the code as written and the other the intended
behaviour. The view layer uses the intended one. Quirks that are not
crashes are modelled as written, each with a lemma that exhibits it:

- the role validator's "passanger";
- the reviewer display that names the reviewed user;
- a vehicle update that keeps its own plate being refused;
- a join request that can only be resolved by a partial update naming the
  trip, since a full update keeping the pair hits the duplicate check and a
  partial one without the trip crashes; the same partial update can move a
  request to a trip its requester created;
- a partial review update that has to name the user, the trip and the
  reviewer again;
- a stored reviewer that need not have taken part in the trip;
- the 5 MB picture limit.

Two crashes are also kept as written, because the source gives no sign of
the intended behaviour. An explicit null rating passes the nullable field
and then makes `validate_rating` raise TypeError. An explicit null picture
passes the nullable image field and then makes `validate_profile_picture`
raise AttributeError when it asks None for its size.

Nothing is added that the source does not do. Accepting a join request
creates no passenger. There is no check for trips at the same date and
time. Nothing checks that a trip's driver owns its vehicle.

## Model

| member | source | states |
|---|---|---|
| Text.Upper | src/trip/models.py:34 | `str.upper()` maps each character to its upper case and keeps the length |
| Text.UpperIdempotent | src/trip/models.py:34 | upper-casing twice changes nothing more; no lower-case letter survives it but ß, ÿ, µ, ª and º, which keep their letter |
| Text.TitleAt | src/trip/models.py:32-33 | position by position, `title()` raises a cased character that starts a word and lowers every other cased character |
| Text.TitleIdempotent | src/trip/models.py:32-33 | title-casing twice gives the same string as once |
| Text.Capitalize | src/authentication/models.py:71-72 | `capitalize()` raises the first character, lowers all the others and keeps the length |
| Text.CapitalizeIdempotent | src/authentication/models.py:71-72 | capitalising twice gives the same string as once |
| Text.StripIdempotent | src/trip/models.py:99-101 | stripping a stripped text changes nothing |
| Text.AfterLast | src/authentication/models.py:76 | `split('.')[-1]` is the suffix after the last separator; it holds no separator, and it is the whole string when there is none |
| Text.AfterLastOfJoin | src/authentication/models.py:76 | the last field of `a + sep + b` is `b` when `b` holds no separator |
| Text.PyIntOfDigits | src/authentication/serializers.py:51 | `int()` of a string of digits is its decimal value |
| Text.DecimalValueZero | src/authentication/serializers.py:51 | a digit string denotes 0 exactly when every digit is '0' |
| Fields.CheckCharField | src/trip/models.py:99-101 | a text passes iff, stripped, it is non-blank (unless blanks are allowed), within the column's `max_length` and free of U+0000; it is kept stripped; blank, too long and U+0000 are refused in that order |
| Fields.CheckCharFieldIdempotent | src/trip/models.py:99-101 | resubmitting an accepted text gives the same result |
| Schema.ParseRole | src/trip/models.py:207-214 | a role value is valid iff it is "driver" or "passenger", and it maps back to its choice |
| Schema.RoleRoundTrip | src/trip/models.py:207-214 | every role's stored value parses back to that role |
| Schema.ParseStatus | src/trip/models.py:260-269 | a status is valid iff it is "pending", "accepted" or "rejected" |
| Schema.StatusRoundTrip | src/trip/models.py:260-269 | every status's stored value parses back to that status |
| Schema.PlatesUniquePerOwner | src/trip/models.py:99-113 | the plate's `unique=True` implies the (license_plate, owner) `unique_together` |
| Schema.AtMostOneParticipantPerTrip | src/trip/models.py:219-220 | with (user, trip) unique and only creators enrolled, a trip has at most one participant row |
| Cascade.DeleteVehicleClears | src/trip/models.py:158-160 | deleting a vehicle keeps every trip; trips that used the vehicle lose only that reference (SET_NULL) |
| Cascade.DeleteVehicleSound | src/trip/models.py:158-160 | deleting a vehicle keeps every table constraint |
| Cascade.DeleteTripLeavesNoReference | src/trip/models.py:201-253 | deleting a trip removes exactly the participant rows and join requests (and reviews) that refer to it; everything else stays unchanged |
| Cascade.DeleteTripSound | src/trip/models.py:201-253 | deleting a trip keeps every table constraint |
| Cascade.DeleteTripKeepsCreatorsDrive | src/trip/views.py:148-150 | deleting a trip keeps the participation invariant |
| Cascade.DeleteUserLeavesNoReference | src/trip/models.py:93-253 | after deleting a user, no vehicle, trip, participant row or join request refers to that user, and no trip refers to a deleted vehicle |
| Cascade.DeleteUserSound | src/trip/models.py:93-253 | deleting a user, with all its cascades, keeps every table constraint |
| Cascade.DeleteUserKeepsCreatorsDrive | src/trip/views.py:148-150 | deleting a user keeps the participation invariant |
| Cascade.AddTripSound | src/trip/views.py:148-150 | inserting a trip with its creator's driver row keeps every table constraint |
| Cascade.AddTripKeepsCreatorsDrive | src/trip/views.py:148-150 | inserting a trip with its creator's driver row keeps the participation invariant |
| Cascade.AddTripAddsOneDriver | src/trip/views.py:148-150 | the new trip has exactly one participant row, its creator as driver; every other participant row is unchanged |
| Store.Database.PutState | src/trip/models.py:36-40 | writing a state that equals no other row keeps the invariant and changes only that row |
| Store.Database.PutCity | src/trip/models.py:62-72 | writing a city whose state exists keeps the invariant and changes only that row |
| Store.Database.PutVehicle | src/trip/models.py:93-113 | writing a vehicle whose owner exists and whose plate no other row holds keeps the invariant and changes only that row |
| Store.Database.PutUser | src/authentication/models.py:43 | writing a user whose e-mail no other row holds keeps the invariant and changes only that row |
| Store.Database.InsertTripWithDriver | src/trip/views.py:148-150 | two fresh keys; the tables become AddTrip of the old ones |
| Store.Database.PutJoinRequest | src/trip/models.py:274-275 | writing a request whose (user, trip) no other row holds keeps the invariant |
| Store.Database.PutReview | src/review/models.py:35-36 | writing a review whose (user, trip, reviewer) no other row holds keeps the invariant |
| Store.Database.RemoveVehicle | src/trip/models.py:158-160 | the tables become DeleteVehicle of the old ones, and the invariant holds |
| Store.Database.RemoveTrip | src/trip/models.py:201-253 | the tables become DeleteTrip of the old ones, and the invariant holds |
| Store.Database.RemoveUser | src/trip/models.py:93-253 | the tables become DeleteUser of the old ones, and the invariant holds |
| TripModels.ColumnError | src/trip/models.py:24-26 | `full_clean` refuses a text column iff it is the empty string or longer than its `max_length`, as blank or too long |
| TripModels.StateFieldError | src/trip/models.py:24-26 | the state's field stage passes iff no column is empty, name and country have at most 100 characters and the abbreviation at most 2 |
| TripModels.VehicleFieldError | src/trip/models.py:99-101 | the vehicle's field stage passes iff no column is empty, the plate has at most 7 characters and brand and model at most 50 |
| TripModels.StateObj.Save | src/trip/models.py:31-40 | name and country title-cased and abbreviation upper-cased in place; the save succeeds iff the normalised row passes the field stage and no other row has the same three values, and then writes exactly that row; a refusal names the first failing column, else the uniqueness |
| TripModels.CityObj.Save | src/trip/models.py:59-72 | name title-cased and nothing else changed; the save succeeds iff the name is 1 to 100 characters and the state exists |
| TripModels.VehicleObj.Save | src/trip/models.py:93-113 | brand and model title-cased, plate and owner untouched; the save succeeds iff the owner exists, the row passes the field stage and no other vehicle holds the plate; a refusal names the first failure in field order |
| TripModels.CasingKeepsColumnLimits | src/trip/models.py:31-36 | the saves' casing keeps every length, so the field stage accepts the normalised row iff it accepts the row as given |
| TripModels.StateLabelParts | src/trip/models.py:28-29 | "name, country": the name is read back up to the first comma, and the country after the separator |
| TripModels.CityLabelParts | src/trip/models.py:66-67 | "name, <state rendering>": the name and the state's rendering are read back |
| TripModels.VehicleLabelPlate | src/trip/models.py:103-104 | the rendering ends with the plate, after the last space |
| TripModels.StateNormalisationIdempotent | src/trip/models.py:31-34 | saving a state twice stores the same values as saving it once |
| TripSerializers.ValidateLicensePlate | src/trip/serializers.py:53-58 | accepts exactly the strings the pattern matches, including Python's `$` before a final newline; returns the value |
| TripSerializers.ClassicByShape | src/trip/serializers.py:54 | `[A-Z]{3}\d{3}` matches iff the character classes read "AAA999" |
| TripSerializers.MercosurByShape | src/trip/serializers.py:54 | `[A-Z]{2}\d{3}[A-Z]{2}` matches iff the classes read "AA999AA" |
| TripSerializers.PlateAcceptedByShape | src/trip/serializers.py:53-58 | a plate is accepted iff its shape is "AAA999" or "AA999AA", optionally followed by a newline |
| TripSerializers.PlateExamples | src/trip/serializers.py:54-57 | "ABC123" and "AB123CD" pass; "abc123" and "AB12CD" fail |
| TripSerializers.AcceptedPlateHasNoSpace | src/trip/serializers.py:53-58 | an accepted plate holds no space |
| TripSerializers.ValidateVehicle | src/trip/serializers.py:60-68 | refused iff the caller already owns a vehicle with the submitted plate |
| TripSerializers.KeepingOwnPlateRefused | src/trip/serializers.py:60-68 | the check counts the instance itself, so an update that keeps one's own plate is refused |
| TripSerializers.CheckPlateField | src/trip/models.py:99 | after the text stage, the plate passes iff it has a valid shape and no other vehicle holds it |
| TripSerializers.PlateFieldExamples | src/trip/serializers.py:53-58 | "ABC123\n" is stored as "ABC123"; surrounding spaces are dropped |
| TripSerializers.VehicleSerializer | src/trip/serializers.py:48-68 | a full submission carries all three fields; an accepted plate is valid, unique and not already the caller's; brand and model are stripped |
| TripSerializers.OwnerPlateCheckOnlyCatchesTheInstance | src/trip/serializers.py:60-68 | once the uniqueness check passed, `validate` can only refuse because of the instance being updated |
| TripSerializers.ValidateRole | src/trip/serializers.py:108-111 | accepts exactly "passanger" and "driver" |
| TripSerializers.CheckRole | src/trip/serializers.py:98-111 | a role passes only if it is one of the field's choices and also passes `validate_role` |
| TripSerializers.OnlyDriverRolePasses | src/trip/serializers.py:108-111 | "driver" is the only role that passes; "passenger" fails the validator and "passanger" fails the choices |
| TripSerializers.ParticipantSerializerAsWritten | src/trip/serializers.py:103-106 | never succeeds; a stored trip ends in TypeError |
| TripSerializers.ParticipantSerializer | src/trip/serializers.py:96-111 | passes iff the trip is stored and the role is "driver" |
| TripSerializers.ValidateDepartureDate | src/trip/serializers.py:157-163 | passes iff the date is at most today + 365 |
| TripSerializers.ValidateTrip | src/trip/serializers.py:165-177 | passes iff the cities differ, both date and time are given, and the combined departure is not before now; equal cities are always refused |
| TripSerializers.CheckTripFields | src/trip/serializers.py:139-155 | a full submission must carry every required field, and every given key must name a stored row |
| TripSerializers.TripSerializerAsWrittenNeverAccepts | src/trip/serializers.py:143-177 | with `departure_date` missing from the fields no trip validates; with distinct cities the result is TypeError |
| TripSerializers.TripSerializerAcceptsIff | src/trip/serializers.py:157-177 | a full trip is accepted iff its references exist, its cities differ, and it leaves between now and today + 365 |
| TripSerializers.AcceptedDepartureWithinAYear | src/trip/serializers.py:157-176 | every accepted departure lies in [now, start of day today + 366) |
| TripSerializers.LastDayAccepted | src/trip/serializers.py:157-163 | today + 365 is accepted and today + 366 is refused |
| TripSerializers.ValidateStatus | src/trip/serializers.py:232-235 | accepts exactly "pending", "accepted" and "rejected" |
| TripSerializers.CheckStatus | src/trip/serializers.py:232-235 | refused iff the value is not one of the choices |
| TripSerializers.ValidateJoinRequest | src/trip/serializers.py:237-249 | the duplicate check on the submitted pair comes first (a missing user or trip matches nothing); then a missing trip raises AttributeError; otherwise the request passes iff the submitted user is not the trip's creator |
| TripSerializers.JoinRequestSerializer | src/trip/serializers.py:224-249 | a missing trip is refused; an accepted request keeps the submitted user and trip, which are not a stored pair and whose creator is not the submitted user; no other row holds the saved pair; on a create or full update the saved requester is not the trip's creator; the status defaults to pending |
| TripSerializers.ResolvingAJoinRequestIsRefused | src/trip/serializers.py:241-244 | a full update that keeps the request's user and trip is always refused |
| TripSerializers.PartialJoinRequestUpdateWithTrip | src/trip/serializers.py:237-249 | a partial update naming the trip but not the user is accepted with any status, whoever created that trip |
| TripSerializers.PartialJoinRequestUpdateWithoutTripCrashes | src/trip/serializers.py:245 | a partial update naming neither the trip nor the user ends in AttributeError |
| TripSerializers.DuplicateJoinRequestRefusedByFramework | src/trip/models.py:274-275 | on create a duplicate is refused by the unique-together check, before `validate` |
| TripViews.VehicleScope | src/trip/views.py:52-55 | an action on one vehicle reaches exactly the caller's vehicles; list and create see all of them |
| TripViews.VehicleSerializerFor | src/trip/views.py:57-60 | detail for create, update, partial update and retrieve; list otherwise |
| TripViews.RenderVehicle | src/trip/serializers.py:48-80 | the detail rendering holds id, plate, brand and model; the list rendering omits the plate |
| TripViews.ShowVehicle | src/trip/views.py:52-60 | list shows every vehicle; retrieve reaches only the caller's |
| TripViews.PlateShownOnlyToOwner | src/trip/views.py:52-60 | a plate is shown iff the action is retrieve, and only to the owner |
| TripViews.CreateVehicle | src/trip/views.py:62-63 | succeeds iff authenticated and the serializer passes; stores one new row whose owner is the caller; an error changes nothing |
| TripViews.AssignVehicle | src/trip/serializers.py:48-51 | each validated field is set on the loaded vehicle; owner, key and the fields left out stay |
| TripViews.StoredPlateFree | src/trip/models.py:99 | with plates unique, keeping the stored plate passes the model's uniqueness check |
| TripViews.UpdateVehicle | src/trip/views.py:43-60 | succeeds iff authenticated, the vehicle is the caller's, the serializer passes and the merged, title-cased row passes `full_clean`'s field stage (otherwise 404 when not the caller's); stores that row |
| TripViews.DestroyVehicle | src/trip/views.py:52-55 | only the owner deletes, and the tables become DeleteVehicle |
| TripViews.ParticipantScope | src/trip/views.py:87-90 | an action on one row reaches exactly the caller's participant rows; list sees all |
| TripViews.ParticipantSerializerFor | src/trip/views.py:92-95 | detail for create, update, partial update and retrieve |
| TripViews.CreateParticipantAsWritten | src/trip/views.py:97-100 | never succeeds, and never reaches PermissionDenied |
| TripViews.CreateParticipant | src/trip/views.py:97-100 | never succeeds; PermissionDenied iff authenticated with a valid submission |
| TripViews.ParticipantCreateCrashesBeforeRefusal | src/trip/serializers.py:103-106 | the submission meant to get PermissionDenied crashes with TypeError as written |
| TripViews.UpdateParticipant | src/trip/views.py:102-110 | always refused: PermissionDenied once authenticated |
| TripViews.DestroyParticipant | src/trip/views.py:87-90 | only the caller's own row is deleted |
| TripViews.TripPermission | src/trip/views.py:131-136 | AllowAny iff the action is list |
| TripViews.OnlyTripListIsOpen | src/trip/views.py:131-136 | an anonymous request reaches only the list; an authenticated one reaches every action |
| TripViews.TripScope | src/trip/views.py:138-141 | update, partial update and destroy reach exactly the trips the caller created |
| TripViews.TripSerializerFor | src/trip/views.py:143-146 | detail for create, update and partial update; list otherwise |
| TripViews.CreateTrip | src/trip/views.py:148-150 | succeeds iff authenticated and the trip is valid; stores the trip with the caller as creator and exactly one participant row, the caller as driver |
| TripViews.UpdateTrip | src/trip/views.py:138-146 | only the creator updates; the given fields replace the stored ones and the creator stays |
| TripViews.DestroyTrip | src/trip/views.py:138-141 | only the creator deletes, and the tables become DeleteTrip |
| TripViews.JoinRequestScope | src/trip/views.py:160-165 | exactly the requests on trips the caller created, narrowed to one trip when a non-zero trip key is given |
| TripViews.JoinRequestFilterNarrows | src/trip/views.py:162-165 | trip key 0 is the same as none; any other key narrows the unfiltered set to that trip's requests |
| TripViews.RequesterCannotReachOwnRequest | src/trip/views.py:160-165 | a requester who did not create the trip cannot reach their own request |
| TripViews.CreateJoinRequest | src/trip/views.py:153-158 | succeeds iff authenticated and the serializer passes; stores the serializer's row |
| TripViews.UpdateJoinRequest | src/trip/views.py:156-165 | succeeds iff authenticated, the request is in scope and the serializer (run on the submitted fields) passes; 404 outside scope |
| TripViews.DestroyJoinRequest | src/trip/views.py:160-165 | only a request on the caller's trip is deleted |
| ReviewModels.Clean | src/review/models.py:31-33 | passes iff the reviewer has a participant row for the trip |
| ReviewModels.CleanAsWrittenRefusesParticipants | src/review/models.py:31-33 | as written, `clean` crashes even on a review it is meant to let through |
| ReviewModels.CleanPassesOnlyTheCreator | src/review/models.py:31-33 | under the participation invariant only the trip's creator passes `clean` |
| ReviewSerializers.ValidateRating | src/review/serializers.py:28-33 | accepts exactly 1..5 |
| ReviewSerializers.ValidateReviewAsWritten | src/review/serializers.py:35-48 | the user check comes first, then the reviewer check; success returns None |
| ReviewSerializers.ValidateReview | src/review/serializers.py:35-48 | passes iff both the user and the reviewer took part; a user who did not take part is reported first; returns the data |
| ReviewSerializers.ReviewValidationAsWrittenNeverSucceeds | src/review/serializers.py:35-48 | as written, every review that passes the checks ends in AssertionError |
| ReviewSerializers.ReviewSerializer | src/review/serializers.py:20-48 | an explicit null rating, and only that, ends in TypeError; an accepted review is the submission itself with the comment stripped and free of U+0000: it names stored rows, has a rating in 1..5 when one is given, both parties took part, and no other row has the same triple |
| ReviewSerializers.StrippedComment | src/review/models.py:29 | the comment is kept when given, stripped |
| ReviewSerializers.PartialReviewUpdateNeedsTheTriple | src/review/serializers.py:35-48 | a partial update that leaves out the user, the trip or the reviewer is refused; a valid rating alone is refused as a user who did not take part (or as a duplicate) |
| ReviewSerializers.ReviewerDisplayShowsReviewedUser | src/review/serializers.py:68-69 | the displayed "reviewer" ignores who wrote the review; it is the reviewed user's name |
| ReviewViews.ReviewScope | src/review/views.py:25-28 | update, partial update and destroy reach exactly the caller's reviews; list and retrieve see all |
| ReviewViews.ReviewSerializerFor | src/review/views.py:30-33 | detail for create, update, partial update and destroy; list otherwise |
| ReviewViews.CreateReview | src/review/views.py:35-36 | succeeds iff authenticated, valid and the caller's triple is free; the stored reviewer is the caller |
| ReviewViews.StoredReviewerNeedNotParticipate | src/review/views.py:35-36 | a caller who never took part in a trip can store a review of it |
| ReviewViews.UpdateReview | src/review/views.py:25-27 | only the caller's own review is updated, and with what the serializer returns |
| ReviewViews.DestroyReview | src/review/views.py:25-27 | only the caller's own review is deleted |
| AccountModels.PictureNameKeepsExtension | src/authentication/models.py:75-76 | the renamed picture starts with "<email>_profile_picture." and keeps the upload's extension |
| AccountModels.PictureNameIdempotent | src/authentication/models.py:75-76 | renaming a renamed picture changes nothing |
| AccountModels.OwnEmailFree | src/authentication/models.py:43 | under unique e-mails, a stored user's own e-mail is not taken by another row |
| AccountModels.UserObj.SetPassword | src/authentication/serializers.py:62-65 | the stored value is the hash of the raw password |
| AccountModels.UserObj.Normalize | src/authentication/models.py:70-76 | both names capitalised, username set to "first last", a present picture renamed |
| AccountModels.SavedUsernameFits | src/authentication/models.py:48 | the username `save` builds fits its 150 characters iff the two names together hold fewer than 150 |
| AccountModels.UserObj.Save | src/authentication/models.py:70-77 | normalises, then succeeds iff every varchar fits its column, the document number is not null and the e-mail is free, and writes exactly that row; an overlong value is a DataError, the rest an IntegrityError |
| AccountModels.UserLabelIdentifies | src/authentication/models.py:56-57 | under unique e-mails, two users render alike iff they are the same user |
| AccountModels.UserNormalisationIdempotent | src/authentication/models.py:70-76 | saving a user twice stores the same names and picture |
| AccountSerializers.ValidateProfilePictureAsWritten | src/authentication/serializers.py:45-48 | refuses more than 5 MiB, and otherwise returns None |
| AccountSerializers.ValidateProfilePicture | src/authentication/serializers.py:45-48 | refuses more than 5 MiB, and returns the picture |
| AccountSerializers.PictureChecksAgree | src/authentication/serializers.py:45-48 | both refuse the same files; exactly 5 MiB passes and one byte more fails |
| AccountSerializers.CheckPictureField | src/authentication/models.py:49 | the image field refuses a nameless file, then an empty one, then a name over the column's 100 characters, then content that is not an image; an accepted file is kept as given |
| AccountSerializers.PictureAcceptedIff | src/authentication/serializers.py:45-48 | a picture passes the image field and the validator iff it is a named, non-empty image of at most 5 MiB whose name has at most 100 characters |
| AccountSerializers.ValidateDocumentNumberAsWritten | src/authentication/serializers.py:50-52 | ValueError iff eight characters that `int()` rejects; success returns None |
| AccountSerializers.ValidateDocumentNumber | src/authentication/serializers.py:50-52 | passes iff eight digits, not all of them zero |
| AccountSerializers.DocumentChecksAgree | src/authentication/serializers.py:50-52 | wherever the written check does not crash, it accepts what the intended one accepts |
| AccountSerializers.LettersCrashDocumentCheck | src/authentication/serializers.py:51 | "abcdefgh" crashes the written check and is refused by the intended one |
| AccountSerializers.DocumentAccepted | src/authentication/serializers.py:50-52 | "12345678" passes both checks, and the written one returns None |
| AccountSerializers.DocumentRefused | src/authentication/serializers.py:50-52 | all zeros and seven digits are refused |
| AccountSerializers.Cleaned | src/authentication/serializers.py:31-42 | a given text field is kept, stripped |
| AccountSerializers.CheckEmailField | src/authentication/models.py:43 | after stripping, the e-mail passes iff it is non-blank, at most 254 characters, free of U+0000, well-formed (`validEmail`) and held by no other user |
| AccountSerializers.CheckGiven | src/authentication/serializers.py:31-42 | an optional text field passes iff it is absent or passes the text stage |
| AccountSerializers.CheckUserFields | src/authentication/serializers.py:31-42 | a full submission has e-mail, password, document and phone; a given e-mail passes its field stage; the password is non-blank and at most 128 characters, the names at most 150 and the description at most 500, none holding U+0000 |
| AccountSerializers.CheckDocumentFieldAsWritten | src/authentication/serializers.py:50-52 | when the field stage passes, it leaves None |
| AccountSerializers.CheckDocumentField | src/authentication/serializers.py:50-52 | passes iff the stripped value passes the intended check |
| AccountSerializers.UserSerializerAsWritten | src/authentication/serializers.py:45-52 | ends in ValueError iff the document number crashes its validator, whatever the other fields hold; otherwise in AttributeError iff the picture is an explicit null; a given picture it accepts passes the image field and the size limit; a given document number or picture becomes None in the validated data |
| AccountSerializers.LetterDocumentCrashesRegistration | src/authentication/serializers.py:50-52 | a document number of eight letters crashes the written serializer for any other field values |
| AccountSerializers.UserSerializer | src/authentication/serializers.py:29-52 | ends in AttributeError iff the picture is an explicit null; passes iff the fields and the document pass and the picture is left out or passes the image field and the size limit; carries every given value (stripped); an e-mail it carries is well-formed and free |
| AccountSerializers.RegistrationLosesDocumentNumber | src/authentication/serializers.py:50-52 | as written, every valid registration hands None to the NOT NULL document column, where the intended serializer passes the number on |
| AccountSerializers.RenderUserList | src/authentication/serializers.py:84 | exactly id, first_name and last_name |
| AccountSerializers.RenderUserDetail | src/authentication/serializers.py:31-42 | the declared fields, with the password field holding the stored hash |
| AccountViews.UserPermission | src/authentication/views.py:24-29 | AllowAny iff the action is create |
| AccountViews.OnlyRegistrationIsOpen | src/authentication/views.py:24-29 | an anonymous request can register and do nothing else |
| AccountViews.UserScope | src/authentication/views.py:31-34 | actions on one user reach only the caller's own row; list sees every user |
| AccountViews.UserSerializerFor | src/authentication/views.py:36-40 | the create serializer for create, update and partial update; list otherwise |
| AccountViews.ShowUser | src/authentication/views.py:31-40 | list shows every user; retrieve shows only the caller |
| AccountViews.ReadingShowsOnlyNames | src/authentication/views.py:36-40 | reading shows only id, first_name and last_name |
| AccountViews.PasswordRehashedOnlyWhenGiven | src/authentication/serializers.py:69-73 | the hash changes iff a password is given, to that password's hash; the username is "first last" |
| AccountViews.CreateUser | src/authentication/serializers.py:62-67 | succeeds iff the serializer passes and the new row fits its columns, else a DataError; stores one new row holding the hash of the stripped password |
| AccountViews.RegistrationFitsIff | src/authentication/models.py:48 | after the serializer, a registration's row misses its columns only through the password's hash or a username of 150 or more characters |
| AccountViews.SerializerCreate | src/authentication/serializers.py:62-67 | on validated data with a free e-mail, stores exactly NewUser, or fails with DataError when that row does not fit its columns |
| AccountViews.AssignValidated | src/authentication/serializers.py:73 | every given field but the password is set on the instance, and nothing else changes |
| AccountViews.ApplyUpdate | src/authentication/serializers.py:69-73 | the instance handed to `save` is the stored row with the given fields in place and, when a password is given, its hash |
| AccountViews.SerializerUpdate | src/authentication/serializers.py:69-73 | re-hashes a given password, assigns the rest and saves; succeeds iff UpdatedUser fits its columns, and the stored row becomes UpdatedUser; otherwise a DataError and nothing changes |
| AccountViews.UpdateUser | src/authentication/views.py:31-40 | succeeds iff authenticated, on the caller's own row, the serializer passes and the updated row fits its columns |
| AccountViews.DestroyUser | src/authentication/views.py:31-34 | only the caller's own row is deleted, with all cascades |

## Left out

- Password hashing (`set_password`) is a function parameter `hash`. Its algorithm and salt are library behaviour.
- JWT authentication is the `caller` parameter. A token names a user id, and authentication fails when that user no longer exists.
- Phone numbers are passed through unparsed, because parsing is done by an external library; its field's text stage is left out with it.
- Image storage is not modelled. A picture is its file name, its size and whether its content is an image; how the imaging library decides that is library behaviour. A submitted value that is not a file at all is not modelled.
- `birth_date` and `validate_birth_date` are not modelled. As written the validator reads `.year` off an unbound method.
- `CustomUser.get_user_rating` is not modelled. It is a float average over a related name that does not exist.
- City latitude and longitude are not modelled: they are floats with no logic.
- The `__str__` of Trip, TripParticipant and TripJoinRequest are not modelled: they are display strings only.
- The join-request timestamps are not modelled. `created_at` and `updated_at` are clock values.
- The State and City viewsets are not modelled. They are read-only listings with IsAuthenticated.
- The trip list rendering is not modelled: nested participants, string-rendered cities and the vehicle sub-rendering.
- Ordering and pagination of list responses are not modelled.
- Django's `full_clean` is modelled for the models that call it (State, City, Vehicle): blank values, every text column's `max_length`, foreign keys and uniqueness. Several failures are collected by Django; the model reports the first in field order. The serializers do the same: Django REST framework collects every field's refusal, while CheckUserFields, UserSerializer, VehicleSerializer and ReviewSerializer report only the first. City latitude and longitude are not checked, since they are not modelled.
- AccountModels.UserObj.Save: the lengths of the phone-number and picture columns are not checked, as phone numbers and image storage are left out (above).
- E-mail address syntax is a function parameter `validEmail`, as the framework's EmailValidator is library behaviour.
- An explicit null comment on a review is not modelled: `ReviewInput.comment` is either left out or a string.
- Database transactions and concurrent requests are not modelled. Each action is atomic here.
- The api app is not part of this model. It duplicates the user serializer, and its URL module imports viewsets that do not exist. The trip-key route (`trips/<int:trip_pk>/join-requests/`) lives there; `JoinRequestScope` models the key it would pass.
- Text.Upper: models Python casing over Latin-1 only. ß, ÿ and µ keep their letter, where Python's `upper()` expands or maps them outside Latin-1.
- Text.TitleAt: models `title()` over Latin-1 only, for the same reason. In particular µ keeps its letter at the start of a word, where Python gives U+039C.
- Text.Capitalize: models `capitalize()` over Latin-1 only, for the same reason.
- TripViews.CreateParticipantAsWritten: states only that the result is an error other than PermissionDenied. The exact error depends on the framework's field stage.
- Text.IsDigit: only the ASCII digits 0-9. Python's `\d`, `isdigit()` and `int()` also accept other Unicode decimal digits (such as "١٢٣"), which the model treats as non-digits.
- TripSerializers.ValidateLicensePlate: refuses a plate such as "ABC١٢٣" that Python's `\d` accepts, because of the Text.IsDigit line above.
- TripSerializers.PlateAcceptedByShape: its "exactly" holds for ASCII digits only, for the same reason.
- TripSerializers.CheckPlateField: refuses plates with non-ASCII decimal digits, for the same reason.
- AccountSerializers.ValidateDocumentNumberAsWritten: gives ValueError for a number such as "١٢٣٤٥٦٧٨", which Python's `int()` and `isdigit()` accept, for the same reason.
- Keys come from one counter shared by all tables. Separate sequences per table are not modelled.

## Findings

| source | as written | input that shows it | evidently intended | confidence | as-written member | corrected member |
|---|---|---|---|---|---|---|
| src/trip/serializers.py:145-154 | `departure_date` is not among the trip serializer's fields, so `validate` combines None with the time | any trip create with two distinct stored cities | the date is a field, checked by `validate_departure_date` | not executed; high | TripSerializers.TripSerializerAsWrittenNeverAccepts | TripSerializers.TripSerializerAcceptsIff |
| src/review/serializers.py:35-48 | `validate` falls off the end and returns None | any review whose user and reviewer both took part | `validate` returns the data | not executed; high | ReviewSerializers.ReviewValidationAsWrittenNeverSucceeds | ReviewSerializers.ValidateReview |
| src/authentication/serializers.py:51 | `int(value)` runs before `value.isdigit()` | document number "abcdefgh" | a non-numeric value is refused as invalid | not executed; high | AccountSerializers.LettersCrashDocumentCheck | AccountSerializers.ValidateDocumentNumber |
| src/authentication/serializers.py:50-52 | the document and picture validators return None, which replaces the value | registration with document "12345678" | the validators return their value | not executed; high | AccountSerializers.RegistrationLosesDocumentNumber | AccountSerializers.UserSerializer |
| src/review/models.py:31-33 | `clean` filters the trip's participants (users) by a `user` field users lack | any review, for example one by the trip's driver | the reviewer's participation is checked | not executed; high | ReviewModels.CleanAsWrittenRefusesParticipants | ReviewModels.Clean |
| src/trip/serializers.py:103-106 | `validate_trip` filters `id` by the Trip instance the field already resolved | a participant create naming a stored trip with role "driver" | filter by the trip's key, so the request reaches PermissionDenied | not executed; medium | TripViews.ParticipantCreateCrashesBeforeRefusal | TripViews.CreateParticipant |
